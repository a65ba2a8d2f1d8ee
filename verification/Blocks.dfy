/** Byte sequences seen as blocks of one size. */
module Blocks {
  type byte = x: int | 0 <= x < 256

  // `c` written over `s` from index `at`.
  function Overwrite(s: seq<byte>, at: nat, c: seq<byte>): (r: seq<byte>)
    requires at + |c| <= |s|
    ensures |r| == |s|
  {
    s[..at] + c + s[at + |c|..]
  }

  // Two writes in a row.
  lemma {:induction false} OverwriteTwice(s: seq<byte>, at: nat, a: seq<byte>, b: seq<byte>)
    requires at + |a| + |b| <= |s|
    ensures Overwrite(Overwrite(s, at, a), at + |a|, b) == Overwrite(s, at, a + b)
  {
  }

  // k blocks of `base` bytes; the product, stepwise so that proofs about it stay linear.
  function Times(k: nat, base: nat): nat { if k == 0 then 0 else Times(k - 1, base) + base }

  lemma {:induction false} TimesIsProduct(k: nat, base: nat)
    ensures Times(k, base) == k * base
  {
    if k > 0 {
      TimesIsProduct(k - 1, base);
      assert k * base == (k - 1) * base + base;
    }
  }

  lemma {:induction false} TimesMono(a: nat, b: nat, base: nat)
    requires a <= b
    ensures Times(a, base) <= Times(b, base)
    decreases b
  {
    if a < b { TimesMono(a, b - 1, base); }
  }

  lemma {:induction false} TimesAdd(a: nat, b: nat, base: nat)
    ensures Times(a + b, base) == Times(a, base) + Times(b, base)
    decreases b
  {
    if b > 0 { TimesAdd(a, b - 1, base); }
  }

  lemma {:induction false} MulMono(a: nat, b: nat, c: nat)
    requires a <= b
    ensures a * c <= b * c
  {
  }

  // A position as block number and offset.
  lemma {:induction false} Locate(pos: nat, base: nat, k: nat, off: nat)
    requires base > 0 && pos == Times(k, base) + off && off < base
    ensures pos / base == k && pos % base == off
    decreases k
  {
    if k > 0 {
      Locate(pos - base, base, k - 1, off);
      DivStep(pos, base);
    } else {
      DivSmall(pos, base);
    }
  }

  lemma {:induction false} DivSmall(pos: nat, base: nat)
    requires pos < base
    ensures pos / base == 0 && pos % base == pos
  {
  }

  lemma {:induction false} DivStep(pos: nat, base: nat)
    requires 0 < base <= pos
    ensures pos / base == (pos - base) / base + 1 && pos % base == (pos - base) % base
  {
    var q, r := (pos - base) / base, (pos - base) % base;
    assert pos == (q + 1) * base + r;
    DivUnique(pos, base, q + 1, r);
  }

  lemma {:induction false} DivUnique(pos: nat, base: nat, q: nat, r: nat)
    requires r < base && pos == q * base + r
    ensures pos / base == q && pos % base == r
  {
    var q', r' := pos / base, pos % base;
    assert pos == q' * base + r';
    if q' < q { MulMono(q' + 1, q, base); }
    if q < q' { MulMono(q + 1, q', base); }
  }

  // How many blocks hold `a` bytes: ceil(a / base).
  function CeilDiv(a: nat, base: nat): (q: nat)
    requires base > 0
    ensures Times(q, base) >= a && (a > 0 ==> q > 0 && Times(q - 1, base) < a) && (a == 0 ==> q == 0)
  {
    if a == 0 then 0
    else
      TimesIsProduct((a - 1) / base + 1, base);
      TimesIsProduct((a - 1) / base, base);
      (a - 1) / base + 1
  }

  lemma {:induction false} BlockFits(n: nat, base: nat, k: nat)
    requires k < n
    ensures Times(k, base) + base <= Times(n, base)
  {
    TimesMono(k + 1, n, base);
  }

  // Blocks of one size.
  ghost predicate Even(blocks: seq<seq<byte>>, base: nat) {
    forall i :: 0 <= i < |blocks| ==> |blocks[i]| == base
  }

  // The blocks end to end.
  function Flat(blocks: seq<seq<byte>>): seq<byte> {
    if blocks == [] then [] else Flat(blocks[..|blocks| - 1]) + blocks[|blocks| - 1]
  }

  lemma {:induction false} FlatLength(blocks: seq<seq<byte>>, base: nat)
    requires Even(blocks, base)
    ensures |Flat(blocks)| == Times(|blocks|, base)
  {
    if blocks != [] { FlatLength(blocks[..|blocks| - 1], base); }
  }

  // Writing at `off` of block `k` writes the flat bytes at that place.
  lemma {:induction false} FlatWrite(blocks: seq<seq<byte>>, base: nat, k: nat, off: nat, c: seq<byte>)
    requires Even(blocks, base) && k < |blocks| && off + |c| <= base
    ensures Times(k, base) + off + |c| <= |Flat(blocks)|
    ensures Flat(blocks[k := Overwrite(blocks[k], off, c)]) == Overwrite(Flat(blocks), Times(k, base) + off, c)
    decreases |blocks|
  {
    var n := |blocks| - 1;
    var front, last := blocks[..n], blocks[n];
    var after := blocks[k := Overwrite(blocks[k], off, c)];
    FlatLength(blocks, base);
    FlatLength(front, base);
    BlockFits(|blocks|, base, k);
    if k < n {
      FlatWrite(front, base, k, off, c);
      assert after[..n] == front[k := Overwrite(front[k], off, c)];
      OverwriteLeft(Flat(front), last, Times(k, base) + off, c);
    } else {
      assert after[..n] == front;
      OverwriteRight(Flat(front), last, off, c);
    }
  }

  lemma {:induction false} OverwriteLeft(a: seq<byte>, b: seq<byte>, at: nat, c: seq<byte>)
    requires at + |c| <= |a|
    ensures Overwrite(a + b, at, c) == Overwrite(a, at, c) + b
  {
  }

  lemma {:induction false} OverwriteRight(a: seq<byte>, b: seq<byte>, at: nat, c: seq<byte>)
    requires at + |c| <= |b|
    ensures Overwrite(a + b, |a| + at, c) == a + Overwrite(b, at, c)
  {
  }

  // Reading at `off` of block `k` reads the flat bytes at that place.
  lemma {:induction false} FlatSlice(blocks: seq<seq<byte>>, base: nat, k: nat, off: nat, len: nat)
    requires Even(blocks, base) && k < |blocks| && off + len <= base
    ensures Times(k, base) + off + len <= |Flat(blocks)|
    ensures Flat(blocks)[Times(k, base) + off..Times(k, base) + off + len] == blocks[k][off..off + len]
    decreases |blocks|
  {
    var n := |blocks| - 1;
    var front := blocks[..n];
    FlatLength(blocks, base);
    FlatLength(front, base);
    BlockFits(|blocks|, base, k);
    if k < n { FlatSlice(front, base, k, off, len); }
  }

  lemma {:induction false} FlatPrefix(a: seq<seq<byte>>, b: seq<seq<byte>>)
    requires a <= b
    ensures Flat(a) <= Flat(b)
    decreases |b|
  {
    if a != b {
      FlatPrefix(a, b[..|b| - 1]);
    }
  }

  lemma {:induction false} FlatFirst(blocks: seq<seq<byte>>, base: nat)
    requires Even(blocks, base) && |blocks| >= 1
    ensures base <= |Flat(blocks)| && Flat(blocks)[..base] == Flat(blocks[..1])
  {
    FlatPrefix(blocks[..1], blocks);
    FlatLength(blocks[..1], base);
    assert Times(1, base) == Times(0, base) + base;
  }

  lemma {:induction false} OverwriteNone(s: seq<byte>, at: nat, buf: seq<byte>)
    requires at <= |s|
    ensures Overwrite(s, at, buf[..0]) == s
  {
  }

  // The first `n` bytes of a buffer have been written.
  ghost predicate Partly(flat: seq<byte>, s: seq<byte>, at: nat, buf: seq<byte>, n: nat) {
    n <= |buf| && at + |buf| <= |s| && flat == Overwrite(s, at, buf[..n])
  }

  // A write that goes on with the next bytes of its buffer.
  lemma {:induction false} OverwriteMore(s: seq<byte>, at: nat, buf: seq<byte>, p: nat, q: nat, s': seq<byte>)
    requires at + |buf| <= |s| && p <= q <= |buf|
    requires s' == Overwrite(Overwrite(s, at, buf[..p]), at + p, buf[p..q])
    ensures Partly(s', s, at, buf, q)
  {
    OverwriteTwice(s, at, buf[..p], buf[p..q]);
    assert buf[..p] + buf[p..q] == buf[..q];
  }

  // Sequences that agree on a stretch agree on every part of it.
  lemma {:induction false} SubSlice(s: seq<byte>, t: seq<byte>, lo: nat, hi: nat, a: nat, b: nat)
    requires lo <= a <= b <= hi <= |s| && hi <= |t| && s[lo..hi] == t[lo..hi]
    ensures s[a..b] == t[a..b]
  {
    forall i | a <= i < b ensures s[i] == t[i] { assert s[lo..hi][i - lo] == t[lo..hi][i - lo]; }
  }

  // Writing inside a prefix that two sequences share leaves the rest of it.
  lemma {:induction false} OverwriteKeeps(s: seq<byte>, t: seq<byte>, at: nat, c: seq<byte>)
    requires t <= s && at <= |t| && at + |c| <= |s|
    ensures var w := Overwrite(s, at, c);
            w[..at] == t[..at] && w[at..at + |c|] == c && (at + |c| <= |t| ==> w[at + |c|..|t|] == t[at + |c|..])
  {
    var w, end := Overwrite(s, at, c), at + |c|;
    forall i | 0 <= i < at ensures w[i] == t[i] { assert s[i] == t[i]; }
    if end <= |t| {
      forall i | end <= i < |t| ensures w[i] == t[i] { assert s[i] == t[i]; }
    }
  }

  lemma {:induction false} SliceJoin(s: seq<byte>, lo: nat, mid: nat, hi: nat)
    requires lo <= mid <= hi <= |s|
    ensures s[lo..mid] + s[mid..hi] == s[lo..hi]
  {
  }
}
