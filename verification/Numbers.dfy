/** How ByteArray turns numbers into bytes: fixed width in either byte order, base-128 varints and zigzag. */
module Numbers {
  import opened Blocks

  function Pow2(n: nat): (r: nat)
    ensures r > 0
  {
    if n == 0 then 1 else 2 * Pow2(n - 1)
  }

  lemma {:induction false} Pow2Add(a: nat, b: nat)
    ensures Pow2(a + b) == Pow2(a) * Pow2(b)
    decreases a
  {
    if a > 0 {
      Pow2Add(a - 1, b);
      assert Pow2(a) * Pow2(b) == 2 * (Pow2(a - 1) * Pow2(b));
    }
  }

  // ---------------------------------------------------------------- two's complement

  // The value as an unsigned number of `bits` bits, and back to a signed one.
  function Unsigned(v: int, bits: nat): nat { v % Pow2(bits) }

  function Signed(u: nat, bits: nat): int
    requires bits > 0
  {
    if u < Pow2(bits - 1) then u else u - Pow2(bits)
  }

  predicate InSigned(v: int, bits: nat)
    requires bits > 0
  {
    0 <= v + Pow2(bits - 1) < Pow2(bits)
  }

  lemma {:induction false} SignedUnsigned(v: int, bits: nat)
    requires bits > 0 && InSigned(v, bits)
    ensures Unsigned(v, bits) == (if v >= 0 then v else v + Pow2(bits)) && Signed(Unsigned(v, bits), bits) == v
  {
    var m := Pow2(bits);
    assert m == 2 * Pow2(bits - 1);
    if v < 0 { ModIs(v, m, -1, v + m); } else { ModIs(v, m, 0, v); }
  }

  lemma {:induction false} ModIs(v: int, m: nat, q: int, r: nat)
    requires v == q * m + r && r < m
    ensures v % m == r
  {
    var q', r' := v / m, v % m;
    assert v == m * q' + r';
    assert (q - q') * m == r' - r;
    Multiples(q - q', m);
  }

  lemma {:induction false} Multiples(d: int, m: nat)
    ensures (d >= 1 ==> d * m >= m) && (d <= -1 ==> d * m + m <= 0)
  {
    assert d * m == (d - 1) * m + m && d * m == (d + 1) * m - m;
  }

  // ---------------------------------------------------------------- zigzag

  // The encoder's expressions, wrap-around included.
  function EncodeZigzag(v: int, bits: nat): nat
    requires bits > 0 && InSigned(v, bits)
  {
    if v < 0 then Unsigned(Unsigned(-v, bits) * 2 - 1, bits) else Unsigned(v * 2, bits)
  }

  // (u >> 1) ^ -(u & 1), read as a signed number: xor with 0 or with all ones.
  function DecodeZigzag(u: nat, bits: nat): int
    requires bits > 0 && u < Pow2(bits)
  {
    Signed(if u % 2 == 0 then u / 2 else Pow2(bits) - 1 - u / 2, bits)
  }

  // Small numbers of either sign become small unsigned ones, -2^(bits-1) included.
  lemma {:induction false} ZigzagIs(v: int, bits: nat)
    requires bits > 0 && InSigned(v, bits)
    ensures EncodeZigzag(v, bits) == (if v >= 0 then 2 * v else -2 * v - 1) < Pow2(bits)
  {
    var m := Pow2(bits);
    assert m == 2 * Pow2(bits - 1);
    if v < 0 { ModIs(-v, m, 0, -v); ModIs(-v * 2 - 1, m, 0, -v * 2 - 1); } else { ModIs(v * 2, m, 0, v * 2); }
  }

  lemma {:induction false} ZigzagRoundTrip(v: int, bits: nat)
    requires bits > 0 && InSigned(v, bits)
    ensures EncodeZigzag(v, bits) < Pow2(bits) && DecodeZigzag(EncodeZigzag(v, bits), bits) == v
  {
    ZigzagIs(v, bits);
    assert Pow2(bits) == 2 * Pow2(bits - 1);
  }

  // And the other way: every unsigned number is the code of exactly one signed one.
  lemma {:induction false} ZigzagOnto(u: nat, bits: nat)
    requires bits > 0 && u < Pow2(bits)
    ensures InSigned(DecodeZigzag(u, bits), bits) && EncodeZigzag(DecodeZigzag(u, bits), bits) == u
  {
    assert Pow2(bits) == 2 * Pow2(bits - 1);
    ZigzagIs(DecodeZigzag(u, bits), bits);
  }

  // ---------------------------------------------------------------- fixed width

  // The `w` low bytes of `u`, least first.
  function Little(u: nat, w: nat): (s: seq<byte>)
    ensures |s| == w
  {
    if w == 0 then [] else [u % 256] + Little(u / 256, w - 1)
  }

  function LittleValue(s: seq<byte>): nat {
    if s == [] then 0 else s[0] + 256 * LittleValue(s[1..])
  }

  function Reversed(s: seq<byte>): (r: seq<byte>)
    ensures |r| == |s|
  {
    if s == [] then [] else Reversed(s[1..]) + [s[0]]
  }

  lemma {:induction false} ReversedTwice(s: seq<byte>)
    ensures Reversed(Reversed(s)) == s
  {
    if s != [] {
      ReversedSnoc(Reversed(s[1..]), s[0]);
      ReversedTwice(s[1..]);
    }
  }

  lemma {:induction false} ReversedSnoc(s: seq<byte>, b: byte)
    ensures Reversed(s + [b]) == [b] + Reversed(s)
  {
    if s == [] {
      assert [] + [b] == [b] && [b][1..] == [];
    } else {
      assert (s + [b])[1..] == s[1..] + [b];
      ReversedSnoc(s[1..], b);
    }
  }

  lemma {:induction false} Pow2Eight()
    ensures Pow2(8) == 256
  {
    assert Pow2(4) == 16;
    Pow2Add(4, 4);
  }

  lemma {:induction false} HeadByte(b: byte, v: nat, p: nat)
    requires v < p
    ensures (b + 256 * v) % 256 == b && (b + 256 * v) / 256 == v && b + 256 * v < 256 * p
  {
  }

  lemma {:induction false} LittleRoundTrip(u: nat, w: nat)
    requires u < Pow2(8 * w)
    ensures LittleValue(Little(u, w)) == u
  {
    if w > 0 {
      Pow2Add(8, 8 * (w - 1));
      Pow2Eight();
      LittleRoundTrip(u / 256, w - 1);
    }
  }

  lemma {:induction false} LittleValueRoundTrip(s: seq<byte>)
    ensures LittleValue(s) < Pow2(8 * |s|) && Little(LittleValue(s), |s|) == s
  {
    if s != [] {
      Pow2Add(8, 8 * (|s| - 1));
      Pow2Eight();
      LittleValueRoundTrip(s[1..]);
      HeadByte(s[0], LittleValue(s[1..]), Pow2(8 * (|s| - 1)));
    }
  }

  // A number as it lies in the memory of a host with the byte order `host` (true: little endian), and byteswap.
  function Memory(u: nat, w: nat, host: bool): (s: seq<byte>)
    ensures |s| == w
  {
    if host then Little(u, w) else Reversed(Little(u, w))
  }

  function FromMemory(s: seq<byte>, host: bool): nat {
    LittleValue(if host then s else Reversed(s))
  }

  function ByteSwap(u: nat, w: nat): nat { LittleValue(Reversed(Little(u, w))) }

  // What the fixed-width writers store and the readers make of it.
  function EncodeFixed(u: nat, w: nat, little: bool, host: bool): (s: seq<byte>)
    ensures |s| == w
  {
    Memory(if little != host then ByteSwap(u, w) else u, w, host)
  }

  function DecodeFixed(s: seq<byte>, little: bool, host: bool): nat {
    var v := FromMemory(s, host);
    if little == host then v else ByteSwap(v, |s|)
  }

  // The stored bytes do not depend on the host: they are the number in the chosen byte order.
  lemma {:induction false} FixedIsPortable(u: nat, w: nat, little: bool, host: bool)
    ensures EncodeFixed(u, w, little, host) == if little then Little(u, w) else Reversed(Little(u, w))
  {
    if little != host {
      LittleValueRoundTrip(Reversed(Little(u, w)));
      ReversedTwice(Little(u, w));
    }
  }

  lemma {:induction false} FixedRoundTrip(u: nat, w: nat, little: bool, host: bool, reader: bool)
    requires u < Pow2(8 * w)
    ensures DecodeFixed(EncodeFixed(u, w, little, host), little, reader) == u
  {
    FixedIsPortable(u, w, little, host);
    var s := Little(u, w);
    LittleRoundTrip(u, w);
    ReversedTwice(s);
    LittleValueRoundTrip(Reversed(s));
  }

  // ---------------------------------------------------------------- varints

  // Groups of seven bits, least first, all but the last with the high bit set.
  function EncodeVarint(u: nat): (s: seq<byte>)
    ensures |s| >= 1
  {
    if u < 128 then [u] else [u % 128 + 128] + EncodeVarint(u / 128)
  }

  // The loop of writeUint32 and writeUint64.
  method WriteGroups(value: nat) returns (tmp: seq<byte>)
    ensures tmp == EncodeVarint(value)
  {
    var v := value;
    tmp := [];
    while v >= 0x80
      invariant v >= 0 && EncodeVarint(value) == tmp + EncodeVarint(v)
      decreases v
    {
      assert EncodeVarint(v) == [v % 128 + 128] + EncodeVarint(v / 128);
      tmp, v := tmp + [v % 0x80 + 0x80], v / 128;
    }
    tmp := tmp + [v];
  }

  // A varint has as few bytes as its bits need: at most 5 for 32 bits, at most 10 for 64.
  lemma {:induction false} VarintLength(u: nat, k: nat)
    requires k > 0
    ensures |EncodeVarint(u)| <= k <==> u < Pow2(7 * k)
    decreases k
  {
    Pow2Seven();
    if k > 1 {
      Pow2Add(7, 7 * (k - 1));
      if u >= 128 {
        VarintLength(u / 128, k - 1);
      } else {
        assert Pow2(7 * (k - 1)) >= 1;
      }
    }
  }

  lemma {:induction false} VarintFits(u: nat, bits: nat)
    requires (bits == 32 || bits == 64) && u < Pow2(bits)
    ensures |EncodeVarint(u)| <= if bits == 32 then 5 else 10
  {
    var k := if bits == 32 then 5 else 10;
    Pow2Grows(bits, 7 * k);
    VarintLength(u, k);
  }

  // A group of seven bits moved to its place in a number of `bits` bits; what falls off the top is lost.
  function Shifted(b: nat, i: nat, bits: nat): nat { (b * Pow2(i)) % Pow2(bits) }

  // What the read loop makes of `s`, from shift `i` on: the number, and how many bytes it took. None: not enough bytes.
  datatype Groups = Groups(value: nat, used: nat) | Short(used: nat)

  function Prepend(acc: nat, n: nat, g: Groups): Groups {
    match g
    case Groups(v, k) => Groups(acc + v, n + k)
    case Short(k) => Short(n + k)
  }

  function DecodeVarint(s: seq<byte>, i: nat, bits: nat): Groups
    decreases bits - i
  {
    if i >= bits then Groups(0, 0)
    else if s == [] then Short(0)
    else if s[0] < 0x80 then Groups(Shifted(s[0], i, bits), 1)
    else Prepend(Shifted(s[0] % 0x80, i, bits), 1, DecodeVarint(s[1..], i + 7, bits))
  }

  lemma {:induction false} ShiftMod(b: nat, p: nat, w: nat)
    requires p > 0 && w > 0
    ensures p * w > 0 && (b * w) % (p * w) == (b % p) * w < p * w
  {
    var q, r := b / p, b % p;
    assert b == q * p + r;
    Distribute(q, p, r, w);
    MulStrict(r, p, w);
    ModIs(b * w, p * w, q, r * w);
  }

  lemma {:induction false} Distribute(q: nat, p: nat, r: nat, w: nat)
    ensures (q * p + r) * w == q * (p * w) + r * w
  {
    assert (q * p + r) * w == (q * p) * w + r * w;
    assert (q * p) * w == q * (p * w);
  }

  lemma {:induction false} MulStrict(a: nat, b: nat, c: nat)
    requires a < b && c > 0
    ensures a * c < b * c
  {
    MulMono(a + 1, b, c);
    assert (a + 1) * c == a * c + c;
  }

  // The bits of `b` that still have a place, in their place.
  lemma {:induction false} ShiftedIs(b: nat, i: nat, bits: nat)
    requires i <= bits
    ensures Shifted(b, i, bits) == (b % Pow2(bits - i)) * Pow2(i) < Pow2(bits)
  {
    Pow2Add(bits - i, i);
    ShiftMod(b, Pow2(bits - i), Pow2(i));
  }

  lemma {:induction false} Pow2Seven()
    ensures Pow2(7) == 128
  {
    assert Pow2(4) == 16 && Pow2(3) == 8;
    Pow2Add(4, 3);
  }

  lemma {:induction false} GroupArith(b: nat, m: nat, w: nat, r: nat)
    requires b < 128 && m < r
    ensures b * w + m * (128 * w) == (b + 128 * m) * w && b + 128 * m < 128 * r
  {
    Distribute(m, 128, b, w);
  }

  // A group in front of the rest.
  lemma {:induction false} GroupInFront(b: nat, m: nat, i: nat, bits: nat)
    requires i + 7 <= bits && b < 128 && m < Pow2(bits - i - 7)
    ensures Shifted(b, i, bits) + m * Pow2(i + 7) == (b + 128 * m) * Pow2(i) && b + 128 * m < Pow2(bits - i)
  {
    Pow2Seven();
    Pow2Add(7, bits - i - 7);
    Pow2Add(7, i);
    ShiftedIs(b, i, bits);
    ModIs(b, Pow2(bits - i), 0, b);
    GroupArith(b, m, Pow2(i), Pow2(bits - i - 7));
  }

  // Round trip, with anything after it.
  lemma {:induction false} VarintRoundTrip(u: nat, i: nat, bits: nat, rest: seq<byte>)
    requires i < bits && u < Pow2(bits - i)
    ensures DecodeVarint(EncodeVarint(u) + rest, i, bits) == Groups(u * Pow2(i), |EncodeVarint(u)|)
    decreases u
  {
    var s := EncodeVarint(u) + rest;
    if u < 128 {
      ShiftedIs(u, i, bits);
      ModIs(u, Pow2(bits - i), 0, u);
      assert s[0] == u;
    } else {
      assert s == [u % 128 + 128] + (EncodeVarint(u / 128) + rest);
      var q, r := u / 128, u % 128;
      ManyBits(u, bits - i);
      GroupInFront(r, q, i, bits);
      VarintRoundTrip(q, i + 7, bits, rest);
      FirstGroup(s, r, i, bits, EncodeVarint(q) + rest);
      assert u == r + 128 * q;
    }
  }

  lemma {:induction false} FirstGroup(s: seq<byte>, r: nat, i: nat, bits: nat, rest: seq<byte>)
    requires i < bits && r < 128 && s == [r + 128] + rest
    ensures DecodeVarint(s, i, bits) == Prepend(Shifted(r, i, bits), 1, DecodeVarint(rest, i + 7, bits))
  {
    assert s[1..] == rest;
  }

  lemma {:induction false} ManyBits(u: nat, n: nat)
    requires 128 <= u < Pow2(n)
    ensures n > 7 && u / 128 < Pow2(n - 7)
  {
    Pow2Seven();
    if n <= 7 { Pow2Grows(n, 7); } else { Pow2Add(7, n - 7); }
  }

  lemma {:induction false} Pow2Grows(a: nat, b: nat)
    requires a <= b
    ensures Pow2(a) <= Pow2(b)
    decreases b
  {
    if a < b { Pow2Grows(a, b - 1); }
  }

  // Whatever the bytes: what comes after shift `i` is a multiple of 2^i, so that joining the groups with | is adding
  // them, and the number stays below 2^bits; never more bytes are taken than the width allows.
  lemma {:induction false} VarintBounds(s: seq<byte>, i: nat, bits: nat) returns (m: nat)
    requires i < bits
    ensures DecodeVarint(s, i, bits).used <= |s| && 7 * DecodeVarint(s, i, bits).used < bits - i + 7
    ensures DecodeVarint(s, i, bits).Groups? ==>
              DecodeVarint(s, i, bits).value == m * Pow2(i) && m < Pow2(bits - i)
    decreases bits - i
  {
    m := 0;
    if s == [] { return; }
    var b := s[0] % 0x80;
    ShiftedIs(b, i, bits);
    if s[0] >= 0x80 && i + 7 < bits {
      var rest := VarintBounds(s[1..], i + 7, bits);
      var g := DecodeVarint(s[1..], i + 7, bits);
      assert DecodeVarint(s, i, bits) == Prepend(Shifted(b, i, bits), 1, g);
      if g.Groups? {
        GroupInFront(b, rest, i, bits);
        m := b + 128 * rest;
      }
    } else {
      assert s[0] < 0x80 ==> b == s[0];
      m := b % Pow2(bits - i);
    }
  }
}
