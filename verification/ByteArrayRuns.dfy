/** Runs of operations: the list of blocks and the flat array give the same results. */
module ByteArrayRuns {
  import opened Blocks
  import opened FlatArrays
  import opened ByteArrays

  // `fs` is a run of the flat array over `ops` with the results `outs`.
  ghost predicate FlatRun(fs: seq<FlatArray>, ops: seq<Op>, outs: seq<Out>) {
    && |fs| == |ops| + 1 == |outs| + 1
    && (forall i :: 0 <= i < |fs| ==> fs[i].Wf())
    && (forall i :: 0 <= i < |ops| ==> FlatStep(fs[i], ops[i], fs[i + 1], outs[i]))
  }

  ghost predicate Fits(op: Op) { op.Scatter? ==> |op.data| <= op.n }

  // Every sequence of operations on the list is a run of the flat array, with the same results.
  method Run(a: ByteArray, ops: seq<Op>) returns (outs: seq<Out>, ghost fs: seq<FlatArray>)
    requires a.Valid() && forall i :: 0 <= i < |ops| ==> Fits(ops[i])
    modifies a, a.repr
    ensures a.Valid() && fresh(a.repr - old(a.repr))
    ensures FlatRun(fs, ops, outs) && fs[0] == old(a.State()) && fs[|ops|] == a.State()
  {
    a.CursorIsBlock();
    outs, fs := [], [a.State()];
    for i := 0 to |ops|
      invariant a.Valid() && fresh(a.repr - old(a.repr))
      invariant |outs| == i && FlatRun(fs, ops[..i], outs) && fs[0] == old(a.State()) && fs[i] == a.State()
    {
      assert Fits(ops[i]);
      var out := Apply(a, ops[i]);
      a.CursorIsBlock();
      RunMore(fs, ops, i, outs, a.State(), out);
      outs, fs := outs + [out], fs + [a.State()];
    }
    assert ops[..|ops|] == ops;
  }

  lemma {:induction false} RunMore(fs: seq<FlatArray>, ops: seq<Op>, i: nat, outs: seq<Out>, g: FlatArray, out: Out)
    requires i < |ops| && FlatRun(fs, ops[..i], outs) && g.Wf() && FlatStep(fs[i], ops[i], g, out)
    ensures FlatRun(fs + [g], ops[..i + 1], outs + [out])
  {
    var fs', ops', outs' := fs + [g], ops[..i + 1], outs + [out];
    forall j | 0 <= j < |ops'| ensures FlatStep(fs'[j], ops'[j], fs'[j + 1], outs'[j]) {
      if j < i { assert FlatStep(fs[j], ops[..i][j], fs[j + 1], outs[j]); }
    }
  }

  // Along a run the capacity stays a whole number of blocks, and never shrinks but for clear.
  lemma {:induction false} CapacityIsBlocks(fs: seq<FlatArray>, ops: seq<Op>, outs: seq<Out>, k: nat) returns (n: nat)
    requires FlatRun(fs, ops, outs) && |fs[0].bytes| == Times(k, fs[0].base)
    ensures fs[|ops|].base == fs[0].base && |fs[|ops|].bytes| == Times(n, fs[0].base)
    ensures (forall i :: 0 <= i < |ops| ==> !ops[i].Clear?) ==> n >= k
    decreases |ops|
  {
    n := k;
    if ops != [] {
      var m := |ops| - 1;
      n := CapacityIsBlocks(fs[..m + 1], ops[..m], outs[..m], k);
      assert FlatStep(fs[m], ops[m], fs[m + 1], outs[m]);
      n := StepKeepsBlocks(fs[m], ops[m], fs[m + 1], outs[m], n);
    }
  }

  lemma {:induction false} StepKeepsBlocks(f: FlatArray, op: Op, g: FlatArray, out: Out, n: nat) returns (n': nat)
    requires f.Wf() && FlatStep(f, op, g, out) && |f.bytes| == Times(n, f.base)
    ensures g.base == f.base && |g.bytes| == Times(n', f.base) && (!op.Clear? ==> n' >= n)
  {
    n' := n;
    match op
    case Write(buf) => n' := GrownIsBlocks(f, |buf|, n);
    case Scatter(m, data) => n' := GrownIsBlocks(f, m, n);
    case Clear =>
      n' := 1;
      assert Times(1, f.base) == Times(0, f.base) + f.base;
    case Read(_) =>
    case SetPosition(_) =>
    case Gather(_) =>
  }

  lemma {:induction false} GrownIsBlocks(f: FlatArray, n: nat, k: nat) returns (k': nat)
    requires f.Wf() && |f.bytes| == Times(k, f.base)
    ensures Grown(f, n) == Times(k', f.base) && k' >= k
  {
    var room := |f.bytes| - f.position;
    k' := k;
    if n > room {
      k' := k + CeilDiv(n - room, f.base);
      TimesAdd(k, CeilDiv(n - room, f.base), f.base);
    }
  }

  // The growth is least: without it, or with one block less, the bytes would not fit.
  lemma {:induction false} GrowthIsLeast(f: FlatArray, n: nat, k: nat)
    requires f.Wf() && |f.bytes| == Times(k, f.base)
    ensures forall j :: k <= j && Times(j, f.base) >= f.position + n ==> Times(j, f.base) >= Grown(f, n)
  {
    var k' := GrownIsBlocks(f, n, k);
    forall j | k <= j && Times(j, f.base) >= f.position + n ensures Times(j, f.base) >= Grown(f, n) {
      TimesMono(k, j, f.base);
      if j < k' { BlockFits(k', f.base, j); } else { TimesMono(k', j, f.base); }
    }
  }

  // What was written is read back from the same position, and everything else that was there stays.
  lemma {:induction false} ReadBack(f: FlatArray, buf: seq<byte>, g: FlatArray)
    requires f.Wf() && Written(f, buf, g)
    ensures g.Wf() && Moved(g, f.position).ReadSize() >= |buf|
    ensures Window(Moved(g, f.position), |buf|) == buf
    ensures forall i :: 0 <= i < |f.bytes| && !(f.position <= i < f.position + |buf|) ==> g.bytes[i] == f.bytes[i]
  {
    var end := f.position + |buf|;
    forall i | 0 <= i < |f.bytes| && !(f.position <= i < end) ensures g.bytes[i] == f.bytes[i] {
      if i < f.position {
        assert g.bytes[..f.position][i] == f.bytes[..f.position][i];
      } else {
        assert g.bytes[end..|f.bytes|][i - end] == f.bytes[end..][i - end];
      }
    }
  }
}
