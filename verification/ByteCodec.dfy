/** The typed writers and readers of ByteArray. `host` is the byte order of the machine (true: little endian). */
module ByteCodec {
  import opened Ascii
  import opened Blocks
  import opened FlatArrays
  import opened ByteArrays
  import opened Numbers
  import opened TypedValues

  // ---------------------------------------------------------------- writers

  method WriteFixed(a: ByteArray, u: nat, w: nat, host: bool)
    requires a.Valid()
    modifies a, a.repr
    ensures a.Valid() && fresh(a.repr - old(a.repr)) && a.littleEndian == old(a.littleEndian)
    ensures old(a.State()).Wf() && Wrote(old(a.State()), EncodeFixed(u, w, a.littleEndian, host), a.State())
  {
    var value := u;
    if a.littleEndian != host { value := ByteSwap(value, w); }
    a.Write(Memory(value, w, host));
  }

  method WriteVarint(a: ByteArray, u: nat)
    requires a.Valid()
    modifies a, a.repr
    ensures a.Valid() && fresh(a.repr - old(a.repr)) && a.littleEndian == old(a.littleEndian)
    ensures old(a.State()).Wf() && Wrote(old(a.State()), EncodeVarint(u), a.State())
  {
    var tmp := WriteGroups(u);
    a.Write(tmp);
  }

  method WriteLength(a: ByteArray, n: nat, p: Prefix, host: bool)
    requires a.Valid()
    modifies a, a.repr
    ensures a.Valid() && fresh(a.repr - old(a.repr)) && a.littleEndian == old(a.littleEndian)
    ensures old(a.State()).Wf() && Wrote(old(a.State()), EncodeLength(n, p, a.littleEndian, host), a.State())
  {
    var u := Unsigned(n, PrefixBits(p));
    match p
    case F16 => WriteFixed(a, u, 2, host);
    case F32 => WriteFixed(a, u, 4, host);
    case F64 => WriteFixed(a, u, 8, host);
    case Vint => WriteVarint(a, u);
  }

  method WriteText(a: ByteArray, s: seq<byte>, p: Prefix, host: bool)
    requires a.Valid()
    modifies a, a.repr
    ensures a.Valid() && fresh(a.repr - old(a.repr)) && a.littleEndian == old(a.littleEndian)
    ensures old(a.State()).Wf()
    ensures Wrote(old(a.State()), EncodeLength(|s|, p, a.littleEndian, host) + s, a.State())
  {
    ghost var f := a.State();
    WriteLength(a, |s|, p, host);
    ghost var g := a.State();
    a.Write(s);
    WroteMore(f, EncodeLength(|s|, p, a.littleEndian, host), g, s, a.State());
  }

  method WriteItem(a: ByteArray, kind: Kind, value: Value, host: bool)
    requires a.Valid() && Typed(kind, value)
    modifies a, a.repr
    ensures a.Valid() && fresh(a.repr - old(a.repr)) && a.littleEndian == old(a.littleEndian)
    ensures old(a.State()).Wf() && Wrote(old(a.State()), Encode(kind, value, a.littleEndian, host), a.State())
  {
    match kind
    case Fixed(w, _) => WriteFixed(a, Unsigned(value.n, 8 * w), w, host);
    case Varint(bits, zigzag) => WriteVarint(a, if zigzag then EncodeZigzag(value.n, bits) else value.n);
    case Text(p) => WriteText(a, value.s, p, host);
  }

  method WriteItems(a: ByteArray, items: seq<Item>, host: bool)
    requires a.Valid() && AllTyped(items)
    modifies a, a.repr
    ensures a.Valid() && fresh(a.repr - old(a.repr))
    ensures old(a.State()).Wf() && Wrote(old(a.State()), EncodeAll(items, host), a.State())
  {
    a.CursorIsBlock();
    ghost var f := a.State();
    assert items[..0] == [];
    for i := 0 to |items|
      invariant a.Valid() && fresh(a.repr - old(a.repr))
      invariant AllTyped(items[..i]) && Wrote(f, EncodeAll(items[..i], host), a.State())
    {
      WriteNext(a, items, i, host, f);
    }
    assert items[..|items|] == items;
  }

  method WriteNext(a: ByteArray, items: seq<Item>, i: nat, host: bool, ghost f: FlatArray)
    requires a.Valid() && f.Wf() && AllTyped(items) && i < |items|
    requires AllTyped(items[..i]) && Wrote(f, EncodeAll(items[..i], host), a.State())
    modifies a, a.repr
    ensures a.Valid() && fresh(a.repr - old(a.repr))
    ensures AllTyped(items[..i + 1]) && Wrote(f, EncodeAll(items[..i + 1], host), a.State())
  {
    ghost var g := a.State();
    var v := items[i];
    EncodeMore(items, i, host);
    a.littleEndian := v.little;
    WriteItem(a, v.kind, v.value, host);
    WroteMore(f, EncodeAll(items[..i], host), g, EncodeItem(v, host), a.State());
  }

  // ---------------------------------------------------------------- readers

  datatype Result<T> = Ok(v: T) | Failed | NoBlock

  // A reader does what the flat array says.
  ghost predicate Agrees<T>(r: Result<T>, spec: Got<T>, g: FlatArray) {
    match spec
    case Got(v, next) => r == Ok(v) && g == next
    case Thrown(next) => r == Failed && g == next
    case Crash => r == NoBlock
  }

  method ReadBytes(a: ByteArray, n: nat) returns (r: Result<seq<byte>>)
    requires a.Valid()
    modifies a`position, a`cur, a`at
    ensures a.Valid() && old(a.State()).Wf() && Agrees(r, FlatRead(old(a.State()), n), a.State())
  {
    a.CursorIsBlock();
    if n == 0 && a.position == a.capacity { return NoBlock; }
    var s := a.Read(n);
    r := if s.Some? then Ok(s.value) else Failed;
  }

  method ReadFixed(a: ByteArray, w: nat, host: bool) returns (r: Result<nat>)
    requires a.Valid() && w > 0
    modifies a`position, a`cur, a`at
    ensures a.Valid() && old(a.State()).Wf()
    ensures Agrees(r, FlatFixed(old(a.State()), w, a.littleEndian, host), a.State())
  {
    var s := ReadBytes(a, w);
    match s
    case Ok(m) =>
      var v := FromMemory(m, host);
      r := Ok(if a.littleEndian == host then v else ByteSwap(v, |m|));
    case Failed => r := Failed;
    case NoBlock => r := NoBlock;
  }

  method ReadByte(a: ByteArray) returns (r: Result<byte>)
    requires a.Valid()
    modifies a`position, a`cur, a`at
    ensures a.Valid() && old(a.State()).Wf()
    ensures var f := old(a.State());
            if f.position < f.size then r == Ok(f.bytes[f.position]) && a.State() == Past(f, 1)
            else r == Failed && a.State() == f
  {
    var s := ReadBytes(a, 1);
    r := if s.Ok? then Ok(s.v[0]) else Failed;
  }

  // The same, for byte number `n` of what there was to read.
  method ReadByteAt(a: ByteArray, ghost f: FlatArray, ghost s: seq<byte>, ghost n: nat) returns (r: Result<byte>)
    requires a.Valid() && f.Wf() && s == f.bytes[f.position..f.size] && n <= |s| && a.State() == Past(f, n)
    modifies a`position, a`cur, a`at
    ensures a.Valid() && r == (if n < |s| then Ok(s[n]) else Failed)
    ensures a.State() == if n < |s| then Past(f, n + 1) else Past(f, n)
  {
    r := ReadByte(a);
  }

  method ReadVarint(a: ByteArray, bits: nat) returns (r: Result<nat>)
    requires a.Valid() && bits > 0
    modifies a`position, a`cur, a`at
    ensures a.Valid() && old(a.State()).Wf() && Agrees(r, FlatVarint(old(a.State()), bits), a.State())
  {
    a.CursorIsBlock();
    ghost var f := a.State();
    ghost var s := f.bytes[f.position..f.size];
    ghost var dec := Decoder(s, bits);
    DecoderSteps(s, bits);
    assert s[0..] == s;
    var g := ReadGroups(a, bits, f, s, dec);
    r := match g case Groups(v, _) => Ok(v) case Short(_) => Failed;
  }

  // What the bytes from number `n` on come to at shift `i`.
  type Decoding = (nat, nat) -> Groups

  ghost function Decoder(s: seq<byte>, bits: nat): Decoding {
    (n: nat, i: nat) => if n <= |s| then DecodeVarint(s[n..], i, bits) else Short(0)
  }

  ghost predicate Steps(dec: Decoding, s: seq<byte>, bits: nat, n: nat, i: nat) {
    if n > |s| then true
    else if i >= bits then dec(n, i) == Groups(0, 0)
    else if n == |s| then dec(n, i) == Short(0)
    else if s[n] < 0x80 then dec(n, i) == Groups(Shifted(s[n], i, bits), 1)
    else dec(n, i) == Prepend(Shifted(s[n] % 0x80, i, bits), 1, dec(n + 1, i + 7))
  }

  lemma {:induction false} DecoderSteps(s: seq<byte>, bits: nat)
    ensures forall n, i :: Steps(Decoder(s, bits), s, bits, n, i)
  {
    forall n: nat, i: nat ensures Steps(Decoder(s, bits), s, bits, n, i) {
      if n < |s| { assert s[n..][1..] == s[n + 1..]; }
    }
  }

  // The loop of readUint32 and readUint64. The groups do not overlap (VarintBounds), so `|` is written as a sum.
  method ReadGroups(a: ByteArray, bits: nat, ghost f: FlatArray, ghost s: seq<byte>, ghost dec: Decoding)
    returns (g: Groups)
    requires a.Valid() && bits > 0 && f == a.State() && f.Wf() && s == f.bytes[f.position..f.size]
    requires forall n, i :: Steps(dec, s, bits, n, i)
    modifies a`position, a`cur, a`at
    ensures a.Valid() && g == dec(0, 0) && a.State() == Past(f, g.used)
  {
    var result: nat, i: nat := 0, 0;
    var done: Option<Groups> := None;
    ghost var n: nat := 0;
    g := Groups(0, 0);
    while i < bits && done.None?
      invariant a.Valid() && n <= |s| && a.State() == Past(f, n)
      invariant if done.Some? then done.value == dec(0, 0) && done.value.used == n
                else g == Groups(result, n) && dec(0, 0) == Prepend(result, n, dec(n, i))
      decreases bits - i, done.None?
    {
      assert Steps(dec, s, bits, n, i);
      var b := ReadByteAt(a, f, s, n);
      if b.Failed? {
        done := Some(Short(g.used));
      } else if b.v < 0x80 {
        done := Some(Groups(result + Shifted(b.v, i, bits), g.used + 1));
        n := n + 1;
      } else {
        result, i, n := result + Shifted(b.v % 0x80, i, bits), i + 7, n + 1;
        g := Groups(result, g.used + 1);
      }
    }
    if done.Some? { g := done.value; }
    assert Steps(dec, s, bits, n, i);
  }

  method ReadLength(a: ByteArray, p: Prefix, host: bool) returns (r: Result<nat>)
    requires a.Valid()
    modifies a`position, a`cur, a`at
    ensures a.Valid() && old(a.State()).Wf()
    ensures Agrees(r, FlatCount(old(a.State()), p, a.littleEndian, host), a.State())
  {
    match p
    case F16 => r := ReadFixed(a, 2, host);
    case F32 => r := ReadFixed(a, 4, host);
    case F64 => r := ReadFixed(a, 8, host);
    case Vint => r := ReadVarint(a, 64);
  }

  method ReadText(a: ByteArray, p: Prefix, host: bool) returns (r: Result<seq<byte>>)
    requires a.Valid()
    modifies a`position, a`cur, a`at
    ensures a.Valid() && old(a.State()).Wf()
    ensures Agrees(r, FlatText(old(a.State()), p, a.littleEndian, host), a.State())
  {
    a.CursorIsBlock();
    LengthKeeps(a.State(), p, a.littleEndian, host);
    var len := ReadLength(a, p, host);
    match len
    case Ok(n) => r := ReadBytes(a, n);
    case Failed => r := Failed;
    case NoBlock => r := NoBlock;
  }

  method ReadItem(a: ByteArray, kind: Kind, host: bool) returns (r: Result<Value>)
    requires a.Valid() && Known(kind)
    modifies a`position, a`cur, a`at
    ensures a.Valid() && old(a.State()).Wf()
    ensures Agrees(r, FlatItem(old(a.State()), kind, a.littleEndian, host), a.State())
  {
    match kind
    case Fixed(w, signed) => r := ReadFixedItem(a, w, signed, host);
    case Varint(bits, zigzag) => r := ReadVarintItem(a, bits, zigzag, host);
    case Text(p) =>
      var s := ReadText(a, p, host);
      r := match s
           case Ok(v) => Ok(Bytes(v))
           case Failed => Failed
           case NoBlock => NoBlock;
  }

  method ReadFixedItem(a: ByteArray, w: nat, signed: bool, host: bool) returns (r: Result<Value>)
    requires a.Valid() && Width(w)
    modifies a`position, a`cur, a`at
    ensures a.Valid() && old(a.State()).Wf()
    ensures Agrees(r, FlatItem(old(a.State()), Fixed(w, signed), a.littleEndian, host), a.State())
  {
    var u := ReadFixed(a, w, host);
    r := match u
         case Ok(v) => Ok(Number(if signed then Signed(v, 8 * w) else v))
         case Failed => Failed
         case NoBlock => NoBlock;
  }

  method ReadVarintItem(a: ByteArray, bits: nat, zigzag: bool, host: bool) returns (r: Result<Value>)
    requires a.Valid() && (bits == 32 || bits == 64)
    modifies a`position, a`cur, a`at
    ensures a.Valid() && old(a.State()).Wf()
    ensures Agrees(r, FlatItem(old(a.State()), Varint(bits, zigzag), a.littleEndian, host), a.State())
  {
    a.CursorIsBlock();
    VarintKeeps(a.State(), bits);
    var u := ReadVarint(a, bits);
    r := match u
         case Ok(v) => Ok(Number(if zigzag then DecodeZigzag(v, bits) else v))
         case Failed => Failed
         case NoBlock => NoBlock;
  }

  // ---------------------------------------------------------------- round trip

  ghost predicate AllFit(items: seq<Item>) {
    forall i :: 0 <= i < |items| ==> Fits(items[i].kind, items[i].value)
  }

  // Items that stand at the cursor are read one after the other, across the blocks, and the cursor ends behind them.
  method ReadItems(a: ByteArray, items: seq<Item>, host: bool) returns (values: seq<Value>)
    requires a.Valid() && AllFit(items) && AllTyped(items) && Here(a.State(), EncodeAll(items, host))
    modifies a`position, a`cur, a`at, a`littleEndian
    ensures a.Valid() && a.State() == Past(old(a.State()), |EncodeAll(items, host)|)
    ensures |values| == |items| && forall i :: 0 <= i < |items| ==> values[i] == items[i].value
  {
    ghost var fs := Stages(a.State(), items, host);
    values := [];
    for i := 0 to |items|
      invariant a.Valid() && a.State() == fs[i]
      invariant |values| == i && forall j :: 0 <= j < i ==> values[j] == items[j].value
    {
      var v := ReadNext(a, items[i], host, fs[i + 1]);
      values := values + [v];
    }
  }

  // Where the cursor is after each item.
  lemma {:induction false} Stages(f: FlatArray, items: seq<Item>, host: bool) returns (fs: seq<FlatArray>)
    requires AllFit(items) && AllTyped(items) && Here(f, EncodeAll(items, host))
    ensures |fs| == |items| + 1 && fs[0] == f && fs[|items|] == Past(f, |EncodeAll(items, host)|)
    ensures forall i :: 0 <= i < |items| ==>
              fs[i].Wf() && Known(items[i].kind) &&
              FlatItem(fs[i], items[i].kind, items[i].little, host) == Got(items[i].value, fs[i + 1])
  {
    assert items[..0] == [] && items[..|items|] == items;
    forall i | 0 <= i <= |items| ensures AllTyped(items[..i]) { PrefixTyped(items, i); }
    fs := seq(|items| + 1, i requires 0 <= i <= |items| => Past(f, |EncodeAll(items[..i], host)|));
    forall i | 0 <= i < |items|
      ensures fs[i].Wf() && Known(items[i].kind) &&
              FlatItem(fs[i], items[i].kind, items[i].little, host) == Got(items[i].value, fs[i + 1])
    {
      assert Fits(items[i].kind, items[i].value);
      NextReads(f, items, i, host);
    }
  }

  method ReadNext(a: ByteArray, item: Item, host: bool, ghost next: FlatArray) returns (value: Value)
    requires a.Valid() && a.State().Wf() && Known(item.kind)
    requires FlatItem(a.State(), item.kind, item.little, host) == Got(item.value, next)
    modifies a`position, a`cur, a`at, a`littleEndian
    ensures a.Valid() && value == item.value && a.State() == next
  {
    a.littleEndian := item.little;
    var r := ReadItem(a, item.kind, host);
    value := r.v;
  }

  lemma {:induction false} NextReads(f: FlatArray, items: seq<Item>, i: nat, host: bool)
    requires i < |items| && AllTyped(items) && Fits(items[i].kind, items[i].value) && Here(f, EncodeAll(items, host))
    ensures AllTyped(items[..i]) && AllTyped(items[..i + 1]) && Past(f, |EncodeAll(items[..i], host)|).Wf()
    ensures FlatItem(Past(f, |EncodeAll(items[..i], host)|), items[i].kind, items[i].little, host) ==
            Got(items[i].value, Past(f, |EncodeAll(items[..i + 1], host)|))
  {
    var v := items[i];
    ItemHere(f, items, i, host);
    ItemReadsBack(Past(f, |EncodeAll(items[..i], host)|), v.kind, v.value, v.little, host);
    EncodeMore(items, i, host);
  }

  // Written from any position and read back from there: the same values.
  method WriteThenRead(a: ByteArray, items: seq<Item>, host: bool) returns (values: seq<Value>)
    requires a.Valid() && AllFit(items) && AllTyped(items)
    modifies a, a.repr
    ensures a.Valid() && fresh(a.repr - old(a.repr))
    ensures |values| == |items| && forall i :: 0 <= i < |items| ==> values[i] == items[i].value
    ensures old(a.State()).Wf() && Wrote(old(a.State()), EncodeAll(items, host), a.State())
  {
    var p := a.position;
    ghost var f := a.State();
    WriteItems(a, items, host);
    WroteIsHere(f, EncodeAll(items, host), a.State());
    var _ := a.SetPosition(p);
    values := ReadItems(a, items, host);
  }

  // What was written stands at the old cursor, and reading past it comes back to where writing ended.
  lemma {:induction false} WroteIsHere(f: FlatArray, s: seq<byte>, g: FlatArray)
    requires f.Wf() && Wrote(f, s, g)
    ensures Here(Moved(g, f.position), s) && Past(Moved(g, f.position), |s|) == g
  {
  }
}
