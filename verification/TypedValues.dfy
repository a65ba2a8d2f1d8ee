/** Typed values on a flat byte array: how they are laid out and what the readers make of the bytes at the cursor. */
module TypedValues {
  import opened Blocks
  import opened FlatArrays
  import opened Numbers

  datatype Prefix = F16 | F32 | F64 | Vint

  // Fixed: fixed-width integers, and floats and doubles by their bits. Varint: the base-128 integers, zigzag when
  // signed. Text: strings behind their length.
  datatype Kind = Fixed(w: nat, signed: bool) | Varint(bits: nat, zigzag: bool) | Text(prefix: Prefix)
  datatype Value = Number(n: int) | Bytes(s: seq<byte>)
  datatype Item = Item(kind: Kind, little: bool, value: Value)

  predicate Width(w: nat) { w == 1 || w == 2 || w == 4 || w == 8 }

  // The value is one of the C++ type that the kind stands for.
  ghost predicate Typed(kind: Kind, value: Value) {
    match kind
    case Fixed(w, signed) =>
      Width(w) && value.Number? && if signed then InSigned(value.n, 8 * w) else 0 <= value.n < Pow2(8 * w)
    case Varint(bits, zigzag) =>
      && (bits == 32 || bits == 64) && value.Number?
      && if zigzag then InSigned(value.n, bits) else 0 <= value.n < Pow2(bits)
    case Text(_) => value.Bytes?
  }

  function PrefixBits(p: Prefix): nat { match p case F16 => 16 case F32 => 32 case F64 => 64 case Vint => 64 }

  // The length as it is written: cut to the width of the prefix.
  function EncodeLength(n: nat, p: Prefix, little: bool, host: bool): seq<byte> {
    var u := Unsigned(n, PrefixBits(p));
    match p
    case F16 => EncodeFixed(u, 2, little, host)
    case F32 => EncodeFixed(u, 4, little, host)
    case F64 => EncodeFixed(u, 8, little, host)
    case Vint => EncodeVarint(u)
  }

  function Encode(kind: Kind, value: Value, little: bool, host: bool): seq<byte>
    requires Typed(kind, value)
  {
    match kind
    case Fixed(w, _) => EncodeFixed(Unsigned(value.n, 8 * w), w, little, host)
    case Varint(bits, zigzag) => EncodeVarint(if zigzag then EncodeZigzag(value.n, bits) else value.n)
    case Text(p) => EncodeLength(|value.s|, p, little, host) + value.s
  }

  // ---------------------------------------------------------------- readers

  // Got: the value, and the array with the cursor behind it. Thrown: out_of_range, with the cursor where it got to.
  // Crash: a read of nothing at the end of the capacity, where there is no current block.
  datatype Got<T> = Got(v: T, next: FlatArray) | Thrown(next: FlatArray) | Crash

  function FlatRead(f: FlatArray, n: nat): Got<seq<byte>>
    requires f.Wf()
  {
    if n > f.ReadSize() then Thrown(f)
    else if n == 0 && f.position == |f.bytes| then Crash
    else Got(Window(f, n), f.(position := f.position + n))
  }

  function FlatFixed(f: FlatArray, w: nat, little: bool, host: bool): Got<nat>
    requires f.Wf() && w > 0
  {
    match FlatRead(f, w)
    case Got(s, g) => Got(DecodeFixed(s, little, host), g)
    case Thrown(g) => Thrown(g)
    case Crash => Crash
  }

  function FlatVarint(f: FlatArray, bits: nat): Got<nat>
    requires f.Wf()
  {
    match DecodeVarint(f.bytes[f.position..f.size], 0, bits)
    case Groups(v, n) => Got(v, f.(position := f.position + n))
    case Short(n) => Thrown(f.(position := f.position + n))
  }

  function FlatCount(f: FlatArray, p: Prefix, little: bool, host: bool): Got<nat>
    requires f.Wf()
  {
    match p
    case F16 => FlatFixed(f, 2, little, host)
    case F32 => FlatFixed(f, 4, little, host)
    case F64 => FlatFixed(f, 8, little, host)
    case Vint => FlatVarint(f, 64)
  }

  // The cursor only moves on, inside the size.
  ghost predicate Keeps<T>(f: FlatArray, r: Got<T>) {
    match r
    case Got(_, g) => f.position <= g.position <= f.size && g == f.(position := g.position)
    case Thrown(g) => f.position <= g.position <= f.size && g == f.(position := g.position)
    case Crash => true
  }

  lemma {:induction false} VarintKeeps(f: FlatArray, bits: nat)
    requires f.Wf() && bits > 0
    ensures Keeps(f, FlatVarint(f, bits)) && !FlatVarint(f, bits).Crash?
    ensures FlatVarint(f, bits).Got? ==> FlatVarint(f, bits).v < Pow2(bits)
  {
    var _ := VarintBounds(f.bytes[f.position..f.size], 0, bits);
  }

  lemma {:induction false} LengthKeeps(f: FlatArray, p: Prefix, little: bool, host: bool)
    requires f.Wf()
    ensures Keeps(f, FlatCount(f, p, little, host))
  {
    VarintKeeps(f, 64);
  }

  function FlatText(f: FlatArray, p: Prefix, little: bool, host: bool): Got<seq<byte>>
    requires f.Wf()
  {
    match FlatCount(f, p, little, host)
    case Got(n, g) => LengthKeeps(f, p, little, host); FlatRead(g, n)
    case Thrown(g) => Thrown(g)
    case Crash => Crash
  }

  predicate Known(kind: Kind) {
    match kind
    case Fixed(w, _) => Width(w)
    case Varint(bits, _) => bits == 32 || bits == 64
    case Text(_) => true
  }

  function FlatItem(f: FlatArray, kind: Kind, little: bool, host: bool): Got<Value>
    requires f.Wf() && Known(kind)
  {
    match kind
    case Fixed(w, signed) =>
      (match FlatFixed(f, w, little, host)
       case Got(u, g) => Got(Number(if signed then Signed(u, 8 * w) else u), g)
       case Thrown(g) => Thrown(g)
       case Crash => Crash)
    case Varint(bits, zigzag) =>
      (match FlatVarint(f, bits)
       case Got(u, g) => Got(Number(if zigzag && u < Pow2(bits) then DecodeZigzag(u, bits) else u), g)
       case Thrown(g) => Thrown(g)
       case Crash => Crash)
    case Text(p) =>
      (match FlatText(f, p, little, host)
       case Got(s, g) => Got(Bytes(s), g)
       case Thrown(g) => Thrown(g)
       case Crash => Crash)
  }

  // Whatever bytes the readers meet.
  lemma {:induction false} ItemKeeps(f: FlatArray, kind: Kind, little: bool, host: bool)
    requires f.Wf() && Known(kind)
    ensures Keeps(f, FlatItem(f, kind, little, host))
  {
    match kind
    case Fixed(w, signed) =>
    case Varint(bits, zigzag) => VarintKeeps(f, bits);
    case Text(p) => LengthKeeps(f, p, little, host);
  }

  // ---------------------------------------------------------------- reading back

  ghost predicate Here(f: FlatArray, s: seq<byte>) {
    f.Wf() && f.position + |s| <= f.size && f.bytes[f.position..f.position + |s|] == s
  }

  function Past(f: FlatArray, n: nat): FlatArray { f.(position := f.position + n) }

  lemma {:induction false} HereSplit(f: FlatArray, a: seq<byte>, b: seq<byte>)
    requires Here(f, a + b)
    ensures Here(f, a) && Here(Past(f, |a|), b)
  {
    var p, w := f.position, f.bytes[f.position..f.position + |a + b|];
    assert w[..|a|] == f.bytes[p..p + |a|] && w[|a|..] == f.bytes[p + |a|..p + |a + b|];
  }

  lemma {:induction false} FixedReadsBack(f: FlatArray, u: nat, w: nat, little: bool, host: bool)
    requires w > 0 && u < Pow2(8 * w) && Here(f, EncodeFixed(u, w, little, host))
    ensures FlatFixed(f, w, little, host) == Got(u, Past(f, w))
  {
    FixedRoundTrip(u, w, little, host, host);
  }

  lemma {:induction false} VarintReadsBack(f: FlatArray, u: nat, bits: nat)
    requires bits > 0 && u < Pow2(bits) && Here(f, EncodeVarint(u))
    ensures FlatVarint(f, bits) == Got(u, Past(f, |EncodeVarint(u)|))
  {
    var n := |EncodeVarint(u)|;
    var s := f.bytes[f.position..f.size];
    assert s == f.bytes[f.position..f.position + n] + f.bytes[f.position + n..f.size];
    VarintRoundTrip(u, 0, bits, f.bytes[f.position + n..f.size]);
  }

  lemma {:induction false} LengthReadsBack(f: FlatArray, n: nat, p: Prefix, little: bool, host: bool)
    requires Here(f, EncodeLength(n, p, little, host))
    ensures FlatCount(f, p, little, host) ==
            Got(Unsigned(n, PrefixBits(p)), Past(f, |EncodeLength(n, p, little, host)|))
  {
    var u := Unsigned(n, PrefixBits(p));
    match p
    case F16 => FixedReadsBack(f, u, 2, little, host);
    case F32 => FixedReadsBack(f, u, 4, little, host);
    case F64 => FixedReadsBack(f, u, 8, little, host);
    case Vint => VarintReadsBack(f, u, 64);
  }

  // What comes back for a text: its first (length mod 2^bits) bytes. Nothing at all comes back as a crash when the
  // prefix ends at the capacity.
  lemma {:induction false} TextReadsBack(f: FlatArray, s: seq<byte>, p: Prefix, little: bool, host: bool)
    requires Here(f, EncodeLength(|s|, p, little, host) + s)
    ensures Unsigned(|s|, PrefixBits(p)) <= |s|
    ensures var n, head := Unsigned(|s|, PrefixBits(p)), |EncodeLength(|s|, p, little, host)|;
            FlatText(f, p, little, host) ==
            if n == 0 && f.position + head == |f.bytes| then Crash else Got(s[..n], Past(f, head + n))
  {
    var head := EncodeLength(|s|, p, little, host);
    var n := Unsigned(|s|, PrefixBits(p));
    assert n <= |s| by { ModAtMost(|s|, Pow2(PrefixBits(p))); }
    HereSplit(f, head, s);
    LengthReadsBack(f, |s|, p, little, host);
    HeadReads(Past(f, |head|), s, n);
  }

  lemma {:induction false} HeadReads(g: FlatArray, s: seq<byte>, n: nat)
    requires Here(g, s) && n <= |s|
    ensures FlatRead(g, n) == if n == 0 && g.position == |g.bytes| then Crash else Got(s[..n], Past(g, n))
  {
    assert g.bytes[g.position..g.position + n] == g.bytes[g.position..g.position + |s|][..n];
  }

  lemma {:induction false} ModAtMost(a: nat, m: nat)
    requires m > 0
    ensures a % m <= a && (a % m == a <==> a < m)
  {
  }

  // The values that come back as they were, wherever they are written: every number, and every text that is not empty
  // and whose length fits its prefix.
  ghost predicate Fits(kind: Kind, value: Value) {
    Typed(kind, value) && (kind.Text? ==> 0 < |value.s| < Pow2(PrefixBits(kind.prefix)))
  }

  lemma {:induction false} ItemReadsBack(f: FlatArray, kind: Kind, value: Value, little: bool, host: bool)
    requires Fits(kind, value) && Here(f, Encode(kind, value, little, host))
    ensures FlatItem(f, kind, little, host) == Got(value, Past(f, |Encode(kind, value, little, host)|))
  {
    match kind
    case Fixed(w, signed) =>
      if signed { SignedUnsigned(value.n, 8 * w); } else { ModAtMost(value.n, Pow2(8 * w)); }
      FixedReadsBack(f, Unsigned(value.n, 8 * w), w, little, host);
    case Varint(bits, zigzag) =>
      if zigzag { ZigzagRoundTrip(value.n, bits); }
      VarintReadsBack(f, if zigzag then EncodeZigzag(value.n, bits) else value.n, bits);
    case Text(p) =>
      TextReadsBack(f, value.s, p, little, host);
      ModAtMost(|value.s|, Pow2(PrefixBits(p)));
      assert value.s[..|value.s|] == value.s;
  }

  // A text whose length does not fit comes back shorter.
  lemma {:induction false} LongTextIsCut(f: FlatArray, s: seq<byte>, p: Prefix, little: bool, host: bool)
    requires Here(f, EncodeLength(|s|, p, little, host) + s) && s != []
    ensures FlatText(f, p, little, host).Got? && FlatText(f, p, little, host).v == s <==> |s| < Pow2(PrefixBits(p))
  {
    TextReadsBack(f, s, p, little, host);
    ModAtMost(|s|, Pow2(PrefixBits(p)));
    assert s[..|s|] == s;
  }

  // ---------------------------------------------------------------- lists

  ghost predicate TypedItem(x: Item) { Typed(x.kind, x.value) }

  ghost predicate AllTyped(items: seq<Item>) {
    forall i {:trigger TypedItem(items[i])} :: 0 <= i < |items| ==> TypedItem(items[i])
  }

  function EncodeItem(x: Item, host: bool): seq<byte>
    requires TypedItem(x)
  {
    Encode(x.kind, x.value, x.little, host)
  }

  function EncodeAll(items: seq<Item>, host: bool): seq<byte>
    requires AllTyped(items)
  {
    if items == [] then []
    else
      var n := |items| - 1;
      assert TypedItem(items[n]);
      EncodeAll(items[..n], host) + EncodeItem(items[n], host)
  }

  lemma {:induction false} PrefixTyped(items: seq<Item>, i: nat)
    requires AllTyped(items) && i <= |items|
    ensures AllTyped(items[..i])
  {
    forall j | 0 <= j < i ensures TypedItem(items[..i][j]) { assert TypedItem(items[j]); }
  }

  lemma {:induction false} EncodeMore(items: seq<Item>, i: nat, host: bool)
    requires i < |items| && AllTyped(items)
    ensures AllTyped(items[..i]) && AllTyped(items[..i + 1]) && TypedItem(items[i])
    ensures EncodeAll(items[..i + 1], host) == EncodeAll(items[..i], host) + EncodeItem(items[i], host)
  {
    PrefixTyped(items, i);
    PrefixTyped(items, i + 1);
    assert TypedItem(items[i]);
    assert items[..i + 1][..i] == items[..i];
  }

  // The bytes of an item stand behind those of the items before it.
  lemma {:induction false} ItemHere(f: FlatArray, items: seq<Item>, i: nat, host: bool)
    requires i < |items| && AllTyped(items) && Here(f, EncodeAll(items, host))
    ensures AllTyped(items[..i]) && TypedItem(items[i]) && Here(f, EncodeAll(items[..i], host))
    ensures Here(Past(f, |EncodeAll(items[..i], host)|), EncodeItem(items[i], host))
    decreases |items|
  {
    var n := |items| - 1;
    assert items[..n + 1] == items;
    EncodeMore(items, n, host);
    HereSplit(f, EncodeAll(items[..n], host), EncodeItem(items[n], host));
    if i < n {
      var front := items[..n];
      assert front[..i] == items[..i] && front[i] == items[i];
      ItemHere(f, front, i, host);
    }
  }
}
