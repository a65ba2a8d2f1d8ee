/** One flat byte array with a cursor: what ByteArray promises to be. */
module FlatArrays {
  import opened Blocks

  datatype FlatArray = FlatArray(base: nat, bytes: seq<byte>, position: nat, size: nat) {
    ghost predicate Wf() { base > 0 && position <= size <= |bytes| }

    function ReadSize(): nat
      requires position <= size
    { size - position }
  }

  // The capacity after making room for `n` bytes at the cursor.
  function Grown(f: FlatArray, n: nat): (cap: nat)
    requires f.Wf()
    ensures cap >= |f.bytes| && cap >= f.position + n
    ensures cap == |f.bytes| || cap < f.position + n + f.base
  {
    var room := |f.bytes| - f.position;
    if n <= room then |f.bytes| else |f.bytes| + Times(CeilDiv(n - room, f.base), f.base)
  }

  // Room for `n` bytes: old bytes stay, new ones are whatever the allocator left there.
  ghost predicate Roomy(f: FlatArray, n: nat, g: FlatArray)
    requires f.Wf()
  {
    && g == f.(bytes := g.bytes) && |g.bytes| == Grown(f, n) && g.bytes[..|f.bytes|] == f.bytes
  }

  // `buf` was written at the cursor, which moved past it; nothing else changed.
  ghost predicate Wrote(f: FlatArray, buf: seq<byte>, g: FlatArray)
    requires f.Wf()
  {
    var end := f.position + |buf|;
    && g.base == f.base && g.position == end && g.size == (if end > f.size then end else f.size)
    && |g.bytes| >= |f.bytes| && |g.bytes| >= end
    && g.bytes[..f.position] == f.bytes[..f.position]
    && g.bytes[f.position..end] == buf
    && (end <= |f.bytes| ==> g.bytes[end..|f.bytes|] == f.bytes[end..])
  }

  ghost predicate Written(f: FlatArray, buf: seq<byte>, g: FlatArray)
    requires f.Wf()
  {
    Wrote(f, buf, g) && |g.bytes| == Grown(f, |buf|)
  }

  // One write after another is one write of both.
  lemma {:induction false} WroteMore(f: FlatArray, a: seq<byte>, g: FlatArray, b: seq<byte>, h: FlatArray)
    requires f.Wf() && Wrote(f, a, g) && g.Wf() && Wrote(g, b, h)
    ensures Wrote(f, a + b, h)
  {
    var p, q, r := f.position, g.position, h.position;
    assert h.bytes[..q] == h.bytes[0..q] && g.bytes[..q] == g.bytes[0..q];
    SubSlice(h.bytes, g.bytes, 0, q, 0, p);
    SubSlice(h.bytes, g.bytes, 0, q, p, q);
    SliceJoin(h.bytes, p, q, r);
    if r <= |f.bytes| {
      SubSlice(h.bytes, g.bytes, r, |g.bytes|, r, |f.bytes|);
      SubSlice(g.bytes, f.bytes, q, |f.bytes|, r, |f.bytes|);
    }
  }

  // setPosition: out of range throws; past the size it makes the size follow.
  function Moved(f: FlatArray, v: nat): FlatArray {
    if v > |f.bytes| then f else f.(position := v, size := if v > f.size then v else f.size)
  }

  // The operations, and what each does to the flat array and gives back. Memory that was never written may hold
  // anything, so the next state is related to the last, not computed from it.
  datatype Op =
    | Write(buf: seq<byte>)
    | Read(n: nat)
    | SetPosition(v: nat)
    | Clear
    | Gather(n: nat)                     // getReadBuffers, and a send of what they point at
    | Scatter(n: nat, data: seq<byte>)   // getWriteBuffers, and a receive that fills them with `data`

  datatype Out = Done | Data(s: seq<byte>) | OutOfRange | NullBlock

  function Min(a: nat, b: nat): nat { if a < b then a else b }

  ghost predicate FlatStep(f: FlatArray, op: Op, g: FlatArray, out: Out)
    requires f.Wf()
  {
    match op
    case Write(buf) => Written(f, buf, g) && out == Done
    case Read(n) =>
      if n > f.ReadSize() then g == f && out == OutOfRange
      else if n == 0 && f.position == |f.bytes| then g == f && out == NullBlock
      else g == f.(position := f.position + n) && out == Data(Window(f, n))
    case SetPosition(v) => g == Moved(f, v) && out == if v > |f.bytes| then OutOfRange else Done
    case Clear => |g.bytes| == f.base <= |f.bytes| && g == FlatArray(f.base, f.bytes[..f.base], 0, 0) && out == Done
    case Gather(n) => g == f && out == Data(Window(f, Min(n, f.ReadSize())))
    case Scatter(n, data) =>
      Received(f, n, data, g) && out == Done
  }

  // Room for `n` bytes at the cursor, and the first of them filled.
  ghost predicate Received(f: FlatArray, n: nat, data: seq<byte>, g: FlatArray)
    requires f.Wf()
  {
    && |data| <= n && g == f.(bytes := g.bytes) && |g.bytes| == Grown(f, n)
    && g.bytes[..f.position] == f.bytes[..f.position]
    && g.bytes[f.position..f.position + |data|] == data
    && (f.position + |data| <= |f.bytes| ==> g.bytes[f.position + |data|..|f.bytes|] == f.bytes[f.position + |data|..])
  }

  function Window(f: FlatArray, n: nat): seq<byte>
    requires f.position + n <= |f.bytes|
  {
    f.bytes[f.position..f.position + n]
  }

  // ---------------------------------------------------------------- the read at a given position

  const SIZE_LIMIT: nat := 0x1_0000_0000_0000_0000  // of a size_t

  // m_size - position, as the source subtracts: past the size it wraps.
  function Readable(size: nat, p: nat): int { if p <= size then size - p else SIZE_LIMIT - (p - size) }

  // Where the bytes are read: at that offset of the cursor's block, whatever the position.
  function Place(f: FlatArray, p: nat): nat
    requires f.base > 0
  {
    f.position / f.base * f.base + p % f.base
  }

  // What it does: a null block is met at once with the cursor at the end of the capacity, or by walking off the list.
  function ReadOut(f: FlatArray, n: nat, p: nat): Out
    requires f.base > 0
  {
    if n > Readable(f.size, p) then OutOfRange
    else if f.position == |f.bytes| then NullBlock
    else if n == 0 then Data([])
    else if Place(f, p) + n > |f.bytes| then NullBlock
    else Data(f.bytes[Place(f, p)..Place(f, p) + n])
  }

  // What it is for: the bytes at the position, or the exception where there are not so many.
  function Wanted(f: FlatArray, n: nat, p: nat): Out
    requires f.Wf()
  {
    if p > f.size || n > f.size - p then OutOfRange else Data(f.bytes[p..p + n])
  }

  predicate SameBlock(f: FlatArray, p: nat)
    requires f.base > 0
  {
    p / f.base == f.position / f.base
  }

  // It does that, whatever the bytes, exactly when the position lies past the size and the length is so large that the
  // wrapped difference refuses it too, or when it lies inside and the length is refused or the block is the cursor's.
  predicate ReadsRight(f: FlatArray, n: nat, p: nat)
    requires f.base > 0
  {
    if p > f.size then n > SIZE_LIMIT - (p - f.size)
    else n > f.size - p || (f.position < |f.bytes| && (n == 0 || SameBlock(f, p)))
  }

  lemma {:induction false} PlaceIsRight(f: FlatArray, p: nat)
    requires f.base > 0
    ensures Place(f, p) == p <==> SameBlock(f, p)
  {
    assert p == p / f.base * f.base + p % f.base;
    var k, m := p / f.base, f.position / f.base;
    if k < m { MulStrict(k, m, f.base); }
    if m < k { MulStrict(m, k, f.base); }
  }

  lemma {:induction false} MulStrict(a: nat, b: nat, c: nat)
    requires c > 0 && a < b
    ensures a * c < b * c
  {
    MulMono(a + 1, b, c);
  }

  lemma {:induction false} ReadsRightIff(f: FlatArray, n: nat, p: nat)
    requires f.Wf()
    ensures (forall bytes: seq<byte> :: |bytes| == |f.bytes| ==>
               ReadOut(f.(bytes := bytes), n, p) == Wanted(f.(bytes := bytes), n, p)) <==>
            ReadsRight(f, n, p)
  {
    PlaceIsRight(f, p);
    if ReadsRight(f, n, p) {
      forall bytes: seq<byte> | |bytes| == |f.bytes|
        ensures ReadOut(f.(bytes := bytes), n, p) == Wanted(f.(bytes := bytes), n, p) {
        PlaceIsRight(f.(bytes := bytes), p);
        if p <= f.size && n == 0 { assert bytes[p..p] == []; }
      }
    } else {
      var bytes := WrongBytes(f, n, p);
    }
  }

  // Otherwise there are bytes that show it: all zero, but for a one at the position.
  lemma {:induction false} WrongBytes(f: FlatArray, n: nat, p: nat) returns (bytes: seq<byte>)
    requires f.Wf() && !ReadsRight(f, n, p)
    ensures |bytes| == |f.bytes| && ReadOut(f.(bytes := bytes), n, p) != Wanted(f.(bytes := bytes), n, p)
  {
    bytes := seq(|f.bytes|, i => if i == p then 1 else 0);
    var g := f.(bytes := bytes);
    PlaceIsRight(g, p);
    if p <= f.size && ReadOut(g, n, p).Data? && n > 0 {
      assert ReadOut(g, n, p).s[0] == 0 && Wanted(g, n, p).s[0] == 1;
    }
  }

  // Inputs at which it goes wrong: a position in another block, and one past the size, where nothing is refused and
  // memory that was never written is given out.
  lemma {:induction false} WrongBlock(bytes: seq<byte>)
    requires |bytes| == 8
    ensures var f := FlatArray(4, bytes, 4, 8);
            ReadOut(f, 1, 0) == Data([bytes[4]]) && Wanted(f, 1, 0) == Data([bytes[0]])
  {
  }

  lemma {:induction false} PastTheSize(bytes: seq<byte>)
    requires |bytes| == 16
    ensures var f := FlatArray(16, bytes, 4, 4);
            ReadOut(f, 2, 8) == Data(bytes[8..10]) && Wanted(f, 2, 8) == OutOfRange && SameBlock(f, 8)
  {
  }
}

/** ByteArray: the linked list of blocks with a moving block pointer. */
module ByteArrays {
  import opened Ascii
  import opened Blocks
  import opened FlatArrays

  class Node {
    var data: seq<byte>  // the block's memory; its length never changes
    var next: Node?
    ghost const at: nat  // its number in the list

    // A new block: its memory is whatever the allocator left there.
    constructor (memory: seq<byte>, ghost k: nat)
      ensures data == memory && next == null && at == k
    {
      data, next, at := memory, null, k;
    }
  }

  // One iovec: a window into the memory of a block.
  datatype Iov = Iov(node: Node, off: nat, len: nat) {
    // Where it starts in the flat memory.
    ghost function Start(base: nat): nat { Times(node.at, base) + off }
  }

  function Total(iovs: seq<Iov>): nat {
    if iovs == [] then 0 else Total(iovs[..|iovs| - 1]) + iovs[|iovs| - 1].len
  }

  // The windows up to and with number `i`, when there are that many.
  lemma {:induction false} TotalNext(iovs: seq<Iov>, i: nat)
    requires i <= |iovs|
    ensures Total(iovs[..i]) <= Total(iovs) && (i == |iovs| ==> iovs[..i] == iovs)
    ensures i < |iovs| ==> Total(iovs[..i + 1]) == Total(iovs[..i]) + iovs[i].len
    decreases |iovs|
  {
    if i < |iovs| {
      assert iovs[..i + 1][..i] == iovs[..i];
      var front := iovs[..|iovs| - 1];
      assert front[..i] == iovs[..i];
      TotalNext(front, i);
    } else {
      assert iovs[..i] == iovs;
    }
  }

  class ByteArray {
    const base: nat
    const root: Node
    var position: nat
    var capacity: nat
    var size: nat
    var littleEndian: bool
    var cur: Node?
    ghost var at: nat
    ghost var nodes: seq<Node>
    ghost var blocks: seq<seq<byte>>  // the memory of each
    ghost var repr: set<object>

    // The list: linked from the root, blocks of one size, nothing shared.
    ghost predicate Spine()
      reads this`nodes, this`blocks, this`capacity, this`repr, repr
    {
      && this !in repr && base > 0 && |nodes| == |blocks| >= 1 && nodes[0] == root
      && Even(blocks, base) && capacity == Times(|nodes|, base)
      && (forall i :: 0 <= i < |nodes| ==>
            nodes[i] in repr && nodes[i].at == i && nodes[i].data == blocks[i])
      && (forall i {:trigger nodes[i].next} :: 0 <= i < |nodes| - 1 ==> nodes[i].next == nodes[i + 1])
      && nodes[|nodes| - 1].next == null
    }

    // The cursor is in block number `at`, which is null exactly at the end of the capacity.
    ghost predicate CursorOk()
      reads this`position, this`cur, this`nodes, this`at
    {
      && at <= |nodes| && cur == (if at < |nodes| then nodes[at] else null)
      && Times(at, base) <= position < Times(at, base) + base
    }

    ghost predicate Valid()
      reads this`position, this`size, this`capacity, this`cur, this`at, this`nodes, this`blocks, this`repr, repr
    {
      Spine() && CursorOk() && position <= size <= capacity
    }

    // The flat array this list stands for.
    ghost function State(): FlatArray
      reads this`blocks, this`position, this`size
    {
      FlatArray(base, Flat(blocks), position, size)
    }

    // What the representation comes to: whole blocks, and the block pointer at position / base.
    lemma {:induction false} CursorIsBlock()
      requires Valid()
      ensures State().Wf() && |State().bytes| == capacity == |nodes| * base
      ensures cur == null <==> position == capacity
      ensures position < capacity ==> position / base < |nodes| && cur == nodes[position / base]
    {
      FlatLength(blocks, base);
      TimesIsProduct(|nodes|, base);
      Locate(position, base, at, position - Times(at, base));
      if at < |nodes| { TimesMono(at + 1, |nodes|, base); }
    }

    constructor (baseSize: nat)
      requires baseSize > 0
      ensures Valid() && fresh(repr) && base == baseSize
      ensures State().position == 0 && State().size == 0 && |State().bytes| == baseSize && !littleEndian
    {
      var raw := new byte[baseSize];
      var memory := raw[..];
      var n := new Node(memory, 0);
      base, root, position, capacity, size, littleEndian, cur, at := baseSize, n, 0, baseSize, 0, false, n, 0;
      nodes, blocks, repr := [n], [memory], {n};
      FlatLength([memory], baseSize);
      new;
    }

    // ---------------------------------------------------------------- addCapacity

    // One more block after the last.
    method Append(tail: Node, memory: seq<byte>) returns (n: Node)
      requires Spine() && tail == nodes[|nodes| - 1] && |memory| == base
      modifies this`nodes, this`blocks, this`repr, this`capacity, tail`next
      ensures Spine() && fresh(n) && repr == old(repr) + {n} && nodes == old(nodes) + [n]
      ensures capacity == old(capacity) + base && blocks == old(blocks) + [memory]
    {
      n := new Node(memory, |nodes|);
      tail.next := n;
      nodes, blocks, repr := nodes + [n], blocks + [memory], repr + {n};
      capacity := capacity + base;
    }

    // The loop that walks to the last block.
    method Last() returns (tail: Node)
      requires Spine()
      ensures tail == nodes[|nodes| - 1]
    {
      tail := root;
      ghost var k := 0;
      while tail.next != null
        invariant 0 <= k < |nodes| && tail == nodes[k]
        decreases |nodes| - k
      {
        tail, k := tail.next, k + 1;
      }
    }

    // The loop that appends `count` blocks.
    method Extend(last: Node, count: nat) returns (first: Node?)
      requires Spine() && last == nodes[|nodes| - 1]
      modifies this`nodes, this`blocks, this`repr, this`capacity, last`next
      ensures Spine() && fresh(repr - old(repr)) && old(repr) <= repr
      ensures |nodes| == |old(nodes)| + count && old(nodes) <= nodes && old(blocks) <= blocks
      ensures first == if count == 0 then null else nodes[|old(nodes)|]
    {
      var tmp := last;
      first := null;
      var i := 0;
      while i < count
        invariant i <= count && Spine() && fresh(repr - old(repr)) && old(repr) <= repr
        invariant |nodes| == |old(nodes)| + i && old(nodes) <= nodes && old(blocks) <= blocks
        invariant tmp == nodes[|nodes| - 1] && (tmp == last || fresh(tmp))
        invariant first == if i == 0 then null else nodes[|old(nodes)|]
      {
        var raw := new byte[base];
        tmp := Append(tmp, raw[..]);
        if first == null { first := tmp; }
        i := i + 1;
      }
    }

    method AddCapacity(n: nat)
      requires Valid()
      modifies this, repr
      ensures Valid() && fresh(repr - old(repr)) && littleEndian == old(littleEndian)
      ensures old(State()).Wf() && |State().bytes| == capacity && Roomy(old(State()), n, State())
    {
      FlatLength(blocks, base);
      var room := capacity - position;
      if n == 0 || room >= n { return; }
      ghost var before := blocks;
      Grow(CeilDiv(n - room, base));
      GrownIsRoomy(before, blocks, base, position, size, n);
    }

    lemma {:induction false} GrownIsRoomy(a: seq<seq<byte>>, b: seq<seq<byte>>, base: nat, position: nat, size: nat,
                                          n: nat)
      requires base > 0 && Even(a, base) && Even(b, base) && a <= b && position <= size <= Times(|a|, base)
      requires n > Times(|a|, base) - position && |b| == |a| + CeilDiv(n - (Times(|a|, base) - position), base)
      ensures var f, g := FlatArray(base, Flat(a), position, size), FlatArray(base, Flat(b), position, size);
              f.Wf() && |g.bytes| == Times(|b|, base) && Times(|a|, base) <= Times(|b|, base) && Roomy(f, n, g)
    {
      FlatLength(a, base);
      FlatLength(b, base);
      TimesAdd(|a|, |b| - |a|, base);
      FlatPrefix(a, b);
    }

    // At least one block more; a cursor at the end moves into the first of them.
    method Grow(count: nat)
      requires Spine() && CursorOk() && position <= capacity && count > 0
      modifies this`nodes, this`blocks, this`repr, this`capacity, this`cur, repr
      ensures Spine() && CursorOk() && fresh(repr - old(repr))
      ensures |nodes| == |old(nodes)| + count && old(blocks) <= blocks
    {
      var room := capacity - position;
      var tail := Last();
      var first := Extend(tail, count);
      if room == 0 { cur := first; }
      AtEnd(old(nodes), room);
    }

    // With no room left the cursor was past the last block, which is now the first new one.
    lemma {:induction false} AtEnd(nodes0: seq<Node>, room: nat)
      requires base > 0 && |nodes0| < |nodes| && at <= |nodes0| && Times(at, base) <= position < Times(at, base) + base
      requires room == Times(|nodes0|, base) - position
      ensures room == 0 <==> at == |nodes0|
    {
      if at < |nodes0| { TimesMono(at + 1, |nodes0|, base); }
    }

    // ---------------------------------------------------------------- write

    // One memcpy into block `k` at offset `off`.
    method Store(n: Node, ghost k: nat, off: nat, c: seq<byte>)
      requires Spine() && k < |nodes| && n == nodes[k] && off + |c| <= base
      modifies this`blocks, n`data
      ensures Spine() && off + |c| <= |old(blocks)[k]|
      ensures blocks == old(blocks)[k := Overwrite(old(blocks)[k], off, c)]
    {
      n.data := Overwrite(n.data, off, c);
      blocks := blocks[k := n.data];
    }

    lemma {:induction false} InBlock()
      requires Spine() && CursorOk() && position < capacity
      ensures at < |nodes| && cur == nodes[at] && cur in repr
    {
      if at >= |nodes| { TimesMono(|nodes|, at, base); }
    }

    // The offset of the cursor in its block.
    method Offset() returns (npos: nat)
      requires base > 0 && CursorOk()
      ensures npos == position - Times(at, base)
    {
      Locate(position, base, at, position - Times(at, base));
      npos := position % base;
    }

    // The cursor moves on inside its block, or to the next one.
    method Step(npos: nat, n: nat)
      requires Spine() && CursorOk() && at < |nodes| && npos == position - Times(at, base) && npos + n <= base
      modifies this`position, this`cur, this`at
      ensures CursorOk() && position == old(position) + n
    {
      if npos + n == base {
        cur := cur.next;
        at := at + 1;
      }
      position := position + n;
    }

    // One round of the write loop: as much of the buffer as the block takes.
    method Put(npos: nat, c: seq<byte>, ghost flat: seq<byte>) returns (ghost after: seq<byte>)
      requires Spine() && CursorOk() && at < |nodes| && npos == position - Times(at, base) && npos + |c| <= base
      requires flat == Flat(blocks)
      modifies this`blocks, this`position, this`cur, this`at, cur`data
      ensures Spine() && CursorOk() && position == old(position) + |c| <= |flat|
      ensures after == Flat(blocks) && after == Overwrite(flat, old(position), c)
    {
      FlatWrite(blocks, base, at, npos, c);
      Store(cur, at, npos, c);
      Step(npos, |c|);
      after := Flat(blocks);
    }

    // The loop over the blocks that the buffer spans.
    method PutAll(buf: seq<byte>)
      requires Spine() && CursorOk() && position + |buf| <= capacity == |Flat(blocks)|
      modifies this`blocks, this`position, this`cur, this`at, repr
      ensures Spine() && CursorOk() && position == old(position) + |buf|
      ensures Flat(blocks) == Overwrite(Flat(old(blocks)), old(position), buf)
    {
      ghost var b0, p0 := Flat(blocks), position;
      ghost var flat := b0;
      var bpos: nat := 0;
      OverwriteNone(b0, position, buf);
      while bpos < |buf|
        invariant Spine() && CursorOk() && bpos <= |buf| && position == p0 + bpos
        invariant flat == Flat(blocks) && Partly(flat, b0, p0, buf, bpos)
      {
        bpos, flat := PutSome(buf, bpos, b0, p0, flat);
      }
      assert buf[..bpos] == buf;
    }

    method PutSome(buf: seq<byte>, bpos: nat, ghost b0: seq<byte>, ghost p0: nat, ghost flat: seq<byte>)
      returns (next: nat, ghost after: seq<byte>)
      requires Spine() && CursorOk() && bpos < |buf| && position == p0 + bpos && p0 + |buf| <= capacity
      requires flat == Flat(blocks) && Partly(flat, b0, p0, buf, bpos)
      modifies this`blocks, this`position, this`cur, this`at, repr
      ensures Spine() && CursorOk() && bpos < next <= |buf| && position == p0 + next
      ensures after == Flat(blocks) && Partly(after, b0, p0, buf, next)
    {
      InBlock();
      var npos := Offset();
      var left := |buf| - bpos;
      next := bpos + if base - npos >= left then left else base - npos;
      after := Put(npos, buf[bpos..next], flat);
      OverwriteMore(b0, p0, buf, bpos, next, after);
    }

    // Room for the buffer, then its bytes over the flat memory.
    method Fill(buf: seq<byte>, ghost f: FlatArray) returns (ghost g: FlatArray)
      requires Valid() && |buf| > 0 && f == State()
      modifies this, repr
      ensures Spine() && fresh(repr - old(repr)) && littleEndian == old(littleEndian)
      ensures CursorOk() && old(size) == size <= capacity && position == old(position) + |buf| <= capacity
      ensures f.Wf() && Roomy(f, |buf|, g) && f.position + |buf| <= |g.bytes|
      ensures Flat(blocks) == Overwrite(g.bytes, f.position, buf)
    {
      AddCapacity(|buf|);
      g := State();
      PutAll(buf);
    }

    method Write(buf: seq<byte>)
      requires Valid()
      modifies this, repr
      ensures Valid() && fresh(repr - old(repr)) && littleEndian == old(littleEndian)
      ensures old(State()).Wf() && Written(old(State()), buf, State())
    {
      ghost var f := State();
      if |buf| == 0 {
        FlatLength(blocks, base);
        return;
      }
      ghost var g := Fill(buf, f);
      if position > size { size := position; }
      OverwriteIsWritten(f, buf, g, State());
    }

    // ---------------------------------------------------------------- read

    // One round of the read loop.
    method Take(npos: nat, n: nat, ghost flat: seq<byte>) returns (c: seq<byte>)
      requires Spine() && CursorOk() && at < |nodes| && npos == position - Times(at, base) && npos + n <= base
      requires flat == Flat(blocks)
      modifies this`position, this`cur, this`at
      ensures CursorOk() && position == old(position) + n <= |flat|
      ensures c == flat[old(position)..position]
    {
      FlatSlice(blocks, base, at, npos, n);
      c := cur.data[npos..npos + n];
      Step(npos, n);
    }

    // The loop over the blocks that the read spans.
    method TakeAll(n: nat) returns (buf: seq<byte>)
      requires Spine() && CursorOk() && position + n <= capacity == |Flat(blocks)|
      modifies this`position, this`cur, this`at
      ensures CursorOk() && position == old(position) + n && buf == Flat(blocks)[old(position)..position]
    {
      buf := [];
      ghost var flat, p0 := Flat(blocks), position;
      while |buf| < n
        invariant |buf| <= n && CursorOk() && position == p0 + |buf|
        invariant buf == flat[p0..position]
      {
        InBlock();
        var npos := Offset();
        var left := n - |buf|;
        ghost var p := position;
        var c := Take(npos, if base - npos >= left then left else base - npos, flat);
        SliceJoin(flat, p0, p, position);
        buf := buf + c;
      }
    }

    // `None` is the out_of_range exception. Reading nothing still looks at the current block, so it needs one.
    method Read(n: nat) returns (r: Option<seq<byte>>)
      requires Valid() && (n > 0 || position < capacity)
      modifies this`position, this`cur, this`at
      ensures Valid() && old(State()).Wf()
      ensures n > old(State()).ReadSize() ==> r.None? && State() == old(State())
      ensures n <= old(State()).ReadSize() ==>
                r == Some(Window(old(State()), n)) && State() == old(State()).(position := old(position) + n)
    {
      FlatLength(blocks, base);
      if n > size - position { return None; }
      var buf := TakeAll(n);
      r := Some(buf);
    }

    // The read at a given position, as toString uses it. It starts from the block of the cursor whatever `p` is.
    method ReadAt(n: nat, p: nat) returns (r: Out)
      requires Valid()
      ensures State().Wf() && r == ReadOut(State(), n, p)
    {
      FlatLength(blocks, base);
      CursorIsBlock();
      if n > Readable(size, p) { return OutOfRange; }
      if cur == null { return NullBlock; }
      InBlock();
      TimesIsProduct(at, base);
      Locate(position, base, at, position - Times(at, base));
      BlockFits(|nodes|, base, at);
      var buf := CopyFrom(cur, at, p % base, n, Flat(blocks), Times(at, base) + p % base);
      r := if buf.None? then NullBlock else Data(buf.value);
    }

    // The same walk on a local block pointer; `None` is a null block.
    method CopyFrom(n0: Node, ghost k0: nat, npos0: nat, n: nat, ghost flat: seq<byte>, ghost p: nat)
      returns (r: Option<seq<byte>>)
      requires Spine() && k0 < |nodes| && n0 == nodes[k0] && npos0 < base && p == Times(k0, base) + npos0 < capacity
      requires flat == Flat(blocks) && |flat| == capacity
      ensures r == if p + n > capacity then None else Some(flat[p..p + n])
    {
      ghost var q, k: nat := p, k0;
      var cur: Node?, npos: nat, buf := n0, npos0, [];
      while |buf| < n
        invariant |buf| <= n && q == p + |buf| <= capacity && buf == flat[p..q]
        invariant |buf| < n ==> k < |nodes| && cur == nodes[k] && npos < base && Times(k, base) + npos == q
      {
        var left := n - |buf|;
        var take: nat := if base - npos >= left then left else base - npos;
        var c := TakeOne(Iov(cur, npos, take), take, q, flat);
        SliceJoin(flat, p, q, q + take);
        buf, q := buf + c, q + take;
        if |buf| < n {
          if cur.next == null { return None; }
          cur, k := NextBlock(cur, k);
          npos := 0;
        }
      }
      r := Some(buf);
    }

    method NextBlock(n: Node, ghost k: nat) returns (next: Node, ghost k': nat)
      requires Spine() && k < |nodes| && n == nodes[k] && n.next != null
      ensures k' == k + 1 < |nodes| && next == nodes[k'] && Times(k', base) == Times(k, base) + base
    {
      next, k' := n.next, k + 1;
    }

    method ToString() returns (r: seq<byte>)
      requires Valid()
      ensures State().Wf() && r == Window(State(), State().ReadSize())
    {
      CursorIsBlock();
      if size == position { return []; }
      PlaceIsRight(State(), position);
      var s := ReadAt(size - position, position);
      r := s.s;
    }

    // ---------------------------------------------------------------- setPosition, clear

    method SetPosition(v: nat) returns (ok: bool)
      requires Valid()
      modifies this`position, this`size, this`cur, this`at
      ensures Valid() && ok == (v <= capacity) && State() == Moved(old(State()), v)
    {
      FlatLength(blocks, base);
      if v > capacity { return false; }
      position := v;
      if position > size { size := position; }
      MoveTo(v);
      ok := true;
    }

    method MoveTo(v: nat)
      requires Spine() && v == position <= capacity
      modifies this`cur, this`at
      ensures Spine() && CursorOk()
    {
      cur, at := Seek(v);
    }

    // The loop that finds the block of position `v`, null at the end of the capacity.
    method Seek(v: nat) returns (n: Node?, ghost k: nat)
      requires Spine() && v <= capacity
      ensures k <= |nodes| && n == (if k < |nodes| then nodes[k] else null)
      ensures Times(k, base) <= v < Times(k, base) + base
    {
      var rest: nat := v;
      n, k := root, 0;
      while rest > |n.data|
        invariant k < |nodes| && n == nodes[k] && |n.data| == base && Times(k, base) + rest == v
        decreases rest
      {
        rest := rest - |n.data|;
        Inside(v, k, rest);
        n, k := n.next, k + 1;
      }
      if rest == |n.data| {
        n, k := n.next, k + 1;
      }

    }

    lemma {:induction false} Inside(v: nat, k: nat, rest: nat)
      requires v <= capacity == Times(|nodes|, base) && k < |nodes| && Times(k, base) + base + rest == v && rest > 0
      ensures k + 1 < |nodes|
    {
      if k + 1 == |nodes| { assert false; }
    }

    // ---------------------------------------------------------------- iovec views

    // The windows lie in blocks of the list and cover the flat memory from `p` to `q`, in order and without a gap.
    ghost predicate Tiles(iovs: seq<Iov>, p: nat, q: nat)
      reads this`nodes
    {
      && (forall i {:trigger TileAt(iovs, i, p)} :: 0 <= i < |iovs| ==> TileAt(iovs, i, p))
      && q == p + Total(iovs)
    }

    ghost predicate TileAt(iovs: seq<Iov>, i: nat, p: nat)
      requires i < |iovs|
      reads this`nodes
    {
      Tile(iovs[i], p + Total(iovs[..i]))
    }

    ghost predicate Tile(v: Iov, p: nat)
      reads this`nodes
    {
      v.node.at < |nodes| && v.node == nodes[v.node.at] && 0 < v.len && v.off + v.len <= base && v.Start(base) == p
    }

    // The loop that both getReadBuffers and getWriteBuffers run.
    method Views(len: nat) returns (iovs: seq<Iov>)
      requires Spine() && CursorOk() && position + len <= capacity
      ensures Tiles(iovs, position, position + len)
    {
      iovs := [];
      if len == 0 { return; }
      InBlock();
      var npos: nat := Offset();
      var n: Node? := cur;
      var left: nat := len;
      ghost var k: nat := at;
      ghost var q: nat := position;
      while left > 0
        invariant left <= len && q == position + (len - left) && Tiles(iovs, position, q)
        invariant left > 0 ==> k < |nodes| && n == nodes[k] && npos < base && Times(k, base) + npos == q
      {
        var take: nat := if base - npos >= left then left else base - npos;
        TilesPush(iovs, Iov(n, npos, take), position, q);
        iovs, left, q := iovs + [Iov(n, npos, take)], left - take, q + take;
        if left > 0 {
          BlockUnder(k + 1, 0);
          n, k, npos := n.next, k + 1, 0;
        }
      }
    }

    lemma {:induction false} TilesPush(iovs: seq<Iov>, v: Iov, p: nat, q: nat)
      requires Tiles(iovs, p, q) && Tile(v, q)
      ensures Tiles(iovs + [v], p, q + v.len)
    {
      var all := iovs + [v];
      assert all[..|iovs|] == iovs;
      forall i | 0 <= i < |all| ensures TileAt(all, i, p) {
        if i < |iovs| { assert all[..i] == iovs[..i] && TileAt(iovs, i, p); }
      }
    }

    lemma {:induction false} BlockUnder(k: nat, npos: nat)
      requires capacity == Times(|nodes|, base) && Times(k, base) + npos < capacity
      ensures k < |nodes|
    {
      if k >= |nodes| { TimesMono(|nodes|, k, base); }
    }

    method GetReadBuffers(len: nat) returns (iovs: seq<Iov>, n: nat)
      requires Valid()
      ensures n == if len > size - position then size - position else len
      ensures Tiles(iovs, position, position + n)
    {
      n := if len > size - position then size - position else len;
      iovs := Views(n);
    }

    method GetWriteBuffers(len: nat) returns (iovs: seq<Iov>)
      requires Valid()
      modifies this, repr
      ensures Valid() && fresh(repr - old(repr)) && littleEndian == old(littleEndian)
      ensures old(State()).Wf() && |State().bytes| == capacity && Roomy(old(State()), len, State())
      ensures Tiles(iovs, position, position + len)
    {
      AddCapacity(len);
      iovs := Views(len);
    }

    // What a gathering send takes from the windows: their first `n` bytes.
    method Gather(iovs: seq<Iov>, n: nat, ghost p: nat, ghost q: nat) returns (c: seq<byte>)
      requires Spine() && Tiles(iovs, p, q) && p + n <= q <= |Flat(blocks)|
      ensures c == Flat(blocks)[p..p + n]
    {
      c := [];
      var i: nat := 0;
      ghost var flat, m := Flat(blocks), p;
      while |c| < n
        invariant i <= |iovs| && |c| <= n && m == p + |c| && c == flat[p..m]
        invariant |c| == Min(Total(iovs[..i]), n)
      {
        TotalNext(iovs, i);
        assert TileAt(iovs, i, p);
        var v, left := iovs[i], n - |c|;
        var piece := TakeOne(v, if v.len >= left then left else v.len, m, flat);
        SliceJoin(flat, p, m, m + |piece|);
        c, m := c + piece, m + |piece|;
        i := i + 1;
      }
    }

    method TakeOne(v: Iov, n: nat, ghost p: nat, ghost flat: seq<byte>) returns (c: seq<byte>)
      requires Spine() && Tile(v, p) && n <= v.len && flat == Flat(blocks)
      ensures p + n <= |flat| && c == flat[p..p + n]
    {
      FlatSlice(blocks, base, v.node.at, v.off, n);
      c := v.node.data[v.off..v.off + n];
    }

    // What a scattering receive does to them: it fills them front to back.
    method Scatter(iovs: seq<Iov>, c: seq<byte>, ghost p: nat, ghost q: nat)
      requires Spine() && Tiles(iovs, p, q) && p + |c| <= q <= |Flat(blocks)|
      modifies this`blocks, repr
      ensures Spine() && Flat(blocks) == Overwrite(Flat(old(blocks)), p, c)
    {
      ghost var b0 := Flat(blocks);
      ghost var flat := b0;
      var i: nat, done: nat := 0, 0;
      OverwriteNone(b0, p, c);
      while done < |c|
        invariant Spine() && i <= |iovs| && done == Min(Total(iovs[..i]), |c|)
        invariant flat == Flat(blocks) && Partly(flat, b0, p, c, done)
      {
        TotalNext(iovs, i);
        assert TileAt(iovs, i, p);
        done, flat := FillSome(iovs[i], c, done, p, b0, flat);
        i := i + 1;
      }
      assert c[..done] == c;
    }

    method FillSome(v: Iov, c: seq<byte>, done: nat, ghost p: nat, ghost b0: seq<byte>, ghost flat: seq<byte>)
      returns (next: nat, ghost after: seq<byte>)
      requires Spine() && Tile(v, p + done) && done < |c| && flat == Flat(blocks) && Partly(flat, b0, p, c, done)
      modifies this`blocks, v.node`data
      ensures Spine() && next == Min(done + v.len, |c|) && after == Flat(blocks) && Partly(after, b0, p, c, next)
    {
      var left := |c| - done;
      next := done + if v.len >= left then left else v.len;
      after := FillOne(v, c[done..next], p + done, flat);
      OverwriteMore(b0, p, c, done, next, after);
    }

    method FillOne(v: Iov, c: seq<byte>, ghost p: nat, ghost flat: seq<byte>) returns (ghost after: seq<byte>)
      requires Spine() && Tile(v, p) && |c| <= v.len && flat == Flat(blocks)
      modifies this`blocks, v.node`data
      ensures Spine() && p + |c| <= |flat|
      ensures after == Flat(blocks) && after == Overwrite(flat, p, c)
    {
      FlatWrite(blocks, base, v.node.at, v.off, c);
      Store(v.node, v.node.at, v.off, c);
      after := Flat(blocks);
    }

    // The blocks after the first are freed.
    method Clear()
      requires Valid()
      modifies this, repr
      ensures Valid() && repr <= old(repr) && littleEndian == old(littleEndian)
      ensures base <= |old(State()).bytes| && State() == FlatArray(base, old(State()).bytes[..base], 0, 0)
    {
      FlatFirst(blocks, base);
      position, size, at := 0, 0, 0;
      FreeTail();
      cur := root;
    }

    // The loop that frees them, and the list cut after its first block.
    method FreeTail()
      requires Spine()
      modifies this`nodes, this`blocks, this`repr, this`capacity, root`next
      ensures Spine() && nodes == [root] && repr <= old(repr) && blocks == old(blocks)[..1]
    {
      var tmp := root.next;
      ghost var k := 1;
      while tmp != null
        invariant 1 <= k <= |nodes| && tmp == (if k < |nodes| then nodes[k] else null)
        decreases |nodes| - k
      {
        tmp, k := tmp.next, k + 1;
      }
      capacity := base;
      root.next := null;
      nodes, blocks, repr := [root], blocks[..1], {root};
    }
  }

  // ---------------------------------------------------------------- runs of operations

  // One operation on the list does what it does on the flat array.
  method Apply(a: ByteArray, op: Op) returns (out: Out)
    requires a.Valid() && (op.Scatter? ==> |op.data| <= op.n)
    modifies a, a.repr
    ensures a.Valid() && fresh(a.repr - old(a.repr))
    ensures old(a.State()).Wf() && FlatStep(old(a.State()), op, a.State(), out)
  {
    a.CursorIsBlock();
    match op
    case Write(buf) =>
      a.Write(buf);
      out := Done;
    case Read(n) =>
      if n == 0 && a.position == a.capacity { return NullBlock; }
      var r := a.Read(n);
      out := if r.Some? then Data(r.value) else OutOfRange;
    case SetPosition(v) =>
      var ok := a.SetPosition(v);
      out := if ok then Done else OutOfRange;
    case Clear =>
      a.Clear();
      out := Done;
    case Gather(n) =>
      var s := Send(a, n);
      out := Data(s);
    case Scatter(n, data) =>
      Receive(a, n, data);
      out := Done;
  }

  method Send(a: ByteArray, n: nat) returns (s: seq<byte>)
    requires a.Valid()
    ensures a.State().Wf() && s == Window(a.State(), Min(n, a.State().ReadSize()))
  {
    a.CursorIsBlock();
    var iovs, m := a.GetReadBuffers(n);
    s := a.Gather(iovs, m, a.position, a.position + m);
  }

  method Receive(a: ByteArray, n: nat, data: seq<byte>)
    requires a.Valid() && |data| <= n
    modifies a, a.repr
    ensures a.Valid() && fresh(a.repr - old(a.repr)) && a.littleEndian == old(a.littleEndian)
    ensures old(a.State()).Wf() && Received(old(a.State()), n, data, a.State())
  {
    ghost var f := a.State();
    var iovs := a.GetWriteBuffers(n);
    Fill(a, iovs, n, data, f);
  }

  // The receive itself.
  method Fill(a: ByteArray, iovs: seq<Iov>, n: nat, data: seq<byte>, ghost f: FlatArray)
    requires a.Valid() && |data| <= n && a.Tiles(iovs, a.position, a.position + n)
    requires |a.State().bytes| == a.capacity && f.Wf() && Roomy(f, n, a.State())
    modifies a`blocks, a.repr
    ensures a.Valid() && Received(f, n, data, a.State())
  {
    ghost var g := a.State();
    a.Scatter(iovs, data, a.position, a.position + n);
    OverwriteIsReceived(f, n, data, g, a.State());
  }

  lemma {:induction false} OverwriteIsReceived(f: FlatArray, n: nat, data: seq<byte>, g: FlatArray, h: FlatArray)
    requires f.Wf() && Roomy(f, n, g) && |data| <= n && f.position + n <= |g.bytes|
    requires h == g.(bytes := Overwrite(g.bytes, f.position, data))
    ensures Received(f, n, data, h)
  {
    OverwriteKeeps(g.bytes, f.bytes, f.position, data);
  }

  lemma {:induction false} OverwriteIsWritten(f: FlatArray, buf: seq<byte>, g: FlatArray, h: FlatArray)
    requires f.Wf() && Roomy(f, |buf|, g) && f.position + |buf| <= |g.bytes|
    requires h == FlatArray(f.base, Overwrite(g.bytes, f.position, buf), f.position + |buf|,
                            if f.position + |buf| > f.size then f.position + |buf| else f.size)
    ensures Written(f, buf, h)
  {
    OverwriteKeeps(g.bytes, f.bytes, f.position, buf);
  }
}
