/** Moving exact amounts between a ByteArray and a socket that takes and gives what it likes. */
module Streams {
  import opened Blocks
  import opened FlatArrays
  import opened ByteArrays

  // What the kernel does at the next call: fail, find the connection gone, or move at most `n` bytes.
  datatype Event = Fail | Hangup | Move(n: nat)

  // The most that one Linux send or receive moves.
  const MAX_TRANSFER: nat := 0x7ffff000

  // The socket's side: what the peer will send, what it has been sent, and what the kernel will do.
  datatype Net = Net(connected: bool, inbox: seq<byte>, outbox: seq<byte>, pace: seq<Event>) {
    // The result of the next call when `max` bytes are wanted and `ready` are there; -1 for an error.
    function Next(max: nat, ready: nat): (rt: int)
      ensures rt == -1 || (0 <= rt <= max && rt <= ready && rt <= MAX_TRANSFER)
    {
      if connected && pace != [] && pace[0].Move? then Min(Min(pace[0].n, MAX_TRANSFER), Min(max, ready)) else -1
    }

    function Polled(): Net {
      if !connected || pace == [] then this else this.(connected := !pace[0].Hangup?, pace := pace[1..])
    }

    function Recv(max: nat): (rt: int) { Next(max, |inbox|) }

    function Came(max: nat): (data: seq<byte>)
      ensures |data| == (if Recv(max) > 0 then Recv(max) else 0) && data <= inbox
    {
      inbox[..if Recv(max) > 0 then Recv(max) else 0]
    }

    function AfterRecv(max: nat): Net { Polled().(inbox := inbox[|Came(max)|..]) }

    function Send(data: seq<byte>): (rt: int) { Next(|data|, |data|) }

    function Went(data: seq<byte>): (d: seq<byte>)
      ensures |d| == (if Send(data) > 0 then Send(data) else 0) && d <= data
    {
      data[..if Send(data) > 0 then Send(data) else 0]
    }

    function AfterSend(data: seq<byte>): Net { Polled().(outbox := outbox + Went(data)) }

    // The next `n` calls each move something.
    ghost predicate Willing(n: nat) {
      connected && n <= |pace| && forall i :: 0 <= i < n ==> pace[i].Move? && pace[i].n > 0
    }
  }

  class Socket {
    var net: Net

    constructor (net: Net)
      ensures this.net == net
    {
      this.net := net;
    }

    method Recv(max: nat) returns (rt: int, data: seq<byte>)
      modifies this
      ensures rt == old(net).Recv(max) && data == old(net).Came(max) && net == old(net).AfterRecv(max)
    {
      rt, data := net.Recv(max), net.Came(max);
      net := net.AfterRecv(max);
    }

    method Send(data: seq<byte>) returns (rt: int)
      modifies this
      ensures rt == old(net).Send(data) && net == old(net).AfterSend(data)
    {
      rt := net.Send(data);
      net := net.AfterSend(data);
    }
  }

  // ---------------------------------------------------------------- SocketStream

  // One receive into the array's write buffers; the cursor moves past what came.
  method Read(s: Socket, a: ByteArray, length: nat) returns (rt: int)
    requires a.Valid() && s !in a.repr
    modifies s, a, a.repr
    ensures a.Valid() && fresh(a.repr - old(a.repr))
    ensures rt == old(s.net).Recv(length) && s.net == old(s.net).AfterRecv(length)
    ensures old(a.State()).Wf() && Wrote(old(a.State()), old(s.net).Came(length), a.State())
  {
    if s.net.connected {
      rt := ReadOpen(s, a, length);
    } else {
      a.CursorIsBlock();
      rt := -1;
    }
  }

  method ReadOpen(s: Socket, a: ByteArray, length: nat) returns (rt: int)
    requires a.Valid() && s !in a.repr
    modifies s, a, a.repr
    ensures a.Valid() && fresh(a.repr - old(a.repr))
    ensures rt == old(s.net).Recv(length) && s.net == old(s.net).AfterRecv(length)
    ensures old(a.State()).Wf() && Wrote(old(a.State()), old(s.net).Came(length), a.State())
  {
    ghost var f, data := a.State(), s.net.Came(length);
    rt := Transfer(s, a, length);
    a.CursorIsBlock();
    ReceivedIsWrote(f, length, data, a.State());
    Advance(a, if rt > 0 then rt else 0);
  }

  lemma {:induction false} ReceivedIsWrote(f: FlatArray, n: nat, data: seq<byte>, g: FlatArray)
    requires f.Wf() && g.Wf() && Received(f, n, data, g)
    ensures g.position + |data| <= |g.bytes| && Wrote(f, data, Moved(g, g.position + |data|))
  {
  }

  // The buffers and the receive that fills them.
  method Transfer(s: Socket, a: ByteArray, length: nat) returns (rt: int)
    requires a.Valid() && s !in a.repr
    modifies s, a, a.repr
    ensures a.Valid() && fresh(a.repr - old(a.repr))
    ensures rt == old(s.net).Recv(length) && s.net == old(s.net).AfterRecv(length)
    ensures old(a.State()).Wf() && Received(old(a.State()), length, old(s.net).Came(length), a.State())
  {
    ghost var f := a.State();
    var iovs := a.GetWriteBuffers(length);
    var data;
    rt, data := s.Recv(length);
    ByteArrays.Fill(a, iovs, length, data, f);
  }

  // One send from the array's read buffers; the cursor moves past what went.
  method Write(s: Socket, a: ByteArray, length: nat) returns (rt: int)
    requires a.Valid() && s !in a.repr
    modifies s, a`position, a`size, a`cur, a`at
    ensures a.Valid() && old(a.State()).Wf()
    ensures var data := Window(old(a.State()), Min(length, old(a.State()).ReadSize()));
            rt == old(s.net).Send(data) && s.net == old(s.net).AfterSend(data) &&
            a.State() == Moved(old(a.State()), old(a.position) + |old(s.net).Went(data)|)
  {
    if s.net.connected {
      var data := ByteArrays.Send(a, length);
      rt := s.Send(data);
      Advance(a, if rt > 0 then rt else 0);
    } else {
      a.CursorIsBlock();
      rt := -1;
    }
  }

  // The cursor moves past what was transferred; that is never out of range.
  method Advance(a: ByteArray, n: nat)
    requires a.Valid() && a.position + n <= |a.State().bytes|
    modifies a`position, a`size, a`cur, a`at
    ensures a.Valid() && a.State() == Moved(old(a.State()), old(a.position) + n)
  {
    a.CursorIsBlock();
    if n > 0 {
      var ok := a.SetPosition(a.position + n);
    }
  }

  // ---------------------------------------------------------------- fixed sizes

  const INT64_LIMIT: nat := 0x8000_0000_0000_0000

  // `int64_t left = length` and `return length` as an int.
  function AsInt64(length: nat): int { if length < INT64_LIMIT then length else length - SIZE_LIMIT }
  function AsInt(length: nat): int {
    var low := length % 0x1_0000_0000;
    if low < 0x8000_0000 then low else low - 0x1_0000_0000
  }

  // A call that has something to move moves some of it, and the calls after it are as willing.
  lemma {:induction false} WillingMoves(n: Net, calls: nat, max: nat, ready: nat)
    requires calls > 0 && n.Willing(calls) && max > 0 && ready > 0
    ensures n.Next(max, ready) > 0 && n.Polled().Willing(calls - 1)
  {
    assert n.pace[0].Move?;
  }

  // `data` came between the two.
  ghost predicate Took(n: Net, data: seq<byte>, m: Net) { n.inbox == data + m.inbox && n.outbox == m.outbox }

  lemma {:induction false} TookMore(n: Net, data: seq<byte>, m: Net, max: nat)
    requires Took(n, data, m)
    ensures Took(n, data + m.Came(max), m.AfterRecv(max))
  {
    assert m.inbox == m.Came(max) + m.AfterRecv(max).inbox;
  }

  // Enough will come, one way or another.
  ghost predicate Ample(n: Net, left: nat) { n.Willing(left) && |n.inbox| >= left }

  lemma {:induction false} AmpleMore(n: Net, left: nat)
    requires Ample(n, left) && left > 0
    ensures 0 < n.Recv(left) <= left && Ample(n.AfterRecv(left), left - n.Recv(left))
  {
    WillingMoves(n, left, left, |n.inbox|);
  }

  // One round of it.
  method ReadSome(s: Socket, a: ByteArray, left: nat, ghost f: FlatArray, ghost n0: Net, ghost before: seq<byte>)
    returns (len: int, ghost moved: seq<byte>)
    requires a.Valid() && s !in a.repr && left > 0 && f.Wf() && Took(n0, before, s.net) && Wrote(f, before, a.State())
    modifies s, a, a.repr
    ensures a.Valid() && fresh(a.repr - old(a.repr)) && Took(n0, moved, s.net) && Wrote(f, moved, a.State())
    ensures len <= left && (len <= 0 ==> len == 0 || len == -1) && |moved| == |before| + if len > 0 then len else 0
    ensures Ample(old(s.net), left) ==> len > 0 && Ample(s.net, left - len)
  {
    ghost var g, n := a.State(), s.net;
    if Ample(n, left) { AmpleMore(n, left); }
    len := Read(s, a, left);
    WroteMore(f, before, g, n.Came(left), a.State());
    TookMore(n0, before, n, left);
    moved := before + n.Came(left);
  }

  // The loop of readFixSize.
  method ReadLeft(s: Socket, a: ByteArray, length: nat) returns (len: int, ghost moved: seq<byte>)
    requires a.Valid() && s !in a.repr
    modifies s, a, a.repr
    ensures a.Valid() && fresh(a.repr - old(a.repr)) && Took(old(s.net), moved, s.net)
    ensures old(a.State()).Wf() && Wrote(old(a.State()), moved, a.State())
    ensures if len == 1 then |moved| == length else |moved| < length && (len == 0 || len == -1)
    ensures Ample(old(s.net), length) ==> len == 1
  {
    a.CursorIsBlock();
    ghost var f, n0 := a.State(), s.net;
    moved := [];
    var left: nat := length;
    while left > 0
      invariant a.Valid() && fresh(a.repr - old(a.repr)) && s !in a.repr
      invariant Took(n0, moved, s.net) && Wrote(f, moved, a.State()) && left == length - |moved|
      invariant Ample(n0, length) ==> Ample(s.net, left)
      decreases left
    {
      len, moved := ReadSome(s, a, left, f, n0, moved);
      if len <= 0 { return; }
      left := left - len;
    }
    len := 1;
  }

  // Receives until `length` bytes have come, in order and at the cursor; a size_t beyond int64_t moves nothing.
  method ReadFixSize(s: Socket, a: ByteArray, length: nat) returns (r: int, ghost moved: seq<byte>)
    requires a.Valid() && s !in a.repr && length < SIZE_LIMIT
    modifies s, a, a.repr
    ensures a.Valid() && fresh(a.repr - old(a.repr)) && Took(old(s.net), moved, s.net)
    ensures old(a.State()).Wf() && Wrote(old(a.State()), moved, a.State())
    ensures if length >= INT64_LIMIT then moved == [] && r == AsInt(length)
            else if |moved| == length then r == AsInt(length)
            else |moved| < length && (r == 0 || r == -1)
    ensures length < INT64_LIMIT && Ample(old(s.net), length) ==> |moved| == length
  {
    var left := AsInt64(length);
    r, moved := ReadLeft(s, a, if left > 0 then left else 0);
    if r == 1 { r := AsInt(length); }
  }

  // ---------------------------------------------------------------- writing

  // `done` bytes were read from the array and sent.
  ghost predicate Sent(f: FlatArray, n: Net, done: nat, g: FlatArray, m: Net) {
    && f.Wf() && done <= f.ReadSize() && g == Moved(f, f.position + done)
    && m.outbox == n.outbox + Window(f, done) && m.inbox == n.inbox
  }

  // One round of writeFixSize.
  method WriteSome(s: Socket, a: ByteArray, left: nat, ghost f: FlatArray, ghost n0: Net, ghost done: nat)
    returns (len: int, ghost now: nat)
    requires a.Valid() && s !in a.repr && left > 0 && Sent(f, n0, done, a.State(), s.net)
    modifies s, a`position, a`size, a`cur, a`at
    ensures a.Valid() && len <= left && (len <= 0 ==> len == 0 || len == -1)
    ensures now == (done + if len > 0 then len else 0) && Sent(f, n0, now, a.State(), s.net)
    ensures old(s.net).Willing(left) && done < f.ReadSize() ==> len > 0 && s.net.Willing(left - len)
  {
    ghost var n, g := s.net, a.State();
    ghost var g', n' := SentMore(f, n0, done, g, n, left);
    ghost var m := Min(left, g.ReadSize());
    if n.Willing(left) && m > 0 { StaysWilling(n, Window(g, m), left); }
    len := Write(s, a, left);
    now := done + |n.Went(Window(g, m))|;
    assert a.State() == g' && s.net == n';
  }

  lemma {:induction false} StaysWilling(n: Net, data: seq<byte>, left: nat)
    requires n.Willing(left) && 0 < |data| <= left
    ensures 0 < n.Send(data) <= left && n.AfterSend(data).Willing(left - n.Send(data))
  {
    WillingMoves(n, left, |data|, |data|);
  }

  lemma {:induction false} SentMore(f: FlatArray, n0: Net, done: nat, g: FlatArray, n: Net, left: nat)
    returns (g': FlatArray, n': Net)
    requires Sent(f, n0, done, g, n)
    ensures g.Wf()
    ensures var data := Window(g, Min(left, g.ReadSize()));
            && g' == Moved(g, g.position + |n.Went(data)|) && n' == n.AfterSend(data)
            && Sent(f, n0, done + |n.Went(data)|, g', n')
  {
    var data := Window(g, Min(left, g.ReadSize()));
    var k, p, q := |n.Went(data)|, f.position, f.position + done;
    assert n.Went(data) == f.bytes[q..q + k];
    SliceJoin(f.bytes, p, q, q + k);
    g', n' := Moved(g, g.position + k), n.AfterSend(data);
  }

  // The loop of writeFixSize.
  method WriteLeft(s: Socket, a: ByteArray, length: nat) returns (len: int, ghost done: nat)
    requires a.Valid() && s !in a.repr
    modifies s, a`position, a`size, a`cur, a`at
    ensures a.Valid() && Sent(old(a.State()), old(s.net), done, a.State(), s.net)
    ensures if len == 1 then done == length else done < length && (len == 0 || len == -1)
    ensures old(s.net).Willing(length) ==> (len == 1 <==> length <= old(a.State()).ReadSize())
  {
    a.CursorIsBlock();
    ghost var f, n0 := a.State(), s.net;
    done := 0;
    var left: nat := length;
    while left > 0
      invariant a.Valid() && Sent(f, n0, done, a.State(), s.net) && left == length - done
      invariant n0.Willing(length) ==> s.net.Willing(left)
      decreases left
    {
      len, done := WriteSome(s, a, left, f, n0, done);
      if len <= 0 { return; }
      left := left - len;
    }
    len := 1;
  }

  // Sends the next `length` bytes, in order. More than there is to read is never sent: the buffers come up empty.
  method WriteFixSize(s: Socket, a: ByteArray, length: nat) returns (r: int, ghost done: nat)
    requires a.Valid() && s !in a.repr && length < SIZE_LIMIT
    modifies s, a`position, a`size, a`cur, a`at
    ensures a.Valid() && Sent(old(a.State()), old(s.net), done, a.State(), s.net)
    ensures if length >= INT64_LIMIT then done == 0 && r == AsInt(length)
            else if done == length then r == AsInt(length)
            else done < length && (r == 0 || r == -1)
    ensures length < INT64_LIMIT && old(s.net).Willing(length) ==>
            (done == length <==> length <= old(a.State()).ReadSize())
  {
    var left := AsInt64(length);
    r, done := WriteLeft(s, a, if left > 0 then left else 0);
    if r == 1 { r := AsInt(length); }
  }
}
