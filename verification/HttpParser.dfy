/** The parser object: http_parser_init and http_parser_execute, and feeding a message in pieces. */
module HttpParserObject {
  import opened Ascii
  import opened Sequences
  import opened HttpMachine
  import opened HttpRun
  import opened HttpExecute

  function Flatten(pieces: seq<string>): string {
    if pieces == [] then "" else Flatten(pieces[..|pieces| - 1]) + pieces[|pieces| - 1]
  }

  // What a call did, in terms of the byte machine alone.
  ghost predicate Executed(st0: Parser, base: seq<Token>, data: string, st: Parser, errno: Option<Errno>,
                           toks: seq<Token>, n: nat)
  {
    match Run(st0, data)
    case Done(p, t) => errno.None? && st == p && toks == base + t && n == |data|
    case Exited(p, t, left) => errno.None? && st == p && toks == base + t && n == |data| - |left|
    case Failed => errno.Some?
  }

  // What the end of the stream does to a parser in this state.
  predicate MayEnd(s: State) {
    s.BodyIdentityEof? || s.Dead? || s.StartReqOrRes? || s.StartRes? || s.StartReq?
  }

  lemma InitKeepsInv(t: ParserType)
    ensures Inv(InitParser(t))
  {
  }

  class HttpParser {
    var st: Parser
    var errno: Option<Errno>
    var log: seq<Callback>

    ghost predicate Valid() reads this { errno.None? ==> Inv(st) }

    constructor (t: ParserType)
      ensures Valid() && st == InitParser(t) && errno.None? && log == []
    {
      InitKeepsInv(t);
      st, errno, log := InitParser(t), None, [];
    }

    // The marks that a buffer starts with.
    static function InitialMark(s: State): (m: Slot)
      ensures Fits(m.Open(), s) && (m.Marked? ==> m.at == 0)
    {
      match Open(s)
      case None => Unmarked
      case Some(e) => if e == Body then Unmarked else Marked(e, 0)
    }

    method Execute(data: string) returns (n: nat)
      requires Valid() && |data| <= MAX_BUFFER
      modifies this
      ensures Valid()
      ensures old(errno).Some? ==> n == 0 && st == old(st) && errno == old(errno) && log == old(log)
      ensures old(errno).None? && data == "" ==>
                && st == old(st)
                && errno == (if MayEnd(st.state) then None else Some(InvalidEofState))
                && log == old(log) + if st.state.BodyIdentityEof? then [OnNotice(MessageComplete)] else []
      ensures old(errno).None? && data != "" ==>
                Executed(old(st), Tokens(old(log)), data, st, errno, Tokens(log), n)
    {
      if errno.Some? { return 0; }
      if data == "" {
        if st.state.BodyIdentityEof? { log := log + [OnNotice(MessageComplete)]; }
        else if !MayEnd(st.state) { errno := Some(InvalidEofState); return 1; }
        return 0;
      }
      var done, status, p, calls := Loop(st, log, data);
      st, log, n := done, calls, p;
      if status.Error? { errno := Some(status.e); }
    }

    // Feeding the pieces of a message one buffer at a time. Unless a protocol upgrade cuts the message
    // short, the outcome is that of the whole text: state, flags, lengths, counters and callback data.
    method ExecuteAll(pieces: seq<string>)
      requires Valid() && errno.None?
      requires forall i :: 0 <= i < |pieces| ==> 0 < |pieces[i]| <= MAX_BUFFER
      modifies this
      ensures Valid()
      ensures match Run(old(st), Flatten(pieces))
              case Done(p, t) => errno.None? && st == p && Tokens(log) == Tokens(old(log)) + t
              case Exited(_, _, _) => true
              case Failed => errno.Some?
    {
      ghost var base := Tokens(log);
      assert base + [] == base;
      for i := 0 to |pieces|
        invariant Valid() && Fed(old(st), base, Flatten(pieces[..i]), st, errno, Tokens(log))
      {
        ghost var st1, errno1, toks1 := st, errno, Tokens(log);
        var _ := Execute(pieces[i]);
        FeedMore(old(st), base, Flatten(pieces[..i]), st1, errno1, toks1, pieces[i], st, errno, Tokens(log));
        assert pieces[..i + 1][..i] == pieces[..i];
      }
      assert pieces[..|pieces|] == pieces;
    }
  }

  ghost predicate Fed(st0: Parser, base: seq<Token>, text: string, st: Parser, errno: Option<Errno>, toks: seq<Token>) {
    match Run(st0, text)
    case Done(p, t) => errno.None? && st == p && toks == base + t
    case Exited(_, _, _) => true
    case Failed => errno.Some?
  }

  lemma {:induction false} FeedMore(st0: Parser, base: seq<Token>, text: string, st1: Parser, errno1: Option<Errno>,
                                    toks1: seq<Token>, piece: string, st: Parser, errno: Option<Errno>,
                                    toks: seq<Token>)
    requires Fed(st0, base, text, st1, errno1, toks1)
    requires errno1.None? ==> exists n: nat :: Executed(st1, toks1, piece, st, errno, toks, n)
    requires errno1.Some? ==> errno.Some?
    ensures Fed(st0, base, text + piece, st, errno, toks)
  {
    RunConcat(Step, st0, text, piece);
    var r := Run(st0, text);
    if r.Done? && !Run(st1, piece).Failed? {
      Regroup(base, r.toks, Run(st1, piece).toks);
    }
  }

  // The loop over one buffer and the callbacks for the mark left at its end.
  method Loop(st0: Parser, log0: seq<Callback>, data: string)
    returns (cur: Parser, status: Status, p: nat, log: seq<Callback>)
    requires Inv(st0) && 0 < |data| <= MAX_BUFFER
    ensures !status.Error? ==> Inv(cur)
    ensures Executed(st0, Tokens(log0), data, cur, if status.Error? then Some(status.e) else None, Tokens(log), p)
  {
    ghost var whole, base, toks := Run(st0, data), Tokens(log0), [];
    var m := HttpParser.InitialMark(st0.state);
    cur, log, p, status := st0, log0, 0, Continue;
    StartSynced(st0, m, log0, data);
    while p < |data| && status.Continue?
      invariant Settled(Step, whole, base, toks, cur, m, log, data, p, status)
      decreases |data| - p
    {
      cur, m, log, p, status, toks := Round(whole, base, toks, cur, m, log, data, p);
    }
    if status.Continue? {
      log := Deliver(log, m, data, p);
      EndSynced(whole, toks, cur, data);
    }
  }

  lemma {:induction false} StartSynced(st0: Parser, m: Slot, log: seq<Callback>, data: string)
    requires Inv(st0) && m == HttpParser.InitialMark(st0.state)
    ensures Synced(Step, Run(st0, data), Tokens(log), [], st0, m, log, data, 0)
  {
    AfterEmpty(Run(st0, data));
    assert data[0..] == data;
    assert Pending(m, data, 0) == [];
    assert Tokens(log) + [] == Tokens(log);
  }

  lemma {:induction false} EndSynced(whole: Result, toks: seq<Token>, cur: Parser, data: string)
    requires whole == After(toks, RunWith(Step, cur, data[|data|..]))
    ensures whole == Done(cur, toks)
  {
    assert data[|data|..] == "";
    assert toks + [] == toks;
  }
}
