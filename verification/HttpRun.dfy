/** The byte-at-a-time machine run over whole inputs: what the callbacks see, independent of buffers. */
module HttpRun {
  import opened Ascii
  import opened HttpMachine

  // The callbacks with buffers taken apart: one token per data octet and one per notification.
  datatype Token = Data(e: Element, c: char) | Note(n: Notice)

  datatype Result = Done(p: Parser, toks: seq<Token>) | Exited(p: Parser, toks: seq<Token>, left: string) | Failed

  // The element that an octet read in this state may continue.
  function Open(s: State): Option<Element> {
    if s.Field? then Some(HeaderField)
    else if s.Value? then Some(HeaderValue)
    else if s.ReqUrl? && !s.u.SpacesBeforeUrl? then Some(Url)
    else if s.ResStatus? then Some(Status)
    else if s.ChunkData? || s.ChunkDataAlmostDone? || s.BodyIdentity? || s.BodyIdentityEof? then Some(Body)
    else None
  }

  // The tokens of one octet: it is data exactly when an element is still open after its actions.
  function Emit(open: Option<Element>, acts: Acts, c: char): seq<Token>
    decreases acts
  {
    match acts
    case End => if open.Some? then [Data(open.value, c)] else []
    case Then(Mark(e), rest) => Emit(Some(e), rest, c)
    case Then(Flush(e), rest) => Emit(None, rest, c)
    case Then(FlushThrough(e), rest) => [Data(e, c)] + Emit(None, rest, c)
    case Then(Notify(n), rest) => [Note(n)] + Emit(open, rest, c)
  }

  function After(toks: seq<Token>, r: Result): Result {
    match r
    case Done(p, t) => Done(p, toks + t)
    case Exited(p, t, left) => Exited(p, toks + t, left)
    case Failed => Failed
  }

  // A transition function as a value, so that proofs about runs need not look inside it.
  type Stepper = (Parser, char) -> Outcome

  function RunWith(step: Stepper, p: Parser, s: string): Result
    decreases |s|
  {
    if s == "" then Done(p, [])
    else
      match step(p, s[0])
      case Go(q, acts) => After(Emit(Open(p.state), acts, s[0]), RunWith(step, q, s[1..]))
      case Exit(q, acts) => Exited(q, Emit(Open(p.state), acts, s[0]), s[1..])
      case Fail(_) => Failed
  }

  // The parser fed one octet at a time.
  function Run(p: Parser, s: string): Result { RunWith(Step, p, s) }

  // The octets of one element as tokens.
  function DataTokens(e: Element, s: string): (t: seq<Token>)
    ensures |t| == |s| && forall i :: 0 <= i < |s| ==> t[i] == Data(e, s[i])
  {
    if s == "" then [] else [Data(e, s[0])] + DataTokens(e, s[1..])
  }

  lemma DataTokensConcat(e: Element, a: string, b: string)
    ensures DataTokens(e, a + b) == DataTokens(e, a) + DataTokens(e, b)
  {
  }

  lemma {:induction false} AfterAfter(a: seq<Token>, b: seq<Token>, r: Result)
    ensures After(a, After(b, r)) == After(a + b, r)
  {
    if !r.Failed? {
      assert a + (b + r.toks) == (a + b) + r.toks;
    }
  }

  ghost predicate KeepsInv(step: Stepper) {
    forall p, ch {:trigger step(p, ch)} :: Inv(p) ==> Kept(step(p, ch))
  }

  lemma {:induction false} RunKeepsInv(step: Stepper, p: Parser, s: string)
    requires KeepsInv(step) && Inv(p)
    ensures var r := RunWith(step, p, s); !r.Failed? ==> Inv(r.p)
    decreases |s|
  {
    if s != "" && step(p, s[0]).Go? {
      RunKeepsInv(step, step(p, s[0]).p, s[1..]);
    }
  }

  lemma {:induction false} AfterEmpty(r: Result)
    ensures After([], r) == r
  {
    if !r.Failed? {
      assert [] + r.toks == r.toks;
    }
  }

  // Feeding a text in two pieces is feeding it whole, whatever the cut.
  lemma {:induction false} RunConcat(step: Stepper, p: Parser, a: string, b: string)
    ensures match RunWith(step, p, a)
            case Done(q, t) => RunWith(step, p, a + b) == After(t, RunWith(step, q, b))
            case Exited(q, t, left) => RunWith(step, p, a + b) == Exited(q, t, left + b)
            case Failed => RunWith(step, p, a + b).Failed?
    decreases |a|
  {
    if a == "" {
      assert a + b == b;
      AfterEmpty(RunWith(step, p, b));
    } else {
      assert (a + b)[1..] == a[1..] + b;
      match step(p, a[0])
      case Go(q, acts) =>
        RunConcat(step, q, a[1..], b);
        var t := Emit(Open(p.state), acts, a[0]);
        var r := RunWith(step, q, a[1..]);
        if r.Done? {
          AfterAfter(t, r.toks, RunWith(step, r.p, b));
        }
      case Exit(q, acts) =>
      case Fail(_) =>
    }
  }
}
