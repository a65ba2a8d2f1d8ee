/** From header lines to the body that the callbacks see, and trailers. */
module HttpMessages {
  import opened Ascii
  import opened Sequences
  import opened HttpMachine
  import opened HttpRun
  import opened HttpExecute
  import opened HttpFraming
  import opened HttpHeaders

  // ---------------------------------------------------------------- header lines

  datatype Line = Line(name: string, blanks: string, value: string)

  function LineText(l: Line): string { (Head(l.name, l.blanks) + l.value) + "\r\n" }

  function LineTokens(l: Line): seq<Token> { DataTokens(HeaderField, l.name) + DataTokens(HeaderValue, l.value) }

  // A line with a name and a value, as section 3.2 of RFC 7230 writes it.
  predicate WellWritten(l: Line) {
    && l.name != "" && AllTokens(l.name) && AllBlank(l.blanks)
    && l.value != "" && !IsBlank(l.value[0]) && AllValue(l.value)
  }

  // One whose name means nothing to the parser.
  predicate Other(l: Line) {
    var n := Folded(l.name);
    && WellWritten(l) && n != "content-length" && n != "transfer-encoding" && n != "upgrade" && n != "connection"
    && n != "proxy-connection"
  }

  function LinesText(ls: seq<Line>): string { if ls == [] then "" else LineText(ls[0]) + LinesText(ls[1..]) }

  function LinesTokens(ls: seq<Line>): seq<Token> {
    if ls == [] then [] else LineTokens(ls[0]) + LinesTokens(ls[1..])
  }

  predicate Others(ls: seq<Line>) { forall i :: 0 <= i < |ls| ==> Other(ls[i]) }

  // ---------------------------------------------------------------- from line to line

  // After a text the parser goes on as `q` would, unless the next octet is a blank, which would continue the line.
  ghost predicate GoesOn(step: Stepper, p: Parser, text: string, q: Parser, toks: seq<Token>) {
    forall rest :: GoesOnAt(step, p, text, q, toks, rest)
  }

  ghost predicate GoesOnAt(step: Stepper, p: Parser, text: string, q: Parser, toks: seq<Token>, rest: string) {
    rest != "" && !IsBlank(rest[0]) ==> RunWith(step, p, text + rest) == After(toks, RunWith(step, q, rest))
  }

  lemma {:induction false} GoesOnWith(step: Stepper, p: Parser, text: string, q: Parser, toks: seq<Token>, rest: string)
    requires GoesOn(step, p, text, q, toks) && rest != "" && !IsBlank(rest[0])
    ensures RunWith(step, p, text + rest) == After(toks, RunWith(step, q, rest))
  {
    assert GoesOnAt(step, p, text, q, toks, rest);
  }

  lemma {:induction false} GoesOnSelf(step: Stepper, p: Parser)
    ensures GoesOn(step, p, "", p, [])
  {
    forall rest ensures GoesOnAt(step, p, "", p, [], rest) {
      assert "" + rest == rest;
      AfterEmpty(RunWith(step, p, rest));
    }
  }

  lemma {:induction false} GoesOnBoth(step: Stepper, p: Parser, a: string, q: Parser, t: seq<Token>, b: string,
                                      r: Parser, u: seq<Token>)
    requires GoesOn(step, p, a, q, t) && GoesOn(step, q, b, r, u) && (b == "" || !IsBlank(b[0]))
    ensures GoesOn(step, p, a + b, r, t + u)
  {
    forall rest ensures GoesOnAt(step, p, a + b, r, t + u, rest) {
      if rest != "" && !IsBlank(rest[0]) {
        Regroup(a, b, rest);
        assert b + rest != "" && !IsBlank((b + rest)[0]);
        assert GoesOnAt(step, p, a, q, t, b + rest) && GoesOnAt(step, q, b, r, u, rest);
        AfterAfter(t, u, RunWith(step, r, rest));
      }
    }
  }

  // Where a line has ended: its flag is set when the next line begins.
  function Begun(p: Parser): Parser { p.(state := FieldStart, flags := ValueFlags(p.flags, p.hstate)) }

  lemma {:induction false} StepBegins(p: Parser, b: Parser, ch: char)
    requires p.state.ValueLws? && !IsBlank(ch) && b == Begun(p)
    ensures Step(p, ch) == Step(b, ch)
  {
    if p.nread < MAX_HEADER_SIZE {
      LwsBegins(p, b, ch);
      StartIs(b, ch);
    }
  }

  lemma {:induction false} LwsBegins(p: Parser, b: Parser, ch: char)
    requires p.state.ValueLws? && !IsBlank(ch) && p.nread < MAX_HEADER_SIZE && b == Begun(p)
    ensures Step(p, ch) == FieldStartByte(b.(nread := b.nread + 1), ch)
  {
    assert Step(p, ch) == ValueLwsByte(p.(nread := p.nread + 1), ch);
    StartsAnywhere(b.(nread := b.nread + 1, state := ValueLws), ch);
  }

  lemma {:induction false} StartIs(p: Parser, ch: char)
    requires p.state.FieldStart? && p.nread < MAX_HEADER_SIZE
    ensures Step(p, ch) == FieldStartByte(p.(nread := p.nread + 1), ch)
  {
    assert Step(p, ch) == ExecHeaders(p.(nread := p.nread + 1), ch);
  }

  lemma {:induction false} StartsAnywhere(p: Parser, ch: char)
    ensures FieldStartByte(p, ch) == FieldStartByte(p.(state := FieldStart), ch)
  {
  }

  lemma {:induction false} LineBegins(p: Parser, rest: string)
    requires p.state.ValueLws? && rest != "" && !IsBlank(rest[0])
    ensures Run(p, rest) == Run(Begun(p), rest)
  {
    StepBegins(p, Begun(p), rest[0]);
  }

  ghost predicate EndLaw(step: Stepper, p: Parser) {
    p.nread < MAX_HEADER_SIZE ==>
      && (p.state.Value? && !p.hstate.HConnection? && !p.hstate.HTransferEncoding? ==>
            step(p, '\r') == Go(p.(state := HeaderAlmostDone, nread := p.nread + 1), One(Flush(HeaderValue))))
      && (p.state.HeaderAlmostDone? ==> step(p, '\n') == Go(p.(state := ValueLws, nread := p.nread + 1), End))
      && (p.state.FieldStart? ==> step(p, '\r') == Go(p.(state := HeadersAlmostDone, nread := p.nread + 1), End))
  }

  lemma {:induction false} StepEndLaw(p: Parser)
    ensures EndLaw(Step, p)
  {
    if p.nread < MAX_HEADER_SIZE {
      var q := p.(nread := p.nread + 1);
      if p.state.Value? && !p.hstate.HConnection? && !p.hstate.HTransferEncoding? {
        assert Step(p, '\r') == ValueByte(q, '\r');
      }
      if p.state.HeaderAlmostDone? { assert Step(p, '\n') == ExecHeaders(q, '\n'); }
      if p.state.FieldStart? { assert Step(p, '\r') == FieldStartByte(q, '\r'); }
    }
  }

  lemma {:induction false} LineEnds(step: Stepper, q: Parser)
    requires (forall r :: EndLaw(step, r)) && q.state.Value? && q.nread + 2 <= MAX_HEADER_SIZE
    requires !q.hstate.HConnection? && !q.hstate.HTransferEncoding?
    ensures RunWith(step, q, "\r\n") == Done(q.(state := ValueLws, nread := q.nread + 2), [])
  {
    var r, u := q.(state := HeaderAlmostDone, nread := q.nread + 1), q.(state := ValueLws, nread := q.nread + 2);
    assert EndLaw(step, q) && EndLaw(step, r);
    RunOne(step, q, '\r');
    RunOne(step, r, '\n');
    assert Emit(Some(HeaderValue), One(Flush(HeaderValue)), '\r') == [];
    Chain(step, q, "\r", r, [], "\n", u, []);
    assert "\r" + "\n" == "\r\n";
  }

  // A line, given what its name and its value come to.
  lemma {:induction false} LineGoesOn(p: Parser, l: Line, q: Parser, u: Parser)
    requires Run(p, Head(l.name, l.blanks)) == Done(q, DataTokens(HeaderField, l.name))
    requires Run(q, l.value) == Done(u, DataTokens(HeaderValue, l.value)) && u.state.Value?
    requires !u.hstate.HConnection? && !u.hstate.HTransferEncoding? && u.nread + 2 <= MAX_HEADER_SIZE
    ensures GoesOn(Step, p, LineText(l), Begun(u.(nread := u.nread + 2)), LineTokens(l))
  {
    forall r ensures EndLaw(Step, r) { StepEndLaw(r); }
    var w := u.(state := ValueLws, nread := u.nread + 2);
    LineEnds(Step, u);
    Chain(Step, p, Head(l.name, l.blanks), q, DataTokens(HeaderField, l.name), l.value, u,
          DataTokens(HeaderValue, l.value));
    Chain(Step, p, Head(l.name, l.blanks) + l.value, u, LineTokens(l), "\r\n", w, []);
    assert LineTokens(l) + [] == LineTokens(l) && Begun(w) == Begun(u.(nread := u.nread + 2));
    forall rest ensures GoesOnAt(Step, p, LineText(l), Begun(w), LineTokens(l), rest) {
      if rest != "" && !IsBlank(rest[0]) {
        RunConcat(Step, p, LineText(l), rest);
        LineBegins(w, rest);
      }
    }
  }

  // The parser between lines: but for what matching leaves behind, the length, the flags and the count.
  function Between(p: Parser, h: HeaderState, i: nat, n: nat): Parser {
    p.(hstate := h, index := i, nread := p.nread + n)
  }

  // Where the next line begins, when a value has left `u`.
  lemma {:induction false} Lands(p: Parser, q: Parser, u: Parser, n: nat)
    requires p.state.FieldStart? && p.nread <= q.nread <= u.nread && u.nread + 2 == p.nread + n
    requires q == AtValue(p, q.hstate, q.index, q.nread - p.nread)
    requires u == q.(state := Value, hstate := u.hstate, index := u.index, nread := u.nread, flags := u.flags,
                     contentLength := u.contentLength)
    ensures Begun(u.(nread := u.nread + 2)) ==
            Between(p.(flags := ValueFlags(u.flags, u.hstate), contentLength := u.contentLength), u.hstate, u.index, n)
  {
  }

  ghost predicate OtherLaw(step: Stepper, p: Parser, l: Line) {
    p.state.FieldStart? && Other(l) && p.nread + |LineText(l)| <= MAX_HEADER_SIZE ==>
      exists i :: GoesOn(step, p, LineText(l), Between(p, HGeneral, i, |LineText(l)|), LineTokens(l))
  }

  lemma {:induction false} StepOtherLaw(p: Parser, l: Line)
    ensures OtherLaw(Step, p, l)
  {
    if p.state.FieldStart? && Other(l) && p.nread + |LineText(l)| <= MAX_HEADER_SIZE {
      var i := OtherGoesOn(p, l);
    }
  }

  lemma {:induction false} OtherGoesOn(p: Parser, l: Line) returns (i: nat)
    requires p.state.FieldStart? && Other(l) && p.nread + |LineText(l)| <= MAX_HEADER_SIZE
    ensures GoesOn(Step, p, LineText(l), Between(p, HGeneral, i, |LineText(l)|), LineTokens(l))
  {
    var q;
    q, i := OtherRuns(p, l);
    var u := Valuing(q, HGeneral, i, |l.value|);
    Lands(p, q, u, |LineText(l)|);
    LineGoesOn(p, l, q, u);
  }

  lemma {:induction false} OtherRuns(p: Parser, l: Line) returns (q: Parser, i: nat)
    requires p.state.FieldStart? && Other(l) && p.nread + |LineText(l)| <= MAX_HEADER_SIZE
    ensures Run(p, Head(l.name, l.blanks)) == Done(q, DataTokens(HeaderField, l.name))
    ensures q == AtValue(p, q.hstate, q.index, |Head(l.name, l.blanks)|)
    ensures Run(q, l.value) == Done(Valuing(q, HGeneral, i, |l.value|), DataTokens(HeaderValue, l.value))
  {
    var h, j := HeaderNameExact(p, l.name, l.blanks);
    q := AtValue(p, h, j, |Head(l.name, l.blanks)|);
    i := GeneralValue(q, l.value);
  }

  // Any number of them changes nothing that matters.
  lemma {:induction false} OthersGoOn(step: Stepper, p: Parser, ls: seq<Line>) returns (h: HeaderState, i: nat)
    requires forall q, l :: OtherLaw(step, q, l)
    requires p.state.FieldStart? && Others(ls) && p.nread + |LinesText(ls)| <= MAX_HEADER_SIZE
    ensures GoesOn(step, p, LinesText(ls), Between(p, h, i, |LinesText(ls)|), LinesTokens(ls))
    decreases |ls|
  {
    if ls == [] {
      GoesOnSelf(step, p);
      h, i := p.hstate, p.index;
    } else {
      var l, rest := ls[0], ls[1..];
      assert OtherLaw(step, p, l);
      var j :| GoesOn(step, p, LineText(l), Between(p, HGeneral, j, |LineText(l)|), LineTokens(l));
      var q := Between(p, HGeneral, j, |LineText(l)|);
      h, i := OthersGoOn(step, q, rest);
      StartsWithName(rest);
      OneLineMore(step, p, ls, j, h, i);
    }
  }

  lemma {:induction false} UnknownsGoOn(p: Parser, ls: seq<Line>) returns (h: HeaderState, i: nat)
    requires p.state.FieldStart? && Others(ls) && p.nread + |LinesText(ls)| <= MAX_HEADER_SIZE
    ensures GoesOn(Step, p, LinesText(ls), Between(p, h, i, |LinesText(ls)|), LinesTokens(ls))
  {
    forall q, l ensures OtherLaw(Step, q, l) { StepOtherLaw(q, l); }
    h, i := OthersGoOn(Step, p, ls);
  }

  lemma {:induction false} OneLineMore(step: Stepper, p: Parser, ls: seq<Line>, j: nat, h: HeaderState, i: nat)
    requires ls != [] && (LinesText(ls[1..]) == "" || !IsBlank(LinesText(ls[1..])[0]))
    requires var q := Between(p, HGeneral, j, |LineText(ls[0])|);
             && GoesOn(step, p, LineText(ls[0]), q, LineTokens(ls[0]))
             && GoesOn(step, q, LinesText(ls[1..]), Between(q, h, i, |LinesText(ls[1..])|), LinesTokens(ls[1..]))
    ensures GoesOn(step, p, LinesText(ls), Between(p, h, i, |LinesText(ls)|), LinesTokens(ls))
  {
    var q := Between(p, HGeneral, j, |LineText(ls[0])|);
    GoesOnBoth(step, p, LineText(ls[0]), q, LineTokens(ls[0]), LinesText(ls[1..]),
               Between(q, h, i, |LinesText(ls[1..])|), LinesTokens(ls[1..]));
  }

  lemma {:induction false} StartsWithName(ls: seq<Line>)
    requires forall i :: 0 <= i < |ls| ==> WellWritten(ls[i])
    ensures LinesText(ls) == "" || !IsBlank(LinesText(ls)[0])
  {
    if ls != [] { assert LinesText(ls)[0] == ls[0].name[0]; }
  }

  // ---------------------------------------------------------------- the lines that frame the body

  // A Transfer-Encoding that says chunked, in any spelling.
  predicate SaysChunked(l: Line) {
    WellWritten(l) && Folded(l.name) == "transfer-encoding" && SpellsChunked(l.value)
  }

  lemma {:induction false} ChunkedGoesOn(p: Parser, l: Line) returns (h: HeaderState, i: nat)
    requires p.state.FieldStart? && SaysChunked(l) && p.nread + |LineText(l)| <= MAX_HEADER_SIZE
    ensures var q := p.(flags := p.flags.(chunked := true));
            GoesOn(Step, p, LineText(l), Between(q, h, i, |LineText(l)|), LineTokens(l))
  {
    var q;
    q, h, i := ChunkedRuns(p, l);
    var u := Valuing(q, h, i, |l.value|);
    Lands(p, q, u, |LineText(l)|);
    LineGoesOn(p, l, q, u);
  }

  lemma {:induction false} ChunkedRuns(p: Parser, l: Line) returns (q: Parser, h: HeaderState, i: nat)
    requires p.state.FieldStart? && SaysChunked(l) && p.nread + |LineText(l)| <= MAX_HEADER_SIZE
    ensures Run(p, Head(l.name, l.blanks)) == Done(q, DataTokens(HeaderField, l.name))
    ensures q == AtValue(p, q.hstate, q.index, |Head(l.name, l.blanks)|)
    ensures Run(q, l.value) == Done(Valuing(q, h, i, |l.value|), DataTokens(HeaderValue, l.value)) && h.HChunked?
  {
    var g, j := HeaderNameExact(p, l.name, l.blanks);
    q := AtValue(p, g, j, |Head(l.name, l.blanks)|);
    h, i := ChunkedValueExact(q, l.value);
  }

  // A Content-Length.
  predicate SaysLength(l: Line, n: nat) {
    && WellWritten(l) && Folded(l.name) == "content-length" && AllDigits(l.value) && Decimal(l.value) == n
    && 0 < n <= ULLONG_MAX - 10
  }

  lemma {:induction false} LeadFits(ds: string)
    requires ds != "" && AllDigits(ds) && Decimal(ds) <= ULLONG_MAX - 10
    ensures Decimal(ds[..|ds| - 1]) <= MAX_BEFORE_DEC
  {
  }

  lemma {:induction false} LengthGoesOn(p: Parser, l: Line, n: nat) returns (h: HeaderState, i: nat)
    requires p.state.FieldStart? && SaysLength(l, n) && !p.flags.contentLength
    requires p.nread + |LineText(l)| <= MAX_HEADER_SIZE
    ensures var q := p.(flags := p.flags.(contentLength := true), contentLength := n);
            GoesOn(Step, p, LineText(l), Between(q, h, i, |LineText(l)|), LineTokens(l))
  {
    var q := LengthRuns(p, l, n);
    var u := WithLength(q, n, q.nread + |l.value|);
    h, i := u.hstate, u.index;
    Lands(p, q, u, |LineText(l)|);
    LineGoesOn(p, l, q, u);
  }

  lemma {:induction false} LengthRuns(p: Parser, l: Line, n: nat) returns (q: Parser)
    requires p.state.FieldStart? && SaysLength(l, n) && !p.flags.contentLength
    requires p.nread + |LineText(l)| <= MAX_HEADER_SIZE
    ensures Run(p, Head(l.name, l.blanks)) == Done(q, DataTokens(HeaderField, l.name))
    ensures q == AtValue(p, q.hstate, q.index, |Head(l.name, l.blanks)|)
    ensures Run(q, l.value) == Done(WithLength(q, n, q.nread + |l.value|), DataTokens(HeaderValue, l.value))
  {
    var g, j := HeaderNameExact(p, l.name, l.blanks);
    q := AtValue(p, g, j, |Head(l.name, l.blanks)|);
    LeadFits(l.value);
    ContentLengthExact(q, l.value);
  }

  lemma {:induction false} StepKeeps()
    ensures KeepsInv(Step)
  {
    forall p, ch | Inv(p) ensures Kept(Step(p, ch)) { StepKeepsInv(p, ch); }
  }

  // ---------------------------------------------------------------- the end of the headers

  // Nothing but the framing lines decides what follows.
  predicate Plain(p: Parser) {
    !p.flags.trailing && !p.flags.skipBody && !p.meth.CONNECT? && !(p.flags.upgrade && p.flags.connUpgrade)
  }

  predicate HasBody(p: Parser) {
    Plain(p) && if p.flags.chunked then !p.flags.contentLength else 0 < p.contentLength < ULLONG_MAX
  }

  // The parser before the body.
  function BodyStart(p: Parser): Parser {
    p.(upgrade := false, nread := 0, state := if p.flags.chunked then ChunkSizeStart else BodyIdentity)
  }

  ghost predicate LastLaw(step: Stepper, p: Parser) {
    p.nread < MAX_HEADER_SIZE && p.state.HeadersAlmostDone? && HasBody(p) ==>
      step(p, '\n') == Go(BodyStart(p), One(Notify(HeadersComplete)))
  }

  lemma {:induction false} StepLastLaw(p: Parser)
    ensures LastLaw(Step, p)
  {
    if p.nread < MAX_HEADER_SIZE && p.state.HeadersAlmostDone? {
      assert Step(p, '\n') == HeadersAlmostDoneByte(p.(nread := p.nread + 1), '\n');
    }
  }

  lemma {:induction false} HeadEnds(step: Stepper, p: Parser)
    requires (forall r :: EndLaw(step, r)) && (forall r :: LastLaw(step, r)) && p.state.FieldStart? && HasBody(p)
    requires p.nread + 2 <= MAX_HEADER_SIZE
    ensures RunWith(step, p, "\r\n") == Done(BodyStart(p), [Note(HeadersComplete)])
  {
    var q := p.(state := HeadersAlmostDone, nread := p.nread + 1);
    assert EndLaw(step, p) && LastLaw(step, q);
    RunOne(step, p, '\r');
    RunOne(step, q, '\n');
    Chain(step, p, "\r", q, [], "\n", BodyStart(p), [Note(HeadersComplete)]);
    assert "\r" + "\n" == "\r\n";
  }

  // ---------------------------------------------------------------- messages

  // Neither body nor end.
  ghost predicate Quiet(toks: seq<Token>) { BodyOf(toks) == "" && Note(MessageComplete) !in toks }

  lemma {:induction false} QuietBoth(a: seq<Token>, b: seq<Token>)
    requires Quiet(a) && Quiet(b)
    ensures Quiet(a + b)
  {
    BodyOfConcat(a, b);
  }

  lemma {:induction false} DataIsQuiet(e: Element, s: string)
    requires e != Body
    ensures Quiet(DataTokens(e, s))
    decreases |s|
  {
    if s != "" {
      assert DataTokens(e, s)[1..] == DataTokens(e, s[1..]);
      DataIsQuiet(e, s[1..]);
    }
  }

  lemma {:induction false} LineIsQuiet(l: Line)
    ensures Quiet(LineTokens(l))
  {
    DataIsQuiet(HeaderField, l.name);
    DataIsQuiet(HeaderValue, l.value);
    QuietBoth(DataTokens(HeaderField, l.name), DataTokens(HeaderValue, l.value));
  }

  lemma {:induction false} LinesAreQuiet(ls: seq<Line>)
    ensures Quiet(LinesTokens(ls))
  {
    if ls != [] {
      LineIsQuiet(ls[0]);
      LinesAreQuiet(ls[1..]);
      QuietBoth(LineTokens(ls[0]), LinesTokens(ls[1..]));
    }
  }

  // The callbacks see the body and one end, on the last octet, and the parser is ready for the next message.
  ghost predicate Ends(toks: seq<Token>, body: string) {
    && BodyOf(toks) == body && |toks| > 0 && toks[|toks| - 1] == Note(MessageComplete)
    && Note(MessageComplete) !in toks[..|toks| - 1]
  }

  ghost predicate Delivers(p: Parser, text: string, body: string) {
    var r := Run(p, text);
    r.Done? && Ends(r.toks, body) && r.p.state == NewMessage(r.p)
  }

  lemma {:induction false} BodyThenEnds(a: seq<Token>, body: string, b: seq<Token>)
    requires BodyOf(a) == body && Note(MessageComplete) !in a && Ends(b, "")
    ensures Ends(a + b, body)
  {
    BodyOfConcat(a, b);
    assert (a + b)[..|a + b| - 1] == a + b[..|b| - 1];
  }

  lemma {:induction false} QuietThenEnds(a: seq<Token>, b: seq<Token>, body: string)
    requires Quiet(a) && Ends(b, body)
    ensures Ends(a + b, body)
  {
    BodyOfConcat(a, b);
    assert (a + b)[..|a + b| - 1] == a + b[..|b| - 1];
  }

  lemma {:induction false} QuietThenDelivers(p: Parser, head: string, q: Parser, a: seq<Token>, text: string,
                                             body: string)
    requires Run(p, head) == Done(q, a) && Quiet(a) && Delivers(q, text, body)
    ensures Delivers(p, head + text, body)
  {
    var r := Run(q, text);
    Chain(Step, p, head, q, a, text, r.p, r.toks);
    QuietThenEnds(a, r.toks, body);
  }

  // The lines before the body, and what they leave the parser with.
  lemma {:induction false} HeadRuns(p: Parser, head: string, q: Parser, toks: seq<Token>)
    requires Inv(p) && GoesOn(Step, p, head, q, toks) && Quiet(toks) && q.state.FieldStart? && HasBody(q)
    requires q.nread + 2 <= MAX_HEADER_SIZE
    ensures Run(p, head + "\r\n") == Done(BodyStart(q), toks + [Note(HeadersComplete)])
    ensures Inv(BodyStart(q)) && Quiet(toks + [Note(HeadersComplete)])
  {
    forall r ensures EndLaw(Step, r) && LastLaw(Step, r) {
      StepEndLaw(r);
      StepLastLaw(r);
    }
    HeadEnds(Step, q);
    assert GoesOnAt(Step, p, head, q, toks, "\r\n");
    StepKeeps();
    RunKeepsInv(Step, p, head + "\r\n");
    NoteHasNoBody(HeadersComplete);
    QuietBoth(toks, [Note(HeadersComplete)]);
  }

  // A framing line among others.
  lemma {:induction false} HeadGoesOn(step: Stepper, p: Parser, before: seq<Line>, l: Line, after: seq<Line>,
                                      q: Parser, r: Parser, s: Parser)
    requires GoesOn(step, p, LinesText(before), q, LinesTokens(before))
    requires GoesOn(step, q, LineText(l), r, LineTokens(l))
    requires GoesOn(step, r, LinesText(after), s, LinesTokens(after))
    requires WellWritten(l) && forall i :: 0 <= i < |after| ==> WellWritten(after[i])
    ensures GoesOn(step, p, HeadText(before, l, after), s, HeadTokens(before, l, after))
    ensures Quiet(HeadTokens(before, l, after))
  {
    assert LineText(l)[0] == l.name[0];
    GoesOnBoth(step, p, LinesText(before), q, LinesTokens(before), LineText(l), r, LineTokens(l));
    StartsWithName(after);
    GoesOnBoth(step, p, LinesText(before) + LineText(l), r, LinesTokens(before) + LineTokens(l), LinesText(after), s,
               LinesTokens(after));
    LinesAreQuiet(before);
    LineIsQuiet(l);
    LinesAreQuiet(after);
    QuietBoth(LinesTokens(before), LineTokens(l));
    QuietBoth(LinesTokens(before) + LineTokens(l), LinesTokens(after));
  }

  function HeadText(before: seq<Line>, l: Line, after: seq<Line>): string {
    (LinesText(before) + LineText(l)) + LinesText(after)
  }

  function HeadTokens(before: seq<Line>, l: Line, after: seq<Line>): seq<Token> {
    (LinesTokens(before) + LineTokens(l)) + LinesTokens(after)
  }

  // ---------------------------------------------------------------- bodies

  // The chunks, the last one, and the trailer.
  function ChunkedText(chunks: seq<Chunk>, last: Chunk, trailer: seq<Line>): string {
    (ChunksText(chunks) + SizeLine(last)) + (LinesText(trailer) + "\r\n")
  }

  predicate Chunked(chunks: seq<Chunk>, last: Chunk, trailer: seq<Line>) {
    && Filled(chunks) && Spelled(last) && last.data == ""
    && Others(trailer) && |LinesText(trailer)| + 2 <= MAX_HEADER_SIZE
  }

  lemma {:induction false} TrailerRuns(p: Parser, trailer: seq<Line>) returns (r: Result)
    requires p.flags.chunked && p.flags.trailing && !p.upgrade && p.state.FieldStart? && p.nread == 0
    requires Others(trailer) && |LinesText(trailer)| + 2 <= MAX_HEADER_SIZE
    ensures r == Run(p, LinesText(trailer) + "\r\n") && r.Done? && r.p.state == NewMessage(r.p)
    ensures r.toks == LinesTokens(trailer) + [Note(ChunkComplete), Note(MessageComplete)]
  {
    var h, i := UnknownsGoOn(p, trailer);
    var q := Between(p, h, i, |LinesText(trailer)|);
    TrailerStops(q);
    GoesOnWith(Step, p, LinesText(trailer), q, LinesTokens(trailer), "\r\n");
    r := After(LinesTokens(trailer), Run(q, "\r\n"));
  }

  lemma {:induction false} TrailerStops(p: Parser)
    requires p.flags.chunked && p.flags.trailing && !p.upgrade && p.state.FieldStart?
    requires p.nread + 2 <= MAX_HEADER_SIZE
    ensures var r := Run(p, "\r\n");
            r.Done? && r.p.state == NewMessage(r.p) && r.toks == [Note(ChunkComplete), Note(MessageComplete)]
  {
    StepFrames();
    TrailerEnd(Step, p);
    FinishedRests(p.(nread := p.nread + 2));
  }

  // Any payload cut into any non-empty chunks, with sizes spelled in any way, comes out as the payload, and the message
  // ends on the last octet, behind the trailer.
  lemma {:induction false} ChunkedDelivers(p: Parser, chunks: seq<Chunk>, last: Chunk, trailer: seq<Line>)
    requires Inv(p) && p.state.ChunkSizeStart? && !p.upgrade && Chunked(chunks, last, trailer)
    ensures Delivers(p, ChunkedText(chunks, last, trailer), Concat(chunks))
  {
    StepFrames();
    var q := if chunks == [] then p else p.(contentLength := 0);
    ChunksRun(Step, p, chunks);
    StepKeeps();
    RunKeepsInv(Step, p, ChunksText(chunks));
    SizeLineRun(Step, q, last);
    var u := AfterSize(q, 0);
    Chain(Step, p, ChunksText(chunks), q, ChunksTokens(chunks), SizeLine(last), u, [Note(ChunkHeader)]);
    var r := TrailerRuns(u, trailer);
    Chain(Step, p, ChunksText(chunks) + SizeLine(last), u, ChunksTokens(chunks) + [Note(ChunkHeader)],
          LinesText(trailer) + "\r\n", r.p, r.toks);
    ChunksEnd(chunks, trailer);
  }

  lemma {:induction false} ChunksEnd(chunks: seq<Chunk>, trailer: seq<Line>)
    ensures Ends((ChunksTokens(chunks) + [Note(ChunkHeader)]) +
                 (LinesTokens(trailer) + [Note(ChunkComplete), Note(MessageComplete)]), Concat(chunks))
  {
    ChunksBody(chunks);
    NoteHasNoBody(ChunkHeader);
    BodyOfConcat(ChunksTokens(chunks), [Note(ChunkHeader)]);
    LinesAreQuiet(trailer);
    LastNotes();
    BodyThenEnds(LinesTokens(trailer), "", [Note(ChunkComplete), Note(MessageComplete)]);
    BodyThenEnds(ChunksTokens(chunks) + [Note(ChunkHeader)], Concat(chunks),
                 LinesTokens(trailer) + [Note(ChunkComplete), Note(MessageComplete)]);
  }

  lemma {:induction false} LastNotes()
    ensures Ends([Note(ChunkComplete), Note(MessageComplete)], "")
  {
    NoteHasNoBody(ChunkComplete);
    NoteHasNoBody(MessageComplete);
    BodyOfConcat([Note(ChunkComplete)], [Note(MessageComplete)]);
    assert [Note(ChunkComplete)] + [Note(MessageComplete)] == [Note(ChunkComplete), Note(MessageComplete)];
  }

  // A message with a header line that says chunked, in any spelling and among any others, delivers its chunks.
  lemma {:induction false} ChunkedMessage(p: Parser, before: seq<Line>, l: Line, after: seq<Line>, chunks: seq<Chunk>,
                                          last: Chunk, trailer: seq<Line>)
    requires Inv(p) && p.state.FieldStart? && Plain(p) && !p.flags.contentLength
    requires Others(before) && SaysChunked(l) && Others(after) && Chunked(chunks, last, trailer)
    requires p.nread + |HeadText(before, l, after)| + 2 <= MAX_HEADER_SIZE
    ensures Delivers(p, (HeadText(before, l, after) + "\r\n") + ChunkedText(chunks, last, trailer), Concat(chunks))
  {
    var head, toks := HeadText(before, l, after), HeadTokens(before, l, after);
    var q := ChunkedHead(p, before, l, after);
    HeadRuns(p, head, q, toks);
    ChunkedDelivers(BodyStart(q), chunks, last, trailer);
    QuietThenDelivers(p, head + "\r\n", BodyStart(q), toks + [Note(HeadersComplete)],
                      ChunkedText(chunks, last, trailer), Concat(chunks));
  }

  lemma {:induction false} ChunkedHead(p: Parser, before: seq<Line>, l: Line, after: seq<Line>) returns (q: Parser)
    requires p.state.FieldStart? && Others(before) && SaysChunked(l) && Others(after)
    requires p.nread + |HeadText(before, l, after)| <= MAX_HEADER_SIZE
    ensures GoesOn(Step, p, HeadText(before, l, after), q, HeadTokens(before, l, after))
    ensures Quiet(HeadTokens(before, l, after))
    ensures q == Between(p.(flags := p.flags.(chunked := true)), q.hstate, q.index, |HeadText(before, l, after)|)
  {
    var h0, i0 := UnknownsGoOn(p, before);
    var q0 := Between(p, h0, i0, |LinesText(before)|);
    var h1, i1 := ChunkedGoesOn(q0, l);
    var q1 := Between(q0.(flags := q0.flags.(chunked := true)), h1, i1, |LineText(l)|);
    var h2, i2 := UnknownsGoOn(q1, after);
    q := Between(q1, h2, i2, |LinesText(after)|);
    HeadGoesOn(Step, p, before, l, after, q0, q1, q);
  }

  // A message with a header line that gives its length delivers that many octets.
  lemma {:induction false} LengthMessage(p: Parser, before: seq<Line>, l: Line, after: seq<Line>, body: string)
    requires Inv(p) && p.state.FieldStart? && Plain(p) && !p.flags.contentLength && !p.flags.chunked
    requires Others(before) && SaysLength(l, |body|) && Others(after)
    requires p.nread + |HeadText(before, l, after)| + 2 <= MAX_HEADER_SIZE
    ensures Delivers(p, (HeadText(before, l, after) + "\r\n") + body, body)
  {
    var head, toks := HeadText(before, l, after), HeadTokens(before, l, after);
    var q := LengthHead(p, before, l, after, |body|);
    HeadRuns(p, head, q, toks);
    BodyDelivers(BodyStart(q), body);
    QuietThenDelivers(p, head + "\r\n", BodyStart(q), toks + [Note(HeadersComplete)], body, body);
  }

  lemma {:induction false} LengthHead(p: Parser, before: seq<Line>, l: Line, after: seq<Line>, n: nat)
    returns (q: Parser)
    requires p.state.FieldStart? && !p.flags.contentLength
    requires Others(before) && SaysLength(l, n) && Others(after)
    requires p.nread + |HeadText(before, l, after)| <= MAX_HEADER_SIZE
    ensures GoesOn(Step, p, HeadText(before, l, after), q, HeadTokens(before, l, after))
    ensures Quiet(HeadTokens(before, l, after))
    ensures var f := p.(flags := p.flags.(contentLength := true), contentLength := n);
            q == Between(f, q.hstate, q.index, |HeadText(before, l, after)|)
  {
    var h0, i0 := UnknownsGoOn(p, before);
    var q0 := Between(p, h0, i0, |LinesText(before)|);
    var h1, i1 := LengthGoesOn(q0, l, n);
    var q1 := Between(q0.(flags := q0.flags.(contentLength := true), contentLength := n), h1, i1, |LineText(l)|);
    var h2, i2 := UnknownsGoOn(q1, after);
    q := Between(q1, h2, i2, |LinesText(after)|);
    HeadGoesOn(Step, p, before, l, after, q0, q1, q);
  }

  lemma {:induction false} BodyDelivers(p: Parser, body: string)
    requires Inv(p) && p.state.BodyIdentity? && !p.upgrade && |body| == p.contentLength
    ensures Delivers(p, body, body)
  {
    LengthDelivers(p, body);
    FinishedRests(p.(contentLength := 0));
    BodyEnds(body);
  }

  lemma {:induction false} BodyEnds(body: string)
    ensures Ends(DataTokens(Body, body) + [Note(MessageComplete)], body)
  {
    NoteHasNoBody(MessageComplete);
    BodyOfData(body);
    assert [Note(MessageComplete)][..0] == [];
    BodyThenEnds(DataTokens(Body, body), body, [Note(MessageComplete)]);
  }
}
