/** Which header names and values the parser knows, and what that does to message framing. */
module HttpHeaders {
  import opened Ascii
  import opened HttpMachine
  import opened HttpRun
  import opened HttpExecute
  import opened HttpFraming

  // ---------------------------------------------------------------- names

  // A name in lower case.
  function Folded(s: string): (t: string)
    ensures |t| == |s| && forall i :: 0 <= i < |s| ==> t[i] == FoldToken(s[i])
  {
    seq(|s|, i requires 0 <= i < |s| => FoldToken(s[i]))
  }

  predicate Prefix(n: string, lit: string) { |n| <= |lit| && lit[..|n|] == n }

  // What is known of a name after its octets so far.
  function Known(n: string): HeaderState {
    if Prefix(n, "connection") then
      if |n| <= 1 then HC else if |n| == 2 then HCO else if |n| == 3 then HCON
      else if |n| < 10 then HMatchingConnection else HConnection
    else if Prefix(n, "content-length") then if |n| < 14 then HMatchingContentLength else HContentLength
    else if Prefix(n, "proxy-connection") then if |n| < 16 then HMatchingProxyConnection else HConnection
    else if Prefix(n, "transfer-encoding") then if |n| < 17 then HMatchingTransferEncoding else HTransferEncoding
    else if Prefix(n, "upgrade") then if |n| < 7 then HMatchingUpgrade else HUpgrade
    else HGeneral
  }

  // The states that still count the octets of the name.
  predicate Matching(h: HeaderState) {
    h.HC? || h.HCO? || h.HCON? || h.HMatchingConnection? || h.HMatchingContentLength? || h.HMatchingProxyConnection? ||
    h.HMatchingTransferEncoding? || h.HMatchingUpgrade?
  }

  predicate IsUnknown(h: HeaderState) { h.HGeneral? || Matching(h) }

  predicate Knows(h: HeaderState, i: nat, n: string) { n != "" && h == Known(n) && (Matching(h) ==> i == |n| - 1) }

  lemma {:induction false} PrefixMore(n: string, c: char, lit: string)
    ensures Prefix(n + [c], lit) <==> Prefix(n, lit) && |n| < |lit| && lit[|n|] == c
    ensures Prefix(n, lit) && n != "" ==> n[0] == lit[0]
    ensures Prefix(n, lit) && |n| > 3 ==> n[3] == lit[3]
  {
    if Prefix(n, lit) && |n| < |lit| && lit[|n|] == c { assert lit[..|n| + 1] == lit[..|n|] + [lit[|n|]]; }
    if Prefix(n + [c], lit) {
      assert lit[..|n| + 1] == n + [c];
      assert lit[..|n| + 1][..|n|] == lit[..|n|] && (n + [c])[..|n|] == n;
      assert lit[..|n| + 1][|n|] == c;
    }
  }

  // The names cannot be taken for each other, but for the first three octets of two of them.
  lemma {:induction false} NamesDiffer(n: string, c: char)
    requires n != ""
    ensures Prefix(n, "connection") || Prefix(n, "content-length") ==> n[0] == 'c'
    ensures Prefix(n, "connection") && Prefix(n, "content-length") ==> |n| <= 3
    ensures |n| <= 3 ==> (Prefix(n, "connection") <==> Prefix(n, "content-length"))
    ensures Prefix(n, "proxy-connection") ==> n[0] == 'p'
    ensures Prefix(n, "transfer-encoding") ==> n[0] == 't'
    ensures Prefix(n, "upgrade") ==> n[0] == 'u'
  {
    PrefixMore(n, c, "connection");
    PrefixMore(n, c, "content-length");
    PrefixMore(n, c, "proxy-connection");
    PrefixMore(n, c, "transfer-encoding");
    PrefixMore(n, c, "upgrade");
    assert "connection"[..3] == "content-length"[..3];
    if |n| <= 3 {
      assert "connection"[..|n|] == "connection"[..3][..|n|] && "content-length"[..|n|] == "content-length"[..3][..|n|];
    }
  }

  // One more octet of a name that is none of them, or of one that shares its beginning with no other.
  lemma {:induction false} KnowsMoreOther(h: HeaderState, i: nat, n: string, ch: char)
    requires Knows(h, i, n) && IsToken(ch) && !Prefix(n, "connection") && !Prefix(n, "content-length")
    ensures var m := MatchName(h, i, ch); Knows(m.0, m.1, n + [FoldToken(ch)])
  {
    var c := FoldToken(ch);
    NamesDiffer(n, c);
    PrefixMore(n, c, "connection");
    PrefixMore(n, c, "content-length");
    PrefixMore(n, c, "proxy-connection");
    PrefixMore(n, c, "transfer-encoding");
    PrefixMore(n, c, "upgrade");
  }

  lemma {:induction false} KnowsMoreLength(h: HeaderState, i: nat, n: string, ch: char)
    requires Knows(h, i, n) && IsToken(ch) && Prefix(n, "content-length") && |n| > 3
    ensures var m := MatchName(h, i, ch); Knows(m.0, m.1, n + [FoldToken(ch)])
  {
    var c := FoldToken(ch);
    NamesDiffer(n, c);
    PrefixMore(n, c, "connection");
    PrefixMore(n, c, "content-length");
    NotOther(n, c);
  }

  lemma {:induction false} NotOther(n: string, c: char)
    requires n != "" && n[0] == 'c'
    ensures !Prefix(n + [c], "proxy-connection") && !Prefix(n + [c], "transfer-encoding") && !Prefix(n + [c], "upgrade")
  {
    NamesDiffer(n + [c], c);
  }

  lemma {:induction false} KnowsMoreConnection(h: HeaderState, i: nat, n: string, ch: char)
    requires Knows(h, i, n) && IsToken(ch) && Prefix(n, "connection")
    ensures var m := MatchName(h, i, ch); Knows(m.0, m.1, n + [FoldToken(ch)])
  {
    var c := FoldToken(ch);
    NamesDiffer(n, c);
    PrefixMore(n, c, "connection");
    PrefixMore(n, c, "content-length");
    NotOther(n, c);
  }

  // One more octet of any name.
  lemma {:induction false} KnowsMore(h: HeaderState, i: nat, n: string, ch: char)
    requires Knows(h, i, n) && IsToken(ch)
    ensures var m := MatchName(h, i, ch); Knows(m.0, m.1, n + [FoldToken(ch)])
  {
    NamesDiffer(n, ch);
    if Prefix(n, "connection") {
      KnowsMoreConnection(h, i, n, ch);
    } else if Prefix(n, "content-length") {
      KnowsMoreLength(h, i, n, ch);
    } else {
      KnowsMoreOther(h, i, n, ch);
    }
  }

  lemma {:induction false} PrefixWhole(n: string, lit: string)
    ensures n == lit <==> Prefix(n, lit) && |n| == |lit|
  {
  }

  // A name is known at its end exactly when it is spelled.
  lemma {:induction false} KnownIsSpelled(n: string)
    requires n != ""
    ensures Known(n).HContentLength? <==> n == "content-length"
    ensures Known(n).HTransferEncoding? <==> n == "transfer-encoding"
    ensures Known(n).HUpgrade? <==> n == "upgrade"
    ensures Known(n).HConnection? <==> n == "connection" || n == "proxy-connection"
    ensures var h := Known(n);
            h.HContentLength? || h.HTransferEncoding? || h.HUpgrade? || h.HConnection? || IsUnknown(h)
  {
    NamesDiffer(n, n[0]);
    PrefixWhole(n, "connection");
    PrefixWhole(n, "content-length");
    PrefixWhole(n, "proxy-connection");
    PrefixWhole(n, "transfer-encoding");
    PrefixWhole(n, "upgrade");
  }

  // ---------------------------------------------------------------- names in a run

  predicate IsBlank(ch: char) { ch == ' ' || ch == '\t' }

  // What is known of a name, as a value, so that proofs about runs need not look inside it.
  type Knowledge = (HeaderState, nat, string) -> bool

  // The parser after `n` octets of a name, and before the value of a line.
  function Naming(p: Parser, h: HeaderState, i: nat, n: nat): Parser {
    p.(state := Field, hstate := h, index := i, nread := p.nread + n)
  }

  function AtValue(p: Parser, h: HeaderState, i: nat, n: nat): Parser {
    p.(state := ValueDiscardWs, hstate := h, index := i, nread := p.nread + n)
  }

  // One octet of a name.
  ghost predicate NameTo(o: Outcome, acts: Acts, p: Parser, knows: Knowledge, n: string) {
    o.Go? && o.acts == acts && o.p == Naming(p, o.p.hstate, o.p.index, 1) && knows(o.p.hstate, o.p.index, n)
  }

  ghost predicate NameLaw(step: Stepper, knows: Knowledge, p: Parser, n: string, ch: char) {
    p.nread < MAX_HEADER_SIZE && IsToken(ch) ==>
      && (p.state.FieldStart? ==> NameTo(step(p, ch), One(Mark(HeaderField)), p, knows, [FoldToken(ch)]))
      && (p.state.Field? && knows(p.hstate, p.index, n) ==> NameTo(step(p, ch), End, p, knows, n + [FoldToken(ch)]))
  }

  // The colon, and blanks before the value.
  ghost predicate ColonLaw(step: Stepper, knows: Knowledge, p: Parser, n: string) {
    p.nread < MAX_HEADER_SIZE && p.state.Field? && knows(p.hstate, p.index, n) ==>
      step(p, ':') == Go(AtValue(p, p.hstate, p.index, 1), One(Flush(HeaderField)))
  }

  ghost predicate BlankLaw(step: Stepper, p: Parser, ch: char) {
    p.nread < MAX_HEADER_SIZE && p.state.ValueDiscardWs? && IsBlank(ch) ==>
      step(p, ch) == Go(p.(nread := p.nread + 1), End)
  }

  ghost predicate HeadLaws(step: Stepper, knows: Knowledge) {
    && (forall p, n, ch :: NameLaw(step, knows, p, n, ch)) && (forall p, n :: ColonLaw(step, knows, p, n))
    && (forall p, ch :: BlankLaw(step, p, ch))
  }

  lemma {:induction false} FirstKnown(c: char)
    ensures Known([c]) == if c == 'c' then HC else if c == 'p' then HMatchingProxyConnection
                          else if c == 't' then HMatchingTransferEncoding else if c == 'u' then HMatchingUpgrade
                          else HGeneral
  {
    PrefixMore("", c, "connection");
    PrefixMore("", c, "content-length");
    PrefixMore("", c, "proxy-connection");
    PrefixMore("", c, "transfer-encoding");
    PrefixMore("", c, "upgrade");
    assert "" + [c] == [c];
  }

  lemma {:induction false} StepNameLaw(p: Parser, n: string, ch: char)
    ensures NameLaw(Step, Knows, p, n, ch)
  {
    if p.nread < MAX_HEADER_SIZE && IsToken(ch) {
      if p.state.FieldStart? {
        assert Step(p, ch) == FieldStartByte(p.(nread := p.nread + 1), ch);
        FirstKnown(FoldToken(ch));
      } else if p.state.Field? && Knows(p.hstate, p.index, n) {
        StepNameMore(p, n, ch);
      }
    }
  }

  lemma {:induction false} StepNameMore(p: Parser, n: string, ch: char)
    requires p.nread < MAX_HEADER_SIZE && IsToken(ch) && p.state.Field? && Knows(p.hstate, p.index, n)
    ensures NameTo(Step(p, ch), End, p, Knows, n + [FoldToken(ch)])
  {
    KnowsMore(p.hstate, p.index, n, ch);
    StepField(p, ch);
  }

  lemma {:induction false} StepField(p: Parser, ch: char)
    requires p.nread < MAX_HEADER_SIZE && IsToken(ch) && p.state.Field? && FieldHeaderState(p.hstate)
    ensures Step(p, ch) == Go(MatchField(p.(nread := p.nread + 1), ch), End)
  {
    assert Step(p, ch) == ExecHeaders(p.(nread := p.nread + 1), ch);
  }

  lemma {:induction false} StepColonLaw(p: Parser, n: string)
    ensures ColonLaw(Step, Knows, p, n)
  {
    if p.nread < MAX_HEADER_SIZE && p.state.Field? && Knows(p.hstate, p.index, n) {
      assert Step(p, ':') == ExecHeaders(p.(nread := p.nread + 1), ':');
    }
  }

  lemma {:induction false} StepHeadLaws()
    ensures HeadLaws(Step, Knows)
  {
    forall p, n, ch ensures NameLaw(Step, Knows, p, n, ch) { StepNameLaw(p, n, ch); }
    forall p, n ensures ColonLaw(Step, Knows, p, n) { StepColonLaw(p, n); }
    forall p, ch ensures BlankLaw(Step, p, ch) { StepBlankLaw(p, ch); }
  }

  lemma {:induction false} StepBlankLaw(p: Parser, ch: char)
    ensures BlankLaw(Step, p, ch)
  {
    if p.nread < MAX_HEADER_SIZE && p.state.ValueDiscardWs? {
      assert Step(p, ch) == ExecHeaders(p.(nread := p.nread + 1), ch);
    }
  }

  lemma {:induction false} FoldedMore(s: string)
    requires s != ""
    ensures var n := |s| - 1;
            Folded(s) == Folded(s[..n]) + [FoldToken(s[n])] && (n == 0 ==> Folded(s) == [FoldToken(s[n])])
  {
  }

  lemma {:induction false} NameRun(step: Stepper, knows: Knowledge, p: Parser, name: string)
    returns (h: HeaderState, i: nat)
    requires HeadLaws(step, knows) && p.state.FieldStart? && name != "" && AllTokens(name)
    requires p.nread + |name| <= MAX_HEADER_SIZE
    ensures RunWith(step, p, name) == Done(Naming(p, h, i, |name|), DataTokens(HeaderField, name))
    ensures knows(h, i, Folded(name))
    decreases |name|
  {
    var init, last := name[..|name| - 1], name[|name| - 1];
    assert name == init + [last];
    FoldedMore(name);
    if init == "" {
      assert NameLaw(step, knows, p, "", last);
      h, i := step(p, last).p.hstate, step(p, last).p.index;
      RunOne(step, p, last);
      assert Emit(None, One(Mark(HeaderField)), last) == [Data(HeaderField, last)] == DataTokens(HeaderField, [last]);
    } else {
      var h0, i0 := NameRun(step, knows, p, init);
      h, i := NameMore(step, knows, p, init, last, h0, i0);
    }
  }

  lemma {:induction false} NameMore(step: Stepper, knows: Knowledge, p: Parser, init: string, last: char,
                                    h0: HeaderState, i0: nat)
    returns (h: HeaderState, i: nat)
    requires HeadLaws(step, knows) && IsToken(last) && p.nread + |init| < MAX_HEADER_SIZE && knows(h0, i0, Folded(init))
    requires RunWith(step, p, init) == Done(Naming(p, h0, i0, |init|), DataTokens(HeaderField, init))
    ensures var name := init + [last];
            RunWith(step, p, name) == Done(Naming(p, h, i, |name|), DataTokens(HeaderField, name))
    ensures knows(h, i, Folded(init) + [FoldToken(last)])
  {
    var q := Naming(p, h0, i0, |init|);
    assert NameLaw(step, knows, q, Folded(init), last);
    h, i := step(q, last).p.hstate, step(q, last).p.index;
    RunOne(step, q, last);
    assert Emit(Some(HeaderField), End, last) == [Data(HeaderField, last)];
    DataTokensSnoc(HeaderField, init, last);
    Chain(step, p, init, q, DataTokens(HeaderField, init), [last], Naming(p, h, i, |init| + 1),
          [Data(HeaderField, last)]);
  }

  // A line up to its value.
  function Head(name: string, blanks: string): string { name + ":" + blanks }

  predicate AllBlank(s: string) { forall i :: 0 <= i < |s| ==> IsBlank(s[i]) }

  lemma {:induction false} BlanksRun(step: Stepper, p: Parser, blanks: string)
    requires (forall q, ch :: BlankLaw(step, q, ch)) && p.state.ValueDiscardWs? && AllBlank(blanks)
    requires p.nread + |blanks| <= MAX_HEADER_SIZE
    ensures RunWith(step, p, blanks) == Done(p.(nread := p.nread + |blanks|), [])
    decreases |blanks|
  {
    if blanks != "" {
      var init, last := blanks[..|blanks| - 1], blanks[|blanks| - 1];
      RunSnoc(step, p, blanks);
      BlanksRun(step, p, init);
      assert BlankLaw(step, p.(nread := p.nread + |init|), last);
    }
  }

  lemma {:induction false} HeadRun(step: Stepper, knows: Knowledge, p: Parser, name: string, blanks: string)
    returns (h: HeaderState, i: nat)
    requires HeadLaws(step, knows) && p.state.FieldStart? && name != "" && AllTokens(name) && AllBlank(blanks)
    requires p.nread + |Head(name, blanks)| <= MAX_HEADER_SIZE
    ensures RunWith(step, p, Head(name, blanks)) ==
            Done(AtValue(p, h, i, |Head(name, blanks)|), DataTokens(HeaderField, name))
    ensures knows(h, i, Folded(name))
  {
    h, i := NameRun(step, knows, p, name);
    var q, r := Naming(p, h, i, |name|), AtValue(p, h, i, |name| + 1);
    assert ColonLaw(step, knows, q, Folded(name));
    RunOne(step, q, ':');
    Chain(step, p, name, q, DataTokens(HeaderField, name), ":", r, []);
    BlanksRun(step, r, blanks);
    Chain(step, p, name + ":", r, DataTokens(HeaderField, name), blanks, AtValue(p, h, i, |Head(name, blanks)|), []);
    assert DataTokens(HeaderField, name) + [] == DataTokens(HeaderField, name);
  }

  // A name is delivered as it stands and known exactly when it is spelled, in upper or lower case.
  lemma {:induction false} HeaderNameExact(p: Parser, name: string, blanks: string) returns (h: HeaderState, i: nat)
    requires p.state.FieldStart? && name != "" && AllTokens(name) && AllBlank(blanks)
    requires p.nread + |Head(name, blanks)| <= MAX_HEADER_SIZE
    ensures Run(p, Head(name, blanks)) == Done(AtValue(p, h, i, |Head(name, blanks)|), DataTokens(HeaderField, name))
    ensures h.HContentLength? <==> Folded(name) == "content-length"
    ensures h.HTransferEncoding? <==> Folded(name) == "transfer-encoding"
    ensures h.HUpgrade? <==> Folded(name) == "upgrade"
    ensures h.HConnection? <==> Folded(name) == "connection" || Folded(name) == "proxy-connection"
    ensures h.HContentLength? || h.HTransferEncoding? || h.HUpgrade? || h.HConnection? || IsUnknown(h)
  {
    StepHeadLaws();
    h, i := HeadRun(Step, Knows, p, name, blanks);
    KnownIsSpelled(Folded(name));
  }

  // ---------------------------------------------------------------- the value of Transfer-Encoding

  predicate IsValueChar(ch: char) { IsHeaderChar(ch) && ch != '\r' && ch != '\n' }

  predicate AllValue(s: string) { forall i :: 0 <= i < |s| ==> IsValueChar(s[i]) }

  // "chunked" in upper or lower case, with nothing but spaces behind it.
  predicate SpellsChunked(v: string) {
    |v| >= 7 && Folded(v[..7]) == "chunked" && forall i :: 7 <= i < |v| ==> v[i] == ' '
  }

  predicate KnowsValue(h: HeaderState, i: nat, v: string) {
    && v != ""
    && if |v| < 7 && Prefix(Folded(v), "chunked") then h == HMatchingChunked && i == |v| - 1
       else if SpellsChunked(v) then h == HChunked
       else h == HGeneral
  }

  lemma {:induction false} LowerIsFold(ch: char, l: char)
    requires 'a' <= l <= 'z'
    ensures Lower(ch) == l <==> FoldToken(ch) == l
  {
  }

  lemma {:induction false} SpellsMore(v: string, ch: char)
    requires |v| >= 7
    ensures SpellsChunked(v + [ch]) <==> SpellsChunked(v) && ch == ' '
  {
    var w := v + [ch];
    assert w[..7] == v[..7];
    if SpellsChunked(w) {
      forall i | 7 <= i < |v| ensures v[i] == ' ' { assert w[i] == v[i]; }
      assert w[|v|] == ch;
    }
  }

  lemma {:induction false} SpellsSix(v: string, ch: char)
    requires |v| < 7
    ensures SpellsChunked(v + [ch]) <==> |v| == 6 && Prefix(Folded(v), "chunked") && FoldToken(ch) == 'd'
    ensures Prefix(Folded(v + [ch]), "chunked") <==> Prefix(Folded(v), "chunked") && "chunked"[|v|] == FoldToken(ch)
  {
    var w := v + [ch];
    FoldedMore(w);
    assert w[..|v|] == v;
    PrefixMore(Folded(v), FoldToken(ch), "chunked");
    if |v| == 6 {
      assert w[..7] == w;
      PrefixWhole(Folded(w), "chunked");
    }
  }

  // One more octet of the value.
  lemma {:induction false} KnowsValueMore(h: HeaderState, i: nat, f: Flags, n: nat, v: string, ch: char)
    requires KnowsValue(h, i, v)
    ensures var m := MatchContent(h, i, f, n, ch);
            m.Matched? && m.flags == f && m.length == n && KnowsValue(m.h, m.i, v + [ch])
  {
    if |v| < 7 {
      SpellsSix(v, ch);
      LowerIsFold(ch, "chunked"[|v|]);
    } else {
      SpellsMore(v, ch);
    }
  }

  // ---------------------------------------------------------------- values in a run

  function Valuing(p: Parser, h: HeaderState, i: nat, n: nat): Parser {
    p.(state := Value, hstate := h, index := i, nread := p.nread + n)
  }

  ghost predicate ValueTo(o: Outcome, acts: Acts, p: Parser, knows: Knowledge, v: string) {
    o.Go? && o.acts == acts && o.p == Valuing(p, o.p.hstate, o.p.index, 1) && knows(o.p.hstate, o.p.index, v)
  }

  // `begins` are the header states for which `knows` tells what is known of the value.
  ghost predicate ValueLaw(step: Stepper, begins: HeaderState -> bool, knows: Knowledge, p: Parser, v: string, ch: char)
  {
    p.nread < MAX_HEADER_SIZE && IsValueChar(ch) ==>
      && (p.state.ValueDiscardWs? && begins(p.hstate) && !IsBlank(ch) ==>
            ValueTo(step(p, ch), One(Mark(HeaderValue)), p, knows, [ch]))
      && (p.state.Value? && knows(p.hstate, p.index, v) ==> ValueTo(step(p, ch), End, p, knows, v + [ch]))
  }

  lemma {:induction false} FirstOfValue(ch: char)
    ensures KnowsValue(if Lower(ch) == 'c' then HMatchingChunked else HGeneral, 0, [ch])
  {
    SpellsSix("", ch);
    LowerIsFold(ch, 'c');
    assert "" + [ch] == [ch];
  }

  predicate IsTransferEncoding(h: HeaderState) { h.HTransferEncoding? }

  lemma {:induction false} StepValueLaw(p: Parser, v: string, ch: char)
    ensures ValueLaw(Step, IsTransferEncoding, KnowsValue, p, v, ch)
  {
    if p.nread < MAX_HEADER_SIZE && IsValueChar(ch) {
      if p.state.ValueDiscardWs? && p.hstate.HTransferEncoding? && !IsBlank(ch) {
        FirstOfValue(ch);
        assert Step(p, ch) == ValueStartByte(p.(nread := p.nread + 1), ch);
      } else if p.state.Value? && KnowsValue(p.hstate, p.index, v) {
        StepValueMore(p, v, ch);
      }
    }
  }

  lemma {:induction false} StepValueMore(p: Parser, v: string, ch: char)
    requires p.nread < MAX_HEADER_SIZE && IsValueChar(ch) && p.state.Value? && KnowsValue(p.hstate, p.index, v)
    ensures ValueTo(Step(p, ch), End, p, KnowsValue, v + [ch])
  {
    KnowsValueMore(p.hstate, p.index, p.flags, p.contentLength, v, ch);
    assert Step(p, ch) == MatchValue(p.(nread := p.nread + 1), ch);
  }

  lemma {:induction false} ValueRun(step: Stepper, begins: HeaderState -> bool, knows: Knowledge, p: Parser, v: string)
    returns (h: HeaderState, i: nat)
    requires forall q, w, ch :: ValueLaw(step, begins, knows, q, w, ch)
    requires p.state.ValueDiscardWs? && begins(p.hstate) && v != "" && !IsBlank(v[0]) && AllValue(v)
    requires p.nread + |v| <= MAX_HEADER_SIZE
    ensures RunWith(step, p, v) == Done(Valuing(p, h, i, |v|), DataTokens(HeaderValue, v)) && knows(h, i, v)
    decreases |v|
  {
    var init, last := v[..|v| - 1], v[|v| - 1];
    assert v == init + [last];
    if init == "" {
      assert ValueLaw(step, begins, knows, p, "", last);
      h, i := step(p, last).p.hstate, step(p, last).p.index;
      RunOne(step, p, last);
      assert Emit(None, One(Mark(HeaderValue)), last) == [Data(HeaderValue, last)] == DataTokens(HeaderValue, [last]);
    } else {
      var h0, i0 := ValueRun(step, begins, knows, p, init);
      h, i := ValueMore(step, begins, knows, p, init, last, h0, i0);
    }
  }

  lemma {:induction false} ValueMore(step: Stepper, begins: HeaderState -> bool, knows: Knowledge, p: Parser,
                                     init: string, last: char, h0: HeaderState, i0: nat)
    returns (h: HeaderState, i: nat)
    requires forall q, w, ch :: ValueLaw(step, begins, knows, q, w, ch)
    requires IsValueChar(last) && p.nread + |init| < MAX_HEADER_SIZE && knows(h0, i0, init)
    requires RunWith(step, p, init) == Done(Valuing(p, h0, i0, |init|), DataTokens(HeaderValue, init))
    ensures var v := init + [last];
            RunWith(step, p, v) == Done(Valuing(p, h, i, |v|), DataTokens(HeaderValue, v)) && knows(h, i, v)
  {
    var q := Valuing(p, h0, i0, |init|);
    assert ValueLaw(step, begins, knows, q, init, last);
    h, i := step(q, last).p.hstate, step(q, last).p.index;
    RunOne(step, q, last);
    assert Emit(Some(HeaderValue), End, last) == [Data(HeaderValue, last)];
    DataTokensSnoc(HeaderValue, init, last);
    Chain(step, p, init, q, DataTokens(HeaderValue, init), [last], Valuing(p, h, i, |init| + 1),
          [Data(HeaderValue, last)]);
  }

  // A Transfer-Encoding is taken for chunked exactly when its value spells that.
  lemma {:induction false} ChunkedValueExact(p: Parser, v: string) returns (h: HeaderState, i: nat)
    requires p.state.ValueDiscardWs? && p.hstate.HTransferEncoding? && v != "" && !IsBlank(v[0]) && AllValue(v)
    requires p.nread + |v| <= MAX_HEADER_SIZE
    ensures Run(p, v) == Done(Valuing(p, h, i, |v|), DataTokens(HeaderValue, v))
    ensures (h.HChunked? <==> SpellsChunked(v)) && !h.HConnection? && !h.HTransferEncoding?
    ensures ValueFlags(p.flags, h) == if SpellsChunked(v) then p.flags.(chunked := true) else p.flags
  {
    forall q, w, ch ensures ValueLaw(Step, IsTransferEncoding, KnowsValue, q, w, ch) { StepValueLaw(q, w, ch); }
    h, i := ValueRun(Step, IsTransferEncoding, KnowsValue, p, v);
  }

  // The value of a header that is not known is passed over.
  predicate IsGeneral(h: HeaderState, i: nat, v: string) { h.HGeneral? }

  lemma {:induction false} StepGeneralLaw(p: Parser, v: string, ch: char)
    ensures ValueLaw(Step, IsUnknown, IsGeneral, p, v, ch)
  {
    if p.nread < MAX_HEADER_SIZE && IsValueChar(ch) {
      if p.state.ValueDiscardWs? && IsUnknown(p.hstate) && !IsBlank(ch) {
        assert Step(p, ch) == ValueStartByte(p.(nread := p.nread + 1), ch);
      } else if p.state.Value? && p.hstate.HGeneral? {
        assert Step(p, ch) == MatchValue(p.(nread := p.nread + 1), ch);
      }
    }
  }

  lemma {:induction false} GeneralValue(p: Parser, v: string) returns (i: nat)
    requires p.state.ValueDiscardWs? && IsUnknown(p.hstate) && v != "" && !IsBlank(v[0]) && AllValue(v)
    requires p.nread + |v| <= MAX_HEADER_SIZE
    ensures Run(p, v) == Done(Valuing(p, HGeneral, i, |v|), DataTokens(HeaderValue, v))
  {
    forall q, w, ch ensures ValueLaw(Step, IsUnknown, IsGeneral, q, w, ch) { StepGeneralLaw(q, w, ch); }
    var h;
    h, i := ValueRun(Step, IsUnknown, IsGeneral, p, v);
  }
}
