/** Message framing: what lengths mean, and that bodies come out as they were put in. */
module HttpFraming {
  import opened Ascii
  import opened HttpMachine
  import opened HttpRun
  import opened HttpExecute

  // ---------------------------------------------------------------- numbers

  predicate AllDigits(s: string) { forall i :: 0 <= i < |s| ==> IsNum(s[i]) }

  // The octets that the size line takes for hex digits.
  predicate AllUnhex(s: string) { forall i :: 0 <= i < |s| ==> Unhex(s[i]).Some? }

  function HexValue(s: string): nat
    requires AllUnhex(s)
  {
    if s == "" then 0 else HexValue(s[..|s| - 1]) * 16 + Unhex(s[|s| - 1]).value
  }

  const MAX_BEFORE_HEX: nat := (ULLONG_MAX - 16) / 16
  const MAX_BEFORE_DEC: nat := (ULLONG_MAX - 10) / 10

  // The run of a text, from the run without its last octet.
  lemma {:induction false} RunSnoc(step: Stepper, p: Parser, s: string)
    requires s != ""
    ensures var last := s[|s| - 1];
            match RunWith(step, p, s[..|s| - 1])
            case Done(q, t) =>
              RunWith(step, p, s) == (match step(q, last)
                                      case Go(q', acts) => Done(q', t + Emit(Open(q.state), acts, last))
                                      case Exit(q', acts) => Exited(q', t + Emit(Open(q.state), acts, last), "")
                                      case Fail(_) => Failed)
            case Exited(q, t, left) => RunWith(step, p, s) == Exited(q, t, left + [last])
            case Failed => RunWith(step, p, s).Failed?
  {
    var init, last := s[..|s| - 1], s[|s| - 1];
    assert s == init + [last];
    RunConcat(step, p, init, [last]);
    var r := RunWith(step, p, init);
    if r.Done? {
      RunOne(step, r.p, last);
    }
  }

  // One octet alone.
  lemma {:induction false} RunOne(step: Stepper, p: Parser, ch: char)
    ensures RunWith(step, p, [ch]) == match step(p, ch)
                                      case Go(q, acts) => Done(q, Emit(Open(p.state), acts, ch))
                                      case Exit(q, acts) => Exited(q, Emit(Open(p.state), acts, ch), "")
                                      case Fail(_) => Failed
  {
    assert [ch][1..] == "";
    if step(p, ch).Go? {
      var t := Emit(Open(p.state), step(p, ch).acts, ch);
      assert RunWith(step, step(p, ch).p, "") == Done(step(p, ch).p, []);
      assert t + [] == t;
    }
  }

  // One hex digit of a size line.
  ghost predicate SizeLaw(step: Stepper, p: Parser, ch: char) {
    p.flags.chunked && Unhex(ch).Some? && p.nread <= MAX_HEADER_SIZE ==>
      && (p.state.ChunkSizeStart? && p.nread == 0 ==>
            step(p, ch) == Go(p.(state := ChunkSize, contentLength := Unhex(ch).value, nread := 1), End))
      && (p.state.ChunkSize? ==>
            if p.nread < MAX_HEADER_SIZE && p.contentLength <= MAX_BEFORE_HEX
            then step(p, ch) == Go(p.(contentLength := p.contentLength * 16 + Unhex(ch).value, nread := p.nread + 1),
                                   End)
            else step(p, ch).Fail?)
  }

  lemma StepSizeLaw(p: Parser, ch: char)
    ensures SizeLaw(Step, p, ch)
  {
    if p.flags.chunked && Unhex(ch).Some? && p.nread < MAX_HEADER_SIZE &&
       (p.state.ChunkSize? || p.state.ChunkSizeStart?) {
      var q := p.(nread := p.nread + 1);
      assert Step(p, ch) == Exec(q, ch);
    }
  }

  lemma {:induction false} SizeRun(step: Stepper, p: Parser, ds: string)
    requires forall q, ch :: SizeLaw(step, q, ch)
    requires p.state.ChunkSizeStart? && p.flags.chunked && p.nread == 0 && ds != "" && AllUnhex(ds)
    ensures RunWith(step, p, ds) ==
            if HexValue(ds[..|ds| - 1]) <= MAX_BEFORE_HEX && |ds| <= MAX_HEADER_SIZE
            then Done(p.(state := ChunkSize, contentLength := HexValue(ds), nread := |ds|), [])
            else Failed
    decreases |ds|
  {
    var init, last := ds[..|ds| - 1], ds[|ds| - 1];
    RunSnoc(step, p, ds);
    if init == "" {
      assert HexValue(ds) == Unhex(last).value;
      assert SizeLaw(step, p, last);
    } else {
      SizeRun(step, p, init);
      assert HexValue(init) >= HexValue(init[..|init| - 1]);
      assert SizeLaw(step, p.(state := ChunkSize, contentLength := HexValue(init), nread := |init|), last);
    }
  }

  // A chunk size line is read as the exact value of its digits, or refused before it could wrap.
  lemma {:induction false} ChunkSizeExact(p: Parser, ds: string)
    requires Inv(p) && p.state.ChunkSizeStart? && ds != "" && AllUnhex(ds)
    ensures Run(p, ds) ==
            if HexValue(ds[..|ds| - 1]) <= MAX_BEFORE_HEX && |ds| <= MAX_HEADER_SIZE
            then Done(p.(state := ChunkSize, contentLength := HexValue(ds), nread := |ds|), [])
            else Failed
  {
    forall q, ch ensures SizeLaw(Step, q, ch) { StepSizeLaw(q, ch); }
    SizeRun(Step, p, ds);
  }

  // No size that is accepted is the ULLONG_MAX that stands for "absent".
  lemma ChunkSizeNeverSentinel(ds: string)
    requires ds != "" && AllUnhex(ds) && HexValue(ds[..|ds| - 1]) <= MAX_BEFORE_HEX
    ensures HexValue(ds) < ULLONG_MAX
  {
  }

  // The table is zero above 0x7f, so such an octet passes for the digit 0 and a size line need not be hex.
  lemma {:induction false} ChunkSizeAcceptsNonHex(p: Parser, c: char)
    requires Inv(p) && p.state.ChunkSizeStart? && c as int >= 128
    ensures !IsHex(c)
    ensures Run(p, [c]) == Done(p.(state := ChunkSize, contentLength := 0, nread := 1), [])
  {
    assert [c][..0] == "";
    ChunkSizeExact(p, [c]);
    assert HexValue([c]) == HexValue("") * 16 + Unhex(c).value;
  }

  // Any other octet leaves the digits.
  ghost predicate NoDigitLaw(step: Stepper, p: Parser, ch: char) {
    (p.state.ChunkSizeStart? || p.state.ChunkSize?) && p.flags.chunked && Unhex(ch).None? ==>
      match step(p, ch) case Go(q, _) => !q.state.ChunkSize? case _ => true
  }

  lemma {:induction false} StepNoDigitLaw(p: Parser, ch: char)
    ensures NoDigitLaw(Step, p, ch)
  {
    if (p.state.ChunkSizeStart? || p.state.ChunkSize?) && p.flags.chunked && p.nread < MAX_HEADER_SIZE {
      assert Step(p, ch) == Exec(p.(nread := p.nread + 1), ch);
    }
  }

  // Every octet so far was taken for a digit of the size.
  ghost predicate InSize(step: Stepper, p: Parser, ds: string) {
    ds != "" && forall n :: 0 < n <= |ds| ==> InSizeAt(step, p, ds, n)
  }

  ghost predicate InSizeAt(step: Stepper, p: Parser, ds: string, n: nat) {
    n <= |ds| && RunWith(step, p, ds[..n]).Done? && RunWith(step, p, ds[..n]).p.state.ChunkSize?
  }

  lemma {:induction false} InSizeIsUnhex(step: Stepper, p: Parser, ds: string)
    requires (forall q, ch :: SizeLaw(step, q, ch)) && (forall q, ch :: NoDigitLaw(step, q, ch))
    requires p.state.ChunkSizeStart? && p.flags.chunked && p.nread == 0 && InSize(step, p, ds)
    ensures AllUnhex(ds)
    decreases |ds|
  {
    var init, last := ds[..|ds| - 1], ds[|ds| - 1];
    assert InSizeAt(step, p, ds, |ds|) && ds[..|ds|] == ds;
    RunSnoc(step, p, ds);
    if init == "" {
      assert NoDigitLaw(step, p, last);
    } else {
      forall n | 0 < n <= |init| ensures InSizeAt(step, p, init, n) {
        assert InSizeAt(step, p, ds, n) && ds[..n] == init[..n];
      }
      InSizeIsUnhex(step, p, init);
      assert InSizeAt(step, p, init, |init|) && init[..|init|] == init;
      SizeRun(step, p, init);
      var q := RunWith(step, p, init).p;
      assert q.state.ChunkSize? && q.flags.chunked;
      assert NoDigitLaw(step, q, last);
      assert Unhex(last).Some?;
    }
    forall i | 0 <= i < |ds| ensures Unhex(ds[i]).Some? { assert i < |init| ==> ds[i] == init[i]; }
  }

  // A size line that the parser takes is made of hex digits exactly when it has no octet from 0x80 on.
  lemma {:induction false} SizeLineIsHexIff(p: Parser, ds: string)
    requires Inv(p) && p.state.ChunkSizeStart? && InSize(Step, p, ds)
    ensures AllUnhex(ds) && Run(p, ds) == Done(p.(state := ChunkSize, contentLength := HexValue(ds), nread := |ds|), [])
    ensures (forall i :: 0 <= i < |ds| ==> IsHex(ds[i])) <==> (forall i :: 0 <= i < |ds| ==> ds[i] as int < 128)
  {
    forall q, ch ensures SizeLaw(Step, q, ch) { StepSizeLaw(q, ch); }
    forall q, ch ensures NoDigitLaw(Step, q, ch) { StepNoDigitLaw(q, ch); }
    InSizeIsUnhex(Step, p, ds);
    ChunkSizeExact(p, ds);
    assert InSizeAt(Step, p, ds, |ds|) && ds[..|ds|] == ds;
    forall i | 0 <= i < |ds| ensures IsHex(ds[i]) <==> ds[i] as int < 128 {
      assert Unhex(ds[i]).Some?;
    }
  }

  // ---------------------------------------------------------------- Content-Length

  predicate AtLength(p: Parser) {
    p.state.ValueDiscardWs? && p.hstate.HContentLength? && !p.flags.contentLength
  }

  // The parser after the digits of a Content-Length value.
  function WithLength(p: Parser, n: nat, count: nat): Parser {
    p.(state := Value, hstate := HContentLengthNum, index := 0, flags := p.flags.(contentLength := true),
       contentLength := n, nread := count)
  }

  ghost predicate LengthLaw(step: Stepper, p: Parser, ch: char) {
    IsNum(ch) && p.nread <= MAX_HEADER_SIZE ==>
      && (AtLength(p) ==>
            if p.nread < MAX_HEADER_SIZE
            then step(p, ch) == Go(WithLength(p, DigitValue(ch), p.nread + 1), One(Mark(HeaderValue)))
            else step(p, ch).Fail?)
      && (p.state.Value? && p.hstate.HContentLengthNum? ==>
            if p.nread < MAX_HEADER_SIZE && p.contentLength <= MAX_BEFORE_DEC
            then step(p, ch) == Go(p.(contentLength := p.contentLength * 10 + DigitValue(ch), nread := p.nread + 1),
                                   End)
            else step(p, ch).Fail?)
  }

  lemma StepLengthLaw(p: Parser, ch: char)
    ensures LengthLaw(Step, p, ch)
  {
    if IsNum(ch) && (AtLength(p) || (p.state.Value? && p.hstate.HContentLengthNum?)) && p.nread < MAX_HEADER_SIZE {
      var q := p.(nread := p.nread + 1);
      assert Step(p, ch) == ExecHeaders(q, ch);
    }
  }

  lemma {:induction false} LengthRun(step: Stepper, p: Parser, ds: string)
    requires forall q, ch :: LengthLaw(step, q, ch)
    requires AtLength(p) && p.nread <= MAX_HEADER_SIZE && ds != "" && AllDigits(ds)
    ensures RunWith(step, p, ds) ==
            if Decimal(ds[..|ds| - 1]) <= MAX_BEFORE_DEC && p.nread + |ds| <= MAX_HEADER_SIZE
            then Done(WithLength(p, Decimal(ds), p.nread + |ds|), DataTokens(HeaderValue, ds))
            else Failed
    decreases |ds|
  {
    if |ds| == 1 {
      LengthFirst(step, p, ds);
    } else {
      var init, last := ds[..|ds| - 1], ds[|ds| - 1];
      LengthRun(step, p, init);
      DecMore(ds);
      DataTokensSnoc(HeaderValue, init, last);
      LengthMore(step, p, ds, Decimal(init), RunWith(step, p, init).Done?);
    }
  }

  lemma {:induction false} DecMore(ds: string)
    requires |ds| > 1 && AllDigits(ds)
    ensures var init, last := ds[..|ds| - 1], ds[|ds| - 1];
            ds == init + [last] && AllDigits(init) && IsNum(last) &&
            Decimal(ds) == Decimal(init) * 10 + DigitValue(last) && Decimal(init[..|init| - 1]) <= Decimal(init)
  {
  }

  lemma {:induction false} LengthFirst(step: Stepper, p: Parser, ds: string)
    requires |ds| == 1 && LengthLaw(step, p, ds[0]) && AtLength(p) && p.nread <= MAX_HEADER_SIZE && AllDigits(ds)
    ensures RunWith(step, p, ds) ==
            if p.nread + 1 <= MAX_HEADER_SIZE
            then Done(WithLength(p, Decimal(ds), p.nread + 1), DataTokens(HeaderValue, ds))
            else Failed
    ensures ds[..0] == "" && Decimal(ds[..0]) == 0
  {
    assert ds == [ds[0]] && ds[..0] == "";
    RunOne(step, p, ds[0]);
    assert DataTokens(HeaderValue, ds) == [Data(HeaderValue, ds[0])];
    assert Emit(None, One(Mark(HeaderValue)), ds[0]) == [Data(HeaderValue, ds[0])];
  }

  lemma {:induction false} LengthMore(step: Stepper, p: Parser, ds: string, n: nat, ok: bool)
    requires (forall q, ch :: LengthLaw(step, q, ch)) && |ds| > 1 && IsNum(ds[|ds| - 1])
    requires ok ==> p.nread + |ds| - 1 <= MAX_HEADER_SIZE
    requires var init := ds[..|ds| - 1];
             RunWith(step, p, init) ==
             if ok then Done(WithLength(p, n, p.nread + |init|), DataTokens(HeaderValue, init)) else Failed
    ensures var init, last := ds[..|ds| - 1], ds[|ds| - 1];
            RunWith(step, p, ds) ==
            if ok && n <= MAX_BEFORE_DEC && p.nread + |ds| <= MAX_HEADER_SIZE
            then Done(WithLength(p, n * 10 + DigitValue(last), p.nread + |ds|),
                      DataTokens(HeaderValue, init) + [Data(HeaderValue, last)])
            else Failed
  {
    var init, last := ds[..|ds| - 1], ds[|ds| - 1];
    if ok {
      LengthStep(step, p, n, p.nread + |init|, last);
      OctetMore(step, p, ds, WithLength(p, n, p.nread + |init|), DataTokens(HeaderValue, init));
    } else {
      RunSnoc(step, p, ds);
    }
  }

  // A run that goes on by one octet of the value.
  lemma {:induction false} OctetMore(step: Stepper, p: Parser, ds: string, q: Parser, toks: seq<Token>)
    requires ds != "" && RunWith(step, p, ds[..|ds| - 1]) == Done(q, toks) && Open(q.state) == Some(HeaderValue)
    ensures var last := ds[|ds| - 1];
            match step(q, last)
            case Go(q', End) => RunWith(step, p, ds) == Done(q', toks + [Data(HeaderValue, last)])
            case Fail(_) => RunWith(step, p, ds) == Failed
            case _ => true
  {
    RunSnoc(step, p, ds);
    assert Emit(Some(HeaderValue), End, ds[|ds| - 1]) == [Data(HeaderValue, ds[|ds| - 1])];
  }

  // One digit more.
  lemma {:induction false} LengthStep(step: Stepper, p: Parser, n: nat, count: nat, d: char)
    requires LengthLaw(step, WithLength(p, n, count), d) && IsNum(d) && count <= MAX_HEADER_SIZE
    ensures step(WithLength(p, n, count), d) ==
            if count < MAX_HEADER_SIZE && n <= MAX_BEFORE_DEC
            then Go(WithLength(p, n * 10 + DigitValue(d), count + 1), End)
            else step(WithLength(p, n, count), d)
    ensures !(count < MAX_HEADER_SIZE && n <= MAX_BEFORE_DEC) ==> step(WithLength(p, n, count), d).Fail?
  {
  }

  lemma {:induction false} DataTokensSnoc(e: Element, s: string, c: char)
    ensures DataTokens(e, s + [c]) == DataTokens(e, s) + [Data(e, c)]
  {
    DataTokensConcat(e, s, [c]);
    assert DataTokens(e, [c]) == [Data(e, c)];
  }

  // A Content-Length value is read as the exact value of its digits, or refused before it could wrap.
  lemma {:induction false} ContentLengthExact(p: Parser, ds: string)
    requires AtLength(p) && p.nread <= MAX_HEADER_SIZE && ds != "" && AllDigits(ds)
    ensures Run(p, ds) ==
            if Decimal(ds[..|ds| - 1]) <= MAX_BEFORE_DEC && p.nread + |ds| <= MAX_HEADER_SIZE
            then Done(WithLength(p, Decimal(ds), p.nread + |ds|), DataTokens(HeaderValue, ds))
            else Failed
    ensures Decimal(ds[..|ds| - 1]) <= MAX_BEFORE_DEC ==> Decimal(ds) < ULLONG_MAX
  {
    forall q, ch ensures LengthLaw(Step, q, ch) { StepLengthLaw(q, ch); }
    LengthRun(Step, p, ds);
  }

  // ---------------------------------------------------------------- bodies

  // The end of a message that no upgrade follows.
  function Finished(p: Parser): Parser { p.(state := NewMessage(p)) }

  lemma {:induction false} FinishedRests(p: Parser)
    ensures Finished(p).state == NewMessage(Finished(p))
  {
  }

  // With a length of N exactly the next N octets are body, and the message ends on the last of them.
  lemma {:induction false} LengthDelivers(p: Parser, s: string)
    requires Inv(p) && p.state.BodyIdentity? && !p.upgrade && |s| <= p.contentLength
    ensures Run(p, s) ==
            if |s| < p.contentLength then Done(p.(contentLength := p.contentLength - |s|), DataTokens(Body, s))
            else Done(Finished(p.(contentLength := 0)), DataTokens(Body, s) + [Note(MessageComplete)])
  {
    StepLaws();
    StepBodyLaws();
    AfterEmpty(Run(p, s));
    if |s| < p.contentLength {
      BodyReached(Step, Run(p, s), [], p, s, |s|);
      assert s[..|s|] == s && s[|s|..] == "";
    } else {
      LastOctet(Step, p, s);
    }
  }

  lemma {:induction false} LastOctet(step: Stepper, p: Parser, s: string)
    requires Laws(step) && BodyLaws(step) && Inv(p) && p.state.BodyIdentity? && !p.upgrade && |s| == p.contentLength
    ensures RunWith(step, p, s) ==
            Done(Finished(p.(contentLength := 0)), DataTokens(Body, s) + [Note(MessageComplete)])
  {
    var init, last := s[..|s| - 1], s[|s| - 1];
    var u := p.(contentLength := 1);
    AfterEmpty(RunWith(step, p, s));
    BodyReached(step, RunWith(step, p, s), [], p, s, |s| - 1);
    assert s[|s| - 1..] == [last];
    RunOne(step, u, last);
    assert BodyLaw(step, u, last);
    var q := Finished(p.(contentLength := 0));
    assert step(u, last) == Go(q, Then(Mark(Body), Two(FlushThrough(Body), Notify(MessageComplete))));
    assert Emit(Some(Body), Then(Mark(Body), Two(FlushThrough(Body), Notify(MessageComplete))), last)
        == [Data(Body, last), Note(MessageComplete)];
    assert s == init + [last];
    DataTokensConcat(Body, init, [last]);
    assert DataTokens(Body, [last]) == [Data(Body, last)];
  }

  // ---------------------------------------------------------------- chunked bodies

  // A chunk: its size as it is spelled, an extension, and its data.
  datatype Chunk = Chunk(size: string, ext: string, data: string)

  // Any spelling of the size that the parser takes for digits, leading zeros included, and any extension.
  predicate Spelled(c: Chunk) {
    && c.size != "" && AllUnhex(c.size) && HexValue(c.size) == |c.data| <= ULLONG_MAX - 16
    && (c.ext == "" || ((c.ext[0] == ';' || c.ext[0] == ' ') && '\r' !in c.ext))
    && |c.size| + |c.ext| + 2 <= MAX_HEADER_SIZE
  }

  // A chunk as section 4.1 of RFC 7230 writes it.
  function SizeLine(c: Chunk): string { (c.size + c.ext) + "\r\n" }

  function ChunkText(c: Chunk): string { SizeLine(c) + c.data + "\r\n" }

  function ChunksText(chunks: seq<Chunk>): string {
    if chunks == [] then "" else ChunkText(chunks[0]) + ChunksText(chunks[1..])
  }

  function Concat(chunks: seq<Chunk>): string {
    if chunks == [] then "" else chunks[0].data + Concat(chunks[1..])
  }

  // The plain spelling of a size.
  function HexText(n: nat): string {
    if n < 16 then [HexDigit(n)] else HexText(n / 16) + [HexDigit(n % 16)]
  }

  lemma HexDigitValue(n: nat)
    requires n < 16
    ensures Unhex(HexDigit(n)) == Some(n)
  {
  }

  lemma {:induction false} HexValueSnoc(s: string, c: char)
    requires AllUnhex(s) && Unhex(c).Some?
    ensures AllUnhex(s + [c]) && HexValue(s + [c]) == HexValue(s) * 16 + Unhex(c).value
  {
    assert (s + [c])[..|s|] == s;
  }

  lemma {:induction false} HexTextValue(n: nat)
    ensures AllUnhex(HexText(n)) && HexText(n) != "" && HexValue(HexText(n)) == n
  {
    HexDigitValue(n % 16);
    if n >= 16 {
      HexTextValue(n / 16);
      HexValueSnoc(HexText(n / 16), HexDigit(n % 16));
    } else {
      HexValueSnoc("", HexDigit(n));
      assert "" + [HexDigit(n)] == [HexDigit(n)];
    }
  }

  lemma {:induction false} HexTextLength(n: nat, k: nat, bound: nat)
    requires 1 <= k && n < bound && bound == Pow16(k)
    ensures |HexText(n)| <= k
    decreases k
  {
    if n >= 16 { HexTextLength(n / 16, k - 1, Pow16(k - 1)); }
  }

  function Pow16(k: nat): nat { if k == 0 then 1 else 16 * Pow16(k - 1) }

  // Every payload has a spelling.
  lemma {:induction false} PlainIsSpelled(data: string)
    requires |data| <= ULLONG_MAX - 16
    ensures Spelled(Chunk(HexText(|data|), "", data))
  {
    assert Pow16(16) == 0x1_0000_0000_0000_0000 by {
      assert Pow16(4) == 0x1_0000;
      assert Pow16(8) == 0x1_0000_0000;
      assert Pow16(12) == 0x1_0000_0000_0000;
    }
    HexTextLength(|data|, 16, Pow16(16));
    HexTextValue(|data|);
  }

  // The line ends that frame chunks.
  ghost predicate FrameLaw(step: Stepper, p: Parser, ch: char) {
    p.flags.chunked && p.nread < MAX_HEADER_SIZE ==>
      && ((p.state.ChunkSize? || p.state.ChunkParameters?) && ch == '\r' ==>
            step(p, ch) == Go(p.(state := ChunkSizeAlmostDone, nread := p.nread + 1), End))
      && ((p.state.ChunkSize? && (ch == ';' || ch == ' ')) || (p.state.ChunkParameters? && ch != '\r') ==>
            step(p, ch) == Go(p.(state := ChunkParameters, nread := p.nread + 1), End))
      && (p.state.ChunkSizeAlmostDone? && ch == '\n' ==>
            step(p, ch) == Go(if p.contentLength == 0
                              then p.(state := FieldStart, nread := 0, flags := p.flags.(trailing := true))
                              else p.(state := ChunkData, nread := 0), One(Notify(ChunkHeader))))
      && (p.state.ChunkDataAlmostDone? && p.contentLength == 0 && ch == '\r' ==>
            step(p, ch) == Go(p.(state := ChunkDataDone), One(Flush(Body))))
      && (p.state.ChunkDataDone? && ch == '\n' ==>
            step(p, ch) == Go(p.(state := ChunkSizeStart, nread := 0), One(Notify(ChunkComplete))))
      && (p.state.FieldStart? && ch == '\r' ==>
            step(p, ch) == Go(p.(state := HeadersAlmostDone, nread := p.nread + 1), End))
      && (p.state.HeadersAlmostDone? && p.flags.trailing && !p.upgrade && ch == '\n' ==>
            step(p, ch) == Go(Finished(p.(nread := p.nread + 1)), Two(Notify(ChunkComplete), Notify(MessageComplete))))
  }

  lemma StepFrameLaw(p: Parser, ch: char)
    ensures FrameLaw(Step, p, ch)
  {
    if p.flags.chunked && p.nread < MAX_HEADER_SIZE {
      if p.state.ChunkSize? || p.state.ChunkParameters? || p.state.ChunkSizeAlmostDone? ||
         p.state.ChunkDataAlmostDone? || p.state.ChunkDataDone? {
        if Asserts(Counted(p)) { assert Step(p, ch) == ExecBody(Counted(p), ch); }
      } else if p.state.FieldStart? || p.state.HeadersAlmostDone? {
        assert Step(p, ch) == ExecHeaders(p.(nread := p.nread + 1), ch);
      }
    }
  }

  ghost predicate Frames(step: Stepper) {
    && Laws(step) && BodyLaws(step)
    && (forall p, ch :: FrameLaw(step, p, ch)) && (forall p, ch :: SizeLaw(step, p, ch))
  }

  lemma StepFrames()
    ensures Frames(Step)
  {
    StepLaws();
    StepBodyLaws();
    forall p, ch ensures FrameLaw(Step, p, ch) && SizeLaw(Step, p, ch) {
      StepFrameLaw(p, ch);
      StepSizeLaw(p, ch);
    }
  }

  lemma {:induction false} Chain(step: Stepper, p: Parser, a: string, q: Parser, t: seq<Token>, b: string, r: Parser,
                                 u: seq<Token>)
    requires RunWith(step, p, a) == Done(q, t) && RunWith(step, q, b) == Done(r, u)
    ensures RunWith(step, p, a + b) == Done(r, t + u)
  {
    RunConcat(step, p, a, b);
  }

  // The parser before a chunk, and between the parts of one.
  predicate AtChunk(p: Parser) { Inv(p) && p.state.ChunkSizeStart? && p.flags.chunked && p.nread == 0 }

  function AfterSize(p: Parser, n: nat): Parser {
    if n == 0 then p.(state := FieldStart, contentLength := 0, nread := 0, flags := p.flags.(trailing := true))
    else p.(state := ChunkData, contentLength := n, nread := 0)
  }

  // The octets of an extension are passed over.
  lemma {:induction false} ExtRun(step: Stepper, p: Parser, ext: string)
    requires Frames(step) && p.state.ChunkSize? && p.flags.chunked && p.nread + |ext| <= MAX_HEADER_SIZE
    requires ext == "" || ((ext[0] == ';' || ext[0] == ' ') && '\r' !in ext)
    ensures RunWith(step, p, ext) ==
            Done(p.(state := if ext == "" then ChunkSize else ChunkParameters, nread := p.nread + |ext|), [])
    decreases |ext|
  {
    if ext != "" {
      var init, last := ext[..|ext| - 1], ext[|ext| - 1];
      RunSnoc(step, p, ext);
      ExtRun(step, p, init);
      assert FrameLaw(step, RunWith(step, p, init).p, last);
      assert Emit(None, End, last) == [];
    }
  }

  lemma {:induction false} SizeEndRun(step: Stepper, p: Parser, n: nat)
    requires (p.state.ChunkSize? || p.state.ChunkParameters?) && p.flags.chunked && p.contentLength == n
    requires p.nread + 2 <= MAX_HEADER_SIZE && FrameLaw(step, p, '\r')
    requires FrameLaw(step, p.(state := ChunkSizeAlmostDone, nread := p.nread + 1), '\n')
    ensures RunWith(step, p, "\r\n") == Done(AfterSize(p, n), [Note(ChunkHeader)])
  {
    var q := p.(state := ChunkSizeAlmostDone, nread := p.nread + 1);
    RunOne(step, p, '\r');
    RunOne(step, q, '\n');
    assert Emit(None, One(Notify(ChunkHeader)), '\n') == [Note(ChunkHeader)];
    Chain(step, p, "\r", q, [], "\n", AfterSize(p, n), [Note(ChunkHeader)]);
    assert "\r" + "\n" == "\r\n";
  }

  lemma {:induction false} LeadingFits(ds: string)
    requires ds != "" && AllUnhex(ds) && HexValue(ds) <= ULLONG_MAX - 16
    ensures HexValue(ds[..|ds| - 1]) <= MAX_BEFORE_HEX
  {
  }

  lemma {:induction false} SizeLineRun(step: Stepper, p: Parser, c: Chunk)
    requires Frames(step) && AtChunk(p) && Spelled(c)
    ensures RunWith(step, p, SizeLine(c)) == Done(AfterSize(p, |c.data|), [Note(ChunkHeader)])
  {
    var r := SizeAndExtRun(step, p, c);
    assert FrameLaw(step, r, '\r');
    assert FrameLaw(step, r.(state := ChunkSizeAlmostDone, nread := r.nread + 1), '\n');
    SizeEndRun(step, r, |c.data|);
    Chain(step, p, c.size + c.ext, r, [], "\r\n", AfterSize(p, |c.data|), [Note(ChunkHeader)]);
  }

  lemma {:induction false} SizeAndExtRun(step: Stepper, p: Parser, c: Chunk) returns (r: Parser)
    requires Frames(step) && AtChunk(p) && Spelled(c)
    ensures r == p.(state := if c.ext == "" then ChunkSize else ChunkParameters, contentLength := |c.data|,
                    nread := |c.size| + |c.ext|)
    ensures RunWith(step, p, c.size + c.ext) == Done(r, [])
  {
    LeadingFits(c.size);
    SizeRun(step, p, c.size);
    var q := p.(state := ChunkSize, contentLength := |c.data|, nread := |c.size|);
    ExtRun(step, q, c.ext);
    r := q.(state := if c.ext == "" then ChunkSize else ChunkParameters, nread := |c.size| + |c.ext|);
    Chain(step, p, c.size, q, [], c.ext, r, []);
  }

  lemma {:induction false} ChunkDataRun(step: Stepper, p: Parser, c: string)
    requires Laws(step) && BodyLaws(step) && Inv(p) && p.state.ChunkData? && |c| == p.contentLength
    ensures RunWith(step, p, c) == Done(p.(state := ChunkDataAlmostDone, contentLength := 0), DataTokens(Body, c))
  {
    var init, last := c[..|c| - 1], c[|c| - 1];
    AfterEmpty(RunWith(step, p, c));
    BodyReached(step, RunWith(step, p, c), [], p, c, |c| - 1);
    assert c[|c| - 1..] == [last] && c == init + [last];
    ChunkDataLast(step, p.(contentLength := 1), last);
    DataTokensSnoc(Body, init, last);
  }

  lemma {:induction false} ChunkDataLast(step: Stepper, p: Parser, ch: char)
    requires BodyLaw(step, p, ch) && Inv(p) && p.state.ChunkData? && p.contentLength == 1
    ensures RunWith(step, p, [ch]) == Done(p.(state := ChunkDataAlmostDone, contentLength := 0), [Data(Body, ch)])
  {
    RunOne(step, p, ch);
    assert Emit(Some(Body), One(Mark(Body)), ch) == [Data(Body, ch)];
  }

  lemma {:induction false} ChunkEndRun(step: Stepper, p: Parser)
    requires Frames(step) && p.flags.chunked && p.state.ChunkDataAlmostDone? && p.contentLength == 0 && p.nread == 0
    ensures RunWith(step, p, "\r\n") == Done(p.(state := ChunkSizeStart), [Note(ChunkComplete)])
  {
    var q := p.(state := ChunkDataDone);
    assert FrameLaw(step, p, '\r') && FrameLaw(step, q, '\n');
    RunOne(step, p, '\r');
    RunOne(step, q, '\n');
    assert Emit(Some(Body), One(Flush(Body)), '\r') == [];
    assert Emit(None, One(Notify(ChunkComplete)), '\n') == [Note(ChunkComplete)];
    Chain(step, p, "\r", q, [], "\n", p.(state := ChunkSizeStart), [Note(ChunkComplete)]);
    assert "\r" + "\n" == "\r\n";
  }

  function ChunkTokens(c: Chunk): seq<Token> { [Note(ChunkHeader)] + DataTokens(Body, c.data) + [Note(ChunkComplete)] }

  lemma {:induction false} ChunkRun(step: Stepper, p: Parser, c: Chunk)
    requires Frames(step) && AtChunk(p) && Spelled(c) && c.data != ""
    ensures RunWith(step, p, ChunkText(c)) == Done(p.(contentLength := 0), ChunkTokens(c))
  {
    var q := p.(state := ChunkData, contentLength := |c.data|);
    var r := p.(state := ChunkDataAlmostDone, contentLength := 0);
    SizeLineRun(step, p, c);
    ChunkDataRun(step, q, c.data);
    Chain(step, p, SizeLine(c), q, [Note(ChunkHeader)], c.data, r, DataTokens(Body, c.data));
    ChunkEndRun(step, r);
    Chain(step, p, SizeLine(c) + c.data, r, [Note(ChunkHeader)] + DataTokens(Body, c.data), "\r\n",
          r.(state := ChunkSizeStart), [Note(ChunkComplete)]);
  }

  // The end of a trailer section.
  lemma {:induction false} TrailerEnd(step: Stepper, p: Parser)
    requires Frames(step) && p.flags.chunked && p.flags.trailing && !p.upgrade && p.state.FieldStart?
    requires p.nread + 2 <= MAX_HEADER_SIZE
    ensures RunWith(step, p, "\r\n") ==
            Done(Finished(p.(nread := p.nread + 2)), [Note(ChunkComplete), Note(MessageComplete)])
  {
    var q := p.(state := HeadersAlmostDone, nread := p.nread + 1);
    assert FrameLaw(step, p, '\r') && FrameLaw(step, q, '\n');
    RunOne(step, p, '\r');
    RunOne(step, q, '\n');
    var f, t := Finished(p.(nread := p.nread + 2)), [Note(ChunkComplete), Note(MessageComplete)];
    assert Emit(None, Two(Notify(ChunkComplete), Notify(MessageComplete)), '\n') == t;
    assert f == Finished(q.(nread := q.nread + 1));
    Chain(step, p, "\r", q, [], "\n", f, t);
    assert "\r" + "\n" == "\r\n";
  }

  function ChunksTokens(chunks: seq<Chunk>): seq<Token> {
    if chunks == [] then [] else ChunkTokens(chunks[0]) + ChunksTokens(chunks[1..])
  }

  // Chunks with data.
  predicate Filled(chunks: seq<Chunk>) {
    forall i :: 0 <= i < |chunks| ==> Spelled(chunks[i]) && chunks[i].data != ""
  }

  lemma {:induction false} ChunksRun(step: Stepper, p: Parser, chunks: seq<Chunk>)
    requires Frames(step) && AtChunk(p) && Filled(chunks)
    ensures RunWith(step, p, ChunksText(chunks)) ==
            Done(if chunks == [] then p else p.(contentLength := 0), ChunksTokens(chunks))
    decreases |chunks|
  {
    if chunks != [] {
      var q := p.(contentLength := 0);
      ChunkRun(step, p, chunks[0]);
      ChunksRun(step, q, chunks[1..]);
      Chain(step, p, ChunkText(chunks[0]), q, ChunkTokens(chunks[0]), ChunksText(chunks[1..]), q,
            ChunksTokens(chunks[1..]));
    }
  }

  // The octets delivered as body.
  function BodyOf(toks: seq<Token>): string {
    if toks == [] then ""
    else (if toks[0].Data? && toks[0].e == Body then [toks[0].c] else "") + BodyOf(toks[1..])
  }

  lemma {:induction false} BodyOfConcat(a: seq<Token>, b: seq<Token>)
    ensures BodyOf(a + b) == BodyOf(a) + BodyOf(b)
    decreases |a|
  {
    if a == [] {
      assert a + b == b;
    } else {
      assert (a + b)[1..] == a[1..] + b;
      BodyOfConcat(a[1..], b);
    }
  }

  lemma {:induction false} BodyOfData(s: string)
    ensures BodyOf(DataTokens(Body, s)) == s
    decreases |s|
  {
    if s != "" {
      assert DataTokens(Body, s)[1..] == DataTokens(Body, s[1..]);
      BodyOfData(s[1..]);
    }
  }

  lemma {:induction false} NoteHasNoBody(e: Notice)
    ensures BodyOf([Note(e)]) == ""
  {
    assert [Note(e)][1..] == [];
  }

  // The chunks deliver their data, and do not end the message.
  lemma {:induction false} ChunksBody(chunks: seq<Chunk>)
    ensures BodyOf(ChunksTokens(chunks)) == Concat(chunks) && Note(MessageComplete) !in ChunksTokens(chunks)
    decreases |chunks|
  {
    if chunks != [] {
      BodyOfConcat(ChunkTokens(chunks[0]), ChunksTokens(chunks[1..]));
      ChunkBody(chunks[0]);
      ChunksBody(chunks[1..]);
    }
  }

  lemma {:induction false} ChunkBody(c: Chunk)
    ensures BodyOf(ChunkTokens(c)) == c.data
  {
    BodyOfConcat([Note(ChunkHeader)] + DataTokens(Body, c.data), [Note(ChunkComplete)]);
    BodyOfConcat([Note(ChunkHeader)], DataTokens(Body, c.data));
    BodyOfData(c.data);
    NoteHasNoBody(ChunkHeader);
    NoteHasNoBody(ChunkComplete);
  }
}
