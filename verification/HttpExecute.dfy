/** http_parser_execute over a buffer: marks, bulk scans and callbacks, against the byte machine. */
module HttpExecute {
  import opened Ascii
  import opened Sequences
  import opened HttpMachine
  import opened HttpRun

  datatype Callback = OnData(e: Element, data: string) | OnNotice(n: Notice)

  // The callbacks as one token per octet and notification, so that how data was cut is forgotten.
  function Tokens(log: seq<Callback>): seq<Token> {
    if log == [] then []
    else Tokens(log[..|log| - 1]) + match log[|log| - 1] case OnData(e, s) => DataTokens(e, s)
                                                         case OnNotice(n) => [Note(n)]
  }

  // ---------------------------------------------------------------- marks

  // The five mark pointers. One slot is enough because no second mark is set while one is: `OneAtATime`.
  datatype Slot = Unmarked | Marked(e: Element, at: nat) {
    function Open(): Option<Element> { if Marked? then Some(e) else None }
  }

  // What the mark still owes to the callbacks when the scan stands at `p`.
  function Pending(m: Slot, data: string, p: nat): seq<Token>
    requires p <= |data|
  {
    if m.Marked? && m.at <= p then DataTokens(m.e, data[m.at..p]) else []
  }

  lemma {:induction false} PendingGrows(m: Slot, data: string, p: nat, q: nat)
    requires m.Marked? && m.at <= p <= q <= |data|
    ensures Pending(m, data, q) == Pending(m, data, p) + DataTokens(m.e, data[p..q])
  {
    assert data[m.at..q] == data[m.at..p] + data[p..q];
    DataTokensConcat(m.e, data[m.at..p], data[p..q]);
  }

  // One callback with the marked octets up to `end`.
  function Deliver(log: seq<Callback>, m: Slot, data: string, end: nat): (log': seq<Callback>)
    requires end <= |data|
    ensures Tokens(log') == Tokens(log) + Pending(m, data, end)
  {
    if m.Marked? && m.at <= end then
      var log' := log + [OnData(m.e, data[m.at..end])];
      assert log'[..|log'| - 1] == log;
      log'
    else log
  }

  // No second element is ever marked while one is open, and notifications come between elements.
  predicate OneAtATime(open: Option<Element>, acts: Acts)
    decreases acts
  {
    match acts
    case End => true
    case Then(Mark(e), rest) => (open.None? || open == Some(e)) && OneAtATime(Some(e), rest)
    case Then(Flush(e), rest) => (open.None? || open == Some(e)) && OneAtATime(None, rest)
    case Then(FlushThrough(e), rest) => open == Some(e) && OneAtATime(None, rest)
    case Then(Notify(_), rest) => open.None? && OneAtATime(None, rest)
  }

  // The actions of one octet carried out on the mark and the callbacks.
  function Perform(acts: Acts, m: Slot, log: seq<Callback>, data: string, p: nat): (Slot, seq<Callback>)
    requires p < |data| && OneAtATime(m.Open(), acts)
    decreases acts
  {
    match acts
    case End => (m, log)
    case Then(Mark(e), rest) => Perform(rest, if m.Marked? then m else Marked(e, p), log, data, p)
    case Then(Flush(e), rest) => Perform(rest, Unmarked, Deliver(log, m, data, p), data, p)
    case Then(FlushThrough(e), rest) => Perform(rest, Unmarked, Deliver(log, m, data, p + 1), data, p)
    case Then(Notify(n), rest) => Perform(rest, m, log + [OnNotice(n)], data, p)
  }

  // The element left open by the actions.
  function Left(open: Option<Element>, acts: Acts): Option<Element>
    decreases acts
  {
    match acts
    case End => open
    case Then(Mark(e), rest) => Left(Some(e), rest)
    case Then(Flush(_), rest) => Left(None, rest)
    case Then(FlushThrough(_), rest) => Left(None, rest)
    case Then(Notify(_), rest) => Left(open, rest)
  }

  // All that is told or owed when the scan stands at `p`.
  function Told(log: seq<Callback>, m: Slot, data: string, p: nat): seq<Token>
    requires p <= |data|
  {
    Tokens(log) + Pending(m, data, p)
  }

  lemma {:induction false} ToldGrows(log: seq<Callback>, m: Slot, data: string, p: nat, q: nat)
    requires m.Marked? && m.at <= p <= q <= |data|
    ensures Told(log, m, data, q) == Told(log, m, data, p) + DataTokens(m.e, data[p..q])
  {
    PendingGrows(m, data, p, q);
    Regroup(Tokens(log), Pending(m, data, p), DataTokens(m.e, data[p..q]));
  }

  lemma {:induction false} ToldNotice(log: seq<Callback>, n: Notice, data: string, p: nat)
    requires p <= |data|
    ensures Told(log + [OnNotice(n)], Unmarked, data, p) == Told(log, Unmarked, data, p) + [Note(n)]
  {
    var log1 := log + [OnNotice(n)];
    assert log1[..|log1| - 1] == log;
  }

  // The actions leave the right mark, and what is told grows by exactly the tokens of the octet.
  ghost predicate Performed(acts: Acts, m: Slot, log: seq<Callback>, data: string, p: nat) {
    p < |data| && OneAtATime(m.Open(), acts) &&
    var (m', log') := Perform(acts, m, log, data, p);
    && m'.Open() == Left(m.Open(), acts) && (m'.Marked? ==> m'.at <= p)
    && Told(log', m', data, p + 1) == Told(log, m, data, p) + Emit(m.Open(), acts, data[p])
  }

  // Mark and buffer deliver exactly the tokens of the octet.
  lemma {:induction false} PerformTokens(acts: Acts, m: Slot, log: seq<Callback>, data: string, p: nat)
    requires p < |data| && OneAtATime(m.Open(), acts) && (m.Marked? ==> m.at <= p)
    ensures Performed(acts, m, log, data, p)
    decreases acts
  {
    match acts
    case End => PerformEnd(m, log, data, p);
    case Then(Mark(e), rest) =>
      PerformTokens(rest, if m.Marked? then m else Marked(e, p), log, data, p);
      PerformMark(e, rest, m, log, data, p);
    case Then(Flush(e), rest) =>
      PerformTokens(rest, Unmarked, Deliver(log, m, data, p), data, p);
      PerformFlush(e, rest, m, log, data, p);
    case Then(FlushThrough(e), rest) =>
      PerformTokens(rest, Unmarked, Deliver(log, m, data, p + 1), data, p);
      PerformThrough(e, rest, m, log, data, p);
    case Then(Notify(n), rest) =>
      PerformTokens(rest, m, log + [OnNotice(n)], data, p);
      PerformNotice(n, rest, m, log, data, p);
  }

  lemma {:induction false} PerformEnd(m: Slot, log: seq<Callback>, data: string, p: nat)
    requires p < |data| && (m.Marked? ==> m.at <= p)
    ensures Performed(End, m, log, data, p)
  {
    if m.Marked? {
      ToldGrows(log, m, data, p, p + 1);
      assert DataTokens(m.e, data[p..p + 1]) == [Data(m.e, data[p])];
    }
  }

  lemma {:induction false} PerformMark(e: Element, rest: Acts, m: Slot, log: seq<Callback>, data: string, p: nat)
    requires p < |data| && OneAtATime(m.Open(), Then(Mark(e), rest)) && (m.Marked? ==> m.at <= p)
    requires Performed(rest, if m.Marked? then m else Marked(e, p), log, data, p)
    ensures Performed(Then(Mark(e), rest), m, log, data, p)
  {
    var m1 := if m.Marked? then m else Marked(e, p);
    assert Told(log, m1, data, p) == Told(log, m, data, p);
  }

  lemma {:induction false} PerformFlush(e: Element, rest: Acts, m: Slot, log: seq<Callback>, data: string, p: nat)
    requires p < |data| && OneAtATime(m.Open(), Then(Flush(e), rest)) && (m.Marked? ==> m.at <= p)
    requires Performed(rest, Unmarked, Deliver(log, m, data, p), data, p)
    ensures Performed(Then(Flush(e), rest), m, log, data, p)
  {
    assert Told(Deliver(log, m, data, p), Unmarked, data, p) == Told(log, m, data, p);
  }

  lemma {:induction false} PerformThrough(e: Element, rest: Acts, m: Slot, log: seq<Callback>, data: string, p: nat)
    requires p < |data| && OneAtATime(m.Open(), Then(FlushThrough(e), rest)) && (m.Marked? ==> m.at <= p)
    requires Performed(rest, Unmarked, Deliver(log, m, data, p + 1), data, p)
    ensures Performed(Then(FlushThrough(e), rest), m, log, data, p)
  {
    ThroughTold(m, log, data, p);
    Regroup(Told(log, m, data, p), [Data(e, data[p])], Emit(None, rest, data[p]));
  }

  lemma {:induction false} ThroughTold(m: Slot, log: seq<Callback>, data: string, p: nat)
    requires p < |data| && m.Marked? && m.at <= p
    ensures Told(Deliver(log, m, data, p + 1), Unmarked, data, p) == Told(log, m, data, p) + [Data(m.e, data[p])]
  {
    ToldGrows(log, m, data, p, p + 1);
    assert DataTokens(m.e, data[p..p + 1]) == [Data(m.e, data[p])];
  }

  lemma {:induction false} PerformNotice(n: Notice, rest: Acts, m: Slot, log: seq<Callback>, data: string, p: nat)
    requires p < |data| && OneAtATime(m.Open(), Then(Notify(n), rest))
    requires Performed(rest, m, log + [OnNotice(n)], data, p)
    ensures Performed(Then(Notify(n), rest), m, log, data, p)
  {
    ToldNotice(log, n, data, p);
    Regroup(Told(log, m, data, p), [Note(n)], Emit(m.Open(), rest, data[p]));
  }

  // ---------------------------------------------------------------- marks follow states

  // From a mark that fits state `s`, the outcome leaves the mark that fits the new state.
  predicate Fits(open: Option<Element>, s: State) {
    open == Open(s) || (open.None? && Open(s) == Some(Body))
  }

  predicate Opens(open: Option<Element>, s: State, o: Outcome, ch: char) {
    o.Fail? ||
    (&& OneAtATime(open, o.acts)
     && Emit(open, o.acts, ch) == Emit(Open(s), o.acts, ch)
     && Fits(Left(open, o.acts), o.p.state)
     && (o.Exit? ==> Left(open, o.acts).None?))
  }

  lemma {:induction false} FieldStartOpens(p: Parser, ch: char)
    ensures Opens(None, FieldStart, FieldStartByte(p, ch), ch)
    ensures Opens(None, FieldStart, HeadersAlmostDoneByte(p, ch), ch)
  {
  }

  lemma {:induction false} HeadersOpen(p: Parser, ch: char)
    requires InHeaders(p.state) && !p.state.HeadersDone?
    ensures Opens(Open(p.state), p.state, ExecHeaders(p, ch), ch)
  {
    match p.state {
      case ValueLws => FieldStartOpens(p.(flags := ValueFlags(p.flags, p.hstate)), ch);
      case ValueDiscardLws => FieldStartOpens(p.(flags := ValueFlags(p.flags, p.hstate)), ch);
      case FieldStart => FieldStartOpens(p, ch);
      case HeadersAlmostDone => FieldStartOpens(p, ch);
      case Value =>
      case _ =>
    }
  }

  lemma {:induction false} BodyOpens(open: Option<Element>, p: Parser, ch: char)
    requires InBody(p.state) && Asserts(p) && !p.state.MessageDone? && Fits(open, p.state)
    ensures Opens(open, p.state, ExecBody(p, ch), ch)
  {
  }

  lemma {:induction false} StartOpens(p: Parser, ch: char)
    requires !InHeaders(p.state) && !InBody(p.state)
    requires p.state.ReqUrl? ==> !p.state.u.UrlDead?
    ensures Opens(Open(p.state), p.state, ExecStart(p, ch), ch)
  {
  }

  lemma {:induction false} StepOpens(open: Option<Element>, p: Parser, ch: char)
    requires Inv(p) && Fits(open, p.state)
    ensures Opens(open, p.state, Step(p, ch), ch)
  {
    var q := Counted(p);
    if InBody(p.state) {
      if Asserts(q) { BodyOpens(open, q, ch); }
    } else if InHeaders(p.state) {
      HeadersOpen(q, ch);
    } else {
      StartOpens(q, ch);
    }
  }

  // ---------------------------------------------------------------- bulk scans

  // One octet inside an element, matched without being counted; `None` when it is refused.
  type Octet = (Parser, char) -> Option<Parser>

  function FieldOctet(cur: Parser, ch: char): Option<Parser> {
    if IsToken(ch) then Some(MatchField(cur, ch)) else None
  }

  function ValueOctet(cur: Parser, ch: char): Option<Parser> {
    if !IsHeaderChar(ch) then None
    else match MatchValue(cur, ch) case Go(q, _) => Some(q) case _ => None
  }

  function Fold(oct: Octet, cur: Parser, s: string): Option<Parser> {
    if s == "" then Some(cur)
    else
      var q := Fold(oct, cur, s[..|s| - 1]);
      if q.None? then None else oct(q.value, s[|s| - 1])
  }

  predicate AllTokens(s: string) { forall i :: 0 <= i < |s| ==> IsToken(s[i]) }

  predicate NoBreak(s: string) { forall i :: 0 <= i < |s| ==> s[i] != '\r' && s[i] != '\n' }

  lemma {:induction false} SliceSnoc(data: string, start: nat, p: nat)
    requires start <= p < |data|
    ensures data[start..p + 1] == data[start..p] + [data[p]]
    ensures data[start..p + 1][..p - start] == data[start..p]
  {
  }

  lemma {:induction false} FoldSnoc(oct: Octet, cur: Parser, data: string, start: nat, p: nat)
    requires start <= p < |data|
    ensures var q := Fold(oct, cur, data[start..p]);
            Fold(oct, cur, data[start..p + 1]) == if q.None? then None else oct(q.value, data[p])
  {
    SliceSnoc(data, start, p);
  }

  lemma {:induction false} TokensSnoc(data: string, start: nat, p: nat)
    requires start <= p < |data| && AllTokens(data[start..p]) && IsToken(data[p])
    ensures AllTokens(data[start..p + 1])
  {
    SliceSnoc(data, start, p);
  }

  // s_header_field from `start`: the loop over the name with its h_general fast path.
  method ScanField(data: string, start: nat, cur0: Parser) returns (p: nat, cur: Parser)
    requires start < |data|
    ensures start <= p <= |data| && AllTokens(data[start..p]) && (p < |data| ==> !IsToken(data[p]))
    ensures Some(cur) == Fold(FieldOctet, cur0, data[start..p])
  {
    p, cur := start, cur0;
    while p < |data| && IsToken(data[p])
      invariant start <= p <= |data| && AllTokens(data[start..p])
      invariant Some(cur) == Fold(FieldOctet, cur0, data[start..p])
    {
      if cur.hstate.HGeneral? { p := FastField(data, start, p, cur0, cur); }
      FoldSnoc(FieldOctet, cur0, data, start, p);
      TokensSnoc(data, start, p);
      cur := MatchField(cur, data[p]);
      p := p + 1;
    }
  }

  // The fast path: a run of tokens that change nothing, up to max_header_size of them; it stops on the last.
  method FastField(data: string, ghost start: nat, from: nat, ghost cur0: Parser, cur: Parser) returns (p: nat)
    requires start <= from < |data| && AllTokens(data[start..from]) && IsToken(data[from]) && cur.hstate.HGeneral?
    requires Some(cur) == Fold(FieldOctet, cur0, data[start..from])
    ensures from <= p < |data| && AllTokens(data[start..p]) && IsToken(data[p])
    ensures Some(cur) == Fold(FieldOctet, cur0, data[start..p])
  {
    p := from;
    var left := |data| - p;
    var pe := p + if left < MAX_HEADER_SIZE then left else MAX_HEADER_SIZE;
    while p + 1 < pe && IsToken(data[p + 1])
      invariant from <= p < pe <= |data| && AllTokens(data[start..p]) && IsToken(data[p])
      invariant Some(cur) == Fold(FieldOctet, cur0, data[start..p])
    {
      FoldSnoc(FieldOctet, cur0, data, start, p);
      TokensSnoc(data, start, p);
      assert FieldOctet(cur, data[p]) == Some(cur);
      p := p + 1;
    }
  }

  // The value scan stands at `p`: it has matched everything, or it is past the header limit for certain.
  ghost predicate Scanned(data: string, start: nat, cur0: Parser, p: nat, r: Option<Parser>) {
    start <= p <= |data| &&
    ((NoBreak(data[start..p]) && Fold(ValueOctet, cur0, data[start..p]) == r) || Overran(data, start, p))
  }

  predicate Overran(data: string, start: nat, p: nat) {
    start + MAX_HEADER_SIZE < p <= |data| && NoBreak(data[start..start + MAX_HEADER_SIZE])
  }

  // s_header_value from `start`: the loop over the value with its h_general fast path. The fast path stops
  // after max_header_size octets and then skips one octet unread.
  method ScanValue(data: string, start: nat, cur0: Parser) returns (p: nat, r: Option<Parser>)
    requires start < |data|
    ensures Scanned(data, start, cur0, p, r)
    ensures r.Some? && p < |data| ==> data[p] == '\r' || data[p] == '\n'
    ensures r.Some? ==> r.value.state == cur0.state
  {
    p, r := start, Some(cur0);
    while p < |data| && data[p] != '\r' && data[p] != '\n'
      invariant r.Some? && r.value.state == cur0.state && Scanned(data, start, cur0, p, r)
    {
      SliceSnoc(data, start, p);
      var cur := r.value;
      if IsHeaderChar(data[p]) && cur.hstate.HGeneral? {
        p, r := FastValue(data, start, cur0, p, cur);
      } else {
        r := ValueOctet(cur, data[p]);
        p := p + 1;
      }
      if r.None? { return; }
    }
  }

  // The inner loop of h_general, from an octet that is no line break.
  method FastValue(data: string, ghost start: nat, ghost cur0: Parser, p: nat, cur: Parser)
    returns (next: nat, r: Option<Parser>)
    requires p < |data| && data[p] != '\r' && data[p] != '\n' && cur.hstate.HGeneral?
    requires Scanned(data, start, cur0, p, Some(cur))
    ensures p < next && Scanned(data, start, cur0, next, r) && (r.Some? ==> r.value == cur)
  {
    var left := |data| - p;
    var pe := p + if left < MAX_HEADER_SIZE then left else MAX_HEADER_SIZE;
    next := p;
    while next != pe && data[next] != '\r' && data[next] != '\n'
      invariant p <= next <= pe <= |data|
      invariant next == p ==> next != pe
      invariant Scanned(data, start, cur0, next, Some(cur))
      decreases pe - next
    {
      SliceSnoc(data, start, next);
      if !IsHeaderChar(data[next]) { next := next + 1; r := None; return; }
      assert ValueOctet(cur, data[next]) == Some(cur);
      next := next + 1;
    }
    r := Some(cur);
    if next == pe && pe != |data| {
      if !Overran(data, start, next) {
        assert data[start..next][..MAX_HEADER_SIZE] == data[start..start + MAX_HEADER_SIZE];
      }
      next := next + 1;
    }
  }

  // ---------------------------------------------------------------- scans against the byte machine

  // The whole run, when the scan has produced `toks` and stands in `v` before `rest`.
  // A scan that is past the header limit has already failed, whatever it still does.
  ghost predicate Reached(step: Stepper, whole: Result, toks: seq<Token>, v: Parser, rest: string) {
    if v.nread <= MAX_HEADER_SIZE then Inv(v) && whole == After(toks, RunWith(step, v, rest)) else whole.Failed?
  }

  // What the scans use of the transition, law by law.
  ghost predicate LimitLaw(step: Stepper, v: Parser, ch: char) {
    ParsingHeader(v.state) && v.nread >= MAX_HEADER_SIZE ==> step(v, ch).Fail?
  }

  ghost predicate KeepLaw(step: Stepper, v: Parser, ch: char) {
    Inv(v) ==> Kept(step(v, ch))
  }

  ghost predicate MarkLaw(step: Stepper, open: Option<Element>, v: Parser, ch: char) {
    Inv(v) && Fits(open, v.state) ==> Opens(open, v.state, step(v, ch), ch)
  }

  // In state `s`, before the octets that end the element, a step is `oct` and a count.
  ghost predicate OctetLaw(step: Stepper, oct: Octet, s: State, cur: Parser, n: nat, ch: char) {
    cur.state == s ==>
      && (oct(cur, ch).Some? ==> oct(cur, ch).value.state == s && oct(cur, ch).value.nread == cur.nread)
      && (n < MAX_HEADER_SIZE && Inv(cur.(nread := n)) ==>
            match oct(cur, ch)
            case None => step(cur.(nread := n), ch).Fail?
            case Some(q) => step(cur.(nread := n), ch) == Go(q.(nread := n + 1), End))
  }

  predicate Inside(s: State, ch: char) {
    if s.Field? then IsToken(ch) else ch != '\r' && ch != '\n'
  }

  ghost predicate Laws(step: Stepper) {
    && (forall v, ch :: LimitLaw(step, v, ch))
    && (forall v, ch :: KeepLaw(step, v, ch))
    && (forall open, v, ch :: MarkLaw(step, open, v, ch))
  }

  ghost predicate Scans(step: Stepper, oct: Octet, s: State) {
    ParsingHeader(s) && forall cur, n, ch :: Inside(s, ch) ==> OctetLaw(step, oct, s, cur, n, ch)
  }

  lemma {:induction false} FieldOctetLaw(cur: Parser, n: nat, ch: char)
    requires IsToken(ch)
    ensures OctetLaw(Step, FieldOctet, Field, cur, n, ch)
  {
    if cur.state.Field? && n < MAX_HEADER_SIZE && Inv(cur.(nread := n)) {
      assert Step(cur.(nread := n), ch) == FieldByte(cur.(nread := n + 1), ch);
    }
  }

  lemma {:induction false} ValueOctetLaw(cur: Parser, n: nat, ch: char)
    requires ch != '\r' && ch != '\n'
    ensures OctetLaw(Step, ValueOctet, Value, cur, n, ch)
  {
    if cur.state.Value? && n < MAX_HEADER_SIZE && Inv(cur.(nread := n)) {
      assert Step(cur.(nread := n), ch) == ValueByte(cur.(nread := n + 1), ch);
    }
  }

  lemma {:induction false} StepScans()
    ensures Scans(Step, FieldOctet, Field) && Scans(Step, ValueOctet, Value)
  {
    forall cur: Parser, n: nat, ch: char | Inside(Field, ch) ensures OctetLaw(Step, FieldOctet, Field, cur, n, ch) {
      FieldOctetLaw(cur, n, ch);
    }
    forall cur: Parser, n: nat, ch: char | Inside(Value, ch) ensures OctetLaw(Step, ValueOctet, Value, cur, n, ch) {
      ValueOctetLaw(cur, n, ch);
    }
  }

  lemma {:induction false} StepLaws()
    ensures Laws(Step)
  {
    forall v, ch ensures LimitLaw(Step, v, ch) && KeepLaw(Step, v, ch) {
      if Inv(v) { StepKeepsInv(v, ch); }
    }
    forall open, v, ch ensures MarkLaw(Step, open, v, ch) {
      if Inv(v) && Fits(open, v.state) { StepOpens(open, v, ch); }
    }
  }

  lemma {:induction false} SliceNext(e: Element, toks: seq<Token>, data: string, start: nat, p: nat)
    requires start <= p < |data|
    ensures toks + DataTokens(e, data[start..p + 1]) == toks + DataTokens(e, data[start..p]) + [Data(e, data[p])]
    ensures data[p..][1..] == data[p + 1..] && data[p..][0] == data[p]
  {
    SliceSnoc(data, start, p);
    DataTokensConcat(e, data[start..p], [data[p]]);
    assert DataTokens(e, [data[p]]) == [Data(e, data[p])];
  }

  // One octet that stays inside the element being scanned.
  lemma {:induction false} Advance(step: Stepper, whole: Result, toks: seq<Token>, v: Parser, rest: string, e: Element,
                                   v': Parser)
    requires Laws(step)
    requires rest != "" && Reached(step, whole, toks, v, rest) && Open(v.state) == Some(e) && ParsingHeader(v.state)
    requires v.nread < MAX_HEADER_SIZE ==> step(v, rest[0]) == Go(v', End)
    requires v'.nread == v.nread + 1
    ensures Reached(step, whole, toks + [Data(e, rest[0])], v', rest[1..])
  {
    assert LimitLaw(step, v, rest[0]) && KeepLaw(step, v, rest[0]);
    if v.nread < MAX_HEADER_SIZE {
      AfterAfter(toks, [Data(e, rest[0])], RunWith(step, v', rest[1..]));
    }
  }

  // The byte machine before the octet at `p`, when `n` octets were counted before `start`.
  ghost predicate At(step: Stepper, whole: Result, toks: seq<Token>, cur: Parser, n: nat, data: string, start: nat,
                     p: nat) {
    start <= p <= |data| && Open(cur.state).Some? &&
    Reached(step, whole, toks + DataTokens(Open(cur.state).value, data[start..p]), cur.(nread := n + (p - start)),
            data[p..])
  }

  lemma {:induction false} AtStart(step: Stepper, whole: Result, toks: seq<Token>, cur: Parser, n: nat, data: string,
                                   start: nat)
    requires start <= |data| && Open(cur.state).Some? && Reached(step, whole, toks, cur.(nread := n), data[start..])
    ensures At(step, whole, toks, cur, n, data, start, start)
  {
    assert toks + DataTokens(Open(cur.state).value, data[start..start]) == toks;
  }

  lemma {:induction false} Next(step: Stepper, oct: Octet, whole: Result, toks: seq<Token>, cur: Parser, n: nat,
                                data: string, start: nat, p: nat)
    requires Laws(step) && Scans(step, oct, cur.state)
    requires p < |data| && Inside(cur.state, data[p]) && At(step, whole, toks, cur, n, data, start, p)
    ensures match oct(cur, data[p])
            case None => whole.Failed?
            case Some(q) =>
              q.state == cur.state && q.nread == cur.nread && At(step, whole, toks, q, n, data, start, p + 1)
  {
    var v, e := cur.(nread := n + (p - start)), Open(cur.state).value;
    SliceNext(e, toks, data, start, p);
    assert OctetLaw(step, oct, cur.state, cur, v.nread, data[p]);
    assert LimitLaw(step, v, data[p]);
    var q := oct(cur, data[p]);
    if q.Some? {
      Advance(step, whole, toks + DataTokens(e, data[start..p]), v, data[p..], e, q.value.(nread := v.nread + 1));
    }
  }

  ghost predicate AllInside(s: State, text: string) { forall i :: 0 <= i < |text| ==> Inside(s, text[i]) }

  lemma {:induction false} InsideInit(s: State, data: string, start: nat, p: nat)
    requires start < p <= |data| && AllInside(s, data[start..p])
    ensures AllInside(s, data[start..p - 1]) && Inside(s, data[p - 1])
  {
    var all, init := data[start..p], data[start..p - 1];
    assert all[p - 1 - start] == data[p - 1];
    forall i | 0 <= i < |init| ensures Inside(s, init[i]) { assert init[i] == all[i]; }
  }

  lemma {:induction false} FoldReached(step: Stepper, oct: Octet, whole: Result, toks: seq<Token>, cur: Parser, n: nat,
                                       data: string, start: nat, p: nat)
    requires Laws(step) && Scans(step, oct, cur.state)
    requires start <= p <= |data| && AllInside(cur.state, data[start..p])
    requires At(step, whole, toks, cur, n, data, start, start)
    ensures match Fold(oct, cur, data[start..p])
            case None => whole.Failed?
            case Some(q) => q.state == cur.state && q.nread == cur.nread && At(step, whole, toks, q, n, data, start, p)
    decreases p
  {
    if start < p {
      var r: nat := p - 1;
      InsideInit(cur.state, data, start, p);
      FoldReached(step, oct, whole, toks, cur, n, data, start, r);
      FoldSnoc(oct, cur, data, start, r);
      var q := Fold(oct, cur, data[start..r]);
      if q.Some? { Next(step, oct, whole, toks, q.value, n, data, start, r); }
      assert r + 1 == p;
    }
  }

  // A step that counts past the header limit.
  lemma {:induction false} LimitFails(step: Stepper, whole: Result, toks: seq<Token>, v: Parser, rest: string)
    requires Laws(step) && rest != "" && Reached(step, whole, toks, v, rest)
    requires ParsingHeader(v.state) && v.nread >= MAX_HEADER_SIZE
    ensures whole.Failed?
  {
    assert LimitLaw(step, v, rest[0]);
  }

  // max_header_size octets after a counted one, the run has failed.
  lemma {:induction false} OverranFails(step: Stepper, oct: Octet, whole: Result, toks: seq<Token>, cur: Parser, n: nat,
                                        data: string, start: nat, p: nat)
    requires Laws(step) && Scans(step, oct, cur.state) && cur.state.Value? && Overran(data, start, p)
    requires At(step, whole, toks, cur, n, data, start, start)
    ensures whole.Failed?
  {
    var q := start + MAX_HEADER_SIZE;
    FoldReached(step, oct, whole, toks, cur, n, data, start, q);
    var r := Fold(oct, cur, data[start..q]);
    if r.Some? {
      LimitFails(step, whole, toks + DataTokens(HeaderValue, data[start..q]), r.value.(nread := n + MAX_HEADER_SIZE),
                 data[q..]);
    }
  }

  // ---------------------------------------------------------------- bodies against the byte machine

  // One octet of a body.
  function LastByte(v: Parser): Outcome {
    if v.state.BodyIdentityEof? || v.contentLength == 0 then Go(v, One(Mark(Body)))
    else if v.state.BodyIdentity? then BodyIdentityByte(v)
    else ChunkDataByte(v)
  }

  predicate BodyOctets(s: State) { s.BodyIdentityEof? || s.BodyIdentity? || s.ChunkData? }

  ghost predicate BodyLaw(step: Stepper, v: Parser, ch: char) {
    Inv(v) && BodyOctets(v.state) ==> step(v, ch) == LastByte(v)
  }

  ghost predicate BodyLaws(step: Stepper) { forall v, ch :: BodyLaw(step, v, ch) }

  lemma {:induction false} StepBodyLaws()
    ensures BodyLaws(Step)
  {
    forall v, ch ensures BodyLaw(Step, v, ch) {
      if Inv(v) && BodyOctets(v.state) {
        assert Step(v, ch) == ExecBody(v, ch);
      }
    }
  }

  // The parser `k` octets further into a body that goes on.
  function Skip(v: Parser, k: nat): Parser
    requires v.state.BodyIdentityEof? || k <= v.contentLength
  {
    if v.state.BodyIdentityEof? then v else v.(contentLength := v.contentLength - k)
  }

  predicate Skippable(v: Parser, k: nat) {
    BodyOctets(v.state) && (v.state.BodyIdentityEof? || k < v.contentLength)
  }

  lemma {:induction false} BodyOctet(step: Stepper, whole: Result, toks: seq<Token>, v: Parser, rest: string)
    requires Laws(step) && BodyLaws(step)
    requires rest != "" && Inv(v) && whole == After(toks, RunWith(step, v, rest)) && Skippable(v, 1)
    ensures Inv(Skip(v, 1)) && whole == After(toks + [Data(Body, rest[0])], RunWith(step, Skip(v, 1), rest[1..]))
  {
    var u := Skip(v, 1);
    assert BodyLaw(step, v, rest[0]) && KeepLaw(step, v, rest[0]);
    assert step(v, rest[0]) == Go(u, One(Mark(Body)));
    assert Emit(Some(Body), One(Mark(Body)), rest[0]) == [Data(Body, rest[0])];
    AfterAfter(toks, [Data(Body, rest[0])], RunWith(step, u, rest[1..]));
  }

  // A body of which `k` octets are skipped over, the last one not among them.
  lemma {:induction false} BodyReached(step: Stepper, whole: Result, toks: seq<Token>, v: Parser, rest: string, k: nat)
    requires Laws(step) && BodyLaws(step)
    requires k <= |rest| && Inv(v) && whole == After(toks, RunWith(step, v, rest)) && Skippable(v, k)
    ensures Inv(Skip(v, k)) && whole == After(toks + DataTokens(Body, rest[..k]), RunWith(step, Skip(v, k), rest[k..]))
    decreases k
  {
    if k == 0 {
      assert toks + DataTokens(Body, rest[..0]) == toks;
      assert rest[0..] == rest;
    } else {
      BodyReached(step, whole, toks, v, rest, k - 1);
      BodyOctet(step, whole, toks + DataTokens(Body, rest[..k - 1]), Skip(v, k - 1), rest[k - 1..]);
      BodyNext(toks, v, rest, k);
    }
  }

  lemma {:induction false} BodyNext(toks: seq<Token>, v: Parser, rest: string, k: nat)
    requires 0 < k <= |rest| && Skippable(v, k)
    ensures Skip(Skip(v, k - 1), 1) == Skip(v, k) && rest[k - 1..][1..] == rest[k..]
    ensures toks + DataTokens(Body, rest[..k]) ==
            toks + DataTokens(Body, rest[..k - 1]) + [Data(Body, rest[k - 1..][0])]
  {
    SliceNext(Body, toks, rest, 0, k - 1);
    assert rest[0..k] == rest[..k] && rest[0..k - 1] == rest[..k - 1];
  }

  // ---------------------------------------------------------------- the loop

  // Between two rounds: the callbacks so far and the mark account for the run so far.
  ghost predicate Synced(step: Stepper, whole: Result, base: seq<Token>, toks: seq<Token>, cur: Parser, m: Slot,
                         log: seq<Callback>, data: string, p: nat)
  {
    && p <= |data| && Inv(cur) && whole == After(toks, RunWith(step, cur, data[p..]))
    && Fits(m.Open(), cur.state) && (m.Marked? ==> m.at <= p)
    && Told(log, m, data, p) == base + toks
  }

  datatype Status = Continue | Return | Error(e: Errno)

  // One round has gone on, left early after an upgrade, or met an error.
  ghost predicate Settled(step: Stepper, whole: Result, base: seq<Token>, toks: seq<Token>, cur: Parser, m: Slot,
                          log: seq<Callback>, data: string, p: nat, status: Status)
  {
    p <= |data| &&
    match status
    case Continue => Synced(step, whole, base, toks, cur, m, log, data, p)
    case Return => Inv(cur) && whole == Exited(cur, toks, data[p..]) && Tokens(log) == base + toks
    case Error(_) => whole.Failed?
  }

  // Acting on the outcome of the octet at `p`.
  method Act(ghost step: Stepper, ghost whole: Result, ghost base: seq<Token>, ghost toks: seq<Token>, ghost v: Parser,
             m: Slot, log: seq<Callback>, data: string, p: nat, o: Outcome)
    returns (cur': Parser, m': Slot, log': seq<Callback>, status: Status, ghost toks': seq<Token>)
    requires p < |data| && Synced(step, whole, base, toks, v, m, log, data, p) && o == step(v, data[p])
    requires KeepLaw(step, v, data[p]) && MarkLaw(step, m.Open(), v, data[p])
    ensures Settled(step, whole, base, toks', cur', m', log', data, p + 1, status)
  {
    assert data[p..][0] == data[p] && data[p..][1..] == data[p + 1..];
    if o.Fail? {
      cur', m', log', status, toks' := InitParser(Request), m, log, Error(o.errno), toks;
    } else {
      PerformTokens(o.acts, m, log, data, p);
      ghost var t := Emit(m.Open(), o.acts, data[p]);
      toks' := toks + t;
      var done := Perform(o.acts, m, log, data, p);
      cur', m', log', status := o.p, done.0, done.1, if o.Go? then Continue else Return;
      Regroup(base, toks, t);
      if o.Go? {
        AfterAfter(toks, t, RunWith(step, o.p, data[p + 1..]));
      }
    }
  }

  // nread is a 32-bit counter.
  function U32(n: nat): (r: nat)
    ensures n < 0x1_0000_0000 ==> r == n
  {
    n % 0x1_0000_0000
  }

  const MAX_BUFFER: nat := 0xffff_ffff - MAX_HEADER_SIZE

  // After a scan of one element to `q`, with the count brought up to date.
  lemma {:induction false} ScanSynced(step: Stepper, whole: Result, base: seq<Token>, toks: seq<Token>, cur: Parser,
                                      n: nat, m: Slot, log: seq<Callback>, data: string, p: nat, q: nat)
    requires At(step, whole, toks, cur, n, data, p, q)
    requires m.Open() == Open(cur.state) && m.at <= p && Told(log, m, data, p) == base + toks
    requires n + (q - p) <= MAX_HEADER_SIZE
    ensures Synced(step, whole, base, toks + DataTokens(m.e, data[p..q]), cur.(nread := n + (q - p)), m, log, data, q)
  {
    GrownTold(base, toks, m, log, data, p, q);
  }

  // The octet that ends a scan, already counted.
  function EndByte(cur: Parser, ch: char): Outcome {
    if cur.state.Field? then FieldByte(cur, ch) else ValueByte(cur, ch)
  }

  ghost predicate EndLaw(step: Stepper, cur: Parser, n: nat, ch: char) {
    (cur.state.Field? || cur.state.Value?) && n < MAX_HEADER_SIZE && Inv(cur.(nread := n)) ==>
      step(cur.(nread := n), ch) == EndByte(cur.(nread := n + 1), ch)
  }

  ghost predicate Ends(step: Stepper) { forall cur, n, ch :: EndLaw(step, cur, n, ch) }

  lemma {:induction false} StepEnds()
    ensures Ends(Step)
  {
    forall cur: Parser, n: nat, ch: char ensures EndLaw(Step, cur, n, ch) {
      StepEndLaw(cur, n, ch);
    }
  }

  lemma {:induction false} StepEndLaw(cur: Parser, n: nat, ch: char)
    ensures EndLaw(Step, cur, n, ch)
  {
    if (cur.state.Field? || cur.state.Value?) && n < MAX_HEADER_SIZE && Inv(cur.(nread := n)) {
      assert Step(cur.(nread := n), ch) == ExecHeaders(cur.(nread := n + 1), ch);
    }
  }

  // The end of a scan at `q`: the count, and the octet that stopped it if there is one.
  method Resume(ghost step: Stepper, ghost whole: Result, ghost base: seq<Token>, ghost toks: seq<Token>, n: nat,
                cur: Parser, m: Slot, log: seq<Callback>, data: string, p: nat, q: nat)
    returns (cur': Parser, m': Slot, log': seq<Callback>, status: Status, ghost toks': seq<Token>)
    requires p < |data| <= MAX_BUFFER && Laws(step) && Ends(step) && p <= q <= |data| && n < MAX_HEADER_SIZE
    requires At(step, whole, toks, cur, n, data, p, q) || (whole.Failed? && q - p > MAX_HEADER_SIZE)
    requires m.Open() == Open(cur.state) && m.Marked? && m.at <= p && Told(log, m, data, p) == base + toks
    requires cur.state.Field? || cur.state.Value?
    ensures Settled(step, whole, base, toks', cur', m', log', data, if q == |data| then q else q + 1, status)
  {
    var count := U32(n + 1 + (if q == |data| then q - 1 else q) - p);
    assert count == if q == |data| then n + (q - p) else n + 1 + (q - p);
    cur', m', log', toks' := cur.(nread := count), m, log, toks + DataTokens(m.e, data[p..q]);
    ghost var u := cur.(nread := n + (q - p));
    if count > MAX_HEADER_SIZE {
      if q < |data| && u.nread == MAX_HEADER_SIZE {
        LimitFails(step, whole, toks', u, data[q..]);
      }
      status := Error(HeaderOverflow);
    } else {
      ScanSynced(step, whole, base, toks, cur, n, m, log, data, p, q);
      status := Continue;
      if q < |data| {
        assert EndLaw(step, cur, n + (q - p), data[q]);
        cur', m', log', status, toks' := Act(step, whole, base, toks', u, m, log, data, q, EndByte(cur', data[q]));
      }
    }
  }

  method FieldRound(ghost whole: Result, ghost base: seq<Token>, ghost toks: seq<Token>, v: Parser,
                    m: Slot, log: seq<Callback>, data: string, p: nat, ghost step: Stepper)
    returns (cur': Parser, m': Slot, log': seq<Callback>, p': nat, status: Status, ghost toks': seq<Token>)
    requires p < |data| <= MAX_BUFFER && Synced(step, whole, base, toks, v, m, log, data, p)
    requires v.state.Field? && v.nread < MAX_HEADER_SIZE
    requires Laws(step) && Scans(step, FieldOctet, Field) && Ends(step)
    ensures p < p' && Settled(step, whole, base, toks', cur', m', log', data, p', status)
  {
    var v1 := v.(nread := v.nread + 1);
    var q, cur := ScanField(data, p, v1);
    AtStart(step, whole, toks, v1, v.nread, data, p);
    FoldReached(step, FieldOctet, whole, toks, v1, v.nread, data, p, q);
    cur', m', log', status, toks' := Resume(step, whole, base, toks, v.nread, cur, m, log, data, p, q);
    p' := if q == |data| then q else q + 1;
  }

  method ValueRound(ghost whole: Result, ghost base: seq<Token>, ghost toks: seq<Token>, v: Parser,
                    m: Slot, log: seq<Callback>, data: string, p: nat, ghost step: Stepper)
    returns (cur': Parser, m': Slot, log': seq<Callback>, p': nat, status: Status, ghost toks': seq<Token>)
    requires p < |data| <= MAX_BUFFER && Synced(step, whole, base, toks, v, m, log, data, p)
    requires v.state.Value? && v.nread < MAX_HEADER_SIZE
    requires Laws(step) && Scans(step, ValueOctet, Value) && Ends(step)
    ensures p < p' && Settled(step, whole, base, toks', cur', m', log', data, p', status)
  {
    var v1 := v.(nread := v.nread + 1);
    var q, r := ScanValue(data, p, v1);
    p' := if q == |data| then q else q + 1;
    AtStart(step, whole, toks, v1, v.nread, data, p);
    if Overran(data, p, q) {
      OverranFails(step, ValueOctet, whole, toks, v1, v.nread, data, p, q);
    } else {
      FoldReached(step, ValueOctet, whole, toks, v1, v.nread, data, p, q);
    }
    if r.None? {
      var errno := if q > 0 && IsHeaderChar(data[q - 1]) then InvalidContentLength else InvalidHeaderToken;
      cur', m', log', toks', status := v, m, log, toks, Error(errno);
    } else {
      cur', m', log', status, toks' := Resume(step, whole, base, toks, v.nread, r.value, m, log, data, p, q);
    }
  }

  // The body states: as many octets as the buffer and the length allow, the last one with its actions.
  method BodyRound(ghost whole: Result, ghost base: seq<Token>, ghost toks: seq<Token>, v: Parser,
                   m: Slot, log: seq<Callback>, data: string, p: nat)
    returns (cur': Parser, m': Slot, log': seq<Callback>, p': nat, status: Status, ghost toks': seq<Token>)
    requires p < |data| && Synced(Step, whole, base, toks, v, m, log, data, p) && BodyOctets(v.state)
    ensures p < p' && Settled(Step, whole, base, toks', cur', m', log', data, p', status)
  {
    BodyIsNotEmpty(v);
    BodyGoes(whole, base, toks, v, m, log, data, p);
    cur', m', log', p', status, toks' := BodyAdvance(whole, base, toks, v, m, log, data, p, Step);
  }

  // Where the octets before `q` are passed over, the run is in step there, and `q` gets its actions.
  ghost predicate Passes(step: Stepper, whole: Result, base: seq<Token>, toks: seq<Token>, v: Parser, m: Slot,
                         log: seq<Callback>, data: string, p: nat, q: nat)
    requires p <= q < |data| && (v.state.BodyIdentityEof? || q - p < v.contentLength)
  {
    var u, m1 := Skip(v, q - p), Opened(m, p);
    && Synced(step, whole, base, toks + DataTokens(Body, data[p..q]), u, m1, log, data, q)
    && LastByte(u) == step(u, data[q]) && KeepLaw(step, u, data[q]) && MarkLaw(step, m1.Open(), u, data[q])
  }

  ghost predicate PassesAll(step: Stepper, whole: Result, base: seq<Token>, toks: seq<Token>, v: Parser, m: Slot,
                            log: seq<Callback>, data: string, p: nat)
  {
    forall q :: p <= q < |data| && (v.state.BodyIdentityEof? || q - p < v.contentLength) ==>
      Passes(step, whole, base, toks, v, m, log, data, p, q)
  }

  // The mark of the body, set at `p` where it was not.
  function Opened(m: Slot, p: nat): Slot { if m.Marked? then m else Marked(Body, p) }

  lemma {:induction false} BodyGoes(whole: Result, base: seq<Token>, toks: seq<Token>, v: Parser, m: Slot,
                                    log: seq<Callback>, data: string, p: nat)
    requires p < |data| && Synced(Step, whole, base, toks, v, m, log, data, p) && BodyOctets(v.state)
    ensures PassesAll(Step, whole, base, toks, v, m, log, data, p)
  {
    StepLaws();
    StepBodyLaws();
    forall q | p <= q < |data| && (v.state.BodyIdentityEof? || q - p < v.contentLength)
      ensures Passes(Step, whole, base, toks, v, m, log, data, p, q) {
      BodySkips(Step, whole, base, toks, v, m, log, data, p, q);
    }
  }

  // The last octet of the body in this buffer: as many as the buffer and the length allow.
  method BodyExtent(v: Parser, data: string, p: nat) returns (q: nat)
    requires p < |data| && (v.state.BodyIdentityEof? || v.contentLength > 0)
    ensures p <= q < |data| && (v.state.BodyIdentityEof? || q - p < v.contentLength)
    ensures q == |data| - 1 || (!v.state.BodyIdentityEof? && q - p == v.contentLength - 1)
  {
    var left := |data| - p;
    var toRead := if v.state.BodyIdentityEof? || left < v.contentLength then left else v.contentLength;
    q := p + toRead - 1;
  }

  method BodyAdvance(ghost whole: Result, ghost base: seq<Token>, ghost toks: seq<Token>, v: Parser,
                     m: Slot, log: seq<Callback>, data: string, p: nat, ghost step: Stepper)
    returns (cur': Parser, m': Slot, log': seq<Callback>, p': nat, status: Status, ghost toks': seq<Token>)
    requires p < |data| && BodyOctets(v.state) && (v.state.BodyIdentityEof? || v.contentLength > 0)
    requires PassesAll(step, whole, base, toks, v, m, log, data, p)
    ensures p < p' && Settled(step, whole, base, toks', cur', m', log', data, p', status)
  {
    var q := BodyExtent(v, data, p);
    assert Passes(step, whole, base, toks, v, m, log, data, p, q);
    var u := Skip(v, q - p);
    ghost var toks1 := toks + DataTokens(Body, data[p..q]);
    cur', m', log', status, toks' := Act(step, whole, base, toks1, u, Opened(m, p), log, data, q, LastByte(u));
    p' := q + 1;
  }

  lemma {:induction false} BodyIsNotEmpty(v: Parser)
    requires Inv(v) && BodyOctets(v.state)
    ensures v.state.BodyIdentityEof? || v.contentLength > 0
  {
  }

  lemma {:induction false} BodySkips(step: Stepper, whole: Result, base: seq<Token>, toks: seq<Token>, v: Parser,
                                     m: Slot, log: seq<Callback>, data: string, p: nat, q: nat)
    requires p <= q < |data| && Synced(step, whole, base, toks, v, m, log, data, p) && BodyOctets(v.state)
    requires (v.state.BodyIdentityEof? || q - p < v.contentLength) && Laws(step) && BodyLaws(step)
    ensures Passes(step, whole, base, toks, v, m, log, data, p, q)
  {
    var u, m1 := Skip(v, q - p), Opened(m, p);
    BodySynced(step, whole, base, toks, v, u, m, m1, log, data, p, q);
    assert BodyLaw(step, u, data[q]) && KeepLaw(step, u, data[q]) && MarkLaw(step, m1.Open(), u, data[q]);
  }

  lemma {:induction false} BodyAt(step: Stepper, whole: Result, toks: seq<Token>, v: Parser, data: string, p: nat,
                                  q: nat)
    requires p <= q <= |data| && Inv(v) && whole == After(toks, RunWith(step, v, data[p..])) && Skippable(v, q - p)
    requires Laws(step) && BodyLaws(step)
    ensures Inv(Skip(v, q - p)) && Open(Skip(v, q - p).state) == Some(Body)
    ensures whole == After(toks + DataTokens(Body, data[p..q]), RunWith(step, Skip(v, q - p), data[q..]))
  {
    BodyReached(step, whole, toks, v, data[p..], q - p);
    assert data[p..][..q - p] == data[p..q];
    assert data[p..][q - p..] == data[q..];
  }

  lemma {:induction false} BodySynced(step: Stepper, whole: Result, base: seq<Token>, toks: seq<Token>, v: Parser,
                                      u: Parser, m: Slot, m1: Slot, log: seq<Callback>, data: string, p: nat, q: nat)
    requires p <= q <= |data| && Synced(step, whole, base, toks, v, m, log, data, p) && Skippable(v, q - p)
    requires u == Skip(v, q - p)
    requires Laws(step) && BodyLaws(step) && m1 == Opened(m, p)
    ensures Synced(step, whole, base, toks + DataTokens(Body, data[p..q]), u, m1, log, data, q)
  {
    BodyAt(step, whole, toks, v, data, p, q);
    Remark(log, m, m1, data, p);
    GrownTold(base, toks, m1, log, data, p, q);
  }

  lemma {:induction false} Remark(log: seq<Callback>, m: Slot, m1: Slot, data: string, p: nat)
    requires p <= |data| && (m1 == m || (m.Unmarked? && m1 == Marked(Body, p)))
    ensures Told(log, m1, data, p) == Told(log, m, data, p)
  {
    if m1 != m {
      assert data[p..p] == "";
      assert Pending(m1, data, p) == [];
    }
  }

  lemma {:induction false} GrownTold(base: seq<Token>, toks: seq<Token>, m: Slot, log: seq<Callback>, data: string,
                                     p: nat, q: nat)
    requires p <= q <= |data| && Told(log, m, data, p) == base + toks
    requires m.Marked? && m.at <= p
    ensures Told(log, m, data, q) == base + (toks + DataTokens(m.e, data[p..q]))
  {
    ToldGrows(log, m, data, p, q);
    Regroup(base, toks, DataTokens(m.e, data[p..q]));
  }

  // One turn of the loop over the buffer.
  method Round(ghost whole: Result, ghost base: seq<Token>, ghost toks: seq<Token>, v: Parser,
               m: Slot, log: seq<Callback>, data: string, p: nat)
    returns (cur': Parser, m': Slot, log': seq<Callback>, p': nat, status: Status, ghost toks': seq<Token>)
    requires p < |data| <= MAX_BUFFER && Synced(Step, whole, base, toks, v, m, log, data, p)
    ensures p < p' && Settled(Step, whole, base, toks', cur', m', log', data, p', status)
  {
    StepLaws();
    if ParsingHeader(v.state) && v.nread + 1 > MAX_HEADER_SIZE {
      LimitFails(Step, whole, toks, v, data[p..]);
      cur', m', log', p', status, toks' := v, m, log, p + 1, Error(HeaderOverflow), toks;
    } else if v.state.Field? {
      StepScans(); StepEnds();
      cur', m', log', p', status, toks' := FieldRound(whole, base, toks, v, m, log, data, p, Step);
    } else if v.state.Value? {
      StepScans(); StepEnds();
      cur', m', log', p', status, toks' := ValueRound(whole, base, toks, v, m, log, data, p, Step);
    } else if BodyOctets(v.state) {
      cur', m', log', p', status, toks' := BodyRound(whole, base, toks, v, m, log, data, p);
    } else {
      cur', m', log', status, toks' := Act(Step, whole, base, toks, v, m, log, data, p, Exec(Counted(v), data[p]));
      p' := p + 1;
    }
  }
}
