/** What the letter-by-letter method table accepts. */
module HttpMethodTable {
  import opened Ascii
  import opened UrlMachine
  import opened HttpMethod
  import opened HttpMachine
  import opened HttpRun
  import opened HttpFraming

  // The method guessed after the octets `s`, or `None` when one of them was refused.
  function Guess(s: string): Option<Method>
    requires s != ""
  {
    if |s| == 1 then FirstMethod(s[0])
    else
      var m := Guess(s[..|s| - 1]);
      if m.None? then None else NextMethod(m.value, |s| - 1, s[|s| - 1])
  }

  // The method taken at a space: the guess, when the guess is spelled out.
  function Accept(s: string): Option<Method> {
    if s == "" then None
    else
      var m := Guess(s);
      if m.Some? && CharAt(MethodString(m.value), |s|) == '\0' then m else None
  }

  // The octets `s` are the first letters of the method.
  predicate Spells(m: Method, s: string) {
    |s| <= |MethodString(m)| && forall i :: 0 <= i < |s| ==> CharAt(MethodString(m), i) == s[i]
  }

  // A row of the table agrees with both methods before its position, and with the new one there.
  predicate RowAgrees(m: Method, pos: nat, ch: char, i: nat) {
    match Switch(m, pos, ch)
    case None => true
    case Some(n) =>
      CharAt(MethodString(n), i) == (if i < pos then CharAt(MethodString(m), i) else ch) && ch != '\0' &&
      pos < |MethodString(n)|
  }

  lemma PostRows(m: Method, pos: nat, ch: char, i: nat)
    requires m.POST? || m.PUT? || m.PROPFIND?
    requires Switch(m, pos, ch).Some? && i <= pos
    ensures RowAgrees(m, pos, ch, i)
  {
  }

  lemma ConnectRows(m: Method, pos: nat, ch: char, i: nat)
    requires m.CONNECT? || m.SUBSCRIBE?
    requires Switch(m, pos, ch).Some? && i <= pos
    ensures RowAgrees(m, pos, ch, i)
  {
  }

  lemma MkcolRows(m: Method, pos: nat, ch: char, i: nat)
    requires m.MKCOL?
    requires Switch(m, pos, ch).Some? && i <= pos
    ensures RowAgrees(m, pos, ch, i)
  {
  }

  lemma LockRows(m: Method, pos: nat, ch: char, i: nat)
    requires m.REPORT? || m.LOCK? || m.UNLOCK?
    requires Switch(m, pos, ch).Some? && i <= pos
    ensures RowAgrees(m, pos, ch, i)
  {
  }

  lemma RowsAgree(m: Method, pos: nat, ch: char, i: nat)
    requires i <= pos
    ensures RowAgrees(m, pos, ch, i)
  {
    if Switch(m, pos, ch).Some? {
      if m.POST? || m.PUT? || m.PROPFIND? { PostRows(m, pos, ch, i); }
      else if m.CONNECT? || m.SUBSCRIBE? { ConnectRows(m, pos, ch, i); }
      else if m.MKCOL? { MkcolRows(m, pos, ch, i); }
      else { LockRows(m, pos, ch, i); }
    }
  }

  lemma FirstSpells(ch: char)
    requires FirstMethod(ch).Some?
    ensures Spells(FirstMethod(ch).value, [ch])
  {
  }

  // One more accepted octet keeps the spelling.
  lemma {:induction false} NextSpells(m: Method, s: string, ch: char)
    requires Spells(m, s) && NextMethod(m, |s|, ch).Some?
    ensures Spells(NextMethod(m, |s|, ch).value, s + [ch])
  {
    var n := NextMethod(m, |s|, ch).value;
    RowsAgree(m, |s|, ch, |s|);
    forall i | 0 <= i < |s + [ch]| ensures CharAt(MethodString(n), i) == (s + [ch])[i] {
      if i < |s| { RowsAgree(m, |s|, ch, i); }
    }
  }

  // After each accepted octet the octets so far are the first letters of the guessed method.
  lemma {:induction false} GuessSpells(s: string)
    requires s != "" && Guess(s).Some?
    ensures Spells(Guess(s).value, s)
    decreases |s|
  {
    if |s| == 1 {
      FirstSpells(s[0]);
      assert s == [s[0]];
    } else {
      var init, last := s[..|s| - 1], s[|s| - 1];
      GuessSpells(init);
      NextSpells(Guess(init).value, init, last);
      assert s == init + [last];
    }
  }

  lemma NoNul(m: Method, i: nat)
    ensures i < |MethodString(m)| ==> CharAt(MethodString(m), i) != '\0'
  {
  }

  // The table row that leads to a method, for those whose first letter guesses another one.
  function Origin(m: Method): Option<(Method, nat)> {
    match m
    case PUT => Some((POST, 1))
    case PATCH => Some((POST, 1))
    case PROPFIND => Some((POST, 1))
    case PURGE => Some((PUT, 2))
    case CHECKOUT => Some((CONNECT, 1))
    case COPY => Some((CONNECT, 2))
    case MOVE => Some((MKCOL, 1))
    case MERGE => Some((MKCOL, 1))
    case MSEARCH => Some((MKCOL, 1))
    case MKACTIVITY => Some((MKCOL, 2))
    case MKCALENDAR => Some((MKCOL, 3))
    case SEARCH => Some((SUBSCRIBE, 1))
    case SOURCE => Some((SUBSCRIBE, 1))
    case REBIND => Some((REPORT, 2))
    case PROPPATCH => Some((PROPFIND, 4))
    case LINK => Some((LOCK, 1))
    case UNSUBSCRIBE => Some((UNLOCK, 2))
    case UNBIND => Some((UNLOCK, 2))
    case UNLINK => Some((UNLOCK, 3))
    case _ => None
  }

  predicate OriginHolds(m: Method) {
    match Origin(m)
    case None => FirstMethod(CharAt(MethodString(m), 0)) == Some(m) && |MethodString(m)| >= 1
    case Some((a, pos)) =>
      var ch := CharAt(MethodString(m), pos);
      Switch(a, pos, ch) == Some(m) && CharAt(MethodString(a), pos) != ch && ('A' <= ch <= 'Z' || ch == '-')
  }

  lemma FirstOrigins(m: Method)
    requires Origin(m).None?
    ensures OriginHolds(m)
  {
  }

  lemma PostOrigins(m: Method)
    requires Origin(m).Some? && (m.PUT? || m.PATCH? || m.PROPFIND? || m.PURGE? || m.PROPPATCH?)
    ensures OriginHolds(m)
  {
  }

  lemma ConnectOrigins(m: Method)
    requires Origin(m).Some? && (m.CHECKOUT? || m.COPY? || m.SEARCH? || m.SOURCE? || m.REBIND?)
    ensures OriginHolds(m)
  {
  }

  lemma MkcolOrigins(m: Method)
    requires Origin(m).Some? && (m.MOVE? || m.MERGE? || m.MSEARCH? || m.MKACTIVITY? || m.MKCALENDAR?)
    ensures OriginHolds(m)
  {
  }

  lemma LockOrigins(m: Method)
    requires Origin(m).Some? && (m.LINK? || m.UNSUBSCRIBE? || m.UNBIND? || m.UNLINK?)
    ensures OriginHolds(m)
  {
  }

  lemma Origins(m: Method)
    ensures OriginHolds(m)
  {
    if Origin(m).None? { FirstOrigins(m); }
    else if m.PUT? || m.PATCH? || m.PROPFIND? || m.PURGE? || m.PROPPATCH? { PostOrigins(m); }
    else if m.CHECKOUT? || m.COPY? || m.SEARCH? || m.SOURCE? || m.REBIND? { ConnectOrigins(m); }
    else if m.MOVE? || m.MERGE? || m.MSEARCH? || m.MKACTIVITY? || m.MKCALENDAR? { MkcolOrigins(m); }
    else { LockOrigins(m); }
  }

  // The letters of a method after which it is the guess.
  function SettledAt(m: Method): nat { match Origin(m) case None => 1 case Some((_, pos)) => pos + 1 }

  // Once guessed, a method stays the guess to its end.
  lemma {:induction false} Stays(m: Method, k: nat, n: nat)
    requires 1 <= k <= n <= |MethodString(m)| && Guess(MethodString(m)[..k]) == Some(m)
    ensures Guess(MethodString(m)[..n]) == Some(m)
    decreases n
  {
    if k < n {
      Stays(m, k, n - 1);
      var s := MethodString(m)[..n];
      assert s[..n - 1] == MethodString(m)[..n - 1];
      NoNul(m, n - 1);
    }
  }

  lemma {:induction false} Settles(m: Method, depth: nat)
    requires depth == (match Origin(m) case None => 0 case Some((a, _)) => if Origin(a).None? then 1 else 2)
    ensures SettledAt(m) <= |MethodString(m)| && Guess(MethodString(m)[..SettledAt(m)]) == Some(m)
    decreases depth
  {
    Origins(m);
    var t := MethodString(m);
    match Origin(m)
    case None => assert t[..1] == [CharAt(t, 0)];
    case Some((a, pos)) =>
      var ch := CharAt(t, pos);
      Settles(a, depth - 1);
      RowsAgree(a, pos, ch, pos);
      var u := MethodString(a);
      AgreeingPrefix(a, m, pos, ch);
      Stays(a, SettledAt(a), pos);
      var s := t[..pos + 1];
      assert s[..pos] == u[..pos] && s[pos] == ch;
  }

  lemma {:induction false} AgreeingPrefix(a: Method, m: Method, pos: nat, ch: char)
    requires Switch(a, pos, ch) == Some(m)
    ensures pos < |MethodString(m)| && pos <= |MethodString(a)| && MethodString(a)[..pos] == MethodString(m)[..pos]
  {
    RowsAgree(a, pos, ch, pos);
    if pos > 0 { AgreesAt(a, m, pos, ch, pos - 1); }
    forall i | 0 <= i < pos ensures MethodString(a)[i] == MethodString(m)[i] { AgreesAt(a, m, pos, ch, i); }
  }

  lemma {:induction false} AgreesAt(a: Method, m: Method, pos: nat, ch: char, i: nat)
    requires Switch(a, pos, ch) == Some(m) && i < pos
    ensures i < |MethodString(a)| && i < |MethodString(m)| && MethodString(a)[i] == MethodString(m)[i]
  {
    RowsAgree(a, pos, ch, pos);
    RowsAgree(a, pos, ch, i);
    NoNul(m, i);
  }

  // The table accepts exactly the listed methods, each as itself.
  lemma {:induction false} AcceptsExactlyMethods(s: string, m: Method)
    ensures Accept(s) == Some(m) <==> s == MethodString(m)
  {
    if Accept(s) == Some(m) {
      GuessSpells(s);
      NoNul(m, |s|);
      assert s == MethodString(m);
    }
    if s == MethodString(m) {
      Settles(m, match Origin(m) case None => 0 case Some((a, _)) => if Origin(a).None? then 1 else 2);
      Stays(m, SettledAt(m), |s|);
      assert s[..|s|] == s;
    }
  }

  // ---------------------------------------------------------------- in the parser

  // The parser after `n` letters with method `m` guessed.
  function Guessed(p: Parser, m: Method, n: nat): Parser {
    p.(flags := NO_FLAGS, contentLength := ULLONG_MAX, meth := m, index := n, state := ReqMethod, nread := p.nread + n)
  }

  ghost predicate MethodLaw(step: Stepper, p: Parser, ch: char) {
    p.nread < MAX_HEADER_SIZE ==>
      && (p.state.StartReq? && ch != '\r' && ch != '\n' ==>
            match FirstMethod(ch)
            case None => step(p, ch).Fail?
            case Some(m) => step(p, ch) == Go(Guessed(p, m, 1), One(Notify(MessageBegin))))
      && (p.state.ReqMethod? && ch != ' ' ==>
            match NextMethod(p.meth, p.index, ch)
            case None => step(p, ch).Fail?
            case Some(m) => step(p, ch) == Go(p.(meth := m, index := p.index + 1, nread := p.nread + 1), End))
      && (p.state.ReqMethod? && ch == ' ' ==>
            if CharAt(MethodString(p.meth), p.index) == '\0'
            then step(p, ch) == Go(p.(state := ReqUrl(SpacesBeforeUrl), index := p.index + 1, nread := p.nread + 1),
                                   End)
            else !step(p, ch).Go? || step(p, ch).p.state.ReqMethod?)
  }

  lemma StepMethodLaw(p: Parser, ch: char)
    ensures MethodLaw(Step, p, ch)
  {
    if p.nread < MAX_HEADER_SIZE && (p.state.StartReq? || p.state.ReqMethod?) {
      assert Step(p, ch) == ExecStart(p.(nread := p.nread + 1), ch);
    }
  }

  lemma {:induction false} MethodRun(step: Stepper, p: Parser, s: string)
    requires forall q, ch :: MethodLaw(step, q, ch)
    requires p.state.StartReq? && s != "" && p.nread + |s| <= MAX_HEADER_SIZE && ' ' !in s && s[0] != '\r' &&
             s[0] != '\n'
    ensures match Guess(s)
            case None => RunWith(step, p, s).Failed?
            case Some(m) => RunWith(step, p, s) == Done(Guessed(p, m, |s|), [Note(MessageBegin)])
    decreases |s|
  {
    if |s| == 1 {
      MethodFirst(step, p, s);
    } else {
      var init := s[..|s| - 1];
      assert forall c :: c in init ==> c in s;
      MethodRun(step, p, init);
      MethodMore(step, p, s);
    }
  }

  lemma {:induction false} MethodFirst(step: Stepper, p: Parser, s: string)
    requires |s| == 1 && MethodLaw(step, p, s[0]) && p.state.StartReq? && p.nread < MAX_HEADER_SIZE
    requires s[0] != '\r' && s[0] != '\n'
    ensures match Guess(s)
            case None => RunWith(step, p, s).Failed?
            case Some(m) => RunWith(step, p, s) == Done(Guessed(p, m, 1), [Note(MessageBegin)])
  {
    assert s == [s[0]] && s[..0] == "";
    RunOne(step, p, s[0]);
    assert Emit(None, One(Notify(MessageBegin)), s[0]) == [Note(MessageBegin)];
  }

  lemma {:induction false} MethodMore(step: Stepper, p: Parser, s: string)
    requires (forall q, ch :: MethodLaw(step, q, ch)) && |s| > 1 && p.nread + |s| <= MAX_HEADER_SIZE &&
             s[|s| - 1] != ' '
    requires var init := s[..|s| - 1];
             match Guess(init)
             case None => RunWith(step, p, init).Failed?
             case Some(m) => RunWith(step, p, init) == Done(Guessed(p, m, |init|), [Note(MessageBegin)])
    ensures match Guess(s)
            case None => RunWith(step, p, s).Failed?
            case Some(m) => RunWith(step, p, s) == Done(Guessed(p, m, |s|), [Note(MessageBegin)])
  {
    var init, last := s[..|s| - 1], s[|s| - 1];
    RunSnoc(step, p, s);
    if Guess(init).Some? { assert MethodLaw(step, Guessed(p, Guess(init).value, |init|), last); }
  }

  // The request method taken at the space is the one spelled, and every listed method is taken.
  lemma {:induction false} RequestMethodExact(p: Parser, s: string, m: Method)
    requires p.state.StartReq? && s != "" && p.nread + |s| < MAX_HEADER_SIZE && ' ' !in s && s[0] != '\r' &&
             s[0] != '\n'
    ensures var r := Run(p, s + " ");
            (r.Done? && r.p.state == ReqUrl(SpacesBeforeUrl) && r.p.meth == m) <==> s == MethodString(m)
  {
    forall q, ch ensures MethodLaw(Step, q, ch) { StepMethodLaw(q, ch); }
    MethodEnd(Step, p, s, m);
  }

  lemma {:induction false} MethodEnd(step: Stepper, p: Parser, s: string, m: Method)
    requires forall q, ch :: MethodLaw(step, q, ch)
    requires p.state.StartReq? && s != "" && p.nread + |s| < MAX_HEADER_SIZE && ' ' !in s && s[0] != '\r' &&
             s[0] != '\n'
    ensures var r := RunWith(step, p, s + " ");
            (r.Done? && r.p.state == ReqUrl(SpacesBeforeUrl) && r.p.meth == m) <==> s == MethodString(m)
  {
    AcceptsExactlyMethods(s, m);
    MethodRun(step, p, s);
    RunConcat(step, p, s, " ");
    if Guess(s).Some? {
      var q := Guessed(p, Guess(s).value, |s|);
      RunOne(step, q, ' ');
      assert MethodLaw(step, q, ' ');
    }
  }
}
