/** When a printed URI is parsed to the same URI. */
module UriIdentity {
  import opened Ascii
  import opened UrlMachine
  import opened Sections
  import opened UrlParser
  import opened UrlFacts
  import opened Uris
  import opened UriRoundTrip

  // ---------------------------------------------------------------- acceptance

  lemma {:induction false} AcceptIs(t: string, b: Bounds, h: Bounds)
    requires 0 < |t| < LIMIT && !CutUrl(t, false).state.UrlDead? && b == CutUrl(t, false).bounds && b[2] < b[3] <= |t|
    requires HostEnds(CutHost(t[b[2]..b[3]], HasAt(t, b)).state) && h == CutHost(t[b[2]..b[3]], HasAt(t, b)).bounds
    ensures Accept(t, false) == AcceptPort(t, HostFields(UrlFields(b), h, b[2]))
  {
    NoCut(b, 2, 0);
    assert Slice(t, Field(b[2], b[3] - b[2])) == t[b[2]..b[3]];
  }

  lemma {:induction false} FieldText(t: string, b: Bounds, k: nat, base: nat, s: string)
    requires k + 1 < |b| && b[k] <= b[k + 1] && base + b[k + 1] <= |t| < LIMIT && t[base + b[k]..base + b[k + 1]] == s
    ensures Text(t, FieldOf(b, k, base)) == s && (FieldOf(b, k, base).Some? <==> s != [])
  {
    NoCut(b, k, base);
  }

  // Bounds that cut an authority into its parts, and a URL into its own.
  ghost predicate CutsServer(h: Bounds, a: string, userinfo: string, host: string, port: string) {
    && |h| == 8 && h[0] <= h[1] <= |a| && h[3] <= h[4] <= |a| && h[6] <= h[7] <= |a|
    && a[h[0]..h[1]] == userinfo && a[h[3]..h[4]] == host && a[h[6]..h[7]] == port
  }

  ghost predicate CutsUrl(b: Bounds, t: string, scheme: string, a: string, path: string, query: string,
                          fragment: string) {
    && |b| == 9 && b[0] <= b[1] <= |t| && b[2] <= b[3] <= |t| && b[3] <= b[4] <= |t| && b[5] <= b[6] <= |t| &&
       b[7] <= b[8] <= |t|
    && t[b[0]..b[1]] == scheme && t[b[2]..b[3]] == a && t[b[3]..b[4]] == path && t[b[5]..b[6]] == query &&
       t[b[7]..b[8]] == fragment
  }

  lemma {:induction false} ServerTexts(t: string, base: nat, a: string, h: Bounds, userinfo: string, host: string,
                                       port: string)
    requires CutsServer(h, a, userinfo, host, port) && base + |a| <= |t| < LIMIT && t[base..base + |a|] == a
    ensures Text(t, FieldOf(h, 0, base)) == userinfo && Text(t, FieldOf(h, 3, base)) == host
    ensures Text(t, FieldOf(h, 6, base)) == port && (FieldOf(h, 6, base).Some? <==> port != [])
  {
    SubText(t, base, a, h[0], h[1]);
    SubText(t, base, a, h[3], h[4]);
    SubText(t, base, a, h[6], h[7]);
    FieldText(t, h, 0, base, userinfo);
    FieldText(t, h, 3, base, host);
    FieldText(t, h, 6, base, port);
  }

  lemma {:induction false} UrlTexts(t: string, b: Bounds, scheme: string, a: string, path: string, query: string,
                                    fragment: string)
    requires |t| < LIMIT && CutsUrl(b, t, scheme, a, path, query, fragment)
    ensures Text(t, FieldOf(b, 0, 0)) == scheme && Text(t, FieldOf(b, 3, 0)) == path
    ensures Text(t, FieldOf(b, 5, 0)) == query && Text(t, FieldOf(b, 7, 0)) == fragment
  {
    FieldText(t, b, 0, 0, scheme);
    FieldText(t, b, 3, 0, path);
    FieldText(t, b, 5, 0, query);
    FieldText(t, b, 7, 0, fragment);
  }

  // The texts of the fields.
  lemma {:induction false} PrintedFields(t: string, u: Uri, a: string, port: string, b: Bounds, h: Bounds)
    requires |t| < LIMIT && CutsUrl(b, t, u.scheme, a, u.GetPath(), u.query, u.fragment)
    requires CutsServer(h, a, u.userinfo, u.host, port)
    ensures var v := HostFields(UrlFields(b), h, b[2]);
            && Text(t, v.schema) == u.scheme && Text(t, v.userinfo) == u.userinfo && Text(t, v.host) == u.host
            && Text(t, v.path) == u.GetPath() && Text(t, v.query) == u.query && Text(t, v.fragment) == u.fragment
            && Text(t, v.port) == port && (v.port.Some? <==> port != [])
  {
    UrlTexts(t, b, u.scheme, a, u.GetPath(), u.query, u.fragment);
    ServerTexts(t, b[2], a, h, u.userinfo, u.host, port);
  }

  // ---------------------------------------------------------------- the authority as printed

  function PortText(u: Uri): string { if u.IsDefaultPort() then [] else Digits(u.port) }

  lemma {:induction false} TextIsPrinted(u: Uri)
    ensures u.ToString() ==
            Printed(u.scheme, ServerOf(u.userinfo, u.host, PortText(u)), u.GetPath(), u.query, u.fragment)
    ensures All(PortText(u), IsNum) && (PortText(u) == [] <==> u.IsDefaultPort()) &&
            (PortText(u) != [] ==> Decimal(PortText(u)) == u.port)
  {
    DigitsRoundTrip(u.port);
    assert u.Authority() == ServerOf(u.userinfo, u.host, PortText(u));
  }

  // It holds one '@', behind the user information, and no bracket.
  lemma {:induction false} AuthorityOctets(userinfo: string, host: string, port: string)
    requires All(userinfo, IsUserinfoChar) && All(host, IsHostText) && host != [] && All(port, IsNum)
    ensures var a := ServerOf(userinfo, host, port);
            && a != [] && ServerText(a) && a[|a| - 1] != '@' && ('@' in a <==> userinfo != []) && '[' !in a
  {
    var a := ServerOf(userinfo, host, port);
    forall i | 0 <= i < |a|
      ensures IsServerChar(a[i]) && a[i] != '[' && (a[i] == '@' <==> userinfo != [] && i == |userinfo|) {
      AuthorityOctet(userinfo, host, port, i);
    }
    if userinfo != [] { assert a[|userinfo|] == '@'; }
  }

  lemma {:induction false} AuthorityOctet(userinfo: string, host: string, port: string, i: nat)
    requires All(userinfo, IsUserinfoChar) && All(host, IsHostText) && host != [] && All(port, IsNum)
    requires i < |ServerOf(userinfo, host, port)|
    ensures var c := ServerOf(userinfo, host, port)[i];
            IsServerChar(c) && c != '[' && (c == '@' <==> userinfo != [] && i == |userinfo|)
  {
    var n, h := |Named(userinfo)|, |Named(userinfo)| + |host|;
    if i < |userinfo| {
      assert IsUserinfoChar(userinfo[i]);
    } else if i >= n && i < h {
      assert IsHostText(host[i - n]);
    } else if i > h {
      assert IsNum(port[i - h - 1]);
    }
  }

  lemma {:induction false} PartsArePrintable(u: Uri)
    requires PartsOk(u) && u.scheme != []
    ensures Printable(u.scheme, ServerOf(u.userinfo, u.host, PortText(u)), u.GetPath(), u.query, u.fragment)
    ensures var a := ServerOf(u.userinfo, u.host, PortText(u)); ('@' in a <==> u.userinfo != []) && '[' !in a
  {
    TextIsPrinted(u);
    AuthorityOctets(u.userinfo, u.host, PortText(u));
    assert IsUrlChar('/');
  }

  // The cut of a printed URI.
  lemma {:induction false} PrintedCut(u: Uri) returns (b: Bounds)
    requires PartsOk(u) && u.scheme != []
    ensures !CutUrl(u.ToString(), false).state.UrlDead? && b == CutUrl(u.ToString(), false).bounds
    ensures b == Ends(u.scheme, ServerOf(u.userinfo, u.host, PortText(u)), u.GetPath(), u.query, u.fragment)
    ensures b[2] < b[3] <= |u.ToString()| && u.ToString()[b[2]..b[3]] == ServerOf(u.userinfo, u.host, PortText(u))
    ensures HasAt(u.ToString(), b) == (u.userinfo != [])
  {
    var t, a := u.ToString(), ServerOf(u.userinfo, u.host, PortText(u));
    TextIsPrinted(u);
    PartsArePrintable(u);
    PrintedIsCut(u.scheme, a, u.GetPath(), u.query, u.fragment);
    EndsCut(t, u.scheme, a, u.GetPath(), u.query, u.fragment);
    b := Ends(u.scheme, a, u.GetPath(), u.query, u.fragment);
  }

  // ---------------------------------------------------------------- the round trip

  // The same scheme, user information, host, port, path, query and fragment.
  ghost predicate Same(u: Uri, v: Uri) {
    && v.scheme == u.scheme && v.userinfo == u.userinfo && v.host == u.host && v.port == u.port &&
       v.GetPort() == u.GetPort()
    && v.GetPath() == u.GetPath() && v.query == u.query && v.fragment == u.fragment
  }

  ghost predicate ReadsBack(u: Uri) { Made(u.ToString()).Some? && Same(u, Made(u.ToString()).value) }

  // Fields with the texts of a URI, and its port, are the URI, but for a path that was not there.
  lemma {:induction false} SameParts(u: Uri, t: string, v: Url, port: string)
    requires Text(t, v.schema) == u.scheme && Text(t, v.userinfo) == u.userinfo && Text(t, v.host) == u.host
    requires Text(t, v.path) == u.GetPath() && Text(t, v.query) == u.query && Text(t, v.fragment) == u.fragment
    requires Text(t, v.port) == port && (v.port.Some? <==> port != [])
    requires (port == [] <==> u.IsDefaultPort()) && (port != [] ==> Decimal(port) == u.port <= 0xffff)
    ensures AcceptPort(t, v).Some? && Same(u, PartsOf(t, AcceptPort(t, v).value))
  {
    assert u.IsDefaultPort() ==> u.port == DefaultPort(u.scheme);
  }

  lemma {:induction false} PlainHostReadsBack(u: Uri)
    requires PartsOk(u) && u.scheme != [] && All(u.host, IsHostChar) && |u.ToString()| < LIMIT
    ensures ReadsBack(u)
  {
    var t, port := u.ToString(), PortText(u);
    var a := ServerOf(u.userinfo, u.host, port);
    var b := PrintedCut(u);
    TextIsPrinted(u);
    var h := PlainServerCut(u.userinfo, u.host, port);
    AcceptIs(t, b, h);
    CutsAre(u, b, h);
    PrintedSame(t, u, a, port, b, h);
  }

  lemma {:induction false} PrintedSame(t: string, u: Uri, a: string, port: string, b: Bounds, h: Bounds)
    requires |t| < LIMIT && CutsUrl(b, t, u.scheme, a, u.GetPath(), u.query, u.fragment)
    requires CutsServer(h, a, u.userinfo, u.host, port)
    requires (port == [] <==> u.IsDefaultPort()) && (port != [] ==> Decimal(port) == u.port <= 0xffff)
    ensures var r := AcceptPort(t, HostFields(UrlFields(b), h, b[2])); r.Some? && Same(u, PartsOf(t, r.value))
  {
    PrintedFields(t, u, a, port, b, h);
    SameParts(u, t, HostFields(UrlFields(b), h, b[2]), port);
  }

  lemma {:induction false} PlainServerCut(userinfo: string, host: string, port: string) returns (h: Bounds)
    requires Servable(userinfo, host, port)
    ensures var a := ServerOf(userinfo, host, port);
            && HostEnds(CutHost(a, userinfo != []).state) && h == CutHost(a, userinfo != []).bounds
            && h == ServerEnds(userinfo, host, port)
  {
    ServerAccepted(userinfo, host, port);
    h := ServerEnds(userinfo, host, port);
  }

  lemma {:induction false} CutsAre(u: Uri, b: Bounds, h: Bounds)
    requires b == Ends(u.scheme, ServerOf(u.userinfo, u.host, PortText(u)), u.GetPath(), u.query, u.fragment)
    requires h == ServerEnds(u.userinfo, u.host, PortText(u))
    ensures var a := ServerOf(u.userinfo, u.host, PortText(u));
            CutsUrl(b, u.ToString(), u.scheme, a, u.GetPath(), u.query, u.fragment) &&
            CutsServer(h, a, u.userinfo, u.host, PortText(u))
  {
    var a := ServerOf(u.userinfo, u.host, PortText(u));
    TextIsPrinted(u);
    EndsCut(u.ToString(), u.scheme, a, u.GetPath(), u.query, u.fragment);
    ServerEndsCut(a, u.userinfo, u.host, PortText(u));
  }

  // ---------------------------------------------------------------- and only then

  // Without a bracket the host machine stays out of the states for IP literals, and what it takes for the host is made
  // of host characters.
  ghost predicate NoLiteral(text: string, s: HostState, b: Bounds) {
    && !s.V6Start? && !s.V6? && !s.V6End? && !s.ZoneStart? && !s.Zone?
    && |b| == 8 && forall i :: b[3] <= i < b[4] ==> i < |text| && IsHostChar(text[i])
  }

  lemma {:induction false} NoBracketNoLiteral(text: string, foundAt: bool, p: nat)
    requires p <= |text| && '[' !in text && !Upto(HostCutter(), HostStartOf(foundAt), text, p).state.HostDead?
    ensures var c := Upto(HostCutter(), HostStartOf(foundAt), text, p); NoLiteral(text, c.state, c.bounds)
    decreases p
  {
    var s0 := HostStartOf(foundAt);
    if p == 0 {
      assert text[..0] == [];
    } else {
      UptoNext(HostCutter(), s0, text, p - 1);
      HostLaws();
      UptoAlive(HostCutter(), HostKind, s0, text, p - 1, p);
      NoBracketNoLiteral(text, foundAt, p - 1);
      UptoFits(HostCutter(), HostKind, s0, text, p - 1);
      var c := Upto(HostCutter(), s0, text, p - 1);
      NoLiteralNext(text, c.state, c.bounds, p - 1);
    }
  }

  lemma {:induction false} NoLiteralNext(text: string, s: HostState, b: Bounds, p: nat)
    requires p < |text| && text[p] != '[' && Fits(b, 7, HostPart(s), p) && NoLiteral(text, s, b)
    requires !ParseHostChar(s, text[p]).HostDead?
    ensures var s' := ParseHostChar(s, text[p]); NoLiteral(text, s', Extend(b, HostPart(s'), p + 1))
  {
    var s' := ParseHostChar(s, text[p]);
    HostLaw(s, text[p]);
    assert b[3] <= b[4] <= p;
    if HostPart(s') == 3 { assert IsHostChar(text[p]) && b[4] == p; }
  }

  lemma {:induction false} NoSchemeIsRefused(u: Uri)
    requires u.scheme == []
    ensures Accept(u.ToString(), false).None?
  {
    var t := u.ToString();
    assert t[0] == ':' by { TextIsPrinted(u); }
    assert t[..0] == [];
    UptoNext(UrlCutter(), Start(false), t, 0);
    StaysDead(t, false, 1);
  }

  lemma {:induction false} ReadBackIsPlain(u: Uri)
    requires PartsOk(u) && u.scheme != [] && |u.ToString()| < LIMIT && ReadsBack(u)
    ensures All(u.host, IsHostChar)
  {
    var t, a := u.ToString(), ServerOf(u.userinfo, u.host, PortText(u));
    var v := Accept(t, false).value;
    var b := PrintedCut(u);
    PartsArePrintable(u);
    var b', h := CutsOf(t, false, v);
    HostOfCuts(t, v, b, h, a);
  }

  lemma {:induction false} HostOfCuts(t: string, v: Url, b: Bounds, h: Bounds, a: string)
    requires Accepted(t, false, v, b, h) && b[2] < b[3] && t[b[2]..b[3]] == a && '[' !in a
    ensures All(Text(t, v.host), IsHostChar)
  {
    assert h[3] <= h[4] <= h[7] == |a|;
    NoBracketNoLiteral(a, HasAt(t, b), |a|);
    TextOf(t, h, 3, b[2]);
    SubText(t, b[2], a, h[3], h[4]);
    var host := Text(t, v.host);
    forall i | 0 <= i < |host| ensures IsHostChar(host[i]) { assert host[i] == a[h[3] + i]; }
  }

  // For every URL that Create accepts: parsing what toString prints gives the same URI exactly when it has a scheme and
  // its host is not an IP literal with more than host characters in it.
  lemma {:induction false} UriRoundTripIff(buf: string)
    ensures var made := Made(buf);
            |buf| < LIMIT && made.Some? && |made.value.ToString()| < LIMIT ==>
              (ReadsBack(made.value) <==> made.value.scheme != [] && All(made.value.host, IsHostChar))
  {
    var made := Made(buf);
    if |buf| < LIMIT && made.Some? && |made.value.ToString()| < LIMIT {
      PartsAreOk(buf, Accept(buf, false).value);
      PartsReadBackIff(made.value);
    }
  }

  lemma {:induction false} PartsReadBackIff(u: Uri)
    requires PartsOk(u) && |u.ToString()| < LIMIT
    ensures ReadsBack(u) <==> u.scheme != [] && All(u.host, IsHostChar)
  {
    if u.scheme == [] {
      NoSchemeIsRefused(u);
    } else if All(u.host, IsHostChar) {
      PlainHostReadsBack(u);
    } else if ReadsBack(u) {
      ReadBackIsPlain(u);
    }
  }

  // ---------------------------------------------------------------- both ways to fail occur

  predicate IsLiteralChar(ch: char) { IsHex(ch) || ch == ':' || ch == '.' }

  // An IP literal in its brackets, by the host machine.
  lemma {:induction false} LiteralRuns(m: Machine<HostState>, v6: string)
    requires IsHost(m) && v6 != [] && All(v6, IsLiteralChar)
    ensures var n := |v6|;
            Run(m, HostStart, Zeros(7), 0, "[" + v6 + "]") ==
            Cut(V6End, [0, 0, 0, 1, n + 1, n + 2, n + 2, n + 2])
  {
    var n := |v6|;
    var b1 := Extend(Zeros(7), 2, 1);
    var b2 := Extend(b1, 3, n + 1);
    HostLeadsTo(m, HostStart, V6Start, Zeros(7), 0, "[");
    HostLeadsTo(m, V6Start, V6, b1, 1, v6);
    HostLeadsTo(m, V6, V6End, b2, n + 1, "]");
    HostChain3(m, HostStart, Zeros(7), "[", v6, "]", Cut(V6Start, b1), Cut(V6, b2), Cut(V6End, Extend(b2, 4, n + 2)));
    assert Extend(b2, 4, n + 2) == [0, 0, 0, 1, n + 1, n + 2, n + 2, n + 2];
  }

  lemma {:induction false} LiteralCut(v6: string) returns (h: Bounds)
    requires v6 != [] && All(v6, IsLiteralChar)
    ensures CutHost("[" + v6 + "]", false) == Cut(V6End, h) && CutsServer(h, "[" + v6 + "]", [], v6, [])
  {
    var a := "[" + v6 + "]";
    CutterIsHost();
    LiteralRuns(HostCutter(), v6);
    assert a[..|a|] == a;
    h := CutHost(a, false).bounds;
  }

  lemma {:induction false} LiteralOctets(v6: string)
    requires v6 != [] && All(v6, IsLiteralChar)
    ensures var a := "[" + v6 + "]"; ServerText(a) && a[|a| - 1] != '@' && '@' !in a
  {
    var a := "[" + v6 + "]";
    forall i | 0 <= i < |a| ensures IsServerChar(a[i]) && a[i] != '@' {
      if 0 < i < |a| - 1 { assert IsLiteralChar(v6[i - 1]); }
    }
  }

  // Create takes a URL with an IP literal, and the host of what it makes is the literal without its brackets.
  lemma {:induction false} LiteralIsRead(scheme: string, v6: string)
    requires scheme != [] && All(scheme, IsAlpha) && v6 != [] && All(v6, IsLiteralChar) && |scheme| + |v6| + 6 < LIMIT
    ensures Made(Printed(scheme, "[" + v6 + "]", "/", [], [])) ==
            Some(Uri(scheme, [], v6, DefaultPort(scheme), "/", [], []))
  {
    var a := "[" + v6 + "]";
    var t, b := Printed(scheme, a, "/", [], []), Ends(scheme, a, "/", [], []);
    LiteralOctets(v6);
    PrintedIsCut(scheme, a, "/", [], []);
    EndsCut(t, scheme, a, "/", [], []);
    var h := LiteralCut(v6);
    AcceptIs(t, b, h);
    UrlTexts(t, b, scheme, a, "/", [], []);
    ServerTexts(t, b[2], a, h, [], v6, []);
  }

  // And if it holds a colon, as every IPv6 address does, what toString prints does not read back.
  lemma {:induction false} LiteralDoesNotReadBack(v6: string)
    requires All(v6, IsLiteralChar) && ':' in v6 && |v6| + 10 < LIMIT
    ensures var u := Uri("http", [], v6, 80, "/", [], []);
            Made(Printed("http", "[" + v6 + "]", "/", [], [])) == Some(u) && !ReadsBack(u)
  {
    var u := Uri("http", [], v6, 80, "/", [], []);
    LiteralIsRead("http", v6);
    ColonDoesNotReadBack(u);
  }

  lemma {:induction false} ColonDoesNotReadBack(u: Uri)
    requires u == Uri("http", [], u.host, 80, "/", [], []) && All(u.host, IsLiteralChar) && ':' in u.host &&
             |u.host| + 10 < LIMIT
    ensures !ReadsBack(u)
  {
    forall i | 0 <= i < |u.host| ensures IsHostText(u.host[i]) { assert IsLiteralChar(u.host[i]); }
    assert u.ToString() == "http" + "://" + u.host + "/";
    PartsReadBackIff(u);
    var i :| 0 <= i < |u.host| && u.host[i] == ':';
  }

  // Create also takes a path alone, and what toString prints of it is refused.
  lemma {:induction false} PathDoesNotReadBack(path: string)
    requires path != [] && path[0] == '/' && All(path, IsUrlChar) && |path| < LIMIT
    ensures var u := Uri([], [], [], 0, path, [], []); Made(path) == Some(u) && !ReadsBack(u)
  {
    PathCut(path);
    UrlTexts(path, CutUrl(path, false).bounds, [], [], path, [], []);
    NoSchemeIsRefused(Uri([], [], [], 0, path, [], []));
  }

  lemma {:induction false} PathCut(path: string)
    requires path != [] && path[0] == '/' && All(path, IsUrlChar)
    ensures var n := |path|; CutUrl(path, false) == Cut(Path, [0, 0, 0, 0, n, n, n, n, n])
  {
    var n := |path|;
    CutterIsUrl();
    assert path[..n] == path;
    LeadsTo(UrlCutter(), SpacesBeforeUrl, Path, Zeros(8), 0, path);
    assert Extend(Zeros(8), 3, n) == [0, 0, 0, 0, n, n, n, n, n];
  }
}
