/** Parsing what Uri::toString prints. */
module UriRoundTrip {
  import opened Ascii
  import opened UrlMachine
  import opened Sections
  import opened UrlParser
  import opened Uris

  // ---------------------------------------------------------------- the URL machine over a printed text

  // A machine that does what the URL machine does, known one octet at a time.
  ghost predicate UrlAt(m: Machine<UrlState>, s: UrlState, ch: char) {
    m.next(s, ch) == ParseUrlChar(s, ch) && m.part(ParseUrlChar(s, ch)) == UrlPart(ParseUrlChar(s, ch))
  }

  ghost predicate IsUrl(m: Machine<UrlState>) { m.sections == 8 && forall s, ch :: UrlAt(m, s, ch) }

  lemma {:induction false} CutterIsUrl()
    ensures IsUrl(UrlCutter())
  {
  }

  // A text that leads from one state to another and stays there, by the octets.
  lemma {:induction false} LeadsTo(m: Machine<UrlState>, s: UrlState, s': UrlState, b: Bounds, p: nat, text: string)
    requires IsUrl(m) && text != [] && ParseUrlChar(s, text[0]) == s'
    requires forall i :: 1 <= i < |text| ==> ParseUrlChar(s', text[i]) == s'
    ensures Run(m, s, b, p, text) == Cut(s', Extend(b, UrlPart(s'), p + |text|))
  {
    assert UrlAt(m, s, text[0]);
    forall i | 1 <= i < |text| ensures m.next(s', text[i]) == s' { assert UrlAt(m, s', text[i]); }
    RunLeads(m, s, s', b, p, text);
  }

  lemma {:induction false} SchemeRuns(m: Machine<UrlState>, b: Bounds, scheme: string)
    requires IsUrl(m) && scheme != [] && All(scheme, IsAlpha)
    ensures Run(m, SpacesBeforeUrl, b, 0, scheme + "://") ==
            Cut(ServerStart, Extend(Extend(b, 0, |scheme|), 1, |scheme| + 3))
  {
    LeadsTo(m, SpacesBeforeUrl, Schema, b, 0, scheme);
    SlashesRun(m, Extend(b, 0, |scheme|), |scheme|);
    RunConcat(m, SpacesBeforeUrl, b, 0, scheme, "://");
  }

  lemma {:induction false} SlashesRun(m: Machine<UrlState>, b: Bounds, p: nat)
    requires IsUrl(m)
    ensures Run(m, Schema, b, p, "://") == Cut(ServerStart, Extend(b, 1, p + 3))
  {
    var b1, b2 := Extend(b, 1, p + 1), Extend(b, 1, p + 2);
    LeadsTo(m, Schema, SchemaSlash, b, p, ":");
    LeadsTo(m, SchemaSlash, SchemaSlashSlash, b1, p + 1, "/");
    LeadsTo(m, SchemaSlashSlash, ServerStart, b2, p + 2, "/");
    ExtendTwice(b, 1, p + 1, p + 2);
    ExtendTwice(b, 1, p + 2, p + 3);
    RunConcat(m, Schema, b, p, ":", "/");
    RunConcat(m, Schema, b, p, ":" + "/", "/");
    assert ":" + "/" + "/" == "://";
  }

  // A server text in which no two '@' meet.
  ghost predicate ServerText(a: string) {
    All(a, IsServerChar) && forall i :: 0 <= i < |a| - 1 ==> !(a[i] == '@' && a[i + 1] == '@')
  }

  lemma {:induction false} ServerRuns(m: Machine<UrlState>, s: UrlState, b: Bounds, p: nat, a: string)
    requires IsUrl(m) && a != [] && ServerText(a) && (s.ServerStart? || s.Server? || (s.ServerWithAt? && a[0] != '@'))
    ensures Run(m, s, b, p, a) == Cut(if a[|a| - 1] == '@' then ServerWithAt else Server, Extend(b, 2, p + |a|))
    decreases |a|
  {
    var s' := if a[0] == '@' then ServerWithAt else Server;
    assert IsServerChar(a[0]);
    ServerNext(s, a[0]);
    assert UrlAt(m, s, a[0]);
    if |a| == 1 {
      assert a == [a[0]];
      RunOne(m, s, b, p, a[0]);
    } else {
      var rest := a[1..];
      assert forall i :: 0 <= i < |rest| ==> rest[i] == a[i + 1];
      assert !(a[0] == '@' && a[0 + 1] == '@');
      ServerRuns(m, s', Extend(b, 2, p + 1), p + 1, rest);
      ExtendTwice(b, 2, p + 1, p + |a|);
    }
  }

  lemma {:induction false} ServerNext(s: UrlState, ch: char)
    requires IsServerChar(ch) && (s.ServerStart? || s.Server? || (s.ServerWithAt? && ch != '@'))
    ensures ParseUrlChar(s, ch) == if ch == '@' then ServerWithAt else Server
  {
  }

  function Marked(mark: char, text: string): string { if text == [] then [] else [mark] + text }

  // Bounds whose sections after the path are empty at `p`.
  ghost predicate OpenAfter(b: Bounds, k: nat, p: nat) { |b| == 9 && forall j :: k < j < 9 ==> b[j] == p }

  ghost predicate SameUpto(b: Bounds, b': Bounds, k: nat) {
    |b| == |b'| == 9 && forall j :: 0 <= j <= k < 9 ==> b[j] == b'[j]
  }

  lemma {:induction false} QueryRuns(m: Machine<UrlState>, b: Bounds, p: nat, query: string) returns (c: Cut<UrlState>)
    requires IsUrl(m) && All(query, IsQueryChar) && OpenAfter(b, 3, p)
    ensures c == Run(m, Path, b, p, Marked('?', query)) && (c.state.Path? || c.state.Query?)
    ensures var q := p + |Marked('?', query)|;
            SameUpto(b, c.bounds, 4) && c.bounds[5] == (if query == [] then q else p + 1) && OpenAfter(c.bounds, 5, q)
  {
    if query == [] {
      c := Cut(Path, b);
    } else {
      var b' := Extend(b, 4, p + 1);
      LeadsTo(m, Path, QueryStart, b, p, "?");
      LeadsTo(m, QueryStart, Query, b', p + 1, query);
      c := Cut(Query, Extend(b', 5, p + 1 + |query|));
      Chain(m, Path, b, p, "?", query, Cut(QueryStart, b'), c);
    }
  }

  lemma {:induction false} FragmentRuns(m: Machine<UrlState>, s: UrlState, b: Bounds, p: nat, fragment: string)
    returns (c: Cut<UrlState>)
    requires IsUrl(m) && (s.Path? || s.Query?) && All(fragment, IsFragmentChar) &&
             (fragment != [] ==> fragment[0] != '#')
    requires OpenAfter(b, 5, p)
    ensures c == Run(m, s, b, p, Marked('#', fragment)) && (c.state == s || c.state.Fragment?)
    ensures var q := p + |Marked('#', fragment)|;
            SameUpto(b, c.bounds, 6) && c.bounds[7] == (if fragment == [] then q else p + 1) && c.bounds[8] == q
  {
    if fragment == [] {
      c := Cut(s, b);
    } else {
      var b' := Extend(b, 6, p + 1);
      LeadsTo(m, s, FragmentStart, b, p, "#");
      LeadsTo(m, FragmentStart, Fragment, b', p + 1, fragment);
      c := Cut(Fragment, Extend(b', 7, p + 1 + |fragment|));
      Chain(m, s, b, p, "#", fragment, Cut(FragmentStart, b'), c);
    }
  }

  // The printed text, and where its sections end.
  function Printed(scheme: string, a: string, path: string, query: string, fragment: string): string {
    (((scheme + "://") + a) + path) + Marked('?', query) + Marked('#', fragment)
  }

  function Ends(scheme: string, a: string, path: string, query: string, fragment: string): Bounds {
    var server := |scheme| + 3;
    var q := server + |a| + |path|;
    var f := q + |Marked('?', query)|;
    [0, |scheme|, server, server + |a|, q, if query == [] then q else q + 1, f, if fragment == [] then f else f + 1,
     f + |Marked('#', fragment)|]
  }

  ghost predicate Printable(scheme: string, a: string, path: string, query: string, fragment: string) {
    && scheme != [] && All(scheme, IsAlpha) && a != [] && ServerText(a) && a[|a| - 1] != '@'
    && path != [] && path[0] == '/' && All(path, IsUrlChar) && All(query, IsQueryChar)
    && All(fragment, IsFragmentChar) && (fragment != [] ==> fragment[0] != '#')
  }

  // The machine up to the end of the path.
  lemma {:induction false} FrontRuns(m: Machine<UrlState>, b0: Bounds, scheme: string, a: string, path: string)
    returns (c: Cut<UrlState>)
    requires IsUrl(m) && OpenAfter(b0, 0, 0) && b0[0] == 0 && Printable(scheme, a, path, [], [])
    ensures c == Run(m, SpacesBeforeUrl, b0, 0, ((scheme + "://") + a) + path) && c.state == Path
    ensures var server := |scheme| + 3; var b := c.bounds;
            OpenAfter(b, 3, server + |a| + |path|) && b[0] == 0 && b[1] == |scheme| && b[2] == server &&
            b[3] == server + |a|
  {
    var head := scheme + "://";
    SchemeRuns(m, b0, scheme);
    var c1 := Cut(ServerStart, Extend(Extend(b0, 0, |scheme|), 1, |scheme| + 3));
    ServerRuns(m, ServerStart, c1.bounds, |head|, a);
    var c2 := Cut(Server, Extend(c1.bounds, 2, |head| + |a|));
    LeadsTo(m, Server, Path, c2.bounds, |head| + |a|, path);
    c := Cut(Path, Extend(c2.bounds, 3, |head| + |a| + |path|));
    Chain3(m, SpacesBeforeUrl, b0, head, a, path, c1, c2, c);
  }

  // The machine over the whole text.
  lemma {:induction false} PrintedRuns(m: Machine<UrlState>, b0: Bounds, scheme: string, a: string, path: string,
                                       query: string, fragment: string)
    returns (c: Cut<UrlState>)
    requires IsUrl(m) && b0 == Zeros(8) && Printable(scheme, a, path, query, fragment)
    ensures c == Run(m, SpacesBeforeUrl, b0, 0, Printed(scheme, a, path, query, fragment))
    ensures !c.state.UrlDead? && c.bounds == Ends(scheme, a, path, query, fragment)
  {
    var front := ((scheme + "://") + a) + path;
    var c1 := FrontRuns(m, b0, scheme, a, path);
    var c2: Cut<UrlState>;
    c2, c := TailRuns(m, c1.bounds, |front|, query, fragment);
    Chain3(m, SpacesBeforeUrl, b0, front, Marked('?', query), Marked('#', fragment), c1, c2, c);
    EndsAre(c1.bounds, c2.bounds, c.bounds, scheme, a, path, query, fragment);
  }

  lemma {:induction false} Chain3(m: Machine<UrlState>, s: UrlState, b: Bounds, x: string, y: string, z: string,
                                  c: Cut<UrlState>, d: Cut<UrlState>, e: Cut<UrlState>)
    requires Run(m, s, b, 0, x) == c && Run(m, c.state, c.bounds, |x|, y) == d &&
             Run(m, d.state, d.bounds, |x| + |y|, z) == e
    ensures Run(m, s, b, 0, x + y + z) == e
  {
    Chain(m, s, b, 0, x, y, c, d);
    Chain(m, s, b, 0, x + y, z, d, e);
  }

  lemma {:induction false} TailRuns(m: Machine<UrlState>, b: Bounds, p: nat, query: string, fragment: string)
    returns (c: Cut<UrlState>, d: Cut<UrlState>)
    requires IsUrl(m) && OpenAfter(b, 3, p)
    requires All(query, IsQueryChar) && All(fragment, IsFragmentChar) && (fragment != [] ==> fragment[0] != '#')
    ensures c == Run(m, Path, b, p, Marked('?', query))
    ensures d == Run(m, c.state, c.bounds, p + |Marked('?', query)|, Marked('#', fragment)) && !d.state.UrlDead?
    ensures var q := p + |Marked('?', query)|;
            SameUpto(b, c.bounds, 4) && c.bounds[5] == (if query == [] then q else p + 1) && OpenAfter(c.bounds, 5, q)
    ensures var q := p + |Marked('?', query)|; var r := q + |Marked('#', fragment)|;
            SameUpto(c.bounds, d.bounds, 6) && d.bounds[7] == (if fragment == [] then r else q + 1) && d.bounds[8] == r
  {
    c := QueryRuns(m, b, p, query);
    d := FragmentRuns(m, c.state, c.bounds, p + |Marked('?', query)|, fragment);
  }

  lemma {:induction false} EndsAre(b: Bounds, c: Bounds, d: Bounds, scheme: string, a: string, path: string,
                                   query: string, fragment: string)
    requires var server := |scheme| + 3; var p := server + |a| + |path|; var q := p + |Marked('?', query)|;
             var r := q + |Marked('#', fragment)|;
             && OpenAfter(b, 3, p) && b[0] == 0 && b[1] == |scheme| && b[2] == server && b[3] == server + |a|
             && SameUpto(b, c, 4) && c[5] == (if query == [] then q else p + 1) && OpenAfter(c, 5, q)
             && SameUpto(c, d, 6) && d[7] == (if fragment == [] then r else q + 1) && d[8] == r
    ensures d == Ends(scheme, a, path, query, fragment)
  {
    var ends := Ends(scheme, a, path, query, fragment);
    assert d[0] == ends[0] && d[1] == ends[1] && d[2] == ends[2] && d[3] == ends[3] && d[4] == ends[4];
    assert d[5] == ends[5] && d[6] == ends[6] && d[7] == ends[7] && d[8] == ends[8];
  }

  // So it cuts a printed text where it was put together.
  lemma {:induction false} PrintedIsCut(scheme: string, a: string, path: string, query: string, fragment: string)
    requires Printable(scheme, a, path, query, fragment)
    ensures var c := CutUrl(Printed(scheme, a, path, query, fragment), false);
            !c.state.UrlDead? && c.bounds == Ends(scheme, a, path, query, fragment)
  {
    var text := Printed(scheme, a, path, query, fragment);
    assert text[..|text|] == text;
    CutterIsUrl();
    var c := PrintedRuns(UrlCutter(), Zeros(8), scheme, a, path, query, fragment);
  }

  // ---------------------------------------------------------------- the host machine over a printed authority

  ghost predicate HostAt(m: Machine<HostState>, s: HostState, ch: char) {
    m.next(s, ch) == ParseHostChar(s, ch) && m.part(ParseHostChar(s, ch)) == HostPart(ParseHostChar(s, ch))
  }

  ghost predicate IsHost(m: Machine<HostState>) { m.sections == 7 && forall s, ch :: HostAt(m, s, ch) }

  lemma {:induction false} CutterIsHost()
    ensures IsHost(HostCutter())
  {
  }

  lemma {:induction false} HostLeadsTo(m: Machine<HostState>, s: HostState, s': HostState, b: Bounds, p: nat,
                                       text: string)
    requires IsHost(m) && text != [] && ParseHostChar(s, text[0]) == s'
    requires forall i :: 1 <= i < |text| ==> ParseHostChar(s', text[i]) == s'
    ensures Run(m, s, b, p, text) == Cut(s', Extend(b, HostPart(s'), p + |text|))
  {
    assert HostAt(m, s, text[0]);
    forall i | 1 <= i < |text| ensures m.next(s', text[i]) == s' { assert HostAt(m, s', text[i]); }
    RunLeads(m, s, s', b, p, text);
  }

  // The user information with its '@'.
  function Named(userinfo: string): string { if userinfo == [] then [] else userinfo + "@" }

  function ServerOf(userinfo: string, host: string, port: string): string { Named(userinfo) + host + Marked(':', port) }

  function ServerEnds(userinfo: string, host: string, port: string): Bounds {
    var n := |Named(userinfo)|;
    var h := n + |host|;
    [0, |userinfo|, n, n, h, h, if port == [] then h else h + 1, h + |Marked(':', port)|]
  }

  lemma {:induction false} UserRuns(m: Machine<HostState>, b: Bounds, userinfo: string) returns (c: Cut<HostState>)
    requires IsHost(m) && |b| == 8 && All(userinfo, IsUserinfoChar)
    ensures c == Run(m, HostStartOf(userinfo != []), b, 0, Named(userinfo)) && c.state == HostStart
    ensures c.bounds == if userinfo == [] then b else Extend(Extend(b, 0, |userinfo|), 1, |Named(userinfo)|)
  {
    if userinfo == [] {
      c := Cut(HostStart, b);
    } else {
      var n := |userinfo|;
      var b' := Extend(b, 0, n);
      HostLeadsTo(m, UserinfoStart, Userinfo, b, 0, userinfo);
      HostLeadsTo(m, Userinfo, HostStart, b', n, "@");
      c := Cut(HostStart, Extend(b', 1, n + 1));
      Chain(m, UserinfoStart, b, 0, userinfo, "@", Cut(Userinfo, b'), c);
    }
  }

  lemma {:induction false} PortRuns(m: Machine<HostState>, b: Bounds, p: nat, port: string) returns (c: Cut<HostState>)
    requires IsHost(m) && |b| == 8 && All(port, IsNum)
    ensures c == Run(m, Host, b, p, Marked(':', port)) && HostEnds(c.state)
    ensures c.bounds == if port == [] then b else Extend(Extend(b, 5, p + 1), 6, p + 1 + |port|)
  {
    if port == [] {
      c := Cut(Host, b);
    } else {
      var b' := Extend(b, 5, p + 1);
      HostLeadsTo(m, Host, PortStart, b, p, ":");
      HostLeadsTo(m, PortStart, Port, b', p + 1, port);
      c := Cut(Port, Extend(b', 6, p + 1 + |port|));
      Chain(m, Host, b, p, ":", port, Cut(PortStart, b'), c);
    }
  }

  ghost predicate Servable(userinfo: string, host: string, port: string) {
    All(userinfo, IsUserinfoChar) && host != [] && All(host, IsHostChar) && All(port, IsNum)
  }

  lemma {:induction false} ServerIsCutUp(m: Machine<HostState>, userinfo: string, host: string, port: string)
    returns (c: Cut<HostState>)
    requires IsHost(m) && Servable(userinfo, host, port)
    ensures c == Run(m, HostStartOf(userinfo != []), Zeros(7), 0, ServerOf(userinfo, host, port))
    ensures HostEnds(c.state) && c.bounds == ServerEnds(userinfo, host, port)
  {
    var n := |Named(userinfo)|;
    var c1, c2 := HostRuns(m, userinfo, host);
    c := PortRuns(m, c2.bounds, n + |host|, port);
    HostChain3(m, HostStartOf(userinfo != []), Zeros(7), Named(userinfo), host, Marked(':', port), c1, c2, c);
    ServerEndsAre(c1.bounds, c2.bounds, c.bounds, userinfo, host, port);
  }

  lemma {:induction false} HostRuns(m: Machine<HostState>, userinfo: string, host: string)
    returns (c: Cut<HostState>, d: Cut<HostState>)
    requires IsHost(m) && Servable(userinfo, host, [])
    ensures c == Run(m, HostStartOf(userinfo != []), Zeros(7), 0, Named(userinfo))
    ensures c.bounds == if userinfo == [] then Zeros(7)
                        else Extend(Extend(Zeros(7), 0, |userinfo|), 1, |Named(userinfo)|)
    ensures d == Run(m, c.state, c.bounds, |Named(userinfo)|, host) &&
            d == Cut(Host, Extend(c.bounds, 3, |Named(userinfo)| + |host|))
  {
    c := UserRuns(m, Zeros(7), userinfo);
    HostLeadsTo(m, HostStart, Host, c.bounds, |Named(userinfo)|, host);
    d := Cut(Host, Extend(c.bounds, 3, |Named(userinfo)| + |host|));
  }

  lemma {:induction false} HostChain3(m: Machine<HostState>, s: HostState, b: Bounds, x: string, y: string, z: string,
                                      c: Cut<HostState>, d: Cut<HostState>, e: Cut<HostState>)
    requires Run(m, s, b, 0, x) == c && Run(m, c.state, c.bounds, |x|, y) == d &&
             Run(m, d.state, d.bounds, |x| + |y|, z) == e
    ensures Run(m, s, b, 0, x + y + z) == e
  {
    Chain(m, s, b, 0, x, y, c, d);
    Chain(m, s, b, 0, x + y, z, d, e);
  }

  lemma {:induction false} ServerEndsAre(b: Bounds, c: Bounds, d: Bounds, userinfo: string, host: string, port: string)
    requires var n := |Named(userinfo)|; var h := n + |host|;
             && b == (if userinfo == [] then Zeros(7) else Extend(Extend(Zeros(7), 0, |userinfo|), 1, n))
             && c == Extend(b, 3, h)
             && d == if port == [] then c else Extend(Extend(c, 5, h + 1), 6, h + 1 + |port|)
    ensures d == ServerEnds(userinfo, host, port)
  {
    var e := ServerEnds(userinfo, host, port);
    assert d[0] == e[0] && d[1] == e[1] && d[2] == e[2] && d[3] == e[3];
    assert d[4] == e[4] && d[5] == e[5] && d[6] == e[6] && d[7] == e[7];
  }

  // ---------------------------------------------------------------- a printed text is accepted

  lemma {:induction false} Keeps(x: string, y: string, lo: nat, hi: nat)
    requires lo <= hi <= |x|
    ensures (x + y)[lo..hi] == x[lo..hi]
  {
  }

  lemma {:induction false} Right(x: string, y: string)
    ensures (x + y)[|x|..|x| + |y|] == y
  {
  }

  lemma {:induction false} RightMarked(x: string, mark: char, y: string)
    ensures var m := Marked(mark, y); var lo := |x| + if y == [] then 0 else 1;
            lo <= |x + m| && (x + m)[lo..|x + m|] == y
  {
  }

  // The sections of a printed text are the parts it was put together from.
  lemma {:induction false} EndsCut(t: string, scheme: string, a: string, path: string, query: string, fragment: string)
    requires t == Printed(scheme, a, path, query, fragment)
    ensures var b := Ends(scheme, a, path, query, fragment);
            && b[8] == |t| && b[0] <= b[1] <= b[2] <= b[3] <= b[4] <= b[5] <= b[6] <= b[7] <= b[8]
            && t[b[0]..b[1]] == scheme && t[b[2]..b[3]] == a && t[b[3]..b[4]] == path && t[b[5]..b[6]] == query
            && t[b[7]..b[8]] == fragment
  {
    var b, q := Ends(scheme, a, path, query, fragment), Marked('?', query);
    var t1 := scheme + "://";
    var t2 := t1 + a;
    var t3 := t2 + path;
    var t4 := t3 + q;
    RightMarked(t4, '#', fragment);
    RightMarked(t3, '?', query);
    Keeps(t4, Marked('#', fragment), b[5], b[6]);
    Right(t2, path);
    Keeps(t3, q, b[3], b[4]);
    Keeps(t4, Marked('#', fragment), b[3], b[4]);
    Right(t1, a);
    Keeps(t2, path, b[2], b[3]);
    Keeps(t3, q, b[2], b[3]);
    Keeps(t4, Marked('#', fragment), b[2], b[3]);
    Keeps(scheme, "://", 0, |scheme|);
    Keeps(t1, a, 0, |scheme|);
    Keeps(t2, path, 0, |scheme|);
    Keeps(t3, q, 0, |scheme|);
    Keeps(t4, Marked('#', fragment), 0, |scheme|);
  }

  lemma {:induction false} ServerEndsCut(a: string, userinfo: string, host: string, port: string)
    requires a == ServerOf(userinfo, host, port)
    ensures var h := ServerEnds(userinfo, host, port);
            && h[7] == |a| && h[0] <= h[1] <= h[2] <= h[3] <= h[4] <= h[5] <= h[6] <= h[7]
            && a[h[0]..h[1]] == userinfo && a[h[3]..h[4]] == host && a[h[6]..h[7]] == port
  {
  }

  lemma {:induction false} ServerAccepted(userinfo: string, host: string, port: string)
    requires Servable(userinfo, host, port)
    ensures var c := CutHost(ServerOf(userinfo, host, port), userinfo != []);
            HostEnds(c.state) && c.bounds == ServerEnds(userinfo, host, port)
  {
    var a := ServerOf(userinfo, host, port);
    assert a[..|a|] == a;
    CutterIsHost();
    var c := ServerIsCutUp(HostCutter(), userinfo, host, port);
  }
}
