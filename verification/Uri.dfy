/** Uri: made from a URL text, and printed. */
module Uris {
  import opened Ascii
  import opened UrlMachine
  import opened Sections
  import opened UrlParser
  import opened UrlFacts

  datatype Uri = Uri(scheme: string, userinfo: string, host: string, port: nat, path: string, query: string,
                     fragment: string) {
    function GetPort(): nat {
      if port != 0 then port
      else if scheme == "http" || scheme == "ws" then 80
      else if scheme == "https" || scheme == "wss" then 443
      else port
    }

    function GetPath(): string { if path == [] then "/" else path }

    predicate IsDefaultPort() {
      if scheme == "http" || scheme == "ws" then port == 80 else if scheme == "https" then port == 443 else false
    }

    // The authority as it is printed.
    function Authority(): string {
      (if userinfo == [] then [] else userinfo + "@") + host + (if IsDefaultPort() then [] else ":" + Digits(port))
    }

    function ToString(): string {
      scheme + "://" + Authority() + GetPath() + (if query == [] then [] else "?" + query) +
      (if fragment == [] then [] else "#" + fragment)
    }
  }

  // std::to_string.
  function Digits(n: nat): string {
    var last := [('0' as int + n % 10) as char];
    if n < 10 then last else Digits(n / 10) + last
  }

  lemma {:induction false} DigitsRoundTrip(n: nat)
    ensures Digits(n) != [] && (forall i :: 0 <= i < |Digits(n)| ==> IsNum(Digits(n)[i])) && Decimal(Digits(n)) == n
  {
    var last := [('0' as int + n % 10) as char];
    if n < 10 {
      assert last[..0] == [];
      assert Decimal(last) == 10 * Decimal([]) + Digit(last[0]);
    } else {
      DigitsRoundTrip(n / 10);
      assert Digits(n)[..|Digits(n)| - 1] == Digits(n / 10);
    }
  }

  function Text(buf: string, f: Option<Field>): string { if f.Some? then Slice(buf, f.value) else [] }

  function DefaultPort(scheme: string): nat {
    if scheme == "http" || scheme == "ws" then 80 else if scheme == "https" then 443 else 0
  }

  // The parts of a URL that was accepted.
  function PartsOf(buf: string, u: Url): Uri {
    var scheme := Text(buf, u.schema);
    Uri(scheme, Text(buf, u.userinfo), Text(buf, u.host), if u.port.Some? then u.portValue else DefaultPort(scheme),
        Text(buf, u.path), Text(buf, u.query), Text(buf, u.fragment))
  }

  function Made(urlstr: string): Option<Uri> {
    match Accept(urlstr, false) case Some(u) => Some(PartsOf(urlstr, u)) case None => None
  }

  // Create: each set field goes into its part; a port that is not there is the scheme's own.
  method Create(urlstr: string) returns (r: Option<Uri>)
    requires |urlstr| < LIMIT
    ensures r == Made(urlstr)
  {
    var p := ParseUrl(urlstr, false);
    if p.None? { return None; }
    var u, uri := p.value, Uri("", "", "", 0, "", "", "");
    if u.schema.Some? { uri := uri.(scheme := Slice(urlstr, u.schema.value)); }
    if u.userinfo.Some? { uri := uri.(userinfo := Slice(urlstr, u.userinfo.value)); }
    if u.host.Some? { uri := uri.(host := Slice(urlstr, u.host.value)); }
    if u.port.Some? {
      PortIsDecimal(urlstr, false, u);
      uri := uri.(port := Decimal(Slice(urlstr, u.port.value)));  // std::stoi
    } else if uri.scheme == "http" || uri.scheme == "ws" {
      uri := uri.(port := 80);
    } else if uri.scheme == "https" {
      uri := uri.(port := 443);
    }
    if u.path.Some? { uri := uri.(path := Slice(urlstr, u.path.value)); }
    if u.query.Some? { uri := uri.(query := Slice(urlstr, u.query.value)); }
    if u.fragment.Some? { uri := uri.(fragment := Slice(urlstr, u.fragment.value)); }
    r := Some(uri);
  }

  // ---------------------------------------------------------------- what the parts are made of

  ghost predicate All(s: string, p: char -> bool) { forall i :: 0 <= i < |s| ==> p(s[i]) }

  predicate IsHostText(ch: char) { IsZoneChar(ch) || ch == ':' }
  predicate IsQueryChar(ch: char) { IsUrlChar(ch) || ch == '?' }
  predicate IsFragmentChar(ch: char) { IsUrlChar(ch) || ch == '?' || ch == '#' }

  ghost predicate PartsOk(u: Uri) {
    && All(u.scheme, IsAlpha) && All(u.userinfo, IsUserinfoChar) && All(u.host, IsHostText) && u.port <= 0xffff
    && All(u.path, IsUrlChar) && (u.scheme != [] ==> u.host != [] && (u.path == [] || u.path[0] == '/'))
    && All(u.query, IsQueryChar) && All(u.fragment, IsFragmentChar) && (u.fragment != [] ==> u.fragment[0] != '#')
  }

  // How the path and the fragment begin.
  ghost predicate Beginnings(text: string, p: nat, s: UrlState, b: Bounds) {
    && |b| == 9 && (s.SpacesBeforeUrl? ==> p == 0) && (s.Path? ==> b[3] < b[4]) && (s.Fragment? ==> b[7] < b[8])
    && (b[3] < b[4] ==> b[3] < |text| && (text[b[3]] == '/' || b[1] == 0))
    && (b[7] < b[8] ==> b[7] < |text| && text[b[7]] != '#')
  }

  lemma {:induction false} BeginningsNext(text: string, p: nat, s: UrlState, b: Bounds)
    requires p < |text| && Fits(b, 8, UrlPart(s), p) && Beginnings(text, p, s, b) &&
             UrlPart(ParseUrlChar(s, text[p])) < 8
    ensures var s' := ParseUrlChar(s, text[p]); Beginnings(text, p + 1, s', Extend(b, UrlPart(s'), p + 1))
  {
    var s' := ParseUrlChar(s, text[p]);
    var k := UrlPart(s');
    UrlLaw(s, text[p]);
    assert b[8] == p && b[1] <= p;
    if k == 3 { assert b[4] == p; }
    if UrlPart(s) < 3 { assert b[3] == p && b[4] == p; }
    if UrlPart(s) < 7 { assert b[7] == p; }
  }

  lemma {:induction false} BeginningsHold(text: string, p: nat)
    requires p <= |text| && !Upto(UrlCutter(), SpacesBeforeUrl, text, p).state.UrlDead?
    ensures Beginnings(text, p, Upto(UrlCutter(), SpacesBeforeUrl, text, p).state,
                       Upto(UrlCutter(), SpacesBeforeUrl, text, p).bounds)
    decreases p
  {
    if p == 0 {
      assert text[..0] == [];
    } else {
      UptoNext(UrlCutter(), SpacesBeforeUrl, text, p - 1);
      UrlLaws();
      UptoAlive(UrlCutter(), UrlKind, SpacesBeforeUrl, text, p - 1, p);
      BeginningsHold(text, p - 1);
      UptoFits(UrlCutter(), UrlKind, SpacesBeforeUrl, text, p - 1);
      var c := Upto(UrlCutter(), SpacesBeforeUrl, text, p - 1);
      BeginningsNext(text, p - 1, c.state, c.bounds);
    }
  }

  // The text of a section has its class.
  lemma {:induction false} SectionAll(text: string, b: Bounds, n: nat, kind: (nat, char) -> bool, k: nat,
                                      p: char -> bool)
    requires Classed(text, b, n, kind) && k < n && b[k] <= b[k + 1] <= |text| && forall ch :: kind(k, ch) ==> p(ch)
    ensures All(text[b[k]..b[k + 1]], p)
  {
    var s := text[b[k]..b[k + 1]];
    forall i | 0 <= i < |s| ensures p(s[i]) {
      assert ClassedAt(text, b, kind, k, b[k] + i);
    }
  }

  lemma {:induction false} SubText(t: string, base: nat, a: string, lo: nat, hi: nat)
    requires base + |a| <= |t| && t[base..base + |a|] == a && lo <= hi <= |a|
    ensures t[base + lo..base + hi] == a[lo..hi]
  {
    var x, y := t[base + lo..base + hi], a[lo..hi];
    forall i | 0 <= i < |y| ensures x[i] == y[i] { assert t[base..base + |a|][lo + i] == a[lo + i]; }
  }

  lemma {:induction false} TextOf(buf: string, b: Bounds, k: nat, base: nat)
    requires k + 1 < |b| && b[k] <= b[k + 1] && base + b[k + 1] <= |buf|
    ensures Text(buf, Plain(b, k, base)) == buf[base + b[k]..base + b[k + 1]]
  {
  }

  lemma {:induction false} PartsAreOk(buf: string, u: Url)
    requires |buf| < LIMIT && Accept(buf, false) == Some(u)
    ensures PartsOk(PartsOf(buf, u))
  {
    var b, h := CutsOf(buf, false, u);
    SchemeNeedsHost(buf, u);
    CutPartsOk(buf, u, b, h);
  }

  lemma {:induction false} SchemeNeedsHost(buf: string, u: Url)
    requires Accept(buf, false) == Some(u)
    ensures var b := CutUrl(buf, false).bounds; b[0] < b[1] ==> b[2] < b[3]
  {
  }

  lemma {:induction false} CutPartsOk(buf: string, u: Url, b: Bounds, h: Bounds)
    requires Accepted(buf, false, u, b, h) && (b[0] < b[1] ==> b[2] < b[3])
    ensures PartsOk(PartsOf(buf, u))
  {
    PathOk(buf, u, b, h);
    RestOk(buf, u, b, h);
    if b[2] < b[3] { ServerPartsOk(buf, u, b, h); }
  }

  lemma {:induction false} PathOk(buf: string, u: Url, b: Bounds, h: Bounds)
    requires Accepted(buf, false, u, b, h)
    ensures All(Text(buf, u.schema), IsAlpha) && All(Text(buf, u.path), IsUrlChar) &&
            (Text(buf, u.schema) != [] ==> b[0] < b[1])
    ensures Text(buf, u.schema) != [] && Text(buf, u.path) != [] ==> Text(buf, u.path)[0] == '/'
  {
    BeginningsHold(buf, |buf|);
    assert b[0] <= b[1] <= b[8] && b[3] <= b[4] <= b[8];
    SectionAll(buf, b, 8, UrlKind, 0, IsAlpha);
    SectionAll(buf, b, 8, UrlKind, 3, IsUrlChar);
    TextOf(buf, b, 0, 0);
    TextOf(buf, b, 3, 0);
  }

  lemma {:induction false} RestOk(buf: string, u: Url, b: Bounds, h: Bounds)
    requires Accepted(buf, false, u, b, h)
    ensures All(Text(buf, u.query), IsQueryChar) && All(Text(buf, u.fragment), IsFragmentChar)
    ensures Text(buf, u.fragment) != [] ==> Text(buf, u.fragment)[0] != '#'
  {
    BeginningsHold(buf, |buf|);
    assert b[5] <= b[6] <= b[8] && b[7] <= b[8];
    SectionAll(buf, b, 8, UrlKind, 5, IsQueryChar);
    SectionAll(buf, b, 8, UrlKind, 7, IsFragmentChar);
    TextOf(buf, b, 5, 0);
    TextOf(buf, b, 7, 0);
  }

  lemma {:induction false} ServerPartsOk(buf: string, u: Url, b: Bounds, h: Bounds)
    requires Accepted(buf, false, u, b, h) && b[2] < b[3]
    ensures All(Text(buf, u.userinfo), IsUserinfoChar) && All(Text(buf, u.host), IsHostText) && Text(buf, u.host) != []
  {
    var text := buf[b[2]..b[3]];
    assert h[0] <= h[1] <= h[3] <= h[4] <= h[7] == |text|;
    SectionText(buf, b[2], text, h, 0, IsUserinfoChar);
    SectionText(buf, b[2], text, h, 3, IsHostText);
  }

  // The same for a section of the server section.
  lemma {:induction false} SectionText(buf: string, base: nat, text: string, h: Bounds, k: nat, p: char -> bool)
    requires base + |text| <= |buf| && text == buf[base..base + |text|] && Classed(text, h, 7, HostKind)
    requires k < 7 && h[k] <= h[k + 1] <= |text| && forall ch :: HostKind(k, ch) ==> p(ch)
    ensures All(Text(buf, Plain(h, k, base)), p) && |Text(buf, Plain(h, k, base))| == h[k + 1] - h[k]
  {
    SectionAll(text, h, 7, HostKind, k, p);
    TextOf(buf, h, k, base);
    SubText(buf, base, text, h[k], h[k + 1]);
  }
}
