/** http_parser_parse_url and http_parse_host. */
module UrlParser {
  import opened Ascii
  import opened UrlMachine
  import opened Sections

  // ---------------------------------------------------------------- the two machines as cutters

  // 0 scheme, 1 "://", 2 server, 3 path, 4 '?', 5 query, 6 '#', 7 fragment.
  function UrlPart(s: UrlState): nat {
    match s
    case SpacesBeforeUrl => 0 case Schema => 0
    case SchemaSlash => 1 case SchemaSlashSlash => 1 case ServerStart => 1
    case Server => 2 case ServerWithAt => 2
    case Path => 3 case QueryStart => 4 case Query => 5 case FragmentStart => 6 case Fragment => 7
    case UrlDead => 8
  }

  predicate IsServerChar(ch: char) { IsUserinfoChar(ch) || ch == '[' || ch == ']' || ch == '@' }

  predicate UrlKind(k: nat, ch: char) {
    match k
    case 0 => IsAlpha(ch)
    case 1 => ch == ':' || ch == '/'
    case 2 => IsServerChar(ch)
    case 3 => IsUrlChar(ch)
    case 4 => ch == '?'
    case 5 => IsUrlChar(ch) || ch == '?'
    case 6 => ch == '#'
    case _ => IsUrlChar(ch) || ch == '?' || ch == '#'
  }

  function UrlCutter(): Machine<UrlState> { Machine(ParseUrlChar, UrlPart, 8) }

  lemma {:induction false} UrlLaws()
    ensures Laws(UrlCutter(), UrlKind)
  {
    forall s: UrlState, ch: char ensures Law(UrlCutter(), UrlKind, s, ch) { UrlLaw(s, ch); }
  }

  lemma {:induction false} UrlLaw(s: UrlState, ch: char)
    ensures var k := UrlPart(ParseUrlChar(s, ch));
            UrlPart(s) <= k <= 8 && (k < 8 ==> UrlKind(k, ch))
  {
  }

  datatype HostState =
    | UserinfoStart | Userinfo | HostStart | Host | V6Start | V6 | V6End | ZoneStart | Zone | PortStart | Port
    | HostDead

  predicate IsZoneChar(ch: char) { IsAlphaNum(ch) || ch == '%' || ch == '.' || ch == '-' || ch == '_' || ch == '~' }

  function ParseHostChar(s: HostState, ch: char): HostState {
    match s
    case Userinfo => UserinfoChar(ch)
    case UserinfoStart => UserinfoChar(ch)
    case HostStart => if ch == '[' then V6Start else if IsHostChar(ch) then Host else HostDead
    case Host => if IsHostChar(ch) then Host else if ch == ':' then PortStart else HostDead
    case V6End => if ch == ':' then PortStart else HostDead
    case V6 =>
      if ch == ']' then V6End
      else if IsHex(ch) || ch == ':' || ch == '.' then V6
      else if ch == '%' then ZoneStart
      else HostDead
    case V6Start => if IsHex(ch) || ch == ':' || ch == '.' then V6 else HostDead
    case Zone => if ch == ']' then V6End else if IsZoneChar(ch) then Zone else HostDead
    case ZoneStart => if IsZoneChar(ch) then Zone else HostDead
    case Port => if IsNum(ch) then Port else HostDead
    case PortStart => if IsNum(ch) then Port else HostDead
    case HostDead => HostDead
  }

  function UserinfoChar(ch: char): HostState {
    if ch == '@' then HostStart else if IsUserinfoChar(ch) then Userinfo else HostDead
  }

  // 0 user information, 1 '@', 2 '[', 3 host, 4 ']', 5 ':', 6 port.
  function HostPart(s: HostState): nat {
    match s
    case UserinfoStart => 0 case Userinfo => 0 case HostStart => 1 case V6Start => 2
    case Host => 3 case V6 => 3 case ZoneStart => 3 case Zone => 3
    case V6End => 4 case PortStart => 5 case Port => 6
    case HostDead => 7
  }

  predicate HostKind(k: nat, ch: char) {
    match k
    case 0 => IsUserinfoChar(ch)
    case 1 => ch == '@'
    case 2 => ch == '['
    case 3 => IsZoneChar(ch) || ch == ':'
    case 4 => ch == ']'
    case 5 => ch == ':'
    case _ => IsNum(ch)
  }

  function HostCutter(): Machine<HostState> { Machine(ParseHostChar, HostPart, 7) }

  lemma {:induction false} HostLaws()
    ensures Laws(HostCutter(), HostKind)
  {
    forall s: HostState, ch: char ensures Law(HostCutter(), HostKind, s, ch) { HostLaw(s, ch); }
  }

  lemma {:induction false} HostLaw(s: HostState, ch: char)
    ensures var k := HostPart(ParseHostChar(s, ch));
            HostPart(s) <= k <= 7 && (k < 7 ==> HostKind(k, ch))
  {
  }

  // ---------------------------------------------------------------- the result

  const LIMIT: nat := 65536  // offsets and lengths are uint16_t

  datatype Field = Field(off: nat, len: nat)

  // A field that is Some is one whose bit is set in field_set.
  datatype Url = Url(schema: Option<Field>, host: Option<Field>, port: Option<Field>, path: Option<Field>,
                     query: Option<Field>, fragment: Option<Field>, userinfo: Option<Field>, portValue: nat)

  const EMPTY: Url := Url(None, None, None, None, None, None, None, 0)

  // Section `k`, from `base` on, as a field.
  function FieldOf(b: Bounds, k: nat, base: nat): Option<Field>
    requires k + 1 < |b|
  {
    if b[k] < b[k + 1] then Some(Field((base + b[k]) % LIMIT, (b[k + 1] - b[k]) % LIMIT)) else None
  }

  function UrlFields(b: Bounds): Url
    requires |b| == 9
  {
    EMPTY.(schema := FieldOf(b, 0, 0), host := FieldOf(b, 2, 0), path := FieldOf(b, 3, 0), query := FieldOf(b, 5, 0),
           fragment := FieldOf(b, 7, 0))
  }

  function HostFields(u: Url, b: Bounds, base: nat): Url
    requires |b| == 8
  {
    u.(userinfo := FieldOf(b, 0, base), host := FieldOf(b, 3, base), port := FieldOf(b, 6, base))
  }

  function Start(isConnect: bool): UrlState { if isConnect then ServerStart else SpacesBeforeUrl }

  function HostStartOf(foundAt: bool): HostState { if foundAt then UserinfoStart else HostStart }

  // The states in which an authority may end.
  predicate HostEnds(s: HostState) { s.Host? || s.V6End? || s.Port? }

  function Slice(buf: string, f: Field): string {
    if f.off + f.len <= |buf| then buf[f.off..f.off + f.len] else []
  }

  function CutUrl(buf: string, isConnect: bool): (c: Cut<UrlState>)
    ensures |c.bounds| == 9
  {
    Upto(UrlCutter(), Start(isConnect), buf, |buf|)
  }

  predicate HasAt(buf: string, b: Bounds)
    requires |b| == 9
  {
    b[2] <= b[3] <= |buf| && '@' in buf[b[2]..b[3]]
  }

  function CutHost(text: string, foundAt: bool): (c: Cut<HostState>)
    ensures |c.bounds| == 8
  {
    Upto(HostCutter(), HostStartOf(foundAt), text, |text|)
  }

  // What http_parse_host makes of the server section.
  function AcceptHost(buf: string, u: Url, f: Field, foundAt: bool): Option<Url> {
    var c := CutHost(Slice(buf, f), foundAt);
    if HostEnds(c.state) then Some(HostFields(u, c.bounds, f.off)) else None
  }

  function AcceptPort(buf: string, u: Url): Option<Url> {
    match u.port
    case None => Some(u)
    case Some(f) => if Decimal(Slice(buf, f)) > 0xffff then None else Some(u.(portValue := Decimal(Slice(buf, f))))
  }

  // A CONNECT target has a host, a port and nothing else.
  predicate HostAndPort(u: Url) {
    u.host.Some? && u.port.Some? && u.schema.None? && u.path.None? && u.query.None? && u.fragment.None? &&
    u.userinfo.None?
  }

  function AcceptServer(buf: string, isConnect: bool, u: Url): Option<Url> {
    if isConnect && !HostAndPort(u) then None else AcceptPort(buf, u)
  }

  // The whole of it: what is accepted, and as what.
  function Accept(buf: string, isConnect: bool): Option<Url> {
    var c := CutUrl(buf, isConnect);
    if buf == [] || c.state.UrlDead? then None
    else
      var u := UrlFields(c.bounds);
      match u.host
      case None => if u.schema.Some? then None else AcceptServer(buf, isConnect, u)
      case Some(f) =>
        match AcceptHost(buf, u, f, HasAt(buf, c.bounds))
        case None => None
        case Some(v) => AcceptServer(buf, isConnect, v)
  }

  // ---------------------------------------------------------------- the loops

  // Fields by the number of their section.
  predicate IsField(k: nat) { k == 0 || k == 2 || k == 3 || k == 5 || k == 7 }

  function Get(u: Url, k: nat): Option<Field> {
    match k case 0 => u.schema case 2 => u.host case 3 => u.path case 5 => u.query case _ => u.fragment
  }

  function Set(u: Url, k: nat, f: Field): Url {
    match k
    case 0 => u.(schema := Some(f)) case 2 => u.(host := Some(f)) case 3 => u.(path := Some(f))
    case 5 => u.(query := Some(f)) case _ => u.(fragment := Some(f))
  }

  // The field last worked on is the one whose section is not empty, of those that may still grow.
  ghost predicate Current(b: Bounds, part: nat, prev: nat) {
    |b| == 9 && forall k :: part <= k < 8 && IsField(k) ==> (prev == k <==> b[k] < b[k + 1])
  }

  // One octet of section `k` at `p`.
  function Grown(u: Url, k: nat, prev: nat, p: nat): Url {
    if k == prev then
      match Get(u, k) case Some(f) => Set(u, k, Field(f.off, (f.len + 1) % LIMIT)) case None => u
    else Set(u, k, Field(p % LIMIT, 1))
  }

  lemma {:induction false} ModNext(n: nat)
    ensures (n % LIMIT + 1) % LIMIT == (n + 1) % LIMIT
  {
  }

  lemma {:induction false} FieldGrows(b: Bounds, n: nat, part: nat, k: nat, p: nat, j: nat, base: nat)
    requires Fits(b, n, part, p) && part <= k < n && j < n
    ensures FieldOf(Extend(b, k, p + 1), j, base) ==
            if j != k then FieldOf(b, j, base)
            else if b[k] < b[k + 1] then Some(Field((base + b[k]) % LIMIT, ((b[k + 1] - b[k]) % LIMIT + 1) % LIMIT))
            else Some(Field((base + p) % LIMIT, 1))
  {
    assert b[k + 1] == p && b[k] <= p;
    ModNext(p - b[k]);
  }

  lemma {:induction false} GrownIs(b: Bounds, part: nat, k: nat, prev: nat, p: nat)
    requires Fits(b, 8, part, p) && part <= k < 8 && IsField(k) && Current(b, part, prev)
    ensures UrlFields(Extend(b, k, p + 1)) == Grown(UrlFields(b), k, prev, p)
  {
    FieldGrows(b, 8, part, k, p, 0, 0);
    FieldGrows(b, 8, part, k, p, 2, 0);
    FieldGrows(b, 8, part, k, p, 3, 0);
    FieldGrows(b, 8, part, k, p, 5, 0);
    FieldGrows(b, 8, part, k, p, 7, 0);
    var v := UrlFields(Extend(b, k, p + 1));
    assert prev == k <==> b[k] < b[k + 1];
    assert v == Grown(UrlFields(b), k, prev, p);
  }

  lemma {:induction false} CurrentNext(b: Bounds, part: nat, k: nat, prev: nat, p: nat)
    requires Fits(b, 8, part, p) && part <= k < 8 && Current(b, part, prev)
    ensures Current(Extend(b, k, p + 1), k, if IsField(k) then k else prev)
  {
    var b' := Extend(b, k, p + 1);
    forall j | k < j < 8 && IsField(j) ensures prev != j && b'[j] == b'[j + 1] {
      assert b[j] == p == b[j + 1];
    }
    assert b[k] <= p;
  }

  // An octet that belongs to no field leaves the fields alone.
  lemma {:induction false} DelimiterIs(b: Bounds, part: nat, k: nat, p: nat)
    requires Fits(b, 8, part, p) && part <= k < 8 && !IsField(k)
    ensures UrlFields(Extend(b, k, p + 1)) == UrlFields(b)
  {
    FieldGrows(b, 8, part, k, p, 0, 0);
    FieldGrows(b, 8, part, k, p, 2, 0);
    FieldGrows(b, 8, part, k, p, 3, 0);
    FieldGrows(b, 8, part, k, p, 5, 0);
    FieldGrows(b, 8, part, k, p, 7, 0);
  }

  lemma {:induction false} AtNext(buf: string, b: Bounds, part: nat, k: nat, p: nat)
    requires p < |buf| && Fits(b, 8, part, p) && part <= k < 8
    ensures HasAt(buf, Extend(b, k, p + 1)) <==> HasAt(buf, b) || (k == 2 && buf[p] == '@')
  {
    var b' := Extend(b, k, p + 1);
    assert b[2] <= b[3] <= p;
    if k == 2 {
      assert b[3] == p;
      assert buf[b[2]..p + 1] == buf[b[2]..p] + [buf[p]];
    } else if k < 2 {
      assert b[2] == b[3] && b'[2] == b'[3];
    } else {
      assert b'[2] == b[2] && b'[3] == b[3];
    }
  }

  // The state of the loop over the URL after `p` octets.
  ghost predicate Scanning(buf: string, isConnect: bool, p: nat, s: UrlState, u: Url, prev: nat, foundAt: bool) {
    p <= |buf| && (IsField(prev) ==> Get(u, prev).Some?) &&
    var c := Upto(UrlCutter(), Start(isConnect), buf, p);
    c.state == s && UrlPart(s) < 8 && Fits(c.bounds, 8, UrlPart(s), p) && u == UrlFields(c.bounds) &&
    Current(c.bounds, UrlPart(s), prev) && foundAt == HasAt(buf, c.bounds)
  }

  lemma {:induction false} ScanStarts(buf: string, isConnect: bool)
    ensures Scanning(buf, isConnect, 0, Start(isConnect), EMPTY, 8, false)
  {
    assert buf[..0] == [];
  }

  lemma {:induction false} ScanStep(buf: string, isConnect: bool, p: nat, s: UrlState, u: Url, prev: nat, foundAt: bool)
    requires Scanning(buf, isConnect, p, s, u, prev, foundAt) && p < |buf|
    ensures var s' := ParseUrlChar(s, buf[p]); var k := UrlPart(s');
            s' == Upto(UrlCutter(), Start(isConnect), buf, p + 1).state &&
            (k < 8 ==> Scanning(buf, isConnect, p + 1, s', if IsField(k) then Grown(u, k, prev, p) else u,
                                if IsField(k) then k else prev, foundAt || s'.ServerWithAt?))
  {
    var s' := ParseUrlChar(s, buf[p]);
    var c, k := Upto(UrlCutter(), Start(isConnect), buf, p), UrlPart(s');
    UptoNext(UrlCutter(), Start(isConnect), buf, p);
    UrlLaw(s, buf[p]);
    if k < 8 {
      FitsNext(c.bounds, UrlPart(s), k, p);
      if IsField(k) { GrownIs(c.bounds, UrlPart(s), k, prev, p); } else { DelimiterIs(c.bounds, UrlPart(s), k, p); }
      CurrentNext(c.bounds, UrlPart(s), k, prev, p);
      AtNext(buf, c.bounds, UrlPart(s), k, p);
    }
  }

  lemma {:induction false} FitsNext(b: Bounds, part: nat, k: nat, p: nat)
    requires Fits(b, 8, part, p) && part <= k < 8
    ensures Fits(Extend(b, k, p + 1), 8, k, p + 1)
  {
  }

  datatype Scan = Scan(u: Url, foundAt: bool)

  // The loop over the URL; None: an octet led nowhere.
  method ScanUrl(buf: string, isConnect: bool) returns (r: Option<Scan>)
    ensures var c := CutUrl(buf, isConnect);
            r == if c.state.UrlDead? then None else Some(Scan(UrlFields(c.bounds), HasAt(buf, c.bounds)))
  {
    var s, u, foundAt := Start(isConnect), EMPTY, false;
    var prev: nat := 8;
    ScanStarts(buf, isConnect);
    for p := 0 to |buf|
      invariant Scanning(buf, isConnect, p, s, u, prev, foundAt)
    {
      s, u, prev, foundAt := ScanOne(buf, isConnect, p, s, u, prev, foundAt);
      if s.UrlDead? {
        StaysDead(buf, isConnect, p + 1);
        return None;
      }
    }
    assert buf[..|buf|] == buf;
    r := Some(Scan(u, foundAt));
  }

  // One round of the loop.
  method ScanOne(buf: string, isConnect: bool, p: nat, s: UrlState, u: Url, prev: nat, foundAt: bool)
    returns (s': UrlState, u': Url, prev': nat, foundAt': bool)
    requires p < |buf| && Scanning(buf, isConnect, p, s, u, prev, foundAt)
    ensures s' == Upto(UrlCutter(), Start(isConnect), buf, p + 1).state
    ensures !s'.UrlDead? ==> Scanning(buf, isConnect, p + 1, s', u', prev', foundAt')
  {
    ScanStep(buf, isConnect, p, s, u, prev, foundAt);
    NeverBack(s, buf[p]);
    s', u', prev', foundAt' := ParseUrlChar(s, buf[p]), u, prev, foundAt;
    if s'.UrlDead? { return; }
    var skip, uf, at := FieldOfState(s');
    foundAt' := foundAt || at;
    if skip { return; }
    u' := Touch(u, uf, prev, p);
    prev' := uf;
  }

  // No octet leads back to the first state, so the switch never meets an unexpected one.
  lemma {:induction false} NeverBack(s: UrlState, ch: char)
    ensures !ParseUrlChar(s, ch).SpacesBeforeUrl?
  {
  }

  // The switch on the state: delimiters are skipped.
  method FieldOfState(s: UrlState) returns (skip: bool, uf: nat, at: bool)
    requires !s.UrlDead? && !s.SpacesBeforeUrl?
    ensures skip == !IsField(UrlPart(s)) && (!skip ==> uf == UrlPart(s)) && at == s.ServerWithAt?
  {
    skip, uf, at := false, 8, false;
    match s
    case SchemaSlash => skip := true;
    case SchemaSlashSlash => skip := true;
    case ServerStart => skip := true;
    case QueryStart => skip := true;
    case FragmentStart => skip := true;
    case Schema => uf := 0;
    case ServerWithAt =>
      at := true;
      uf := 2;
    case Server => uf := 2;
    case Path => uf := 3;
    case Query => uf := 5;
    case Fragment => uf := 7;
  }

  // The field that is worked on gets longer; another is begun.
  method Touch(u: Url, uf: nat, prev: nat, p: nat) returns (r: Url)
    requires uf == prev ==> Get(u, uf).Some?
    ensures r == Grown(u, uf, prev, p)
  {
    if uf == prev {
      var f := Get(u, uf).value;
      r := Set(u, uf, Field(f.off, (f.len + 1) % LIMIT));
    } else {
      r := Set(u, uf, Field(p % LIMIT, 1));
    }
  }

  lemma {:induction false} StaysDead(buf: string, isConnect: bool, p: nat)
    requires p <= |buf| && Upto(UrlCutter(), Start(isConnect), buf, p).state.UrlDead?
    ensures CutUrl(buf, isConnect).state.UrlDead?
    decreases |buf| - p
  {
    if p < |buf| {
      UptoNext(UrlCutter(), Start(isConnect), buf, p);
      StaysDead(buf, isConnect, p + 1);
    }
  }

  // ---------------------------------------------------------------- the host

  // The state of the loop over the server section after `i` octets of it.
  ghost predicate HostScanning(text: string, foundAt: bool, i: nat, s: HostState, u0: Url, u: Url, base: nat) {
    i <= |text| &&
    var c := Upto(HostCutter(), HostStartOf(foundAt), text, i);
    c.state == s && HostPart(s) < 7 && Fits(c.bounds, 7, HostPart(s), i) && Filled(c.bounds, s) &&
    u == HostSoFar(u0, c.bounds, base)
  }

  // The section of a state that an octet has led to is not empty.
  ghost predicate Filled(b: Bounds, s: HostState) {
    |b| == 8 && (3 <= HostPart(s) < 7 ==> b[3] < b[4]) && (s.Port? ==> b[6] < b[7]) &&
    (s.Userinfo? <==> b[0] < b[1] && HostPart(s) == 0)
  }

  // As long as no octet of the host has come its field is empty but set.
  function HostSoFar(u: Url, b: Bounds, base: nat): Url
    requires |b| == 8
  {
    u.(userinfo := FieldOf(b, 0, base), port := FieldOf(b, 6, base),
       host := if b[3] < b[4] then FieldOf(b, 3, base) else Some(Field(base, 0)))
  }

  // A field begun at `p` or made longer.
  function Counted(f: Option<Field>, begin: bool, p: nat): Option<Field> {
    if begin then Some(Field(p % LIMIT, 1))
    else match f case Some(x) => Some(Field(x.off, (x.len + 1) % LIMIT)) case None => None
  }

  function HostTouched(u: Url, s: HostState, s': HostState, p: nat): Url {
    match HostPart(s')
    case 0 => u.(userinfo := Counted(u.userinfo, s != s', p))
    case 3 => u.(host := Counted(u.host, HostPart(s) != 3, p))
    case 6 => u.(port := Counted(u.port, s != s', p))
    case _ => u
  }

  lemma {:induction false} HostSoFarNext(u0: Url, b: Bounds, s: HostState, ch: char, i: nat, base: nat)
    requires Fits(b, 7, HostPart(s), i) && Filled(b, s) && HostPart(ParseHostChar(s, ch)) < 7
    ensures var s' := ParseHostChar(s, ch); var b' := Extend(b, HostPart(s'), i + 1);
            HostSoFar(u0, b', base) == HostTouched(HostSoFar(u0, b, base), s, s', base + i) && Filled(b', s')
  {
    var s' := ParseHostChar(s, ch);
    var k := HostPart(s');
    HostLaw(s, ch);
    FieldGrows(b, 7, HostPart(s), k, i, 0, base);
    FieldGrows(b, 7, HostPart(s), k, i, 3, base);
    FieldGrows(b, 7, HostPart(s), k, i, 6, base);
  }

  lemma {:induction false} HostStep(text: string, foundAt: bool, i: nat, s: HostState, u0: Url, u: Url, base: nat)
    requires HostScanning(text, foundAt, i, s, u0, u, base) && i < |text|
    ensures var s' := ParseHostChar(s, text[i]);
            s' == Upto(HostCutter(), HostStartOf(foundAt), text, i + 1).state &&
            (!s'.HostDead? ==> HostScanning(text, foundAt, i + 1, s', u0, HostTouched(u, s, s', base + i), base))
  {
    var s', c := ParseHostChar(s, text[i]), Upto(HostCutter(), HostStartOf(foundAt), text, i);
    UptoNext(HostCutter(), HostStartOf(foundAt), text, i);
    HostLaw(s, text[i]);
    if !s'.HostDead? {
      HostFitsNext(c.bounds, HostPart(s), HostPart(s'), i);
      HostSoFarNext(u0, c.bounds, s, text[i], i, base);
    }
  }

  lemma {:induction false} HostFitsNext(b: Bounds, part: nat, k: nat, p: nat)
    requires Fits(b, 7, part, p) && part <= k < 7
    ensures Fits(Extend(b, k, p + 1), 7, k, p + 1)
  {
  }

  lemma {:induction false} HostStaysDead(text: string, foundAt: bool, p: nat)
    requires p <= |text| && Upto(HostCutter(), HostStartOf(foundAt), text, p).state.HostDead?
    ensures CutHost(text, foundAt).state.HostDead?
    decreases |text| - p
  {
    if p < |text| {
      UptoNext(HostCutter(), HostStartOf(foundAt), text, p);
      HostStaysDead(text, foundAt, p + 1);
    }
  }

  // The switch on the new state in http_parse_host, at position `p` of the buffer.
  method TouchHost(u: Url, s: HostState, s': HostState, p: nat) returns (r: Url)
    requires u.host.Some? && (s'.Port? && s == s' ==> u.port.Some?) && (s'.Userinfo? && s == s' ==> u.userinfo.Some?)
    requires HostPart(s') == 3 && HostPart(s) != 3 ==> u.host.value.len == 0 && (s'.Host? || s'.V6?)
    requires s'.Host? ==> s.Host? || HostPart(s) != 3
    requires s'.V6? ==> s.V6? || HostPart(s) != 3
    requires s' != HostDead && (HostPart(s') == 0 ==> s'.Userinfo?)
    ensures r == HostTouched(u, s, s', p)
  {
    r := u;
    match s'
    case Host =>
      if s != Host { r := r.(host := Some(Field(p % LIMIT, r.host.value.len))); }
      r := r.(host := Some(Field(r.host.value.off, (r.host.value.len + 1) % LIMIT)));
    case V6 =>
      if s != V6 { r := r.(host := Some(Field(p % LIMIT, r.host.value.len))); }
      r := r.(host := Some(Field(r.host.value.off, (r.host.value.len + 1) % LIMIT)));
    case ZoneStart => r := r.(host := Some(Field(r.host.value.off, (r.host.value.len + 1) % LIMIT)));
    case Zone => r := r.(host := Some(Field(r.host.value.off, (r.host.value.len + 1) % LIMIT)));
    case Port =>
      if s != Port { r := r.(port := Some(Field(p % LIMIT, 0))); }
      r := r.(port := Some(Field(r.port.value.off, (r.port.value.len + 1) % LIMIT)));
    case Userinfo =>
      if s != Userinfo { r := r.(userinfo := Some(Field(p % LIMIT, 0))); }
      r := r.(userinfo := Some(Field(r.userinfo.value.off, (r.userinfo.value.len + 1) % LIMIT)));
    case _ =>
  }

  // One round of the loop over the server section.
  method HostOne(text: string, foundAt: bool, i: nat, s: HostState, ghost u0: Url, u: Url, base: nat)
    returns (s': HostState, u': Url)
    requires i < |text| && HostScanning(text, foundAt, i, s, u0, u, base)
    ensures s' == Upto(HostCutter(), HostStartOf(foundAt), text, i + 1).state
    ensures !s'.HostDead? ==> HostScanning(text, foundAt, i + 1, s', u0, u', base)
  {
    HostStep(text, foundAt, i, s, u0, u, base);
    s', u' := ParseHostChar(s, text[i]), u;
    if s'.HostDead? { return; }
    TouchFits(u0, Upto(HostCutter(), HostStartOf(foundAt), text, i).bounds, s, text[i], base);
    u' := TouchHost(u, s, s', base + i);
  }

  lemma {:induction false} TouchFits(u0: Url, b: Bounds, s: HostState, ch: char, base: nat)
    requires Filled(b, s) && (HostPart(s) < 3 ==> b[3] == b[4])
    ensures var s' := ParseHostChar(s, ch); var u := HostSoFar(u0, b, base);
            && u.host.Some? && (s'.Port? && s == s' ==> u.port.Some?) && (s'.Userinfo? && s == s' ==> u.userinfo.Some?)
            && (HostPart(s') == 3 && HostPart(s) != 3 ==> u.host.value.len == 0 && (s'.Host? || s'.V6?))
            && (s'.Host? ==> s.Host? || HostPart(s) != 3) && (s'.V6? ==> s.V6? || HostPart(s) != 3)
            && (HostPart(s') == 0 ==> s'.Userinfo?)
  {
    HostLaw(s, ch);
  }

  lemma {:induction false} HostScanStarts(text: string, foundAt: bool, u: Url, base: nat)
    requires u.port.None? && u.userinfo.None?
    ensures HostScanning(text, foundAt, 0, HostStartOf(foundAt), u, u.(host := Some(Field(base, 0))), base)
  {
    assert text[..0] == [];
  }

  // The loop over the server section, and the look at the state it ends in.
  method ParseHost(buf: string, u: Url, f: Field, foundAt: bool) returns (r: Option<Url>)
    requires u.host == Some(f) && u.port.None? && u.userinfo.None? && f.off + f.len <= |buf|
    ensures r == AcceptHost(buf, u, f, foundAt)
  {
    var text := Slice(buf, f);
    var s, v := HostStartOf(foundAt), u.(host := Some(Field(f.off, 0)));
    HostScanStarts(text, foundAt, u, f.off);
    for i := 0 to |text|
      invariant HostScanning(text, foundAt, i, s, u, v, f.off)
    {
      s, v := HostOne(text, foundAt, i, s, u, v, f.off);
      if s.HostDead? {
        HostStaysDead(text, foundAt, i + 1);
        return None;
      }
    }
    assert text[..|text|] == text;
    r := if HostEnds(s) then Some(v) else None;
  }

  // ---------------------------------------------------------------- the port, and the whole

  // The digits are added up until they pass 2^16 - 1.
  method ParsePort(buf: string, f: Field) returns (v: Option<nat>)
    ensures v == if Decimal(Slice(buf, f)) > 0xffff then None else Some(Decimal(Slice(buf, f)))
  {
    var digits, sum := Slice(buf, f), 0;
    for i := 0 to |digits|
      invariant sum == Decimal(digits[..i]) <= 0xffff
    {
      assert digits[..i + 1][..i] == digits[..i];
      sum := sum * 10 + Digit(digits[i]);
      if sum > 0xffff {
        DecimalGrows(digits, i + 1);
        return None;
      }
    }
    assert digits[..|digits|] == digits;
    v := Some(sum);
  }

  lemma {:induction false} DecimalGrows(s: string, i: nat)
    requires i <= |s|
    ensures Decimal(s[..i]) <= Decimal(s)
    decreases |s|
  {
    if i == |s| {
      assert s[..i] == s;
    } else {
      assert s[..|s| - 1][..i] == s[..i];
      DecimalGrows(s[..|s| - 1], i);
    }
  }

  // The server section lies in the buffer, also when its place was cut to 16 bits.
  lemma {:induction false} HostInside(buf: string, isConnect: bool)
    requires !CutUrl(buf, isConnect).state.UrlDead? && UrlFields(CutUrl(buf, isConnect).bounds).host.Some?
    ensures var f := UrlFields(CutUrl(buf, isConnect).bounds).host.value; f.off + f.len <= |buf|
  {
    var b := CutUrl(buf, isConnect).bounds;
    UrlLaws();
    UptoFits(UrlCutter(), UrlKind, Start(isConnect), buf, |buf|);
    assert b[3] <= |buf|;
    ModAtMost(b[2]);
    ModAtMost(b[3] - b[2]);
  }

  lemma {:induction false} ModAtMost(n: nat)
    ensures n % LIMIT <= n
  {
  }

  method ParseUrl(buf: string, isConnect: bool) returns (r: Option<Url>)
    ensures r == Accept(buf, isConnect)
  {
    if |buf| == 0 { return None; }
    var scan := ScanUrl(buf, isConnect);
    if scan.None? { return None; }
    var u := scan.value.u;
    if u.schema.Some? && u.host.None? { return None; }
    if u.host.Some? {
      HostInside(buf, isConnect);
      var h := ParseHost(buf, u, u.host.value, scan.value.foundAt);
      if h.None? { return None; }
      u := h.value;
    }
    if isConnect && !HostAndPort(u) { return None; }
    if u.port.Some? {
      var v := ParsePort(buf, u.port.value);
      if v.None? { return None; }
      u := u.(portValue := v.value);
    }
    r := Some(u);
  }
}
