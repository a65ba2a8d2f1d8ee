/** What holds of every URL that the parser accepts. */
module UrlFacts {
  import opened Ascii
  import opened Sections
  import opened UrlParser

  // The fields in the order in which they stand in a URL.
  function InOrder(u: Url): seq<Option<Field>> {
    [u.schema, u.userinfo, u.host, u.port, u.path, u.query, u.fragment]
  }

  predicate Covers(f: Option<Field>, i: nat) { f.Some? && f.value.off <= i < f.value.off + f.value.len }

  predicate IsDelimiter(ch: char) {
    ch == ':' || ch == '/' || ch == '@' || ch == '[' || ch == ']' || ch == '?' || ch == '#'
  }

  // The cuts behind an accepted URL: those of the URL and those of its server section.
  ghost predicate Accepted(buf: string, isConnect: bool, u: Url, b: Bounds, h: Bounds) {
    && |buf| < LIMIT && !CutUrl(buf, isConnect).state.UrlDead?
    && b == CutUrl(buf, isConnect).bounds && |h| == 8
    && Fits(b, 8, UrlPart(CutUrl(buf, isConnect).state), |buf|) && Classed(buf, b, 8, UrlKind) && b[8] == |buf|
    && (b[2] < b[3] ==> ServerCut(buf[b[2]..b[3]], HasAt(buf, b), h))
    && u.schema == Plain(b, 0, 0) && u.path == Plain(b, 3, 0) && u.query == Plain(b, 5, 0) &&
       u.fragment == Plain(b, 7, 0)
    && u.userinfo == (if b[2] < b[3] then Plain(h, 0, b[2]) else None)
    && u.host == (if b[2] < b[3] then Plain(h, 3, b[2]) else None)
    && u.port == (if b[2] < b[3] then Plain(h, 6, b[2]) else None)
    && u.portValue == (if u.port.Some? then Decimal(Slice(buf, u.port.value)) else 0) <= 0xffff
  }

  // Section `k` as a field, without the cut to 16 bits.
  function Plain(b: Bounds, k: nat, base: nat): Option<Field>
    requires k + 1 < |b|
  {
    if b[k] < b[k + 1] then Some(Field(base + b[k], b[k + 1] - b[k])) else None
  }

  ghost predicate ServerCut(text: string, foundAt: bool, h: Bounds) {
    && |h| == 8 && h == CutHost(text, foundAt).bounds && HostEnds(CutHost(text, foundAt).state)
    && Fits(h, 7, HostPart(CutHost(text, foundAt).state), |text|) && Classed(text, h, 7, HostKind) && h[7] == |text|
    && h[3] < h[4]
  }

  lemma {:induction false} NoCut(b: Bounds, k: nat, base: nat)
    requires k + 1 < |b| && base + b[k + 1] < LIMIT
    ensures FieldOf(b, k, base) == Plain(b, k, base)
  {
  }

  lemma {:induction false} ServerIsCut(text: string, foundAt: bool) returns (h: Bounds)
    requires HostEnds(CutHost(text, foundAt).state)
    ensures ServerCut(text, foundAt, h)
  {
    var s0 := HostStartOf(foundAt);
    h := CutHost(text, foundAt).bounds;
    HostLaws();
    UptoFits(HostCutter(), HostKind, s0, text, |text|);
    HostFilled(text, foundAt, |text|);
  }

  // A host that an authority ends behind is not empty.
  lemma {:induction false} HostFilled(text: string, foundAt: bool, i: nat)
    requires i <= |text| && !Upto(HostCutter(), HostStartOf(foundAt), text, i).state.HostDead?
    ensures Filled(Upto(HostCutter(), HostStartOf(foundAt), text, i).bounds,
                   Upto(HostCutter(), HostStartOf(foundAt), text, i).state)
    decreases i
  {
    var s0 := HostStartOf(foundAt);
    if i == 0 {
      assert text[..0] == [];
    } else {
      UptoNext(HostCutter(), s0, text, i - 1);
      HostLaws();
      UptoAlive(HostCutter(), HostKind, s0, text, i - 1, i);
      HostFilled(text, foundAt, i - 1);
      UptoFits(HostCutter(), HostKind, s0, text, i - 1);
      var c := Upto(HostCutter(), s0, text, i - 1);
      HostSoFarNext(EMPTY, c.bounds, c.state, text[i - 1], i - 1, 0);
    }
  }

  // The fields of an accepted URL as sections, first those outside the server section.
  lemma {:induction false} UrlSections(buf: string, isConnect: bool, u: Url)
    requires Accept(buf, isConnect) == Some(u)
    ensures var c := CutUrl(buf, isConnect); var b := c.bounds;
            && !c.state.UrlDead? && u.schema == FieldOf(b, 0, 0) && u.path == FieldOf(b, 3, 0)
            && u.query == FieldOf(b, 5, 0) && u.fragment == FieldOf(b, 7, 0)
            && u.portValue == (if u.port.Some? then Decimal(Slice(buf, u.port.value)) else 0) <= 0xffff
  {
  }

  lemma {:induction false} ServerSections(buf: string, isConnect: bool, u: Url)
    requires Accept(buf, isConnect) == Some(u)
    ensures var b := CutUrl(buf, isConnect).bounds;
            match FieldOf(b, 2, 0)
            case None => u.userinfo.None? && u.host.None? && u.port.None?
            case Some(f) =>
              var c := CutHost(Slice(buf, f), HasAt(buf, b));
              && HostEnds(c.state) && u.userinfo == FieldOf(c.bounds, 0, f.off)
              && u.host == FieldOf(c.bounds, 3, f.off) && u.port == FieldOf(c.bounds, 6, f.off)
  {
  }

  lemma {:induction false} CutsOf(buf: string, isConnect: bool, u: Url) returns (b: Bounds, h: Bounds)
    requires |buf| < LIMIT && Accept(buf, isConnect) == Some(u)
    ensures Accepted(buf, isConnect, u, b, h)
  {
    b := CutUrl(buf, isConnect).bounds;
    UrlSections(buf, isConnect, u);
    UrlLaws();
    UptoFits(UrlCutter(), UrlKind, Start(isConnect), buf, |buf|);
    NoCut(b, 0, 0); NoCut(b, 3, 0); NoCut(b, 5, 0); NoCut(b, 7, 0);
    h := ServerCutOf(buf, isConnect, u, b);
  }

  lemma {:induction false} ServerCutOf(buf: string, isConnect: bool, u: Url, b: Bounds) returns (h: Bounds)
    requires |buf| < LIMIT && Accept(buf, isConnect) == Some(u) && b == CutUrl(buf, isConnect).bounds
    requires b[2] <= b[3] <= |buf|
    ensures |h| == 8 && (b[2] < b[3] ==> ServerCut(buf[b[2]..b[3]], HasAt(buf, b), h))
    ensures u.userinfo == (if b[2] < b[3] then Plain(h, 0, b[2]) else None)
    ensures u.host == (if b[2] < b[3] then Plain(h, 3, b[2]) else None)
    ensures u.port == (if b[2] < b[3] then Plain(h, 6, b[2]) else None)
  {
    ServerSections(buf, isConnect, u);
    NoCut(b, 2, 0);
    h := [0, 0, 0, 0, 0, 0, 0, 0];
    if b[2] < b[3] {
      assert Slice(buf, Field(b[2], b[3] - b[2])) == buf[b[2]..b[3]];
      h := ServerIsCut(buf[b[2]..b[3]], HasAt(buf, b));
      NoCut(h, 0, b[2]); NoCut(h, 3, b[2]); NoCut(h, 6, b[2]);
    }
  }

  // ---------------------------------------------------------------- where the fields lie

  ghost predicate InBounds(f: Option<Field>, n: nat) { f.Some? ==> 0 < f.value.len && f.value.off + f.value.len <= n }

  ghost predicate Before(f: Option<Field>, g: Option<Field>) {
    f.Some? && g.Some? ==> f.value.off + f.value.len <= g.value.off
  }

  // The set fields are in bounds, not empty, and follow one another in the order of InOrder, without overlap.
  lemma {:induction false} FieldsInOrder(buf: string, isConnect: bool, u: Url)
    requires |buf| < LIMIT && Accept(buf, isConnect) == Some(u)
    ensures forall i :: 0 <= i < 7 ==> InBounds(InOrder(u)[i], |buf|)
    ensures forall i, j :: 0 <= i < j < 7 ==> Before(InOrder(u)[i], InOrder(u)[j])
  {
    var b, h := CutsOf(buf, isConnect, u);
    CutsInOrder(buf, isConnect, u, b, h);
  }

  lemma {:induction false} CutsInOrder(buf: string, isConnect: bool, u: Url, b: Bounds, h: Bounds)
    requires Accepted(buf, isConnect, u, b, h)
    ensures forall i :: 0 <= i < 7 ==> InBounds(InOrder(u)[i], |buf|)
    ensures forall i, j :: 0 <= i < j < 7 ==> Before(InOrder(u)[i], InOrder(u)[j])
  {
    assert b[0] <= b[1] <= b[2] <= b[3] <= b[4] <= b[5] <= b[6] <= b[7] <= b[8];
    var user, host := b[2], b[2];
    if b[2] < b[3] {
      assert h[0] <= h[1] <= h[3] <= h[4] <= h[6] <= h[7] == b[3] - b[2];
      user, host := b[2] + h[1], b[2] + h[4];
    }
    SevenInOrder(InOrder(u), |buf|, [0, b[1], user, host, b[3], b[4], b[6], b[8]]);
  }

  lemma {:induction false} SevenInOrder(fs: seq<Option<Field>>, n: nat, ends: seq<nat>)
    requires |fs| == 7 && |ends| == 8 && ends[7] <= n
    requires ends[0] <= ends[1] <= ends[2] <= ends[3] <= ends[4] <= ends[5] <= ends[6] <= ends[7]
    requires Between(fs[0], ends[0], ends[1]) && Between(fs[1], ends[1], ends[2]) && Between(fs[2], ends[2], ends[3])
    requires Between(fs[3], ends[3], ends[4]) && Between(fs[4], ends[4], ends[5]) && Between(fs[5], ends[5], ends[6])
    requires Between(fs[6], ends[6], ends[7])
    ensures forall i :: 0 <= i < 7 ==> InBounds(fs[i], n)
    ensures forall i, j :: 0 <= i < j < 7 ==> Before(fs[i], fs[j])
  {
    InOrderIfBetween(fs, ends);
  }

  ghost predicate Between(f: Option<Field>, lo: nat, hi: nat) {
    f.Some? ==> 0 < f.value.len && lo <= f.value.off && f.value.off + f.value.len <= hi
  }

  lemma {:induction false} InOrderIfBetween(fs: seq<Option<Field>>, ends: seq<nat>)
    requires |ends| == |fs| + 1
    requires forall i :: 0 <= i < |fs| ==> ends[i] <= ends[i + 1] && Between(fs[i], ends[i], ends[i + 1])
    ensures forall i :: 0 <= i < |fs| ==> InBounds(fs[i], ends[|fs|])
    ensures forall i, j :: 0 <= i < j < |fs| ==> Before(fs[i], fs[j])
  {
    forall i | 0 <= i < |fs| ensures InBounds(fs[i], ends[|fs|]) {
      Rises(fs, ends, i + 1, |fs|);
      assert Between(fs[i], ends[i], ends[i + 1]);
    }
    forall i, j | 0 <= i < j < |fs| ensures Before(fs[i], fs[j]) {
      Rises(fs, ends, i + 1, j);
      assert Between(fs[i], ends[i], ends[i + 1]) && Between(fs[j], ends[j], ends[j + 1]);
    }
  }

  lemma {:induction false} Rises(fs: seq<Option<Field>>, ends: seq<nat>, i: nat, j: nat)
    requires |ends| == |fs| + 1 && i <= j <= |fs|
    requires forall i :: 0 <= i < |fs| ==> ends[i] <= ends[i + 1] && Between(fs[i], ends[i], ends[i + 1])
    ensures ends[i] <= ends[j]
    decreases j
  {
    if i < j {
      Rises(fs, ends, i, j - 1);
      assert Between(fs[j - 1], ends[j - 1], ends[j]);
    }
  }

  lemma {:induction false} Where(b: Bounds, n: nat, i: nat) returns (k: nat)
    requires |b| == n + 1 && b[0] == 0 && i < b[n]
    ensures k < n && b[k] <= i < b[k + 1]
  {
    k := 0;
    while b[k + 1] <= i
      invariant k < n && b[k] <= i
      decreases n - k
    {
      k := k + 1;
    }
  }

  // Every octet outside the fields is a delimiter.
  lemma {:induction false} RestIsDelimiters(buf: string, isConnect: bool, u: Url, i: nat)
    requires |buf| < LIMIT && Accept(buf, isConnect) == Some(u) && i < |buf|
    ensures IsDelimiter(buf[i]) || exists j :: 0 <= j < 7 && Covers(InOrder(u)[j], i)
  {
    var b, h := CutsOf(buf, isConnect, u);
    var fs := InOrder(u);
    var k := Where(b, 8, i);
    assert ClassedAt(buf, b, UrlKind, k, i);
    if k == 0 { assert Covers(fs[0], i); }
    else if k == 2 { ServerIsDelimiters(buf, b, h, HasAt(buf, b), u, i); }
    else if k == 3 { assert Covers(fs[4], i); }
    else if k == 5 { assert Covers(fs[5], i); }
    else if k == 7 { assert Covers(fs[6], i); }
  }

  lemma {:induction false} ServerIsDelimiters(buf: string, b: Bounds, h: Bounds, at: bool, u: Url, i: nat)
    requires |b| == 9 && b[2] <= i < b[3] <= |buf| && ServerCut(buf[b[2]..b[3]], at, h)
    requires u.userinfo == Plain(h, 0, b[2]) && u.host == Plain(h, 3, b[2]) && u.port == Plain(h, 6, b[2])
    ensures IsDelimiter(buf[i]) || exists j :: 0 <= j < 7 && Covers(InOrder(u)[j], i)
  {
    var fs := InOrder(u);
    var k := Where(h, 7, i - b[2]);
    assert ClassedAt(buf[b[2]..b[3]], h, HostKind, k, i - b[2]);
    if k == 0 { assert Covers(fs[1], i); }
    else if k == 3 { assert Covers(fs[2], i); }
    else if k == 6 { assert Covers(fs[3], i); }
  }

  // The port is the decimal value of its digits, and below 2^16.
  lemma {:induction false} PortIsDecimal(buf: string, isConnect: bool, u: Url)
    requires |buf| < LIMIT && Accept(buf, isConnect) == Some(u)
    ensures u.port.None? ==> u.portValue == 0
    ensures u.port.Some? ==> (forall i :: 0 <= i < |Slice(buf, u.port.value)| ==> IsNum(Slice(buf, u.port.value)[i])) &&
                             |Slice(buf, u.port.value)| == u.port.value.len &&
                             u.portValue == Decimal(Slice(buf, u.port.value)) <= 0xffff
  {
    var b, h := CutsOf(buf, isConnect, u);
    PortOfCuts(buf, isConnect, u, b, h);
  }

  lemma {:induction false} PortOfCuts(buf: string, isConnect: bool, u: Url, b: Bounds, h: Bounds)
    requires Accepted(buf, isConnect, u, b, h)
    ensures u.port.None? ==> u.portValue == 0
    ensures u.port.Some? ==> (forall i :: 0 <= i < |Slice(buf, u.port.value)| ==> IsNum(Slice(buf, u.port.value)[i])) &&
                             |Slice(buf, u.port.value)| == u.port.value.len &&
                             u.portValue == Decimal(Slice(buf, u.port.value)) <= 0xffff
  {
    if u.port.Some? {
      var text, digits := buf[b[2]..b[3]], Slice(buf, u.port.value);
      assert h[7] == b[3] - b[2];
      forall i | 0 <= i < |digits| ensures IsNum(digits[i]) {
        assert ClassedAt(text, h, HostKind, 6, h[6] + i);
      }
    }
  }
}
