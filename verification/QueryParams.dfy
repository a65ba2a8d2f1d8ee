/** The query parameters of a request: HttpRequest::initQueryParam. */
module QueryParams {
  import opened Ascii
  import opened Sequences
  import opened UrlCodec

  type Text = string

  datatype Pair = Pair(key: Text, value: Text)

  // std::string::find from `from` on.
  function Find(s: Text, c: char, from: nat): (r: Option<nat>)
    requires from <= |s|
    ensures r.Some? ==> from <= r.value < |s| && s[r.value] == c && forall i :: from <= i < r.value ==> s[i] != c
    ensures r.None? ==> forall i :: from <= i < |s| ==> s[i] != c
    decreases |s| - from
  {
    if from == |s| then None else if s[from] == c then Some(from) else Find(s, c, from + 1)
  }

  // How keys and values are read: percent-decoded, with plus for space.
  type Reading = Text -> Text

  function Decoding(): Reading { (t: Text) => Decode(t, true) }

  // The pairs of a query from `pos` on: a key runs up to the next '=', its value up to the next '&' after that.
  function Parsed(dec: Reading, s: Text, pos: nat): seq<Pair>
    requires pos <= |s|
    decreases |s| - pos
  {
    match Find(s, '=', pos)
    case None => []
    case Some(eq) =>
      match Find(s, '&', eq)
      case None => [PairAt(dec, s, pos, eq, |s|)]
      case Some(amp) => [PairAt(dec, s, pos, eq, amp)] + Parsed(dec, s, amp + 1)
  }

  function PairAt(dec: Reading, s: Text, pos: nat, eq: nat, end: nat): Pair
    requires pos <= eq < end <= |s|
  {
    Pair(dec(s[pos..eq]), dec(s[eq + 1..end]))
  }

  // Keys are the same when they agree up to case and up to the first NUL.
  function Fold(k: Text): Text {
    if k == [] then [] else if k[0] as int == 0 then [] else [FoldToken(k[0])] + Fold(k[1..])
  }

  // std::map::insert: the first of equal keys stays.
  function Insert(m: map<Text, Pair>, p: Pair): map<Text, Pair> {
    if Fold(p.key) in m then m else m[Fold(p.key) := p]
  }

  function InsertAll(m: map<Text, Pair>, ps: seq<Pair>): map<Text, Pair>
    decreases |ps|
  {
    if ps == [] then m else InsertAll(Insert(m, ps[0]), ps[1..])
  }

  class HttpRequest {
    var query: Text
    var params: map<Text, Pair>
    var parserParamFlag: nat

    constructor (query: Text)
      ensures this.query == query && params == map[] && parserParamFlag == 0
    {
      this.query, params, parserParamFlag := query, map[], 0;
    }

    // Once parsed, the query is not parsed again.
    method InitQueryParam()
      modifies this`params, this`parserParamFlag
      ensures parserParamFlag % 2 == 1
      ensures params == if old(parserParamFlag) % 2 == 1 then old(params)
                        else InsertAll(old(params), Parsed(Decoding(), query, 0))
    {
      if parserParamFlag % 2 == 1 { return; }
      ParseParam();
      parserParamFlag := parserParamFlag + 1;
    }

    // The loop of PARSE_PARAM.
    method ParseParam()
      modifies this`params
      ensures params == InsertAll(old(params), Parsed(Decoding(), query, 0))
    {
      var pos, more := 0, true;
      ghost var dec := Decoding();
      ghost var goal := InsertAll(params, Parsed(dec, query, 0));
      while more
        invariant 0 <= pos <= |query|
        invariant goal == if more then InsertAll(params, Parsed(dec, query, pos)) else params
        decreases |query| - pos, more
      {
        more, pos := ParseOne(pos, dec);
      }
    }

    method ParseOne(pos: nat, ghost dec: Reading) returns (more: bool, next: nat)
      requires pos <= |query| && dec == Decoding()
      modifies this`params
      ensures pos <= next <= |query| && (more ==> pos < next)
      ensures InsertAll(old(params), Parsed(dec, query, pos)) ==
              if more then InsertAll(params, Parsed(dec, query, next)) else params
    {
      ParsedStep(params, dec, query, pos);
      var eq := Find(query, '=', pos);
      if eq.None? { return false, pos; }
      var key := eq.value;
      var amp := Find(query, '&', key);
      var end := if amp.Some? then amp.value else |query|;
      var p := ReadPair(pos, key, end);
      params := Insert(params, p);
      more, next := amp.Some?, if amp.Some? then end + 1 else pos;
    }

    method ReadPair(pos: nat, eq: nat, end: nat) returns (p: Pair)
      requires pos <= eq < end <= |query|
      ensures p == PairAt(Decoding(), query, pos, eq, end)
    {
      var k := UrlDecode(query[pos..eq], true);
      var v := UrlDecode(query[eq + 1..end], true);
      p := Pair(k, v);
    }
  }

  // One round of the loop.
  lemma {:induction false} ParsedStep(m: map<Text, Pair>, dec: Reading, s: Text, pos: nat)
    requires pos <= |s|
    ensures InsertAll(m, Parsed(dec, s, pos)) ==
            match Find(s, '=', pos)
            case None => m
            case Some(eq) =>
              match Find(s, '&', eq)
              case None => Insert(m, PairAt(dec, s, pos, eq, |s|))
              case Some(amp) => InsertAll(Insert(m, PairAt(dec, s, pos, eq, amp)), Parsed(dec, s, amp + 1))
  {
    match Find(s, '=', pos)
    case None =>
    case Some(eq) =>
      match Find(s, '&', eq)
      case None =>
        var p := PairAt(dec, s, pos, eq, |s|);
        assert InsertAll(m, [p]) == InsertAll(Insert(m, p), [p][1..]);
      case Some(amp) =>
        var p, rest := PairAt(dec, s, pos, eq, amp), Parsed(dec, s, amp + 1);
        assert ([p] + rest)[1..] == rest;
  }

  lemma {:induction false} FindIs(s: Text, c: char, from: nat, i: nat)
    requires from <= i < |s| && s[i] == c && forall j :: from <= j < i ==> s[j] != c
    ensures Find(s, c, from) == Some(i)
    decreases i - from
  {
    if from < i { FindIs(s, c, from + 1, i); }
  }

  lemma {:induction false} FindNone(s: Text, c: char, from: nat)
    requires from <= |s| && forall j :: from <= j < |s| ==> s[j] != c
    ensures Find(s, c, from) == None
    decreases |s| - from
  {
    if from < |s| { FindNone(s, c, from + 1); }
  }

  // ---------------------------------------------------------------- joining and parsing

  // Pairs joined with '=' and '&'.
  function One(p: Pair): Text { p.key + ['='] + p.value }

  function Join(ps: seq<Pair>): Text
    decreases |ps|
  {
    if ps == [] then [] else if |ps| == 1 then One(ps[0]) else One(ps[0]) + ['&'] + Join(ps[1..])
  }

  // The first pair at `pos`, given its key and value as they stand there.
  lemma {:induction false} FirstPair(dec: Reading, s: Text, pos: nat, eq: nat, end: nat)
    requires pos <= eq < end <= |s| && s[eq] == '=' && (end < |s| ==> s[end] == '&')
    requires '=' !in s[pos..eq] && '&' !in s[eq + 1..end]
    ensures Parsed(dec, s, pos) == [PairAt(dec, s, pos, eq, end)] + if end < |s| then Parsed(dec, s, end + 1) else []
  {
    FindFirst(s, '=', pos, eq);
    FindAmp(s, eq, end);
    ParsedOnce(dec, s, pos, eq, end);
  }

  lemma {:induction false} ParsedOnce(dec: Reading, s: Text, pos: nat, eq: nat, end: nat)
    requires pos <= eq < end <= |s| && Find(s, '=', pos) == Some(eq)
    requires Find(s, '&', eq) == if end < |s| then Some(end) else None
    ensures end == |s| ==> Parsed(dec, s, pos) == [PairAt(dec, s, pos, eq, end)]
    ensures end < |s| ==> Parsed(dec, s, pos) == [PairAt(dec, s, pos, eq, end)] + Parsed(dec, s, end + 1)
  {
  }

  lemma {:induction false} FindFirst(s: Text, c: char, pos: nat, i: nat)
    requires pos <= i < |s| && s[i] == c && c !in s[pos..i]
    ensures Find(s, c, pos) == Some(i)
  {
    forall j | pos <= j < i ensures s[j] != c { assert s[pos..i][j - pos] in s[pos..i]; }
    FindIs(s, c, pos, i);
  }

  lemma {:induction false} FindAmp(s: Text, eq: nat, end: nat)
    requires eq < end <= |s| && s[eq] == '=' && '&' !in s[eq + 1..end] && (end < |s| ==> s[end] == '&')
    ensures Find(s, '&', eq) == if end < |s| then Some(end) else None
  {
    forall j | eq <= j < end ensures s[j] != '&' { if j > eq { assert s[eq + 1..end][j - eq - 1] in s[eq + 1..end]; } }
    if end < |s| { FindIs(s, '&', eq, end); } else { FindNone(s, '&', eq); }
  }

  // The first pair of joined pairs that stand at the end of a text from `pos` on.
  lemma {:induction false} JoinStands(ps: seq<Pair>, s: Text, pos: nat) returns (eq: nat, end: nat)
    requires ps != [] && pos <= |s| && s[pos..] == Join(ps)
    ensures pos <= eq < end <= |s| && eq == pos + |ps[0].key|
    ensures s[pos..eq] == ps[0].key && s[eq] == '=' && s[eq + 1..end] == ps[0].value
    ensures if |ps| == 1 then end == |s| else end < |s| && s[end] == '&' && s[end + 1..] == Join(ps[1..])
  {
    var k, v, w, one := ps[0].key, ps[0].value, s[pos..], One(ps[0]);
    eq, end := pos + |k|, pos + |one|;
    assert w[..|one|] == one;
    assert w[..|one|][..|k|] == k && w[..|one|][|k|] == '=' && w[..|one|][|k| + 1..] == v;
    assert w[..|k|] == s[pos..eq] && w[|k|] == s[eq] && w[|k| + 1..|one|] == s[eq + 1..end];
    if |ps| > 1 {
      assert w[|one|] == s[end] && w[|one| + 1..] == s[end + 1..];
    }
  }

  // Nothing in a pair that would be taken for its end.
  ghost predicate Clean(p: Pair) { '=' !in p.key && '&' !in p.value }

  function Read(dec: Reading, p: Pair): Pair { Pair(dec(p.key), dec(p.value)) }

  function ReadAll(dec: Reading, ps: seq<Pair>): seq<Pair> {
    if ps == [] then [] else [Read(dec, ps[0])] + ReadAll(dec, ps[1..])
  }

  // What follows the first pair: nothing, or the others behind an '&'.
  lemma {:induction false} HeadReads(dec: Reading, ps: seq<Pair>, s: Text, pos: nat) returns (next: nat)
    requires ps != [] && Clean(ps[0]) && pos <= |s| && s[pos..] == Join(ps)
    ensures next <= |s| && (|ps| > 1 ==> s[next..] == Join(ps[1..]))
    ensures Parsed(dec, s, pos) == [Read(dec, ps[0])] + if |ps| > 1 then Parsed(dec, s, next) else []
  {
    var eq, end := JoinStands(ps, s, pos);
    FirstPair(dec, s, pos, eq, end);
    assert PairAt(dec, s, pos, eq, end) == Read(dec, ps[0]);
    next := if |ps| > 1 then end + 1 else |s|;
  }

  // Joined pairs are read back, all of them and in order.
  lemma {:induction false} JoinReads(dec: Reading, ps: seq<Pair>, s: Text, pos: nat)
    requires (forall i :: 0 <= i < |ps| ==> Clean(ps[i])) && pos <= |s| && s[pos..] == Join(ps)
    ensures Parsed(dec, s, pos) == ReadAll(dec, ps)
    decreases |ps|
  {
    if ps == [] {
      FindNone(s, '=', pos);
    } else {
      var next := HeadReads(dec, ps, s, pos);
      var rest := ps[1..];
      if rest != [] { JoinReads(dec, rest, s, next); }
    }
  }

  // ---------------------------------------------------------------- with the encoding

  function EncodedPair(p: Pair, plus: bool): Pair { Pair(Encode(p.key, plus), Encode(p.value, plus)) }

  function Encoded(ps: seq<Pair>, plus: bool): seq<Pair> {
    if ps == [] then [] else [EncodedPair(ps[0], plus)] + Encoded(ps[1..], plus)
  }

  ghost predicate OctetPairs(ps: seq<Pair>) { forall i :: 0 <= i < |ps| ==> Octets(ps[i].key) && Octets(ps[i].value) }

  ghost predicate PlainKeys(ps: seq<Pair>) { forall i :: 0 <= i < |ps| ==> '=' !in ps[i].key }

  lemma {:induction false} EncodedIsClean(ps: seq<Pair>, plus: bool)
    requires PlainKeys(ps)
    ensures |Encoded(ps, plus)| == |ps| && forall i :: 0 <= i < |ps| ==> Clean(Encoded(ps, plus)[i])
  {
    if ps != [] {
      EncodedIsClean(ps[1..], plus);
      EncodedOctets(ps[0].key, plus);
      EncodedOctets(ps[0].value, plus);
    }
  }

  lemma {:induction false} EncodedReads(ps: seq<Pair>, plus: bool)
    requires OctetPairs(ps)
    ensures ReadAll(Decoding(), Encoded(ps, plus)) == ps
  {
    if ps != [] {
      UrlRoundTrip(ps[0].key, plus, true);
      UrlRoundTrip(ps[0].value, plus, true);
      EncodedReads(ps[1..], plus);
      assert Encoded(ps, plus)[1..] == Encoded(ps[1..], plus);
    }
  }

  lemma {:induction false} EncodeJoin(a: Text, b: Text, plus: bool)
    ensures Encode(a + b, plus) == Encode(a, plus) + Encode(b, plus)
    decreases |b|
  {
    if b == [] {
      assert a + b == a;
    } else {
      var front, last := b[..|b| - 1], b[|b| - 1];
      EncodeJoin(a, front, plus);
      assert b == front + [last];
      Regroup(a, front, [last]);
      EncodeSnoc(a + front, last, a + b, plus);
      EncodeSnoc(front, last, b, plus);
      Regroup(Encode(a, plus), Encode(front, plus), Escape(last, plus));
    }
  }

  lemma {:induction false} EncodeSnoc(s: Text, c: char, t: Text, plus: bool)
    requires t == s + [c]
    ensures Encode(t, plus) == Encode(s, plus) + Escape(c, plus)
  {
    assert t[..|t| - 1] == s;
  }

  // A key is cut at its first '=', and the rest of it goes to the value.
  function CutPair(p: Pair): Pair {
    match Find(p.key, '=', 0)
    case None => p
    case Some(m) => Pair(p.key[..m], (p.key[m + 1..] + ['=']) + p.value)
  }

  function CutAll(ps: seq<Pair>): (cs: seq<Pair>)
    ensures |cs| == |ps| && forall i :: 0 <= i < |ps| ==> cs[i] == CutPair(ps[i])
  {
    if ps == [] then [] else [CutPair(ps[0])] + CutAll(ps[1..])
  }

  lemma {:induction false} CutIsPlain(p: Pair)
    ensures '=' !in CutPair(p).key && (CutPair(p) == p <==> '=' !in p.key)
    ensures Octets(p.key) && Octets(p.value) ==> Octets(CutPair(p).key) && Octets(CutPair(p).value)
  {
  }

  lemma {:induction false} CutAllIsPlain(ps: seq<Pair>)
    ensures PlainKeys(CutAll(ps)) && (CutAll(ps) == ps <==> PlainKeys(ps)) &&
            (OctetPairs(ps) ==> OctetPairs(CutAll(ps)))
  {
    forall i | 0 <= i < |ps| ensures '=' !in CutAll(ps)[i].key && (CutAll(ps)[i] == ps[i] <==> '=' !in ps[i].key) {
      CutIsPlain(ps[i]);
    }
    if OctetPairs(ps) {
      forall i | 0 <= i < |ps| ensures Octets(CutAll(ps)[i].key) && Octets(CutAll(ps)[i].value) { CutIsPlain(ps[i]); }
    }
  }

  // The cut does not show in the encoded text.
  lemma {:induction false} CutReadsSame(p: Pair, plus: bool)
    ensures One(EncodedPair(CutPair(p), plus)) == One(EncodedPair(p, plus))
  {
    var f := Find(p.key, '=', 0);
    if f.Some? {
      var a, b, v := p.key[..f.value], p.key[f.value + 1..], p.value;
      assert p.key == (a + ['=']) + b;
      EncodeAround(a, b, plus);
      EncodeAround(b, v, plus);
      Regroup(Encode(a, plus) + ['='], Encode(b, plus) + ['='], Encode(v, plus));
      Regroup(Encode(a, plus) + ['='], Encode(b, plus), ['=']);
    }
  }

  // '=' is not escaped.
  lemma {:induction false} EncodeAround(a: Text, b: Text, plus: bool)
    ensures Encode((a + ['=']) + b, plus) == (Encode(a, plus) + ['=']) + Encode(b, plus)
  {
    EncodeJoin(a + ['='], b, plus);
    EncodeSnoc(a, '=', a + ['='], plus);
  }

  lemma {:induction false} JoinCutSame(ps: seq<Pair>, plus: bool)
    ensures Join(Encoded(CutAll(ps), plus)) == Join(Encoded(ps, plus)) && |Encoded(ps, plus)| == |ps|
    ensures |Encoded(CutAll(ps), plus)| == |ps|
  {
    if ps != [] {
      CutReadsSame(ps[0], plus);
      JoinCutSame(ps[1..], plus);
      EncodedHead(ps, plus);
      EncodedHead(CutAll(ps), plus);
      assert CutAll(ps)[1..] == CutAll(ps[1..]);
    }
  }

  lemma {:induction false} EncodedHead(ps: seq<Pair>, plus: bool)
    requires ps != []
    ensures Encoded(ps, plus)[0] == EncodedPair(ps[0], plus) && Encoded(ps, plus)[1..] == Encoded(ps[1..], plus)
  {
  }

  lemma {:induction false} PlainReads(ps: seq<Pair>, plus: bool, s: Text, pos: nat)
    requires OctetPairs(ps) && PlainKeys(ps) && pos <= |s| && s[pos..] == Join(Encoded(ps, plus))
    ensures Parsed(Decoding(), s, pos) == ps
  {
    EncodedIsClean(ps, plus);
    JoinReads(Decoding(), Encoded(ps, plus), s, pos);
    EncodedReads(ps, plus);
  }

  // Joining encoded pairs and parsing the result cuts every key at its first '=' and changes nothing else.
  lemma {:induction false} JoinParseIsCut(ps: seq<Pair>, plus: bool, s: Text, pos: nat)
    requires OctetPairs(ps) && pos <= |s| && s[pos..] == Join(Encoded(ps, plus))
    ensures Parsed(Decoding(), s, pos) == CutAll(ps)
  {
    CutAllIsPlain(ps);
    JoinCutSame(ps, plus);
    PlainReads(CutAll(ps), plus, s, pos);
  }

  // So it gives the pairs back exactly when no key holds an '='.
  lemma {:induction false} JoinParseIff(ps: seq<Pair>, plus: bool, s: Text, pos: nat)
    requires OctetPairs(ps) && pos <= |s| && s[pos..] == Join(Encoded(ps, plus))
    ensures Parsed(Decoding(), s, pos) == ps <==> PlainKeys(ps)
  {
    JoinParseIsCut(ps, plus, s, pos);
    CutAllIsPlain(ps);
  }

  // ---------------------------------------------------------------- the map

  // Equal keys, up to case and NUL, only with equal values.
  ghost predicate Consistent(ps: seq<Pair>) {
    forall i, j :: 0 <= i < j < |ps| && Fold(ps[i].key) == Fold(ps[j].key) ==> ps[i] == ps[j]
  }

  ghost predicate Holds(m: map<Text, Pair>, p: Pair) { Fold(p.key) in m && m[Fold(p.key)] == p }

  // The first pair of each key wins.
  lemma {:induction false} InsertAllHas(m: map<Text, Pair>, ps: seq<Pair>, k: Text)
    ensures k in InsertAll(m, ps) <==> k in m || exists i :: 0 <= i < |ps| && Fold(ps[i].key) == k
    ensures k in m ==> InsertAll(m, ps)[k] == m[k]
    ensures forall i :: 0 <= i < |ps| && k !in m && Fold(ps[i].key) == k &&
                        (forall j :: 0 <= j < i ==> Fold(ps[j].key) != k) ==>
              Holds(InsertAll(m, ps), ps[i])
    decreases |ps|
  {
    if ps != [] {
      var rest := ps[1..];
      InsertAllHas(Insert(m, ps[0]), rest, k);
      assert forall i :: 0 < i < |ps| ==> ps[i] == rest[i - 1];
      assert forall i :: 0 <= i < |rest| ==> rest[i] == ps[i + 1];
    }
  }

  // After insertion into an empty map every pair is there exactly when equal keys carry equal pairs.
  lemma {:induction false} MapHoldsIff(ps: seq<Pair>)
    ensures (forall i :: 0 <= i < |ps| ==> Holds(InsertAll(map[], ps), ps[i])) <==> Consistent(ps)
  {
    var m := InsertAll(map[], ps);
    if forall i :: 0 <= i < |ps| ==> Holds(m, ps[i]) {
      forall i, j | 0 <= i < j < |ps| && Fold(ps[i].key) == Fold(ps[j].key) ensures ps[i] == ps[j] {
        assert Holds(m, ps[i]) && Holds(m, ps[j]);
      }
    }
    if Consistent(ps) {
      forall i | 0 <= i < |ps| ensures Holds(m, ps[i]) {
        var f := FirstWith(ps, i);
        InsertAllHas(map[], ps, Fold(ps[i].key));
        assert Holds(m, ps[f]);
      }
    }
  }

  lemma {:induction false} FirstWith(ps: seq<Pair>, i: nat) returns (f: nat)
    requires i < |ps|
    ensures f <= i && Fold(ps[f].key) == Fold(ps[i].key)
    ensures forall j :: 0 <= j < f ==> Fold(ps[j].key) != Fold(ps[i].key)
  {
    f := 0;
    while Fold(ps[f].key) != Fold(ps[i].key)
      invariant f <= i && forall j :: 0 <= j < f ==> Fold(ps[j].key) != Fold(ps[i].key)
      decreases i - f
    {
      f := f + 1;
    }
  }

  // And it holds nothing else.
  lemma {:induction false} MapHoldsOnly(ps: seq<Pair>, k: Text)
    requires k in InsertAll(map[], ps)
    ensures exists i :: 0 <= i < |ps| && Fold(ps[i].key) == k && InsertAll(map[], ps)[k] == ps[i]
  {
    InsertAllHas(map[], ps, k);
    var i :| 0 <= i < |ps| && Fold(ps[i].key) == k;
    var f := FirstWith(ps, i);
    assert Holds(InsertAll(map[], ps), ps[f]);
  }

  // The map of the pairs as they are cut holds every pair exactly when no key holds an '=' and equal keys carry equal
  // pairs.
  lemma {:induction false} CutHoldsIff(ps: seq<Pair>)
    ensures (forall i :: 0 <= i < |ps| ==> Holds(InsertAll(map[], CutAll(ps)), ps[i])) <==>
            PlainKeys(ps) && Consistent(ps)
  {
    var m := InsertAll(map[], CutAll(ps));
    CutAllIsPlain(ps);
    if forall i :: 0 <= i < |ps| ==> Holds(m, ps[i]) {
      forall i | 0 <= i < |ps| ensures '=' !in ps[i].key {
        assert Holds(m, ps[i]);
        MapHoldsOnly(CutAll(ps), Fold(ps[i].key));
      }
    }
    if PlainKeys(ps) { MapHoldsIff(ps); }
  }

  // The whole way: the parameters of a request whose query is joined from encoded pairs.
  method QueryRoundTrip(ps: seq<Pair>, plus: bool) returns (params: map<Text, Pair>)
    requires OctetPairs(ps)
    ensures (forall i :: 0 <= i < |ps| ==> Holds(params, ps[i])) <==> PlainKeys(ps) && Consistent(ps)
    ensures forall k :: k in params ==>
              exists i :: 0 <= i < |ps| && Fold(CutPair(ps[i]).key) == k && params[k] == CutPair(ps[i])
  {
    var query := Join(Encoded(ps, plus));
    var request := new HttpRequest(query);
    request.InitQueryParam();
    assert query[0..] == query;
    JoinParseIsCut(ps, plus, query, 0);
    params := request.params;
    CutHoldsIff(ps);
    forall k | k in params
      ensures exists i :: 0 <= i < |ps| && Fold(CutPair(ps[i]).key) == k && params[k] == CutPair(ps[i]) {
      MapHoldsOnly(CutAll(ps), k);
      var i :| 0 <= i < |ps| && Fold(CutAll(ps)[i].key) == k && params[k] == CutAll(ps)[i];
      assert CutAll(ps)[i] == CutPair(ps[i]);
    }
  }
}
