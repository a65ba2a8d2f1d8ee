/** The URL state machine shared by the request parser and the URL splitter. */
module UrlMachine {
  import opened Ascii

  datatype UrlState =
    | SpacesBeforeUrl | Schema | SchemaSlash | SchemaSlashSlash | ServerStart | Server | ServerWithAt
    | Path | QueryStart | Query | FragmentStart | Fragment | UrlDead

  // One transition for one octet.
  function ParseUrlChar(s: UrlState, ch: char): UrlState {
    if ch == ' ' || ch == '\r' || ch == '\n' || ch == '\t' || ch as int == 12 then UrlDead
    else match s
      case SpacesBeforeUrl =>
        if ch == '/' || ch == '*' then Path else if IsAlpha(ch) then Schema else UrlDead
      case Schema =>
        if IsAlpha(ch) then Schema else if ch == ':' then SchemaSlash else UrlDead
      case SchemaSlash => if ch == '/' then SchemaSlashSlash else UrlDead
      case SchemaSlashSlash => if ch == '/' then ServerStart else UrlDead
      case ServerWithAt => if ch == '@' then UrlDead else ServerChar(ch)
      case ServerStart => ServerChar(ch)
      case Server => ServerChar(ch)
      case Path =>
        if IsUrlChar(ch) then Path else if ch == '?' then QueryStart
        else if ch == '#' then FragmentStart else UrlDead
      case QueryStart => QueryChar(ch)
      case Query => QueryChar(ch)
      case FragmentStart =>
        if IsUrlChar(ch) || ch == '?' then Fragment else if ch == '#' then FragmentStart else UrlDead
      case Fragment =>
        if IsUrlChar(ch) || ch == '?' || ch == '#' then Fragment else UrlDead
      case UrlDead => UrlDead
  }

  function ServerChar(ch: char): UrlState {
    if ch == '/' then Path
    else if ch == '?' then QueryStart
    else if ch == '@' then ServerWithAt
    else if IsUserinfoChar(ch) || ch == '[' || ch == ']' then Server
    else UrlDead
  }

  function QueryChar(ch: char): UrlState {
    if IsUrlChar(ch) || ch == '?' then Query else if ch == '#' then FragmentStart else UrlDead
  }
}

/** The request methods and the table that recognises them letter by letter. */
module HttpMethod {
  import opened Ascii

  datatype Method =
    | DELETE | GET | HEAD | POST | PUT | CONNECT | OPTIONS | TRACE | COPY | LOCK | MKCOL | MOVE | PROPFIND
    | PROPPATCH | SEARCH | UNLOCK | BIND | REBIND | UNBIND | ACL | REPORT | MKACTIVITY | CHECKOUT | MERGE
    | MSEARCH | NOTIFY | SUBSCRIBE | UNSUBSCRIBE | PATCH | PURGE | MKCALENDAR | LINK | UNLINK | SOURCE

  function MethodString(m: Method): string {
    match m
    case DELETE => "DELETE" case GET => "GET" case HEAD => "HEAD" case POST => "POST" case PUT => "PUT"
    case CONNECT => "CONNECT" case OPTIONS => "OPTIONS" case TRACE => "TRACE" case COPY => "COPY"
    case LOCK => "LOCK" case MKCOL => "MKCOL" case MOVE => "MOVE" case PROPFIND => "PROPFIND"
    case PROPPATCH => "PROPPATCH" case SEARCH => "SEARCH" case UNLOCK => "UNLOCK" case BIND => "BIND"
    case REBIND => "REBIND" case UNBIND => "UNBIND" case ACL => "ACL" case REPORT => "REPORT"
    case MKACTIVITY => "MKACTIVITY" case CHECKOUT => "CHECKOUT" case MERGE => "MERGE"
    case MSEARCH => "M-SEARCH" case NOTIFY => "NOTIFY" case SUBSCRIBE => "SUBSCRIBE"
    case UNSUBSCRIBE => "UNSUBSCRIBE" case PATCH => "PATCH" case PURGE => "PURGE"
    case MKCALENDAR => "MKCALENDAR" case LINK => "LINK" case UNLINK => "UNLINK" case SOURCE => "SOURCE"
  }

  // A C string read at an index up to and including its terminator.
  function CharAt(s: string, i: nat): char { if i < |s| then s[i] else '\0' }

  // The method assumed from its first letter.
  function FirstMethod(ch: char): Option<Method> {
    match ch
    case 'A' => Some(ACL) case 'B' => Some(BIND) case 'C' => Some(CONNECT) case 'D' => Some(DELETE)
    case 'G' => Some(GET) case 'H' => Some(HEAD) case 'L' => Some(LOCK) case 'M' => Some(MKCOL)
    case 'N' => Some(NOTIFY) case 'O' => Some(OPTIONS) case 'P' => Some(POST) case 'R' => Some(REPORT)
    case 'S' => Some(SUBSCRIBE) case 'T' => Some(TRACE) case 'U' => Some(UNLOCK)
    case _ => None
  }

  // The table that turns one guessed method into another at its first differing letter.
  function Switch(m: Method, pos: nat, ch: char): Option<Method> {
    if m.POST? && pos == 1 && ch == 'U' then Some(PUT)
    else if m.POST? && pos == 1 && ch == 'A' then Some(PATCH)
    else if m.POST? && pos == 1 && ch == 'R' then Some(PROPFIND)
    else if m.PUT? && pos == 2 && ch == 'R' then Some(PURGE)
    else if m.CONNECT? && pos == 1 && ch == 'H' then Some(CHECKOUT)
    else if m.CONNECT? && pos == 2 && ch == 'P' then Some(COPY)
    else if m.MKCOL? && pos == 1 && ch == 'O' then Some(MOVE)
    else if m.MKCOL? && pos == 1 && ch == 'E' then Some(MERGE)
    else if m.MKCOL? && pos == 1 && ch == '-' then Some(MSEARCH)
    else if m.MKCOL? && pos == 2 && ch == 'A' then Some(MKACTIVITY)
    else if m.MKCOL? && pos == 3 && ch == 'A' then Some(MKCALENDAR)
    else if m.SUBSCRIBE? && pos == 1 && ch == 'E' then Some(SEARCH)
    else if m.SUBSCRIBE? && pos == 1 && ch == 'O' then Some(SOURCE)
    else if m.REPORT? && pos == 2 && ch == 'B' then Some(REBIND)
    else if m.PROPFIND? && pos == 4 && ch == 'P' then Some(PROPPATCH)
    else if m.LOCK? && pos == 1 && ch == 'I' then Some(LINK)
    else if m.UNLOCK? && pos == 2 && ch == 'S' then Some(UNSUBSCRIBE)
    else if m.UNLOCK? && pos == 2 && ch == 'B' then Some(UNBIND)
    else if m.UNLOCK? && pos == 3 && ch == 'I' then Some(UNLINK)
    else None
  }

  // One octet after the first; `None` is HPE_INVALID_METHOD.
  function NextMethod(m: Method, pos: nat, ch: char): Option<Method> {
    if ch == '\0' then None
    else if ch == CharAt(MethodString(m), pos) then Some(m)
    else if 'A' <= ch <= 'Z' || ch == '-' then Switch(m, pos, ch)
    else None
  }
}

/** http_parser_execute at one octet: the states, the actions and the transition.
    The build is strict, every callback returns 0 and lenient_http_headers is off. */
module HttpMachine {
  import opened Ascii
  import opened UrlMachine
  import opened HttpMethod

  datatype ParserType = Request | Response | Both

  datatype State =
    | Dead | StartReqOrRes | ResOrRespH
    | StartRes | ResH | ResHT | ResHTT | ResHTTP | ResMajor | ResDot | ResMinor | ResEnd
    | ResFirstStatusCode | ResStatusCode | ResStatusStart | ResStatus | ResLineAlmostDone
    | StartReq | ReqMethod | ReqUrl(u: UrlState)
    | ReqHttpStart | ReqH | ReqHT | ReqHTT | ReqHTTP | ReqI | ReqIC | ReqMajor | ReqDot | ReqMinor | ReqEnd
    | ReqLineAlmostDone
    | FieldStart | Field | ValueDiscardWs | ValueDiscardWsAlmostDone | ValueDiscardLws | ValueStart | Value
    | ValueLws | HeaderAlmostDone
    | ChunkSizeStart | ChunkSize | ChunkParameters | ChunkSizeAlmostDone
    | HeadersAlmostDone | HeadersDone
    | ChunkData | ChunkDataAlmostDone | ChunkDataDone | BodyIdentity | BodyIdentityEof | MessageDone

  datatype HeaderState =
    | HGeneral | HC | HCO | HCON
    | HMatchingConnection | HMatchingProxyConnection | HMatchingContentLength | HMatchingTransferEncoding
    | HMatchingUpgrade
    | HConnection | HContentLength | HContentLengthNum | HContentLengthWs | HTransferEncoding | HUpgrade
    | HMatchingChunked | HTokenStart | HMatchingKeepAlive | HMatchingClose | HMatchingConnUpgrade | HToken
    | HChunked | HKeepAlive | HClose | HConnUpgrade

  datatype Flags = Flags(chunked: bool, keepAlive: bool, close: bool, connUpgrade: bool, trailing: bool,
                         upgrade: bool, skipBody: bool, contentLength: bool)

  const NO_FLAGS := Flags(false, false, false, false, false, false, false, false)

  datatype Errno =
    | InvalidEofState | HeaderOverflow | ClosedConnection | InvalidVersion | InvalidStatus | InvalidMethod
    | InvalidUrl | LfExpected | InvalidHeaderToken | InvalidContentLength | UnexpectedContentLength
    | InvalidChunkSize | InvalidConstant | Strict | InvalidInternalState | AssertFailed

  const ULLONG_MAX: nat := 0xffff_ffff_ffff_ffff
  const MAX_HEADER_SIZE: nat := 80 * 1024

  datatype Parser = Parser(ptype: ParserType, flags: Flags, state: State, hstate: HeaderState, index: nat,
                           nread: nat, contentLength: nat, major: nat, minor: nat, status: nat,
                           meth: Method, upgrade: bool)

  datatype Element = Url | Status | HeaderField | HeaderValue | Body

  datatype Notice = MessageBegin | HeadersComplete | ChunkHeader | ChunkComplete | MessageComplete

  // What one octet makes the parser do, in program order.
  // MARK, CALLBACK_DATA up to the octet, CALLBACK_DATA through the octet, CALLBACK_NOTIFY.
  datatype Act = Mark(e: Element) | Flush(e: Element) | FlushThrough(e: Element) | Notify(n: Notice)

  datatype Acts = End | Then(a: Act, rest: Acts)

  // `Exit` is the early return after an upgraded message.
  datatype Outcome = Go(p: Parser, acts: Acts) | Exit(p: Parser, acts: Acts) | Fail(errno: Errno)

  function One(a: Act): Acts { Then(a, End) }

  function Two(a: Act, b: Act): Acts { Then(a, Then(b, End)) }

  function Before(a: Act, o: Outcome): Outcome {
    match o
    case Go(p, acts) => Go(p, Then(a, acts))
    case Exit(p, acts) => Exit(p, Then(a, acts))
    case Fail(e) => Fail(e)
  }

  // States up to s_headers_done, whose octets count against the header limit.
  predicate ParsingHeader(s: State) {
    !(s.ChunkData? || s.ChunkDataAlmostDone? || s.ChunkDataDone? || s.BodyIdentity? || s.BodyIdentityEof? ||
      s.MessageDone?)
  }

  function InitParser(t: ParserType): Parser {
    Parser(t, NO_FLAGS, if t.Request? then StartReq else if t.Response? then StartRes else StartReqOrRes,
           HGeneral, 0, 0, 0, 0, 0, 0, DELETE, false)
  }

  predicate NeedsEof(p: Parser) {
    !p.ptype.Request? &&
    !(p.status / 100 == 1 || p.status == 204 || p.status == 304 || p.flags.skipBody) &&
    !p.flags.chunked && p.contentLength == ULLONG_MAX
  }

  predicate ShouldKeepAlive(p: Parser) {
    (if p.major > 0 && p.minor > 0 then !p.flags.close else p.flags.keepAlive) && !NeedsEof(p)
  }

  function NewMessage(p: Parser): State {
    if !ShouldKeepAlive(p) then Dead else if p.ptype.Request? then StartReq else StartRes
  }

  // ---------------------------------------------------------------- message start

  function Expect(p: Parser, ok: bool, next: State, e: Errno): Outcome {
    if ok then Go(p.(state := next), End) else Fail(e)
  }

  function StartReqByte(p: Parser, ch: char): Outcome {
    if ch == '\r' || ch == '\n' then Go(p.(state := StartReq), End)
    else if FirstMethod(ch).None? then Fail(InvalidMethod)
    else Go(p.(flags := NO_FLAGS, contentLength := ULLONG_MAX, meth := FirstMethod(ch).value, index := 1,
               state := ReqMethod), One(Notify(MessageBegin)))
  }

  function StartReqOrResByte(p: Parser, ch: char): Outcome {
    if ch == '\r' || ch == '\n' then Go(p, End)
    else
      var q := p.(flags := NO_FLAGS, contentLength := ULLONG_MAX);
      if ch == 'H' then Go(q.(state := ResOrRespH), One(Notify(MessageBegin)))
      else StartReqByte(q.(ptype := Request), ch)
  }

  function ResOrRespHByte(p: Parser, ch: char): Outcome {
    if ch == 'T' then Go(p.(ptype := Response, state := ResHT), End)
    else if ch == 'E' then Go(p.(ptype := Request, meth := HEAD, index := 2, state := ReqMethod), End)
    else Fail(InvalidConstant)
  }

  function StartResByte(p: Parser, ch: char): Outcome {
    if ch == '\r' || ch == '\n' then Go(p, End)
    else if ch == 'H' then
      Go(p.(flags := NO_FLAGS, contentLength := ULLONG_MAX, state := ResH), One(Notify(MessageBegin)))
    else Fail(InvalidConstant)
  }

  function StatusByte(p: Parser, ch: char, first: bool): Outcome {
    if ch == '\r' || ch == '\n' then
      Go(p.(state := if ch == '\r' then ResLineAlmostDone else FieldStart),
         if first then Two(Mark(Status), Flush(Status)) else One(Flush(Status)))
    else Go(p.(state := ResStatus), if first then One(Mark(Status)) else End)
  }

  function StatusCodeByte(p: Parser, ch: char): Outcome {
    if IsNum(ch) then
      var code := p.status * 10 + DigitValue(ch);
      if code > 999 then Fail(InvalidStatus) else Go(p.(status := code), End)
    else if ch == ' ' then Go(p.(state := ResStatusStart), End)
    else if ch == '\r' || ch == '\n' then StatusByte(p.(index := 0), ch, true)
    else Fail(InvalidStatus)
  }

  predicate ResponseLine(s: State) {
    s.ResH? || s.ResHT? || s.ResHTT? || s.ResHTTP? || s.ResMajor? || s.ResDot? || s.ResMinor? || s.ResEnd? ||
    s.ResFirstStatusCode? || s.ResLineAlmostDone?
  }

  function ResponseLineByte(p: Parser, ch: char): Outcome
    requires ResponseLine(p.state)
  {
    match p.state
    case ResH => Expect(p, ch == 'T', ResHT, Strict)
    case ResHT => Expect(p, ch == 'T', ResHTT, Strict)
    case ResHTT => Expect(p, ch == 'P', ResHTTP, Strict)
    case ResHTTP => Expect(p, ch == '/', ResMajor, Strict)
    case ResMajor =>
      if IsNum(ch) then Go(p.(major := DigitValue(ch), state := ResDot), End) else Fail(InvalidVersion)
    case ResDot => Expect(p, ch == '.', ResMinor, InvalidVersion)
    case ResMinor =>
      if IsNum(ch) then Go(p.(minor := DigitValue(ch), state := ResEnd), End) else Fail(InvalidVersion)
    case ResEnd => Expect(p, ch == ' ', ResFirstStatusCode, InvalidVersion)
    case ResFirstStatusCode =>
      if IsNum(ch) then Go(p.(status := DigitValue(ch), state := ResStatusCode), End)
      else if ch == ' ' then Go(p, End) else Fail(InvalidStatus)
    case ResLineAlmostDone => Expect(p, ch == '\n', FieldStart, Strict)
  }

  function MethodByte(p: Parser, ch: char): Outcome {
    if ch == ' ' && CharAt(MethodString(p.meth), p.index) == '\0' then
      Go(p.(state := ReqUrl(SpacesBeforeUrl), index := p.index + 1), End)
    else if NextMethod(p.meth, p.index, ch).None? then Fail(InvalidMethod)
    else Go(p.(meth := NextMethod(p.meth, p.index, ch).value, index := p.index + 1), End)
  }

  function UrlStep(p: Parser, u: UrlState, ch: char, acts: Acts): Outcome {
    var v := ParseUrlChar(u, ch);
    if v.UrlDead? then Fail(InvalidUrl) else Go(p.(state := ReqUrl(v)), acts)
  }

  function UrlByte(p: Parser, u: UrlState, ch: char): Outcome {
    match u
    case SpacesBeforeUrl =>
      if ch == ' ' then Go(p, End)
      else UrlStep(p, if p.meth.CONNECT? then ServerStart else SpacesBeforeUrl, ch, One(Mark(Url)))
    case Schema => UrlStep(p, u, ch, End)
    case SchemaSlash => UrlStep(p, u, ch, End)
    case SchemaSlashSlash => UrlStep(p, u, ch, End)
    case ServerStart => UrlStep(p, u, ch, End)
    case UrlDead => Fail(InvalidInternalState)
    case _ =>
      if ch == ' ' then Go(p.(state := ReqHttpStart), One(Flush(Url)))
      else if ch == '\r' then Go(p.(major := 0, minor := 9, state := ReqLineAlmostDone), One(Flush(Url)))
      else if ch == '\n' then Go(p.(major := 0, minor := 9, state := FieldStart), One(Flush(Url)))
      else UrlStep(p, u, ch, End)
  }

  predicate RequestLine(s: State) {
    s.ReqHttpStart? || s.ReqH? || s.ReqHT? || s.ReqHTT? || s.ReqHTTP? || s.ReqI? || s.ReqIC? || s.ReqMajor? ||
    s.ReqDot? || s.ReqMinor? || s.ReqEnd? || s.ReqLineAlmostDone?
  }

  function RequestLineByte(p: Parser, ch: char): Outcome
    requires RequestLine(p.state)
  {
    match p.state
    case ReqHttpStart =>
      if ch == ' ' then Go(p, End)
      else if ch == 'H' then Go(p.(state := ReqH), End)
      else if ch == 'I' && p.meth.SOURCE? then Go(p.(state := ReqI), End)
      else Fail(InvalidConstant)
    case ReqH => Expect(p, ch == 'T', ReqHT, Strict)
    case ReqHT => Expect(p, ch == 'T', ReqHTT, Strict)
    case ReqHTT => Expect(p, ch == 'P', ReqHTTP, Strict)
    case ReqI => Expect(p, ch == 'C', ReqIC, Strict)
    case ReqIC => Expect(p, ch == 'E', ReqHTTP, Strict)
    case ReqHTTP => Expect(p, ch == '/', ReqMajor, Strict)
    case ReqMajor =>
      if IsNum(ch) then Go(p.(major := DigitValue(ch), state := ReqDot), End) else Fail(InvalidVersion)
    case ReqDot => Expect(p, ch == '.', ReqMinor, InvalidVersion)
    case ReqMinor =>
      if IsNum(ch) then Go(p.(minor := DigitValue(ch), state := ReqEnd), End) else Fail(InvalidVersion)
    case ReqEnd =>
      if ch == '\r' then Go(p.(state := ReqLineAlmostDone), End)
      else if ch == '\n' then Go(p.(state := FieldStart), End)
      else Fail(InvalidVersion)
    case ReqLineAlmostDone => Expect(p, ch == '\n', FieldStart, LfExpected)
  }

  // ---------------------------------------------------------------- headers

  // One more octet against a literal, as the matching states do it: the next state and the next index.
  function MatchLiteral(h: HeaderState, index: nat, c: char, lit: string, found: HeaderState, miss: HeaderState)
    : (HeaderState, nat)
  {
    var i := index + 1;
    (if i > |lit| || c != CharAt(lit, i) then miss else if i == |lit| - 1 then found else h, i)
  }

  // One more octet of a field name.
  function MatchName(h: HeaderState, i: nat, ch: char): (HeaderState, nat) {
    var c := FoldToken(ch);
    match h
    case HC => (if c == 'o' then HCO else HGeneral, i + 1)
    case HCO => (if c == 'n' then HCON else HGeneral, i + 1)
    case HCON =>
      (if c == 'n' then HMatchingConnection else if c == 't' then HMatchingContentLength else HGeneral, i + 1)
    case HMatchingConnection => MatchLiteral(h, i, c, "connection", HConnection, HGeneral)
    case HMatchingProxyConnection => MatchLiteral(h, i, c, "proxy-connection", HConnection, HGeneral)
    case HMatchingContentLength => MatchLiteral(h, i, c, "content-length", HContentLength, HGeneral)
    case HMatchingTransferEncoding => MatchLiteral(h, i, c, "transfer-encoding", HTransferEncoding, HGeneral)
    case HMatchingUpgrade => MatchLiteral(h, i, c, "upgrade", HUpgrade, HGeneral)
    case HConnection => (if ch != ' ' then HGeneral else h, i)
    case HContentLength => (if ch != ' ' then HGeneral else h, i)
    case HTransferEncoding => (if ch != ' ' then HGeneral else h, i)
    case HUpgrade => (if ch != ' ' then HGeneral else h, i)
    case _ => (h, i)
  }

  function MatchField(p: Parser, ch: char): Parser {
    var m := MatchName(p.hstate, p.index, ch);
    p.(hstate := m.0, index := m.1)
  }

  function FieldByte(p: Parser, ch: char): Outcome {
    if IsToken(ch) then Go(MatchField(p, ch), End)
    else if ch == ':' then Go(p.(state := ValueDiscardWs), One(Flush(HeaderField)))
    else Fail(InvalidHeaderToken)
  }

  function FieldStartByte(p: Parser, ch: char): Outcome {
    if ch == '\r' then Go(p.(state := HeadersAlmostDone), End)
    else if ch == '\n' then HeadersAlmostDoneByte(p, ch)
    else if !IsToken(ch) then Fail(InvalidHeaderToken)
    else
      var c := FoldToken(ch);
      var h := if c == 'c' then HC else if c == 'p' then HMatchingProxyConnection
               else if c == 't' then HMatchingTransferEncoding else if c == 'u' then HMatchingUpgrade
               else HGeneral;
      Go(p.(state := Field, index := 0, hstate := h), One(Mark(HeaderField)))
  }

  // The state a Connection token starts in.
  function ConnectionToken(c: char, other: HeaderState): HeaderState {
    if c == 'k' then HMatchingKeepAlive else if c == 'c' then HMatchingClose
    else if c == 'u' then HMatchingConnUpgrade else other
  }

  function ValueStartByte(p: Parser, ch: char): Outcome {
    var q := p.(state := Value, index := 0);
    var acts := One(Mark(HeaderValue));
    match p.hstate
    case HUpgrade => Go(q.(flags := p.flags.(upgrade := true), hstate := HGeneral), acts)
    case HTransferEncoding =>
      Go(q.(hstate := if Lower(ch) == 'c' then HMatchingChunked else HGeneral), acts)
    case HContentLength =>
      if !IsNum(ch) then Fail(InvalidContentLength)
      else if p.flags.contentLength then Fail(UnexpectedContentLength)
      else Go(q.(flags := p.flags.(contentLength := true), contentLength := DigitValue(ch),
                 hstate := HContentLengthNum), acts)
    case HContentLengthWs => Go(q, acts)
    case HConnection => Go(q.(hstate := ConnectionToken(Lower(ch), HToken)), acts)
    case HTokenStart => Go(q, acts)
    case _ => Go(q.(hstate := HGeneral), acts)
  }

  // What one octet of a value changes: the match, the flags and the length.
  datatype Matched = Matched(h: HeaderState, i: nat, flags: Flags, length: nat) | Mismatch(e: Errno)

  function LengthDigit(i: nat, f: Flags, n: nat, ch: char): Matched {
    if ch == ' ' then Matched(HContentLengthWs, i, f, n)
    else if !IsNum(ch) then Mismatch(InvalidContentLength)
    else if (ULLONG_MAX - 10) / 10 < n then Mismatch(InvalidContentLength)
    else Matched(HContentLengthNum, i, f, n * 10 + DigitValue(ch))
  }

  // The flag that a finished Connection or Transfer-Encoding value sets.
  function ValueFlags(f: Flags, h: HeaderState): Flags {
    match h
    case HKeepAlive => f.(keepAlive := true)
    case HClose => f.(close := true)
    case HChunked => f.(chunked := true)
    case HConnUpgrade => f.(connUpgrade := true)
    case _ => f
  }

  // The end of a Connection token, or an octet that spoils it.
  function EndToken(h: HeaderState, i: nat, f: Flags, n: nat, ch: char): Matched {
    if ch == ',' then Matched(HTokenStart, 0, ValueFlags(f, h), n)
    else Matched(if ch != ' ' then HToken else h, i, f, n)
  }

  // One octet of a value that is neither CR nor LF, by what the value is being matched against.
  function MatchContent(h: HeaderState, i: nat, f: Flags, n: nat, ch: char): Matched {
    var c := Lower(ch);
    match h
    case HGeneral => Matched(h, i, f, n)
    case HConnection => Matched(h, i, f, n)
    case HTransferEncoding => Matched(h, i, f, n)
    case HContentLength => if ch == ' ' then Matched(h, i, f, n) else LengthDigit(i, f, n, ch)
    case HContentLengthNum => LengthDigit(i, f, n, ch)
    case HContentLengthWs => if ch == ' ' then Matched(h, i, f, n) else Mismatch(InvalidContentLength)
    case HMatchingChunked => Literal(MatchLiteral(h, i, c, "chunked", HChunked, HGeneral), f, n)
    case HTokenStart =>
      Matched(ConnectionToken(c, if IsToken(c) then HToken else if c == ' ' || c == '\t' then h else HGeneral),
              i, f, n)
    case HMatchingKeepAlive => Literal(MatchLiteral(h, i, c, "keep-alive", HKeepAlive, HToken), f, n)
    case HMatchingClose => Literal(MatchLiteral(h, i, c, "close", HClose, HToken), f, n)
    case HMatchingConnUpgrade => Literal(MatchLiteral(h, i, c, "upgrade", HConnUpgrade, HToken), f, n)
    case HToken => if ch == ',' then Matched(HTokenStart, 0, f, n) else Matched(h, i, f, n)
    case HChunked => Matched(if ch != ' ' then HGeneral else h, i, f, n)
    case HKeepAlive => EndToken(h, i, f, n, ch)
    case HClose => EndToken(h, i, f, n, ch)
    case HConnUpgrade => EndToken(h, i, f, n, ch)
    case _ => Matched(HGeneral, i, f, n)
  }

  function Literal(m: (HeaderState, nat), f: Flags, n: nat): Matched { Matched(m.0, m.1, f, n) }

  function MatchValue(p: Parser, ch: char): Outcome {
    match MatchContent(p.hstate, p.index, p.flags, p.contentLength, ch)
    case Matched(h, i, f, n) => Go(p.(hstate := h, index := i, flags := f, contentLength := n), End)
    case Mismatch(e) => Fail(e)
  }

  function ValueByte(p: Parser, ch: char): Outcome {
    if ch == '\r' then Go(p.(state := HeaderAlmostDone), One(Flush(HeaderValue)))
    else if ch == '\n' then Go(p.(state := ValueLws), One(Flush(HeaderValue)))
    else if !IsHeaderChar(ch) then Fail(InvalidHeaderToken)
    else MatchValue(p, ch)
  }

  function ValueLwsByte(p: Parser, ch: char): Outcome {
    if ch == ' ' || ch == '\t' then
      ValueStartByte(p.(hstate := if p.hstate == HContentLengthNum then HContentLengthWs else p.hstate), ch)
    else FieldStartByte(p.(flags := ValueFlags(p.flags, p.hstate)), ch)
  }

  function ValueDiscardLwsByte(p: Parser, ch: char): Outcome {
    if ch == ' ' || ch == '\t' then Go(p.(state := ValueDiscardWs), End)
    else if p.hstate.HContentLength? then Fail(InvalidContentLength)
    else Before(Mark(HeaderValue),
                Before(Flush(HeaderValue), FieldStartByte(p.(flags := ValueFlags(p.flags, p.hstate)), ch)))
  }

  function ValueDiscardWsByte(p: Parser, ch: char): Outcome {
    if ch == ' ' || ch == '\t' then Go(p, End)
    else if ch == '\r' then Go(p.(state := ValueDiscardWsAlmostDone), End)
    else if ch == '\n' then Go(p.(state := ValueDiscardLws), End)
    else ValueStartByte(p, ch)
  }

  // ---------------------------------------------------------------- end of headers

  function MessageDoneByte(p: Parser): Outcome {
    var q := p.(state := NewMessage(p));
    if p.upgrade then Exit(q, One(Notify(MessageComplete))) else Go(q, One(Notify(MessageComplete)))
  }

  function HeadersAlmostDoneByte(p: Parser, ch: char): Outcome {
    if ch != '\n' then Fail(Strict)
    else if p.flags.trailing then Before(Notify(ChunkComplete), MessageDoneByte(p))
    else if p.flags.chunked && p.flags.contentLength then Fail(UnexpectedContentLength)
    else
      var up := if p.flags.upgrade && p.flags.connUpgrade then p.ptype.Request? || p.status == 101
                else p.meth.CONNECT?;
      Before(Notify(HeadersComplete), HeadersDoneByte(p.(upgrade := up), ch))
  }

  function HeadersDoneByte(p: Parser, ch: char): Outcome {
    if ch != '\n' then Fail(Strict)
    else
      var q := p.(nread := 0);
      var hasBody := p.flags.chunked || (p.contentLength > 0 && p.contentLength != ULLONG_MAX);
      if p.upgrade && (p.meth.CONNECT? || p.flags.skipBody || !hasBody) then
        Exit(q.(state := NewMessage(q)), One(Notify(MessageComplete)))
      else if p.flags.skipBody then Go(q.(state := NewMessage(q)), One(Notify(MessageComplete)))
      else if p.flags.chunked then Go(q.(state := ChunkSizeStart), End)
      else if p.contentLength == 0 then Go(q.(state := NewMessage(q)), One(Notify(MessageComplete)))
      else if p.contentLength != ULLONG_MAX then Go(q.(state := BodyIdentity), End)
      else if !NeedsEof(q) then Go(q.(state := NewMessage(q)), One(Notify(MessageComplete)))
      else Go(q.(state := BodyIdentityEof), End)
  }

  // ---------------------------------------------------------------- body

  function BodyIdentityByte(p: Parser): Outcome
    requires p.contentLength > 0
  {
    var q := p.(contentLength := p.contentLength - 1);
    if q.contentLength == 0 then Before(Mark(Body), Before(FlushThrough(Body), MessageDoneByte(q)))
    else Go(q, One(Mark(Body)))
  }

  function ChunkSizeByte(p: Parser, ch: char): Outcome {
    if ch == '\r' then Go(p.(state := ChunkSizeAlmostDone), End)
    else if Unhex(ch).None? then
      if ch == ';' || ch == ' ' then Go(p.(state := ChunkParameters), End) else Fail(InvalidChunkSize)
    else if (ULLONG_MAX - 16) / 16 < p.contentLength then Fail(InvalidContentLength)
    else Go(p.(contentLength := p.contentLength * 16 + Unhex(ch).value), End)
  }

  function ChunkSizeAlmostDoneByte(p: Parser, ch: char): Outcome {
    if ch != '\n' then Fail(Strict)
    else
      var q := p.(nread := 0);
      if p.contentLength == 0 then
        Go(q.(flags := p.flags.(trailing := true), state := FieldStart), One(Notify(ChunkHeader)))
      else Go(q.(state := ChunkData), One(Notify(ChunkHeader)))
  }

  function ChunkDataByte(p: Parser): Outcome
    requires p.contentLength > 0
  {
    var q := p.(contentLength := p.contentLength - 1);
    Go(if q.contentLength == 0 then q.(state := ChunkDataAlmostDone) else q, One(Mark(Body)))
  }

  // The header states with a case of their own while a field name is read.
  predicate FieldHeaderState(h: HeaderState) {
    !(h.HContentLengthNum? || h.HContentLengthWs? || h.HMatchingChunked? || h.HTokenStart? ||
      h.HMatchingKeepAlive? || h.HMatchingClose? || h.HMatchingConnUpgrade? || h.HToken? || h.HChunked? ||
      h.HKeepAlive? || h.HClose? || h.HConnUpgrade?)
  }

  predicate Chunky(s: State) {
    s.ChunkSizeStart? || s.ChunkSize? || s.ChunkParameters? || s.ChunkSizeAlmostDone? || s.ChunkData? ||
    s.ChunkDataAlmostDone? || s.ChunkDataDone?
  }

  // Every assertion of the parser that one octet can reach.
  predicate Asserts(p: Parser) {
    && (p.state.ChunkSizeStart? ==> p.nread == 1)
    && (Chunky(p.state) ==> p.flags.chunked)
    && (p.state.ChunkData? || p.state.BodyIdentity? ==> p.contentLength != 0 && p.contentLength != ULLONG_MAX)
    && (p.state.ChunkDataAlmostDone? ==> p.contentLength == 0)
    && (p.state.Field? ==> FieldHeaderState(p.hstate))
    && (p.state.Value? ==> !p.hstate.HConnection? && !p.hstate.HTransferEncoding?)
    && (p.state.ReqUrl? ==> !p.state.u.UrlDead?)
  }

  predicate InHeaders(s: State) {
    s.FieldStart? || s.Field? || s.ValueDiscardWs? || s.ValueDiscardWsAlmostDone? || s.ValueDiscardLws? ||
    s.ValueStart? || s.Value? || s.HeaderAlmostDone? || s.ValueLws? || s.HeadersAlmostDone? || s.HeadersDone?
  }

  predicate InBody(s: State) {
    s.ChunkSizeStart? || s.ChunkSize? || s.ChunkParameters? || s.ChunkSizeAlmostDone? || s.ChunkData? ||
    s.ChunkDataAlmostDone? || s.ChunkDataDone? || s.BodyIdentity? || s.BodyIdentityEof? || s.MessageDone?
  }

  function ExecHeaders(p: Parser, ch: char): Outcome
    requires InHeaders(p.state)
  {
    match p.state
    case FieldStart => FieldStartByte(p, ch)
    case Field => FieldByte(p, ch)
    case ValueDiscardWs => ValueDiscardWsByte(p, ch)
    case ValueDiscardWsAlmostDone => Expect(p, ch == '\n', ValueDiscardLws, Strict)
    case ValueDiscardLws => ValueDiscardLwsByte(p, ch)
    case ValueStart => ValueStartByte(p, ch)
    case Value => ValueByte(p, ch)
    case HeaderAlmostDone => Expect(p, ch == '\n', ValueLws, LfExpected)
    case ValueLws => ValueLwsByte(p, ch)
    case HeadersAlmostDone => HeadersAlmostDoneByte(p, ch)
    case HeadersDone => HeadersDoneByte(p, ch)
  }

  function ExecBody(p: Parser, ch: char): Outcome
    requires InBody(p.state) && Asserts(p)
  {
    match p.state
    case BodyIdentity => BodyIdentityByte(p)
    case BodyIdentityEof => Go(p, One(Mark(Body)))
    case MessageDone => MessageDoneByte(p)
    case ChunkSizeStart =>
      if Unhex(ch).None? then Fail(InvalidChunkSize)
      else Go(p.(contentLength := Unhex(ch).value, state := ChunkSize), End)
    case ChunkSize => ChunkSizeByte(p, ch)
    case ChunkParameters => Go(if ch == '\r' then p.(state := ChunkSizeAlmostDone) else p, End)
    case ChunkSizeAlmostDone => ChunkSizeAlmostDoneByte(p, ch)
    case ChunkData => ChunkDataByte(p)
    case ChunkDataAlmostDone => Expect2(p, ch == '\r', ChunkDataDone, Flush(Body))
    case ChunkDataDone => Expect2(p.(nread := 0), ch == '\n', ChunkSizeStart, Notify(ChunkComplete))
  }

  function ExecStart(p: Parser, ch: char): Outcome
    requires !InHeaders(p.state) && !InBody(p.state)
  {
    if RequestLine(p.state) then RequestLineByte(p, ch)
    else if ResponseLine(p.state) then ResponseLineByte(p, ch)
    else match p.state
    case Dead => if ch == '\r' || ch == '\n' then Go(p, End) else Fail(ClosedConnection)
    case StartReqOrRes => StartReqOrResByte(p, ch)
    case ResOrRespH => ResOrRespHByte(p, ch)
    case StartRes => StartResByte(p, ch)
    case ResStatusCode => StatusCodeByte(p, ch)
    case ResStatusStart => StatusByte(p.(index := 0), ch, true)
    case ResStatus => StatusByte(p, ch, false)
    case StartReq => StartReqByte(p, ch)
    case ReqMethod => MethodByte(p, ch)
    case ReqUrl(u) => UrlByte(p, u, ch)
  }

  // The switch of http_parser_execute; nread already counts the octet.
  function Exec(p: Parser, ch: char): Outcome {
    if Guarded(p.state) && !Asserts(p) then Fail(AssertFailed)
    else if InHeaders(p.state) then ExecHeaders(p, ch)
    else if InBody(p.state) then ExecBody(p, ch)
    else ExecStart(p, ch)
  }

  function Expect2(p: Parser, ok: bool, next: State, a: Act): Outcome {
    if ok then Go(p.(state := next), One(a)) else Fail(Strict)
  }

  // The octet counted against the header limit, then executed.
  function Counted(p: Parser): Parser {
    if ParsingHeader(p.state) then p.(nread := p.nread + 1) else p
  }

  function Step(p: Parser, ch: char): Outcome {
    var q := Counted(p);
    if ParsingHeader(p.state) && q.nread > MAX_HEADER_SIZE then Fail(HeaderOverflow) else Exec(q, ch)
  }

  // The match index while a field name or a value is compared with a literal.
  predicate IndexFits(h: HeaderState, i: nat) {
    && i <= 17
    && (h.HC? || h.HTokenStart? ==> i == 0)
    && (h.HCO? ==> i == 1)
    && (h.HCON? ==> i == 2)
    && (h.HMatchingClose? ==> i <= 3)
    && (h.HMatchingUpgrade? || h.HMatchingChunked? || h.HMatchingConnUpgrade? ==> i <= 5)
    && (h.HMatchingConnection? || h.HMatchingKeepAlive? ==> i <= 8)
    && (h.HMatchingContentLength? ==> i <= 12)
    && (h.HMatchingProxyConnection? ==> i <= 14)
    && (h.HMatchingTransferEncoding? ==> i <= 15)
  }

  // What no state and no message boundary changes.
  predicate Bounded(p: Parser) {
    && p.contentLength <= ULLONG_MAX
    && p.nread <= MAX_HEADER_SIZE
    && (p.flags.trailing ==> p.flags.chunked)
    && p.status <= 999
    && p.index <= 17
  }

  // The states whose entry asks for more than `Bounded`.
  predicate Guarded(s: State) {
    s.Field? || s.Value? || s.ReqMethod? || s.ReqUrl? || s.ChunkSizeStart? || s.ChunkSize? || s.ChunkParameters? ||
    s.ChunkSizeAlmostDone? || s.ChunkData? || s.ChunkDataAlmostDone? || s.ChunkDataDone? || s.BodyIdentity? ||
    s.MessageDone? || s.HeadersDone?
  }

  // What holds of the parser between two octets; in particular no assertion of the next step fails,
  // and the 7-bit index, the 16-bit status and the 64-bit length never wrap.
  predicate Inv(p: Parser) {
    Bounded(p) && if Guarded(p.state) then GuardHolds(p) else true
  }

  predicate GuardHolds(p: Parser) {
    && Asserts(Counted(p))
    && (p.state.ChunkSize? || p.state.ChunkParameters? || p.state.ChunkSizeAlmostDone? ==>
          p.contentLength < ULLONG_MAX)
    && !p.state.MessageDone? && !p.state.HeadersDone?
    && (p.state.ReqMethod? ==> p.index <= 11)
    && (p.state.Field? || p.state.Value? ==> IndexFits(p.hstate, p.index))
  }

  predicate Kept(o: Outcome) { if o.Fail? then o.errno != AssertFailed else Inv(o.p) }

  lemma HeadersDoneKeepsInv(p: Parser, ch: char)
    requires Bounded(p)
    ensures Kept(HeadersAlmostDoneByte(p, ch))
  {
    var o := HeadersAlmostDoneByte(p, ch);
    if !o.Fail? {
      assert !o.p.state.Field? && !o.p.state.Value? && !o.p.state.ReqMethod?;
      assert Bounded(o.p);
      assert Asserts(Counted(o.p));
    }
  }

  lemma FieldStartKeepsInv(p: Parser, ch: char)
    requires Bounded(p)
    ensures Kept(FieldStartByte(p, ch))
  {
    HeadersDoneKeepsInv(p, ch);
    var o := FieldStartByte(p, ch);
    if !o.Fail? && ch != '\n' {
      assert Bounded(o.p);
    }
  }

  // A match that goes on has not reached the end of its literal.
  lemma MatchLiteralFits(h: HeaderState, i: nat, c: char, lit: string, found: HeaderState, miss: HeaderState)
    requires c != '\0' && i <= |lit| - 2 <= 15 && h != miss && h != found
    ensures var m := MatchLiteral(h, i, c, lit, found, miss);
            m.1 <= 17 && (m.0 == miss || m.0 == found || (m.0 == h && m.1 <= |lit| - 2))
  {
  }

  lemma MatchNameFits(h: HeaderState, i: nat, ch: char)
    requires FieldHeaderState(h) && IndexFits(h, i) && IsToken(ch)
    ensures var m := MatchName(h, i, ch); FieldHeaderState(m.0) && IndexFits(m.0, m.1)
  {
    var c := FoldToken(ch);
    match h {
      case HMatchingConnection => MatchLiteralFits(h, i, c, "connection", HConnection, HGeneral);
      case HMatchingProxyConnection => MatchLiteralFits(h, i, c, "proxy-connection", HConnection, HGeneral);
      case HMatchingContentLength => MatchLiteralFits(h, i, c, "content-length", HContentLength, HGeneral);
      case HMatchingTransferEncoding => MatchLiteralFits(h, i, c, "transfer-encoding", HTransferEncoding, HGeneral);
      case HMatchingUpgrade => MatchLiteralFits(h, i, c, "upgrade", HUpgrade, HGeneral);
      case _ =>
    }
  }

  lemma FieldKeepsInv(p: Parser, ch: char)
    requires Bounded(p) && Asserts(p) && p.state.Field? && IndexFits(p.hstate, p.index)
    ensures Kept(FieldByte(p, ch))
  {
    if IsToken(ch) {
      MatchNameFits(p.hstate, p.index, ch);
      var q := MatchField(p, ch);
      assert Bounded(q) && Asserts(q);
    } else if ch == ':' {
      assert Bounded(p.(state := ValueDiscardWs)) && !Guarded(ValueDiscardWs);
    }
  }

  lemma MatchContentFits(h: HeaderState, i: nat, f: Flags, n: nat, ch: char)
    requires IndexFits(h, i)
    ensures var m := MatchContent(h, i, f, n, ch); m.Matched? ==> IndexFits(m.h, m.i)
  {
    var c := Lower(ch);
    match h {
      case HMatchingChunked => MatchLiteralFits(h, i, c, "chunked", HChunked, HGeneral);
      case HMatchingKeepAlive => MatchLiteralFits(h, i, c, "keep-alive", HKeepAlive, HToken);
      case HMatchingClose => MatchLiteralFits(h, i, c, "close", HClose, HToken);
      case HMatchingConnUpgrade => MatchLiteralFits(h, i, c, "upgrade", HConnUpgrade, HToken);
      case _ =>
    }
  }

  lemma MatchContentKeeps(h: HeaderState, i: nat, f: Flags, n: nat, ch: char)
    requires n <= ULLONG_MAX && !h.HConnection? && !h.HTransferEncoding?
    ensures var m := MatchContent(h, i, f, n, ch);
            if m.Mismatch? then m.e != AssertFailed
            else m.length <= ULLONG_MAX && !m.h.HConnection? && !m.h.HTransferEncoding?
                 && (m.flags == f || m.flags == ValueFlags(f, h))
  {
  }

  lemma MatchValueKeepsInv(p: Parser, ch: char)
    requires Bounded(p) && Asserts(p) && p.state.Value? && IndexFits(p.hstate, p.index)
    ensures Kept(MatchValue(p, ch))
  {
    MatchContentFits(p.hstate, p.index, p.flags, p.contentLength, ch);
    MatchContentKeeps(p.hstate, p.index, p.flags, p.contentLength, ch);
    var o := MatchValue(p, ch);
    if o.Go? {
      assert Bounded(o.p);
      assert Asserts(Counted(o.p));
    }
  }

  lemma ValueKeepsInv(p: Parser, ch: char)
    requires Bounded(p) && Asserts(p) && p.state.Value? && IndexFits(p.hstate, p.index)
    ensures Kept(ValueByte(p, ch))
  {
    if ch == '\r' || ch == '\n' {
      var q := ValueByte(p, ch).p;
      assert Bounded(q);
      assert !Guarded(q.state);
    } else {
      MatchValueKeepsInv(p, ch);
    }
  }

  lemma MethodKeepsInv(p: Parser, ch: char)
    requires Bounded(p) && p.state.ReqMethod? && p.index <= 11
    ensures Kept(MethodByte(p, ch))
  {
  }

  lemma ValueStartKeepsInv(p: Parser, ch: char)
    requires Bounded(p)
    ensures Kept(ValueStartByte(p, ch))
  {
    var o := ValueStartByte(p, ch);
    if !o.Fail? {
      assert o.p.state.Value?;
      assert IndexFits(o.p.hstate, o.p.index);
      assert Asserts(o.p);
      assert Bounded(o.p);
    }
  }

  lemma StartReqKeepsInv(p: Parser, ch: char)
    requires Bounded(p)
    ensures Kept(StartReqByte(p, ch))
  {
    var o := StartReqByte(p, ch);
    if !o.Fail? {
      assert Bounded(o.p);
      assert o.p.state.StartReq? || (o.p.state.ReqMethod? && o.p.index == 1);
    }
  }

  lemma StartResKeepsInv(p: Parser, ch: char)
    requires Bounded(p)
    ensures p.state.StartRes? ==> Kept(StartResByte(p, ch))
    ensures p.state.ResOrRespH? ==> Kept(ResOrRespHByte(p, ch))
  {
    var o := StartResByte(p, ch);
    if !o.Fail? && p.state.StartRes? { assert Bounded(o.p); assert !Guarded(o.p.state); }
    o := ResOrRespHByte(p, ch);
    if !o.Fail? { assert Bounded(o.p); assert o.p.state.ReqMethod? || !Guarded(o.p.state); }
  }

  lemma StartKeepsInv(p: Parser, ch: char)
    requires Bounded(p) && p.state.StartReqOrRes?
    ensures Kept(StartReqOrResByte(p, ch))
  {
    var q := p.(flags := NO_FLAGS, contentLength := ULLONG_MAX);
    if ch == '\r' || ch == '\n' {
    } else if ch == 'H' {
      assert Bounded(q.(state := ResOrRespH)) && !Guarded(ResOrRespH);
    } else {
      StartReqKeepsInv(q.(ptype := Request), ch);
    }
  }

  lemma StatusKeepsInv(p: Parser, ch: char, first: bool)
    requires Bounded(p)
    ensures Kept(StatusByte(p, ch, first))
  {
    var o := StatusByte(p, ch, first);
    assert Bounded(o.p);
    assert !Guarded(o.p.state);
  }

  lemma StatusCodeKeepsInv(p: Parser, ch: char)
    requires Bounded(p) && p.state.ResStatusCode?
    ensures Kept(StatusCodeByte(p, ch))
  {
    if ch == '\r' || ch == '\n' {
      StatusKeepsInv(p.(index := 0), ch, true);
    } else if IsNum(ch) || ch == ' ' {
      var o := StatusCodeByte(p, ch);
      if !o.Fail? { assert Bounded(o.p); assert !Guarded(o.p.state); }
    }
  }

  lemma UrlKeepsInv(p: Parser, ch: char)
    requires Bounded(p) && p.state.ReqUrl? && !p.state.u.UrlDead?
    ensures Kept(UrlByte(p, p.state.u, ch))
  {
    var o := UrlByte(p, p.state.u, ch);
    if !o.Fail? {
      assert Bounded(o.p);
      assert !Guarded(o.p.state) || (o.p.state.ReqUrl? && !o.p.state.u.UrlDead?);
    }
  }

  lemma RequestLineKeepsInv(p: Parser, ch: char)
    requires Bounded(p) && RequestLine(p.state)
    ensures Kept(RequestLineByte(p, ch))
  {
    var o := RequestLineByte(p, ch);
    if !o.Fail? {
      assert RequestLine(o.p.state) || o.p.state.FieldStart?;
      assert o.p == p.(state := o.p.state, major := o.p.major, minor := o.p.minor);
      assert Bounded(o.p);
    }
  }

  lemma ResponseLineKeepsInv(p: Parser, ch: char)
    requires Bounded(p) && ResponseLine(p.state)
    ensures Kept(ResponseLineByte(p, ch))
  {
    var o := ResponseLineByte(p, ch);
    if !o.Fail? {
      assert ResponseLine(o.p.state) || o.p.state.FieldStart? || o.p.state.ResStatusCode?;
      assert Bounded(o.p);
    }
  }

  lemma ExecStartKeepsInv(p: Parser, ch: char)
    requires Bounded(p) && !InHeaders(p.state) && !InBody(p.state)
    requires Guarded(p.state) ==> Asserts(p) && (p.state.ReqMethod? ==> p.index <= 11)
    ensures Kept(ExecStart(p, ch))
  {
    match p.state {
      case Dead =>
      case StartReqOrRes => StartKeepsInv(p, ch);
      case ResOrRespH => StartResKeepsInv(p, ch);
      case StartRes => StartResKeepsInv(p, ch);
      case StartReq => StartReqKeepsInv(p, ch);
      case ResStatusCode => StatusCodeKeepsInv(p, ch);
      case ResStatusStart => StatusKeepsInv(p.(index := 0), ch, true);
      case ResStatus => StatusKeepsInv(p, ch, false);
      case ReqMethod => MethodKeepsInv(p, ch);
      case ReqUrl(u) => UrlKeepsInv(p, ch);
      case _ =>
        if RequestLine(p.state) { RequestLineKeepsInv(p, ch); } else { ResponseLineKeepsInv(p, ch); }
    }
  }

  lemma LwsKeepsInv(p: Parser, ch: char)
    requires Bounded(p)
    ensures Kept(ValueLwsByte(p, ch))
  {
    if ch == ' ' || ch == '\t' {
      ValueStartKeepsInv(p.(hstate := if p.hstate == HContentLengthNum then HContentLengthWs else p.hstate), ch);
    } else {
      var q := p.(flags := ValueFlags(p.flags, p.hstate));
      assert Bounded(q);
      FieldStartKeepsInv(q, ch);
    }
  }

  lemma DiscardLwsKeepsInv(p: Parser, ch: char)
    requires Bounded(p)
    ensures Kept(ValueDiscardLwsByte(p, ch))
  {
    if ch == ' ' || ch == '\t' {
      var q := p.(state := ValueDiscardWs);
      assert Bounded(q) && !Guarded(q.state);
    } else {
      var q := p.(flags := ValueFlags(p.flags, p.hstate));
      assert Bounded(q);
      FieldStartKeepsInv(q, ch);
    }
  }

  lemma DiscardWsKeepsInv(p: Parser, ch: char)
    requires Bounded(p) && p.state.ValueDiscardWs?
    ensures Kept(ValueDiscardWsByte(p, ch))
  {
    if ch == ' ' || ch == '\t' || ch == '\r' || ch == '\n' {
      var q := ValueDiscardWsByte(p, ch).p;
      assert Bounded(q);
      assert !Guarded(q.state);
    } else {
      ValueStartKeepsInv(p, ch);
    }
  }

  lemma ExecHeadersKeepsInv(p: Parser, ch: char)
    requires Bounded(p) && InHeaders(p.state) && !p.state.HeadersDone?
    requires p.state.Field? || p.state.Value? ==> Asserts(p) && IndexFits(p.hstate, p.index)
    ensures Kept(ExecHeaders(p, ch))
  {
    match p.state {
      case Field => FieldKeepsInv(p, ch);
      case Value => ValueKeepsInv(p, ch);
      case FieldStart => FieldStartKeepsInv(p, ch);
      case HeadersAlmostDone => HeadersDoneKeepsInv(p, ch);
      case ValueLws => LwsKeepsInv(p, ch);
      case ValueDiscardLws => DiscardLwsKeepsInv(p, ch);
      case ValueStart => ValueStartKeepsInv(p, ch);
      case ValueDiscardWs => DiscardWsKeepsInv(p, ch);
      case ValueDiscardWsAlmostDone => assert !Guarded(ValueDiscardLws);
      case HeaderAlmostDone => assert !Guarded(ValueLws);
    }
  }

  lemma ChunkSizeKeepsInv(p: Parser, ch: char)
    requires Bounded(p) && Asserts(p) && InBody(p.state) && ParsingHeader(p.state)
    requires p.contentLength < ULLONG_MAX || p.state.ChunkSizeStart?
    ensures Kept(ExecBody(p, ch))
  {
    var o := ExecBody(p, ch);
    if !o.Fail? {
      assert o.p.state.ChunkSize? || o.p.state.ChunkParameters? || o.p.state.ChunkSizeAlmostDone? ||
             o.p.state.ChunkData? || o.p.state.FieldStart?;
      assert Bounded(o.p);
    }
  }

  lemma BodyKeepsInv(p: Parser, ch: char)
    requires Bounded(p) && Asserts(p) && InBody(p.state) && !ParsingHeader(p.state) && !p.state.MessageDone?
    ensures Kept(ExecBody(p, ch))
  {
    var o := ExecBody(p, ch);
    if !o.Fail? {
      assert o.p.state == p.state || o.p.state.ChunkDataAlmostDone? || o.p.state.ChunkDataDone? ||
             o.p.state.ChunkSizeStart? || !Guarded(o.p.state);
      assert Bounded(o.p);
    }
  }

  // Every reachable state is safe: no octet makes an assertion of the parser fail.
  lemma StepKeepsInv(p: Parser, ch: char)
    requires Inv(p)
    ensures Kept(Step(p, ch))
  {
    var q := Counted(p);
    if ParsingHeader(p.state) && q.nread > MAX_HEADER_SIZE { return; }
    assert Bounded(q);
    if InHeaders(p.state) {
      ExecHeadersKeepsInv(q, ch);
    } else if !InBody(p.state) {
      ExecStartKeepsInv(q, ch);
    } else if ParsingHeader(p.state) {
      ChunkSizeKeepsInv(q, ch);
    } else {
      BodyKeepsInv(q, ch);
    }
  }
}
