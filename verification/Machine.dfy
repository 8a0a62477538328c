/** One byte of `http_parser_execute`, as a function: the parser before the byte
    gives the parser after it and the callbacks the byte causes. */
module Machine {
  import opened Syntax

  datatype ParserType = Request | Response | Both

  datatype Method =
    | DELETE | GET | HEAD | POST | PUT | CONNECT | OPTIONS | TRACE | COPY | LOCK
    | MKCOL | MOVE | PROPFIND | PROPPATCH | UNLOCK | REPORT | MKACTIVITY | CHECKOUT
    | MERGE | MSEARCH | NOTIFY | SUBSCRIBE | UNSUBSCRIBE

  function MethodString(m: Method): string {
    match m
    case DELETE => "DELETE"
    case GET => "GET"
    case HEAD => "HEAD"
    case POST => "POST"
    case PUT => "PUT"
    case CONNECT => "CONNECT"
    case OPTIONS => "OPTIONS"
    case TRACE => "TRACE"
    case COPY => "COPY"
    case LOCK => "LOCK"
    case MKCOL => "MKCOL"
    case MOVE => "MOVE"
    case PROPFIND => "PROPFIND"
    case PROPPATCH => "PROPPATCH"
    case UNLOCK => "UNLOCK"
    case REPORT => "REPORT"
    case MKACTIVITY => "MKACTIVITY"
    case CHECKOUT => "CHECKOUT"
    case MERGE => "MERGE"
    case MSEARCH => "M-SEARCH"
    case NOTIFY => "NOTIFY"
    case SUBSCRIBE => "SUBSCRIBE"
    case UNSUBSCRIBE => "UNSUBSCRIBE"
  }

  datatype State =
    | Dead
    | StartReqOrRes | ResOrRespH | StartRes
    | ResH | ResHT | ResHTT | ResHTTP
    | ResFirstHttpMajor | ResHttpMajor | ResFirstHttpMinor | ResHttpMinor
    | ResFirstStatusCode | ResStatusCode | ResStatus | ResLineAlmostDone
    | StartReq
    | ReqMethod | ReqSpacesBeforeUrl
    | ReqSchema | ReqSchemaSlash | ReqSchemaSlashSlash | ReqHost | ReqPort
    | ReqPath | ReqQueryStringStart | ReqQueryString | ReqFragmentStart | ReqFragment
    | ReqHttpStart | ReqHttpH | ReqHttpHT | ReqHttpHTT | ReqHttpHTTP
    | ReqFirstHttpMajor | ReqHttpMajor | ReqFirstHttpMinor | ReqHttpMinor | ReqLineAlmostDone
    | HeaderFieldStart | HeaderField | HeaderValueStart | HeaderValue | HeaderAlmostDone
    | ChunkSizeStart | ChunkSize | ChunkParameters | ChunkSizeAlmostDone
    | HeadersAlmostDone
    | ChunkData | ChunkDataAlmostDone | ChunkDataDone
    | BodyIdentity | BodyIdentityEof

  datatype HeaderState =
    | General | C | CO | CON
    | MatchingConnection | MatchingProxyConnection | MatchingContentLength
    | MatchingTransferEncoding | MatchingUpgrade
    | Connection | ContentLength | TransferEncoding | Upgrade
    | MatchingChunked | MatchingKeepAlive | MatchingClose
    | Chunked | KeepAlive | Close

  const CONNECTION := "connection"
  const PROXY_CONNECTION := "proxy-connection"
  const CONTENT_LENGTH := "content-length"
  const TRANSFER_ENCODING := "transfer-encoding"
  const UPGRADE := "upgrade"
  const CHUNKED := "chunked"
  const KEEP_ALIVE := "keep-alive"
  const CLOSE := "close"

  const MAX_HEADER_SIZE: nat := 80 * 1024

  /** `F_SKIPBODY` has no member: only a callback that returns 1 sets it. */
  datatype Flags = Flags(chunked: bool, keepAlive: bool, close: bool, trailing: bool, upgrade: bool)

  const NO_FLAGS := Flags(false, false, false, false, false)

  /** The fields of `struct http_parser`.  Inside a call `nread` is the local
      64-bit counter; `Narrow` says what is stored when the call returns. */
  datatype Parser = Parser(
    kind: ParserType,
    flags: Flags,
    state: State,
    headerState: HeaderState,
    index: nat,
    nread: nat,
    contentLength: nat,
    httpMajor: nat,
    httpMinor: nat,
    statusCode: nat,
    meth: Method,
    upgrade: bool)

  /** The message data that a callback receives as slices. */
  datatype Slice = Url | Path | Query | Fragment | Field | Value

  /** What the parser says about a message when its headers are complete. */
  datatype Summary =
    | RequestSummary(meth: Method, reqMajor: nat, reqMinor: nat, reqKeepAlive: bool, reqLength: nat)
    | ResponseSummary(status: nat, resMajor: nat, resMinor: nat, resKeepAlive: bool, resLength: nat)

  /** What one byte makes the parser tell the application, in order.  `Flush` ends
      a slice before the byte; `BodyByte` hands the byte itself to `on_body`. */
  datatype Signal =
    | MessageBegin
    | Flush(slice: Slice)
    | HeadersComplete(summary: Summary)
    | BodyByte
    | MessageComplete

  /** `Error` is `goto error`; `Upgraded` is the early return for another protocol;
      `Aborted` is a failing C assertion; `Stray` is a step whose C text reads
      outside a method string or counts a negative length, which C leaves undefined. */
  datatype Outcome =
    | Next(q: Parser, signals: seq<Signal>)
    | Error
    | Upgraded(q: Parser, signals: seq<Signal>)
    | Aborted
    | Stray

  function Goto(q: Parser, s: State): Outcome { Next(q.(state := s), []) }

  /** `STRICT_CHECK` on one expected byte. */
  function Expect(q: Parser, ch: char, expected: char, s: State): Outcome {
    if ch != expected then Error else Goto(q, s)
  }

  /** `PARSING_HEADER`: the states up to `s_headers_almost_done` in the C enumeration. */
  predicate ParsingHeader(s: State) {
    !(s.ChunkData? || s.ChunkDataAlmostDone? || s.ChunkDataDone? || s.BodyIdentity? || s.BodyIdentityEof?)
  }

  function ShouldKeepAlive(q: Parser): bool {
    if q.httpMajor > 0 && q.httpMinor > 0 then !q.flags.close else q.flags.keepAlive
  }

  function StartState(q: Parser): State {
    if q.kind == Request then StartReq else StartRes
  }

  /** `NEW_MESSAGE` in the strict build. */
  function NewMessage(q: Parser): State {
    if ShouldKeepAlive(q) then StartState(q) else Dead
  }

  /** `http_parser_init`: the fields it does not assign keep what they held. */
  function Init(q: Parser, t: ParserType): Parser {
    q.(kind := t,
       state := match t case Request => StartReq case Response => StartRes case Both => StartReqOrRes,
       nread := 0, upgrade := false, flags := NO_FLAGS, meth := DELETE)
  }

  // ----- First line of a message -----

  predicate InStart(s: State) {
    s.StartReqOrRes? || s.ResOrRespH? || s.StartRes? || s.StartReq? || s.ReqMethod?
  }

  function BeginMessage(q: Parser): Parser {
    q.(flags := NO_FLAGS, contentLength := SIZE_MODULUS - 1)
  }

  /** The label `start_req_method_assign`. */
  function AssignMethod(q: Parser, ch: char): Outcome {
    var q1 := q.(index := 1, state := ReqMethod);
    match ch
    case 'C' => Next(q1.(meth := CONNECT), [MessageBegin])
    case 'D' => Next(q1.(meth := DELETE), [MessageBegin])
    case 'G' => Next(q1.(meth := GET), [MessageBegin])
    case 'H' => Next(q1.(meth := HEAD), [MessageBegin])
    case 'L' => Next(q1.(meth := LOCK), [MessageBegin])
    case 'M' => Next(q1.(meth := MKCOL), [MessageBegin])
    case 'N' => Next(q1.(meth := NOTIFY), [MessageBegin])
    case 'O' => Next(q1.(meth := OPTIONS), [MessageBegin])
    case 'P' => Next(q1.(meth := POST), [MessageBegin])
    case 'R' => Next(q1.(meth := REPORT), [MessageBegin])
    case 'S' => Next(q1.(meth := SUBSCRIBE), [MessageBegin])
    case 'T' => Next(q1.(meth := TRACE), [MessageBegin])
    case 'U' => Next(q1.(meth := UNLOCK), [MessageBegin])
    case _ => Error
  }

  function MethodByte(q: Parser, ch: char): Outcome {
    var matcher := MethodString(q.meth);
    var q1 := q.(index := q.index + 1);
    if ch == '\0' then Error
    else if q.index > |matcher| then Stray
    else if ch == ' ' && q.index == |matcher| then Goto(q1, ReqSpacesBeforeUrl)
    else if q.index < |matcher| && ch == matcher[q.index] then Next(q1, [])
    else if q.meth == CONNECT then
      Next(if q.index == 1 && ch == 'H' then q1.(meth := CHECKOUT)
           else if q.index == 2 && ch == 'P' then q1.(meth := COPY)
           else q1, [])
    else if q.meth == MKCOL then
      Next(if q.index == 1 && ch == 'O' then q1.(meth := MOVE)
           else if q.index == 1 && ch == 'E' then q1.(meth := MERGE)
           else if q.index == 1 && ch == '-' then q1.(meth := MSEARCH)
           else if q.index == 2 && ch == 'A' then q1.(meth := MKACTIVITY)
           else q1, [])
    else if q.index == 1 && q.meth == POST && ch == 'R' then Next(q1.(meth := PROPFIND), [])
    else if q.index == 1 && q.meth == POST && ch == 'U' then Next(q1.(meth := PUT), [])
    else if q.index == 2 && q.meth == UNLOCK && ch == 'S' then Next(q1.(meth := UNSUBSCRIBE), [])
    else if q.index == 4 && q.meth == PROPFIND && ch == 'P' then Next(q1.(meth := PROPPATCH), [])
    else Error
  }

  function StartByte(q: Parser, ch: char): Outcome
    requires InStart(q.state)
  {
    match q.state
    case StartReqOrRes =>
      if ch == CR || ch == LF then Next(q, [])
      else if ch == 'H' then Next(BeginMessage(q).(state := ResOrRespH), [MessageBegin])
      else AssignMethod(BeginMessage(q).(kind := Request), ch)
    case ResOrRespH =>
      if ch == 'T' then Next(q.(kind := Response, state := ResHT), [])
      else if ch != 'E' then Error
      else Next(q.(kind := Request, meth := HEAD, index := 2, state := ReqMethod), [])
    case StartRes =>
      if ch == 'H' then Next(BeginMessage(q).(state := ResH), [MessageBegin])
      else if ch == CR || ch == LF then Next(BeginMessage(q), [MessageBegin])
      else Error
    case StartReq =>
      if ch == CR || ch == LF then Next(q, [])
      else if !IsUpper(ch) then Error
      else AssignMethod(BeginMessage(q), ch)
    case ReqMethod => MethodByte(q, ch)
  }

  // ----- The version and status line of a response -----

  predicate InStatusLine(s: State) {
    || s.ResH? || s.ResHT? || s.ResHTT? || s.ResHTTP?
    || s.ResFirstHttpMajor? || s.ResHttpMajor? || s.ResFirstHttpMinor? || s.ResHttpMinor?
    || s.ResFirstStatusCode? || s.ResStatusCode? || s.ResStatus? || s.ResLineAlmostDone?
  }

  function StatusLineByte(q: Parser, ch: char): Outcome
    requires InStatusLine(q.state)
  {
    match q.state
    case ResH => Expect(q, ch, 'T', ResHT)
    case ResHT => Expect(q, ch, 'T', ResHTT)
    case ResHTT => Expect(q, ch, 'P', ResHTTP)
    case ResHTTP => Expect(q, ch, '/', ResFirstHttpMajor)
    case ResFirstHttpMajor =>
      if !('1' <= ch <= '9') then Error
      else Goto(q.(httpMajor := DigitValue(ch)), ResHttpMajor)
    case ResHttpMajor =>
      if ch == '.' then Goto(q, ResFirstHttpMinor)
      else if !IsDigit(ch) || q.httpMajor * 10 + DigitValue(ch) > 999 then Error
      else Next(q.(httpMajor := q.httpMajor * 10 + DigitValue(ch)), [])
    case ResFirstHttpMinor =>
      if !IsDigit(ch) then Error
      else Goto(q.(httpMinor := DigitValue(ch)), ResHttpMinor)
    case ResHttpMinor =>
      if ch == ' ' then Goto(q, ResFirstStatusCode)
      else if !IsDigit(ch) || q.httpMinor * 10 + DigitValue(ch) > 999 then Error
      else Next(q.(httpMinor := q.httpMinor * 10 + DigitValue(ch)), [])
    case ResFirstStatusCode =>
      if IsDigit(ch) then Goto(q.(statusCode := DigitValue(ch)), ResStatusCode)
      else if ch == ' ' then Next(q, [])
      else Error
    case ResStatusCode =>
      if IsDigit(ch) then
        if q.statusCode * 10 + DigitValue(ch) > 999 then Error
        else Next(q.(statusCode := q.statusCode * 10 + DigitValue(ch)), [])
      else if ch == ' ' then Goto(q, ResStatus)
      else if ch == CR then Goto(q, ResLineAlmostDone)
      else if ch == LF then Goto(q, HeaderFieldStart)
      else Error
    case ResStatus =>
      if ch == CR then Goto(q, ResLineAlmostDone)
      else if ch == LF then Goto(q, HeaderFieldStart)
      else Next(q, [])
    case ResLineAlmostDone => Expect(q, ch, LF, HeaderFieldStart)
  }

  // ----- The target of a request -----

  predicate InUrl(s: State) {
    || s.ReqSpacesBeforeUrl? || s.ReqSchema? || s.ReqSchemaSlash? || s.ReqSchemaSlashSlash?
    || s.ReqHost? || s.ReqPort? || s.ReqPath? || s.ReqQueryStringStart? || s.ReqQueryString?
    || s.ReqFragmentStart? || s.ReqFragment?
  }

  /** The three bytes that end a target; CR and LF also mean HTTP/0.9. */
  function EndUrl(q: Parser, ch: char, flushed: seq<Signal>): Outcome {
    if ch == ' ' then Next(q.(state := ReqHttpStart), flushed)
    else if ch == CR then Next(q.(state := ReqLineAlmostDone, httpMajor := 0, httpMinor := 9), flushed)
    else if ch == LF then Next(q.(state := HeaderFieldStart, httpMajor := 0, httpMinor := 9), flushed)
    else Error
  }

  function UrlByte(q: Parser, ch: char): Outcome
    requires InUrl(q.state)
  {
    match q.state
    case ReqSpacesBeforeUrl =>
      if ch == ' ' then Next(q, [])
      else if ch == '/' || ch == '*' then Goto(q, ReqPath)
      else if IsLetter(ch) then Goto(q, ReqSchema)
      else Error
    case ReqSchema =>
      if IsLetter(ch) then Next(q, [])
      else if ch == ':' then Goto(q, ReqSchemaSlash)
      else if ch == '.' || IsDigit(ch) then Goto(q, ReqHost)
      else Error
    case ReqSchemaSlash => Expect(q, ch, '/', ReqSchemaSlashSlash)
    case ReqSchemaSlashSlash => Expect(q, ch, '/', ReqHost)
    case ReqHost =>
      if IsLetter(ch) || IsDigit(ch) || ch == '.' || ch == '-' then Next(q, [])
      else if ch == ':' then Goto(q, ReqPort)
      else if ch == '/' then Goto(q, ReqPath)
      else if ch == ' ' then Next(q.(state := ReqHttpStart), [Flush(Url)])
      else Error
    case ReqPort =>
      if IsDigit(ch) then Next(q, [])
      else if ch == '/' then Goto(q, ReqPath)
      else if ch == ' ' then Next(q.(state := ReqHttpStart), [Flush(Url)])
      else Error
    case ReqPath =>
      if IsUrlChar(ch) then Next(q, [])
      else if ch == '?' then Next(q.(state := ReqQueryStringStart), [Flush(Path)])
      else if ch == '#' then Next(q.(state := ReqFragmentStart), [Flush(Path)])
      else EndUrl(q, ch, [Flush(Url), Flush(Path)])
    case ReqQueryStringStart =>
      if IsUrlChar(ch) then Goto(q, ReqQueryString)
      else if ch == '?' then Next(q, [])
      else if ch == '#' then Goto(q, ReqFragmentStart)
      else EndUrl(q, ch, [Flush(Url)])
    case ReqQueryString =>
      if IsUrlChar(ch) || ch == '?' then Next(q, [])
      else if ch == '#' then Next(q.(state := ReqFragmentStart), [Flush(Query)])
      else EndUrl(q, ch, [Flush(Url), Flush(Query)])
    case ReqFragmentStart =>
      if IsUrlChar(ch) || ch == '?' then Goto(q, ReqFragment)
      else if ch == '#' then Next(q, [])
      else EndUrl(q, ch, [Flush(Url)])
    case ReqFragment =>
      if IsUrlChar(ch) || ch == '?' || ch == '#' then Next(q, [])
      else EndUrl(q, ch, [Flush(Url), Flush(Fragment)])
  }

  // ----- The version of a request -----

  predicate InRequestVersion(s: State) {
    || s.ReqHttpStart? || s.ReqHttpH? || s.ReqHttpHT? || s.ReqHttpHTT? || s.ReqHttpHTTP?
    || s.ReqFirstHttpMajor? || s.ReqHttpMajor? || s.ReqFirstHttpMinor? || s.ReqHttpMinor?
    || s.ReqLineAlmostDone?
  }

  function RequestVersionByte(q: Parser, ch: char): Outcome
    requires InRequestVersion(q.state)
  {
    match q.state
    case ReqHttpStart =>
      if ch == 'H' then Goto(q, ReqHttpH)
      else if ch == ' ' then Next(q, [])
      else Error
    case ReqHttpH => Expect(q, ch, 'T', ReqHttpHT)
    case ReqHttpHT => Expect(q, ch, 'T', ReqHttpHTT)
    case ReqHttpHTT => Expect(q, ch, 'P', ReqHttpHTTP)
    case ReqHttpHTTP => Expect(q, ch, '/', ReqFirstHttpMajor)
    case ReqFirstHttpMajor =>
      if !('1' <= ch <= '9') then Error
      else Goto(q.(httpMajor := DigitValue(ch)), ReqHttpMajor)
    case ReqHttpMajor =>
      if ch == '.' then Goto(q, ReqFirstHttpMinor)
      else if !IsDigit(ch) || q.httpMajor * 10 + DigitValue(ch) > 999 then Error
      else Next(q.(httpMajor := q.httpMajor * 10 + DigitValue(ch)), [])
    case ReqFirstHttpMinor =>
      if !IsDigit(ch) then Error
      else Goto(q.(httpMinor := DigitValue(ch)), ReqHttpMinor)
    case ReqHttpMinor =>
      if ch == CR then Goto(q, ReqLineAlmostDone)
      else if ch == LF then Goto(q, HeaderFieldStart)
      else if !IsDigit(ch) || q.httpMinor * 10 + DigitValue(ch) > 999 then Error
      else Next(q.(httpMinor := q.httpMinor * 10 + DigitValue(ch)), [])
    case ReqLineAlmostDone => Expect(q, ch, LF, HeaderFieldStart)
  }

  // ----- Header names -----

  predicate InHeaderName(s: State) { s.HeaderFieldStart? || s.HeaderField? }

  /** One more byte of a literal that is being matched: `index` already counts it. */
  function MatchOn(q: Parser, c: char, literal: string, found: HeaderState): HeaderState {
    if q.index > |literal| || c != (if q.index < |literal| then literal[q.index] else '\0') then General
    else if q.index == |literal| - 1 then found
    else q.headerState
  }

  function FirstNameByte(c: char): HeaderState {
    if c == 'c' then C
    else if c == 'p' then MatchingProxyConnection
    else if c == 't' then MatchingTransferEncoding
    else if c == 'u' then MatchingUpgrade
    else General
  }

  /** The recogniser on one more token byte `ch`, lower-cased as `c`. */
  function NameByte(q: Parser, ch: char, c: char): Outcome {
    var q1 := q.(index := q.index + 1);
    match q.headerState
    case General => Next(q, [])
    case C => Next(q1.(headerState := if c == 'o' then CO else General), [])
    case CO => Next(q1.(headerState := if c == 'n' then CON else General), [])
    case CON => Next(q1.(headerState := if c == 'n' then MatchingConnection
                                        else if c == 't' then MatchingContentLength else General), [])
    case MatchingConnection => Next(q1.(headerState := MatchOn(q1, c, CONNECTION, Connection)), [])
    case MatchingProxyConnection => Next(q1.(headerState := MatchOn(q1, c, PROXY_CONNECTION, Connection)), [])
    case MatchingContentLength => Next(q1.(headerState := MatchOn(q1, c, CONTENT_LENGTH, ContentLength)), [])
    case MatchingTransferEncoding => Next(q1.(headerState := MatchOn(q1, c, TRANSFER_ENCODING, TransferEncoding)), [])
    case MatchingUpgrade => Next(q1.(headerState := MatchOn(q1, c, UPGRADE, Upgrade)), [])
    case Connection | ContentLength | TransferEncoding | Upgrade =>
      Next(if ch != ' ' then q.(headerState := General) else q, [])
    case _ => Aborted
  }

  function HeaderNameByte(q: Parser, ch: char): Outcome
    requires InHeaderName(q.state)
  {
    var c := Token(ch);
    match q.state
    case HeaderFieldStart =>
      if ch == CR then Goto(q, HeadersAlmostDone)
      else if ch == LF then EndOfHeaders(q.(state := HeadersAlmostDone), ch)
      else if c == '\0' then Error
      else Next(q.(index := 0, state := HeaderField, headerState := FirstNameByte(c)), [])
    case HeaderField =>
      if c != '\0' then NameByte(q, ch, c)
      else if ch == ':' then Next(q.(state := HeaderValueStart), [Flush(Field)])
      else if ch == CR then Next(q.(state := HeaderAlmostDone), [Flush(Field)])
      else if ch == LF then Next(q.(state := HeaderFieldStart), [Flush(Field)])
      else Error
  }

  // ----- Header values -----

  predicate InHeaderValue(s: State) { s.HeaderValueStart? || s.HeaderValue? || s.HeaderAlmostDone? }

  function FirstValueByte(q: Parser, ch: char): Outcome {
    var c := Lower(ch);
    var q1 := q.(state := HeaderValue, index := 0);
    match q.headerState
    case Upgrade => Next(q1.(flags := q.flags.(upgrade := true), headerState := General), [])
    case TransferEncoding => Next(q1.(headerState := if c == 'c' then MatchingChunked else General), [])
    case ContentLength =>
      if !IsDigit(ch) then Error else Next(q1.(contentLength := DigitValue(ch)), [])
    case Connection =>
      Next(q1.(headerState := if c == 'k' then MatchingKeepAlive
                              else if c == 'c' then MatchingClose else General), [])
    case _ => Next(q1.(headerState := General), [])
  }

  function ValueByte(q: Parser, ch: char): Outcome {
    var c := Lower(ch);
    var q1 := q.(index := q.index + 1);
    match q.headerState
    case General => Next(q, [])
    case Connection | TransferEncoding => Aborted
    case ContentLength =>
      if ch == ' ' then Next(q, [])
      else if !IsDigit(ch) then Error
      else Next(q.(contentLength := Wrap(q.contentLength * 10 + DigitValue(ch))), [])
    case MatchingChunked => Next(q1.(headerState := MatchOn(q1, c, CHUNKED, Chunked)), [])
    case MatchingKeepAlive => Next(q1.(headerState := MatchOn(q1, c, KEEP_ALIVE, KeepAlive)), [])
    case MatchingClose => Next(q1.(headerState := MatchOn(q1, c, CLOSE, Close)), [])
    case Chunked | KeepAlive | Close =>
      Next(if ch != ' ' then q.(headerState := General) else q, [])
    case _ => Next(q.(headerState := General), [])
  }

  function EndOfValue(q: Parser, flushed: seq<Signal>): Outcome {
    var f := q.flags;
    Next(q.(state := HeaderFieldStart,
            flags := match q.headerState
                     case KeepAlive => f.(keepAlive := true)
                     case Close => f.(close := true)
                     case Chunked => f.(chunked := true)
                     case _ => f), flushed)
  }

  function HeaderValueByte(q: Parser, ch: char): Outcome
    requires InHeaderValue(q.state)
  {
    match q.state
    case HeaderValueStart =>
      if ch == ' ' then Next(q, [])
      else if ch == CR then
        Next(q.(state := HeaderAlmostDone, index := 0, headerState := General), [Flush(Value)])
      else if ch == LF then Next(q.(state := HeaderFieldStart, index := 0), [Flush(Value)])
      else FirstValueByte(q, ch)
    case HeaderValue =>
      if ch == CR then Next(q.(state := HeaderAlmostDone), [Flush(Value)])
      else if ch == LF then EndOfValue(q, [Flush(Value)])
      else ValueByte(q, ch)
    case HeaderAlmostDone =>
      if ch != LF then Error else EndOfValue(q, [])
  }

  // ----- End of the headers -----

  function SummaryOf(q: Parser): Summary {
    if q.kind == Request
    then RequestSummary(q.meth, q.httpMajor, q.httpMinor, ShouldKeepAlive(q), q.contentLength)
    else ResponseSummary(q.statusCode, q.httpMajor, q.httpMinor, ShouldKeepAlive(q), q.contentLength)
  }

  /** The label `headers_almost_done`.  `content_length` is unsigned, so the branch
      that would read a body until the end of the stream does not exist. */
  function EndOfHeaders(q: Parser, ch: char): Outcome {
    if ch != LF then Error
    else if q.flags.trailing then Next(q.(state := NewMessage(q)), [MessageComplete])
    else
      var q1 := q.(nread := 0, upgrade := q.upgrade || q.flags.upgrade || q.meth == CONNECT);
      var complete := HeadersComplete(SummaryOf(q1));
      if q1.upgrade then Upgraded(q1, [complete, MessageComplete])
      else if q.flags.chunked then Next(q1.(state := ChunkSizeStart), [complete])
      else if q.contentLength == 0 then Next(q1.(state := NewMessage(q1)), [complete, MessageComplete])
      else Next(q1.(state := BodyIdentity), [complete])
  }

  // ----- Bodies -----

  predicate InBody(s: State) {
    || s.ChunkSizeStart? || s.ChunkSize? || s.ChunkParameters? || s.ChunkSizeAlmostDone?
    || s.ChunkData? || s.ChunkDataAlmostDone? || s.ChunkDataDone?
    || s.BodyIdentity? || s.BodyIdentityEof?
  }

  function ChunkByte(q: Parser, ch: char): Outcome
    requires InBody(q.state) && !q.state.BodyIdentity? && !q.state.BodyIdentityEof?
  {
    match q.state
    case ChunkSizeStart =>
      if q.nread != 1 then Aborted
      else if Unhex(ch) == -1 then Error
      else Goto(q.(contentLength := Unhex(ch)), ChunkSize)
    case ChunkSize =>
      if ch == CR then Goto(q, ChunkSizeAlmostDone)
      else if Unhex(ch) == -1 then
        if ch == ';' || ch == ' ' then Goto(q, ChunkParameters) else Error
      else Next(q.(contentLength := Wrap(q.contentLength * 16 + Unhex(ch))), [])
    case ChunkParameters =>
      if ch == CR then Goto(q, ChunkSizeAlmostDone) else Next(q, [])
    case ChunkSizeAlmostDone =>
      if ch != LF then Error
      else if q.contentLength == 0 then
        Next(q.(nread := 0, flags := q.flags.(trailing := true), state := HeaderFieldStart), [])
      else Goto(q.(nread := 0), ChunkData)
    case ChunkData =>
      if q.contentLength >= SIGN_LIMIT then Stray
      else if q.contentLength == 0 then Goto(q, ChunkDataAlmostDone)
      else Next(q.(contentLength := q.contentLength - 1,
                   state := if q.contentLength == 1 then ChunkDataAlmostDone else ChunkData), [BodyByte])
    case ChunkDataAlmostDone => Expect(q, ch, CR, ChunkDataDone)
    case ChunkDataDone => Expect(q, ch, LF, ChunkSizeStart)
  }

  function BodyStep(q: Parser, ch: char): Outcome
    requires InBody(q.state)
  {
    match q.state
    case BodyIdentity =>
      if q.contentLength == 0 then Next(q, [])
      else
        var q1 := q.(contentLength := q.contentLength - 1);
        if q1.contentLength == 0 then Next(q1.(state := NewMessage(q1)), [BodyByte, MessageComplete])
        else Next(q1, [BodyByte])
    case BodyIdentityEof => Next(q, [BodyByte])
    case _ => if !q.flags.chunked then Aborted else ChunkByte(q, ch)
  }

  // ----- One byte -----

  function Dispatch(q: Parser, ch: char): Outcome {
    if InStart(q.state) then StartByte(q, ch)
    else if InStatusLine(q.state) then StatusLineByte(q, ch)
    else if InUrl(q.state) then UrlByte(q, ch)
    else if InRequestVersion(q.state) then RequestVersionByte(q, ch)
    else if InHeaderName(q.state) then HeaderNameByte(q, ch)
    else if InHeaderValue(q.state) then HeaderValueByte(q, ch)
    else if InBody(q.state) then BodyStep(q, ch)
    else if q.state == HeadersAlmostDone then EndOfHeaders(q, ch)
    else Error
  }

  /** The header counter, without its limit. */
  function Count(q: Parser): Parser {
    if ParsingHeader(q.state) then q.(nread := q.nread + 1) else q
  }

  function FreeStep(q: Parser, ch: char): Outcome { Dispatch(Count(q), ch) }

  function Step(q: Parser, ch: char): Outcome {
    if Count(q).nread > MAX_HEADER_SIZE && ParsingHeader(q.state) then Error else FreeStep(q, ch)
  }
}
