/**
 The parser's data: `struct http_parser`, its enumerations, and the callback events.
 */
module Types {

  datatype Option<+T> = None | Some(value: T)

  datatype ParserType = Request | Response | Both

  /**
   The enumeration `state`, in one datatype for each stretch of the switch. s_req_method is
   MethodName; s_dead stands among the states between messages.
   */
  datatype StartState =
    | Dead | StartReqOrRes | ResOrRespH | StartRes | StartReq

  datatype StatusLineState =
    | ResH | ResHT | ResHTT | ResHTTP | ResFirstHttpMajor | ResHttpMajor | ResFirstHttpMinor
    | ResHttpMinor | ResFirstStatusCode | ResStatusCode | ResStatusStart | ResStatus
    | ResLineAlmostDone

  datatype UrlState =
    | ReqSpacesBeforeUrl | ReqSchema | ReqSchemaSlash | ReqSchemaSlashSlash | ReqServerStart
    | ReqServer | ReqServerWithAt | ReqPath | ReqQueryStringStart | ReqQueryString
    | ReqFragmentStart | ReqFragment

  datatype VersionState =
    | ReqHttpStart | ReqHttpH | ReqHttpHT | ReqHttpHTT | ReqHttpHTTP | ReqFirstHttpMajor
    | ReqHttpMajor | ReqFirstHttpMinor | ReqHttpMinor | ReqLineAlmostDone

  datatype HeaderLineState =
    | HeaderFieldStart | HeaderField | HeaderValueDiscardWs | HeaderValueDiscardWsAlmostDone
    | HeaderValueDiscardLws | HeaderValueStart | HeaderValue | HeaderValueLws | HeaderAlmostDone

  datatype HeadersEndState =
    | HeadersAlmostDone | HeadersDone

  datatype BodyState =
    | BodyIdentity | BodyIdentityEof | MessageDone

  datatype ChunkState =
    | ChunkSizeStart | ChunkSize | ChunkParameters | ChunkSizeAlmostDone | ChunkData
    | ChunkDataAlmostDone | ChunkDataDone

  datatype State =
    | Start(start: StartState)
    | StatusLine(line: StatusLineState)
    | MethodName
    | Url(url: UrlState)
    | Version(version: VersionState)
    | Header(header: HeaderLineState)
    | HeadersEnd(end: HeadersEndState)
    | Body(body: BodyState)
    | Chunk(chunk: ChunkState)

  /** PARSING_HEADER: every state up to s_headers_done. */
  predicate ParsingHeader(s: State) {
    match s
    case Body(_) => false
    case Chunk(c) => !(c.ChunkData? || c.ChunkDataAlmostDone? || c.ChunkDataDone?)
    case _ => true
  }

  datatype HeaderState =
    | HGeneral
    | HC | HCO | HCON
    | HMatchingConnection | HMatchingProxyConnection | HMatchingContentLength
    | HMatchingTransferEncoding | HMatchingUpgrade
    | HConnection | HContentLength | HTransferEncoding | HUpgrade
    | HMatchingTransferEncodingChunked | HMatchingConnectionKeepAlive | HMatchingConnectionClose
    | HTransferEncodingChunked | HConnectionKeepAlive | HConnectionClose

  datatype Method =
    | DELETE | GET | HEAD | POST | PUT | CONNECT | OPTIONS | TRACE
    | COPY | LOCK | MKCOL | MOVE | PROPFIND | PROPPATCH | SEARCH | UNLOCK
    | REPORT | MKACTIVITY | CHECKOUT | MERGE
    | MSEARCH | NOTIFY | SUBSCRIBE | UNSUBSCRIBE
    | PATCH | PURGE

  /** The table `method_strings`. */
  function MethodStr(m: Method): string {
    match m
    case DELETE => "DELETE"
    case GET => "GET"
    case HEAD => "HEAD"
    case POST => "POST"
    case PUT => "PUT"
    case CONNECT => "CONNECT"
    case OPTIONS => "OPTIONS"
    case TRACE => "TRACE"
    case COPY => "COPY"
    case LOCK => "LOCK"
    case MKCOL => "MKCOL"
    case MOVE => "MOVE"
    case PROPFIND => "PROPFIND"
    case PROPPATCH => "PROPPATCH"
    case SEARCH => "SEARCH"
    case UNLOCK => "UNLOCK"
    case REPORT => "REPORT"
    case MKACTIVITY => "MKACTIVITY"
    case CHECKOUT => "CHECKOUT"
    case MERGE => "MERGE"
    case MSEARCH => "M-SEARCH"
    case NOTIFY => "NOTIFY"
    case SUBSCRIBE => "SUBSCRIBE"
    case UNSUBSCRIBE => "UNSUBSCRIBE"
    case PATCH => "PATCH"
    case PURGE => "PURGE"
  }

  datatype Errno =
    | OK
    | CbMessageBegin | CbUrl | CbHeaderField | CbHeaderValue
    | CbHeadersComplete | CbBody | CbMessageComplete | CbStatus
    | InvalidEofState | HeaderOverflow | ClosedConnection
    | InvalidVersion | InvalidStatus | InvalidMethod | InvalidUrl
    | LfExpected | InvalidHeaderToken | InvalidContentLength | InvalidChunkSize
    | InvalidConstant | InvalidInternalState | Strict | Paused

  /** The bits of `flags`. */
  datatype Flags = Flags(chunked: bool, keepAlive: bool, close: bool,
                         trailing: bool, upgrade: bool, skipBody: bool)

  const NO_FLAGS := Flags(false, false, false, false, false, false)

  const ULLONG_MAX := 0xFFFF_FFFF_FFFF_FFFF
  const HTTP_MAX_HEADER_SIZE := 80 * 1024

  /** The value of a `struct http_parser`, without the application's `data` pointer. */
  datatype Parser = Parser(
    typ: ParserType,
    flags: Flags,
    state: State,
    headerState: HeaderState,
    index: nat,
    nread: nat,
    contentLength: nat,
    major: nat,
    minor: nat,
    statusCode: nat,
    meth: Method,
    errno: Errno,
    upgrade: bool)

  /** http_parser_init: memset to zero, then the type and the start state. */
  function Init(t: ParserType): Parser {
    Parser(t, NO_FLAGS,
           if t.Request? then Start(StartReq) else if t.Response? then Start(StartRes) else Start(StartReqOrRes),
           HGeneral, 0, 0, 0, 0, 0, 0, DELETE, OK, false)
  }

  /** The data callbacks. Each of them has a mark in http_parser_execute. */
  datatype Kind = KUrl | KStatus | KField | KValue | KBody

  /** The read-only fields, as the application finds them in on_headers_complete. */
  datatype Seen = Seen(major: nat, minor: nat, statusCode: nat, meth: Method, upgrade: bool)

  function SeenBy(p: Parser): Seen {
    Seen(p.major, p.minor, p.statusCode, p.meth, p.upgrade)
  }

  datatype Event =
    | MessageBegin
    | HeadersComplete(seen: Seen)
    | MessageComplete
    | Data(kind: Kind, bytes: string)

  /** What one callback does: its return value, and whether it pauses the parser. */
  datatype Reply = Reply(rc: int, pause: bool)

  /** The application: its reply may depend on every callback so far, the present one last. */
  type Callbacks = seq<Event> -> Reply

  function CallbackErrno(e: Event): Errno {
    match e
    case MessageBegin => CbMessageBegin
    case HeadersComplete(_) => CbHeadersComplete
    case MessageComplete => CbMessageComplete
    case Data(KUrl, _) => CbUrl
    case Data(KStatus, _) => CbStatus
    case Data(KField, _) => CbHeaderField
    case Data(KValue, _) => CbHeaderValue
    case Data(KBody, _) => CbBody
  }
}
