/**
 Messages: their text, what their delivery looks like, and what they say about the connection.
 The parser does not enter into any of this.
 */
module Messages {
  import opened Types
  import opened Lengths
  import opened Steps
  import opened Numbers
  import opened HeaderMatch
  import opened Headers
  import opened Bodies
  import opened Reference
  import UrlText
  import RequestLine
  import ResponseLine

  /**
   What follows the headers: a body as it is, one in chunks with its ending, or nothing, because
   the application asks for the body to be skipped, as it does for a response to HEAD.
   */
  datatype Payload = Plain(body: string) | InChunks(pieces: seq<Piece>, ending: Ending) | Skipped

  /** The protocol that a request names, with the spaces before it that are more than one. */
  datatype Protocol = NoProtocol | Http(gap: string, version: RequestLine.HttpVersion)

  /**
   The first line of a request or of a response; gap is the spaces before the URL that are more
   than one.
   */
  datatype Line =
    | Asking(meth: Method, gap: string, target: UrlText.Pieces, protocol: Protocol, eol: string)
    | Answering(status: ResponseLine.Status)

  /** lead is line ends before the message, and eol is the empty line after the headers. */
  datatype Message =
    Message(lead: string, line: Line, headers: seq<HeaderLine>, eol: string, payload: Payload)

  // ----- the text

  /** What follows the URL of a request. */
  function ProtocolText(k: Protocol): string {
    match k
    case NoProtocol => ""
    case Http(gap, version) => " " + (gap + RequestLine.PrintVersion(version))
  }

  function FirstLine(l: Line): string {
    match l
    case Asking(meth, gap, target, protocol, eol) =>
      MethodStr(meth) + " " + gap + (UrlText.PrintUrl(target) + (ProtocolText(protocol) + eol))
    case Answering(status) => ResponseLine.Print(status)
  }

  function LineText(m: Message): string {
    m.lead + FirstLine(m.line)
  }

  function HeadText(m: Message): string {
    LineText(m) + PrintAll(m.headers) + m.eol
  }

  function PayloadText(p: Payload): string {
    match p
    case Plain(body) => body
    case InChunks(pieces, ending) => PrintChunks(pieces) + PrintEnding(ending)
    case Skipped => ""
  }

  function Text(m: Message): string {
    HeadText(m) + PayloadText(m.payload)
  }

  function TextAll(ms: seq<Message>): string {
    if ms == [] then "" else TextAll(ms[..|ms| - 1]) + Text(ms[|ms| - 1])
  }

  function BodyOf(p: Payload): string {
    match p
    case Plain(body) => body
    case InChunks(pieces, _) => DataOf(pieces)
    case Skipped => ""
  }

  function TrailersOf(p: Payload): seq<HeaderLine> {
    if p.InChunks? then p.ending.trailers else []
  }

  // ----- what a message says

  function TypeOf(m: Message): ParserType {
    if m.line.Asking? then Request else Response
  }

  /** A request that names no protocol is one of HTTP/0.9. */
  function MajorOf(l: Line): nat {
    match l
    case Asking(_, _, _, protocol, _) => if protocol.NoProtocol? then 0 else Decimal(protocol.version.major)
    case Answering(status) => Decimal(status.major)
  }

  function MinorOf(l: Line): nat {
    match l
    case Asking(_, _, _, protocol, _) => if protocol.NoProtocol? then 9 else Decimal(protocol.version.minor)
    case Answering(status) => Decimal(status.minor)
  }

  /** The flags that the headers set, and in the end the trailers. */
  function HeadFlags(m: Message): Flags {
    FlaggedAll(NO_FLAGS, m.headers)
  }

  function EndFlags(m: Message): Flags {
    match m.payload
    case Plain(_) => HeadFlags(m)
    case InChunks(_, ending) => TrailerFlags(HeadFlags(m), ending)
    case Skipped => HeadFlags(m).(skipBody := true)
  }

  /**
   The connection stays open after the message: from HTTP/1.1 on, unless a header says close;
   where one of the version's numbers is 0, only if a header says keep-alive.
   */
  predicate Persistent(m: Message) {
    if MajorOf(m.line) > 0 && MinorOf(m.line) > 0 then !EndFlags(m).close else EndFlags(m).keepAlive
  }

  /** After the head the connection is used for something else. */
  predicate HandsOver(m: Message) {
    HeadFlags(m).upgrade || (m.line.Asking? && m.line.meth == CONNECT)
  }

  // ----- well-formed messages

  predicate ProtocolOk(k: Protocol) {
    match k
    case NoProtocol => true
    case Http(gap, version) =>
      Spaces(gap) && RequestLine.VersionText(version) && RequestLine.VersionOk(version)
  }

  predicate LineOk(l: Line) {
    match l
    case Asking(meth, gap, target, protocol, eol) =>
      Spaces(gap) && UrlText.Proper(target, meth == CONNECT) && ProtocolOk(protocol) && IsLineEnd(eol)
    case Answering(status) => ResponseLine.StatusText(status) && ResponseLine.NumbersOk(status)
  }

  predicate OnlyEols(s: string) {
    forall i :: 0 <= i < |s| ==> s[i] == '\r' || s[i] == '\n'
  }

  predicate HeadOk(m: Message) {
    OnlyEols(m.lead) && LineOk(m.line) && AllWellFormed(m.headers) && AllLengthsOk(m.headers) && IsLineEnd(m.eol)
  }

  /** The headers say how the payload is framed; of a body that is skipped they may say anything. */
  predicate Framed(m: Message) {
    match m.payload
    case Plain(body) =>
      && !HeadFlags(m).chunked && |body| <= MAX_LENGTH
      && (LengthAll(ULLONG_MAX, m.headers) == |body| || (body == "" && LengthAll(ULLONG_MAX, m.headers) == ULLONG_MAX))
    case InChunks(pieces, ending) =>
      HeadFlags(m).chunked && ChunksOk(pieces) && EndingOk(ending)
    case Skipped => true
  }

  /** The message's end shows without the end of the stream. */
  predicate Delimited(m: Message) {
    m.line.Answering? ==>
      var code := Decimal(m.line.status.code);
      code / 100 == 1 || code == 204 || code == 304 || m.payload.Skipped?
      || HeadFlags(m).chunked || LengthAll(ULLONG_MAX, m.headers) != ULLONG_MAX
  }

  /** A whole message, after which there may come another one if the connection stays open. */
  predicate Complete(m: Message) {
    HeadOk(m) && !HandsOver(m) && Framed(m) && Delimited(m)
  }

  /** A message that can be sent on a connection that stays open. */
  predicate Sendable(m: Message) {
    Complete(m) && Persistent(m)
  }

  /** All messages are requests, or all responses. */
  predicate AllOf(typ: ParserType, ms: seq<Message>) {
    forall m :: m in ms ==> TypeOf(m) == typ
  }

  /** The header bytes that stay counted after a message: those of its trailers. */
  function Carry(m: Message): nat {
    if m.payload.InChunks? then |TrailerText(m.payload.ending)| else 0
  }

  // ----- its delivery, written out

  function HeaderEvents(hs: seq<HeaderLine>): seq<Event> {
    if hs == [] then [] else [Data(KField, hs[0].name), Data(KValue, ValueOf(hs[0]))] + HeaderEvents(hs[1..])
  }

  function BodyEvents(body: string): seq<Event> {
    if body == "" then [] else [Data(KBody, body)]
  }

  /** What the application sees at the end of the headers: the whole first line but for the URL and reason. */
  function HeadOf(m: Message): Seen {
    match m.line
    case Asking(meth, _, _, _, _) => Seen(MajorOf(m.line), MinorOf(m.line), 0, meth, HandsOver(m))
    case Answering(status) => Seen(MajorOf(m.line), MinorOf(m.line), Decimal(status.code), DELETE, HandsOver(m))
  }

  /** Before a response each CR and LF is told as the beginning of a message; before a request none is. */
  function Beginnings(n: nat): seq<Event> {
    seq(n, i => MessageBegin)
  }

  function LineEvents(m: Message): seq<Event> {
    match m.line
    case Asking(_, _, target, _, _) => [MessageBegin, Data(KUrl, UrlText.PrintUrl(target))]
    case Answering(status) =>
      var reason := ResponseLine.ReasonOf(status.reason);
      Beginnings(|m.lead|) + (if reason == "" then [MessageBegin] else [MessageBegin, Data(KStatus, reason)])
  }

  function HeadEvents(m: Message): seq<Event> {
    LineEvents(m) + HeaderEvents(m.headers) + [HeadersComplete(HeadOf(m))]
  }

  /**
   What one message delivers: URL or reason, its headers in pairs, the rest of its first line at
   the end of the headers, its body, and its trailers in pairs.
   */
  function EventsOf(m: Message): seq<Event> {
    HeadEvents(m) + BodyEvents(BodyOf(m.payload)) + HeaderEvents(TrailersOf(m.payload)) + [MessageComplete]
  }

  function EventsOfAll(ms: seq<Message>): seq<Event> {
    if ms == [] then [] else EventsOfAll(ms[..|ms| - 1]) + EventsOf(ms[|ms| - 1])
  }
}
