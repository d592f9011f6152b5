/**
 One pass through the `switch (parser->state)` of http_parser_execute.

 Arm gives what the matching arm does with the current byte: the new field values, the
 mark it sets, how many bytes it takes (more than one only for a body), and how it leaves
 the switch. Nothing here calls back, moves along the buffer or looks at the marks: that
 is done by the loop around the switch (modules Execute and HttpParser).
 */
module Arms {
  import opened Chars
  import opened Types
  import opened UrlChar

  /** Where control goes after the arm and its callback. */
  datatype Then =
    | Consume    // break: on to the next byte
    | Repeat     // goto reexecute_byte
    | Exit       // return (p - data) + 1

  datatype Next =
    | Quiet(andThen: Then)
    | Notify(event: Event, andThen: Then)                  // CALLBACK_NOTIFY and its kin
    | Flush(kind: Kind, inclusive: bool, andThen: Then)    // CALLBACK_DATA and its kin
    | Fail(errno: Errno)                                   // SET_ERRNO; goto error
    | Abort                                                // a failed assert

  datatype Act = Act(p: Parser, mark: Option<Kind>, take: nat, next: Next)

  function NeedsEof(p: Parser): bool {
    if p.typ.Request? then false
    else if p.statusCode / 100 == 1 || p.statusCode == 204 || p.statusCode == 304
            || p.flags.skipBody then false
    else !(p.flags.chunked || p.contentLength != ULLONG_MAX)
  }

  function ShouldKeepAlive(p: Parser): bool {
    if p.major > 0 && p.minor > 0 then
      !p.flags.close && !NeedsEof(p)
    else
      p.flags.keepAlive && !NeedsEof(p)
  }

  function FirstState(p: Parser): State {
    if p.typ.Request? then Start(StartReq) else Start(StartRes)
  }

  /** NEW_MESSAGE of strict mode. */
  function NewMessage(p: Parser): State {
    if ShouldKeepAlive(p) then FirstState(p) else Start(Dead)
  }

  /** How often the same byte can still be looked at again in each state. */
  function Rank(s: State): nat {
    match s
    case Header(HeaderValueLws) => 4
    case Header(HeaderValueDiscardLws) => 4
    case Header(HeaderFieldStart) => 3
    case HeadersEnd(HeadersAlmostDone) => 2
    case Header(HeaderValue) => 2
    case HeadersEnd(HeadersDone) => 1
    case Header(HeaderAlmostDone) => 1
    case Start(StartReqOrRes) => 1
    case Body(BodyIdentity) => 1
    case _ => 0
  }

  predicate Repeats(n: Next) {
    !n.Fail? && !n.Abort? && n.andThen.Repeat?
  }

  // ----- ways to leave the switch

  function Quietly(p: Parser): Act { Act(p, None, 1, Quiet(Consume)) }
  function Go(p: Parser, s: State): Act { Quietly(p.(state := s)) }
  function Again(p: Parser, s: State): Act { Act(p.(state := s), None, 1, Quiet(Repeat)) }
  function Failing(p: Parser, e: Errno): Act { Act(p, None, 1, Fail(e)) }
  function Aborting(p: Parser): Act { Act(p, None, 1, Abort) }
  function Expect(p: Parser, ok: bool, e: Errno, s: State): Act {
    if ok then Go(p, s) else Failing(p, e)
  }
  function Delivering(p: Parser, s: State, k: Kind): Act {
    Act(p.(state := s), None, 1, Flush(k, false, Consume))
  }

  // ----- the arms, one function for each stretch of the switch

  function StartArm(p: Parser, s: StartState, ch: char): (a: Act)
    ensures a.p.errno == p.errno && a.p.nread <= p.nread
    ensures a.take == 1
    ensures Repeats(a.next) ==> Rank(a.p.state) < Rank(Start(s))
  {
    var cleared := p.(flags := NO_FLAGS, contentLength := ULLONG_MAX);
    match s
    case Dead =>
      if IsEol(ch) then Quietly(p) else Failing(p, ClosedConnection)
    case StartReqOrRes =>
      if IsEol(ch) then Quietly(p)
      else if ch == 'H' then
        Act(cleared.(state := Start(ResOrRespH)), None, 1, Notify(MessageBegin, Consume))
      else Again(cleared.(typ := Request), Start(StartReq))
    case ResOrRespH =>
      if ch == 'T' then Go(p.(typ := Response), StatusLine(ResHT))
      else if ch != 'E' then Failing(p, InvalidConstant)
      else Go(p.(typ := Request, meth := HEAD, index := 2), MethodName)
    case StartRes =>
      if ch == 'H' then
        Act(cleared.(state := StatusLine(ResH)), None, 1, Notify(MessageBegin, Consume))
      else if IsEol(ch) then
        Act(cleared, None, 1, Notify(MessageBegin, Consume))
      else Failing(cleared, InvalidConstant)
    case StartReq =>
      if IsEol(ch) then Quietly(p)
      else if !IsAlpha(ch) then Failing(cleared, InvalidMethod)
      else
        var first := FirstMethod(ch);
        if first.None? then Failing(cleared.(meth := DELETE, index := 1), InvalidMethod)
        else Act(cleared.(meth := first.value, index := 1, state := MethodName), None, 1,
                 Notify(MessageBegin, Consume))
  }

  /** The method guessed from the first letter. */
  function FirstMethod(ch: char): Option<Method> {
    match ch
    case 'C' => Some(CONNECT)
    case 'D' => Some(DELETE)
    case 'G' => Some(GET)
    case 'H' => Some(HEAD)
    case 'L' => Some(LOCK)
    case 'M' => Some(MKCOL)
    case 'N' => Some(NOTIFY)
    case 'O' => Some(OPTIONS)
    case 'P' => Some(POST)
    case 'R' => Some(REPORT)
    case 'S' => Some(SUBSCRIBE)
    case 'T' => Some(TRACE)
    case 'U' => Some(UNLOCK)
    case _ => None
  }

  /** The method switched to in mid-word, when ch is not the next letter of m. */
  function OtherMethod(m: Method, index: nat, ch: char): Option<Method> {
    if m == CONNECT then
      if index == 1 && ch == 'H' then Some(CHECKOUT)
      else if index == 2 && ch == 'P' then Some(COPY)
      else None
    else if m == MKCOL then
      if index == 1 && ch == 'O' then Some(MOVE)
      else if index == 1 && ch == 'E' then Some(MERGE)
      else if index == 1 && ch == '-' then Some(MSEARCH)
      else if index == 2 && ch == 'A' then Some(MKACTIVITY)
      else None
    else if m == SUBSCRIBE then
      if index == 1 && ch == 'E' then Some(SEARCH) else None
    else if index == 1 && m == POST then
      if ch == 'R' then Some(PROPFIND)
      else if ch == 'U' then Some(PUT)
      else if ch == 'A' then Some(PATCH)
      else None
    else if index == 2 then
      if m == PUT then
        if ch == 'R' then Some(PURGE) else None
      else if m == UNLOCK then
        if ch == 'S' then Some(UNSUBSCRIBE) else None
      else None
    else if index == 4 && m == PROPFIND && ch == 'P' then Some(PROPPATCH)
    else None
  }

  function MethodArm(p: Parser, ch: char): (a: Act)
    ensures a.p.errno == p.errno && a.p.nread <= p.nread
    ensures a.take == 1 && !Repeats(a.next)
  {
    var matcher := CharAt(MethodStr(p.meth), p.index);
    var next := p.(index := (p.index + 1) % 256);
    if ch == '\0' then Failing(p, InvalidMethod)
    else if ch == ' ' && matcher == '\0' then Go(next, Url(ReqSpacesBeforeUrl))
    else if ch == matcher then Quietly(next)
    else
      var other := OtherMethod(p.meth, p.index, ch);
      if other.None? then Failing(p, InvalidMethod)
      else Quietly(next.(meth := other.value))
  }

  /** A further digit of a version number or a status code, in a field of 16 bits. */
  function AddDigit(number: nat, ch: char): nat
    requires IsNum(ch)
  {
    (number * 10 + DigitValue(ch)) % 0x1_0000
  }

  /** The number just stored may not exceed 999. */
  function UpTo999(q: Parser, number: nat, e: Errno): Act {
    if number > 999 then Failing(q, e) else Quietly(q)
  }

  function StatusLineArm(p: Parser, s: StatusLineState, ch: char): (a: Act)
    ensures a.p.errno == p.errno && a.p.nread <= p.nread
    ensures a.take == 1 && !Repeats(a.next)
  {
    match s
    case ResH => Expect(p, ch == 'T', Strict, StatusLine(ResHT))
    case ResHT => Expect(p, ch == 'T', Strict, StatusLine(ResHTT))
    case ResHTT => Expect(p, ch == 'P', Strict, StatusLine(ResHTTP))
    case ResHTTP => Expect(p, ch == '/', Strict, StatusLine(ResFirstHttpMajor))
    case ResFirstHttpMajor =>
      if !IsNum(ch) then Failing(p, InvalidVersion)
      else Go(p.(major := DigitValue(ch)), StatusLine(ResHttpMajor))
    case ResHttpMajor =>
      if ch == '.' then Go(p, StatusLine(ResFirstHttpMinor))
      else if !IsNum(ch) then Failing(p, InvalidVersion)
      else
        var n := AddDigit(p.major, ch);
        UpTo999(p.(major := n), n, InvalidVersion)
    case ResFirstHttpMinor =>
      if !IsNum(ch) then Failing(p, InvalidVersion)
      else Go(p.(minor := DigitValue(ch)), StatusLine(ResHttpMinor))
    case ResHttpMinor =>
      if ch == ' ' then Go(p, StatusLine(ResFirstStatusCode))
      else if !IsNum(ch) then Failing(p, InvalidVersion)
      else
        var n := AddDigit(p.minor, ch);
        UpTo999(p.(minor := n), n, InvalidVersion)
    case ResFirstStatusCode =>
      if IsNum(ch) then Go(p.(statusCode := DigitValue(ch)), StatusLine(ResStatusCode))
      else if ch == ' ' then Quietly(p)
      else Failing(p, InvalidStatus)
    case ResStatusCode =>
      if IsNum(ch) then
        var n := AddDigit(p.statusCode, ch);
        UpTo999(p.(statusCode := n), n, InvalidStatus)
      else if ch == ' ' then Go(p, StatusLine(ResStatusStart))
      else if ch == CR then Go(p, StatusLine(ResLineAlmostDone))
      else if ch == LF then Go(p, Header(HeaderFieldStart))
      else Failing(p, InvalidStatus)
    case ResStatusStart =>
      if ch == CR then Go(p, StatusLine(ResLineAlmostDone))
      else if ch == LF then Go(p, Header(HeaderFieldStart))
      else Go(p.(index := 0), StatusLine(ResStatus)).(mark := Some(KStatus))
    case ResStatus =>
      if ch == CR then Delivering(p, StatusLine(ResLineAlmostDone), KStatus)
      else if ch == LF then Delivering(p, Header(HeaderFieldStart), KStatus)
      else Quietly(p)
    case ResLineAlmostDone => Expect(p, ch == LF, Strict, Header(HeaderFieldStart))
  }

  /** A URL byte: on to the automaton's next state, which is an error when dead. */
  function UrlByte(p: Parser, from: UrlState, ch: char): Act {
    var s := ParseUrlChar(from, ch);
    if s.None? then Failing(p.(state := Start(Dead)), InvalidUrl) else Go(p, Url(s.value))
  }

  function UrlArm(p: Parser, s: UrlState, ch: char): (a: Act)
    ensures a.p.errno == p.errno && a.p.nread <= p.nread
    ensures a.take == 1 && !Repeats(a.next)
  {
    if s == ReqSpacesBeforeUrl then
      if ch == ' ' then Quietly(p)
      else
        UrlByte(p, if p.meth == CONNECT then ReqServerStart else s, ch).(mark := Some(KUrl))
    else if UrlOpening(s) then
      if ch == ' ' || IsEol(ch) then Failing(p, InvalidUrl) else UrlByte(p, s, ch)
    else if ch == ' ' then Delivering(p, Version(ReqHttpStart), KUrl)
    else if IsEol(ch) then
      Delivering(p.(major := 0, minor := 9),
                 if ch == CR then Version(ReqLineAlmostDone) else Header(HeaderFieldStart), KUrl)
    else UrlByte(p, s, ch)
  }

  function VersionArm(p: Parser, s: VersionState, ch: char): (a: Act)
    ensures a.p.errno == p.errno && a.p.nread <= p.nread
    ensures a.take == 1 && !Repeats(a.next)
  {
    match s
    case ReqHttpStart =>
      if ch == 'H' then Go(p, Version(ReqHttpH))
      else if ch == ' ' then Quietly(p)
      else Failing(p, InvalidConstant)
    case ReqHttpH => Expect(p, ch == 'T', Strict, Version(ReqHttpHT))
    case ReqHttpHT => Expect(p, ch == 'T', Strict, Version(ReqHttpHTT))
    case ReqHttpHTT => Expect(p, ch == 'P', Strict, Version(ReqHttpHTTP))
    case ReqHttpHTTP => Expect(p, ch == '/', Strict, Version(ReqFirstHttpMajor))
    case ReqFirstHttpMajor =>
      if !('1' <= ch <= '9') then Failing(p, InvalidVersion)
      else Go(p.(major := DigitValue(ch)), Version(ReqHttpMajor))
    case ReqHttpMajor =>
      if ch == '.' then Go(p, Version(ReqFirstHttpMinor))
      else if !IsNum(ch) then Failing(p, InvalidVersion)
      else
        var n := AddDigit(p.major, ch);
        UpTo999(p.(major := n), n, InvalidVersion)
    case ReqFirstHttpMinor =>
      if !IsNum(ch) then Failing(p, InvalidVersion)
      else Go(p.(minor := DigitValue(ch)), Version(ReqHttpMinor))
    case ReqHttpMinor =>
      if ch == CR then Go(p, Version(ReqLineAlmostDone))
      else if ch == LF then Go(p, Header(HeaderFieldStart))
      else if !IsNum(ch) then Failing(p, InvalidVersion)
      else
        var n := AddDigit(p.minor, ch);
        UpTo999(p.(minor := n), n, InvalidVersion)
    case ReqLineAlmostDone => Expect(p, ch == LF, LfExpected, Header(HeaderFieldStart))
  }

  const CONNECTION := "connection"
  const PROXY_CONNECTION := "proxy-connection"
  const CONTENT_LENGTH := "content-length"
  const TRANSFER_ENCODING := "transfer-encoding"
  const UPGRADE := "upgrade"
  const CHUNKED := "chunked"
  const KEEP_ALIVE := "keep-alive"
  const CLOSE := "close"

  /** One more letter against a keyword; `done` on its last one, h_general on a mismatch. */
  function MatchNext(p: Parser, c: char, word: string, done: HeaderState): Parser
    requires |word| > 1
  {
    var q := p.(index := (p.index + 1) % 256);
    if q.index > |word| || c != CharAt(word, q.index) then q.(headerState := HGeneral)
    else if q.index == |word| - 1 then q.(headerState := done)
    else q
  }

  function FieldStartArm(p: Parser, ch: char): (a: Act)
    ensures a.p.errno == p.errno && a.p.nread <= p.nread
    ensures a.take == 1
    ensures Repeats(a.next) ==> Rank(a.p.state) < Rank(Header(HeaderFieldStart))
  {
    var c := Token(ch);
    if ch == CR then Go(p, HeadersEnd(HeadersAlmostDone))
    else if ch == LF then Again(p, HeadersEnd(HeadersAlmostDone))
    else if c == '\0' then Failing(p, InvalidHeaderToken)
    else
      var h := match c
        case 'c' => HC
        case 'p' => HMatchingProxyConnection
        case 't' => HMatchingTransferEncoding
        case 'u' => HMatchingUpgrade
        case _ => HGeneral;
      Go(p.(index := 0, headerState := h), Header(HeaderField)).(mark := Some(KField))
  }

  /** The header-name matcher: None when header_state is none that belongs to a name. */
  function MatchFieldByte(p: Parser, ch: char): Option<Parser> {
    var c := Token(ch);
    var next := p.(index := (p.index + 1) % 256);
    match p.headerState
    case HGeneral => Some(p)
    case HC => Some(next.(headerState := if c == 'o' then HCO else HGeneral))
    case HCO => Some(next.(headerState := if c == 'n' then HCON else HGeneral))
    case HCON =>
      Some(next.(headerState :=
        if c == 'n' then HMatchingConnection
        else if c == 't' then HMatchingContentLength
        else HGeneral))
    case HMatchingConnection => Some(MatchNext(p, c, CONNECTION, HConnection))
    case HMatchingProxyConnection => Some(MatchNext(p, c, PROXY_CONNECTION, HConnection))
    case HMatchingContentLength => Some(MatchNext(p, c, CONTENT_LENGTH, HContentLength))
    case HMatchingTransferEncoding => Some(MatchNext(p, c, TRANSFER_ENCODING, HTransferEncoding))
    case HMatchingUpgrade => Some(MatchNext(p, c, UPGRADE, HUpgrade))
    case HConnection => Some(if ch != ' ' then p.(headerState := HGeneral) else p)
    case HContentLength => Some(if ch != ' ' then p.(headerState := HGeneral) else p)
    case HTransferEncoding => Some(if ch != ' ' then p.(headerState := HGeneral) else p)
    case HUpgrade => Some(if ch != ' ' then p.(headerState := HGeneral) else p)
    case _ => None
  }

  function FieldArm(p: Parser, ch: char): (a: Act)
    ensures a.p.errno == p.errno && a.p.nread <= p.nread
    ensures a.take == 1 && !Repeats(a.next)
  {
    if IsToken(ch) then
      var q := MatchFieldByte(p, ch);
      if q.None? then Aborting(p) else Quietly(q.value)
    else if ch == ':' then Delivering(p, Header(HeaderValueDiscardWs), KField)
    else if ch == CR then Delivering(p, Header(HeaderAlmostDone), KField)
    else if ch == LF then Delivering(p, Header(HeaderFieldStart), KField)
    else Failing(p, InvalidHeaderToken)
  }

  function ValueStartArm(p: Parser, ch: char): (a: Act)
    ensures a.p.errno == p.errno && a.p.nread <= p.nread
    ensures a.take == 1 && !Repeats(a.next)
  {
    var c := Lower(ch);
    var q := p.(state := Header(HeaderValue), index := 0);
    var general := q.(headerState := HGeneral);
    var a := match p.headerState
      case HUpgrade => Quietly(general.(flags := p.flags.(upgrade := true)))
      case HTransferEncoding =>
        Quietly(if c == 'c' then q.(headerState := HMatchingTransferEncodingChunked) else general)
      case HContentLength =>
        if !IsNum(ch) then Failing(q, InvalidContentLength)
        else Quietly(q.(contentLength := DigitValue(ch)))
      case HConnection =>
        Quietly(if c == 'k' then q.(headerState := HMatchingConnectionKeepAlive)
                else if c == 'c' then q.(headerState := HMatchingConnectionClose)
                else general)
      case _ => Quietly(general);
    a.(mark := Some(KValue))
  }

  /** A further byte of a content-length value. */
  function ContentLengthArm(p: Parser, ch: char): (a: Act)
    ensures a.p.errno == p.errno && a.p.nread <= p.nread
    ensures a.take == 1 && !Repeats(a.next)
  {
    if ch == ' ' then Quietly(p)
    else if !IsNum(ch) then Failing(p, InvalidContentLength)
    else
      var t := (p.contentLength * 10 + DigitValue(ch)) % (ULLONG_MAX + 1);
      if (ULLONG_MAX - 10) / 10 < p.contentLength then Failing(p, InvalidContentLength)
      else Quietly(p.(contentLength := t))
  }

  /** The header-value matcher, but for content-length. */
  function MatchValueByte(p: Parser, ch: char): Option<Parser> {
    var c := Lower(ch);
    match p.headerState
    case HGeneral => Some(p)
    case HConnection => None
    case HTransferEncoding => None
    case HMatchingTransferEncodingChunked =>
      Some(MatchNext(p, c, CHUNKED, HTransferEncodingChunked))
    case HMatchingConnectionKeepAlive => Some(MatchNext(p, c, KEEP_ALIVE, HConnectionKeepAlive))
    case HMatchingConnectionClose => Some(MatchNext(p, c, CLOSE, HConnectionClose))
    case HTransferEncodingChunked => Some(if ch != ' ' then p.(headerState := HGeneral) else p)
    case HConnectionKeepAlive => Some(if ch != ' ' then p.(headerState := HGeneral) else p)
    case HConnectionClose => Some(if ch != ' ' then p.(headerState := HGeneral) else p)
    case _ => Some(p.(headerState := HGeneral))
  }

  function ValueArm(p: Parser, ch: char): (a: Act)
    ensures a.p.errno == p.errno && a.p.nread <= p.nread
    ensures a.take == 1
    ensures Repeats(a.next) ==> Rank(a.p.state) < Rank(Header(HeaderValue))
  {
    if ch == CR then Delivering(p, Header(HeaderAlmostDone), KValue)
    else if ch == LF then
      Act(p.(state := Header(HeaderAlmostDone)), None, 1, Flush(KValue, false, Repeat))
    else if p.headerState == HContentLength then ContentLengthArm(p, ch)
    else
      var q := MatchValueByte(p, ch);
      if q.None? then Aborting(p) else Quietly(q.value)
  }

  /** What a finished header adds to the flags. */
  function HeaderFlags(p: Parser): Flags {
    match p.headerState
    case HConnectionKeepAlive => p.flags.(keepAlive := true)
    case HConnectionClose => p.flags.(close := true)
    case HTransferEncodingChunked => p.flags.(chunked := true)
    case _ => p.flags
  }

  function HeaderArm(p: Parser, s: HeaderLineState, ch: char): (a: Act)
    ensures a.p.errno == p.errno && a.p.nread <= p.nread
    ensures a.take == 1
    ensures Repeats(a.next) ==> Rank(a.p.state) < Rank(Header(s))
  {
    match s
    case HeaderFieldStart => FieldStartArm(p, ch)
    case HeaderField => FieldArm(p, ch)
    case HeaderValueDiscardWs =>
      if IsSpaceOrTab(ch) then Quietly(p)
      else if ch == CR then Go(p, Header(HeaderValueDiscardWsAlmostDone))
      else if ch == LF then Go(p, Header(HeaderValueDiscardLws))
      else ValueStartArm(p, ch)
    case HeaderValueStart => ValueStartArm(p, ch)
    case HeaderValue => ValueArm(p, ch)
    case HeaderAlmostDone => Expect(p, ch == LF, Strict, Header(HeaderValueLws))
    case HeaderValueLws =>
      if IsSpaceOrTab(ch) then Again(p, Header(HeaderValueStart))
      else Again(p.(flags := HeaderFlags(p)), Header(HeaderFieldStart))
    case HeaderValueDiscardWsAlmostDone => Expect(p, ch == LF, Strict, Header(HeaderValueDiscardLws))
    case HeaderValueDiscardLws =>
      if IsSpaceOrTab(ch) then Go(p, Header(HeaderValueDiscardWs))
      else
        Act(p.(state := Header(HeaderFieldStart)), Some(KValue), 1, Flush(KValue, false, Repeat))
  }

  function Completing(p: Parser, t: Then): Act {
    Act(p.(state := NewMessage(p)), None, 1, Notify(MessageComplete, t))
  }

  function HeadersEndArm(p: Parser, s: HeadersEndState, ch: char): (a: Act)
    ensures a.p.errno == p.errno && a.p.nread <= p.nread
    ensures a.take == 1
    ensures Repeats(a.next) ==> Rank(a.p.state) < Rank(HeadersEnd(s))
  {
    match s
    case HeadersAlmostDone =>
      if ch != LF then Failing(p, Strict)
      else if p.flags.trailing then Completing(p, Consume)
      else
        var q := p.(state := HeadersEnd(HeadersDone), upgrade := p.flags.upgrade || p.meth == CONNECT);
        Act(q, None, 1, Notify(HeadersComplete(SeenBy(q)), Repeat))
    case HeadersDone =>
      var q := p.(nread := 0);
      if ch != LF then Failing(p, Strict)
      else if p.upgrade then Completing(q, Exit)
      else if p.flags.skipBody then Completing(q, Consume)
      else if p.flags.chunked then Go(q, Chunk(ChunkSizeStart))
      else if p.contentLength == 0 then Completing(q, Consume)
      else if p.contentLength != ULLONG_MAX then Go(q, Body(BodyIdentity))
      else if p.typ.Request? || !NeedsEof(p) then Completing(q, Consume)
      else Go(q, Body(BodyIdentityEof))
  }

  function Min(a: nat, b: nat): nat { if a < b then a else b }

  function BodyArm(p: Parser, s: BodyState, avail: nat): (a: Act)
    requires avail > 0
    ensures a.p.errno == p.errno && a.p.nread <= p.nread
    ensures 1 <= a.take <= avail
    ensures Repeats(a.next) ==> Rank(a.p.state) < Rank(Body(s))
  {
    match s
    case BodyIdentity =>
      if p.contentLength == 0 || p.contentLength == ULLONG_MAX then Aborting(p)
      else
        var toRead := Min(p.contentLength, avail);
        var q := p.(contentLength := p.contentLength - toRead);
        if q.contentLength == 0 then
          Act(q.(state := Body(MessageDone)), Some(KBody), toRead, Flush(KBody, true, Repeat))
        else Act(q, Some(KBody), toRead, Quiet(Consume))
    case BodyIdentityEof => Act(p, Some(KBody), avail, Quiet(Consume))
    case MessageDone => Completing(p, Consume)
  }

  function ChunkArm(p: Parser, s: ChunkState, ch: char, avail: nat): (a: Act)
    requires avail > 0
    ensures a.p.errno == p.errno && a.p.nread <= p.nread
    ensures 1 <= a.take <= avail && !Repeats(a.next)
  {
    if !p.flags.chunked then Aborting(p)
    else match s
      case ChunkSizeStart =>
        if p.nread != 1 then Aborting(p)
        else if Unhex(ch) == -1 then Failing(p, InvalidChunkSize)
        else Go(p.(contentLength := Unhex(ch)), Chunk(ChunkSize))
      case ChunkSize =>
        if ch == CR then Go(p, Chunk(ChunkSizeAlmostDone))
        else if Unhex(ch) == -1 then
          if ch == ';' || ch == ' ' then Go(p, Chunk(ChunkParameters))
          else Failing(p, InvalidChunkSize)
        else
          var t := (p.contentLength * 16 + Unhex(ch)) % (ULLONG_MAX + 1);
          if (ULLONG_MAX - 16) / 16 < p.contentLength then Failing(p, InvalidContentLength)
          else Quietly(p.(contentLength := t))
      case ChunkParameters =>
        if ch == CR then Go(p, Chunk(ChunkSizeAlmostDone)) else Quietly(p)
      case ChunkSizeAlmostDone =>
        var q := p.(nread := 0);
        if ch != LF then Failing(p, Strict)
        else if p.contentLength == 0 then
          Go(q.(flags := p.flags.(trailing := true)), Header(HeaderFieldStart))
        else Go(q, Chunk(ChunkData))
      case ChunkData =>
        if p.contentLength == 0 || p.contentLength == ULLONG_MAX then Aborting(p)
        else
          var toRead := Min(p.contentLength, avail);
          var left := p.contentLength - toRead;
          Act(p.(contentLength := left, state := if left == 0 then Chunk(ChunkDataAlmostDone) else Chunk(ChunkData)),
              Some(KBody), toRead, Quiet(Consume))
      case ChunkDataAlmostDone =>
        if p.contentLength != 0 then Aborting(p)
        else if ch != CR then Failing(p, Strict)
        else Delivering(p, Chunk(ChunkDataDone), KBody)
      case ChunkDataDone =>
        if ch != LF then Failing(p, Strict)
        else Go(p.(nread := 0), Chunk(ChunkSizeStart))
    }

  function Arm(p: Parser, ch: char, avail: nat): (a: Act)
    requires avail > 0
    ensures a.p.errno == p.errno && a.p.nread <= p.nread
    ensures 1 <= a.take <= avail
    ensures Repeats(a.next) ==> Rank(a.p.state) < Rank(p.state)
  {
    match p.state
    case Start(s) => StartArm(p, s, ch)
    case StatusLine(s) => StatusLineArm(p, s, ch)
    case MethodName => MethodArm(p, ch)
    case Url(s) => UrlArm(p, s, ch)
    case Version(s) => VersionArm(p, s, ch)
    case Header(s) => HeaderArm(p, s, ch)
    case HeadersEnd(s) => HeadersEndArm(p, s, ch)
    case Body(s) => BodyArm(p, s, avail)
    case Chunk(s) => ChunkArm(p, s, ch, avail)
  }
}
