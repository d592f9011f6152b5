/**
 The representation invariant of the parser: what ties `state`, `header_state`, `index`,
 `flags`, `content_length`, `nread` and the marks together in every reachable state, and
 what makes each assert of http_parser_execute hold.
 */
module Invariant {
  import opened Chars
  import opened Types
  import opened UrlChar
  import opened Arms
  import opened Execute

  /** Where the header-name matcher may stand: it has read index + 1 letters of its word. */
  predicate FieldMatcherOk(h: HeaderState, index: nat) {
    match h
    case HGeneral => true
    case HC => index == 0
    case HCO => index == 1
    case HCON => index == 2
    case HMatchingConnection => 3 <= index < 9
    case HMatchingProxyConnection => index < 15
    case HMatchingContentLength => 3 <= index < 13
    case HMatchingTransferEncoding => index < 16
    case HMatchingUpgrade => index < 6
    case HConnection => true
    case HContentLength => true
    case HTransferEncoding => true
    case HUpgrade => true
    case _ => false
  }

  predicate ValueMatcherOk(h: HeaderState, index: nat) {
    match h
    case HGeneral => true
    case HContentLength => true
    case HMatchingTransferEncodingChunked => index < 6
    case HMatchingConnectionKeepAlive => index < 9
    case HMatchingConnectionClose => index < 4
    case HTransferEncodingChunked => true
    case HConnectionKeepAlive => true
    case HConnectionClose => true
    case _ => false
  }

  /** Numbers stay within their fields, so that no field ever wraps around. */
  predicate Bounded(p: Parser) {
    && p.index < 256
    && p.nread <= HTTP_MAX_HEADER_SIZE
    && p.major <= 999 && p.minor <= 999 && p.statusCode <= 999
    && (p.contentLength == ULLONG_MAX || p.contentLength <= ULLONG_MAX - 6)
  }

  predicate StartPlaced(p: Parser, s: StartState) {
    match s
    case StartReqOrRes => p.typ.Both?
    case ResOrRespH => p.typ.Both? && !p.flags.trailing
    case StartReq => p.typ.Request?
    case StartRes => p.typ.Response?
    case Dead => !p.typ.Both?
  }

  predicate HeaderPlaced(p: Parser, s: HeaderLineState) {
    && !p.typ.Both?
    && (s.HeaderField? ==> FieldMatcherOk(p.headerState, p.index))
    && (s.HeaderValue? ==>
          && ValueMatcherOk(p.headerState, p.index)
          && (p.headerState.HContentLength? ==> p.contentLength != ULLONG_MAX))
  }

  predicate BodyPlaced(p: Parser, s: BodyState) {
    && !p.typ.Both? && !p.flags.trailing
    && (s.BodyIdentity? ==> 0 < p.contentLength <= ULLONG_MAX - 6)
    && (s.BodyIdentityEof? ==> NeedsEof(p))
  }

  predicate ChunkPlaced(p: Parser, s: ChunkState) {
    && !p.typ.Both? && !p.flags.trailing && p.flags.chunked
    && (s.ChunkSizeStart? || p.contentLength <= ULLONG_MAX - 16)
    && (s.ChunkData? ==> p.contentLength > 0)
    && (s.ChunkDataAlmostDone? ==> p.contentLength == 0)
  }

  /** What holds in each part of a message. */
  predicate Placed(p: Parser) {
    match p.state
    case Start(s) => StartPlaced(p, s)
    case StatusLine(_) => p.typ.Response? && !p.flags.trailing
    case MethodName => p.typ.Request? && !p.flags.trailing && 0 < p.index <= |MethodStr(p.meth)|
    case Url(_) => p.typ.Request? && !p.flags.trailing
    case Version(_) => p.typ.Request? && !p.flags.trailing
    case Header(s) => HeaderPlaced(p, s)
    case HeadersEnd(s) => !p.typ.Both? && (s.HeadersDone? ==> !p.flags.trailing)
    case Body(s) => BodyPlaced(p, s)
    case Chunk(s) => ChunkPlaced(p, s)
  }

  /** What holds between any two arms, as long as no error is set. */
  predicate Good(p: Parser) {
    Bounded(p) && Placed(p)
  }

  /** A parser that may look at a byte: already counted in nread. */
  predicate Looking(p: Parser) {
    Good(p) && (p.state == Chunk(ChunkSizeStart) ==> p.nread == 1)
  }

  /** A parser between two bytes, or between two calls. */
  predicate Resting(p: Parser) {
    Good(p) && p.state != Header(HeaderValueStart) && (p.state == Chunk(ChunkSizeStart) ==> p.nread == 0)
  }

  /** The object invariant: nothing is claimed once an error has been set for good. */
  predicate Inv(p: Parser) {
    p.errno == OK || p.errno == Paused ==> Resting(p)
  }

  lemma InitRests(t: ParserType)
    ensures Resting(Init(t)) && Inv(Init(t))
  {
  }

  predicate Fails(n: Next) {
    n.Fail? && n.errno != OK && n.errno != Paused
  }

  /** The states with a condition on how they are entered. */
  predicate Settled(a: Act)
    requires !a.next.Fail? && !a.next.Abort?
  {
    && (a.next.Notify? && a.next.event.HeadersComplete? ==> a.p.state == HeadersEnd(HeadersDone))
    && (a.next.andThen.Exit? ==> a.p.upgrade && a.next == Notify(MessageComplete, Exit))
    && (a.p.state == Header(HeaderValueStart) ==> a.next == Quiet(Repeat))
    && (a.p.state == Chunk(ChunkSizeStart) ==> a.p.nread == 0 && a.next == Quiet(Consume))
  }

  /** What an arm leaves behind: an error, or a good state. */
  predicate LeavesGood(a: Act) {
    Fails(a.next) || (!a.next.Fail? && !a.next.Abort? && Good(a.p) && Settled(a))
  }

  lemma StartGood(p: Parser, s: StartState, ch: char)
    requires Looking(p) && p.state == Start(s)
    ensures LeavesGood(StartArm(p, s, ch))
  {
  }

  lemma StatusLineGood(p: Parser, s: StatusLineState, ch: char)
    requires Looking(p) && p.state == StatusLine(s)
    ensures LeavesGood(StatusLineArm(p, s, ch))
  {
    hide NeedsEof, FieldMatcherOk, ValueMatcherOk;
  }

  /** A word that goes on is not at its end yet, nor is the one switched to. */
  lemma MethodGoesOn(m: Method, index: nat, ch: char)
    requires index <= |MethodStr(m)| && ch != '\0'
    ensures |MethodStr(m)| <= 11
    ensures ch == CharAt(MethodStr(m), index) ==> index < |MethodStr(m)|
    ensures var other := OtherMethod(m, index, ch); other.Some? ==> index < |MethodStr(other.value)|
  {
  }

  lemma MethodGood(p: Parser, ch: char)
    requires Looking(p) && p.state == MethodName
    ensures LeavesGood(MethodArm(p, ch))
  {
    if ch != '\0' {
      MethodGoesOn(p.meth, p.index, ch);
    }
    hide MethodStr, OtherMethod, CharAt;
  }

  lemma UrlGood(p: Parser, s: UrlState, ch: char)
    requires Looking(p) && p.state == Url(s)
    ensures LeavesGood(UrlArm(p, s, ch))
  {
  }

  lemma VersionGood(p: Parser, s: VersionState, ch: char)
    requires Looking(p) && p.state == Version(s)
    ensures LeavesGood(VersionArm(p, s, ch))
  {
  }

  lemma FieldStartGood(p: Parser, ch: char)
    requires Looking(p) && p.state == Header(HeaderFieldStart)
    ensures LeavesGood(FieldStartArm(p, ch))
  {
  }

  /** One letter more keeps a matcher inside its word, or ends the matching. */
  lemma MatchNextStays(p: Parser, c: char, word: string, done: HeaderState)
    requires 1 < |word| <= 17 && p.index < |word| - 1
    ensures var q := MatchNext(p, c, word, done);
            && q == p.(index := q.index, headerState := q.headerState) && q.index == p.index + 1
            && (q.headerState == HGeneral || q.headerState == done
                || (q.headerState == p.headerState && q.index < |word| - 1))
  {
  }

  lemma MatchFieldGood(p: Parser, ch: char)
    requires p.index < 256 && FieldMatcherOk(p.headerState, p.index)
    ensures var m := MatchFieldByte(p, ch);
            m.Some? && m.value == p.(index := m.value.index, headerState := m.value.headerState)
            && m.value.index < 256 && FieldMatcherOk(m.value.headerState, m.value.index)
  {
    var c := Token(ch);
    match p.headerState
    case HMatchingConnection => MatchNextStays(p, c, CONNECTION, HConnection);
    case HMatchingProxyConnection => MatchNextStays(p, c, PROXY_CONNECTION, HConnection);
    case HMatchingContentLength => MatchNextStays(p, c, CONTENT_LENGTH, HContentLength);
    case HMatchingTransferEncoding => MatchNextStays(p, c, TRANSFER_ENCODING, HTransferEncoding);
    case HMatchingUpgrade => MatchNextStays(p, c, UPGRADE, HUpgrade);
    case _ =>
  }

  lemma FieldGood(p: Parser, ch: char)
    requires Looking(p) && p.state == Header(HeaderField)
    ensures LeavesGood(FieldArm(p, ch))
  {
    MatchFieldGood(p, ch);
  }

  lemma ValueStartGood(p: Parser, ch: char)
    requires Looking(p) && (p.state == Header(HeaderValueStart) || p.state == Header(HeaderValueDiscardWs))
    ensures LeavesGood(ValueStartArm(p, ch))
  {
    hide Lower, NeedsEof;
  }

  lemma MatchValueGood(p: Parser, ch: char)
    requires p.index < 256 && ValueMatcherOk(p.headerState, p.index) && !p.headerState.HContentLength?
    ensures var m := MatchValueByte(p, ch);
            m.Some? && m.value == p.(index := m.value.index, headerState := m.value.headerState)
            && m.value.index < 256 && ValueMatcherOk(m.value.headerState, m.value.index)
            && !m.value.headerState.HContentLength?
  {
    var c := Lower(ch);
    match p.headerState
    case HMatchingTransferEncodingChunked =>
      MatchNextStays(p, c, CHUNKED, HTransferEncodingChunked);
    case HMatchingConnectionKeepAlive => MatchNextStays(p, c, KEEP_ALIVE, HConnectionKeepAlive);
    case HMatchingConnectionClose => MatchNextStays(p, c, CLOSE, HConnectionClose);
    case _ =>
  }

  lemma ValueGood(p: Parser, ch: char)
    requires Looking(p) && p.state == Header(HeaderValue)
    ensures LeavesGood(ValueArm(p, ch))
  {
    if !p.headerState.HContentLength? {
      MatchValueGood(p, ch);
    }
  }

  lemma HeaderGood(p: Parser, s: HeaderLineState, ch: char)
    requires Looking(p) && p.state == Header(s)
    ensures LeavesGood(HeaderArm(p, s, ch))
  {
    match s
    case HeaderFieldStart => FieldStartGood(p, ch);
    case HeaderField => FieldGood(p, ch);
    case HeaderValueDiscardWs => ValueStartGood(p, ch);
    case HeaderValueStart => ValueStartGood(p, ch);
    case HeaderValue => ValueGood(p, ch);
    case _ =>
  }

  lemma HeadersEndGood(p: Parser, s: HeadersEndState, ch: char)
    requires Looking(p) && p.state == HeadersEnd(s)
    ensures LeavesGood(HeadersEndArm(p, s, ch))
  {
  }

  lemma BodyGood(p: Parser, s: BodyState, avail: nat)
    requires Looking(p) && p.state == Body(s) && avail > 0
    ensures LeavesGood(BodyArm(p, s, avail))
  {
  }

  lemma ChunkGood(p: Parser, s: ChunkState, ch: char, avail: nat)
    requires Looking(p) && p.state == Chunk(s) && avail > 0
    ensures LeavesGood(ChunkArm(p, s, ch, avail))
  {
    UnhexBelow16(ch);
    hide Unhex, NeedsEof;
  }

  lemma UnhexBelow16(ch: char)
    ensures -1 <= Unhex(ch) < 16
  {
  }

  /** Every arm keeps the invariant, and none of the asserts can fail. */
  lemma ArmGood(p: Parser, ch: char, avail: nat)
    requires Looking(p) && avail > 0
    ensures LeavesGood(Arm(p, ch, avail))
  {
    match p.state
    case Start(s) => StartGood(p, s, ch);
    case StatusLine(s) => StatusLineGood(p, s, ch);
    case MethodName => MethodGood(p, ch);
    case Url(s) => UrlGood(p, s, ch);
    case Version(s) => VersionGood(p, s, ch);
    case Header(s) => HeaderGood(p, s, ch);
    case HeadersEnd(s) => HeadersEndGood(p, s, ch);
    case Body(s) => BodyGood(p, s, avail);
    case Chunk(s) => ChunkGood(p, s, ch, avail);
  }

  /** A callback cannot spoil the invariant: it may set F_SKIPBODY, but only at one place. */
  lemma AfterCallGood(p: Parser, e: Event, r: Reply)
    requires Good(p) && (e.HeadersComplete? ==> p.state == HeadersEnd(HeadersDone))
    ensures Good(AfterCall(p, e, r))
  {
  }

  /** Counting a byte readies a resting parser for looking at it. */
  lemma TickLooks(p: Parser)
    requires Resting(p)
    ensures Tick(p).state == p.state && Tick(p).errno == p.errno
    ensures !Overflows(p) ==> Looking(Tick(p))
  {
  }

  lemma AfterCallRests(p: Parser, e: Event, on: Callbacks)
    requires Resting(p) && e.Data?
    ensures forall t :: Resting(AfterCall(p, e, on(t)))
  {
    forall t ensures Resting(AfterCall(p, e, on(t))) {
      AfterCallGood(p, e, on(t));
    }
  }
}
