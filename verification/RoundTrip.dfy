/**
 Printing and parsing. Any list of messages, all requests or all responses, each of which keeps
 the connection open, printed one after the other and cut into calls at will, is delivered again:
 the same methods, URLs, numbers, reasons, headers and bodies, in the same order.
 */
module RoundTrip {
  import opened Chars
  import opened Types
  import opened UrlChar
  import opened Arms
  import opened Execute
  import opened Reference
  import opened Steps
  import opened Lengths
  import opened HeaderMatch
  import opened Headers
  import opened Bodies
  import opened Bridge
  import opened Refinement
  import opened Invariant
  import opened Numbers
  import opened Messages
  import Methods
  import UrlText
  import UrlGrammar
  import RequestLine
  import ResponseLine

  // ----- the record, event by event

  /** A run of message_begin. */
  function Began(t: seq<Event>, n: nat): seq<Event> {
    if n == 0 then t else Emit(Began(t, n - 1), MessageBegin)
  }

  function AfterFirstLine(t: seq<Event>, m: Message): seq<Event> {
    match m.line
    case Asking(_, _, target, _, _) => Emit(Emit(t, MessageBegin), Data(KUrl, UrlText.PrintUrl(target)))
    case Answering(l) =>
      ResponseLine.WithReason(Emit(Began(t, |m.lead|), MessageBegin), ResponseLine.ReasonOf(l.reason))
  }

  function AfterHead(t: seq<Event>, m: Message): seq<Event> {
    Emit(DeliveredAll(AfterFirstLine(t, m), m.headers), HeadersComplete(HeadOf(m)))
  }

  function AfterMessage(t: seq<Event>, m: Message): seq<Event> {
    Emit(DeliveredAll(WithBody(AfterHead(t, m), BodyOf(m.payload)), TrailersOf(m.payload)), MessageComplete)
  }

  // ----- the first line

  /** Between messages; a parser for requests knows no status code, one for responses no method. */
  predicate Idle(r: Rules, c: Cfg) {
    && c.stop == Running && !c.p.typ.Both? && c.p == Read(r, c.p, 0)
    && (if c.p.typ.Request? then c.p.statusCode == 0 else c.p.meth == DELETE)
  }

  /** Before a message. */
  predicate Ready(r: Rules, c: Cfg) {
    Idle(r, c) && c.p.state == FirstState(c.p)
  }

  /** The parser with what the first line of m says. */
  function Lined(p: Parser, m: Message): Parser {
    match m.line
    case Asking(meth, _, _, _, _) => p.(major := MajorOf(m.line), minor := MinorOf(m.line), meth := meth)
    case Answering(l) => p.(major := MajorOf(m.line), minor := MinorOf(m.line), statusCode := Decimal(l.code))
  }

  /** The parser after the first line, n bytes on. */
  function AtHeaders(r: Rules, p: Parser, index: nat, m: Message, n: nat): Parser {
    Lined(Read(r, p, n), m).(flags := NO_FLAGS, contentLength := ULLONG_MAX, index := index,
                             state := Header(HeaderFieldStart))
  }

  // ----- line ends before a message

  /** The parser after n line ends before a message. */
  function Skimmed(r: Rules, p: Parser, n: nat): Parser {
    var q := Read(r, p, n);
    if p.typ.Response? && n > 0 then q.(flags := NO_FLAGS, contentLength := ULLONG_MAX) else q
  }

  lemma EolBegins(r: Rules, c: Cfg, b: char)
    requires c.stop == Running && c.p.state == Start(StartRes) && Room(r, c.p, 1) && IsEol(b)
    ensures OnByte(r, c, b)
         == Went(c, Read(r, c.p, 1).(flags := NO_FLAGS, contentLength := ULLONG_MAX), Emit(c.trace, MessageBegin), 1)
  {
    HeaderByte(r, c, b);
    hide Emit;
  }

  lemma {:induction false} LeadReads(r: Rules, c: Cfg, lead: string)
    requires Ready(r, c) && OnlyEols(lead) && Room(r, c.p, |lead|)
    ensures Feed(r, c, lead) ==
              Went(c, Skimmed(r, c.p, |lead|), if c.p.typ.Request? then c.trace else Began(c.trace, |lead|), |lead|)
    decreases |lead|
  {
    hide OnByte, Feed, Emit;
    if c.p.typ.Request? {
      Methods.EolsSkipped(r, c, lead);
    } else if lead == "" {
      NoBytes(r, c);
    } else {
      var n := |lead| - 1;
      assert lead == lead[..n] + [lead[n]];
      LeadReads(r, c, lead[..n]);
      FeedSnoc(r, c, lead[..n], lead[n]);
      EolBegins(r, Feed(r, c, lead[..n]), lead[n]);
    }
  }

  // ----- the first line

  /** What follows the URL of a request: its version, or the end of the line. */
  function Rest(l: Line): string
    requires l.Asking?
  {
    ProtocolText(l.protocol) + l.eol
  }

  lemma ProtocolReads(r: Rules, c: Cfg, l: Line)
    requires l.Asking? && ProtocolOk(l.protocol) && IsLineEnd(l.eol) && Rest(l) != "" && c.stop == Running
    requires c.p == RequestLine.AfterUrl(c.p, Rest(l)[0]) && Room(r, c.p, |Rest(l)| - 1) && c.p == Read(r, c.p, 0)
    ensures Feed(r, c, Rest(l)[1..]) ==
              Went(c, Read(r, c.p, |Rest(l)| - 1).(major := MajorOf(l), minor := MinorOf(l),
                                                   state := Header(HeaderFieldStart)), c.trace, |Rest(l)| - 1)
  {
    hide OnByte, Feed, Decimal, RequestLine.PrintVersion, RequestLine.VersionText, RequestLine.VersionOk;
    match l.protocol
    case NoProtocol =>
      assert Rest(l) == l.eol;
      if l.eol == "\n" {
        assert l.eol[1..] == "";
        NoBytes(r, c);
      } else {
        assert l.eol[1..] == "\n";
        FeedByte(r, c, '\n');
        PassingByte(r, c, '\n', Header(HeaderFieldStart));
      }
    case Http(gap, version) =>
      assert Rest(l)[1..] == gap + RequestLine.PrintVersion(version) + l.eol;
      RequestLine.VersionReads(r, c, gap, version, l.eol);
  }

  lemma TargetReads(r: Rules, c: Cfg, l: Line)
    requires l.Asking? && LineOk(l) && c.stop == Running && c.p.state == Url(ReqSpacesBeforeUrl)
    requires c.p.meth == l.meth && c.p == Read(r, c.p, 0)
    requires Room(r, c.p, |UrlText.PrintUrl(l.target) + Rest(l)|)
    ensures var url := UrlText.PrintUrl(l.target);
            var n := |url + Rest(l)|;
            Feed(r, c, url + Rest(l)) ==
              Went(c, Read(r, c.p, n).(major := MajorOf(l), minor := MinorOf(l), state := Header(HeaderFieldStart)),
                   Emit(c.trace, Data(KUrl, url)), n)
  {
    hide OnByte, Feed, Decimal, Emit, UrlText.Proper, UrlText.PrintUrl, ProtocolOk, MajorOf, MinorOf;
    var url, rest := UrlText.PrintUrl(l.target), Rest(l);
    RestEndsUrl(l);
    hide Rest;
    UrlTaken(r, c, l.target, rest[0]);
    assert url + rest == (url + [rest[0]]) + rest[1..];
    FeedAppend(r, c, url + [rest[0]], rest[1..]);
    ProtocolReads(r, Feed(r, c, url + [rest[0]]), l);
  }

  lemma UrlTaken(r: Rules, c: Cfg, u: UrlText.Pieces, b: char)
    requires c.stop == Running && c.p.state == Url(ReqSpacesBeforeUrl) && UrlText.Proper(u, c.p.meth == CONNECT)
    requires Room(r, c.p, |UrlText.PrintUrl(u)| + 1) && RequestLine.EndsUrl(b)
    ensures var url := UrlText.PrintUrl(u);
            Feed(r, c, url + [b]) ==
              Went(c, RequestLine.AfterUrl(Read(r, c.p, |url| + 1), b), Emit(c.trace, Data(KUrl, url)), |url| + 1)
  {
    hide Feed, Emit, UrlText.Proper, UrlText.PrintUrl, RequestLine.UrlText;
    UrlGrammar.ProperIsUrl(u, c.p.meth == CONNECT);
    UrlGrammar.RequestUrlByText(r, c, UrlText.PrintUrl(u), b);
  }

  lemma RestEndsUrl(l: Line)
    requires l.Asking? && IsLineEnd(l.eol)
    ensures Rest(l) != "" && RequestLine.EndsUrl(Rest(l)[0])
  {
  }

  lemma AskingReads(r: Rules, c: Cfg, m: Message)
    requires m.line.Asking? && m.lead == "" && Ready(r, c) && c.p.typ.Request? && LineOk(m.line)
    requires Room(r, c.p, |LineText(m)|)
    ensures var d := Feed(r, c, LineText(m));
            d == Went(c, AtHeaders(r, c.p, d.p.index, m, |LineText(m)|), AfterFirstLine(c.trace, m), |LineText(m)|)
  {
    hide OnByte, Feed, Emit, MethodStr, UrlText.Proper, UrlText.PrintUrl, ProtocolOk, ProtocolText, MajorOf, MinorOf;
    var l := m.line;
    var w := MethodStr(l.meth) + " ";
    var rest := UrlText.PrintUrl(l.target) + Rest(l);
    assert LineText(m) == w + l.gap + rest;
    FeedAppend(r, c, w + l.gap, rest);
    FeedAppend(r, c, w, l.gap);
    Methods.MethodReads(r, c, l.meth);
    RequestLine.SpacesRead(r, Feed(r, c, w), l.gap);
    TargetReads(r, Feed(r, c, w + l.gap), l);
  }

  lemma LineReads(r: Rules, c: Cfg, m: Message)
    requires Ready(r, c) && c.p.typ == TypeOf(m) && OnlyEols(m.lead) && LineOk(m.line) && Room(r, c.p, |LineText(m)|)
    ensures var d := Feed(r, c, LineText(m));
            d == Went(c, AtHeaders(r, c.p, d.p.index, m, |LineText(m)|), AfterFirstLine(c.trace, m), |LineText(m)|)
  {
    hide OnByte, Feed, Emit, LineOk, FirstLine, Began, MajorOf, MinorOf, OnlyEols;
    FeedAppend(r, c, m.lead, FirstLine(m.line));
    LeadReads(r, c, m.lead);
    var d := Feed(r, c, m.lead);
    var k := m.(lead := "");
    assert LineText(k) == FirstLine(m.line);
    if m.line.Asking? {
      AskingReads(r, d, k);
    } else {
      StatusLineReads(r, d, k);
      assert Began(d.trace, 0) == d.trace by { NoneBegun(d.trace); }
    }
  }

  lemma StatusLineReads(r: Rules, c: Cfg, m: Message)
    requires m.line.Answering? && m.lead == "" && Ready(r, c) && c.p.typ.Response? && LineOk(m.line)
    requires Room(r, c.p, |LineText(m)|)
    ensures var d := Feed(r, c, LineText(m));
            d == Went(c, AtHeaders(r, c.p, d.p.index, m, |LineText(m)|), AfterFirstLine(c.trace, m), |LineText(m)|)
  {
    hide OnByte, Feed, Emit, ResponseLine.Print, ResponseLine.StatusText, ResponseLine.NumbersOk;
    hide ResponseLine.WithReason, ResponseLine.ReasonOf, Decimal;
    assert LineText(m) == ResponseLine.Print(m.line.status);
    ResponseLine.StatusReads(r, c, m.line.status);
  }

  lemma NoneBegun(t: seq<Event>)
    ensures Began(t, 0) == t
  {
  }

  // ----- the head

  /** The parser after the head of m: q is p but for these fields. */
  predicate Headed(r: Rules, p: Parser, m: Message, q: Parser) {
    && q == Lined(p, m).(flags := HeadFlags(m), contentLength := LengthAll(ULLONG_MAX, m.headers), upgrade := false,
                         state := q.state, nread := q.nread, headerState := q.headerState, index := q.index)
    && q == Zeroed(r, q) && q.state == Bodies.BodyState(q)
  }

  predicate HeadDone(r: Rules, c: Cfg, m: Message, d: Cfg) {
    && Headed(r, c.p, m, d.p)
    && d == Went(c, d.p,
                 if d.p.state.Start? then Emit(AfterHead(c.trace, m), MessageComplete) else AfterHead(c.trace, m),
                 |HeadText(m)|)
  }

  /** The parser before the empty line that ends the head of m, of which b is read next. */
  predicate BeforeEnd(r: Rules, c: Cfg, m: Message, b: char, d: Cfg) {
    && AtField(r, d, |m.eol|) && IsLineEnd(m.eol) && d.p == Read(r, d.p, 0)
    && d == Went(c, d.p, DeliveredAll(AfterFirstLine(c.trace, m), m.headers), |HeadText(m)| - |m.eol|)
    && d.p == Lined(c.p, m).(flags := HeadFlags(m), contentLength := LengthAll(ULLONG_MAX, m.headers),
                             state := Header(HeaderFieldStart), nread := d.p.nread,
                             headerState := d.p.headerState, index := d.p.index)
    && !HeadFlags(m).trailing && !HeadFlags(m).skipBody
    && OnByte(r, Feed(r, c, LineText(m) + PrintAll(m.headers)), b) == OnByte(r, d, b)
    && (b == m.eol[0] ==> Feed(r, c, HeadText(m)) == Feed(r, d, m.eol))
  }

  lemma HeadOpens(r: Rules, c: Cfg, m: Message, b: char) returns (d: Cfg)
    requires Ready(r, c) && c.p.typ == TypeOf(m) && HeadOk(m) && Room(r, c.p, |HeadText(m)|) && IsEol(b)
    ensures BeforeEnd(r, c, m, b, d)
  {
    hide OnByte, Feed, Emit, LineText, PrintAll, FlaggedAll, LengthAll, DeliveredAll, LineOk;
    hide AllWellFormed, AllLengthsOk, AfterFirstLine;
    var lines := LineText(m) + PrintAll(m.headers);
    FeedAppend(r, c, lines, m.eol);
    FeedAppend(r, c, LineText(m), PrintAll(m.headers));
    LineReads(r, c, m);
    LinedRead(r, c.p, m, |LineText(m)|);
    hide Lined, OnlyEols, TypeOf;
    var c1 := Feed(r, c, LineText(m));
    d := BlockReads(r, c1, m.headers, b);
    FlagsMean(NO_FLAGS, m.headers);
    if b == m.eol[0] {
      FeedSame(r, Feed(r, c, lines), d, m.eol);
    }
  }

  /** The count does not matter to the first line. */
  lemma LinedRead(r: Rules, p: Parser, m: Message, n: nat)
    ensures Lined(Read(r, p, n), m) == Lined(p, m).(nread := Read(r, p, n).nread)
  {
    hide MajorOf, MinorOf, Decimal;
  }

  lemma HeadReads(r: Rules, c: Cfg, m: Message)
    requires Ready(r, c) && c.p.typ == TypeOf(m) && HeadOk(m) && !HandsOver(m) && Room(r, c.p, |HeadText(m)|)
    requires !r.skips(AfterHead(c.trace, m))
    ensures HeadDone(r, c, m, Feed(r, c, HeadText(m)))
  {
    hide OnByte, Feed, Emit, HeadText, LineText, FlaggedAll, LengthAll, DeliveredAll, LineOk, NewMessage;
    hide AllWellFormed, AllLengthsOk, AfterFirstLine;
    var d := HeadOpens(r, c, m, m.eol[0]);
    SeenIs(c.p, d.p, m);
    EndReads(r, d, m.eol);
    BodyStateStays(d.p, Zeroed(r, d.p.(upgrade := false)));
  }

  /** The fields at the end of the headers are the first line's. */
  lemma SeenIs(p: Parser, q: Parser, m: Message)
    requires p.typ == TypeOf(m) && (if p.typ.Request? then p.statusCode == 0 else p.meth == DELETE)
    requires q == Lined(p, m).(flags := HeadFlags(m), contentLength := q.contentLength, state := q.state,
                               nread := q.nread, headerState := q.headerState, index := q.index)
    ensures HeadersEvent(q, HandsOver(m)) == HeadersComplete(HeadOf(m))
    ensures HandsOver(m) <==> q.flags.upgrade || q.meth == CONNECT
  {
    hide FlaggedAll, Decimal;
  }

  /** What follows the head does not depend on the state or the count. */
  lemma BodyStateStays(p: Parser, q: Parser)
    requires q == p.(upgrade := false, nread := q.nread)
    ensures var s := Bodies.BodyState(p.(upgrade := false));
            && Bodies.BodyState(q) == s && Bodies.BodyState(q.(state := s)) == s
            && (s.Start? <==> s == NewMessage(p.(upgrade := false)))
            && NewMessage(p.(upgrade := false)).Start?
  {
  }

  // ----- the payload

  /** Where m leaves the parser: before a next message, or at the end. */
  function StateAfter(m: Message): State {
    if !Persistent(m) then Start(Dead) else if m.line.Asking? then Start(StartReq) else Start(StartRes)
  }

  /** The parser after the whole of m. */
  predicate MessageDone(r: Rules, c: Cfg, m: Message, d: Cfg) {
    && d == Went(c, d.p, AfterMessage(c.trace, m), |Text(m)|)
    && Idle(r, d) && d.p.typ == c.p.typ && d.p == Lined(d.p, m) && d.p.errno == c.p.errno
    && d.p.state == StateAfter(m) && (ShouldKeepAlive(d.p) <==> Persistent(m))
    && (r.counting ==> d.p.nread == Carry(m))
  }

  lemma StaysOpen(p: Parser, m: Message)
    requires Delimited(m) && p.typ == TypeOf(m) && p == Lined(p, m) && p.flags == EndFlags(m)
    requires p.flags.chunked
      || (!HeadFlags(m).chunked
          && (p.contentLength != ULLONG_MAX || p.contentLength == LengthAll(ULLONG_MAX, m.headers)))
    ensures NewMessage(p) == StateAfter(m) && !NeedsEof(p) && (ShouldKeepAlive(p) <==> Persistent(m))
  {
    hide FlaggedAll, LengthAll, Decimal, TrailerFlags;
  }

  /** The first line of one type leaves alone what only the other type sets. */
  lemma LineKeeps(p: Parser, m: Message)
    requires p.typ == TypeOf(m)
    ensures p.typ.Request? ==> Lined(p, m).statusCode == p.statusCode
    ensures p.typ.Response? ==> Lined(p, m).meth == p.meth
  {
    hide Decimal;
  }

  lemma PlainReads(r: Rules, c: Cfg, m: Message)
    requires Ready(r, c) && c.p.typ == TypeOf(m) && Complete(m) && m.payload.Plain? && Room(r, c.p, |HeadText(m)|)
    requires !r.skips(AfterHead(c.trace, m))
    ensures MessageDone(r, c, m, Feed(r, c, Text(m)))
  {
    hide OnByte, Feed, Emit, HeadText, FlaggedAll, LengthAll, LineOk, AfterHead, DeliveredAll, NewMessage, Decimal;
    hide Persistent, NeedsEof, ShouldKeepAlive;
    HeadReads(r, c, m);
    var body := m.payload.body;
    var d := Feed(r, c, HeadText(m));
    FeedAppend(r, c, HeadText(m), body);
    StaysOpen(d.p, m);
    LineKeeps(c.p, m);
    PlainDone(m);
    if body == "" {
      NoBytes(r, d);
    } else {
      BodyReads(r, d, body);
      StaysOpen(d.p.(contentLength := 0), m);
      StaysOpen(Feed(r, d, body).p, m);
    }
  }

  lemma PlainDone(m: Message)
    requires m.payload.Plain?
    ensures forall t: seq<Event> :: DeliveredAll(t, TrailersOf(m.payload)) == t
  {
  }

  /**
   A chunked body: the joined on_body bytes are the joined chunks, whatever the case and the
   leading zeros of the sizes and whatever the extensions, and the message completes once.
   */
  lemma ChunkedReads(r: Rules, c: Cfg, ks: seq<Piece>, e: Ending)
    requires AtChunk(r, c, 0) && ChunksOk(ks) && EndingOk(e)
    ensures var d := Feed(r, c, PrintChunks(ks) + PrintEnding(e));
            var p := Feed(r, c, PrintChunks(ks)).p;
            && d == Went(c, d.p, Emit(DeliveredAll(WithBody(c.trace, DataOf(ks)), e.trailers), MessageComplete),
                         |PrintChunks(ks) + PrintEnding(e)|)
            && d.p.state == NewMessage(d.p) && d.p.flags == TrailerFlags(c.p.flags, e)
            && d.p == Read(r, d.p, 0) && (r.counting ==> d.p.nread == |TrailerText(e)|)
            && d.p == c.p.(state := d.p.state, flags := d.p.flags, contentLength := d.p.contentLength,
                           nread := d.p.nread, headerState := d.p.headerState, index := d.p.index)
  {
    hide OnByte, Feed, Emit, FlaggedAll, DeliveredAll, NewMessage, EndingOk, ChunksOk, PrintEnding, PrintChunks;
    FeedAppend(r, c, PrintChunks(ks), PrintEnding(e));
    ChunksRead(r, c, ks);
    EndingReads(r, Feed(r, c, PrintChunks(ks)), e);
  }

  lemma ChunkedMessage(r: Rules, c: Cfg, m: Message)
    requires Ready(r, c) && c.p.typ == TypeOf(m) && Complete(m) && m.payload.InChunks? && Room(r, c.p, |HeadText(m)|)
    requires !r.skips(AfterHead(c.trace, m))
    ensures MessageDone(r, c, m, Feed(r, c, Text(m)))
  {
    hide OnByte, Feed, Emit, HeadText, FlaggedAll, LengthAll, LineOk, AfterHead, DeliveredAll, NewMessage, EndingOk;
    hide Persistent, NeedsEof, ShouldKeepAlive, Decimal;
    HeadReads(r, c, m);
    var d := Feed(r, c, HeadText(m));
    FeedAppend(r, c, HeadText(m), PayloadText(m.payload));
    var e := m.payload.ending;
    ChunkedReads(r, d, m.payload.pieces, e);
    FlagsMean(HeadFlags(m).(trailing := true), e.trailers);
    LineKeeps(c.p, m);
    StaysOpen(Feed(r, d, PayloadText(m.payload)).p, m);
  }

  lemma SkippedMessage(r: Rules, c: Cfg, m: Message)
    requires Ready(r, c) && c.p.typ == TypeOf(m) && Complete(m) && m.payload.Skipped? && Room(r, c.p, |HeadText(m)|)
    requires r.skips(AfterHead(c.trace, m))
    ensures MessageDone(r, c, m, Feed(r, c, Text(m)))
  {
    hide OnByte, Feed, Emit, HeadText, FlaggedAll, LengthAll, LineOk, DeliveredAll, NewMessage, Decimal;
    hide Persistent, NeedsEof, ShouldKeepAlive, AfterFirstLine;
    SkippedDone(c.trace, m);
    var d := HeadOpens(r, c, m, m.eol[0]);
    SeenIs(c.p, d.p, m);
    SkipReads(r, d, m.eol);
    LineKeeps(c.p, m);
    SkippedStaysOpen(d.p.(upgrade := false, flags := EndFlags(m)), m);
    SkippedStaysOpen(Feed(r, d, m.eol).p, m);
  }

  /** Nothing follows the head. */
  lemma SkippedDone(t: seq<Event>, m: Message)
    requires m.payload.Skipped?
    ensures AfterMessage(t, m) == Emit(AfterHead(t, m), MessageComplete) && Text(m) == HeadText(m)
  {
    hide AfterHead, HeadText, Emit;
    assert HeadText(m) + "" == HeadText(m);
  }

  lemma SkippedStaysOpen(p: Parser, m: Message)
    requires m.payload.Skipped? && p.typ == TypeOf(m) && p == Lined(p, m) && p.flags == EndFlags(m)
    ensures NewMessage(p) == StateAfter(m) && (ShouldKeepAlive(p) <==> Persistent(m))
  {
    hide FlaggedAll, LengthAll, Decimal;
  }

  /** The application skips the body of m, after the record t, just when m is sent without it. */
  predicate Chosen(skips: seq<Event> -> bool, t: seq<Event>, m: Message) {
    skips(AfterHead(t, m)) <==> m.payload.Skipped?
  }

  /** One message. */
  lemma MessageReads(r: Rules, c: Cfg, m: Message)
    requires Ready(r, c) && c.p.typ == TypeOf(m) && Complete(m) && Room(r, c.p, |HeadText(m)|)
    requires Chosen(r.skips, c.trace, m)
    ensures MessageDone(r, c, m, Feed(r, c, Text(m)))
  {
    hide Ready, Complete, MessageDone, HeadText, AfterHead;
    match m.payload
    case Plain(_) => PlainReads(r, c, m);
    case InChunks(_, _) => ChunkedMessage(r, c, m);
    case Skipped => SkippedMessage(r, c, m);
  }

  // ----- a pipeline of messages

  function AfterAll(t: seq<Event>, ms: seq<Message>): seq<Event> {
    if ms == [] then t else AfterMessage(AfterAll(t, ms[..|ms| - 1]), ms[|ms| - 1])
  }

  /**
   Each message can be sent, and its head fits the limit on header bytes. Trailers stay counted
   when their message is complete, so they take from the room of the next head.
   */
  predicate AllFit(carry: nat, ms: seq<Message>) {
    forall k :: 0 <= k < |ms| ==> Fits(carry, ms, k)
  }

  predicate ChosenAll(skips: seq<Event> -> bool, t: seq<Event>, ms: seq<Message>) {
    forall k :: 0 <= k < |ms| ==> ChosenAt(skips, t, ms, k)
  }

  predicate ChosenAt(skips: seq<Event> -> bool, t: seq<Event>, ms: seq<Message>, k: nat)
    requires k < |ms|
  {
    Chosen(skips, AfterAll(t, ms[..k]), ms[k])
  }

  lemma ChosenFront(skips: seq<Event> -> bool, t: seq<Event>, ms: seq<Message>, n: nat)
    requires n <= |ms| && ChosenAll(skips, t, ms)
    ensures ChosenAll(skips, t, ms[..n])
  {
    hide Chosen, AfterAll;
    forall k | 0 <= k < n ensures ChosenAt(skips, t, ms[..n], k) {
      assert ms[..n][..k] == ms[..k] && ChosenAt(skips, t, ms, k);
    }
  }

  predicate Fits(carry: nat, ms: seq<Message>, k: nat)
    requires k < |ms|
  {
    && Sendable(ms[k])
    && (if k == 0 then carry else Carry(ms[k - 1])) + |HeadText(ms[k])| <= HTTP_MAX_HEADER_SIZE
  }

  lemma {:induction false} PipelineReads(r: Rules, c: Cfg, ms: seq<Message>)
    requires Ready(r, c) && AllOf(c.p.typ, ms) && AllFit(c.p.nread, ms) && ChosenAll(r.skips, c.trace, ms)
    ensures var d := Feed(r, c, TextAll(ms));
            && d == Went(c, d.p, AfterAll(c.trace, ms), |TextAll(ms)|)
            && Ready(r, d) && d.p.typ == c.p.typ && d.p.errno == c.p.errno
            && (ms != [] ==>
                  d.p == Lined(d.p, ms[|ms| - 1]) && (r.counting ==> d.p.nread == Carry(ms[|ms| - 1])))
            && (ms == [] ==> d.p == c.p)
    decreases |ms|
  {
    hide OnByte, Feed, Sendable, HeadText, Text, AfterMessage, AfterHead, Carry, Lined, TypeOf, Chosen;
    if ms == [] {
      NoBytes(r, c);
    } else {
      var n := |ms| - 1;
      var front := ms[..n];
      assert ms[n] in ms && forall m :: m in front ==> m in ms;
      ChosenFront(r.skips, c.trace, ms, n);
      forall k | 0 <= k < n
        ensures Fits(c.p.nread, front, k)
      {
        assert Fits(c.p.nread, ms, k);
      }
      assert Fits(c.p.nread, ms, n) && ChosenAt(r.skips, c.trace, ms, n);
      PipelineReads(r, c, front);
      var d := Feed(r, c, TextAll(front));
      FeedAppend(r, c, TextAll(front), Text(ms[n]));
      SendableIs(ms[n]);
      MessageReads(r, d, ms[n]);
      OpenAfter(r, Feed(r, d, Text(ms[n])), ms[n]);
    }
  }

  lemma SendableIs(m: Message)
    ensures Sendable(m) <==> Complete(m) && Persistent(m)
  {
  }

  lemma OpenAfter(r: Rules, d: Cfg, m: Message)
    requires Idle(r, d) && d.p.typ == TypeOf(m) && d.p.state == StateAfter(m) && Persistent(m)
    ensures Ready(r, d)
  {
  }

  // ----- the record, written out

  /** Nothing to join a delivery of kind k to. */
  predicate Open(t: seq<Event>, k: Kind) {
    t == [] || !t[|t| - 1].Data? || t[|t| - 1].kind != k
  }

  lemma EmitOpen(t: seq<Event>, k: Kind, s: string)
    requires Open(t, k)
    ensures Emit(t, Data(k, s)) == t + [Data(k, s)]
  {
  }

  lemma {:induction false} HeadersWritten(t: seq<Event>, hs: seq<HeaderLine>)
    requires Open(t, KField)
    ensures DeliveredAll(t, hs) == t + HeaderEvents(hs) && Open(DeliveredAll(t, hs), KField)
    decreases |hs|
  {
    hide Emit;
    if hs != [] {
      var f, v := Data(KField, hs[0].name), Data(KValue, ValueOf(hs[0]));
      EmitOpen(t, KField, hs[0].name);
      EmitOpen(t + [f], KValue, ValueOf(hs[0]));
      assert Delivered(t, hs[0]) == t + [f, v];
      HeadersWritten(t + [f, v], hs[1..]);
    }
  }

  lemma HeadWritten(t: seq<Event>, m: Message)
    ensures AfterHead(t, m) == t + HeadEvents(m)
  {
    hide Emit;
    var line := LineEvents(m);
    LineWritten(t, m);
    HeadersWritten(t + line, m.headers);
    hide DeliveredAll, HeaderEvents, AfterFirstLine, LineEvents, HeadOf, Open;
    var e := HeadersComplete(HeadOf(m));
    Notified(t + line + HeaderEvents(m.headers), e);
    Regroup(t, line, HeaderEvents(m.headers), [e]);
  }

  lemma Regroup(t: seq<Event>, a: seq<Event>, b: seq<Event>, c: seq<Event>)
    ensures t + a + b + c == t + (a + b + c)
  {
  }

  lemma Notified(t: seq<Event>, e: Event)
    requires !e.Data?
    ensures Emit(t, e) == t + [e]
  {
  }

  lemma LineWritten(t: seq<Event>, m: Message)
    ensures AfterFirstLine(t, m) == t + LineEvents(m) && Open(t + LineEvents(m), KField)
  {
    hide UrlText.PrintUrl, Emit;
    if m.line.Asking? {
      Notified(t, MessageBegin);
      EmitOpen(t + [MessageBegin], KUrl, UrlText.PrintUrl(m.line.target));
    } else {
      BegunWritten(t, |m.lead|);
      var u := t + Beginnings(|m.lead|);
      Notified(u, MessageBegin);
      EmitOpen(u + [MessageBegin], KStatus, ResponseLine.ReasonOf(m.line.status.reason));
    }
  }

  lemma {:induction false} BegunWritten(t: seq<Event>, n: nat)
    ensures Began(t, n) == t + Beginnings(n)
    decreases n
  {
    hide Emit;
    if n > 0 {
      BegunWritten(t, n - 1);
      Notified(t + Beginnings(n - 1), MessageBegin);
      assert Beginnings(n) == Beginnings(n - 1) + [MessageBegin];
    } else {
      assert Beginnings(0) == [];
    }
  }

  lemma MessageWritten(t: seq<Event>, m: Message)
    ensures AfterMessage(t, m) == t + EventsOf(m)
  {
    hide HeadEvents, AfterHead, DeliveredAll, HeaderEvents;
    HeadWritten(t, m);
    var v, b, h := AfterHead(t, m), BodyEvents(BodyOf(m.payload)), HeaderEvents(TrailersOf(m.payload));
    HeadOpen(t, m);
    EmitOpen(v, KBody, BodyOf(m.payload));
    assert WithBody(v, BodyOf(m.payload)) == v + b;
    HeadersWritten(v + b, TrailersOf(m.payload));
    hide BodyEvents, WithBody;
    assert v + b + h + [MessageComplete] == t + (HeadEvents(m) + b + h + [MessageComplete]);
  }

  lemma HeadOpen(t: seq<Event>, m: Message)
    ensures forall k :: Open(AfterHead(t, m), k)
  {
    hide DeliveredAll;
  }

  lemma {:induction false} AllWritten(ms: seq<Message>)
    ensures AfterAll([], ms) == EventsOfAll(ms)
    decreases |ms|
  {
    hide EventsOf, AfterMessage;
    if ms != [] {
      var front := ms[..|ms| - 1];
      AllWritten(front);
      LastCloses(front);
      MessageWritten(EventsOfAll(front), ms[|ms| - 1]);
    }
  }

  lemma LastCloses(ms: seq<Message>)
    ensures EventsOfAll(ms) == [] || EventsOfAll(ms)[|EventsOfAll(ms)| - 1] == MessageComplete
  {
  }

  // ----- the application

  /**
   Print and parse: messages printed one after the other, given to a fresh parser in calls cut
   anywhere, are delivered exactly: for each in turn its URL or reason, its headers in pairs of
   name and value, its method or its version and status code at the end of the headers, its body
   and its trailers; all bytes are read, and the parser is ready for the next message. The
   application asks for a body to be skipped just where the message is sent without it.
   */
  lemma PrintParse(typ: ParserType, ms: seq<Message>, pieces: seq<string>,
                   skips: seq<Event> -> bool, on: Callbacks)
    requires AllOf(typ, ms) && AllFit(0, ms) && ms != []
    requires Concat(pieces) == TextAll(ms) && pieces != [] && forall s :: s in pieces ==> s != ""
    requires Agrees(on, Rules(true, false, skips)) && ChosenAll(skips, [], ms)
    ensures var o := Calls(Init(typ), pieces, on, []);
            && o.how == AllRead && o.ret == |TextAll(ms)|
            && Joined(o.trace) == EventsOfAll(ms)
            && o.p.state == FirstState(o.p) && o.p.errno == OK && o.p == Lined(o.p, ms[|ms| - 1])
  {
    hide Calls, Feed, AllFit, TextAll, EventsOfAll, AfterAll, ChosenAll;
    var r := Rules(true, false, skips);
    var p := Init(typ);
    InitRests(typ);
    assert TypeOf(ms[0]) == typ by { assert ms[0] in ms; }
    CallsIs(r, p, pieces, on, []);
    PipelineReads(r, Begin(r, p, []), ms);
    AllWritten(ms);
  }

  /** An application that asks for every body to be skipped. */
  ghost predicate SkipsAll(on: Callbacks) {
    forall t :: t != [] ==> SkipsAt(on, t)
  }

  predicate SkipsAt(on: Callbacks, t: seq<Event>)
    requires t != []
  {
    on(t) == Reply(if t[|t| - 1].HeadersComplete? then 1 else 0, false)
  }

  /**
   Responses to HEAD: whatever length or coding their headers announce, no body follows any of
   them. An application that answers 1 at the end of all headers gets them all.
   */
  lemma HeadResponses(ms: seq<Message>, pieces: seq<string>, on: Callbacks)
    requires AllOf(Response, ms) && AllFit(0, ms) && ms != [] && forall m :: m in ms ==> m.payload.Skipped?
    requires Concat(pieces) == TextAll(ms) && pieces != [] && forall s :: s in pieces ==> s != ""
    requires SkipsAll(on)
    ensures var o := Calls(Init(Response), pieces, on, []);
            && o.how == AllRead && o.ret == |TextAll(ms)|
            && Joined(o.trace) == EventsOfAll(ms)
            && o.p.state == FirstState(o.p) && o.p.errno == OK && o.p == Lined(o.p, ms[|ms| - 1])
  {
    hide Calls, AllFit, TextAll, EventsOfAll, AfterAll, AfterHead, AllOf;
    var skips := (t: seq<Event>) => true;
    assert ChosenAll(skips, [], ms) by {
      forall k | 0 <= k < |ms| ensures ChosenAt(skips, [], ms, k) {
        assert ms[k] in ms;
      }
    }
    assert Agrees(on, Rules(true, false, skips)) by {
      forall t | t != [] ensures AgreesAt(on, Rules(true, false, skips), t) {
        assert SkipsAt(on, t);
      }
    }
    PrintParse(Response, ms, pieces, skips, on);
  }

  /**
   Conservation of a body: over any calls that bring no more than is left of it, the on_body
   bytes are just the bytes given, what is delivered and what content_length says is left make
   up what was left before, and message_complete comes exactly when nothing is left.
   */
  lemma BodyConserved(r: Rules, p: Parser, pieces: seq<string>, on: Callbacks, trace: seq<Event>)
    requires r.counting && !r.pauses && Agrees(on, r) && p.errno == OK && Resting(p) && p.state == Body(BodyIdentity)
    requires pieces != [] && (forall s :: s in pieces ==> s != "") && |Concat(pieces)| <= p.contentLength
    ensures var o := Calls(p, pieces, on, trace);
            var t := Emit(Joined(trace), Data(KBody, Concat(pieces)));
            && o.how == AllRead && o.ret == |Concat(pieces)| && o.p.errno == OK
            && o.p.contentLength + |Concat(pieces)| == p.contentLength
            && Joined(o.trace) == (if o.p.contentLength > 0 then t else Emit(t, MessageComplete))
            && o.p.state == (if o.p.contentLength > 0 then Body(BodyIdentity) else NewMessage(o.p))
  {
    assert Concat(pieces) != "" by { assert pieces[0] in pieces; }
    CallsIs(r, p, pieces, on, trace);
    BodyReads(r, Begin(r, p, trace), Concat(pieces));
    var q := p.(contentLength := p.contentLength - |Concat(pieces)|);
    NewMessageStays(q);
    hide Calls, Feed, Emit, Joined, NewMessage, Concat;
  }

  // ----- a response that the end of the stream ends

  /** A response whose body goes on until the stream ends: nothing says how long it is. */
  predicate Unbounded(m: Message) {
    && HeadOk(m) && !HandsOver(m) && m.payload.Plain? && !Delimited(m)
  }

  lemma UnboundedReads(r: Rules, c: Cfg, m: Message)
    requires Ready(r, c) && c.p.typ == Response && Unbounded(m) && Room(r, c.p, |HeadText(m)|)
    requires !r.skips(AfterHead(c.trace, m))
    ensures var d := Feed(r, c, Text(m));
            && d == Went(c, d.p, WithBody(AfterHead(c.trace, m), m.payload.body), |Text(m)|)
            && d.p.state == Body(BodyIdentityEof) && d.p.errno == c.p.errno
  {
    hide OnByte, Feed, Emit, HeadText, FlaggedAll, LengthAll, LineOk, AfterHead, NewMessage, Decimal;
    HeadReads(r, c, m);
    var d := Feed(r, c, HeadText(m));
    FeedAppend(r, c, HeadText(m), m.payload.body);
    StaysUnbounded(d.p, c.p, m);
    if m.payload.body == "" {
      NoBytes(r, d);
    } else {
      Bridge.RunFeeds(r, d, m.payload.body);
    }
  }

  lemma StaysUnbounded(q: Parser, p: Parser, m: Message)
    requires Unbounded(m) && p.typ == Response
    requires q == Lined(p, m).(flags := HeadFlags(m), contentLength := LengthAll(ULLONG_MAX, m.headers),
                               upgrade := false, state := q.state, nread := q.nread,
                               headerState := q.headerState, index := q.index)
    ensures Bodies.BodyState(q) == Body(BodyIdentityEof)
  {
    hide FlaggedAll, LengthAll, LineOk, Decimal, AllWellFormed, AllLengthsOk, NewMessage;
    FlagsMean(NO_FLAGS, m.headers);
  }

  lemma NothingAfter(t: seq<Event>, m: Message)
    requires Unbounded(m)
    ensures m.payload.Plain? && AfterMessage(t, m) == Emit(WithBody(AfterHead(t, m), m.payload.body), MessageComplete)
  {
    hide AfterHead, WithBody, Emit, HeadOk, Delimited;
  }

  lemma EofReads(r: Rules, p: Parser, on: Callbacks, trace: seq<Event>)
    requires Agrees(on, r) && !r.pauses && p.errno == OK && p.state == Body(BodyIdentityEof)
    ensures Exec(p, "", on, trace) == Outcome(p, trace + [MessageComplete], 0, AllRead, map[])
    ensures Joined(trace + [MessageComplete]) == Emit(Joined(trace), MessageComplete)
  {
    hide Joined, Emit;
    JoinedSnoc(trace, MessageComplete);
    assert AgreesAt(on, r, trace + [MessageComplete]);
  }

  /**
   The same for responses when the last one has no end of its own: after all calls, the call
   without data completes it, and everything has been delivered.
   */
  lemma PrintParseUntilEof(ms: seq<Message>, m: Message, pieces: seq<string>,
                           skips: seq<Event> -> bool, on: Callbacks)
    requires AllOf(Response, ms) && AllFit(0, ms) && Unbounded(m)
    requires (if ms == [] then 0 else Carry(ms[|ms| - 1])) + |HeadText(m)| <= HTTP_MAX_HEADER_SIZE
    requires Concat(pieces) == TextAll(ms) + Text(m) && pieces != [] && forall s :: s in pieces ==> s != ""
    requires Agrees(on, Rules(true, false, skips)) && ChosenAll(skips, [], ms)
    requires !skips(AfterHead(AfterAll([], ms), m))
    ensures var o := Calls(Init(Response), pieces, on, []);
            var e := Exec(o.p, "", on, o.trace);
            && o.how == AllRead && o.ret == |TextAll(ms) + Text(m)| && o.p.errno == OK
            && o.p.state == Body(BodyIdentityEof)
            && e.how == AllRead && e.p == o.p && e.trace == o.trace + [MessageComplete]
            && Joined(e.trace) == EventsOfAll(ms) + EventsOf(m)
  {
    hide Calls, Feed, AllFit, TextAll, EventsOfAll, EventsOf, AfterAll, Unbounded, Text, HeadText, Carry, AfterMessage;
    hide WithBody, AfterHead, Emit, LengthAll, ChosenAll;
    var r := Rules(true, false, skips);
    var p := Init(Response);
    InitRests(Response);
    CallsIs(r, p, pieces, on, []);
    var b := Begin(r, p, []);
    FeedAppend(r, b, TextAll(ms), Text(m));
    PipelineReads(r, b, ms);
    var d := Feed(r, b, TextAll(ms));
    UnboundedReads(r, d, m);
    AllWritten(ms);
    LastCloses(ms);
    var o := Calls(p, pieces, on, []);
    hide Exec;
    EofReads(r, o.p, on, o.trace);
    NothingAfter(d.trace, m);
    MessageWritten(d.trace, m);
  }

  // ----- a message that hands the connection over

  /** The head of a request with CONNECT, or of a message with an Upgrade header. */
  lemma HandOverReads(r: Rules, c: Cfg, m: Message)
    requires Ready(r, c) && c.p.typ == TypeOf(m) && HeadOk(m) && HandsOver(m) && Room(r, c.p, |HeadText(m)|)
    ensures var d := Feed(r, c, HeadText(m));
            && d.stop == Exited && d.taken == c.taken + |HeadText(m)| && d.p.upgrade && d.p.errno == c.p.errno
            && d.trace == Emit(AfterHead(c.trace, m), MessageComplete) && d.p == Lined(d.p, m)
  {
    hide OnByte, Feed, Emit, HeadText, LineText, FlaggedAll, LengthAll, DeliveredAll, LineOk, NewMessage, Decimal;
    hide AllWellFormed, AllLengthsOk, AfterFirstLine;
    var d := HeadOpens(r, c, m, m.eol[0]);
    SeenIs(c.p, d.p, m);
    UpgradeReads(r, d, m.eol);
  }

  /**
   What comes after the head of such a message is not read: whatever bytes follow and however
   the input is cut, the parser returns the offset of the first of them, with upgrade set. What the
   application says of the body does not matter.
   */
  lemma HandedOver(typ: ParserType, ms: seq<Message>, m: Message, rest: string, pieces: seq<string>,
                   skips: seq<Event> -> bool, on: Callbacks)
    requires AllOf(typ, ms) && AllFit(0, ms) && TypeOf(m) == typ && HeadOk(m) && HandsOver(m)
    requires (if ms == [] then 0 else Carry(ms[|ms| - 1])) + |HeadText(m)| <= HTTP_MAX_HEADER_SIZE
    requires Concat(pieces) == TextAll(ms) + HeadText(m) + rest && pieces != [] && forall s :: s in pieces ==> s != ""
    requires Agrees(on, Rules(true, false, skips)) && ChosenAll(skips, [], ms)
    ensures var o := Calls(Init(typ), pieces, on, []);
            && o.how == UpgradeExit && o.ret == |TextAll(ms) + HeadText(m)| && o.p.upgrade && o.p.errno == OK
            && Joined(o.trace) == EventsOfAll(ms) + HeadEvents(m) + [MessageComplete]
            && o.p == Lined(o.p, m)
  {
    hide Calls, Feed, AllFit, TextAll, EventsOfAll, HeadEvents, AfterAll, HeadText, Carry, AfterHead, Emit, HeadOk;
    hide HandsOver, Lined, ChosenAll;
    var r := Rules(true, false, skips);
    var p := Init(typ);
    InitRests(typ);
    CallsIs(r, p, pieces, on, []);
    var b := Begin(r, p, []);
    FeedAppend(r, b, TextAll(ms) + HeadText(m), rest);
    FeedAppend(r, b, TextAll(ms), HeadText(m));
    PipelineReads(r, b, ms);
    var d := Feed(r, b, TextAll(ms));
    HandOverReads(r, d, m);
    FeedStopped(r, Feed(r, d, HeadText(m)), rest);
    AllWritten(ms);
    HeadWritten(d.trace, m);
    Notified(AfterHead(d.trace, m), MessageComplete);
  }
}
