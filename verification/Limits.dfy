/**
 The limit on header bytes, exactly: printed messages are parsed if and only if each head fits
 into what the one before has left of the limit. What one leaves is all of it, but for the
 trailers of a chunked body: these stay counted when their message is complete.
 */
module Limits {
  import opened Chars
  import opened Types
  import opened UrlChar
  import opened Arms
  import opened Execute
  import opened Invariant
  import opened Reference
  import opened Steps
  import opened Lengths
  import opened HeaderMatch
  import opened Headers
  import opened Bodies
  import opened Bridge
  import opened Refinement
  import opened Messages
  import opened RoundTrip
  import opened Truncation
  import opened Consumption
  import opened Cutting
  import opened Pausing
  import opened PauseLimit
  import UrlText
  import RequestLine
  import ResponseLine

  // ----- the head of a message: counted byte by byte, without a reset

  /** From the start of a message up to the last byte of its head. */
  predicate Front(p: Parser) {
    !p.typ.Both? &&
    match p.state
    case Start(s) => s == if p.typ.Request? then StartReq else StartRes
    case HeadersEnd(s) => s == HeadersAlmostDone && !p.flags.trailing
    case Body(_) => false
    case Chunk(_) => false
    case _ => !p.flags.trailing
  }

  /** An arm at the front refuses, ends the headers, or stays there without touching nread. */
  predicate StaysFront(p: Parser, a: Act) {
    a.next.Fail? || a.next.Abort? || Passes(a.next) || (a.p.nread == p.nread && Front(a.p))
  }

  lemma NameFront(p: Parser, ch: char)
    requires p.state.Header? && Front(p)
    ensures StaysFront(p, FieldStartArm(p, ch))
    ensures p.state == Header(HeaderField) ==> StaysFront(p, FieldArm(p, ch))
  {
    MatchKeeps(p, ch);
    hide MatchFieldByte, Token;
  }

  lemma ValueFront(p: Parser, ch: char)
    requires p.state.Header? && Front(p)
    ensures StaysFront(p, ValueStartArm(p, ch))
    ensures p.state == Header(HeaderValue) ==> StaysFront(p, ValueArm(p, ch))
  {
    MatchValueKeeps(p, ch);
    hide MatchValueByte, Lower;
  }

  lemma HeaderFront(p: Parser, s: HeaderLineState, ch: char)
    requires p.state == Header(s) && Front(p)
    ensures StaysFront(p, HeaderArm(p, s, ch))
  {
    NameFront(p, ch);
    ValueFront(p, ch);
    hide FieldStartArm, FieldArm, ValueStartArm, ValueArm;
  }

  lemma StatusLineFront(p: Parser, s: StatusLineState, ch: char)
    requires p.state == StatusLine(s) && Front(p)
    ensures StaysFront(p, StatusLineArm(p, s, ch))
  {
    hide AddDigit;
  }

  lemma StartFront(p: Parser, s: StartState, ch: char)
    requires p.state == Start(s) && Front(p)
    ensures StaysFront(p, StartArm(p, s, ch))
  {
  }

  lemma MethodFront(p: Parser, ch: char)
    requires p.state == MethodName && Front(p)
    ensures StaysFront(p, MethodArm(p, ch))
  {
    hide MethodStr, OtherMethod;
  }

  lemma UrlFront(p: Parser, s: UrlState, ch: char)
    requires p.state == Url(s) && Front(p)
    ensures StaysFront(p, UrlArm(p, s, ch))
  {
    hide ParseUrlChar;
  }

  lemma VersionFront(p: Parser, s: VersionState, ch: char)
    requires p.state == Version(s) && Front(p)
    ensures StaysFront(p, VersionArm(p, s, ch))
  {
    hide AddDigit;
  }

  lemma EndFront(p: Parser, s: HeadersEndState, ch: char)
    requires p.state == HeadersEnd(s) && Front(p)
    ensures StaysFront(p, HeadersEndArm(p, s, ch))
  {
  }

  lemma FrontArm(p: Parser, ch: char)
    requires Front(p)
    ensures StaysFront(p, Arm(p, ch, 1))
  {
    match p.state
    case Start(s) => StartFront(p, s, ch);
    case StatusLine(s) => StatusLineFront(p, s, ch);
    case MethodName => MethodFront(p, ch);
    case Url(s) => UrlFront(p, s, ch);
    case Version(s) => VersionFront(p, s, ch);
    case Header(s) => HeaderFront(p, s, ch);
    case HeadersEnd(s) => EndFront(p, s, ch);
  }

  lemma FrontNoChunk(p: Parser)
    requires Front(p)
    ensures !p.state.Chunk?
  {
  }

  /** The counting and the uncounted reference at the same place. */
  predicate Coupled(c: Cfg, c0: Cfg) {
    c0 == c.(p := c.p.(nread := 1))
  }

  lemma ReactCoupled(r: Rules, r0: Rules, c: Cfg, c0: Cfg, a: Act, a0: Act, b: char)
    requires r.counting && !r0.counting && Coupled(c, c0) && Alike(a, a0)
    requires !a.next.Fail? && !a.next.Abort? && !Passes(a.next)
    ensures var x, x0 := React(r, c, a, b), React(r0, c0, a0, b);
            Coupled(x.c, x0.c) && x.again == x0.again && x.c.p == a.p
  {
    hide Emit;
  }

  lemma {:induction false} RedoCoupled(r: Rules, r0: Rules, c: Cfg, c0: Cfg, b: char)
    requires r.counting && !r0.counting && Coupled(c, c0) && Front(c.p)
    ensures var d, d0 := Redo(r, c, b), Redo(r0, c0, b);
            d0.stop != Failed && Milestones(d0.trace) == Milestones(c0.trace) ==>
              Coupled(d, d0) && Front(d.p) && d.p.nread == c.p.nread
    decreases Rank(c.p.state)
  {
    hide Arm, React, Milestones, Front, Alike;
    var a, a0 := Arm(c.p, b, 1), Arm(c0.p, b, 1);
    FrontArm(c.p, b);
    FrontNoChunk(c.p);
    ArmAlike(c.p, 1, b);
    AlikeNext(a, a0);
    var x, x0 := React(r, c, a, b), React(r0, c0, a0, b);
    if a.next.Fail? || a.next.Abort? {
      assert x0.c.stop == Failed && !x0.again by {
        Refused(r0, c0, a0, b);
      }
    } else if Passes(a.next) {
      ReactPasses(r0, c0, a0, b);
      if x0.again {
        RedoPasses(r0, x0.c, b);
      }
    } else {
      ReactPasses(r0, c0, a0, b);
      ReactCoupled(r, r0, c, c0, a, a0, b);
      if x.again {
        RedoPasses(r0, x0.c, b);
        RedoCoupled(r, r0, x.c, x0.c, b);
      }
    }
  }

  lemma Refused(r: Rules, c: Cfg, a: Act, b: char)
    requires a.next.Fail? || a.next.Abort?
    ensures var x := React(r, c, a, b); x.c.stop == Failed && !x.again
  {
  }

  lemma AlikeNext(a: Act, b: Act)
    requires Alike(a, b)
    ensures a.next == b.next
  {
  }

  lemma ByteCoupled(r: Rules, r0: Rules, c: Cfg, c0: Cfg, b: char)
    requires r.counting && !r0.counting && Coupled(c, c0) && Front(c.p) && c.stop == Running
    requires c.p.nread <= HTTP_MAX_HEADER_SIZE
    ensures var d, d0 := OnByte(r, c, b), OnByte(r0, c0, b);
            if c.p.nread == HTTP_MAX_HEADER_SIZE then d.stop == Failed && d.p.errno == HeaderOverflow
            else d0.stop != Failed && Milestones(d0.trace) == Milestones(c0.trace) ==>
                   Coupled(d, d0) && Front(d.p) && d.p.nread == c.p.nread + 1
  {
    hide Redo, Milestones;
    if c.p.nread < HTTP_MAX_HEADER_SIZE {
      RedoCoupled(r, r0, c.(p := Tick(c.p)), c0, b);
    }
  }

  /** Bytes at the front are all counted, and the first one beyond the limit is refused. */
  lemma {:induction false} FrontCounts(r: Rules, r0: Rules, c: Cfg, c0: Cfg, s: string)
    requires r.counting && !r0.counting && Coupled(c, c0) && Front(c.p) && c.stop == Running
    requires c.p.nread <= HTTP_MAX_HEADER_SIZE
    requires Feed(r0, c0, s).stop == Running && Milestones(Feed(r0, c0, s).trace) == Milestones(c0.trace)
    ensures var d := Feed(r, c, s);
            if c.p.nread + |s| <= HTTP_MAX_HEADER_SIZE then
              Coupled(d, Feed(r0, c0, s)) && Front(d.p) && d.p.nread == c.p.nread + |s|
            else d.stop == Failed && d.p.errno == HeaderOverflow
    decreases |s|
  {
    hide OnByte, Milestones, Front;
    if s != "" {
      var d, d0 := OnByte(r, c, s[0]), OnByte(r0, c0, s[0]);
      if d0.stop != Running {
        FeedStopped(r0, d0, s[1..]);
      }
      FeedPasses(r0, d0, s[1..]);
      FeedPasses(r0, c0, [s[0]]);
      FeedByte(r0, c0, s[0]);
      ByteCoupled(r, r0, c, c0, s[0]);
      if c.p.nread == HTTP_MAX_HEADER_SIZE {
        FeedStopped(r, d, s[1..]);
      } else {
        FrontCounts(r, r0, d, d0, s[1..]);
      }
    }
  }

  // ----- a head

  /** A head beyond what is left of the limit is refused. */
  lemma HeadOverflows(r: Rules, c: Cfg, m: Message)
    requires r.counting && Ready(r, c) && c.p.typ == TypeOf(m) && HeadOk(m)
    requires c.p.nread <= HTTP_MAX_HEADER_SIZE < c.p.nread + |HeadText(m)|
    ensures var d := Feed(r, c, HeadText(m)); d.stop == Failed && d.p.errno == HeaderOverflow
  {
    hide OnByte, Feed, Milestones, HeadText, LineOk, AllWellFormed, AllLengthsOk;
    var r0 := Rules(false, false, r.skips);
    var c0 := c.(p := c.p.(nread := 1));
    HeadEnds(m);
    var n := |HeadText(m)| - 1;
    var s := HeadText(m)[..n];
    assert HeadText(m) == s + [LF];
    HeadButLast(r0, c0, m);
    FrontCounts(r, r0, c, c0, s);
    FeedSnoc(r, c, s, LF);
    var d := Feed(r, c, s);
    if d.stop == Failed {
      FeedStopped(r, d, [LF]);
      FeedByte(r, d, LF);
    } else {
      LimitMet(r, d, LF);
    }
  }

  lemma HeadEnds(m: Message)
    requires IsLineEnd(m.eol)
    ensures HeadText(m) != "" && HeadText(m)[|HeadText(m)| - 1] == LF
  {
    hide LineText, PrintAll;
    var s := LineText(m) + PrintAll(m.headers);
    assert HeadText(m)[|s| + |m.eol| - 1] == m.eol[|m.eol| - 1];
  }

  lemma LimitMet(r: Rules, c: Cfg, b: char)
    requires r.counting && c.stop == Running && ParsingHeader(c.p.state) && c.p.nread == HTTP_MAX_HEADER_SIZE
    ensures OnByte(r, c, b).stop == Failed && OnByte(r, c, b).p.errno == HeaderOverflow
  {
    hide Redo;
  }

  // ----- a pipeline

  lemma CarryBounded(m: Message)
    requires Sendable(m)
    ensures Carry(m) <= HTTP_MAX_HEADER_SIZE
  {
    hide PrintAll, AllWellFormed, AllLengthsOk, LineOk, Persistent;
  }

  lemma AllFitSnoc(carry: nat, ms: seq<Message>)
    requires ms != []
    ensures AllFit(carry, ms) <==> AllFit(carry, ms[..|ms| - 1]) && Fits(carry, ms, |ms| - 1)
  {
    hide Sendable, HeadText, Carry;
    var n := |ms| - 1;
    forall k | 0 <= k < n
      ensures Fits(carry, ms[..n], k) <==> Fits(carry, ms, k)
    {
    }
  }

  lemma MessageStops(r: Rules, c: Cfg, m: Message)
    requires r.counting && Ready(r, c) && c.p.typ == TypeOf(m) && Sendable(m)
    requires c.p.nread <= HTTP_MAX_HEADER_SIZE < c.p.nread + |HeadText(m)|
    ensures var d := Feed(r, c, Text(m)); d.stop == Failed && d.p.errno == HeaderOverflow
  {
    hide Feed, HeadOk, HeadText, PayloadText, Persistent, Framed;
    FeedAppend(r, c, HeadText(m), PayloadText(m.payload));
    HeadOverflows(r, c, m);
    FeedStopped(r, Feed(r, c, HeadText(m)), PayloadText(m.payload));
  }

  lemma {:induction false} PipelineStops(r: Rules, c: Cfg, ms: seq<Message>)
    requires r.counting && Ready(r, c) && c.p.nread <= HTTP_MAX_HEADER_SIZE && ChosenAll(r.skips, c.trace, ms)
    requires AllOf(c.p.typ, ms) && (forall m :: m in ms ==> Sendable(m)) && !AllFit(c.p.nread, ms)
    ensures var d := Feed(r, c, TextAll(ms)); d.stop == Failed && d.p.errno == HeaderOverflow
    decreases |ms|
  {
    hide OnByte, Feed, Sendable, HeadText, Carry, Text, AllFit, AfterAll, ChosenAll;
    if ms == [] {
      NoneFit(c.p.nread);
    } else {
      var n := |ms| - 1;
      var front, m := ms[..n], ms[n];
      assert m in ms && forall x :: x in front ==> x in ms;
      FeedAppend(r, c, TextAll(front), Text(m));
      AllFitSnoc(c.p.nread, ms);
      var d := Feed(r, c, TextAll(front));
      ChosenFront(r.skips, c.trace, ms, n);
      if AllFit(c.p.nread, front) {
        PipelineReads(r, c, front);
        if n > 0 {
          assert front[n - 1] in front;
          CarryBounded(front[n - 1]);
        }
        MessageStops(r, d, m);
      } else {
        PipelineStops(r, c, front);
        FeedStopped(r, d, Text(m));
      }
    }
  }

  lemma NoneFit(carry: nat)
    ensures AllFit(carry, [])
  {
  }

  /**
   Print and parse, exactly. Messages printed one after the other, given to a fresh parser in
   calls cut anywhere, are all delivered if and only if each head fits into what the one before
   has left of the limit. Otherwise the parser stops with HPE_HEADER_OVERFLOW.
   */
  lemma PrintParseExactly(typ: ParserType, ms: seq<Message>, pieces: seq<string>,
                          skips: seq<Event> -> bool, on: Callbacks)
    requires AllOf(typ, ms) && ms != [] && forall m :: m in ms ==> Sendable(m)
    requires Concat(pieces) == TextAll(ms) && pieces != [] && forall s :: s in pieces ==> s != ""
    requires Agrees(on, Rules(true, false, skips)) && ChosenAll(skips, [], ms)
    ensures var o := Calls(Init(typ), pieces, on, []);
            if AllFit(0, ms) then
              && o.how == AllRead && o.ret == |TextAll(ms)|
              && Joined(o.trace) == EventsOfAll(ms)
              && o.p.state == FirstState(o.p) && o.p.errno == OK && o.p == Lined(o.p, ms[|ms| - 1])
            else o.how == ErrorExit && o.p.errno == HeaderOverflow
  {
    hide Calls, Feed, AllFit, TextAll, EventsOfAll, Sendable, ChosenAll;
    if AllFit(0, ms) {
      PrintParse(typ, ms, pieces, skips, on);
    } else {
      var r := Rules(true, false, skips);
      var p := Init(typ);
      InitRests(typ);
      assert TypeOf(ms[0]) == typ by {
        assert ms[0] in ms;
      }
      CallsIs(r, p, pieces, on, []);
      PipelineStops(r, Begin(r, p, []), ms);
    }
  }

  // ----- an application that pauses

  /** All bytes are read, all messages delivered, and the parser is ready for the next one. */
  ghost predicate AllDelivered(ms: seq<Message>, o: Outcome)
    requires ms != []
  {
    && o.how == AllRead && o.ret == |TextAll(ms)| && Joined(o.trace) == EventsOfAll(ms)
    && o.p.state == FirstState(o.p) && o.p.errno == OK && o.p == Lined(o.p, ms[|ms| - 1])
  }

  lemma AheadDelivered(ms: seq<Message>, d: Outcome, o: Outcome)
    requires ms != [] && AllDelivered(ms, o) && SameButAhead(d, o)
    ensures AllDelivered(ms, d)
  {
    hide TextAll, EventsOfAll, Joined, UpToRun;
  }

  lemma SteadyAgrees(skips: seq<Event> -> bool) returns (on: Callbacks)
    ensures Agrees(on, Rules(true, false, skips))
  {
    on := t => PausingAnswer(skips, t).(pause := false);
    forall t | t != [] ensures AgreesAt(on, Rules(true, false, skips), t) {
    }
  }

  /** Where no pause meets the limit the heads fit it, and one call of an application that never pauses gets all. */
  lemma SteadyDelivered(typ: ParserType, ms: seq<Message>, skips: seq<Event> -> bool, steady: Callbacks)
    requires AllOf(typ, ms) && ms != [] && forall m :: m in ms ==> Sendable(m)
    requires Agrees(steady, Rules(true, false, skips)) && ChosenAll(skips, [], ms) && TextAll(ms) != ""
    requires Exec(Init(typ), TextAll(ms), steady, []).p.errno != HeaderOverflow
    ensures AllDelivered(ms, Exec(Init(typ), TextAll(ms), steady, []))
  {
    hide Exec, Calls, AllFit, TextAll, EventsOfAll, Sendable, ChosenAll, AllOf, Joined, Resting;
    var text := TextAll(ms);
    OnePiece(text);
    InitRests(typ);
    PrintParseExactly(typ, ms, [text], skips, steady);
    OneCall(Init(typ), text, steady, []);
    ExecEnds(Init(typ), text, steady, []);
  }

  lemma {:induction false} TextNotEmpty(ms: seq<Message>)
    requires ms != [] && forall m :: m in ms ==> Sendable(m)
    ensures TextAll(ms) != ""
  {
    var m := ms[|ms| - 1];
    assert m in ms;
    HeadEnds(m);
    hide HeadText, PayloadText, TextAll;
    TextOfLast(ms);
  }

  lemma TextOfLast(ms: seq<Message>)
    requires ms != [] && HeadText(ms[|ms| - 1]) != ""
    ensures TextAll(ms) != ""
  {
    hide HeadText, PayloadText;
  }

  /**
   Print and parse with pauses. Messages printed one after the other are delivered to every
   application that pauses wherever it likes, however they are cut into calls, if and only if
   counting each byte once more after each callback made before it is read does not meet the limit.
   */
  lemma PrintParsePaused(typ: ParserType, ms: seq<Message>, skips: seq<Event> -> bool)
    requires AllOf(typ, ms) && ms != [] && ChosenAll(skips, [], ms) && forall m :: m in ms ==> Sendable(m)
    ensures var r := Rules(true, true, skips);
            (forall on, pieces | Agrees(on, r) && Cuts(pieces, TextAll(ms)) ::
               AllDelivered(ms, DriveAll(Init(typ), pieces, on, [])))
            <==> FeedPaused(r, Begin(r, Init(typ), []), TextAll(ms)).p.errno != HeaderOverflow
  {
    hide Exec, DriveAll, FeedPaused, TextAll, EventsOfAll, Sendable, ChosenAll, AllOf, Joined, Resting, Cuts, Agrees;
    var r, p, text := Rules(true, true, skips), Init(typ), TextAll(ms);
    var w := FeedPaused(r, Begin(r, p, []), text);
    InitRests(typ);
    TextNotEmpty(ms);
    if !Met(w) {
      var steady := SteadyAgrees(skips);
      PausesAndCuts(skips, p, text, steady, []);
      SteadyDelivered(typ, ms, skips, steady);
      forall on, pieces | Agrees(on, r) && Cuts(pieces, text)
        ensures AllDelivered(ms, DriveAll(p, pieces, on, []))
      {
        AheadDelivered(ms, DriveAll(p, pieces, on, []), Exec(p, text, steady, []));
      }
    } else {
      var on := PausingAgrees(skips);
      OnePiece(text);
      CutsIs([text], text);
      DriveAllPaused(r, p, [text], on, []);
      MetNotDelivered(ms, on, w, DriveAll(p, [text], on, []));
    }
  }

  lemma MetNotDelivered(ms: seq<Message>, on: Callbacks, w: Cfg, o: Outcome)
    requires ms != [] && AlwaysPauses(on) && EndsWithin(on, w, o) && Met(w)
    ensures !AllDelivered(ms, o)
  {
    hide TextAll, EventsOfAll, Joined, UpToRun, AlwaysPauses;
  }

  // ----- heads within the limit are not enough

  /** A trailer that nearly fills the limit. */
  function Trailer(): HeaderLine {
    HeaderLine("t", " ", seq(81900, i => 'x'), [], "\r\n")
  }

  function Chunking(): HeaderLine {
    HeaderLine("transfer-encoding", " ", "chunked", [], "\r\n")
  }

  function Line11(meth: Method): Line {
    Asking(meth, "", UrlText.Pieces(None, "", "/", None, None), Http("", RequestLine.HttpVersion("1", "1")), "\r\n")
  }

  function LongTrailer(): Message {
    Message("", Line11(POST), [Chunking()], "\r\n",
            InChunks([], Ending(ChunkLine("0", ""), [Trailer()], "\r\n")))
  }

  function Small(): Message {
    Message("", Line11(GET), [], "\r\n", Plain(""))
  }

  lemma SmallSendable()
    ensures Sendable(Small()) && |HeadText(Small())| == 18
  {
  }

  lemma TrailerIs(f: Flags)
    ensures WellFormed(Trailer()) && LengthOk(Trailer()) && Flagged(f, Trailer()) == f
    ensures |Print(Trailer())| == 81905
  {
    assert |Trailer().name| == 1;
    hide Says;
  }

  lemma ChunkingIs()
    ensures WellFormed(Chunking()) && LengthOk(Chunking()) && |Print(Chunking())| == 28
    ensures Flagged(NO_FLAGS, Chunking()) == NO_FLAGS.(chunked := true)
  {
    ChunkingWritten();
    ChunkingSays();
    ChunkingNames();
    hide EqualsIgnoringCase, TrimRight, WellFormed;
  }

  lemma ChunkingWritten()
    ensures WellFormed(Chunking())
  {
  }

  lemma ChunkingSays()
    ensures TrimRight("chunked") == "chunked" && EqualsIgnoringCase("chunked", "chunked")
  {
  }

  lemma ChunkingNames()
    ensures EqualsIgnoringCase("transfer-encoding", "transfer-encoding")
    ensures !EqualsIgnoringCase("transfer-encoding", "connection")
    ensures !EqualsIgnoringCase("transfer-encoding", "proxy-connection")
    ensures !EqualsIgnoringCase("transfer-encoding", "content-length")
    ensures !EqualsIgnoringCase("transfer-encoding", "upgrade")
  {
  }

  lemma LastChunkIs()
    ensures var l := ChunkLine("0", ""); ChunkText(l) && |PrintSize(l)| == 3 && Hexadecimal(l.size) == 0
  {
    assert "0"[..0] == "";
  }

  lemma OneLine(f: Flags, h: HeaderLine)
    ensures PrintAll([h]) == Print(h) && FlaggedAll(f, [h]) == Flagged(f, h)
  {
    hide Print, Flagged;
    assert Print(h) + "" == Print(h);
  }

  lemma ProtocolIs()
    ensures var k := Http("", RequestLine.HttpVersion("1", "1"));
            ProtocolOk(k) && |ProtocolText(k)| == 9 && Decimal("1") == 1
  {
    assert "1"[..0] == "";
  }

  lemma TargetIs()
    ensures var u := UrlText.Pieces(None, "", "/", None, None);
            UrlText.Proper(u, false) && |UrlText.PrintUrl(u)| == 1
  {
  }

  /** The first line of both messages. */
  lemma LineIs(meth: Method)
    requires meth != CONNECT
    ensures LineOk(Line11(meth)) && |FirstLine(Line11(meth))| == |MethodStr(meth)| + 13
    ensures MajorOf(Line11(meth)) == 1 && MinorOf(Line11(meth)) == 1
  {
    ProtocolIs();
    TargetIs();
    hide MethodStr, ProtocolOk, ProtocolText, UrlText.Proper, UrlText.PrintUrl, Decimal;
  }

  lemma LongHead()
    ensures HeadOk(LongTrailer()) && |HeadText(LongTrailer())| == 47
    ensures HeadFlags(LongTrailer()) == NO_FLAGS.(chunked := true)
  {
    hide Print, Flagged, Chunking, FlaggedAll, PrintAll, WellFormed, LengthOk, FirstLine, LineOk, Line11, Trailer;
    LineIs(POST);
    ChunkingIs();
    OneLine(NO_FLAGS, Chunking());
  }

  lemma LongEnding()
    ensures var e := LongTrailer().payload.ending;
            && EndingOk(e) && |TrailerText(e)| == 81907
            && TrailerFlags(NO_FLAGS.(chunked := true), e) == NO_FLAGS.(chunked := true, trailing := true)
  {
    hide Print, Flagged, Trailer, FlaggedAll, PrintAll, WellFormed, LengthOk, Line11;
    hide ChunkText, PrintSize, Hexadecimal;
    var f := NO_FLAGS.(chunked := true, trailing := true);
    TrailerIs(f);
    LastChunkIs();
    OneLine(f, Trailer());
  }

  lemma LongSendable()
    ensures Sendable(LongTrailer()) && |HeadText(LongTrailer())| == 47 && Carry(LongTrailer()) == 81907
  {
    LongHead();
    LongEnding();
    LineIs(POST);
    hide HeadOk, HeadText, HeadFlags, EndingOk, TrailerText, TrailerFlags, Line11, Trailer, Chunking, MajorOf, MinorOf;
  }

  lemma TrailersDoNotFit()
    ensures var ms := [LongTrailer(), Small()];
            && AllOf(Request, ms) && (forall m :: m in ms ==> Sendable(m) && |HeadText(m)| <= 47)
            && (forall m :: m in ms ==> m.payload != Skipped) && !AllFit(0, ms)
  {
    hide Sendable, HeadText, Carry;
    SmallSendable();
    LongSendable();
    assert !Fits(0, [LongTrailer(), Small()], 1);
  }

  /** An application that takes every body. */
  predicate SkipsNone(t: seq<Event>) {
    false
  }

  lemma AllChosen(ms: seq<Message>)
    requires forall m :: m in ms ==> m.payload != Skipped
    ensures ChosenAll(SkipsNone, [], ms)
  {
    hide AfterHead, AfterAll;
    forall k | 0 <= k < |ms| ensures ChosenAt(SkipsNone, [], ms, k) {
      assert ms[k] in ms;
    }
  }

  /**
   Two requests whose heads are short, and however they are cut into calls, the second one is
   refused for the first one's trailer.
   */
  lemma TrailersTakeRoom(pieces: seq<string>, on: Callbacks)
    requires Agrees(on, Rules(true, false, SkipsNone)) && Cuts(pieces, TextAll([LongTrailer(), Small()]))
    ensures forall m :: m in [LongTrailer(), Small()] ==> Sendable(m) && |HeadText(m)| <= 47
    ensures var o := Calls(Init(Request), pieces, on, []);
            o.how == ErrorExit && o.p.errno == HeaderOverflow
  {
    hide Sendable, HeadText, AllFit, Calls, LongTrailer, Small, TextAll, AllOf, ChosenAll;
    var ms := [LongTrailer(), Small()];
    TrailersDoNotFit();
    AllChosen(ms);
    PrintParseExactly(Request, ms, pieces, SkipsNone, on);
  }

  // ----- and pauses take room

  function LongValue(): string {
    seq(81901, i => 'x')
  }

  /** The beginning of a head that leaves room for one byte. */
  function NearlyFull(): string {
    LineText(Small()) + ("a:" + LongValue())
  }

  lemma NearlyFullReads(r: Rules, c: Cfg)
    requires r.counting && c == Begin(r, Init(Request), [])
    ensures var d := Feed(r, c, NearlyFull());
            && d.stop == Running && d.p.state == Header(HeaderValue)
            && d.p.nread == HTTP_MAX_HEADER_SIZE - 1 && |NearlyFull()| == d.p.nread
  {
    hide OnByte, Feed, Emit, LineText, Small, LongValue;
    var line, v := LineText(Small()), LongValue();
    SmallLineReads(r, c);
    var c1 := Feed(r, c, line);
    FeedAppend(r, c, line, "a:" + v);
    NameColonReads(r, c1);
    FeedAppend(r, c1, "a:", v);
    LongIs();
    ValueReads(r, Feed(r, c1, "a:"), v);
  }

  lemma SmallLineReads(r: Rules, c: Cfg)
    requires r.counting && c == Begin(r, Init(Request), [])
    ensures var d := Feed(r, c, LineText(Small()));
            d.stop == Running && d.p.state == Header(HeaderFieldStart) && d.p.nread == |LineText(Small())| == 16
  {
    hide Feed, Emit, LineText, Small, MajorOf, MinorOf, LineOk, AfterFirstLine;
    SmallLine();
    RoundTrip.LineReads(r, c, Small());
  }

  lemma SmallLine()
    ensures |LineText(Small())| == 16 && LineOk(Small().line) && Small().line.Asking? && OnlyEols(Small().lead)
  {
  }

  lemma LongIs()
    ensures |LongValue()| == 81901 && ValueText(LongValue())
  {
  }

  lemma NameColonReads(r: Rules, c: Cfg)
    requires AtField(r, c, 2)
    ensures var d := Feed(r, c, "a:");
            && d.stop == Running && d.p.state == Header(HeaderValueDiscardWs) && d.p.headerState != HContentLength
            && d.p.nread == Read(r, c.p, 2).nread
  {
    hide OnByte, Feed, Emit, Arm;
    NameReads(r, c, "a");
    assert "a" + [':'] == "a:";
    FeedSnoc(r, c, "a", ':');
    ColonReads(r, Feed(r, c, "a"));
    NotLength();
  }

  lemma NotLength()
    ensures Classify(Tokens("a")) != HContentLength && TokenText("a")
  {
  }

  /**
   A head that fits the limit with no byte to spare is refused when the application pauses
   before its last byte, although that byte alone is read without a pause.
   */
  lemma PauseTakesRoom(skips: seq<Event> -> bool, steady: Callbacks)
    requires Agrees(steady, Rules(true, false, skips))
    ensures var o := Exec(Init(Request), NearlyFull(), steady, []);
            && o.how == AllRead && o.p.errno == OK && o.p.nread == HTTP_MAX_HEADER_SIZE - 1
            && Exec(o.p, "\n", steady, o.trace).how == AllRead
            && Drive(o.p, "\n", PausesAlways, o.trace).p.errno == HeaderOverflow
  {
    hide Exec, Feed, Drive, OnByte, NearlyFull, Resting;
    var r, p := Rules(true, false, skips), Init(Request);
    InitRests(Request);
    NearlyFullReads(r, Begin(r, p, []));
    ExecIs(r, p, NearlyFull(), steady, []);
    ExecEnds(p, NearlyFull(), steady, []);
    var o := Exec(p, NearlyFull(), steady, []);
    LfCountsTwice(o.p, o.trace);
    ExecIs(r, o.p, "\n", steady, o.trace);
    FeedByte(r, Begin(r, o.p, o.trace), LF);
    ValueLfReads(r, Begin(r, o.p, o.trace));
  }
}
