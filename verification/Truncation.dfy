/**
 Messages that break off. While a message is being read the end of the stream is an error, and
 the call that tells of it says so; before and after messages it is none.
 */
module Truncation {
  import opened Chars
  import opened Types
  import opened Arms
  import opened Execute
  import opened Invariant
  import opened Reference
  import opened Steps
  import opened Lengths
  import opened HeaderMatch
  import opened Headers
  import opened Bodies
  import opened Refinement
  import opened Messages
  import opened RoundTrip
  import opened Connection
  import opened Bridge
  import opened Cutting
  import opened UrlChar
  import UrlText
  import ResponseLine

  predicate Completes(e: Event) {
    e.HeadersComplete? || e.MessageComplete?
  }

  /** How often headers or a message have been complete. */
  function Milestones(t: seq<Event>): nat {
    if t == [] then 0
    else Milestones(t[..|t| - 1]) + if Completes(t[|t| - 1]) then 1 else 0
  }

  lemma EmitPasses(t: seq<Event>, e: Event)
    ensures Milestones(Emit(t, e)) == Milestones(t) + if Completes(e) then 1 else 0
  {
    var u := Emit(t, e);
    if e.Data? && t != [] && t[|t| - 1].Data? && t[|t| - 1].kind == e.kind {
      assert u[..|u| - 1] == t[..|t| - 1];
    } else {
      assert u[..|u| - 1] == t;
    }
  }

  /** The arm that ends the headers or the message. */
  predicate Passes(next: Next) {
    next.Notify? && Completes(next.event)
  }

  lemma ReactPasses(r: Rules, c: Cfg, a: Act, b: char)
    ensures Milestones(React(r, c, a, b).c.trace) >= Milestones(c.trace)
    ensures Passes(a.next) ==> Milestones(React(r, c, a, b).c.trace) > Milestones(c.trace)
  {
    hide Emit, Milestones;
    var e := ByteEvent(c.p.state, a, b);
    if e.Some? {
      EmitPasses(c.trace, e.value);
    }
  }

  lemma {:induction false} RedoPasses(r: Rules, c: Cfg, b: char)
    ensures Milestones(Redo(r, c, b).trace) >= Milestones(c.trace)
    decreases Rank(c.p.state)
  {
    hide Arm, React, Milestones;
    var x := React(r, c, Arm(c.p, b, 1), b);
    ReactPasses(r, c, Arm(c.p, b, 1), b);
    if x.again {
      RedoPasses(r, x.c, b);
    }
  }

  lemma {:induction false} FeedPasses(r: Rules, c: Cfg, s: string)
    ensures Milestones(Feed(r, c, s).trace) >= Milestones(c.trace)
    decreases |s|
  {
    hide Redo, Milestones;
    if s != "" {
      RedoPasses(r, c.(p := Norm(r, c.p)), s[0]);
      RedoPasses(r, c.(p := Tick(c.p)), s[0]);
      FeedPasses(r, OnByte(r, c, s[0]), s[1..]);
    }
  }

  lemma {:induction false} HeadersBetween(t: seq<Event>, hs: seq<HeaderLine>)
    ensures Milestones(DeliveredAll(t, hs)) == Milestones(t)
    decreases |hs|
  {
    hide Emit, Milestones;
    if hs != [] {
      EmitPasses(t, Data(KField, hs[0].name));
      EmitPasses(Emit(t, Data(KField, hs[0].name)), Data(KValue, ValueOf(hs[0])));
      HeadersBetween(Delivered(t, hs[0]), hs[1..]);
    }
  }

  lemma {:induction false} BegunBetween(t: seq<Event>, n: nat)
    ensures Milestones(Began(t, n)) == Milestones(t)
    decreases n
  {
    hide Emit, Milestones;
    if n > 0 {
      BegunBetween(t, n - 1);
      EmitPasses(Began(t, n - 1), MessageBegin);
    }
  }

  lemma LineBetween(t: seq<Event>, m: Message)
    ensures Milestones(AfterFirstLine(t, m)) == Milestones(t)
  {
    hide Emit, Milestones, Began;
    if m.line.Asking? {
      EmitPasses(t, MessageBegin);
      EmitPasses(Emit(t, MessageBegin), Data(KUrl, UrlText.PrintUrl(m.line.target)));
    } else {
      var u := Began(t, |m.lead|);
      BegunBetween(t, |m.lead|);
      EmitPasses(u, MessageBegin);
      EmitPasses(Emit(u, MessageBegin), Data(KStatus, ResponseLine.ReasonOf(m.line.status.reason)));
    }
  }

  /** A head without its last byte leaves the headers still open. */
  lemma HeadButLast(r: Rules, c: Cfg, m: Message)
    requires Ready(r, c) && c.p.typ == TypeOf(m) && HeadOk(m) && Room(r, c.p, |HeadText(m)|)
    ensures var d := Feed(r, c, HeadText(m)[..|HeadText(m)| - 1]);
            d.stop == Running && Milestones(d.trace) == Milestones(c.trace)
  {
    hide OnByte, Feed, Emit, LineText, PrintAll, FlaggedAll, LengthAll, DeliveredAll, Milestones;
    hide LineOk, AllWellFormed, AllLengthsOk, AfterFirstLine;
    var lines := LineText(m) + PrintAll(m.headers);
    var d := HeadOpens(r, c, m, CR);
    CrReads(r, d);
    LineBetween(c.trace, m);
    HeadersBetween(AfterFirstLine(c.trace, m), m.headers);
    FeedSnoc(r, c, lines, CR);
    FeedPasses(r, c, lines);
    FeedByte(r, Feed(r, c, lines), CR);
    FeedPasses(r, Feed(r, c, lines), [CR]);
    if Feed(r, c, lines).stop != Running {
      FeedStopped(r, Feed(r, c, lines), [CR]);
    }
    if m.eol == "\n" {
      assert HeadText(m)[..|HeadText(m)| - 1] == lines;
    } else {
      assert HeadText(m)[..|HeadText(m)| - 1] == lines + [CR];
    }
  }

  // ----- within a message

  /** In the middle of a message. */
  predicate Within(p: Parser) {
    match p.state
    case Start(s) => s == ResOrRespH
    case HeadersEnd(s) => s == HeadersAlmostDone
    case Body(s) => s != BodyIdentityEof
    case _ => true
  }

  /** An arm within a message refuses, ends the headers or the message, or stays within it. */
  predicate StaysWithin(a: Act) {
    a.next.Fail? || a.next.Abort? || Passes(a.next) || (Within(a.p) && !a.next.Notify?)
  }

  lemma FirstLineWithin(p: Parser, ch: char)
    requires p.state.StatusLine? || p.state.Url? || p.state.Version? || p.state.MethodName?
    ensures StaysWithin(Arm(p, ch, 1))
  {
    hide AddDigit, ParseUrlChar, MethodStr, OtherMethod;
  }

  lemma NameWithin(p: Parser, ch: char)
    requires p.state.Header?
    ensures StaysWithin(FieldStartArm(p, ch))
    ensures p.state == Header(HeaderField) ==> StaysWithin(FieldArm(p, ch))
  {
    MatchKeeps(p, ch);
    hide MatchFieldByte, Token;
  }

  lemma ValueWithin(p: Parser, ch: char)
    requires p.state.Header?
    ensures StaysWithin(ValueStartArm(p, ch))
    ensures p.state == Header(HeaderValue) ==> StaysWithin(ValueArm(p, ch))
  {
    MatchValueKeeps(p, ch);
    hide MatchValueByte, Lower;
  }

  lemma HeaderWithin(p: Parser, s: HeaderLineState, ch: char)
    requires p.state == Header(s)
    ensures StaysWithin(HeaderArm(p, s, ch))
  {
    NameWithin(p, ch);
    ValueWithin(p, ch);
    hide FieldStartArm, FieldArm, ValueStartArm, ValueArm;
  }

  lemma ChunkWithin(p: Parser, s: ChunkState, ch: char)
    requires p.state == Chunk(s)
    ensures StaysWithin(ChunkArm(p, s, ch, 1))
  {
    hide Unhex;
  }

  lemma ArmWithin(p: Parser, ch: char)
    requires Within(p)
    ensures StaysWithin(Arm(p, ch, 1))
  {
    match p.state
    case Header(s) => HeaderWithin(p, s, ch);
    case Chunk(s) => ChunkWithin(p, s, ch);
    case Start(s) =>
    case HeadersEnd(s) =>
    case Body(s) =>
    case _ => FirstLineWithin(p, ch);
  }

  /** With a byte the message is refused, ends, or goes on. */
  predicate GoesOn(c: Cfg, d: Cfg) {
    d.stop != Running || Milestones(d.trace) > Milestones(c.trace) || Within(d.p)
  }

  lemma ReactWithin(r: Rules, c: Cfg, a: Act, b: char)
    requires StaysWithin(a)
    ensures var x := React(r, c, a, b);
            x.c.stop == Failed || Milestones(x.c.trace) > Milestones(c.trace) || Within(x.c.p)
  {
    ReactPasses(r, c, a, b);
    hide Emit, Milestones;
  }

  lemma {:induction false} RedoWithin(r: Rules, c: Cfg, b: char)
    requires Within(c.p)
    ensures GoesOn(c, Redo(r, c, b))
    decreases Rank(c.p.state)
  {
    hide Arm, React, Milestones, Within, StaysWithin;
    var a := Arm(c.p, b, 1);
    ArmWithin(c.p, b);
    ReactWithin(r, c, a, b);
    ReactPasses(r, c, a, b);
    var x := React(r, c, a, b);
    if x.again {
      RedoPasses(r, x.c, b);
      RedoStopped(r, c, a, b);
      if Within(x.c.p) {
        RedoWithin(r, x.c, b);
      }
    }
  }

  lemma RedoStopped(r: Rules, c: Cfg, a: Act, b: char)
    requires React(r, c, a, b).again
    ensures React(r, c, a, b).c.stop != Failed
  {
    hide Emit;
  }

  lemma ByteWithin(r: Rules, c: Cfg, b: char)
    requires Within(c.p) && c.stop == Running
    ensures GoesOn(c, OnByte(r, c, b))
  {
    hide Redo, Milestones;
    RedoWithin(r, c.(p := Norm(r, c.p)), b);
    RedoWithin(r, c.(p := Tick(c.p)), b);
  }

  /** Bytes that are taken without ending anything stay within the message. */
  lemma {:induction false} FeedWithin(r: Rules, c: Cfg, s: string)
    requires Within(c.p) && c.stop == Running && Feed(r, c, s).stop == Running
    requires Milestones(Feed(r, c, s).trace) == Milestones(c.trace)
    ensures Within(Feed(r, c, s).p)
    decreases |s|
  {
    hide OnByte, Milestones, Within;
    if s != "" {
      var d := OnByte(r, c, s[0]);
      ByteWithin(r, c, s[0]);
      FeedPasses(r, d, s[1..]);
      FeedByte(r, c, s[0]);
      FeedPasses(r, c, [s[0]]);
      if d.stop != Running {
        FeedStopped(r, d, s[1..]);
      } else {
        FeedWithin(r, d, s[1..]);
      }
    }
  }

  lemma FirstByteWithin(r: Rules, c: Cfg, b: char)
    requires Ready(r, c) && Room(r, c.p, 1) && !IsEol(b) && OnByte(r, c, b).stop == Running
    ensures Within(OnByte(r, c, b).p)
  {
    HeaderByte(r, c, b);
    hide Emit, FirstMethod;
  }

  /** What is before the end of bytes that end nothing ends nothing either. */
  lemma BeforeThat(r: Rules, c: Cfg, s: string, all: string)
    requires s <= all && Feed(r, c, all).stop == Running && Milestones(Feed(r, c, all).trace) == Milestones(c.trace)
    ensures Feed(r, c, s).stop == Running && Milestones(Feed(r, c, s).trace) == Milestones(c.trace)
  {
    hide Feed, Milestones;
    var u := all[|s|..];
    assert all == s + u;
    FeedAppend(r, c, s, u);
    FeedPasses(r, c, s);
    FeedPasses(r, Feed(r, c, s), u);
    if Feed(r, c, s).stop != Running {
      FeedStopped(r, Feed(r, c, s), u);
    }
  }

  /** From before a message to the middle of it. */
  lemma IntoMessage(r: Rules, c: Cfg, lead: string, b: char, v: string)
    requires Ready(r, c) && OnlyEols(lead) && !IsEol(b) && Room(r, c.p, |lead| + 1)
    requires var d := Feed(r, c, lead + [b] + v);
             d.stop == Running && Milestones(d.trace) == Milestones(c.trace)
    ensures Within(Feed(r, c, lead + [b] + v).p)
  {
    hide OnByte, Feed, Milestones, Within, Began, Emit, OnlyEols;
    BeforeThat(r, c, lead + [b], lead + [b] + v);
    FeedAppend(r, c, lead + [b], v);
    RoundTrip.LeadReads(r, c, lead);
    FeedSnoc(r, c, lead, b);
    FirstByteWithin(r, Feed(r, c, lead), b);
    FeedWithin(r, Feed(r, c, lead + [b]), v);
  }

  lemma FirstOf(m: Message, s: string)
    requires LineOk(m.line) && s <= HeadText(m) && |m.lead| < |s|
    ensures var n := |m.lead|;
            s == m.lead + [s[n]] + s[n + 1..] && !IsEol(s[n])
  {
    hide LineOk, PrintAll, FirstLine;
    LineBegins(m.line);
    var line := FirstLine(m.line);
    assert HeadText(m) == m.lead + (line + (PrintAll(m.headers) + m.eol));
    hide HeadText;
    Past(m.lead, line + (PrintAll(m.headers) + m.eol), s);
  }

  lemma Past(a: string, b: string, s: string)
    requires s <= a + b && |a| < |s|
    ensures b != "" && s[|a|] == b[0] && s == a + [s[|a|]] + s[|a| + 1..]
  {
    assert (a + b)[|a|] == b[0];
    assert s[..|a|] == (a + b)[..|a|] == a;
  }

  /** A head that breaks off after its first byte. */
  lemma HeadBreaksOff(r: Rules, c: Cfg, m: Message, s: string)
    requires Ready(r, c) && c.p.typ == TypeOf(m) && HeadOk(m) && Room(r, c.p, |HeadText(m)|)
    requires s <= HeadText(m) && |m.lead| < |s| < |HeadText(m)|
    ensures var d := Feed(r, c, s);
            d.stop == Running && Within(d.p) && Milestones(d.trace) == Milestones(c.trace)
  {
    hide Feed, Milestones, Within, LineOk, AllWellFormed, AllLengthsOk, HeadText, OnlyEols;
    HeadButLast(r, c, m);
    FirstOf(m, s);
    BeforeThat(r, c, s, HeadText(m)[..|HeadText(m)| - 1]);
    IntoMessage(r, c, m.lead, s[|m.lead|], s[|m.lead| + 1..]);
  }

  // ----- a body that breaks off

  lemma PlainBreaksOff(r: Rules, d: Cfg, body: string, v: string)
    requires InBody(r, d) && |body| == d.p.contentLength && v <= body && |v| < |body|
    ensures var e := Feed(r, d, v); e.stop == Running && Within(e.p)
  {
    hide Feed, Emit;
    if v == "" {
      NoBytes(r, d);
    } else {
      BodyReads(r, d, v);
    }
  }

  lemma WithBodyBetween(t: seq<Event>, body: string)
    ensures Milestones(WithBody(t, body)) == Milestones(t)
  {
    hide Milestones, Emit;
    EmitPasses(t, Data(KBody, body));
  }

  /** Chunks and their ending without its last byte leave the message open. */
  lemma ChunkedButLast(r: Rules, c: Cfg, ks: seq<Piece>, e: Ending)
    requires AtChunk(r, c, 0) && ChunksOk(ks) && EndingOk(e)
    ensures var all := PrintChunks(ks) + PrintEnding(e);
            var d := Feed(r, c, all[..|all| - 1]);
            all != "" && d.stop == Running && Milestones(d.trace) == Milestones(c.trace)
  {
    hide OnByte, Feed, ChunkText, PrintSize, PrintChunks, Hexadecimal, Milestones, WithBody, Emit, DataOf, ChunksOk;
    var all := PrintChunks(ks) + PrintEnding(e);
    var d := Feed(r, c, PrintChunks(ks));
    ChunksRead(r, c, ks);
    WithBodyBetween(c.trace, DataOf(ks));
    EndingButLast(r, d, e);
    var n := |PrintEnding(e)| - 1;
    assert all[..|all| - 1] == PrintChunks(ks) + PrintEnding(e)[..n];
    FeedAppend(r, c, PrintChunks(ks), PrintEnding(e)[..n]);
  }

  lemma EndingButLast(r: Rules, c: Cfg, e: Ending)
    requires AtChunk(r, c, 0) && EndingOk(e)
    ensures var n := |PrintEnding(e)| - 1;
            n >= 0 && var d := Feed(r, c, PrintEnding(e)[..n]);
                      d.stop == Running && Milestones(d.trace) == Milestones(c.trace)
  {
    hide OnByte, Feed, ChunkText, PrintSize, Hexadecimal, AllWellFormed, AllLengthsOk, PrintAll, FlaggedAll, Milestones;
    hide DeliveredAll, LengthAll;
    var size, ts := PrintSize(e.last), PrintAll(e.trailers);
    SizeLineReads(r, c, e.last);
    var c1 := Feed(r, c, size);
    var d := BlockReads(r, c1, e.trailers, CR);
    FeedAppend(r, c, size, ts + [CR]);
    FeedSnoc(r, c1, ts, CR);
    CrReads(r, d);
    HeadersBetween(c1.trace, e.trailers);
    var n := |PrintEnding(e)| - 1;
    assert PrintEnding(e)[..n] <= size + (ts + [CR]) by {
      assert PrintEnding(e) == size + ts + e.eol;
      assert PrintEnding(e)[..n] == size + ts + e.eol[..|e.eol| - 1];
    }
    BeforeThat(r, c, PrintEnding(e)[..n], size + (ts + [CR]));
  }

  lemma ChunkedBreaksOff(r: Rules, c: Cfg, ks: seq<Piece>, e: Ending, v: string)
    requires AtChunk(r, c, 0) && ChunksOk(ks) && EndingOk(e)
    requires v <= PrintChunks(ks) + PrintEnding(e) && |v| < |PrintChunks(ks) + PrintEnding(e)|
    ensures var d := Feed(r, c, v); d.stop == Running && Within(d.p)
  {
    hide Feed, ChunksOk, EndingOk, PrintChunks, PrintEnding, Milestones;
    var all := PrintChunks(ks) + PrintEnding(e);
    ChunkedButLast(r, c, ks, e);
    BeforeThat(r, c, v, all[..|all| - 1]);
    FeedWithin(r, c, v);
  }

  /** A body that breaks off, after the head and before the last byte. */
  lemma BodyBreaksOff(r: Rules, c: Cfg, m: Message, v: string)
    requires Ready(r, c) && c.p.typ == TypeOf(m) && Complete(m) && Room(r, c.p, |HeadText(m)|)
    requires Chosen(r.skips, c.trace, m) && v <= PayloadText(m.payload) && |v| < |PayloadText(m.payload)|
    ensures var d := Feed(r, c, HeadText(m) + v); d.stop == Running && Within(d.p)
  {
    hide Feed, Emit, HeadText, LineOk, AllWellFormed, AllLengthsOk, AfterHead, NewMessage, ChunksOk, EndingOk;
    hide PrintChunks, PrintEnding, Within, FlaggedAll, LengthAll, Delimited, NeedsEof;
    RoundTrip.HeadReads(r, c, m);
    FeedAppend(r, c, HeadText(m), v);
    var d := Feed(r, c, HeadText(m));
    match m.payload
    case Plain(body) => PlainBreaksOff(r, d, body, v);
    case InChunks(pieces, ending) => ChunkedBreaksOff(r, d, pieces, ending, v);
  }

  // ----- over calls cut anywhere

  /**
   s is a part of m, more than the line ends before it and less than the whole; if only the end of
   the stream ends m, or m hands the connection over, less than its head.
   */
  predicate CutShort(m: Message, s: string) {
    |m.lead| < |s| && s <= Text(m) && |s| < if Complete(m) then |Text(m)| else |HeadText(m)|
  }

  lemma CutShortReads(r: Rules, c: Cfg, m: Message, s: string)
    requires Ready(r, c) && c.p.typ == TypeOf(m) && HeadOk(m) && Room(r, c.p, |HeadText(m)|)
    requires CutShort(m, s) && (Complete(m) ==> Chosen(r.skips, c.trace, m))
    ensures var d := Feed(r, c, s); d.stop == Running && Within(d.p)
  {
    hide Feed, HeadText, Within, HeadOk, Complete, AfterHead, PayloadText, Chosen;
    var n := |HeadText(m)|;
    if |s| < n {
      assert s == HeadText(m)[..|s|] by { assert Text(m)[..n] == HeadText(m); }
      HeadBreaksOff(r, c, m, s);
    } else {
      var v := s[n..];
      assert s == HeadText(m) + v && v == PayloadText(m.payload)[..|v|] by {
        assert Text(m)[n..] == PayloadText(m.payload);
      }
      BodyBreaksOff(r, c, m, v);
    }
  }

  /** Only an error sets errno. */
  lemma {:induction false} RedoErrno(r: Rules, c: Cfg, b: char)
    ensures Redo(r, c, b).stop == Failed || Redo(r, c, b).p.errno == c.p.errno
    decreases Rank(c.p.state)
  {
    hide Arm, Emit;
    var x := React(r, c, Arm(c.p, b, 1), b);
    if x.again {
      RedoErrno(r, x.c, b);
    }
  }

  lemma {:induction false} FeedErrno(r: Rules, c: Cfg, s: string)
    requires c.stop == Running
    ensures Feed(r, c, s).stop == Failed || Feed(r, c, s).p.errno == c.p.errno
    decreases |s|
  {
    hide Redo;
    if s != "" {
      RedoErrno(r, c.(p := Norm(r, c.p)), s[0]);
      RedoErrno(r, c.(p := Tick(c.p)), s[0]);
      var d := OnByte(r, c, s[0]);
      if d.stop == Running {
        FeedErrno(r, d, s[1..]);
      } else {
        FeedStopped(r, d, s[1..]);
      }
    }
  }

  lemma NoEndYet(p: Parser, on: Callbacks, trace: seq<Event>)
    requires Within(p) && p.errno == OK
    ensures Exec(p, "", on, trace) == Outcome(p.(errno := InvalidEofState), trace, 1, ErrorExit, map[])
  {
  }

  /**
   A message that breaks off after its first byte: the call that tells the end of the stream makes
   no callback, returns 1 and sets HPE_INVALID_EOF_STATE, however the bytes before came in calls.
   */
  lemma BrokenOff(typ: ParserType, ms: seq<Message>, m: Message, s: string, pieces: seq<string>,
                  skips: seq<Event> -> bool, on: Callbacks)
    requires AllOf(typ, ms) && AllFit(0, ms) && TypeOf(m) == typ && HeadOk(m) && CutShort(m, s)
    requires CarryOf(ms) + |HeadText(m)| <= HTTP_MAX_HEADER_SIZE && Cuts(pieces, TextAll(ms) + s)
    requires Agrees(on, Rules(true, false, skips)) && ChosenAll(skips, [], ms)
    requires Complete(m) ==> Chosen(skips, AfterAll([], ms), m)
    ensures var o := Calls(Init(typ), pieces, on, []);
            && o.how == AllRead && o.ret == |TextAll(ms) + s| && o.p.errno == OK
            && Exec(o.p, "", on, o.trace) == Outcome(o.p.(errno := InvalidEofState), o.trace, 1, ErrorExit, map[])
  {
    hide Calls, Feed, AllFit, TextAll, AfterAll, HeadText, Carry, HeadOk, CutShort, ChosenAll, Chosen, Within, Exec;
    hide Complete, Text;
    var r := Rules(true, false, skips);
    var c := Begin(r, Init(typ), []);
    InitRests(typ);
    CallsIs(r, Init(typ), pieces, on, []);
    FeedAppend(r, c, TextAll(ms), s);
    PipelineReads(r, c, ms);
    CutShortReads(r, Feed(r, c, TextAll(ms)), m, s);
    var o := Calls(Init(typ), pieces, on, []);
    FeedErrno(r, c, TextAll(ms) + s);
    FeedTakes(r, c, TextAll(ms) + s);
    NoEndYet(o.p, on, o.trace);
  }

  // ----- and where the end is none

  lemma EolsAfter(r: Rules, c: Cfg, eols: string)
    requires Idle(r, c) && (c.p.state == FirstState(c.p) || c.p.state == Start(Dead))
    requires OnlyEols(eols) && Room(r, c.p, |eols|)
    ensures var d := Feed(r, c, eols); d.stop == Running && d.p.state == c.p.state
  {
    hide Feed, Emit, Began;
    if c.p.state == Start(Dead) {
      DeadEols(r, c, eols);
    } else {
      RoundTrip.LeadReads(r, c, eols);
    }
  }

  lemma StreamEnds(r: Rules, typ: ParserType, ms: seq<Message>, skips: seq<Event> -> bool)
    requires r == Rules(true, false, skips) && !typ.Both?
    requires AllOf(typ, ms) && AllHeadsFit(ms) && ChosenAll(skips, [], ms) && |ms| <= FirstClosing(ms) + 1
    ensures var d := Feed(r, Begin(r, Init(typ), []), TextAll(ms));
            && Idle(r, d) && (d.p.state == FirstState(d.p) || d.p.state == Start(Dead)) && d.p.typ == typ
            && d.p.nread == CarryOf(ms)
  {
    hide Feed, TextAll, EventsOfAll, EventsOf, ChosenAll, Complete, Text, HeadText, Carry, Follows, ChosenToo;
    hide Lined, ShouldKeepAlive, Persistent, FirstClosing, AllOf, AllHeadsFit;
    var c := Begin(r, Init(typ), []);
    if ms == [] {
      assert TextAll(ms) == "" by { NoText(); }
      NoBytes(r, c);
    } else {
      FollowsAt(typ, ms, skips, |ms| - 1);
      AllButLast(ms);
      FollowsType(typ, ms[..|ms| - 1], ms[|ms| - 1]);
      StreamReads(skips, typ, ms[..|ms| - 1], ms[|ms| - 1]);
    }
  }

  lemma FollowsType(typ: ParserType, ms: seq<Message>, m: Message)
    requires Follows(typ, ms, m)
    ensures TypeOf(m) == typ
  {
  }

  lemma NoText()
    ensures TextAll([]) == ""
  {
  }

  lemma NoMessage(p: Parser, on: Callbacks, trace: seq<Event>)
    requires p.errno == OK && p.state.Start? && p.state != Start(ResOrRespH)
    ensures Exec(p, "", on, trace) == Outcome(p, trace, 0, AllRead, map[])
  {
  }

  /**
   Before the first message, between messages and after the last one, and after line ends there,
   the end of the stream is no error: that call returns 0, makes no callback and changes nothing.
   */
  lemma CleanEnd(typ: ParserType, ms: seq<Message>, eols: string, pieces: seq<string>,
                 skips: seq<Event> -> bool, on: Callbacks)
    requires !typ.Both? && AllOf(typ, ms) && AllHeadsFit(ms) && |ms| <= FirstClosing(ms) + 1
    requires OnlyEols(eols) && CarryOf(ms) + |eols| <= HTTP_MAX_HEADER_SIZE
    requires Concat(pieces) == TextAll(ms) + eols && forall s :: s in pieces ==> s != ""
    requires ChosenAll(skips, [], ms) && Agrees(on, Rules(true, false, skips))
    ensures var o := Calls(Init(typ), pieces, on, []);
            && o.how == AllRead && o.p.errno == OK
            && Exec(o.p, "", on, o.trace) == Outcome(o.p, o.trace, 0, AllRead, map[])
  {
    hide Calls, Feed, TextAll, ChosenAll, AllOf, AllHeadsFit, FirstClosing, Exec, CarryOf;
    var r := Rules(true, false, skips);
    var c := Begin(r, Init(typ), []);
    InitRests(typ);
    var o := Calls(Init(typ), pieces, on, []);
    if pieces == [] {
      assert o == Outcome(Init(typ), [], 0, AllRead, map[]) by { NoCalls(Init(typ), on, []); }
      NoMessage(Init(typ), on, []);
    } else {
      CallsIs(r, Init(typ), pieces, on, []);
      StreamEnds(r, typ, ms, skips);
      FeedAppend(r, c, TextAll(ms), eols);
      EolsAfter(r, Feed(r, c, TextAll(ms)), eols);
      FeedErrno(r, c, TextAll(ms) + eols);
      NoMessage(o.p, on, o.trace);
    }
  }

  lemma NoCalls(p: Parser, on: Callbacks, trace: seq<Event>)
    ensures Calls(p, [], on, trace) == Outcome(p, trace, 0, AllRead, map[])
  {
  }
}
