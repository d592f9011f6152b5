/**
 The order of the callbacks. Whatever the input, however it is cut, paused or refused, the
 callbacks made are a beginning of

   request   (message_begin url+ (field+ value*)* headers_complete body* (field+ value*)* message_complete)*
   response  (message_begin+ status* (field+ value*)* headers_complete body* (field+ value*)* message_complete)*

 just as long as no call is made, without an error set, after one without data has said that the
 stream is over and has so completed a message.
 */
module Grammar {
  import opened Chars
  import opened Types
  import opened UrlChar
  import opened Arms
  import opened Execute
  import opened Invariant
  import opened Marking
  import opened Consumption
  import opened Bridge
  import opened Refinement

  /** Where in the pattern above a trace has got to. */
  datatype Phase =
    | Idle | Begun | Line | Field | Value | Ready | InBody | TrailField | TrailValue | Bad

  /** What a callback is, as far as the order is concerned. */
  datatype Sort = Begins | Completes | HeadersEnds | Delivers(kind: Kind)

  function SortOf(e: Event): Sort {
    match e
    case MessageBegin => Begins
    case HeadersComplete(_) => HeadersEnds
    case MessageComplete => Completes
    case Data(k, _) => Delivers(k)
  }

  /** The phase after one callback more; `req` for requests, otherwise responses. */
  function Next(req: bool, g: Phase, s: Sort): Phase {
    var headers := g.Line? || g.Field? || g.Value? || (!req && g.Begun?);
    var body := g.Ready? || g.InBody?;
    var trailers := body || g.TrailField? || g.TrailValue?;
    match s
    case Begins => if g.Idle? || (!req && g.Begun?) then Begun else Bad
    case Delivers(KUrl) => if req && (g.Begun? || g.Line?) then Line else Bad
    case Delivers(KStatus) => if !req && (g.Begun? || g.Line?) then Line else Bad
    case Delivers(KField) => if headers then Field else if trailers then TrailField else Bad
    case Delivers(KValue) =>
      if g.Field? || g.Value? then Value
      else if g.TrailField? || g.TrailValue? then TrailValue
      else Bad
    case HeadersEnds => if headers then Ready else Bad
    case Delivers(KBody) => if body then InBody else Bad
    case Completes => if trailers then Idle else Bad
  }

  function PhaseOf(req: bool, trace: seq<Event>): Phase {
    if trace == [] then Idle
    else Next(req, PhaseOf(req, trace[..|trace| - 1]), SortOf(trace[|trace| - 1]))
  }

  /** The phases between two headers: of the message, or of the trailers. */
  predicate BetweenHeaders(p: Parser, g: Phase) {
    if p.flags.trailing then g.Ready? || g.InBody? || g.TrailField? || g.TrailValue?
    else g.Line? || g.Field? || g.Value? || (p.typ.Response? && g.Begun?)
  }

  predicate InHeader(p: Parser, g: Phase) {
    if p.flags.trailing then g.TrailField? || g.TrailValue? else g.Field? || g.Value?
  }

  /** The phases that go with each state. */
  predicate At(p: Parser, g: Phase) {
    match p.state
    case Start(StartRes) => g.Idle? || g.Begun?
    case Start(ResOrRespH) => g.Begun?
    case Start(_) => g.Idle?
    case StatusLine(_) => g.Begun? || g.Line?
    case MethodName => g.Begun?
    case Url(s) => g.Begun? || (g.Line? && s != ReqSpacesBeforeUrl)
    case Version(_) => g.Line?
    case Header(s) =>
      if s.HeaderFieldStart? || s.HeaderField? then BetweenHeaders(p, g) else InHeader(p, g)
    case HeadersEnd(s) => if s.HeadersDone? then g.Ready? else BetweenHeaders(p, g)
    case Body(s) => g.InBody? || (g.Ready? && !s.MessageDone?)
    case Chunk(_) => g.Ready? || g.InBody?
  }

  predicate Req(p: Parser) {
    !p.typ.Response?
  }

  /** The phase after an arm whose mark, if it delivers one, is set. */
  function PhaseAfter(req: bool, g: Phase, next: Next): Phase {
    match next
    case Notify(e, _) => Next(req, g, SortOf(e))
    case Flush(k, _, _) => Next(req, g, Delivers(k))
    case _ => g
  }

  /** An arm keeps to the order; the type of a parser for both is settled without a callback. */
  predicate Follows(p: Parser, g: Phase, a: Act) {
    if a.next.Fail? || a.next.Abort? then a.p.typ == p.typ
    else
      && At(a.p, PhaseAfter(Req(p), g, a.next))
      && (a.next == Flush(KBody, false, Consume) ==> At(a.p, g))
      && (if !p.typ.Both? then a.p.typ == p.typ
          else a.next.Quiet? || (a.next.Notify? && a.next.event == MessageBegin && a.p.typ.Both?))
  }

  lemma StartFollows(p: Parser, g: Phase, s: StartState, ch: char)
    requires p.state == Start(s) && Good(p) && At(p, g)
    ensures Follows(p, g, StartArm(p, s, ch))
  {
  }

  lemma StatusLineFollows(p: Parser, g: Phase, s: StatusLineState, ch: char)
    requires p.state == StatusLine(s) && Good(p) && At(p, g)
    ensures Follows(p, g, StatusLineArm(p, s, ch))
  {
  }

  lemma MethodFollows(p: Parser, g: Phase, ch: char)
    requires p.state == MethodName && Good(p) && At(p, g)
    ensures Follows(p, g, MethodArm(p, ch))
  {
  }

  lemma UrlFollows(p: Parser, g: Phase, s: UrlState, ch: char)
    requires p.state == Url(s) && Good(p) && At(p, g)
    ensures Follows(p, g, UrlArm(p, s, ch))
  {
  }

  lemma VersionFollows(p: Parser, g: Phase, s: VersionState, ch: char)
    requires p.state == Version(s) && Good(p) && At(p, g)
    ensures Follows(p, g, VersionArm(p, s, ch))
  {
  }

  lemma HeaderFollows(p: Parser, g: Phase, s: HeaderLineState, ch: char)
    requires p.state == Header(s) && Good(p) && At(p, g)
    ensures Follows(p, g, HeaderArm(p, s, ch))
  {
    match s
    case HeaderFieldStart => FieldStartFollows(p, g, ch);
    case HeaderField => FieldFollows(p, g, ch);
    case HeaderValue => ValueFollows(p, g, ch);
    case HeaderValueStart => ValueStartFollows(p, g, ch);
    case HeaderValueDiscardWs => ValueStartFollows(p, g, ch);
    case _ =>
  }

  lemma FieldStartFollows(p: Parser, g: Phase, ch: char)
    requires p.state == Header(HeaderFieldStart) && Good(p) && At(p, g)
    ensures Follows(p, g, FieldStartArm(p, ch))
  {
    hide Token;
  }

  lemma FieldFollows(p: Parser, g: Phase, ch: char)
    requires p.state == Header(HeaderField) && Good(p) && At(p, g)
    ensures Follows(p, g, FieldArm(p, ch))
  {
    MatchFieldGood(p, ch);
    hide MatchFieldByte, Token, FieldMatcherOk, Good;
    if IsToken(ch) {
      MatcherAt(p, MatchFieldByte(p, ch).value, g);
      hide At;
    }
  }

  /** The order does not look at the matcher. */
  lemma MatcherAt(p: Parser, q: Parser, g: Phase)
    requires q == p.(index := q.index, headerState := q.headerState)
    ensures At(q, g) <==> At(p, g)
  {
  }

  lemma ValueStartFollows(p: Parser, g: Phase, ch: char)
    requires p.state == Header(HeaderValueStart) || p.state == Header(HeaderValueDiscardWs)
    requires Good(p) && At(p, g)
    ensures Follows(p, g, ValueStartArm(p, ch))
  {
    hide Lower;
  }

  lemma ValueFollows(p: Parser, g: Phase, ch: char)
    requires p.state == Header(HeaderValue) && Good(p) && At(p, g)
    ensures Follows(p, g, ValueArm(p, ch))
  {
    if !p.headerState.HContentLength? {
      MatchValueGood(p, ch);
    }
    hide MatchValueByte, Lower, ValueMatcherOk, Good;
  }

  lemma HeadersEndFollows(p: Parser, g: Phase, s: HeadersEndState, ch: char)
    requires p.state == HeadersEnd(s) && Good(p) && At(p, g)
    ensures Follows(p, g, HeadersEndArm(p, s, ch))
  {
  }

  lemma BodyFollows(p: Parser, g: Phase, s: BodyState, avail: nat)
    requires p.state == Body(s) && Good(p) && At(p, g) && avail > 0
    ensures Follows(p, g, BodyArm(p, s, avail))
  {
  }

  lemma ChunkFollows(p: Parser, g: Phase, s: ChunkState, ch: char, avail: nat)
    requires p.state == Chunk(s) && Good(p) && At(p, g) && avail > 0
    ensures Follows(p, g, ChunkArm(p, s, ch, avail))
  {
  }

  lemma ArmFollows(p: Parser, g: Phase, ch: char, avail: nat)
    requires Good(p) && At(p, g) && avail > 0
    ensures Follows(p, g, Arm(p, ch, avail))
  {
    match p.state
    case Start(s) => StartFollows(p, g, s, ch);
    case StatusLine(s) => StatusLineFollows(p, g, s, ch);
    case MethodName => MethodFollows(p, g, ch);
    case Url(s) => UrlFollows(p, g, s, ch);
    case Version(s) => VersionFollows(p, g, s, ch);
    case Header(s) => HeaderFollows(p, g, s, ch);
    case HeadersEnd(s) => HeadersEndFollows(p, g, s, ch);
    case Body(s) => BodyFollows(p, g, s, avail);
    case Chunk(s) => ChunkFollows(p, g, s, ch, avail);
  }

  // ----- along a call

  /** A trace that keeps to the order, at a place that goes with the parser. */
  ghost predicate Ordered(p: Parser, trace: seq<Event>) {
    var g := PhaseOf(Req(p), trace);
    && !g.Bad?
    && (p.errno == OK || p.errno == Paused ==> At(p, g))
    && (p.typ.Both? ==> trace == [] || trace == [MessageBegin])
  }

  lemma PhaseSnoc(req: bool, trace: seq<Event>, e: Event)
    ensures PhaseOf(req, trace + [e]) == Next(req, PhaseOf(req, trace), SortOf(e))
  {
    assert (trace + [e])[..|trace|] == trace;
  }

  /** AfterCall changes neither state, type nor F_TRAILING. */
  lemma AnswerAt(p: Parser, e: Event, r: Reply, g: Phase)
    ensures var q := AfterCall(p, e, r);
            q.typ == p.typ && (At(q, g) <==> At(p, g))
  {
  }

  /** The first callback can be read by either pattern. */
  lemma BothStart(trace: seq<Event>)
    requires trace == [] || trace == [MessageBegin]
    ensures PhaseOf(true, trace) == PhaseOf(false, trace) == if trace == [] then Idle else Begun
  {
    if trace != [] {
      assert trace[..0] == [];
    }
  }

  lemma FinishOrdered(p: Parser, a: Act, marks: Marks, data: string, i: nat, on: Callbacks, trace: seq<Event>)
    requires MarksWithin(marks, i) && 0 < a.take && i + a.take <= |data|
    requires p.errno == OK && a.p.errno == OK && Ordered(p, trace) && LeavesGood(a)
    requires Follows(p, PhaseOf(Req(p), trace), a)
    requires a.next.Flush? && a.next.kind !in SetMark(marks, a.mark, i) ==> a.next == Flush(KBody, false, Consume)
    ensures var u := Finish(a, marks, data, i, on, trace); Ordered(u.p, u.trace)
  {
    hide At, Good, AfterCall, PhaseOf, Next;
    if !Fails(a.next) {
      var e := Call(a.next, SetMark(marks, a.mark, i), data, i + a.take - 1);
      BadNowhere(a.p);
      if p.typ.Both? {
        BothStart(trace);
      }
      if e.Some? {
        PhaseSnoc(Req(p), trace, e.value);
        AnswerAt(a.p, e.value, on(trace + [e.value]), PhaseOf(Req(p), trace + [e.value]));
        if p.typ.Both? {
          BothOnce(trace, e.value);
        }
      }
    }
  }

  /** A parser for both has made no callback but one message_begin. */
  lemma BothOnce(trace: seq<Event>, e: Event)
    requires trace == [] || trace == [MessageBegin]
    requires e == MessageBegin && !Next(true, PhaseOf(true, trace), SortOf(e)).Bad?
    ensures trace + [e] == [MessageBegin]
  {
    BothStart(trace);
  }

  lemma BadNowhere(p: Parser)
    ensures !At(p, Bad)
  {
  }

  lemma PassOrdered(p: Parser, marks: Marks, data: string, i: nat, on: Callbacks, trace: seq<Event>)
    requires i < |data| && MarksWithin(marks, i) && MarksFit(p.state, marks, i, false)
    requires p.errno == OK && Looking(p) && Ordered(p, trace)
    ensures var u := Pass(p, marks, data, i, on, trace); Ordered(u.p, u.trace)
  {
    hide Arm, At, Good, Finish, LeavesGood, Next;
    var a := Arm(p, data[i], |data| - i);
    ArmGood(p, data[i], |data| - i);
    ArmShape(p, data[i], |data| - i);
    ArmFollows(p, PhaseOf(Req(p), trace), data[i], |data| - i);
    FinishOrdered(p, a, marks, data, i, on, trace);
  }

  /** A run delivered at the end of a call is in its place. */
  lemma HeldDelivers(p: Parser, g: Phase, k: Kind)
    requires Good(p) && At(p, g)
    requires Held(p.state) == Some(k)
      || (k == KBody && (BodyRun(p.state) || p.state == Chunk(ChunkDataAlmostDone)))
    ensures At(p, Next(Req(p), g, Delivers(k))) && !p.typ.Both?
  {
  }

  lemma FlushOrdered(p: Parser, marks: Marks, data: string, on: Callbacks, trace: seq<Event>)
    requires MarksWithin(marks, |data|) && MarksFit(p.state, marks, |data|, true)
    requires p.errno == OK && Resting(p) && Ordered(p, trace)
    ensures var o := FlushAll(FLUSH_ORDER, p, marks, data, on, trace); Ordered(o.p, o.trace)
  {
    hide At, Good, Execute.AfterCall, Next, FlushAll, Held;
    var k := Marked(marks);
    if k.None? {
      MarkedNone(marks);
      FlushNothing(FLUSH_ORDER, p, data, on, trace);
    } else {
      FlushMarked(p, marks, k.value, data, on, trace);
    }
  }

  lemma FlushMarked(p: Parser, marks: Marks, k: Kind, data: string, on: Callbacks, trace: seq<Event>)
    requires MarksWithin(marks, |data|) && k in marks && Only(marks, k)
    requires p.errno == OK && Resting(p) && Ordered(p, trace)
    requires Held(p.state) == Some(k)
      || (k == KBody && (BodyRun(p.state) || p.state == Chunk(ChunkDataAlmostDone)))
    ensures var o := FlushAll(FLUSH_ORDER, p, marks, data, on, trace); Ordered(o.p, o.trace)
  {
    hide At, Good, Execute.AfterCall, Next, FlushAll, Held, BodyRun, Only;
    var e := Data(k, data[marks[k]..]);
    var g := PhaseOf(Req(p), trace);
    FlushOne(FLUSH_ORDER, p, marks, k, data, on, trace);
    HeldDelivers(p, g, k);
    PhaseSnoc(Req(p), trace, e);
    AnswerAt(p, e, on(trace + [e]), Next(Req(p), g, Delivers(k)));
    BadNowhere(p);
  }

  lemma {:induction false} LoopOrdered(p: Parser, marks: Marks, data: string, i: nat,
                                       on: Callbacks, trace: seq<Event>)
    requires i <= |data| && MarksWithin(marks, i) && MarksFit(p.state, marks, i, i == |data|)
    requires p.errno == OK && Resting(p) && Ordered(p, trace) && data != []
    ensures var o := Loop(p, marks, data, i, on, trace); Ordered(o.p, o.trace)
    decreases |data| - i, Rank(p.state), 1
  {
    hide LookAt, FlushAll, MarksFit, Good, At, PhaseOf;
    if i == |data| {
      FlushOrdered(p, marks, data, on, trace);
    } else {
      TickLooks(p);
      TickAt(p, PhaseOf(Req(p), trace));
      if !Overflows(p) {
        LookOrdered(Tick(p), marks, data, i, on, trace);
      }
    }
  }

  lemma TickAt(p: Parser, g: Phase)
    ensures Tick(p).typ == p.typ && (At(Tick(p), g) <==> At(p, g))
  {
  }

  lemma {:induction false} LookOrdered(p: Parser, marks: Marks, data: string, i: nat,
                                       on: Callbacks, trace: seq<Event>)
    requires i < |data| && MarksWithin(marks, i) && MarksFit(p.state, marks, i, false)
    requires p.errno == OK && Looking(p) && Ordered(p, trace)
    ensures var o := LookAt(p, marks, data, i, on, trace); Ordered(o.p, o.trace)
    decreases |data| - i, Rank(p.state), 0
  {
    hide Pass, MarksFit, Good, Loop, Ordered;
    var u := Pass(p, marks, data, i, on, trace);
    PassGood(p, marks, data, i, on, trace);
    PassOrdered(p, marks, data, i, on, trace);
    match u.verdict
    case OnSame => LookOrdered(u.p, u.marks, data, u.i, on, u.trace);
    case OnNext => LoopOrdered(u.p, u.marks, data, u.i, on, u.trace);
    case Stop(how) =>
  }

  // ----- along any sequence of calls

  /** What an application can do with its parser: execute (without data: the end), and pause. */
  datatype Op = Give(bytes: string) | SetPaused(paused: bool)

  datatype Session = Session(p: Parser, trace: seq<Event>)

  function Do(s: Session, op: Op, on: Callbacks): Session {
    match op
    case Give(bytes) => var o := Exec(s.p, bytes, on, s.trace); Session(o.p, o.trace)
    case SetPaused(paused) => s.(p := Pause(s.p, paused))
  }

  function DoAll(s: Session, ops: seq<Op>, on: Callbacks): Session
    decreases |ops|
  {
    if ops == [] then s else DoAll(Do(s, ops[0], on), ops[1..], on)
  }

  ghost predicate Regular(s: Session) {
    Inv(s.p) && Ordered(s.p, s.trace)
  }

  lemma DoRegular(s: Session, op: Op, on: Callbacks)
    requires Regular(s) && op != Give("")
    ensures Regular(Do(s, op, on))
  {
    hide Loop, Good, At, PhaseOf;
    match op
    case Give(bytes) =>
      ExecKeepsInv(s.p, bytes, on, s.trace);
      if s.p.errno == OK {
        MarksStart(s.p.state, |bytes|);
        LoopOrdered(s.p, FirstMarks(s.p.state), bytes, 0, on, s.trace);
      }
    case SetPaused(paused) =>
      PauseKeeps(s.p, paused, PhaseOf(Req(s.p), s.trace));
  }

  lemma PauseKeeps(p: Parser, paused: bool, g: Phase)
    ensures Inv(p) ==> Inv(Pause(p, paused))
    ensures Pause(p, paused).typ == p.typ && (At(Pause(p, paused), g) <==> At(p, g))
  {
  }

  // ----- the end of the stream

  /** A call with data in s_body_identity_eof delivers it all as body. */
  lemma EofRun(p: Parser, data: string, on: Callbacks, trace: seq<Event>)
    requires data != [] && p.errno == OK && p.state == Body(BodyIdentityEof)
    ensures Exec(p, data, on, trace).trace == trace + [Data(KBody, data)]
  {
    var marks: Marks := map[KBody := 0];
    assert Pass(p, map[], data, 0, on, trace) == Turn(p, trace, marks, |data|, OnNext);
    hide Pass, FlushAll, Execute.AfterCall;
    assert data[0..] == data;
    FlushOne(FLUSH_ORDER, p, marks, KBody, data, on, trace);
    assert Exec(p, data, on, trace) == LookAt(p, map[], data, 0, on, trace);
    assert LookAt(p, map[], data, 0, on, trace) == Loop(p, marks, data, |data|, on, trace);
  }

  /**
   After the end of the stream s_body_identity_eof is not left, and any call more that is not
   refused breaks the order, be it with data or without.
   */
  lemma AfterEof(p: Parser, data: string, on: Callbacks, trace: seq<Event>)
    requires p.errno == OK && p.state == Body(BodyIdentityEof) && PhaseOf(false, trace) == Idle
    ensures PhaseOf(false, Exec(p, data, on, trace).trace).Bad?
  {
    if data == [] {
      PhaseSnoc(false, trace, MessageComplete);
    } else {
      EofRun(p, data, on, trace);
      PhaseSnoc(false, trace, Data(KBody, data));
    }
  }

  /** The call says that the stream is over, and completes a message that only this could end. */
  predicate CompletesAtEof(s: Session, op: Op) {
    op == Give("") && s.p.errno == OK && s.p.state == Body(BodyIdentityEof)
  }

  /** What holds once such a call has been made, until there is another one. */
  ghost predicate Over(s: Session) {
    Inv(s.p) && s.p.state == Body(BodyIdentityEof) && s.p.typ.Response? && PhaseOf(false, s.trace) == Idle
  }

  lemma EofCompletes(s: Session, on: Callbacks)
    requires Regular(s) && CompletesAtEof(s, Give(""))
    ensures Over(Do(s, Give(""), on))
  {
    var t := s.trace + [MessageComplete];
    PhaseSnoc(false, s.trace, MessageComplete);
    EofEnds(s.p, on, s.trace);
    AnswerAt(s.p, MessageComplete, on(t), Idle);
    hide PhaseOf;
  }

  lemma EofRegular(s: Session, on: Callbacks)
    requires Regular(s) && !CompletesAtEof(s, Give(""))
    ensures Regular(Do(s, Give(""), on))
  {
    hide Loop, Good, At, PhaseOf;
    if s.p.errno == OK {
      EofEnds(s.p, on, s.trace);
    }
  }

  lemma OverStays(s: Session, op: Op, on: Callbacks)
    requires Over(s) && (op.Give? ==> s.p.errno != OK)
    ensures Over(Do(s, op, on))
  {
    hide Good, PhaseOf, At;
    if op.SetPaused? {
      PauseKeeps(s.p, op.paused, Idle);
    }
  }

  // ----- a broken order stays broken

  lemma {:induction false} BadStays(req: bool, t: seq<Event>, u: seq<Event>)
    requires t <= u && PhaseOf(req, t).Bad?
    ensures PhaseOf(req, u).Bad?
    decreases |u|
  {
    if |t| < |u| {
      assert t <= u[..|u| - 1];
      BadStays(req, t, u[..|u| - 1]);
    } else {
      assert t == u;
    }
  }

  /** Callbacks are only added, and the type is settled once. */
  predicate Extends(p: Parser, t: seq<Event>, q: Parser, u: seq<Event>) {
    t <= u && (!p.typ.Both? ==> q.typ == p.typ)
  }

  lemma LineTyp(p: Parser, ch: char)
    requires !p.typ.Both? && Good(p)
    ensures p.state.Start? ==> StartArm(p, p.state.start, ch).p.typ == p.typ
    ensures p.state.StatusLine? ==> StatusLineArm(p, p.state.line, ch).p.typ == p.typ
    ensures MethodArm(p, ch).p.typ == p.typ
  {
    hide AddDigit, MethodStr, OtherMethod;
  }

  lemma UrlTyp(p: Parser, ch: char)
    ensures p.state.Url? ==> UrlArm(p, p.state.url, ch).p.typ == p.typ
    ensures p.state.Version? ==> VersionArm(p, p.state.version, ch).p.typ == p.typ
  {
    hide AddDigit, ParseUrlChar;
  }

  lemma HeaderTyp(p: Parser, ch: char)
    requires p.state.Header?
    ensures HeaderArm(p, p.state.header, ch).p.typ == p.typ
  {
    hide Token, Lower;
  }

  lemma BodyTyp(p: Parser, ch: char, avail: nat)
    requires avail > 0
    ensures p.state.HeadersEnd? ==> HeadersEndArm(p, p.state.end, ch).p.typ == p.typ
    ensures p.state.Body? ==> BodyArm(p, p.state.body, avail).p.typ == p.typ
    ensures p.state.Chunk? ==> ChunkArm(p, p.state.chunk, ch, avail).p.typ == p.typ
  {
    hide Unhex, NewMessage, NeedsEof;
  }

  lemma ArmTyp(p: Parser, ch: char, avail: nat)
    requires avail > 0 && !p.typ.Both? && Good(p)
    ensures Arm(p, ch, avail).p.typ == p.typ
  {
    LineTyp(p, ch);
    UrlTyp(p, ch);
    if p.state.Header? {
      HeaderTyp(p, ch);
    }
    BodyTyp(p, ch, avail);
    hide Good, StartArm, StatusLineArm, MethodArm, UrlArm, VersionArm, HeaderArm, HeadersEndArm, BodyArm, ChunkArm;
  }

  lemma PassExtends(p: Parser, marks: Marks, data: string, i: nat, on: Callbacks, trace: seq<Event>)
    requires i < |data| && MarksWithin(marks, i) && Good(p)
    ensures var u := Pass(p, marks, data, i, on, trace); Extends(p, trace, u.p, u.trace)
  {
    hide Arm, Call, Good;
    if !p.typ.Both? {
      ArmTyp(p, data[i], |data| - i);
    }
  }

  lemma {:induction false} FlushExtends(kinds: seq<Kind>, p: Parser, marks: Marks, data: string,
                                        on: Callbacks, trace: seq<Event>)
    requires MarksWithin(marks, |data|)
    ensures var o := FlushAll(kinds, p, marks, data, on, trace); Extends(p, trace, o.p, o.trace)
  {
    if kinds != [] {
      if kinds[0] in marks {
        var e := Data(kinds[0], data[marks[kinds[0]]..]);
        FlushExtends(kinds[1..], AfterCall(p, e, on(trace + [e])), marks - {kinds[0]}, data, on, trace + [e]);
      } else {
        FlushExtends(kinds[1..], p, marks, data, on, trace);
      }
    }
  }

  lemma {:induction false} LoopExtends(p: Parser, marks: Marks, data: string, i: nat, on: Callbacks, trace: seq<Event>)
    requires i <= |data| && MarksWithin(marks, i) && MarksFit(p.state, marks, i, i == |data|)
    requires p.errno == OK && Resting(p)
    ensures var o := Loop(p, marks, data, i, on, trace); Extends(p, trace, o.p, o.trace)
    decreases |data| - i, Rank(p.state), 1
  {
    hide LookAt, FlushAll, MarksFit, Good;
    if i == |data| {
      FlushExtends(FLUSH_ORDER, p, marks, data, on, trace);
    } else if !Overflows(p) {
      TickLooks(p);
      LookExtends(Tick(p), marks, data, i, on, trace);
    }
  }

  lemma {:induction false} LookExtends(p: Parser, marks: Marks, data: string, i: nat, on: Callbacks, trace: seq<Event>)
    requires i < |data| && MarksWithin(marks, i) && MarksFit(p.state, marks, i, false)
    requires p.errno == OK && Looking(p)
    ensures var o := LookAt(p, marks, data, i, on, trace); Extends(p, trace, o.p, o.trace)
    decreases |data| - i, Rank(p.state), 0
  {
    hide Loop, Pass, MarksFit, Good;
    var u := Pass(p, marks, data, i, on, trace);
    PassGood(p, marks, data, i, on, trace);
    PassExtends(p, marks, data, i, on, trace);
    match u.verdict
    case OnSame => LookExtends(u.p, u.marks, data, u.i, on, u.trace);
    case OnNext => LoopExtends(u.p, u.marks, data, u.i, on, u.trace);
    case Stop(how) =>
  }

  lemma DoExtends(s: Session, op: Op, on: Callbacks)
    requires Inv(s.p)
    ensures var t := Do(s, op, on); Inv(t.p) && Extends(s.p, s.trace, t.p, t.trace)
  {
    hide Loop, Good, At;
    match op
    case Give(bytes) =>
      ExecKeepsInv(s.p, bytes, on, s.trace);
      if bytes != [] && s.p.errno == OK {
        MarksStart(s.p.state, |bytes|);
        LoopExtends(s.p, FirstMarks(s.p.state), bytes, 0, on, s.trace);
      }
    case SetPaused(paused) => PauseKeeps(s.p, paused, Idle);
  }

  lemma {:induction false} DoAllExtends(s: Session, ops: seq<Op>, on: Callbacks)
    requires Inv(s.p)
    ensures var t := DoAll(s, ops, on); Extends(s.p, s.trace, t.p, t.trace)
    decreases |ops|
  {
    hide Do, Inv;
    if ops != [] {
      DoExtends(s, ops[0], on);
      DoAllExtends(Do(s, ops[0], on), ops[1..], on);
    }
  }

  // ----- the order, exactly

  /**
   A call is made without an error set after the end of the stream has completed a message;
   over says that it has.
   */
  predicate Overrun(s: Session, ops: seq<Op>, on: Callbacks, over: bool)
    decreases |ops|
  {
    ops != [] &&
    ((over && ops[0].Give? && s.p.errno == OK)
     || Overrun(Do(s, ops[0], on), ops[1..], on, over || CompletesAtEof(s, ops[0])))
  }

  ghost predicate InOrder(s: Session) {
    !PhaseOf(Req(s.p), s.trace).Bad?
  }

  lemma {:induction false} OrderIff(s: Session, ops: seq<Op>, on: Callbacks, over: bool)
    requires if over then Over(s) else Regular(s)
    ensures InOrder(DoAll(s, ops, on)) <==> !Overrun(s, ops, on, over)
    decreases |ops|
  {
    hide Do, Inv, At, PhaseOf, CompletesAtEof;
    if ops != [] {
      var op, rest := ops[0], ops[1..];
      if over && op.Give? && s.p.errno == OK {
        OverBreaks(s, op.bytes, rest, on);
      } else if over {
        OverStays(s, op, on);
        OrderIff(Do(s, op, on), rest, on, true);
      } else {
        if op != Give("") {
          DoRegular(s, op, on);
        } else if CompletesAtEof(s, op) {
          EofCompletes(s, on);
        } else {
          EofRegular(s, on);
        }
        NotEof(s, op);
        OrderIff(Do(s, op, on), rest, on, CompletesAtEof(s, op));
      }
    }
  }

  lemma NotEof(s: Session, op: Op)
    ensures CompletesAtEof(s, op) ==> op == Give("")
  {
  }

  lemma OverBreaks(s: Session, bytes: string, rest: seq<Op>, on: Callbacks)
    requires Over(s) && s.p.errno == OK
    ensures !InOrder(DoAll(Do(s, Give(bytes), on), rest, on))
  {
    hide Exec, PhaseOf;
    var t := Do(s, Give(bytes), on);
    AfterEof(s.p, bytes, on, s.trace);
    DoExtends(s, Give(bytes), on);
    DoAllExtends(t, rest, on);
    BadStays(false, t.trace, DoAll(t, rest, on).trace);
  }

  /**
   The order of the callbacks, exactly: over every sequence of calls, with data or without, and
   of pauses on a fresh parser, and whatever the callbacks answer, the callbacks keep to the
   order if and only if no call is made, without an error set, after a call without data has
   completed a message in s_body_identity_eof.
   */
  lemma CallbackOrder(t: ParserType, ops: seq<Op>, on: Callbacks)
    ensures var s := Session(Init(t), []);
            InOrder(DoAll(s, ops, on)) <==> !Overrun(s, ops, on, false)
  {
    var s := Session(Init(t), []);
    InitRests(t);
    assert Regular(s);
    hide Regular, DoAll, Overrun;
    OrderIff(s, ops, on, false);
  }
}
