/**
 The five marks of http_parser_execute: which of them may be set in which state. At most
 one ever is, and the state tells which.
 */
module Marking {
  import opened Types
  import opened UrlChar
  import opened Arms
  import opened Execute
  import opened Invariant

  /** In the middle of a run of body bytes. */
  predicate BodyRun(s: State) {
    s == Chunk(ChunkData) || s == Body(BodyIdentity) || s == Body(BodyIdentityEof)
  }

  /** Nothing is marked, or just kind k. */
  predicate Only(marks: Marks, k: Kind) {
    marks == map[] || (k in marks && marks == map[k := marks[k]])
  }

  /**
   The marks when p stands before byte i, or at the end of the buffer. A marked run is not
   empty, but at the start of a call.
   */
  predicate MarksFit(s: State, marks: Marks, i: nat, end: bool) {
    && (forall k :: k in marks ==> marks[k] < i || (i == marks[k] == 0 && Held(s) == Some(k)))
    && if Held(s).Some? then Held(s).value in marks && Only(marks, Held(s).value)
       else if s == Chunk(ChunkDataAlmostDone) then Only(marks, KBody) && (KBody in marks <==> i > 0)
       else if BodyRun(s) && end then Only(marks, KBody)
       else marks == map[]
  }

  /** What the source asserts before the last callbacks. */
  lemma OneMark(s: State, marks: Marks, n: nat)
    requires MarksFit(s, marks, n, true)
    ensures |marks| <= 1
  {
  }

  lemma MarksStart(s: State, n: nat)
    requires n > 0
    ensures MarksFit(s, FirstMarks(s), 0, false)
  {
  }

  /** Neither marked in this state, nor in the middle or just after a body run. */
  predicate Plain(s: State) {
    Held(s) == None && !BodyRun(s) && s != Chunk(ChunkDataAlmostDone)
  }

  /** How an arm's mark and its data callback go with the states before and after. */
  predicate Shape(s: State, a: Act, avail: nat) {
    var t := a.p.state;
    match a.next
    case Quiet(Consume) =>
      if a.mark.None? then
        (Plain(s) || Held(s).Some?) && Held(t) == Held(s) && a.take == 1 && t != Chunk(ChunkDataAlmostDone)
      else if a.mark == Some(KBody) then
        && BodyRun(s) && Held(t) == None
        && (t == Chunk(ChunkDataAlmostDone) || (t == s && a.take == avail))
      else Plain(s) && Held(t) == a.mark && a.take == 1
    case Flush(KBody, inclusive, andThen) =>
      && (inclusive <==> andThen.Repeat?) && !andThen.Exit?
      && if inclusive then s == Body(BodyIdentity) && a.mark == Some(KBody) && t == Body(MessageDone)
         else s == Chunk(ChunkDataAlmostDone) && a.mark == None && a.take == 1
              && t == Chunk(ChunkDataDone)
    case Flush(k, inclusive, andThen) =>
      && !inclusive && a.take == 1 && Held(t) == None && !andThen.Exit? && t != Chunk(ChunkDataAlmostDone)
      && if a.mark.None? then Held(s) == Some(k) else a.mark == Some(k) && Plain(s)
    case Fail(_) => a.take == 1 && (a.mark.Some? ==> Plain(s))
    case Abort => true
    case _ =>
      a.mark == None && a.take == 1 && Plain(s) && Held(t) == None && t != Chunk(ChunkDataAlmostDone)
  }

  lemma ArmShape(p: Parser, ch: char, avail: nat)
    requires avail > 0
    ensures Shape(p.state, Arm(p, ch, avail), avail)
  {
    match p.state
    case Start(s) => StartShape(p, s, ch, avail);
    case StatusLine(s) => StatusLineShape(p, s, ch, avail);
    case MethodName => MethodShape(p, ch, avail);
    case Url(s) => UrlShape(p, s, ch, avail);
    case Version(s) => VersionShape(p, s, ch, avail);
    case Header(s) => HeaderShape(p, s, ch, avail);
    case HeadersEnd(s) => HeadersEndShape(p, s, ch, avail);
    case Body(s) => BodyShape(p, s, avail);
    case Chunk(s) => ChunkShape(p, s, ch, avail);
  }

  lemma StartShape(p: Parser, s: StartState, ch: char, avail: nat)
    requires p.state == Start(s)
    ensures Shape(p.state, StartArm(p, s, ch), avail)
  {
  }

  lemma MethodShape(p: Parser, ch: char, avail: nat)
    requires p.state == MethodName
    ensures Shape(p.state, MethodArm(p, ch), avail)
  {
  }

  lemma HeadersEndShape(p: Parser, s: HeadersEndState, ch: char, avail: nat)
    requires p.state == HeadersEnd(s)
    ensures Shape(p.state, HeadersEndArm(p, s, ch), avail)
  {
  }

  lemma BodyShape(p: Parser, s: BodyState, avail: nat)
    requires p.state == Body(s) && avail > 0
    ensures Shape(p.state, BodyArm(p, s, avail), avail)
  {
  }

  lemma StatusLineShape(p: Parser, s: StatusLineState, ch: char, avail: nat)
    requires p.state == StatusLine(s)
    ensures Shape(p.state, StatusLineArm(p, s, ch), avail)
  {
    hide AddDigit, BodyRun;
    NoBodyRun(s);
  }

  lemma NoBodyRun(s: StatusLineState)
    ensures !BodyRun(StatusLine(s))
  {
  }

  lemma UrlShape(p: Parser, s: UrlState, ch: char, avail: nat)
    requires p.state == Url(s)
    ensures Shape(p.state, UrlArm(p, s, ch), avail)
  {
    UrlGoesOn(s, ch);
    UrlGoesOn(ReqServerStart, ch);
  }

  lemma VersionShape(p: Parser, s: VersionState, ch: char, avail: nat)
    requires p.state == Version(s)
    ensures Shape(p.state, VersionArm(p, s, ch), avail)
  {
    hide AddDigit;
  }

  lemma HeaderShape(p: Parser, s: HeaderLineState, ch: char, avail: nat)
    requires p.state == Header(s)
    ensures Shape(p.state, HeaderArm(p, s, ch), avail)
  {
    match s
    case HeaderFieldStart => FieldShape(p, ch, avail);
    case HeaderField => FieldShape(p, ch, avail);
    case HeaderValue => ValueShape(p, ch, avail);
    case _ =>
  }

  lemma FieldShape(p: Parser, ch: char, avail: nat)
    ensures p.state == Header(HeaderFieldStart) ==> Shape(p.state, FieldStartArm(p, ch), avail)
    ensures p.state == Header(HeaderField) ==> Shape(p.state, FieldArm(p, ch), avail)
  {
    MatchersKeepState(p, ch);
  }

  lemma ValueShape(p: Parser, ch: char, avail: nat)
    requires p.state == Header(HeaderValue)
    ensures Shape(p.state, ValueArm(p, ch), avail)
  {
    MatchersKeepState(p, ch);
  }

  lemma MatchersKeepState(p: Parser, ch: char)
    ensures var m := MatchFieldByte(p, ch); m.Some? ==> m.value.state == p.state
    ensures var m := MatchValueByte(p, ch); m.Some? ==> m.value.state == p.state
  {
  }

  lemma ChunkShape(p: Parser, s: ChunkState, ch: char, avail: nat)
    requires p.state == Chunk(s) && avail > 0
    ensures Shape(p.state, ChunkArm(p, s, ch, avail), avail)
  {
  }

  /** The marks after an arm's callback, for where p goes next. */
  predicate MarksGoOn(a: Act, marks: Marks, i: nat, n: nat)
    requires a.take > 0
  {
    a.next.Fail? || a.next.Abort? ||
    var next := i + a.take - if a.next.andThen.Repeat? then 1 else 0;
    MarksFit(a.p.state, Unmark(a.next, SetMark(marks, a.mark, i)), next, next == n)
  }

  lemma ShapeKeepsMarks(s: State, a: Act, marks: Marks, i: nat, n: nat)
    requires i < n && MarksFit(s, marks, i, false) && Shape(s, a, n - i) && a.take > 0
    ensures MarksGoOn(a, marks, i, n)
  {
  }

  /** Every arm leaves the marks as the next state wants them. */
  lemma MarksKept(p: Parser, marks: Marks, ch: char, i: nat, n: nat)
    requires i < n && MarksFit(p.state, marks, i, false)
    ensures MarksGoOn(Arm(p, ch, n - i), marks, i, n)
  {
    ArmShape(p, ch, n - i);
    ShapeKeepsMarks(p.state, Arm(p, ch, n - i), marks, i, n);
  }

  /** The callback after an arm keeps what the arm has left. */
  lemma AnswerGood(a: Act, e: Option<Event>, r: Reply)
    requires !a.next.Fail? && !a.next.Abort? && a.p.errno == OK && Good(a.p) && Settled(a)
    requires e.Some? ==> !a.next.Quiet?
    requires e.Some? && e.value.HeadersComplete? ==> a.next.Notify? && a.next.event.HeadersComplete?
    ensures var q := if e.Some? then AfterCall(a.p, e.value, r) else a.p;
            if q.errno == OK && a.next.andThen.Repeat? then Looking(q) else Resting(q)
  {
    hide Good;
    if e.Some? {
      AfterCallGood(a.p, e.value, r);
    }
  }

  predicate TurnGood(u: Turn, n: nat) {
    match u.verdict
    case Stop(how) =>
      && Inv(u.p) && how != Aborted && how != AllRead
      && (u.p.errno == OK ==> how == UpgradeExit)
      && (how == ErrorExit ==> u.p.errno != Paused)
      && (how == UpgradeExit ==>
            u.p.upgrade && u.trace != [] && u.trace[|u.trace| - 1] == MessageComplete)
      && u.p.nread <= HTTP_MAX_HEADER_SIZE
    case OnSame => u.p.errno == OK && Looking(u.p) && MarksFit(u.p.state, u.marks, u.i, false)
    case OnNext => u.p.errno == OK && Resting(u.p) && MarksFit(u.p.state, u.marks, u.i, u.i == n)
  }

  lemma FinishGood(a: Act, marks: Marks, data: string, i: nat, on: Callbacks, trace: seq<Event>)
    requires MarksWithin(marks, i) && 0 < a.take && i + a.take <= |data|
    requires a.p.errno == OK && LeavesGood(a) && MarksGoOn(a, marks, i, |data|)
    requires a.p.nread <= HTTP_MAX_HEADER_SIZE
    ensures TurnGood(Finish(a, marks, data, i, on, trace), |data|)
  {
    hide Good, MarksFit, Unmark;
    if !Fails(a.next) {
      var e := Call(a.next, SetMark(marks, a.mark, i), data, i + a.take - 1);
      AnswerGood(a, e, on(Told(trace, e)));
    }
  }

  /** What the loop keeps from one pass through the switch to the next. */
  lemma PassGood(p: Parser, marks: Marks, data: string, i: nat, on: Callbacks, trace: seq<Event>)
    requires i < |data| && p.errno == OK && Looking(p) && MarksFit(p.state, marks, i, false)
    ensures TurnGood(Pass(p, marks, data, i, on, trace), |data|)
  {
    hide Arm;
    assert p.nread <= HTTP_MAX_HEADER_SIZE;
    ArmGood(p, data[i], |data| - i);
    MarksKept(p, marks, data[i], i, |data|);
    FinishGood(Arm(p, data[i], |data| - i), marks, data, i, on, trace);
  }
}
