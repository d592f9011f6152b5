/**
 What one call of http_parser_execute does, as a function of the parser's value, the
 callbacks made so far, the buffer and the application's replies. The class HttpParser runs
 the loop itself and is proved against this function.
 */
module Execute {
  import opened Types
  import opened UrlChar
  import opened Arms

  /**
   How a call came to its end. A callback that fails or pauses ends it after the byte it is made
   for, or before: then the byte at the returned offset has been looked at, but is unread.
   */
  datatype How = AllRead | ErrorExit | CallbackExit(unread: bool) | UpgradeExit | Aborted

  /** The marks set so far: where in the buffer the pending run of each kind starts. */
  type Marks = map<Kind, nat>

  predicate MarksWithin(marks: Marks, i: nat) {
    forall k :: k in marks ==> marks[k] <= i
  }

  datatype Outcome = Outcome(p: Parser, trace: seq<Event>, ret: nat, how: How, marks: Marks)

  /** The parser after a callback that was handed event e: SET_ERRNO, F_SKIPBODY. */
  function AfterCall(p: Parser, e: Event, r: Reply): (q: Parser)
    ensures q.state == p.state
  {
    var paused := if r.pause then p.(errno := Paused) else p;
    if r.rc == 0 then paused
    else if e.HeadersComplete? && r.rc == 1 then
      paused.(flags := p.flags.(skipBody := true))
    else p.(errno := CallbackErrno(e))
  }

  /** The count of header bytes, before the switch looks at a byte for the first time. */
  function Tick(p: Parser): Parser {
    if ParsingHeader(p.state) then p.(nread := (p.nread + 1) % 0x1_0000_0000) else p
  }

  predicate Overflows(p: Parser) {
    ParsingHeader(p.state) && Tick(p).nread > HTTP_MAX_HEADER_SIZE
  }

  function SetMark(marks: Marks, mark: Option<Kind>, i: nat): Marks {
    if mark.Some? && mark.value !in marks then marks[mark.value := i] else marks
  }

  /** The callback an arm makes, given the marks and the place j the arm has moved p to. */
  function Call(next: Next, marks: Marks, data: string, j: nat): Option<Event>
    requires j < |data| && MarksWithin(marks, j)
  {
    match next
    case Notify(e, _) => Some(e)
    case Flush(k, inclusive, _) =>
      if k in marks then Some(Data(k, data[marks[k]..if inclusive then j + 1 else j])) else None
    case _ => None
  }

  function Unmark(next: Next, marks: Marks): Marks {
    if next.Flush? then marks - {next.kind} else marks
  }

  /** The loop of http_parser_execute from byte i on. */
  function Loop(p: Parser, marks: Marks, data: string, i: nat, on: Callbacks, trace: seq<Event>): Outcome
    requires i <= |data| && MarksWithin(marks, i)
    decreases |data| - i, Rank(p.state), 1
  {
    if i == |data| then FlushAll(FLUSH_ORDER, p, marks, data, on, trace)
    else if Overflows(p) then
      Outcome(Tick(p).(errno := HeaderOverflow), trace, i, ErrorExit, marks)
    else LookAt(Tick(p), marks, data, i, on, trace)
  }

  /** reexecute_byte: the switch for byte i, until the byte is consumed. */
  function LookAt(p: Parser, marks: Marks, data: string, i: nat, on: Callbacks, trace: seq<Event>): Outcome
    requires i < |data| && MarksWithin(marks, i)
    decreases |data| - i, Rank(p.state), 0
  {
    var u := Pass(p, marks, data, i, on, trace);
    match u.verdict
    case Stop(how) => Outcome(u.p, u.trace, u.i, how, u.marks)
    case OnNext => Loop(u.p, u.marks, data, u.i, on, u.trace)
    case OnSame => LookAt(u.p, u.marks, data, u.i, on, u.trace)
  }

  datatype Verdict = OnNext | OnSame | Stop(how: How)

  /** The byte that a pass ends at has been looked at, and will be again. */
  predicate Unread(v: Verdict) {
    v.OnSame? || v == Stop(CallbackExit(true))
  }

  /** After one pass: the parser, the callbacks so far, the marks, and the byte p points at. */
  datatype Turn = Turn(p: Parser, trace: seq<Event>, marks: Marks, i: nat, verdict: Verdict)

  /** One pass through the switch, with its callback. */
  function Pass(p: Parser, marks: Marks, data: string, i: nat, on: Callbacks, trace: seq<Event>): (u: Turn)
    requires i < |data| && MarksWithin(marks, i)
    ensures i <= u.i <= |data| && MarksWithin(u.marks, u.i)
    ensures u.verdict.OnNext? ==> i < u.i
    ensures u.verdict.OnSame? ==> Rank(u.p.state) < Rank(p.state)
    ensures Unread(u.verdict) ==> u.i < |data|
  {
    Finish(Arm(p, data[i], |data| - i), marks, data, i, on, trace)
  }

  /** What follows the arm a of byte i: the mark, the callback, and where p goes. */
  function Finish(a: Act, marks: Marks, data: string, i: nat, on: Callbacks, trace: seq<Event>): (u: Turn)
    requires MarksWithin(marks, i) && 0 < a.take && i + a.take <= |data|
    ensures i <= u.i <= |data| && MarksWithin(u.marks, u.i)
    ensures u.verdict.OnNext? ==> i < u.i
    ensures u.verdict.OnSame? ==> Repeats(a.next) && u.p.state == a.p.state
    ensures Unread(u.verdict) ==> u.i < |data|
  {
    var j := i + a.take - 1;
    var m := SetMark(marks, a.mark, i);
    if a.next.Abort? then Turn(a.p, trace, m, j, Stop(Aborted))
    else if a.next.Fail? then Turn(a.p.(errno := a.next.errno), trace, m, j, Stop(ErrorExit))
    else
      var e := Call(a.next, m, data, j);
      var t := Told(trace, e);
      var q := Answered(a.p, e, on, t);
      Turn(q, t, Unmark(a.next, m), if a.next.andThen.Repeat? then j else j + 1,
           if a.next.andThen.Exit? then Stop(UpgradeExit)
           else if q.errno != OK then Stop(CallbackExit(a.next.andThen.Repeat?))
           else if a.next.andThen.Repeat? then OnSame
           else OnNext)
  }

  function Told(trace: seq<Event>, e: Option<Event>): seq<Event> {
    if e.Some? then trace + [e.value] else trace
  }

  /** The parser after the callback for e, if there is one; t is the trace with it. */
  function Answered(p: Parser, e: Option<Event>, on: Callbacks, t: seq<Event>): (q: Parser)
    ensures q.state == p.state
  {
    if e.Some? then AfterCall(p, e.value, on(t)) else p
  }

  const FLUSH_ORDER := [KField, KValue, KUrl, KBody, KStatus]

  /** After the last byte: the data callbacks for the marks that are left, in this order. */
  function FlushAll(kinds: seq<Kind>, p: Parser, marks: Marks, data: string,
                    on: Callbacks, trace: seq<Event>): Outcome
    requires MarksWithin(marks, |data|)
  {
    if kinds == [] then Outcome(p, trace, |data|, AllRead, marks)
    else if kinds[0] !in marks then FlushAll(kinds[1..], p, marks, data, on, trace)
    else
      var e := Data(kinds[0], data[marks[kinds[0]]..]);
      var t := trace + [e];
      var q := AfterCall(p, e, on(t));
      if q.errno != OK then Outcome(q, t, |data|, CallbackExit(false), marks - {kinds[0]})
      else FlushAll(kinds[1..], q, marks - {kinds[0]}, data, on, t)
  }

  /** The kind of data a state is in the middle of; its mark is set when a call begins. */
  function Held(s: State): Option<Kind> {
    if s.Url? && s.url != ReqSpacesBeforeUrl then Some(KUrl)
    else if s == StatusLine(ResStatus) then Some(KStatus)
    else if s == Header(HeaderField) then Some(KField)
    else if s == Header(HeaderValue) then Some(KValue)
    else None
  }

  function FirstMarks(s: State): (m: Marks) {
    if Held(s).Some? then map[Held(s).value := 0] else map[]
  }

  /** A call without data says that the stream has ended. */
  function AtEof(p: Parser, on: Callbacks, trace: seq<Event>): Outcome {
    match p.state
    case Body(BodyIdentityEof) =>
      var t := trace + [MessageComplete];
      var q := AfterCall(p, MessageComplete, on(t));
      Outcome(q, t, 0, if q.errno == OK then AllRead else CallbackExit(false), map[])
    case Start(Dead) => Outcome(p, trace, 0, AllRead, map[])
    case Start(StartReqOrRes) => Outcome(p, trace, 0, AllRead, map[])
    case Start(StartRes) => Outcome(p, trace, 0, AllRead, map[])
    case Start(StartReq) => Outcome(p, trace, 0, AllRead, map[])
    case _ => Outcome(p.(errno := InvalidEofState), trace, 1, ErrorExit, map[])
  }

  function Exec(p: Parser, data: string, on: Callbacks, trace: seq<Event>): Outcome {
    if p.errno != OK then Outcome(p, trace, 0, ErrorExit, map[])
    else if data == [] then AtEof(p, on, trace)
    else Loop(p, FirstMarks(p.state), data, 0, on, trace)
  }

  /** http_parser_pause; the source asserts that no error has been set. */
  function Pause(p: Parser, paused: bool): Parser {
    if p.errno == OK || p.errno == Paused then p.(errno := if paused then Paused else OK)
    else p
  }
}
