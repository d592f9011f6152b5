/**
 The parser object and its three operations, in the form of the source: the fields are
 updated in place, and Execute moves p along the buffer with five start-of-run marks.
 */
module HttpParser {
  import opened Types
  import opened Arms
  import opened Execute
  import opened Invariant
  import opened Marking

  /** The byte looked at again after a body is its first one; s_message_done takes any. */
  lemma StaleByte(p: Parser, ch: char, other: char, avail: nat)
    requires avail > 0 && (ch == other || p.state == Body(MessageDone))
    ensures Arm(p, ch, avail) == Arm(p, other, avail)
  {
  }

  lemma RepeatStays(p: Parser, ch: char, avail: nat)
    requires avail > 0
    ensures var a := Arm(p, ch, avail);
            Repeats(a.next) ==> a.take == 1 || a.p.state == Body(MessageDone)
  {
    hide Arm;
    ArmShape(p, ch, avail);
  }

  class HttpParser {
    var typ: ParserType
    var flags: Flags
    var state: State
    var headerState: HeaderState
    var index: nat
    var nread: nat
    var contentLength: nat
    var httpMajor: nat
    var httpMinor: nat
    var statusCode: nat
    var meth: Method
    var httpErrno: Errno
    var upgrade: bool

    /** The callbacks made so far, oldest first: all that the application gets to see. */
    var trace: seq<Event>

    function View(): Parser
      reads this
    {
      Parser(typ, flags, state, headerState, index, nread, contentLength,
             httpMajor, httpMinor, statusCode, meth, httpErrno, upgrade)
    }

    ghost predicate Valid()
      reads this
    {
      Inv(View())
    }

    /** http_parser_init */
    constructor (t: ParserType)
      ensures View() == Init(t) && trace == []
      ensures typ == t && httpErrno == OK && meth == DELETE && flags == NO_FLAGS && !upgrade
      ensures nread == contentLength == httpMajor == httpMinor == statusCode == index == 0
      ensures Valid()
    {
      typ, flags, headerState, index, nread, contentLength := t, NO_FLAGS, HGeneral, 0, 0, 0;
      state := if t == Request then Start(StartReq)
               else if t == Response then Start(StartRes)
               else Start(StartReqOrRes);
      httpMajor, httpMinor, statusCode, meth, httpErrno, upgrade := 0, 0, 0, DELETE, OK, false;
      trace := [];
    }

    /** The field assignments of one arm. */
    method Store(p: Parser)
      modifies this
      ensures View() == p && trace == old(trace)
    {
      typ, flags, state, headerState := p.typ, p.flags, p.state, p.headerState;
      index, nread, contentLength := p.index, p.nread, p.contentLength;
      httpMajor, httpMinor, statusCode, meth := p.major, p.minor, p.statusCode, p.meth;
      httpErrno, upgrade := p.errno, p.upgrade;
    }

    /** One callback: the application answers, and may pause the parser. */
    method CallBack(e: Event, on: Callbacks)
      requires httpErrno == OK
      modifies this
      ensures trace == old(trace) + [e]
      ensures View() == AfterCall(old(View()), e, on(trace))
    {
      trace := trace + [e];
      var r := on(trace);
      if r.pause {
        httpErrno := Paused;
      }
      if r.rc == 1 && e.HeadersComplete? {
        flags := flags.(skipBody := true);
      } else if r.rc != 0 {
        httpErrno := CallbackErrno(e);
      }
    }

    /** http_parser_execute on the first len bytes of data */
    method Execute(data: array<char>, len: nat, on: Callbacks) returns (n: nat)
      requires Valid()
      requires len <= data.Length
      modifies this
      ensures Valid()
      ensures Outcomes(Exec(old(View()), data[..len], on, old(trace)), n)
    {
      if httpErrno != OK {
        return 0;
      }
      if len == 0 {
        n := ExecuteEof(on);
        return;
      }
      hide Good, MarksFit, LookAt, FlushAll, Tick, Overflows;
      ghost var s := data[..len];
      ghost var o := Exec(View(), s, on, trace);
      var marks: Marks := FirstMarks(state);
      MarksStart(state, len);
      var p := 0;
      while p != len
        invariant p <= len && httpErrno == OK && Resting(View()) && MarksWithin(marks, p)
        invariant MarksFit(state, marks, p, p == len)
        invariant o == Loop(View(), marks, s, p, on, trace)
        decreases len - p
      {
        TickLooks(View());
        var over := CountByte();
        if over {
          return p;
        }
        var leave;
        p, marks, leave, n := ExecuteByte(data, len, p, marks, on, o);
        if leave {
          return;
        }
      }
      OneMark(state, marks, len);
      assert |marks| <= 1;
      n := FlushMarks(data, len, marks, on);
    }

    /** The count of header bytes, and the limit on it. */
    method CountByte() returns (over: bool)
      modifies this
      ensures over == Overflows(old(View())) && trace == old(trace)
      ensures View() == if over then Tick(old(View())).(errno := HeaderOverflow) else Tick(old(View()))
    {
      over := false;
      if ParsingHeader(state) {
        nread := (nread + 1) % 0x1_0000_0000;
        if nread > HTTP_MAX_HEADER_SIZE {
          httpErrno := HeaderOverflow;
          over := true;
        }
      }
    }

    /** What the caller of Execute finds: the fields, the callbacks made, the count returned. */
    ghost predicate Outcomes(o: Outcome, n: nat)
      reads this
    {
      View() == o.p && trace == o.trace && n == o.ret
    }

    /**
     The switch for the byte at `from`, until it is consumed: reexecute_byte and the `goto`s
     to it. `leave` says that Execute has to return n.
     */
    method ExecuteByte(data: array<char>, len: nat, from: nat, before: Marks,
                       on: Callbacks, ghost o: Outcome)
      returns (p: nat, marks: Marks, leave: bool, n: nat)
      requires from < len <= data.Length
      requires httpErrno == OK && Looking(View())
      requires MarksWithin(before, from) && MarksFit(state, before, from, false)
      requires o == LookAt(View(), before, data[..len], from, on, trace)
      modifies this
      ensures Valid()
      ensures leave ==> Outcomes(o, n)
      ensures !leave ==>
                && from < p <= len && httpErrno == OK && Resting(View())
                && MarksWithin(marks, p) && MarksFit(state, marks, p, p == len)
                && o == Loop(View(), marks, data[..len], p, on, trace)
    {
      hide Good, MarksFit, Pass;
      var ch := data[from];
      var v: Verdict := OnSame;
      p, marks, leave, n := from, before, false, 0;
      while v == OnSame
        invariant from <= p <= len && httpErrno == OK && MarksWithin(marks, p)
        invariant v != OnSame ==> v == OnNext
        invariant v == OnSame ==> p < len && Looking(View()) && MarksFit(state, marks, p, false)
        invariant v == OnSame ==> ch == data[p] || state == Body(MessageDone)
        invariant v == OnSame ==> o == LookAt(View(), marks, data[..len], p, on, trace)
        invariant v == OnNext ==> from < p && Resting(View()) && MarksFit(state, marks, p, p == len)
        invariant v == OnNext ==> o == Loop(View(), marks, data[..len], p, on, trace)
        decreases v == OnSame, Rank(state)
      {
        PassGood(View(), marks, data[..len], p, on, trace);
        p, marks, v := ExecuteArm(data, len, p, ch, marks, on);
        if v.Stop? {
          leave, n := true, p;
          return;
        }
      }
    }

    /** One arm of the switch with its mark and its callback; ch is the byte it looks at. */
    method ExecuteArm(data: array<char>, len: nat, from: nat, ch: char, before: Marks, on: Callbacks)
      returns (p: nat, marks: Marks, v: Verdict)
      requires from < len <= data.Length && httpErrno == OK
      requires ch == data[from] || state == Body(MessageDone)
      requires MarksWithin(before, from)
      modifies this
      ensures var u := Pass(old(View()), before, data[..len], from, on, old(trace));
              View() == u.p && trace == u.trace && marks == u.marks && p == u.i && v == u.verdict
      ensures v == OnSame ==> p == from || state == Body(MessageDone)
    {
      hide Arm, Answered, Call, Told, Unmark;
      ghost var s := data[..len];
      RepeatStays(View(), ch, len - from);
      StaleByte(View(), ch, data[from], len - from);
      var a := Arm(View(), ch, len - from);
      ghost var u := Finish(a, before, s, from, on, trace);
      assert u == Pass(View(), before, s, from, on, trace);
      Store(a.p);
      marks := SetMark(before, a.mark, from);
      p := from + a.take - 1;
      if a.next.Abort? {
        v := Stop(Aborted);
        return;
      }
      if a.next.Fail? {
        httpErrno := a.next.errno;
        v := Stop(ErrorExit);
        return;
      }
      MakeCall(a.next, marks, data, len, p, on);
      marks := Unmark(a.next, marks);
      if !a.next.andThen.Repeat? {
        p := p + 1;
      }
      v := if a.next.andThen.Exit? then Stop(UpgradeExit)
           else if httpErrno != OK then Stop(CallbackExit(a.next.andThen.Repeat?))
           else if a.next.andThen.Repeat? then OnSame
           else OnNext;
    }

    /** The callback of an arm: CALLBACK_NOTIFY, or CALLBACK_DATA if the mark is set. */
    method MakeCall(next: Next, marks: Marks, data: array<char>, len: nat, p: nat, on: Callbacks)
      requires p < len <= data.Length && httpErrno == OK && MarksWithin(marks, p)
      modifies this
      ensures var e := Call(next, marks, data[..len], p);
              trace == Told(old(trace), e) && View() == Answered(old(View()), e, on, trace)
    {
      hide AfterCall;
      if next.Notify? {
        CallBack(next.event, on);
      } else if next.Flush? && next.kind in marks {
        var end := if next.inclusive then p + 1 else p;
        assert data[marks[next.kind]..end] == data[..len][marks[next.kind]..end];
        CallBack(Data(next.kind, data[marks[next.kind]..end]), on);
      }
    }

    /** After the last byte: the data callbacks for the marks that are left. */
    method FlushMarks(data: array<char>, len: nat, left: Marks, on: Callbacks) returns (n: nat)
      requires len <= data.Length && MarksWithin(left, len)
      requires httpErrno == OK && Resting(View())
      modifies this
      ensures Valid()
      ensures Outcomes(FlushAll(FLUSH_ORDER, old(View()), left, data[..len], on, old(trace)), n)
    {
      hide Good, AfterCall;
      var marks := left;
      ghost var o := FlushAll(FLUSH_ORDER, View(), left, data[..len], on, trace);
      for k := 0 to |FLUSH_ORDER|
        invariant httpErrno == OK && Resting(View()) && MarksWithin(marks, len)
        invariant o == FlushAll(FLUSH_ORDER[k..], View(), marks, data[..len], on, trace)
      {
        var kind := FLUSH_ORDER[k];
        assert FLUSH_ORDER[k..][1..] == FLUSH_ORDER[k + 1..];
        if kind in marks {
          assert data[marks[kind]..len] == data[..len][marks[kind]..];
          AfterCallRests(View(), Data(kind, data[marks[kind]..len]), on);
          CallBack(Data(kind, data[marks[kind]..len]), on);
          if httpErrno != OK {
            return len;
          }
          marks := marks - {kind};
        }
      }
      n := len;
    }

    /** The call with len == 0: the stream has ended. */
    method ExecuteEof(on: Callbacks) returns (n: nat)
      requires Valid() && httpErrno == OK
      modifies this
      ensures Valid()
      ensures Outcomes(AtEof(old(View()), on, old(trace)), n)
    {
      match state
      case Body(BodyIdentityEof) =>
        CallBack(MessageComplete, on);
        n := 0;
      case Start(Dead) => n := 0;
      case Start(StartReqOrRes) => n := 0;
      case Start(StartRes) => n := 0;
      case Start(StartReq) => n := 0;
      case _ =>
        httpErrno := InvalidEofState;
        n := 1;
    }

    /** http_parser_pause */
    method SetPaused(paused: bool)
      requires Valid()
      modifies this
      ensures Valid() && View() == Pause(old(View()), paused) && trace == old(trace)
    {
      if httpErrno == OK || httpErrno == Paused {
        httpErrno := if paused then Paused else OK;
      }
    }
  }
}
