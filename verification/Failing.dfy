/**
 Callbacks that report an error. The parser stops there, and up to there it has done all that it
 does for an application that does not report it.
 */
module Failing {
  import opened Types
  import opened Arms
  import opened Execute
  import opened Invariant
  import opened Marking
  import opened Reference
  import opened Bridge
  import opened Refinement

  /** The answer is an error: not 0, nor the 1 that asks for a body to be skipped. */
  predicate Refuses(e: Event, r: Reply) {
    r.rc != 0 && !(e.HeadersComplete? && r.rc == 1)
  }

  /** `on` answers as `patient` does, or reports an error. */
  ghost predicate Follows(on: Callbacks, patient: Callbacks) {
    forall t :: t != [] ==> FollowsAt(on, patient, t)
  }

  predicate FollowsAt(on: Callbacks, patient: Callbacks, t: seq<Event>)
    requires t != []
  {
    on(t) == patient(t) || Refuses(t[|t| - 1], on(t))
  }

  /** Each callback has an errno of its own. */
  predicate Blames(n: Errno, e: Event) {
    if e.MessageBegin? then n == CbMessageBegin
    else if e.HeadersComplete? then n == CbHeadersComplete
    else if e.MessageComplete? then n == CbMessageComplete
    else if e.kind == KUrl then n == CbUrl
    else if e.kind == KStatus then n == CbStatus
    else if e.kind == KField then n == CbHeaderField
    else if e.kind == KValue then n == CbHeaderValue
    else n == CbBody
  }

  /** The callbacks t end with one that reports an error, and q has it in errno. */
  predicate RefusedIn(on: Callbacks, t: seq<Event>, q: Parser) {
    t != [] && Refuses(t[|t| - 1], on(t)) && Blames(q.errno, t[|t| - 1])
  }

  lemma RefusalSet(p: Parser, e: Event, r: Reply)
    requires Refuses(e, r)
    ensures Blames(AfterCall(p, e, r).errno, e) && AfterCall(p, e, r).errno != OK
  {
  }

  /** o ends at a refusal, with the callbacks that s begins with. */
  predicate StopsIn(on: Callbacks, o: Outcome, s: Outcome) {
    o.trace <= s.trace && RefusedIn(on, o.trace, o.p) && (o.how.CallbackExit? || o.how == UpgradeExit)
  }

  predicate SameOrStops(on: Callbacks, o: Outcome, s: Outcome) {
    o == s || StopsIn(on, o, s)
  }

  // ----- callbacks are only added

  lemma {:induction false} FlushGrows(kinds: seq<Kind>, p: Parser, marks: Marks, data: string,
                                      on: Callbacks, trace: seq<Event>)
    requires MarksWithin(marks, |data|)
    ensures trace <= FlushAll(kinds, p, marks, data, on, trace).trace
  {
    if kinds != [] {
      if kinds[0] in marks {
        var e := Data(kinds[0], data[marks[kinds[0]]..]);
        FlushGrows(kinds[1..], AfterCall(p, e, on(trace + [e])), marks - {kinds[0]}, data, on, trace + [e]);
      } else {
        FlushGrows(kinds[1..], p, marks, data, on, trace);
      }
    }
  }

  lemma {:induction false} LoopGrows(p: Parser, marks: Marks, data: string, i: nat, on: Callbacks, trace: seq<Event>)
    requires i <= |data| && MarksWithin(marks, i)
    ensures trace <= Loop(p, marks, data, i, on, trace).trace
    decreases |data| - i, Rank(p.state), 1
  {
    hide LookAt, FlushAll, Overflows;
    if i == |data| {
      FlushGrows(FLUSH_ORDER, p, marks, data, on, trace);
    } else if !Overflows(p) {
      LookGrows(Tick(p), marks, data, i, on, trace);
    }
  }

  lemma {:induction false} LookGrows(p: Parser, marks: Marks, data: string, i: nat, on: Callbacks, trace: seq<Event>)
    requires i < |data| && MarksWithin(marks, i)
    ensures trace <= LookAt(p, marks, data, i, on, trace).trace
    decreases |data| - i, Rank(p.state), 0
  {
    hide Loop, Pass;
    var u := Pass(p, marks, data, i, on, trace);
    PassGrows(p, marks, data, i, on, trace);
    match u.verdict
    case OnSame => LookGrows(u.p, u.marks, data, u.i, on, u.trace);
    case OnNext => LoopGrows(u.p, u.marks, data, u.i, on, u.trace);
    case Stop(how) =>
  }

  lemma PassGrows(p: Parser, marks: Marks, data: string, i: nat, on: Callbacks, trace: seq<Event>)
    requires i < |data| && MarksWithin(marks, i)
    ensures trace <= Pass(p, marks, data, i, on, trace).trace
  {
    hide Arm, Call, AfterCall;
  }

  lemma ExecGrows(p: Parser, data: string, on: Callbacks, trace: seq<Event>)
    ensures trace <= Exec(p, data, on, trace).trace
  {
    hide Loop;
    if p.errno == OK && data != [] {
      LoopGrows(p, FirstMarks(p.state), data, 0, on, trace);
    }
  }

  lemma {:induction false} CallsGrow(p: Parser, pieces: seq<string>, on: Callbacks, trace: seq<Event>)
    ensures trace <= Calls(p, pieces, on, trace).trace
    decreases |pieces|
  {
    hide Exec;
    if pieces != [] {
      var o := Exec(p, pieces[0], on, trace);
      ExecGrows(p, pieces[0], on, trace);
      if o.how == AllRead {
        CallsGrow(o.p, pieces[1..], on, o.trace);
      }
    }
  }

  // ----- the two applications side by side

  predicate TurnStops(on: Callbacks, u: Turn, v: Turn) {
    && u.trace == v.trace && RefusedIn(on, u.trace, u.p)
    && u.verdict.Stop? && (u.verdict.how.CallbackExit? || u.verdict.how == UpgradeExit)
  }

  lemma PassFollows(p: Parser, marks: Marks, data: string, i: nat, on: Callbacks, patient: Callbacks, trace: seq<Event>)
    requires i < |data| && MarksWithin(marks, i) && Follows(on, patient)
    ensures var u, v := Pass(p, marks, data, i, on, trace), Pass(p, marks, data, i, patient, trace);
            u == v || TurnStops(on, u, v)
  {
    hide Arm, Call, AfterCall;
    var a := Arm(p, data[i], |data| - i);
    if !a.next.Fail? && !a.next.Abort? {
      var e := Call(a.next, SetMark(marks, a.mark, i), data, i + a.take - 1);
      if e.Some? {
        var t := trace + [e.value];
        assert FollowsAt(on, patient, t) && t[|t| - 1] == e.value;
        if on(t) != patient(t) {
          RefusalSet(a.p, e.value, on(t));
        }
      }
    }
  }

  lemma {:induction false} FlushFollows(kinds: seq<Kind>, p: Parser, marks: Marks, data: string,
                                        on: Callbacks, patient: Callbacks, trace: seq<Event>)
    requires MarksWithin(marks, |data|) && Follows(on, patient)
    ensures SameOrStops(on, FlushAll(kinds, p, marks, data, on, trace),
                        FlushAll(kinds, p, marks, data, patient, trace))
  {
    hide Follows;
    if kinds != [] {
      if kinds[0] in marks {
        var e := Data(kinds[0], data[marks[kinds[0]]..]);
        var t := trace + [e];
        FollowsHere(on, patient, t);
        if on(t) == patient(t) {
          FlushFollows(kinds[1..], AfterCall(p, e, on(t)), marks - {kinds[0]}, data, on, patient, t);
        } else {
          RefusalSet(p, e, on(t));
          FlushGrows(kinds[1..], AfterCall(p, e, patient(t)), marks - {kinds[0]}, data, patient, t);
        }
      } else {
        FlushFollows(kinds[1..], p, marks, data, on, patient, trace);
      }
    }
  }

  lemma FollowsHere(on: Callbacks, patient: Callbacks, t: seq<Event>)
    requires t != [] && Follows(on, patient)
    ensures FollowsAt(on, patient, t)
  {
  }

  lemma {:induction false} LoopFollows(p: Parser, marks: Marks, data: string, i: nat,
                                       on: Callbacks, patient: Callbacks, trace: seq<Event>)
    requires i <= |data| && MarksWithin(marks, i) && Follows(on, patient)
    ensures SameOrStops(on, Loop(p, marks, data, i, on, trace), Loop(p, marks, data, i, patient, trace))
    decreases |data| - i, Rank(p.state), 1
  {
    hide LookAt, FlushAll, Overflows, Follows, StopsIn;
    if i == |data| {
      FlushFollows(FLUSH_ORDER, p, marks, data, on, patient, trace);
    } else if !Overflows(p) {
      LookFollows(Tick(p), marks, data, i, on, patient, trace);
    }
  }

  lemma {:induction false} LookFollows(p: Parser, marks: Marks, data: string, i: nat,
                                       on: Callbacks, patient: Callbacks, trace: seq<Event>)
    requires i < |data| && MarksWithin(marks, i) && Follows(on, patient)
    ensures SameOrStops(on, LookAt(p, marks, data, i, on, trace), LookAt(p, marks, data, i, patient, trace))
    decreases |data| - i, Rank(p.state), 0
  {
    hide Loop, Pass, Follows, RefusedIn;
    var u, v := Pass(p, marks, data, i, on, trace), Pass(p, marks, data, i, patient, trace);
    PassFollows(p, marks, data, i, on, patient, trace);
    if u == v {
      match u.verdict
      case OnSame => LookFollows(u.p, u.marks, data, u.i, on, patient, u.trace);
      case OnNext => LoopFollows(u.p, u.marks, data, u.i, on, patient, u.trace);
      case Stop(how) =>
    } else {
      match v.verdict
      case OnSame => LookGrows(v.p, v.marks, data, v.i, patient, v.trace);
      case OnNext => LoopGrows(v.p, v.marks, data, v.i, patient, v.trace);
      case Stop(how) =>
    }
  }

  lemma EofFollows(p: Parser, on: Callbacks, patient: Callbacks, trace: seq<Event>)
    requires Follows(on, patient)
    ensures SameOrStops(on, AtEof(p, on, trace), AtEof(p, patient, trace))
  {
    hide Follows, AfterCall;
    var t := trace + [MessageComplete];
    FollowsHere(on, patient, t);
    if on(t) != patient(t) {
      RefusalSet(p, MessageComplete, on(t));
    }
  }

  lemma ExecFollows(p: Parser, data: string, on: Callbacks, patient: Callbacks, trace: seq<Event>)
    requires Follows(on, patient)
    ensures SameOrStops(on, Exec(p, data, on, trace), Exec(p, data, patient, trace))
  {
    hide Loop, AtEof, Follows, StopsIn;
    if p.errno == OK {
      if data == [] {
        EofFollows(p, on, patient, trace);
      } else {
        LoopFollows(p, FirstMarks(p.state), data, 0, on, patient, trace);
      }
    }
  }

  lemma {:induction false} CallsFollow(p: Parser, pieces: seq<string>, on: Callbacks, patient: Callbacks,
                                       trace: seq<Event>)
    requires Follows(on, patient)
    ensures SameOrStops(on, Calls(p, pieces, on, trace), Calls(p, pieces, patient, trace))
    decreases |pieces|
  {
    hide Exec, Follows, RefusedIn;
    if pieces != [] {
      var o, s := Exec(p, pieces[0], on, trace), Exec(p, pieces[0], patient, trace);
      ExecFollows(p, pieces[0], on, patient, trace);
      if o == s && o.how == AllRead {
        CallsFollow(o.p, pieces[1..], on, patient, o.trace);
      } else if s.how == AllRead {
        CallsGrow(s.p, pieces[1..], patient, s.trace);
      }
    }
  }

  // ----- the record

  /** `got` is a beginning of `full`; its last run may be delivered in part. */
  predicate Beginning(got: seq<Event>, full: seq<Event>) {
    got <= full ||
    (var n := |got| - 1;
     && 0 <= n < |full| && got[..n] == full[..n] && got[n].Data? && full[n].Data?
     && got[n].kind == full[n].kind && got[n].bytes <= full[n].bytes)
  }

  lemma EmitGoesOn(got: seq<Event>, full: seq<Event>, e: Event)
    requires Beginning(got, full)
    ensures Beginning(got, Emit(full, e))
  {
    var more := Emit(full, e);
    if got <= full && |got| < |full| {
      assert got <= more;
    } else if got != full {
      var n := |got| - 1;
      assert more[..n] == full[..n];
      assert full[n].bytes <= more[n].bytes;
    }
  }

  lemma {:induction false} JoinedBeginning(t: seq<Event>, u: seq<Event>)
    requires t <= u
    ensures Beginning(Joined(t), Joined(u))
    decreases |u|
  {
    if |t| < |u| {
      hide Emit, Beginning;
      var front := u[..|u| - 1];
      assert t <= front;
      JoinedBeginning(t, front);
      EmitGoesOn(Joined(t), Joined(front), u[|u| - 1]);
    } else {
      assert t == u;
    }
  }

  /**
   An error from a callback ends the calls with the errno that Blames lists for it. What has been delivered
   till then is a beginning of what the reference makes of the input when no error is reported;
   if none is, all is as it says.
   */
  lemma FailureStops(r: Rules, p: Parser, pieces: seq<string>, on: Callbacks, patient: Callbacks, trace: seq<Event>)
    requires r.counting && !r.pauses && Agrees(patient, r) && Follows(on, patient) && p.errno == OK && Resting(p)
    requires pieces != [] && forall s :: s in pieces ==> s != ""
    ensures var o := Calls(p, pieces, on, trace);
            var d := Feed(r, Begin(r, p, trace), Concat(pieces));
            && Beginning(Joined(o.trace), d.trace)
            && (Is(r, d, o) || (RefusedIn(on, o.trace, o.p) && (o.how.CallbackExit? || o.how == UpgradeExit)))
  {
    hide Calls, Feed, Resting, Joined, Emit, Agrees, Follows, RefusedIn, Beginning;
    var o, s := Calls(p, pieces, on, trace), Calls(p, pieces, patient, trace);
    var d := Feed(r, Begin(r, p, trace), Concat(pieces));
    CallsFollow(p, pieces, on, patient, trace);
    CallsIs(r, p, pieces, patient, trace);
    JoinedBeginning(o.trace, s.trace);
    if d.trace != Joined(s.trace) {
      var k, bytes :| d.trace == Emit(Joined(s.trace), Data(k, bytes));
      EmitGoesOn(Joined(o.trace), Joined(s.trace), Data(k, bytes));
    }
  }
}
