/**
 What every call of http_parser_execute keeps, whatever the application does: the invariant,
 the bounds on what is read and counted, and the ways a call can end.
 */
module Consumption {
  import opened Types
  import opened Arms
  import opened Execute
  import opened Invariant
  import opened Marking

  /** The end of a call that was given n bytes, n > 0. */
  predicate Ends(o: Outcome, n: nat) {
    && Inv(o.p) && o.ret <= n && o.p.nread <= HTTP_MAX_HEADER_SIZE + 1
    && match o.how
       case AllRead => o.p.errno == OK && o.ret == n
       case ErrorExit => o.p.errno != OK && o.p.errno != Paused
       case CallbackExit(_) => o.p.errno != OK
       case UpgradeExit =>
         o.p.upgrade && o.trace != [] && o.trace[|o.trace| - 1] == MessageComplete
       case Aborted => false
  }

  lemma {:induction false} FlushEnds(kinds: seq<Kind>, p: Parser, marks: Marks, data: string,
                                     on: Callbacks, trace: seq<Event>)
    requires MarksWithin(marks, |data|) && p.errno == OK && Resting(p)
    ensures Ends(FlushAll(kinds, p, marks, data, on, trace), |data|)
  {
    if kinds != [] && kinds[0] in marks {
      var e := Data(kinds[0], data[marks[kinds[0]]..]);
      var t := trace + [e];
      var q := AfterCall(p, e, on(t));
      AfterCallRests(p, e, on);
      hide AfterCall, Good;
      if q.errno == OK {
        FlushEnds(kinds[1..], q, marks - {kinds[0]}, data, on, t);
      }
    } else if kinds != [] {
      FlushEnds(kinds[1..], p, marks, data, on, trace);
    }
  }

  lemma {:induction false} LoopEnds(p: Parser, marks: Marks, data: string, i: nat,
                                    on: Callbacks, trace: seq<Event>)
    requires i <= |data| && MarksWithin(marks, i) && MarksFit(p.state, marks, i, i == |data|)
    requires p.errno == OK && Resting(p)
    ensures Ends(Loop(p, marks, data, i, on, trace), |data|)
    decreases |data| - i, Rank(p.state), 1
  {
    hide LookAt, FlushAll, MarksFit, Placed;
    if i == |data| {
      FlushEnds(FLUSH_ORDER, p, marks, data, on, trace);
    } else {
      TickLooks(p);
      if !Overflows(p) {
        LookEnds(Tick(p), marks, data, i, on, trace);
      }
    }
  }

  lemma {:induction false} LookEnds(p: Parser, marks: Marks, data: string, i: nat,
                                    on: Callbacks, trace: seq<Event>)
    requires i < |data| && MarksWithin(marks, i) && MarksFit(p.state, marks, i, false)
    requires p.errno == OK && Looking(p)
    ensures Ends(LookAt(p, marks, data, i, on, trace), |data|)
    decreases |data| - i, Rank(p.state), 0
  {
    hide Pass, MarksFit, Good, Loop;
    var u := Pass(p, marks, data, i, on, trace);
    PassGood(p, marks, data, i, on, trace);
    match u.verdict
    case OnSame => LookEnds(u.p, u.marks, data, u.i, on, u.trace);
    case OnNext => LoopEnds(u.p, u.marks, data, u.i, on, u.trace);
    case Stop(how) =>
  }

  /**
   Every call with data on a parser without an error: it keeps the invariant, no assert of the
   source fails, it reads at most what it is given, and it reads less without an error only
   when it leaves for an upgrade. The header count stays within its limit plus one.
   */
  lemma ExecEnds(p: Parser, data: string, on: Callbacks, trace: seq<Event>)
    requires data != [] && p.errno == OK && Resting(p)
    ensures Ends(Exec(p, data, on, trace), |data|)
  {
    hide Loop, Good;
    MarksStart(p.state, |data|);
    LoopEnds(p, FirstMarks(p.state), data, 0, on, trace);
  }

  lemma EofEnds(p: Parser, on: Callbacks, trace: seq<Event>)
    requires Inv(p) && p.errno == OK
    ensures Inv(AtEof(p, on, trace).p)
  {
  }

  /** Any call at all keeps the object invariant. */
  lemma ExecKeepsInv(p: Parser, data: string, on: Callbacks, trace: seq<Event>)
    requires Inv(p)
    ensures Inv(Exec(p, data, on, trace).p)
  {
    hide Loop, AtEof;
    if p.errno == OK {
      if data == [] {
        EofEnds(p, on, trace);
      } else {
        ExecEnds(p, data, on, trace);
      }
    }
  }

  lemma PauseRests(p: Parser, paused: bool)
    requires Resting(p)
    ensures Resting(Pause(p, paused))
  {
  }
}
