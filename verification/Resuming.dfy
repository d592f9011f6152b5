/**
 What pauses can change in the record: only whether the bytes of the run that a parse error ends
 are delivered, just as the cutting of the input can.
 */
module Resuming {
  import opened Types
  import opened Arms
  import opened Execute
  import opened Invariant
  import opened Marking
  import opened Consumption
  import opened Reference
  import opened Bridge
  import opened Refinement
  import opened Cutting
  import opened Pausing
  import opened PauseLimit

  // ----- a paused call does not depend on what comes after the byte it is paused at

  lemma {:induction false} LoopCut(p: Parser, marks: Marks, data: string, i: nat, n: nat,
                                   on: Callbacks, trace: seq<Event>)
    requires i <= |data| && MarksWithin(marks, i) && n <= |data|
    requires var o := Loop(p, marks, data, i, on, trace); o.how.CallbackExit? && o.ret < n
    ensures i <= n && Loop(p, marks, data[..n], i, on, trace) == Loop(p, marks, data, i, on, trace)
    decreases |data| - i, Rank(p.state), 1
  {
    hide LookAt, FlushAll;
    LoopForward(p, marks, data, i, on, trace);
    if i == |data| {
      FlushReturns(FLUSH_ORDER, p, marks, data, on, trace);
    } else {
      LookCut(Tick(p), marks, data, i, n, on, trace);
    }
  }

  lemma {:induction false} LookCut(p: Parser, marks: Marks, data: string, i: nat, n: nat,
                                   on: Callbacks, trace: seq<Event>)
    requires i < |data| && MarksWithin(marks, i) && n <= |data|
    requires var o := LookAt(p, marks, data, i, on, trace); o.how.CallbackExit? && o.ret < n
    ensures i < n && LookAt(p, marks, data[..n], i, on, trace) == LookAt(p, marks, data, i, on, trace)
    decreases |data| - i, Rank(p.state), 0
  {
    hide Loop, Pass;
    LookForward(p, marks, data, i, on, trace);
    var u := Pass(p, marks, data, i, on, trace);
    match u.verdict
    case OnSame =>
      LookForward(u.p, u.marks, data, u.i, on, u.trace);
      PassCut(p, marks, data, i, n, on, trace);
      LookCut(u.p, u.marks, data, u.i, n, on, u.trace);
    case OnNext =>
      LoopForward(u.p, u.marks, data, u.i, on, u.trace);
      PassCut(p, marks, data, i, n, on, trace);
      LoopCut(u.p, u.marks, data, u.i, n, on, u.trace);
    case Stop(how) =>
      PassCut(p, marks, data, i, n, on, trace);
  }

  lemma ExecCut(p: Parser, data: string, n: nat, on: Callbacks, trace: seq<Event>)
    requires n <= |data| && data != []
    requires var o := Exec(p, data, on, trace); o.how.CallbackExit? && o.ret < n
    ensures Exec(p, data[..n], on, trace) == Exec(p, data, on, trace)
  {
    hide Loop;
    if p.errno == OK {
      LoopCut(p, FirstMarks(p.state), data, 0, n, on, trace);
    }
  }

  // ----- the state before a byte, with and without a pause

  lemma {:induction false} RunningIsFine(r: Rules, c: Cfg, s: string)
    requires r.counting && c.stop == Running && c.p.errno == OK && Resting(c.p)
    ensures Feed(r, c, s).stop == Running ==> Feed(r, c, s).p.errno == OK
    decreases |s|
  {
    hide OnByte, Resting;
    if s != "" {
      var d := OnByte(r, c, s[0]);
      if Overflows(c.p) {
        LimitExceeded(r, c, s[0]);
      } else {
        NotAhead(r, c, s[0]);
      }
      if d.stop == Running {
        RunningIsFine(r, d, s[1..]);
      } else {
        FeedStopped(r, d, s[1..]);
      }
    }
  }

  lemma NotAhead(r: Rules, c: Cfg, b: char)
    requires r.counting && c.stop == Running && c.p.errno == OK && Resting(c.p) && !Overflows(c.p)
    ensures var d := OnByte(r, c, b); d.stop == Running ==> d.p.errno == OK && Resting(d.p)
  {
    hide OnByte, Resting;
    assert Ahead(c, c, 0);
    ByteAhead(r, c, c, b, 0);
  }

  /** The beginning of a run that does not meet the limit does not. */
  lemma PrefixFits(r: Rules, c: Cfg, a: string, b: string)
    requires r.counting && c.stop == Running && c.p.errno == OK && Resting(c.p)
    requires Feed(r, c, a + b).p.errno != HeaderOverflow
    ensures Feed(r, c, a).p.errno != HeaderOverflow
  {
    hide Feed, OnByte, Resting;
    FeedAppend(r, c, a, b);
    RunningIsFine(r, c, a);
    if Feed(r, c, a).stop != Running {
      FeedStopped(r, Feed(r, c, a), b);
    }
  }

  /** A call that is paused after k bytes, and what is left after it, seen by the reference at byte k + n. */
  lemma SameState(r: Rules, p: Parser, data: string, n: nat, on: Callbacks, trace: seq<Event>)
    requires r.counting && Agrees(on, r) && p.errno == OK && Resting(p) && data != []
    requires var o := Exec(p, data, on, trace);
             && o.how.CallbackExit? && 0 < n <= |data| - o.ret
             && Feed(r, Begin(r, Pause(o.p, false), o.trace), data[o.ret..]).p.errno != HeaderOverflow
    ensures var o := Exec(p, data, on, trace);
            RunBefore(r, Begin(r, p, trace), data, o.ret + n)
            <==> RunBefore(r, Begin(r, Pause(o.p, false), o.trace), data[o.ret..], n)
  {
    hide Exec, Resting, Feed, RunBefore, Looks, Pausing.Again, FeedOn;
    var o := Exec(p, data, on, trace);
    var s := data[..o.ret + n];
    var b, b' := Begin(r, p, trace), Begin(r, Pause(o.p, false), o.trace);
    ExecCut(p, data, o.ret + n, on, trace);
    ExecFeeds(r, p, s, on, trace);
    ExecEnds(p, s, on, trace);
    ExecCounts(p, s, on, trace);
    RestingCount(p);
    PauseRests(o.p, false);
    assert s[o.ret..] == data[o.ret..][..n];
    assert data[o.ret..] == s[o.ret..] + data[o.ret + n..];
    PrefixFits(r, b', s[o.ret..], data[o.ret + n..]);
    GoOnFeeds(r, Feed(r, b, s), o, s);
    RunBeforeIs(r, b, data, o.ret + n);
    RunBeforeIs(r, b', data[o.ret..], n);
  }

  // ----- the record

  /** The call is paused. */
  predicate PausedIn(p: Parser, o: Outcome, n: nat) {
    o.p.errno == Paused && p.errno == OK && o.ret <= n && o.how.CallbackExit?
  }

  /** The application has gone on, after a pause, just after n bytes. */
  predicate ResumedAt(p: Parser, data: string, on: Callbacks, trace: seq<Event>, n: nat)
    decreases |data|, Looks(p.state)
  {
    n == 0 ||
    (data != [] &&
     var o := Exec(p, data, on, trace);
     PausedIn(p, o, |data|) &&
     (ExecCounts(p, data, on, trace);
      o.ret <= n && ResumedAt(Pause(o.p, false), data[o.ret..], on, o.trace, n - o.ret)))
  }

  /** What the reference makes of the data, and of what a paused call has left. */
  lemma PausedFeeds(r: Rules, p: Parser, data: string, on: Callbacks, trace: seq<Event>)
    requires r.counting && Agrees(on, r) && p.errno == OK && Resting(p) && data != []
    requires Exec(p, data, on, trace).how.CallbackExit? && Drive(p, data, on, trace).p.errno != HeaderOverflow
    ensures var o := Exec(p, data, on, trace);
            && PausedIn(p, o, |data|) && Resting(Pause(o.p, false))
            && Drive(Pause(o.p, false), data[o.ret..], on, o.trace).p.errno != HeaderOverflow
            && Drive(p, data, on, trace).trace == Drive(Pause(o.p, false), data[o.ret..], on, o.trace).trace
            && (o.ret == 0 ==> Looks(Pause(o.p, false).state) < Looks(p.state))
            && var d := Feed(r, Begin(r, Pause(o.p, false), o.trace), data[o.ret..]);
               var e := Feed(r, Begin(r, p, trace), data);
               e.trace == d.trace && e.stop == d.stop && e.taken == o.ret + d.taken && d.p.errno != HeaderOverflow
  {
    hide Exec, Resting, Feed, Joined, Looks, Pausing.Again;
    var o := Exec(p, data, on, trace);
    ExecEnds(p, data, on, trace);
    ExecCounts(p, data, on, trace);
    ExecFeeds(r, p, data, on, trace);
    RestingCount(p);
    PauseRests(o.p, false);
    DriveIs(r, Pause(o.p, false), data[o.ret..], on, o.trace);
    GoOnFeeds(r, Feed(r, Begin(r, p, trace), data), o, data);
  }

  /**
   The record of a run with pauses, exactly: it is all of the reference's record unless an error
   comes in the middle of a run, and then if the application has gone on, after a pause, just
   before the byte of the error.
   */
  lemma {:induction false} DriveRecord(r: Rules, p: Parser, data: string, on: Callbacks, trace: seq<Event>)
    requires r.counting && Agrees(on, r) && p.errno == OK && Resting(p)
    requires Drive(p, data, on, trace).p.errno != HeaderOverflow
    ensures var b := Begin(r, p, trace);
            var d := Feed(r, b, data);
            d.trace == Joined(Drive(p, data, on, trace).trace)
            <==> (LosesRun(r, b, data) ==> ResumedAt(p, data, on, trace, d.taken))
    decreases |data|, Looks(p.state)
  {
    hide Exec, Resting, Feed, LosesRun, Joined, Looks, ResumedAt;
    var b := Begin(r, p, trace);
    if data == [] {
      NoBytesLeft(r, b);
    } else {
      var o := Exec(p, data, on, trace);
      if o.how.CallbackExit? {
        PausedFeeds(r, p, data, on, trace);
        hide Drive;
        var q, rest := Pause(o.p, false), data[o.ret..];
        DriveRecord(r, q, rest, on, o.trace);
        ResumedOn(p, data, on, trace, Feed(r, Begin(r, q, o.trace), rest).taken);
        LosesOn(r, p, data, on, trace);
      } else {
        NotPaused(p, data, on, trace);
        CallRecord(r, p, data, on, trace);
        if LosesRun(r, b, data) {
          LosesAfterOne(r, b, data);
          NotResumed(p, data, on, trace, Feed(r, b, data).taken);
        }
      }
    }
  }

  lemma NotPaused(p: Parser, data: string, on: Callbacks, trace: seq<Event>)
    requires data != [] && !Exec(p, data, on, trace).how.CallbackExit?
    ensures Drive(p, data, on, trace).trace == Exec(p, data, on, trace).trace
  {
    hide Exec, Looks;
  }

  lemma NoBytesLeft(r: Rules, c: Cfg)
    requires c.stop == Running
    ensures Feed(r, c, []) == c && !LosesRun(r, c, [])
  {
  }

  lemma ResumedOn(p: Parser, data: string, on: Callbacks, trace: seq<Event>, n: nat)
    requires data != [] && PausedIn(p, Exec(p, data, on, trace), |data|)
    ensures var o := Exec(p, data, on, trace);
            && ResumedAt(p, data, on, trace, o.ret)
            && (n > 0 ==> (ResumedAt(p, data, on, trace, o.ret + n)
                           <==> ResumedAt(Pause(o.p, false), data[o.ret..], on, o.trace, n)))
  {
    hide Exec, Looks;
    ExecCounts(p, data, on, trace);
  }

  lemma NotResumed(p: Parser, data: string, on: Callbacks, trace: seq<Event>, n: nat)
    requires n > 0 && !Exec(p, data, on, trace).how.CallbackExit?
    ensures !ResumedAt(p, data, on, trace, n)
  {
    hide Exec, Looks;
  }

  /** What is lost of the rest is lost of all, unless the rest begins with the error. */
  lemma LosesOn(r: Rules, p: Parser, data: string, on: Callbacks, trace: seq<Event>)
    requires r.counting && Agrees(on, r) && p.errno == OK && Resting(p) && data != []
    requires var o := Exec(p, data, on, trace);
             && o.how.CallbackExit? && o.ret <= |data| && Pause(o.p, false).errno == OK
             && Feed(r, Begin(r, Pause(o.p, false), o.trace), data[o.ret..]).p.errno != HeaderOverflow
             && Feed(r, Begin(r, p, trace), data).stop
                == Feed(r, Begin(r, Pause(o.p, false), o.trace), data[o.ret..]).stop
             && Feed(r, Begin(r, p, trace), data).taken
                == o.ret + Feed(r, Begin(r, Pause(o.p, false), o.trace), data[o.ret..]).taken
    ensures var o := Exec(p, data, on, trace);
            var b, rest := Begin(r, Pause(o.p, false), o.trace), data[o.ret..];
            if Feed(r, b, rest).taken == 0 then !LosesRun(r, b, rest)
            else LosesRun(r, Begin(r, p, trace), data) <==> LosesRun(r, b, rest)
  {
    hide Exec, Resting, Feed, RunBefore, LosesRun, Joined;
    var o := Exec(p, data, on, trace);
    var b, rest := Begin(r, Pause(o.p, false), o.trace), data[o.ret..];
    var n := Feed(r, b, rest).taken;
    LosesAt(r, Begin(r, p, trace), data, o.ret + n);
    LosesAt(r, b, rest, n);
    if Feed(r, b, rest).stop == Failed {
      FailsWithin(r, b, rest);
      if n == 0 {
        RunBeforeIs(r, b, rest, 0);
      } else {
        SameState(r, p, data, n, on, trace);
      }
    }
  }

  /**
   Where no pause meets the limit, the records with and without pauses: each is all of the
   reference's record, and so they are the same, unless an error comes in the middle of a run.
   Then the one without pauses lacks that run, and the one with pauses lacks it too unless the
   application has gone on just before the byte of the error.
   */
  lemma PauseMatters(skips: seq<Event> -> bool, p: Parser, data: string,
                     on: Callbacks, steady: Callbacks, trace: seq<Event>)
    requires Agrees(on, Rules(true, true, skips)) && Agrees(steady, Rules(true, false, skips))
    requires data != [] && p.errno == OK && Resting(p)
    requires var r := Rules(true, true, skips); FeedPaused(r, Begin(r, p, trace), data).p.errno != HeaderOverflow
    ensures var r := Rules(true, true, skips);
            var b := Begin(r, p, trace);
            var d := Feed(r, b, data);
            && (Joined(Exec(p, data, steady, trace).trace) == d.trace <==> !LosesRun(r, b, data))
            && (Joined(Drive(p, data, on, trace).trace) == d.trace
                <==> (LosesRun(r, b, data) ==> ResumedAt(p, data, on, trace, d.taken)))
  {
    hide Exec, Drive, Resting, Feed, FeedPaused, LosesRun, ResumedAt, Joined, Looks;
    var r := Rules(true, true, skips);
    NoPauseMeetsLimit(skips, p, data, trace);
    DriveRecord(r, p, data, on, trace);
    ExecFeeds(Rules(true, false, skips), p, data, steady, trace);
    assert Agrees(steady, r) by {
      forall t | t != [] ensures AgreesAt(steady, r, t) {
        assert AgreesAt(steady, Rules(true, false, skips), t);
      }
    }
    CallRecord(r, p, data, steady, trace);
  }
}
