/**
 Whole calls of http_parser_execute, and sequences of calls, against the one-byte reference:
 how the input is cut into calls does not matter.
 */
module Refinement {
  import opened Types
  import opened Arms
  import opened Execute
  import opened Invariant
  import opened Marking
  import opened Reference
  import opened Bridge
  import opened Consumption

  /** With nothing marked, the end of the buffer brings no callback. */
  lemma {:induction false} FlushNothing(kinds: seq<Kind>, p: Parser, data: string, on: Callbacks, trace: seq<Event>)
    ensures FlushAll(kinds, p, map[], data, on, trace) == Outcome(p, trace, |data|, AllRead, map[])
  {
    if kinds != [] {
      FlushNothing(kinds[1..], p, data, on, trace);
    }
  }

  /** With one kind marked, it brings that one. */
  lemma {:induction false} FlushOne(kinds: seq<Kind>, p: Parser, marks: Marks, k: Kind, data: string,
                                    on: Callbacks, trace: seq<Event>)
    requires MarksWithin(marks, |data|) && k in marks && Only(marks, k) && k in kinds
    ensures var t := trace + [Data(k, data[marks[k]..])];
            var q := Execute.AfterCall(p, Data(k, data[marks[k]..]), on(t));
            FlushAll(kinds, p, marks, data, on, trace) ==
              Outcome(q, t, |data|, if q.errno != OK then CallbackExit(false) else AllRead, map[])
  {
    hide Execute.AfterCall;
    if kinds[0] == k {
      assert marks - {k} == map[];
      var t := trace + [Data(k, data[marks[k]..])];
      FlushNothing(kinds[1..], Execute.AfterCall(p, Data(k, data[marks[k]..]), on(t)), data, on, t);
    } else {
      FlushOne(kinds[1..], p, marks, k, data, on, trace);
    }
  }

  /** The flush at the end of a call delivers what was pending. */
  lemma FlushFeeds(r: Rules, p: Parser, marks: Marks, data: string, on: Callbacks, trace: seq<Event>)
    requires data != [] && MarksWithin(marks, |data|) && MarksFit(p.state, marks, |data|, true)
    requires Agrees(on, r) && p.errno == OK
    ensures var o := FlushAll(FLUSH_ORDER, p, marks, data, on, trace);
            && o.ret == |data|
            && CallAt(r, o, data) == Here(r, p, trace, marks, data, |data|)
            && o.marks == map[]
            && (o.how == AllRead || (o.how == CallbackExit(false) && r.pauses && o.p.errno == Paused))
            && (!r.pauses ==> o.p.errno != Paused)
  {
    hide Emit, Joined, Execute.AfterCall;
    var k := Marked(marks);
    if k.None? {
      FlushNothing(FLUSH_ORDER, p, data, on, trace);
    } else {
      assert Only(marks, k.value);
      assert data[marks[k.value]..|data|] == data[marks[k.value]..];
      FlushOne(FLUSH_ORDER, p, marks, k.value, data, on, trace);
      PendingDelivered(trace, marks, k.value, data, |data|);
      Answers(r, on, p, trace, Data(k.value, data[marks[k.value]..]));
    }
  }

  /**
   What a call leaves to feed is what the reference has left after the same bytes: the bytes
   from o.ret on, the first of which may have been looked at already.
   */
  ghost predicate Leaves(r: Rules, before: Cfg, o: Outcome, data: string) {
    && o.ret <= |data| && (o.how == CallbackExit(true) ==> o.ret < |data|)
    && before == (if o.how == CallbackExit(true) then FeedOn(r, CallAt(r, o, data), data, o.ret)
                  else Feed(r, CallAt(r, o, data), data[o.ret..]))
    && o.how != Aborted
    && (o.how.CallbackExit? ==> r.pauses && o.p.errno == Paused)
    && (o.how == AllRead ==> o.ret == |data|)
    && (o.how != ErrorExit ==> o.marks == map[])
    && (!r.pauses ==> o.p.errno != Paused)
  }

  /** The loop from byte i on, by the reference. */
  lemma {:induction false} LoopFeeds(r: Rules, p: Parser, marks: Marks, data: string, i: nat,
                                     on: Callbacks, trace: seq<Event>)
    requires i <= |data| && data != [] && MarksWithin(marks, i) && MarksFit(p.state, marks, i, i == |data|)
    requires r.counting && Agrees(on, r) && p.errno == OK && Resting(p)
    ensures Leaves(r, Feed(r, Here(r, p, trace, marks, data, i), data[i..]),
                   Loop(p, marks, data, i, on, trace), data)
    decreases |data| - i, Rank(p.state), 1
  {
    hide LookAt, MarksFit, Resting, Good, Redo, Pending, Overflows;
    if i == |data| {
      FlushFeeds(r, p, marks, data, on, trace);
    } else {
      TickLooks(p);
      var c := Here(r, p, trace, marks, data, i);
      assert data[i..][1..] == data[i + 1..];
      if Overflows(p) {
        FeedStopped(r, CallAt(r, Loop(p, marks, data, i, on, trace), data), data[i..]);
        FeedStopped(r, OnByte(r, c, data[i]), data[i + 1..]);
      } else {
        LookFeeds(r, Tick(p), marks, data, i, on, trace);
      }
    }
  }

  lemma {:induction false} LookFeeds(r: Rules, p: Parser, marks: Marks, data: string, i: nat,
                                     on: Callbacks, trace: seq<Event>)
    requires i < |data| && MarksWithin(marks, i) && MarksFit(p.state, marks, i, false)
    requires r.counting && Agrees(on, r) && p.errno == OK && Looking(p)
    ensures Leaves(r, FeedOn(r, Here(r, p, trace, marks, data, i), data, i),
                   LookAt(p, marks, data, i, on, trace), data)
    decreases |data| - i, Rank(p.state), 0
  {
    hide Pass, MarksFit, Resting, Good, FeedOn, Pending, Loop;
    var u := Pass(p, marks, data, i, on, trace);
    PassFeeds(r, p, marks, data, i, on, trace);
    PassGood(p, marks, data, i, on, trace);
    match u.verdict
    case OnSame => LookFeeds(r, u.p, u.marks, data, u.i, on, u.trace);
    case OnNext => LoopFeeds(r, u.p, u.marks, data, u.i, on, u.trace);
    case Stop(how) =>
  }

  /** The configuration a call starts from. */
  function Begin(r: Rules, p: Parser, trace: seq<Event>): Cfg {
    Cfg(Norm(r, p), Joined(trace), Running, 0)
  }

  /** A whole call, by the reference. */
  lemma ExecFeeds(r: Rules, p: Parser, data: string, on: Callbacks, trace: seq<Event>)
    requires r.counting && data != [] && Agrees(on, r) && p.errno == OK && Resting(p)
    ensures Leaves(r, Feed(r, Begin(r, p, trace), data), Exec(p, data, on, trace), data)
  {
    hide Loop, Resting, Good, Joined, Emit;
    var marks := FirstMarks(p.state);
    MarksStart(p.state, |data|);
    LoopFeeds(r, p, marks, data, 0, on, trace);
    assert data[0..] == data;
    assert Here(r, p, trace, marks, data, 0) == Begin(r, p, trace);
  }

  // ----- the count of bytes taken is only carried along

  function Shift(c: Cfg, k: nat): Cfg {
    c.(taken := c.taken + k)
  }

  lemma ReactShift(r: Rules, c: Cfg, a: Act, b: char, k: nat)
    ensures var x := React(r, c, a, b);
            React(r, Shift(c, k), a, b) == Reaction(Shift(x.c, k), x.again)
  {
  }

  lemma {:induction false} RedoShift(r: Rules, c: Cfg, b: char, k: nat)
    ensures Redo(r, Shift(c, k), b) == Shift(Redo(r, c, b), k)
    decreases Rank(c.p.state)
  {
    hide Arm, React;
    var x := React(r, c, Arm(c.p, b, 1), b);
    ReactShift(r, c, Arm(c.p, b, 1), b, k);
    if x.again {
      RedoShift(r, x.c, b, k);
    }
  }

  lemma {:induction false} FeedShift(r: Rules, c: Cfg, bytes: string, k: nat)
    ensures Feed(r, Shift(c, k), bytes) == Shift(Feed(r, c, bytes), k)
    decreases |bytes|
  {
    hide Redo;
    if bytes != [] {
      RedoShift(r, c.(p := Norm(r, c.p)), bytes[0], k);
      RedoShift(r, c.(p := Tick(c.p)), bytes[0], k);
      FeedShift(r, OnByte(r, c, bytes[0]), bytes[1..], k);
    }
  }

  // ----- the input cut into calls

  function Concat(pieces: seq<string>): string {
    if pieces == [] then "" else pieces[0] + Concat(pieces[1..])
  }

  /** One call for each piece, as long as each call takes all it is given. */
  function Calls(p: Parser, pieces: seq<string>, on: Callbacks, trace: seq<Event>): Outcome
    decreases |pieces|
  {
    if pieces == [] then Outcome(p, trace, 0, AllRead, map[])
    else
      var o := Exec(p, pieces[0], on, trace);
      if o.how != AllRead then o
      else
        var rest := Calls(o.p, pieces[1..], on, o.trace);
        rest.(ret := |pieces[0]| + rest.ret)
  }

  lemma OneCall(p: Parser, data: string, on: Callbacks, trace: seq<Event>)
    ensures var o := Exec(p, data, on, trace);
            var c := Calls(p, [data], on, trace);
            && c.p == o.p && c.trace == o.trace && c.how == o.how
            && c.ret == if o.how == AllRead then |data| else o.ret
  {
    hide Exec;
    assert [data][1..] == [];
  }

  /** `got` is all of `full`, but perhaps for the last run. */
  ghost predicate UpToRun(full: seq<Event>, got: seq<Event>) {
    full == got || exists k, s :: full == Emit(got, Data(k, s))
  }

  lemma PendingUpToRun(trace: seq<Event>, marks: Marks, data: string, i: nat)
    requires i <= |data|
    ensures UpToRun(Pending(trace, marks, data, i), Joined(trace))
  {
    hide Emit, Joined;
  }

  /** An outcome that is just what the reference says; a parse error may lose the last run. */
  ghost predicate Is(r: Rules, c: Cfg, o: Outcome) {
    && c.p == o.p && c.taken == o.ret && c.stop == StopOf(o.how)
    && !o.how.CallbackExit? && o.how != Aborted
    && UpToRun(c.trace, Joined(o.trace)) && (o.how != ErrorExit ==> c.trace == Joined(o.trace))
  }

  lemma ExecIs(r: Rules, p: Parser, data: string, on: Callbacks, trace: seq<Event>)
    requires r.counting && !r.pauses && data != [] && Agrees(on, r) && p.errno == OK && Resting(p)
    ensures Is(r, Feed(r, Begin(r, p, trace), data), Exec(p, data, on, trace))
  {
    hide Exec, Resting;
    ExecFeeds(r, p, data, on, trace);
    var o := Exec(p, data, on, trace);
    var c := CallAt(r, o, data);
    PendingUpToRun(o.trace, o.marks, data, o.ret);
    if o.how == AllRead {
      assert data[o.ret..] == [];
    } else {
      FeedStopped(r, c, data[o.ret..]);
    }
  }

  lemma {:induction false} CallsIs(r: Rules, p: Parser, pieces: seq<string>, on: Callbacks, trace: seq<Event>)
    requires r.counting && !r.pauses && Agrees(on, r) && p.errno == OK && Resting(p)
    requires pieces != [] && forall s :: s in pieces ==> s != ""
    ensures Is(r, Feed(r, Begin(r, p, trace), Concat(pieces)), Calls(p, pieces, on, trace))
    decreases |pieces|
  {
    hide Exec, Resting, Feed;
    assert pieces[0] in pieces;
    var o := Exec(p, pieces[0], on, trace);
    var b := Begin(r, p, trace);
    ExecIs(r, p, pieces[0], on, trace);
    ExecEnds(p, pieces[0], on, trace);
    FeedAppend(r, b, pieces[0], Concat(pieces[1..]));
    var c := Feed(r, b, pieces[0]);
    if o.how != AllRead {
      FeedStopped(r, c, Concat(pieces[1..]));
    } else if |pieces| == 1 {
      assert Concat(pieces) == pieces[0];
    } else {
      assert forall s :: s in pieces[1..] ==> s in pieces;
      CallsIs(r, o.p, pieces[1..], on, o.trace);
      FeedShift(r, Begin(r, o.p, o.trace), Concat(pieces[1..]), |pieces[0]|);
    }
  }

  /**
   Fragmentation does not matter. However the input is cut into non-empty calls, the parser
   ends with the same fields, the same number of bytes read and in the same way as after one
   call; and unless a parse error ended it, it has delivered the same joined record. A parse
   error may keep back the run it comes in, so then both are up to one run the same record.
   */
  lemma SplitInvariance(r: Rules, p: Parser, pieces: seq<string>, on: Callbacks, trace: seq<Event>)
    requires r.counting && !r.pauses && Agrees(on, r) && p.errno == OK && Resting(p)
    requires pieces != [] && forall s :: s in pieces ==> s != ""
    ensures var one := Exec(p, Concat(pieces), on, trace);
            var many := Calls(p, pieces, on, trace);
            && one.p == many.p && one.ret == many.ret && one.how == many.how
            && (one.how != ErrorExit ==> Joined(one.trace) == Joined(many.trace))
            && exists full :: UpToRun(full, Joined(one.trace)) && UpToRun(full, Joined(many.trace))
  {
    hide Exec, Resting, Feed, Calls;
    assert Concat(pieces) != "" by {
      assert pieces[0] in pieces;
    }
    ExecIs(r, p, Concat(pieces), on, trace);
    CallsIs(r, p, pieces, on, trace);
    var full := Feed(r, Begin(r, p, trace), Concat(pieces)).trace;
    assert UpToRun(full, Joined(Exec(p, Concat(pieces), on, trace).trace));
  }

  lemma FeedStoppedOrDone(r: Rules, c: Cfg, rest: string)
    requires c.stop != Running || rest == []
    ensures Feed(r, c, rest) == c
  {
    if c.stop != Running {
      FeedStopped(r, c, rest);
    }
  }
}
