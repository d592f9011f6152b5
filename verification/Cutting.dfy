/**
 What the cutting of the input into calls can change: only whether the bytes of the run that a
 parse error ends are delivered, and that by a condition on the bytes.
 */
module Cutting {
  import opened Chars
  import opened Types
  import opened UrlChar
  import opened Arms
  import opened Execute
  import opened Invariant
  import opened Marking
  import opened Consumption
  import opened Reference
  import opened Steps
  import opened Bridge
  import opened Refinement
  import Methods
  import RequestLine

  // ----- where the reference fails

  lemma {:induction false} RedoTakes(r: Rules, c: Cfg, b: char)
    requires c.stop == Running
    ensures Redo(r, c, b).taken == c.taken + if Redo(r, c, b).stop == Failed then 0 else 1
    decreases Rank(c.p.state)
  {
    hide Arm, Emit;
    var x := React(r, c, Arm(c.p, b, 1), b);
    if x.again {
      RedoTakes(r, x.c, b);
    }
  }

  lemma ByteTakes(r: Rules, c: Cfg, b: char)
    requires c.stop == Running
    ensures OnByte(r, c, b).taken == c.taken + if OnByte(r, c, b).stop == Failed then 0 else 1
  {
    hide Redo;
    RedoTakes(r, c.(p := Norm(r, c.p)), b);
    RedoTakes(r, c.(p := Tick(c.p)), b);
  }

  /** A run takes all bytes, or those before the one it fails at. */
  lemma {:induction false} FeedTakes(r: Rules, c: Cfg, s: string)
    requires c.stop == Running
    ensures var d := Feed(r, c, s);
            && (d.stop == Running ==> d.taken == c.taken + |s|)
            && (d.stop == Failed ==>
                  && c.taken <= d.taken < c.taken + |s|
                  && Feed(r, c, s[..d.taken - c.taken]).stop == Running
                  && OnByte(r, Feed(r, c, s[..d.taken - c.taken]), s[d.taken - c.taken]) == d)
    decreases |s|
  {
    hide OnByte;
    if s != "" {
      var c1 := OnByte(r, c, s[0]);
      ByteTakes(r, c, s[0]);
      if c1.stop == Running {
        FeedTakes(r, c1, s[1..]);
        var d := Feed(r, c, s);
        if d.stop == Failed {
          var n := d.taken - c.taken;
          assert s[..n][1..] == s[1..][..n - 1];
        }
      } else {
        FeedStopped(r, c1, s[1..]);
      }
    }
  }

  lemma FailsWithin(r: Rules, c: Cfg, s: string)
    requires c.stop == Running && Feed(r, c, s).stop == Failed
    ensures c.taken <= Feed(r, c, s).taken < c.taken + |s|
  {
    hide Feed, OnByte;
    FeedTakes(r, c, s);
  }

  /** The states in which bytes of a run may be marked and not delivered yet. */
  predicate InRun(s: State) {
    Held(s).Some? || s == Chunk(ChunkDataAlmostDone)
  }

  /** There are n > 0 bytes before some place, and they end in the middle of a run. */
  predicate RunBefore(r: Rules, c: Cfg, data: string, n: int) {
    0 < n <= |data| && InRun(Feed(r, c, data[..n]).p.state)
  }

  /** There is an error, not at the first byte, and the bytes before it end in the middle of a run. */
  predicate LosesRun(r: Rules, c: Cfg, data: string) {
    var d := Feed(r, c, data);
    d.stop == Failed && RunBefore(r, c, data, d.taken - c.taken)
  }

  // ----- what is marked when a call fails

  /** Bytes before the returned offset are marked. */
  predicate Lost(o: Outcome) {
    var k := Marked(o.marks);
    k.Some? && o.marks[k.value] < o.ret
  }

  /** The marks before a byte, or with byte i marked alone. */
  lemma MarksTell(s: State, marks: Marks, i: nat, mark: Option<Kind>)
    requires MarksWithin(marks, i) && MarksFit(s, marks, i, false) && (mark.Some? ==> Plain(s))
    ensures var k := Marked(SetMark(marks, mark, i));
            (k.Some? && SetMark(marks, mark, i)[k.value] < i) <==> (i > 0 && InRun(s))
  {
    if Held(s).Some? {
      MarkedOnly(marks, Held(s).value);
    } else if s == Chunk(ChunkDataAlmostDone) && i > 0 {
      MarkedOnly(marks, KBody);
    }
  }

  /** What a look at byte i may do next, when nothing has been read yet. */
  lemma PassFails(p: Parser, marks: Marks, data: string, i: nat, on: Callbacks, trace: seq<Event>)
    requires i < |data| && MarksWithin(marks, i) && MarksFit(p.state, marks, i, false)
    ensures var u := Pass(p, marks, data, i, on, trace);
            u.verdict == Stop(ErrorExit) ==>
              u.i == i && (Lost(Outcome(u.p, u.trace, u.i, ErrorExit, u.marks)) <==> i > 0 && InRun(p.state))
  {
    var a := Arm(p, data[i], |data| - i);
    ArmShape(p, data[i], |data| - i);
    hide Arm, AfterCall, MarksFit;
    if a.next.Fail? {
      MarksTell(p.state, marks, i, a.mark);
    }
  }

  /** The loop goes forward. */
  lemma {:induction false} LoopForward(p: Parser, marks: Marks, data: string, i: nat, on: Callbacks, trace: seq<Event>)
    requires i <= |data| && MarksWithin(marks, i)
    ensures Loop(p, marks, data, i, on, trace).ret >= i
    decreases |data| - i, Rank(p.state), 1
  {
    hide LookAt, FlushAll;
    if i == |data| {
      FlushReturns(FLUSH_ORDER, p, marks, data, on, trace);
    } else if !Overflows(p) {
      LookForward(Tick(p), marks, data, i, on, trace);
    }
  }

  lemma {:induction false} LookForward(p: Parser, marks: Marks, data: string, i: nat, on: Callbacks, trace: seq<Event>)
    requires i < |data| && MarksWithin(marks, i)
    ensures LookAt(p, marks, data, i, on, trace).ret >= i
    decreases |data| - i, Rank(p.state), 0
  {
    hide Loop, Pass;
    var u := Pass(p, marks, data, i, on, trace);
    match u.verdict
    case OnSame => LookForward(u.p, u.marks, data, u.i, on, u.trace);
    case OnNext => LoopForward(u.p, u.marks, data, u.i, on, u.trace);
    case Stop(how) =>
  }

  lemma {:induction false} FlushReturns(kinds: seq<Kind>, p: Parser, marks: Marks, data: string,
                                        on: Callbacks, trace: seq<Event>)
    requires MarksWithin(marks, |data|)
    ensures var o := FlushAll(kinds, p, marks, data, on, trace); o.ret == |data| && o.how != ErrorExit
  {
    if kinds != [] {
      if kinds[0] in marks {
        var e := Data(kinds[0], data[marks[kinds[0]]..]);
        FlushReturns(kinds[1..], AfterCall(p, e, on(trace + [e])), marks - {kinds[0]}, data, on, trace + [e]);
      } else {
        FlushReturns(kinds[1..], p, marks, data, on, trace);
      }
    }
  }

  /**
   An arm that ends a run and looks at the byte again, or that looks at a later one again, is
   followed by one that reads it; any other leaves no run behind.
   */
  predicate ThenReads(p: Parser, a: Act, ch: char) {
    Repeats(a.next) ==>
      && !InRun(a.p.state)
      && (InRun(p.state) || a.take > 1 || BodyRun(p.state) ==>
            || (a.p.state == Header(HeaderAlmostDone) && ch == LF && a.take == 1)
            || a.p.state == Body(MessageDone))
  }

  lemma ArmThenReads(p: Parser, ch: char, avail: nat)
    requires avail > 0
    ensures ThenReads(p, Arm(p, ch, avail), ch)
  {
    ArmShape(p, ch, avail);
    match p.state
    case Header(s) => assert ThenReads(p, HeaderArm(p, s, ch), ch) by { hide MatchFieldByte, MatchValueByte, Token; }
    case Url(s) => assert ThenReads(p, UrlArm(p, s, ch), ch) by { hide ParseUrlChar; }
    case StatusLine(s) => assert ThenReads(p, StatusLineArm(p, s, ch), ch) by { hide AddDigit; }
    case _ =>
  }

  lemma ReadsOn(p: Parser, marks: Marks, data: string, i: nat, on: Callbacks, trace: seq<Event>)
    requires i < |data| && MarksWithin(marks, i)
    requires p.state == Body(MessageDone) || (p.state == Header(HeaderAlmostDone) && data[i] == LF)
    ensures var v := Pass(p, marks, data, i, on, trace).verdict; !v.OnSame? && v != Stop(ErrorExit)
  {
    var a := Arm(p, data[i], |data| - i);
    assert !Fails(a.next) && a.next.andThen != Repeat;
    hide Arm, AfterCall;
  }

  lemma PassThenReads(p: Parser, marks: Marks, data: string, i: nat, on: Callbacks, trace: seq<Event>)
    requires i < |data| && MarksWithin(marks, i) && Pass(p, marks, data, i, on, trace).verdict.OnSame?
    ensures var u := Pass(p, marks, data, i, on, trace);
            && !InRun(u.p.state)
            && (InRun(p.state) || u.i > i ==>
                  u.p.state == Body(MessageDone) || (u.p.state == Header(HeaderAlmostDone) && data[u.i] == LF))
  {
    hide Arm, Finish, InRun, BodyRun;
    var a := Arm(p, data[i], |data| - i);
    ArmThenReads(p, data[i], |data| - i);
    FinishGoes(a, marks, data, i, on, trace);
  }

  /** A run that an arm ends before it looks again is not followed by an error at the same byte. */
  lemma SecondLook(p: Parser, marks: Marks, data: string, i: nat, on: Callbacks, trace: seq<Event>)
    requires i < |data| && MarksWithin(marks, i) && Pass(p, marks, data, i, on, trace).verdict.OnSame?
    ensures var u := Pass(p, marks, data, i, on, trace);
            var o := LookAt(u.p, u.marks, data, u.i, on, u.trace);
            !InRun(u.p.state) && (InRun(p.state) || u.i > i ==> o.how == ErrorExit ==> o.ret > u.i)
  {
    hide Pass, Loop, InRun;
    var u := Pass(p, marks, data, i, on, trace);
    PassThenReads(p, marks, data, i, on, trace);
    if InRun(p.state) || u.i > i {
      ReadsOn(u.p, u.marks, data, u.i, on, u.trace);
      var w := Pass(u.p, u.marks, data, u.i, on, u.trace);
      if w.verdict.OnNext? {
        LoopForward(w.p, w.marks, data, w.i, on, w.trace);
      }
    }
  }

  // ----- a call that fails, on the bytes before

  /** With fewer bytes left, but all that it takes, an arm does the same. */
  lemma ArmCut(p: Parser, ch: char, more: nat, less: nat)
    requires 0 < less <= more && Arm(p, ch, more).take <= less
    ensures Arm(p, ch, less) == Arm(p, ch, more)
  {
    if !BodyRun(p.state) {
      ArmAvail(p, ch, more);
      ArmAvail(p, ch, less);
    }
  }

  lemma PassCut(p: Parser, marks: Marks, data: string, i: nat, n: nat, on: Callbacks, trace: seq<Event>)
    requires i < n <= |data| && MarksWithin(marks, i)
    requires var u := Pass(p, marks, data, i, on, trace);
             if Unread(u.verdict) then u.i < n
             else u.i <= n && (u.verdict.OnNext? || u.verdict == Stop(CallbackExit(false)))
    ensures Pass(p, marks, data[..n], i, on, trace) == Pass(p, marks, data, i, on, trace)
  {
    hide Arm, Finish;
    var a := Arm(p, data[i], |data| - i);
    FinishGoes(a, marks, data, i, on, trace);
    ArmCut(p, data[i], |data| - i, n - i);
    FinishCut(a, marks, data, i, n, on, trace);
  }

  lemma FinishGoes(a: Act, marks: Marks, data: string, i: nat, on: Callbacks, trace: seq<Event>)
    requires MarksWithin(marks, i) && 0 < a.take && i + a.take <= |data|
    ensures var u := Finish(a, marks, data, i, on, trace);
            && (u.verdict.OnNext? || u.verdict == Stop(CallbackExit(false)) ==> u.i == i + a.take)
            && (Unread(u.verdict) ==> u.i == i + a.take - 1)
  {
    hide AfterCall;
  }

  lemma FinishCut(a: Act, marks: Marks, data: string, i: nat, n: nat, on: Callbacks, trace: seq<Event>)
    requires MarksWithin(marks, i) && 0 < a.take && i + a.take <= n <= |data|
    ensures Finish(a, marks, data[..n], i, on, trace) == Finish(a, marks, data, i, on, trace)
  {
    hide AfterCall, Call;
    CallCut(a.next, SetMark(marks, a.mark, i), data, i + a.take - 1, n);
  }

  lemma CallCut(next: Next, marks: Marks, data: string, j: nat, n: nat)
    requires j < n <= |data| && MarksWithin(marks, j)
    ensures Call(next, marks, data[..n], j) == Call(next, marks, data, j)
  {
    if next.Flush? && next.kind in marks {
      var from, end := marks[next.kind], if next.inclusive then j + 1 else j;
      assert data[..n][from..end] == data[from..end];
    }
  }

  /** What a failing call has marked, by the state before the byte it fails at. */
  ghost predicate FailsIn(o: Outcome, s: State) {
    o.how == ErrorExit ==> (Lost(o) <==> o.ret > 0 && InRun(s))
  }

  /** The bytes up to the place where o ends. */
  function Before(data: string, o: Outcome): string
    requires o.ret <= |data|
  {
    data[..o.ret]
  }

  lemma {:induction false} LoopFails(r: Rules, p: Parser, marks: Marks, data: string, i: nat,
                                     on: Callbacks, trace: seq<Event>)
    requires i <= |data| && MarksWithin(marks, i) && MarksFit(p.state, marks, i, i == |data|) && data != []
    requires r.counting && Agrees(on, r) && p.errno == OK && Resting(p)
    ensures var o := Loop(p, marks, data, i, on, trace);
            i <= o.ret <= |data| &&
            var s := Before(data, o);
            FailsIn(o, Feed(r, Here(r, p, trace, marks, s, i), s[i..]).p.state)
    decreases |data| - i, Rank(p.state), 1
  {
    hide LookAt, MarksFit, Resting, Good, Redo, Pending, Overflows, InRun, FlushAll, Lost;
    var o := Loop(p, marks, data, i, on, trace);
    LoopForward(p, marks, data, i, on, trace);
    LoopEnds(p, marks, data, i, on, trace);
    var s := Before(data, o);
    if i == |data| {
      FlushReturns(FLUSH_ORDER, p, marks, data, on, trace);
    } else if Overflows(p) {
      MarksTell(p.state, marks, i, None);
      OverflowLoses(p, marks, o, i);
    } else {
      TickLooks(p);
      LookFails(r, Tick(p), marks, data, i, on, trace);
      if o.ret > i {
        assert s[i..][0] == s[i] && s[i..][1..] == s[i + 1..];
      }
    }
  }

  lemma OverflowLoses(p: Parser, marks: Marks, o: Outcome, i: nat)
    requires o.marks == marks && o.ret == i
    requires var k := Marked(SetMark(marks, None, i)); (k.Some? && marks[k.value] < i) <==> (i > 0 && InRun(p.state))
    ensures FailsIn(o, p.state)
  {
    hide InRun;
  }

  lemma {:induction false} LookFails(r: Rules, p: Parser, marks: Marks, data: string, i: nat,
                                     on: Callbacks, trace: seq<Event>)
    requires i < |data| && MarksWithin(marks, i) && MarksFit(p.state, marks, i, false)
    requires r.counting && Agrees(on, r) && p.errno == OK && Looking(p)
    ensures var o := LookAt(p, marks, data, i, on, trace);
            i <= o.ret <= |data| &&
            var s := Before(data, o);
            FailsIn(o, if o.ret == i then p.state else FeedOn(r, Here(r, p, trace, marks, s, i), s, i).p.state)
    decreases |data| - i, Rank(p.state), 0
  {
    hide Pass, MarksFit, Resting, Good, FeedOn, Pending, Loop, InRun, Lost;
    var o := LookAt(p, marks, data, i, on, trace);
    LookForward(p, marks, data, i, on, trace);
    LookEnds(p, marks, data, i, on, trace);
    var u := Pass(p, marks, data, i, on, trace);
    var s := Before(data, o);
    PassGood(p, marks, data, i, on, trace);
    match u.verdict
    case OnSame =>
      LookFails(r, u.p, u.marks, data, u.i, on, u.trace);
      SecondLook(p, marks, data, i, on, trace);
      LookForward(u.p, u.marks, data, u.i, on, u.trace);
      if o.ret > u.i {
        PassCut(p, marks, data, i, o.ret, on, trace);
        PassFeeds(r, p, marks, s, i, on, trace);
      }
    case OnNext =>
      LoopFails(r, u.p, u.marks, data, u.i, on, u.trace);
      LoopForward(u.p, u.marks, data, u.i, on, u.trace);
      PassCut(p, marks, data, i, o.ret, on, trace);
      PassFeeds(r, p, marks, s, i, on, trace);
    case Stop(how) =>
      PassFails(p, marks, data, i, on, trace);
  }

  // ----- the record of one call, and of a cutting

  /** A byte more makes another record. */
  lemma EmitAdds(t: seq<Event>, k: Kind, s: string)
    requires s != ""
    ensures Emit(t, Data(k, s)) != t
  {
    var u := Emit(t, Data(k, s));
    if |u| == |t| {
      assert |u[|u| - 1].bytes| > |t[|t| - 1].bytes|;
    }
  }

  lemma LostIsMissing(o: Outcome, data: string)
    requires o.ret <= |data|
    ensures Pending(o.trace, o.marks, data, o.ret) == Joined(o.trace) <==> !Lost(o)
  {
    hide Emit, Joined;
    if Lost(o) {
      var k := Marked(o.marks).value;
      EmitAdds(Joined(o.trace), k, data[o.marks[k]..o.ret]);
    }
  }

  /** A call that is not paused delivers all of the reference's record, but for a run that an error ends. */
  lemma CallRecord(r: Rules, p: Parser, data: string, on: Callbacks, trace: seq<Event>)
    requires r.counting && data != [] && Agrees(on, r) && p.errno == OK && Resting(p)
    requires !Exec(p, data, on, trace).how.CallbackExit?
    ensures var b := Begin(r, p, trace);
            Feed(r, b, data).trace == Joined(Exec(p, data, on, trace).trace) <==> !LosesRun(r, b, data)
  {
    hide Loop, Resting, Good, Joined, Emit, Feed, Pending, Lost, RunBefore, InRun;
    var o := Exec(p, data, on, trace);
    var b := Begin(r, p, trace);
    ExecFeeds(r, p, data, on, trace);
    FeedStoppedOrDone(r, CallAt(r, o, data), data[o.ret..]);
    LostIsMissing(o, data);
    if o.how == ErrorExit {
      var marks := FirstMarks(p.state);
      var s := Before(data, o);
      MarksStart(p.state, |data|);
      LoopFails(r, p, marks, data, 0, on, trace);
      assert s[0..] == s;
      assert Here(r, p, trace, marks, s, 0) == b by { NothingPending(trace, marks, s); }
      RunBeforeIs(r, b, data, o.ret);
    } else {
      NothingLost(o);
    }
  }

  lemma NothingLost(o: Outcome)
    requires o.marks == map[]
    ensures !Lost(o)
  {
  }

  lemma RunBeforeIs(r: Rules, c: Cfg, data: string, n: nat)
    requires n <= |data|
    ensures RunBefore(r, c, data, n) <==> n > 0 && InRun(Feed(r, c, data[..n]).p.state)
  {
    hide Feed, InRun;
  }

  /** One call delivers all of the reference's record, or an error in a run keeps back that run. */
  lemma OneRecord(r: Rules, p: Parser, data: string, on: Callbacks, trace: seq<Event>)
    requires r.counting && !r.pauses && data != [] && Agrees(on, r) && p.errno == OK && Resting(p)
    ensures var b := Begin(r, p, trace);
            Feed(r, b, data).trace == Joined(Exec(p, data, on, trace).trace) <==> !LosesRun(r, b, data)
  {
    hide Exec, Resting, Joined, Feed, LosesRun;
    ExecIs(r, p, data, on, trace);
    CallRecord(r, p, data, on, trace);
  }

  lemma NothingPending(trace: seq<Event>, marks: Marks, s: string)
    requires MarksWithin(marks, 0)
    ensures Pending(trace, marks, s, 0) == Joined(trace)
  {
    hide Joined, Emit;
  }

  /** One of the cuts between the pieces is after n bytes. */
  predicate CutAt(pieces: seq<string>, n: nat)
    decreases |pieces|
  {
    n == 0 || (pieces != [] && |pieces[0]| <= n && CutAt(pieces[1..], n - |pieces[0]|))
  }

  lemma LosesEarly(r: Rules, c: Cfg, a: string, b: string)
    requires Feed(r, c, a).stop != Running && c.stop == Running
    ensures LosesRun(r, c, a + b) <==> LosesRun(r, c, a)
    ensures Feed(r, c, a + b) == Feed(r, c, a)
  {
    hide OnByte, Feed, InRun;
    FeedAppend(r, c, a, b);
    FeedStopped(r, Feed(r, c, a), b);
    FeedTakes(r, c, a);
    var n := Feed(r, c, a).taken - c.taken;
    if 0 < n <= |a| {
      assert (a + b)[..n] == a[..n];
    }
  }

  /** What is lost of a + b when a is read without an error: the run that b loses, or all of it. */
  lemma LosesLate(r: Rules, c: Cfg, c1: Cfg, a: string, b: string)
    requires c.stop == Running && c1.stop == Running && c1.taken == c.taken
    requires a != "" && Feed(r, c, a) == Shift(c1, |a|)
    ensures Feed(r, c, a + b) == Shift(Feed(r, c1, b), |a|)
    ensures var d := Feed(r, c1, b);
            if d.taken == c1.taken then !LosesRun(r, c1, b)
            else LosesRun(r, c, a + b) <==> LosesRun(r, c1, b)
  {
    hide OnByte, Feed, LosesRun, RunBefore;
    FeedAppend(r, c, a, b);
    FeedShift(r, c1, b, |a|);
    var n := Feed(r, c1, b).taken - c1.taken;
    LosesAt(r, c, a + b, |a| + n);
    LosesAt(r, c1, b, n);
    if Feed(r, c1, b).stop == Failed {
      FailsWithin(r, c1, b);
      SameBefore(r, c, c1, a, b, n);
    }
  }

  lemma LosesAt(r: Rules, c: Cfg, data: string, n: int)
    requires Feed(r, c, data).taken == c.taken + n
    ensures LosesRun(r, c, data) <==> Feed(r, c, data).stop == Failed && RunBefore(r, c, data, n)
  {
    hide Feed, RunBefore;
  }

  lemma SameBefore(r: Rules, c: Cfg, c1: Cfg, a: string, b: string, n: nat)
    requires Feed(r, c, a) == Shift(c1, |a|) && n <= |b|
    ensures !RunBefore(r, c1, b, 0)
    ensures n > 0 ==> (RunBefore(r, c, a + b, |a| + n) <==> RunBefore(r, c1, b, n))
  {
    hide OnByte, Feed;
    assert (a + b)[..|a| + n] == a + b[..n];
    FeedAppend(r, c, a, b[..n]);
    FeedShift(r, c1, b[..n], |a|);
  }

  /**
   The record of any cutting, exactly: it is all of the reference's record unless an error comes
   in the middle of a run, and then if one of the cuts is just before the byte of the error.
   */
  lemma {:induction false} CallsRecord(r: Rules, p: Parser, pieces: seq<string>, on: Callbacks, trace: seq<Event>)
    requires r.counting && !r.pauses && Agrees(on, r) && p.errno == OK && Resting(p)
    requires pieces != [] && forall s :: s in pieces ==> s != ""
    ensures var b := Begin(r, p, trace);
            var d := Feed(r, b, Concat(pieces));
            d.trace == Joined(Calls(p, pieces, on, trace).trace)
            <==> (LosesRun(r, b, Concat(pieces)) ==> CutAt(pieces, d.taken))
    decreases |pieces|
  {
    hide Exec, Resting, Feed, LosesRun, Joined;
    assert pieces[0] in pieces;
    var o := Exec(p, pieces[0], on, trace);
    var b, rest := Begin(r, p, trace), Concat(pieces[1..]);
    ExecIs(r, p, pieces[0], on, trace);
    ExecEnds(p, pieces[0], on, trace);
    OneRecord(r, p, pieces[0], on, trace);
    var c := Feed(r, b, pieces[0]);
    FeedTakes(r, b, pieces[0]);
    if o.how != AllRead {
      LosesEarly(r, b, pieces[0], rest);
      LosesAfterOne(r, b, pieces[0]);
    } else if |pieces| == 1 {
      assert Concat(pieces) == pieces[0];
      LosesAfterOne(r, b, pieces[0]);
    } else {
      assert forall s :: s in pieces[1..] ==> s in pieces;
      var b1 := Begin(r, o.p, o.trace);
      CallsRecord(r, o.p, pieces[1..], on, o.trace);
      LosesLate(r, b, b1, pieces[0], rest);
    }
  }

  lemma LosesAfterOne(r: Rules, c: Cfg, data: string)
    ensures LosesRun(r, c, data) ==> Feed(r, c, data).stop == Failed && Feed(r, c, data).taken > c.taken
  {
  }

  /** Non-empty pieces of the data. */
  predicate Cuts(pieces: seq<string>, data: string) {
    pieces != [] && (forall s :: s in pieces ==> s != "") && Concat(pieces) == data
  }

  lemma OnePiece(data: string)
    requires data != ""
    ensures Cuts([data], data) && forall n :: 0 < n < |data| ==> !CutAt([data], n)
  {
    assert Concat([data]) == data + Concat([]);
  }

  lemma TwoPieces(data: string, n: nat)
    requires 0 < n < |data|
    ensures Cuts([data[..n], data[n..]], data) && CutAt([data[..n], data[n..]], n)
  {
    var a, b := data[..n], data[n..];
    assert [a, b][1..] == [b];
    OnePiece(b);
    assert a + b == data;
  }

  /**
   Cutting, exactly: all cuttings of the data deliver the same joined record if and only if no
   parse error comes, after the first byte, in the middle of a run.
   */
  lemma CuttingMatters(r: Rules, p: Parser, data: string, on: Callbacks, trace: seq<Event>)
    requires r.counting && !r.pauses && data != [] && Agrees(on, r) && p.errno == OK && Resting(p)
    ensures (forall pieces :: Cuts(pieces, data) ==>
               Joined(Calls(p, pieces, on, trace).trace) == Joined(Exec(p, data, on, trace).trace))
            <==> !LosesRun(r, Begin(r, p, trace), data)
  {
    hide Calls, Exec, Resting, Feed, Joined, InRun, CutAt;
    var b := Begin(r, p, trace);
    var d := Feed(r, b, data);
    OneRecord(r, p, data, on, trace);
    forall pieces | Cuts(pieces, data)
      ensures d.trace == Joined(Calls(p, pieces, on, trace).trace)
              <==> (LosesRun(r, b, data) ==> CutAt(pieces, d.taken))
    {
      CallsRecord(r, p, pieces, on, trace);
    }
    if LosesRun(r, b, data) {
      FeedTakes(r, b, data);
      TwoPieces(data, d.taken);
    }
  }

  // ----- an input on which the cutting shows

  const TAB_IN_PATH := "GET /a\t"

  lemma PathReads(r: Rules, c: Cfg)
    requires r.counting && c == Begin(r, Init(Request), [])
    ensures var d := Feed(r, c, "GET /a");
            && d.stop == Running && d.p.state == Url(ReqPath) && d.p.nread == 6
            && d.trace == [MessageBegin, Data(KUrl, "/a")]
  {
    hide OnByte, Feed, UrlRun, Emit;
    assert MethodStr(GET) + " " == "GET " && |"GET "| == 4;
    Methods.MethodReads(r, c, GET);
    var c1 := Feed(r, c, "GET ");
    assert "GET /a" == "GET " + "/a";
    FeedAppend(r, c, "GET ", "/a");
    PathIs();
    RequestLine.UrlReads(r, c1, "/a");
  }

  lemma PathIs()
    ensures UrlRun(UrlStart(false), "/a") == Some(ReqPath)
    ensures Emit(Emit([], MessageBegin), Data(KUrl, "/a")) == [MessageBegin, Data(KUrl, "/a")]
  {
    assert "/a"[..1] == "/" && "/"[..0] == "";
  }

  lemma TabFails(r: Rules, c: Cfg)
    requires r.counting && c.stop == Running && c.p.state == Url(ReqPath) && c.p.nread == 6
    ensures OnByte(r, c, '\t').stop == Failed
  {
    RequestLine.UrlByteRead(r, c, '\t');
  }

  /** A tab in a path is refused: one call does not deliver the path before it, two calls may. */
  lemma ErrorLosesRun(skips: seq<Event> -> bool, on: Callbacks)
    requires Agrees(on, Rules(true, false, skips))
    ensures var p := Init(Request);
            && LosesRun(Rules(true, false, skips), Begin(Rules(true, false, skips), p, []), TAB_IN_PATH)
            && Joined(Calls(p, ["GET /a", "\t"], on, []).trace) == [MessageBegin, Data(KUrl, "/a")]
            && Joined(Exec(p, TAB_IN_PATH, on, []).trace) != [MessageBegin, Data(KUrl, "/a")]
  {
    hide Exec, Calls, Feed, OnByte, Resting;
    var r, p := Rules(true, false, skips), Init(Request);
    var b := Begin(r, p, []);
    var c := Feed(r, b, "GET /a");
    InitRests(Request);
    PathReads(r, b);
    assert TAB_IN_PATH == "GET /a" + ['\t'] && TAB_IN_PATH[..6] == "GET /a";
    FeedSnoc(r, b, "GET /a", '\t');
    TabFails(r, c);
    ByteTakes(r, c, '\t');
    FeedTakes(r, b, "GET /a");
    FailedRecord(r, c, '\t');
    OneRecord(r, p, TAB_IN_PATH, on, []);
    var pieces := ["GET /a", "\t"];
    assert Concat(pieces) == TAB_IN_PATH by {
      TwoPieces(TAB_IN_PATH, 6);
      assert TAB_IN_PATH[6..] == "\t";
    }
    assert CutAt(pieces, 6) by { assert CutAt(pieces[1..], 0); }
    CallsRecord(r, p, pieces, on, []);
  }

  lemma {:induction false} FailedRedo(r: Rules, c: Cfg, b: char)
    requires c.stop == Running && c.p.state == Url(ReqPath) && Redo(r, c, b).stop == Failed
    ensures Redo(r, c, b).trace == c.trace
  {
    hide ParseUrlChar;
  }

  lemma FailedRecord(r: Rules, c: Cfg, b: char)
    requires r.counting && c.stop == Running && c.p.state == Url(ReqPath) && OnByte(r, c, b).stop == Failed
    ensures OnByte(r, c, b).trace == c.trace
  {
    hide Redo;
    if !Overflows(c.p) {
      FailedRedo(r, c.(p := Tick(c.p)), b);
    }
  }
}
