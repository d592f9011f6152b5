/**
 Pauses and the limit on header bytes, exactly. The reference here counts a byte once more after
 each callback that is made before the byte is read, as if the application paused at each. No
 application that pauses meets the limit if and only if this reference does not.
 */
module PauseLimit {
  import opened Types
  import opened Arms
  import opened Execute
  import opened Invariant
  import opened Marking
  import opened Reference
  import opened Bridge
  import opened Consumption
  import opened Refinement
  import opened Cutting
  import opened Pausing

  // ----- the reference that counts again

  function OverLimit(c: Cfg): Cfg {
    c.(p := Tick(c.p).(errno := HeaderOverflow), stop := Failed)
  }

  /** A byte, from the switch on: it is counted again when it is looked at again after a callback. */
  function RedoPaused(r: Rules, c: Cfg, b: char): Cfg
    decreases Rank(c.p.state)
  {
    var a := Arm(c.p, b, 1);
    var x := React(r, c, a, b);
    if !x.again then x.c
    else if a.next.Quiet? then RedoPaused(r, x.c, b)
    else if Overflows(x.c.p) then OverLimit(x.c)
    else RedoPaused(r, x.c.(p := Tick(x.c.p)), b)
  }

  function OnBytePaused(r: Rules, c: Cfg, b: char): Cfg {
    if c.stop != Running then c
    else if Overflows(c.p) then OverLimit(c)
    else RedoPaused(r, c.(p := Tick(c.p)), b)
  }

  function FeedPaused(r: Rules, c: Cfg, bytes: string): Cfg
    decreases |bytes|
  {
    if bytes == [] then c else FeedPaused(r, OnBytePaused(r, c, bytes[0]), bytes[1..])
  }

  /** Feeding the bytes from i on, when byte i has been counted. */
  function FeedOnPaused(r: Rules, c: Cfg, data: string, i: nat): Cfg
    requires i < |data|
  {
    FeedPaused(r, RedoPaused(r, c, data[i]), data[i + 1..])
  }

  lemma {:induction false} PausedAppend(r: Rules, c: Cfg, a: string, b: string)
    ensures FeedPaused(r, c, a + b) == FeedPaused(r, FeedPaused(r, c, a), b)
    decreases |a|
  {
    hide OnBytePaused;
    if a == [] {
      assert a + b == b;
    } else {
      assert (a + b)[1..] == a[1..] + b;
      PausedAppend(r, OnBytePaused(r, c, a[0]), a[1..], b);
    }
  }

  lemma {:induction false} PausedStopped(r: Rules, c: Cfg, bytes: string)
    requires c.stop != Running
    ensures FeedPaused(r, c, bytes) == c
    decreases |bytes|
  {
    if bytes != [] {
      PausedStopped(r, c, bytes[1..]);
    }
  }

  lemma {:induction false} RedoPausedShift(r: Rules, c: Cfg, b: char, k: nat)
    ensures RedoPaused(r, Shift(c, k), b) == Shift(RedoPaused(r, c, b), k)
    decreases Rank(c.p.state)
  {
    hide Arm, React, Overflows;
    var a := Arm(c.p, b, 1);
    var x := React(r, c, a, b);
    ReactShift(r, c, a, b, k);
    if x.again && a.next.Quiet? {
      RedoPausedShift(r, x.c, b, k);
    } else if x.again {
      RedoPausedShift(r, x.c.(p := Tick(x.c.p)), b, k);
    }
  }

  lemma {:induction false} PausedShift(r: Rules, c: Cfg, bytes: string, k: nat)
    ensures FeedPaused(r, Shift(c, k), bytes) == Shift(FeedPaused(r, c, bytes), k)
    decreases |bytes|
  {
    hide RedoPaused, Overflows;
    if bytes != [] {
      RedoPausedShift(r, c.(p := Tick(c.p)), bytes[0], k);
      PausedShift(r, OnBytePaused(r, c, bytes[0]), bytes[1..], k);
    }
  }

  // ----- where a higher count does not meet the limit, a lower one does not

  /** c is d but for a count that is not higher. */
  predicate Below(c: Cfg, d: Cfg) {
    d == c.(p := c.p.(nread := d.p.nread)) && c.p.nread <= d.p.nread
  }

  /** The limit has been met. */
  predicate Met(c: Cfg) {
    c.p.errno == HeaderOverflow
  }

  /** Ready for the switch: byte counted, no error. */
  predicate InSwitch(c: Cfg) {
    c.stop == Running && c.p.errno == OK && Looking(c.p)
  }

  predicate Rests(c: Cfg) {
    c.stop == Running && c.p.errno == OK && Resting(c.p)
  }

  lemma TickStays(p: Parser)
    requires Looking(p) && p.state != Chunk(ChunkSizeStart) && !Overflows(p)
    ensures Looking(Tick(p)) && Tick(p).nread == p.nread + if ParsingHeader(p.state) then 1 else 0
  {
  }

  lemma TickBelow(c: Cfg, d: Cfg)
    requires Below(c, d) && d.p.nread <= HTTP_MAX_HEADER_SIZE && !Overflows(d.p)
    ensures !Overflows(c.p) && Below(c.(p := Tick(c.p)), d.(p := Tick(d.p)))
  {
  }

  /** What a reaction is followed by, and that it does not meet the limit. */
  lemma ReactNext(r: Rules, c: Cfg, b: char)
    requires r.counting && InSwitch(c)
    ensures var a := Arm(c.p, b, 1);
            var x := React(r, c, a, b);
            && !Met(x.c)
            && (x.c.stop != Failed ==> x.c.p.errno == OK)
            && (x.c.stop == Running && !x.again ==> Rests(x.c))
            && (x.again ==> InSwitch(x.c) && (!a.next.Quiet? ==> x.c.p.state != Chunk(ChunkSizeStart)))
  {
    hide Arm, Good, Looks;
    var a := Arm(c.p, b, 1);
    ArmGood(c.p, b, 1);
    ArmLooks(c.p, b, 1);
    ReactGood(r, c, a, b);
    if React(r, c, a, b).again {
      AgainRuns(r, c, a, b);
    }
    ReactErrno(r, c, a, b);
  }

  lemma ReactErrno(r: Rules, c: Cfg, a: Act, b: char)
    requires r.counting && a.p.errno == OK && (a.next.Fail? ==> a.next.errno != HeaderOverflow)
    ensures var x := React(r, c, a, b);
            !Met(x.c) && (x.c.stop != Failed ==> x.c.p.errno == OK) && (x.again ==> x.c.p.state == a.p.state)
  {
    hide Emit;
  }

  /** An error that is not set by the limit, or none. */
  lemma {:induction false} RedoFine(r: Rules, c: Cfg, b: char)
    requires r.counting && InSwitch(c)
    ensures var d := RedoPaused(r, c, b);
            && (d.stop == Running ==> Rests(d)) && (Met(d) ==> d.stop == Failed)
    decreases Rank(c.p.state)
  {
    hide Arm, React, Good, Overflows, Looking, Rests;
    var a := Arm(c.p, b, 1);
    var x := React(r, c, a, b);
    ReactNext(r, c, b);
    if x.again && a.next.Quiet? {
      RedoFine(r, x.c, b);
    } else if x.again && !Overflows(x.c.p) {
      TickStays(x.c.p);
      RedoFine(r, x.c.(p := Tick(x.c.p)), b);
    }
  }

  lemma ReactBelow(r: Rules, c: Cfg, d: Cfg, b: char)
    requires r.counting && Below(c, d) && InSwitch(c) && InSwitch(d)
    ensures var x, y := React(r, c, Arm(c.p, b, 1), b), React(r, d, Arm(d.p, b, 1), b);
            Below(x.c, y.c) && x.again == y.again && Arm(c.p, b, 1).next == Arm(d.p, b, 1).next
  {
    hide Arm, React, Good;
    ArmAlike(c.p, d.p.nread, b);
    ArmCounts(c.p, d.p.nread, b);
    ReactAhead(r, c, d, Arm(c.p, b, 1), Arm(d.p, b, 1), b);
  }

  lemma CountIsBounded(c: Cfg)
    requires InSwitch(c) || Rests(c)
    ensures c.p.nread <= HTTP_MAX_HEADER_SIZE
  {
  }

  lemma {:induction false} RedoBelow(r: Rules, c: Cfg, d: Cfg, b: char)
    requires r.counting && Below(c, d) && InSwitch(c) && InSwitch(d)
    requires !Met(RedoPaused(r, d, b))
    ensures Below(RedoPaused(r, c, b), RedoPaused(r, d, b))
    decreases Rank(c.p.state)
  {
    hide Arm, React, Good, Overflows, Looking;
    var x, y := React(r, c, Arm(c.p, b, 1), b), React(r, d, Arm(d.p, b, 1), b);
    ReactBelow(r, c, d, b);
    ReactNext(r, c, b);
    ReactNext(r, d, b);
    if x.again && Arm(c.p, b, 1).next.Quiet? {
      RedoBelow(r, x.c, y.c, b);
    } else if x.again {
      CountIsBounded(y.c);
      TickBelow(x.c, y.c);
      TickStays(x.c.p);
      TickStays(y.c.p);
      RedoBelow(r, x.c.(p := Tick(x.c.p)), y.c.(p := Tick(y.c.p)), b);
    }
  }

  lemma ByteBelow(r: Rules, c: Cfg, d: Cfg, b: char)
    requires r.counting && Below(c, d) && Rests(c) && Rests(d) && !Met(OnBytePaused(r, d, b))
    ensures var x, y := OnBytePaused(r, c, b), OnBytePaused(r, d, b);
            Below(x, y) && (x.stop == Running ==> Rests(x) && Rests(y))
  {
    hide Good, RedoPaused, Overflows;
    CountIsBounded(d);
    TickBelow(c, d);
    TickLooks(c.p);
    TickLooks(d.p);
    RedoBelow(r, c.(p := Tick(c.p)), d.(p := Tick(d.p)), b);
    RedoFine(r, c.(p := Tick(c.p)), b);
    RedoFine(r, d.(p := Tick(d.p)), b);
  }

  lemma {:induction false} FeedBelow(r: Rules, c: Cfg, d: Cfg, s: string)
    requires r.counting && Below(c, d) && Rests(c) && Rests(d) && !Met(FeedPaused(r, d, s))
    ensures Below(FeedPaused(r, c, s), FeedPaused(r, d, s))
    decreases |s|
  {
    hide OnBytePaused, Rests;
    if s != "" {
      var x, y := OnBytePaused(r, c, s[0]), OnBytePaused(r, d, s[0]);
      NotMetYet(r, d, s[0], s[1..]);
      ByteBelow(r, c, d, s[0]);
      if x.stop == Running {
        FeedBelow(r, x, y, s[1..]);
      } else {
        PausedStopped(r, x, s[1..]);
        PausedStopped(r, y, s[1..]);
      }
    }
  }

  lemma NotMetYet(r: Rules, c: Cfg, b: char, rest: string)
    requires r.counting && Rests(c) && !Met(FeedPaused(r, OnBytePaused(r, c, b), rest))
    ensures !Met(OnBytePaused(r, c, b))
  {
    hide Good, RedoPaused, FeedPaused, Overflows;
    if !Overflows(c.p) {
      TickLooks(c.p);
      RedoFine(r, c.(p := Tick(c.p)), b);
    }
    if Met(OnBytePaused(r, c, b)) {
      PausedStopped(r, OnBytePaused(r, c, b), rest);
    }
  }

  /** Counting the first byte twice or once: when it has been looked at, and is left unread. */
  lemma OnceBelowTwice(r: Rules, c: Cfg, data: string, i: nat)
    requires r.counting && InSwitch(c) && i < |data| && c.p.state != Chunk(ChunkSizeStart)
    requires !Met(FeedPaused(r, c, data[i..]))
    ensures Below(FeedOnPaused(r, c, data, i), FeedPaused(r, c, data[i..]))
  {
    hide Good, RedoPaused, Overflows, Rests, FeedPaused;
    assert data[i..][0] == data[i] && data[i..][1..] == data[i + 1..];
    var d := c.(p := Tick(c.p));
    FeedPausedFirst(r, c, data[i..]);
    if Overflows(c.p) {
      PausedStopped(r, OverLimit(c), data[i + 1..]);
    } else {
      CountIsBounded(c);
      TickStays(c.p);
      RedoFine(r, c, data[i]);
      RedoFine(r, d, data[i]);
      if Met(RedoPaused(r, d, data[i])) {
        PausedStopped(r, RedoPaused(r, d, data[i]), data[i + 1..]);
      }
      RedoBelow(r, c, d, data[i]);
      var x, y := RedoPaused(r, c, data[i]), RedoPaused(r, d, data[i]);
      if x.stop == Running {
        FeedBelow(r, x, y, data[i + 1..]);
      } else {
        PausedStopped(r, x, data[i + 1..]);
        PausedStopped(r, y, data[i + 1..]);
      }
    }
  }

  lemma FeedPausedFirst(r: Rules, c: Cfg, s: string)
    requires s != "" && c.stop == Running
    ensures FeedPaused(r, c, s) ==
              FeedPaused(r, if Overflows(c.p) then OverLimit(c) else RedoPaused(r, c.(p := Tick(c.p)), s[0]), s[1..])
  {
    hide RedoPaused, Overflows;
  }

  // ----- a turn of the loop

  /**
   What a turn leaves to feed: the same byte without counting it, if no callback was made before
   it is looked at again; else the bytes from u.i on.
   */
  predicate ContinuesPaused(r: Rules, before: Cfg, trace: seq<Event>, u: Turn, data: string)
    requires u.i <= |data| && (Unread(u.verdict) ==> u.i < |data|)
  {
    before == if u.verdict.OnSame? && u.trace == trace then FeedOnPaused(r, TurnAt(r, u, data), data, u.i)
              else FeedPaused(r, TurnAt(r, u, data), data[u.i..])
  }

  /** An arm that looks at its byte again makes a callback, unless it is quiet. */
  lemma RepeatTells(p: Parser, a: Act, n: nat, marks: Marks, data: string, i: nat, on: Callbacks, trace: seq<Event>)
    requires MarksWithin(marks, i) && a.take == 1 && i < |data|
    requires MarksFit(p.state, marks, i, true) && Shape(p.state, a, n) && a.p.errno == OK && Repeats(a.next)
    ensures var u := Finish(a, marks, data, i, on, trace);
            && Unread(u.verdict) && u.i == i
            && (a.next.Quiet? ==> u.verdict.OnSame? && u.trace == trace)
            && (!a.next.Quiet? ==> u.trace != trace)
  {
    hide AfterCall;
    if a.next.Flush? {
      var m := SetMark(marks, a.mark, i);
      assert a.next.kind in m;
      assert |Finish(a, marks, data, i, on, trace).trace| == |trace| + 1;
    }
  }

  lemma TurnPaused(r: Rules, p: Parser, marks: Marks, data: string, i: nat, on: Callbacks, trace: seq<Event>)
    requires i < |data| && MarksWithin(marks, i) && MarksFit(p.state, marks, i, true)
    requires r.counting && Agrees(on, r) && p.errno == OK && Looking(p)
    ensures var u := Finish(Arm(p, data[i], 1), marks, data, i, on, trace);
            (Unread(u.verdict) ==> u.i < |data|)
            && ContinuesPaused(r, FeedOnPaused(r, Here(r, p, trace, marks, data, i), data, i), trace, u, data)
  {
    hide Arm, MarksFit, Looking, React, Finish, Pending, Shape, Overflows, FeedPaused;
    var a := Arm(p, data[i], 1);
    ArmGood(p, data[i], 1);
    ArmShape(p, data[i], 1);
    ActMatches(r, p, a, 1, marks, data, i, on, trace);
    var u := Finish(a, marks, data, i, on, trace);
    var c, h := TurnAt(r, u, data), Here(r, p, trace, marks, data, i);
    var x := React(r, h, a, data[i]);
    assert x.c == c;
    assert data[i..][0] == data[i] && data[i..][1..] == data[i + 1..];
    if x.again {
      AgainRuns(r, h, a, data[i]);
      RepeatTells(p, a, 1, marks, data, i, on, trace);
      FeedPausedFirst(r, c, data[i..]);
    } else if c.stop != Running {
      PausedStopped(r, c, data[i + 1..]);
      PausedStopped(r, c, data[u.i..]);
    }
  }

  // ----- a run of body bytes

  lemma RunBytePaused(r: Rules, c: Cfg, b: char)
    requires r.counting && RunOk(c.p) && c.stop == Running
    requires c.p.state == Body(BodyIdentityEof) || c.p.contentLength > 1
    ensures OnBytePaused(r, c, b)
         == Cfg(BeforeLast(c.p, 2), Emit(c.trace, Data(KBody, [b])), Running, c.taken + 1)
  {
    hide Emit;
    var a := Arm(c.p, b, 1);
    assert a.next == Quiet(Consume) && a.mark == Some(KBody) && a.p == BeforeLast(c.p, 2);
    hide Arm;
  }

  /** The bytes of a body run but not its last one. */
  lemma {:induction false} RunFeedsPaused(r: Rules, c: Cfg, bytes: string)
    requires r.counting && RunOk(c.p) && c.stop == Running
    requires bytes != [] && (c.p.state == Body(BodyIdentityEof) || |bytes| < c.p.contentLength)
    ensures FeedPaused(r, c, bytes)
         == Cfg(BeforeLast(c.p, |bytes| + 1), Emit(c.trace, Data(KBody, bytes)), Running, c.taken + |bytes|)
    decreases |bytes|
  {
    hide OnBytePaused, Emit;
    RunBytePaused(r, c, bytes[0]);
    if |bytes| > 1 {
      RunFeedsPaused(r, OnBytePaused(r, c, bytes[0]), bytes[1..]);
      EmitEmit(c.trace, KBody, [bytes[0]], bytes[1..]);
      assert [bytes[0]] + bytes[1..] == bytes;
    } else {
      assert [bytes[0]] == bytes;
    }
  }

  lemma RunFeedOnPaused(r: Rules, c: Cfg, data: string, i: nat)
    requires r.counting && i < |data| && BodyRun(c.p.state) && c.stop == Running
    ensures FeedOnPaused(r, c, data, i) == FeedPaused(r, c, data[i..])
  {
    hide RedoPaused;
    assert data[i..][1..] == data[i + 1..];
    assert OnBytePaused(r, c, data[i]) == RedoPaused(r, c, data[i]);
  }

  /** The bytes of a run before its last one. */
  lemma RunUpToPaused(r: Rules, p: Parser, data: string, i: nat, j: nat, trace: seq<Event>)
    requires r.counting && i < j < |data| && BodyRun(p.state) && Looking(p) && p.errno == OK
    requires p.state == Body(BodyIdentityEof) || j - i < p.contentLength
    ensures FeedOnPaused(r, Here(r, p, trace, map[], data, i), data, i)
         == FeedOnPaused(r, Here(r, BeforeLast(p, j - i + 1), trace, map[KBody := i], data, j), data, j)
  {
    hide FeedPaused, FeedOnPaused, Looking, Joined, Emit;
    var c := Here(r, p, trace, map[], data, i);
    var d := Here(r, BeforeLast(p, j - i + 1), trace, map[KBody := i], data, j);
    RunFeedOnPaused(r, c, data, i);
    assert data[i..] == data[i..j] + data[j..];
    PausedAppend(r, c, data[i..j], data[j..]);
    LookingRuns(p);
    RunFeedsPaused(r, c, data[i..j]);
    assert FeedPaused(r, c, data[i..j]) == d;
    RunFeedOnPaused(r, d, data, j);
  }

  lemma RunPassPaused(r: Rules, p: Parser, marks: Marks, data: string, i: nat, on: Callbacks, trace: seq<Event>)
    requires i < |data| && MarksWithin(marks, i) && MarksFit(p.state, marks, i, false)
    requires r.counting && Agrees(on, r) && p.errno == OK && Looking(p)
    requires BodyRun(p.state) && Arm(p, data[i], |data| - i).take > 1
    ensures ContinuesPaused(r, FeedOnPaused(r, Here(r, p, trace, marks, data, i), data, i), trace,
                            Pass(p, marks, data, i, on, trace), data)
  {
    hide Arm, Finish, FeedOnPaused, Here, Looking, ContinuesPaused;
    var a := Arm(p, data[i], |data| - i);
    var j := i + a.take - 1;
    ArmGood(p, data[i], |data| - i);
    ArmShape(p, data[i], |data| - i);
    LookingRuns(p);
    RunArm(p, data[i], data[j], |data| - i);
    RunUpToPaused(r, p, data, i, j, trace);
    var q := BeforeLast(p, a.take);
    LookingBeforeLast(p, a.take);
    TurnPaused(r, q, map[KBody := i], data, j, on, trace);
    RunFinish(a, data, i, on, trace);
  }

  lemma PassPaused(r: Rules, p: Parser, marks: Marks, data: string, i: nat, on: Callbacks, trace: seq<Event>)
    requires i < |data| && MarksWithin(marks, i) && MarksFit(p.state, marks, i, false)
    requires r.counting && Agrees(on, r) && p.errno == OK && Looking(p)
    ensures ContinuesPaused(r, FeedOnPaused(r, Here(r, p, trace, marks, data, i), data, i), trace,
                            Pass(p, marks, data, i, on, trace), data)
  {
    hide Arm, Finish, FeedOnPaused, Here, Looking, ContinuesPaused;
    var a := Arm(p, data[i], |data| - i);
    if !BodyRun(p.state) {
      ArmAvail(p, data[i], |data| - i);
      TurnPaused(r, p, marks, data, i, on, trace);
    } else if a.take == 1 {
      LookingRuns(p);
      RunArm(p, data[i], data[i], |data| - i);
      TurnPaused(r, p, marks, data, i, on, trace);
    } else {
      RunPassPaused(r, p, marks, data, i, on, trace);
    }
  }

  // ----- a call

  /** An application that pauses at every callback. */
  ghost predicate AlwaysPauses(on: Callbacks) {
    forall t :: t != [] ==> on(t).pause
  }

  /** With it no turn goes on at the same byte after a callback. */
  lemma NoSecondLook(p: Parser, marks: Marks, data: string, i: nat, on: Callbacks, trace: seq<Event>)
    requires i < |data| && MarksWithin(marks, i) && AlwaysPauses(on)
    requires Pass(p, marks, data, i, on, trace).verdict.OnSame?
    ensures Pass(p, marks, data, i, on, trace).trace == trace
  {
    hide Arm, Call;
  }

  /** w is what the reference makes of all the data, and v of what a call has left of it. */
  ghost predicate Paces(on: Callbacks, v: Cfg, w: Cfg) {
    (!Met(w) ==> Below(v, w)) && (AlwaysPauses(on) ==> v == w)
  }

  lemma SamePace(on: Callbacks, w: Cfg)
    ensures Paces(on, w, w)
  {
  }

  lemma SlowerPace(on: Callbacks, u: Cfg, v: Cfg, w: Cfg)
    requires Paces(on, u, v) && Paces(on, v, w)
    ensures Paces(on, u, w)
  {
    hide AlwaysPauses;
  }

  function LeftBy(r: Rules, o: Outcome, data: string): Cfg
    requires o.ret <= |data|
  {
    FeedPaused(r, CallAt(r, o, data), data[o.ret..])
  }

  lemma {:induction false} LoopPaused(r: Rules, p: Parser, marks: Marks, data: string, i: nat,
                                      on: Callbacks, trace: seq<Event>)
    requires i <= |data| && data != [] && MarksWithin(marks, i) && MarksFit(p.state, marks, i, i == |data|)
    requires r.counting && Agrees(on, r) && p.errno == OK && Resting(p)
    ensures var o := Loop(p, marks, data, i, on, trace);
            o.ret <= |data|
            && Paces(on, LeftBy(r, o, data), FeedPaused(r, Here(r, p, trace, marks, data, i), data[i..]))
    decreases |data| - i, Rank(p.state), 1
  {
    hide LookAt, MarksFit, Resting, Good, RedoPaused, Pending, Overflows, Paces, FeedPaused, FlushAll;
    var o := Loop(p, marks, data, i, on, trace);
    var c := Here(r, p, trace, marks, data, i);
    if i == |data| {
      FlushFeeds(r, p, marks, data, on, trace);
      SamePace(on, LeftBy(r, o, data));
    } else {
      TickLooks(p);
      FeedPausedFirst(r, c, data[i..]);
      assert data[i..][0] == data[i] && data[i..][1..] == data[i + 1..];
      if Overflows(p) {
        PausedStopped(r, CallAt(r, o, data), data[i..]);
        PausedStopped(r, CallAt(r, o, data), data[i + 1..]);
        SamePace(on, LeftBy(r, o, data));
      } else {
        LookPaused(r, Tick(p), marks, data, i, on, trace);
      }
    }
  }

  lemma {:induction false} LookPaused(r: Rules, p: Parser, marks: Marks, data: string, i: nat,
                                      on: Callbacks, trace: seq<Event>)
    requires i < |data| && MarksWithin(marks, i) && MarksFit(p.state, marks, i, false)
    requires r.counting && Agrees(on, r) && p.errno == OK && Looking(p)
    ensures var o := LookAt(p, marks, data, i, on, trace);
            o.ret <= |data|
            && Paces(on, LeftBy(r, o, data), FeedOnPaused(r, Here(r, p, trace, marks, data, i), data, i))
    decreases |data| - i, Rank(p.state), 0
  {
    hide Pass, MarksFit, Resting, Good, FeedOnPaused, FeedPaused, Pending, Loop, Paces, Looks;
    var o := LookAt(p, marks, data, i, on, trace);
    var u := Pass(p, marks, data, i, on, trace);
    PassPaused(r, p, marks, data, i, on, trace);
    PassGood(p, marks, data, i, on, trace);
    match u.verdict
    case OnSame =>
      LookPaused(r, u.p, u.marks, data, u.i, on, u.trace);
      if u.trace != trace {
        PassLooks(p, marks, data, i, on, trace);
        TwicePace(r, p, marks, data, i, on, trace);
        SlowerPace(on, LeftBy(r, o, data), FeedOnPaused(r, TurnAt(r, u, data), data, u.i),
                   FeedPaused(r, TurnAt(r, u, data), data[u.i..]));
      }
    case OnNext => LoopPaused(r, u.p, u.marks, data, u.i, on, u.trace);
    case Stop(how) => SamePace(on, LeftBy(r, o, data));
  }

  lemma TwicePace(r: Rules, p: Parser, marks: Marks, data: string, i: nat, on: Callbacks, trace: seq<Event>)
    requires i < |data| && MarksWithin(marks, i) && r.counting
    requires var u := Pass(p, marks, data, i, on, trace);
             && u.verdict.OnSame? && u.trace != trace && u.p.errno == OK && Looking(u.p)
             && u.p.state != Chunk(ChunkSizeStart)
    ensures var u := Pass(p, marks, data, i, on, trace);
            Paces(on, FeedOnPaused(r, TurnAt(r, u, data), data, u.i), FeedPaused(r, TurnAt(r, u, data), data[u.i..]))
  {
    hide Pass, FeedOnPaused, FeedPaused, Good, Pending, Below, AlwaysPauses;
    var u := Pass(p, marks, data, i, on, trace);
    var c := TurnAt(r, u, data);
    if AlwaysPauses(on) {
      NoSecondLook(p, marks, data, i, on, trace);
    } else if !Met(FeedPaused(r, c, data[u.i..])) {
      OnceBelowTwice(r, c, data, u.i);
    }
  }

  lemma ExecPaused(r: Rules, p: Parser, data: string, on: Callbacks, trace: seq<Event>)
    requires r.counting && data != [] && Agrees(on, r) && p.errno == OK && Resting(p)
    ensures var o := Exec(p, data, on, trace);
            o.ret <= |data| && Paces(on, LeftBy(r, o, data), FeedPaused(r, Begin(r, p, trace), data))
  {
    hide Loop, Resting, Good, Joined, Emit, Paces, FeedPaused;
    var marks := FirstMarks(p.state);
    MarksStart(p.state, |data|);
    LoopPaused(r, p, marks, data, 0, on, trace);
    assert data[0..] == data;
    assert Here(r, p, trace, marks, data, 0) == Begin(r, p, trace);
  }

  // ----- going on after every pause

  /** The outcome is what w says, but for nread; a parse error may lose the last run. */
  ghost predicate EndsAs(w: Cfg, o: Outcome) {
    && w.p == o.p.(nread := w.p.nread) && w.taken == o.ret && w.stop == StopOf(o.how)
    && !o.how.CallbackExit? && o.how != Aborted
    && UpToRun(w.trace, Joined(o.trace)) && (o.how != ErrorExit ==> w.trace == Joined(o.trace))
  }

  ghost predicate EndsWithin(on: Callbacks, w: Cfg, o: Outcome) {
    && (!Met(w) ==> EndsAs(w, o) && o.p.nread <= w.p.nread)
    && (AlwaysPauses(on) ==> EndsAs(w, o) && o.p.nread == w.p.nread)
  }

  lemma EndsAtPace(on: Callbacks, v: Cfg, w: Cfg, o: Outcome)
    requires EndsWithin(on, v, o) && Paces(on, v, w)
    ensures EndsWithin(on, w, o)
  {
    hide AlwaysPauses, UpToRun, Joined;
  }

  /** A call that is not paused. */
  lemma EndsHere(r: Rules, o: Outcome, data: string, on: Callbacks)
    requires r.counting && o.ret <= |data| && (o.how == AllRead ==> o.ret == |data|) && o.p.errno != Paused
    requires !o.how.CallbackExit? && o.how != Aborted && (o.how != ErrorExit ==> o.marks == map[])
    ensures EndsWithin(on, LeftBy(r, o, data), o)
  {
    hide AlwaysPauses, UpToRun, Joined, Pending, FeedPaused;
    var c := CallAt(r, o, data);
    if o.how == AllRead {
      assert data[o.ret..] == [];
      NothingPaused(r, c);
    } else {
      PausedStopped(r, c, data[o.ret..]);
    }
    PendingUpToRun(o.trace, o.marks, data, o.ret);
    if o.how != ErrorExit {
      NoneMarked(o.trace, data, o.ret);
    }
  }

  lemma NothingPaused(r: Rules, c: Cfg)
    ensures FeedPaused(r, c, []) == c
  {
  }

  lemma NoneMarked(trace: seq<Event>, data: string, i: nat)
    requires i <= |data|
    ensures Pending(trace, map[], data, i) == Joined(trace)
  {
    hide Joined;
  }

  lemma ShiftEnds(on: Callbacks, w: Cfg, o: Outcome, k: nat)
    requires EndsWithin(on, w, o)
    ensures EndsWithin(on, Shift(w, k), o.(ret := k + o.ret))
  {
    hide AlwaysPauses, UpToRun, Joined;
  }

  lemma PauseRestsIfSet(p: Parser)
    requires Inv(p)
    ensures p.errno == Paused ==> Resting(Pause(p, false)) && Pause(p, false).errno == OK
    ensures p.errno == OK ==> Resting(p)
  {
    hide Good;
    if p.errno == Paused {
      PauseRests(p, false);
    }
  }

  /** After a pause: the rest of the run, as it ends, is the end of the whole. */
  lemma DriveOnce(p: Parser, data: string, on: Callbacks, trace: seq<Event>)
    requires p.errno == OK && data != []
    requires var o := Exec(p, data, on, trace); o.how.CallbackExit? && o.p.errno == Paused && o.ret <= |data|
    ensures var o := Exec(p, data, on, trace);
            var d := Drive(Pause(o.p, false), data[o.ret..], on, o.trace);
            Drive(p, data, on, trace) == d.(ret := o.ret + d.ret)
  {
    hide Exec;
  }

  lemma NothingMarked(r: Rules, p: Parser, data: string, on: Callbacks, trace: seq<Event>)
    requires r.counting && Agrees(on, r) && p.errno == OK && Resting(p) && data != []
    requires Exec(p, data, on, trace).how.CallbackExit?
    ensures var o := Exec(p, data, on, trace); o.p.errno == Paused && o.marks == map[]
  {
    hide Exec, Resting, Joined, Begin, UpToRun, Feed;
    ExecFeeds(r, p, data, on, trace);
  }

  lemma PausedGoesOn(r: Rules, p: Parser, data: string, on: Callbacks, trace: seq<Event>)
    requires r.counting && Agrees(on, r) && p.errno == OK && Resting(p) && data != []
    requires var o := Exec(p, data, on, trace);
             && o.how.CallbackExit? && o.ret <= |data|
             && EndsWithin(on, FeedPaused(r, Begin(r, Pause(o.p, false), o.trace), data[o.ret..]),
                           Drive(Pause(o.p, false), data[o.ret..], on, o.trace))
    ensures EndsWithin(on, FeedPaused(r, Begin(r, p, trace), data), Drive(p, data, on, trace))
  {
    hide Exec, Resting, FeedPaused, Paces, EndsWithin, Looks, Joined, Drive, LeftBy, Begin, Pause, Shift, UpToRun;
    var o := Exec(p, data, on, trace);
    NothingMarked(r, p, data, on, trace);
    ExecPaused(r, p, data, on, trace);
    var d := Drive(Pause(o.p, false), data[o.ret..], on, o.trace);
    DriveOnce(p, data, on, trace);
    LeftToDrive(r, o, data);
    ShiftEnds(on, FeedPaused(r, Begin(r, Pause(o.p, false), o.trace), data[o.ret..]), d, o.ret);
    EndsAtPace(on, LeftBy(r, o, data), FeedPaused(r, Begin(r, p, trace), data), d.(ret := o.ret + d.ret));
  }

  lemma NotPausedEnds(r: Rules, p: Parser, data: string, on: Callbacks, trace: seq<Event>)
    requires r.counting && Agrees(on, r) && p.errno == OK && Resting(p) && data != []
    requires !Exec(p, data, on, trace).how.CallbackExit?
    ensures EndsWithin(on, FeedPaused(r, Begin(r, p, trace), data), Drive(p, data, on, trace))
  {
    hide Exec, Resting, FeedPaused, Paces, EndsWithin, Looks, Joined;
    var o := Exec(p, data, on, trace);
    var w := FeedPaused(r, Begin(r, p, trace), data);
    ExecEnds(p, data, on, trace);
    ExecFeeds(r, p, data, on, trace);
    ExecPaused(r, p, data, on, trace);
    if o.p.errno == Paused {
      UpgradePaused(r, o, data, on);
      EndsAtPace(on, LeftBy(r, o, data), w, o.(p := Pause(o.p, false)));
    } else {
      EndsHere(r, o, data, on);
      EndsAtPace(on, LeftBy(r, o, data), w, o);
    }
  }

  lemma {:induction false} DrivePaused(r: Rules, p: Parser, data: string, on: Callbacks, trace: seq<Event>)
    requires r.counting && Agrees(on, r) && p.errno == OK && Resting(p)
    ensures EndsWithin(on, FeedPaused(r, Begin(r, p, trace), data), Drive(p, data, on, trace))
    decreases |data|, Looks(p.state)
  {
    hide Exec, Resting, FeedPaused, EndsWithin, Looks, Joined, Drive;
    if data == [] {
      NoneDriven(r, p, on, trace);
    } else {
      var o := Exec(p, data, on, trace);
      if o.how.CallbackExit? {
        ExecFeeds(r, p, data, on, trace);
        ExecEnds(p, data, on, trace);
        ExecCounts(p, data, on, trace);
        PauseRestsIfSet(o.p);
        DrivePaused(r, Pause(o.p, false), data[o.ret..], on, o.trace);
        PausedGoesOn(r, p, data, on, trace);
      } else {
        NotPausedEnds(r, p, data, on, trace);
      }
    }
  }

  lemma NoneDriven(r: Rules, p: Parser, on: Callbacks, trace: seq<Event>)
    requires r.counting
    ensures EndsWithin(on, FeedPaused(r, Begin(r, p, trace), []), Drive(p, [], on, trace))
  {
    hide AlwaysPauses, Joined;
  }

  /** The application paused in the callback of a call that leaves for an upgrade. */
  lemma UpgradePaused(r: Rules, o: Outcome, data: string, on: Callbacks)
    requires r.counting && o.ret <= |data| && o.p.errno == Paused && o.how == UpgradeExit && o.marks == map[]
    ensures EndsWithin(on, LeftBy(r, o, data), o.(p := Pause(o.p, false)))
  {
    hide AlwaysPauses, UpToRun, Joined, Pending, FeedPaused;
    EndsHere(r, o.(p := Pause(o.p, false)), data, on);
  }

  lemma LeftToDrive(r: Rules, o: Outcome, data: string)
    requires r.counting && o.ret <= |data| && o.p.errno == Paused && o.how.CallbackExit? && o.marks == map[]
    ensures LeftBy(r, o, data) == Shift(FeedPaused(r, Begin(r, Pause(o.p, false), o.trace), data[o.ret..]), o.ret)
  {
    hide FeedPaused, Joined, Pending;
    NoneMarked(o.trace, data, o.ret);
    assert CallAt(r, o, data) == Shift(Begin(r, Pause(o.p, false), o.trace), o.ret);
    PausedShift(r, Begin(r, Pause(o.p, false), o.trace), data[o.ret..], o.ret);
  }

  // ----- going on after every pause, in calls cut anywhere

  /** The application drives each piece to its end before it takes the next one. */
  function DriveAll(p: Parser, pieces: seq<string>, on: Callbacks, trace: seq<Event>): Outcome
    decreases |pieces|
  {
    if pieces == [] then Outcome(p, trace, 0, AllRead, map[])
    else
      var o := Drive(p, pieces[0], on, trace);
      if o.how != AllRead then o
      else
        var rest := DriveAll(o.p, pieces[1..], on, o.trace);
        rest.(ret := |pieces[0]| + rest.ret)
  }

  lemma {:induction false} FeedFine(r: Rules, c: Cfg, s: string)
    requires r.counting && Rests(c)
    ensures var d := FeedPaused(r, c, s);
            && (d.stop == Running ==> Rests(d)) && (Met(d) ==> d.stop == Failed)
    decreases |s|
  {
    hide Good, RedoPaused, Overflows;
    if s != "" {
      TickLooks(c.p);
      if !Overflows(c.p) {
        RedoFine(r, c.(p := Tick(c.p)), s[0]);
      }
      var d := OnBytePaused(r, c, s[0]);
      if d.stop == Running {
        FeedFine(r, d, s[1..]);
      } else {
        PausedStopped(r, d, s[1..]);
      }
    }
  }

  /** A piece that has been driven to its end leaves the parser ready for more. */
  lemma {:induction false} DriveRests(p: Parser, data: string, on: Callbacks, trace: seq<Event>)
    requires p.errno == OK && Resting(p)
    ensures var o := Drive(p, data, on, trace); o.how == AllRead ==> o.p.errno == OK && Resting(o.p) && o.ret == |data|
    decreases |data|, Looks(p.state)
  {
    hide Exec, Good, Looks;
    if data != [] {
      var o := Exec(p, data, on, trace);
      ExecEnds(p, data, on, trace);
      ExecCounts(p, data, on, trace);
      PauseRestsIfSet(o.p);
      if o.p.errno == Paused && o.how.CallbackExit? {
        DriveRests(Pause(o.p, false), data[o.ret..], on, o.trace);
      }
    }
  }

  /** What the rest is fed to: the driven parser, or the reference, which may be ahead. */
  lemma RestPaces(r: Rules, c: Cfg, o: Outcome, rest: string, k: nat, on: Callbacks)
    requires r.counting && EndsWithin(on, c, o) && o.how == AllRead && o.ret == k && o.p.errno == OK && Resting(o.p)
    requires (c.stop == Running ==> Rests(c)) && (Met(c) ==> c.stop == Failed)
    ensures Paces(on, Shift(FeedPaused(r, Begin(r, o.p, o.trace), rest), k), FeedPaused(r, c, rest))
  {
    hide Good, FeedPaused, AlwaysPauses, Joined, UpToRun;
    var b := Shift(Begin(r, o.p, o.trace), k);
    PausedShift(r, Begin(r, o.p, o.trace), rest, k);
    if AlwaysPauses(on) {
      assert b == c;
    } else if Met(c) {
      PausedStopped(r, c, rest);
    } else if !Met(FeedPaused(r, c, rest)) {
      FeedBelow(r, b, c, rest);
    }
  }

  lemma {:induction false} DriveAllPaused(r: Rules, p: Parser, pieces: seq<string>, on: Callbacks, trace: seq<Event>)
    requires r.counting && Agrees(on, r) && p.errno == OK && Resting(p)
    ensures EndsWithin(on, FeedPaused(r, Begin(r, p, trace), Concat(pieces)), DriveAll(p, pieces, on, trace))
    decreases |pieces|
  {
    hide Drive, Resting, FeedPaused, Paces, Joined, EndsWithin;
    if pieces == [] {
      NoneDriven(r, p, on, trace);
      DriveNone(p, on, trace);
    } else {
      var b, rest := Begin(r, p, trace), Concat(pieces[1..]);
      var o := Drive(p, pieces[0], on, trace);
      var c := FeedPaused(r, b, pieces[0]);
      PausedAppend(r, b, pieces[0], rest);
      DrivePaused(r, p, pieces[0], on, trace);
      FeedFine(r, b, pieces[0]);
      if o.how == AllRead {
        DriveRests(p, pieces[0], on, trace);
        DriveAllPaused(r, o.p, pieces[1..], on, o.trace);
        var d := DriveAll(o.p, pieces[1..], on, o.trace);
        RestPaces(r, c, o, rest, |pieces[0]|, on);
        ShiftEnds(on, FeedPaused(r, Begin(r, o.p, o.trace), rest), d, |pieces[0]|);
        EndsAtPace(on, Shift(FeedPaused(r, Begin(r, o.p, o.trace), rest), |pieces[0]|), FeedPaused(r, c, rest),
                   d.(ret := |pieces[0]| + d.ret));
      } else {
        EndsEarly(r, c, o, rest, on);
      }
    }
  }

  lemma DriveNone(p: Parser, on: Callbacks, trace: seq<Event>)
    ensures Drive(p, [], on, trace) == Outcome(p, trace, 0, AllRead, map[])
  {
  }

  lemma EndsEarly(r: Rules, c: Cfg, o: Outcome, rest: string, on: Callbacks)
    requires EndsWithin(on, c, o) && o.how != AllRead && (Met(c) ==> c.stop == Failed)
    ensures EndsWithin(on, FeedPaused(r, c, rest), o)
  {
    hide AlwaysPauses, Joined, UpToRun, FeedPaused;
    if c.stop != Running {
      PausedStopped(r, c, rest);
    }
  }

  // ----- a count that is not lower stays so

  lemma {:induction false} CountStays(r: Rules, c: Cfg, d: Cfg, s: string)
    requires r.counting && Below(c, d) && Rests(c) && Rests(d) && !Met(Feed(r, d, s))
    ensures Below(Feed(r, c, s), Feed(r, d, s))
    decreases |s|
  {
    hide OnByte, Good;
    if s != "" {
      var x, y := OnByte(r, c, s[0]), OnByte(r, d, s[0]);
      if Overflows(d.p) {
        LimitExceeded(r, d, s[0]);
        PlainStopped(r, y, s[1..]);
      }
      ByteStays(r, c, d, s[0]);
      if x.stop == Running {
        CountStays(r, x, y, s[1..]);
      } else {
        PlainStopped(r, x, s[1..]);
        PlainStopped(r, y, s[1..]);
      }
    }
  }

  lemma ByteStays(r: Rules, c: Cfg, d: Cfg, b: char)
    requires r.counting && Below(c, d) && Rests(c) && Rests(d) && !Overflows(d.p)
    ensures var x, y := OnByte(r, c, b), OnByte(r, d, b);
            Below(x, y) && (x.stop == Running ==> Rests(x) && Rests(y))
  {
    hide Good, Redo, Overflows;
    CountIsBounded(d);
    TickBelow(c, d);
    TickLooks(c.p);
    TickLooks(d.p);
    RedoAhead(r, c.(p := Tick(c.p)), d.(p := Tick(d.p)), b);
  }

  lemma PlainStopped(r: Rules, c: Cfg, s: string)
    requires c.stop != Running
    ensures Feed(r, c, s) == c
  {
    FeedStopped(r, c, s);
  }

  /** Driving on never makes the count lower than the reference's. */
  lemma {:induction false} DriveAllCounts(r: Rules, p: Parser, pieces: seq<string>, on: Callbacks, trace: seq<Event>)
    requires r.counting && Agrees(on, r) && p.errno == OK && Resting(p)
    requires !(DriveAll(p, pieces, on, trace).p.errno == HeaderOverflow)
    ensures var d := Feed(r, Begin(r, p, trace), Concat(pieces));
            !Met(d) && d.p.nread <= DriveAll(p, pieces, on, trace).p.nread
    decreases |pieces|
  {
    hide Drive, Resting, Feed, Joined, UpToRun, Recounts;
    if pieces == [] {
      assert Feed(r, Begin(r, p, trace), []) == Begin(r, p, trace) by { NothingFed(r, Begin(r, p, trace)); }
    } else {
      var b, rest := Begin(r, p, trace), Concat(pieces[1..]);
      var o := Drive(p, pieces[0], on, trace);
      FeedAppend(r, b, pieces[0], rest);
      DriveRests(p, pieces[0], on, trace);
      DriveIs(r, p, pieces[0], on, trace);
      var c := Feed(r, b, pieces[0]);
      if o.how == AllRead {
        DriveAllCounts(r, o.p, pieces[1..], on, o.trace);
        var e := Begin(r, o.p, o.trace);
        FeedShift(r, e, rest, |pieces[0]|);
        LowerRests(c, Shift(e, |pieces[0]|));
        CountStays(r, c, Shift(e, |pieces[0]|), rest);
      } else {
        PlainStopped(r, c, rest);
      }
    }
  }

  lemma LowerRests(c: Cfg, d: Cfg)
    requires Below(c, d) && Rests(d)
    ensures Rests(c)
  {
  }

  lemma NothingFed(r: Rules, c: Cfg)
    ensures Feed(r, c, []) == c
  {
  }

  // ----- exactly when pauses are harmless

  /** The application that pauses at every callback, and else answers as the rules say. */
  function PausingAnswer(skips: seq<Event> -> bool, t: seq<Event>): Reply {
    Reply(if t != [] && t[|t| - 1].HeadersComplete? && skips(Joined(t)) then 1 else 0, true)
  }

  lemma PausingAgrees(skips: seq<Event> -> bool) returns (on: Callbacks)
    ensures Agrees(on, Rules(true, true, skips)) && AlwaysPauses(on)
  {
    on := t => PausingAnswer(skips, t);
    forall t | t != [] ensures AgreesAt(on, Rules(true, true, skips), t) {
    }
  }

  /** One that never pauses is among those that may. */
  lemma SteadyMayPause(skips: seq<Event> -> bool, on: Callbacks)
    requires Agrees(on, Rules(true, false, skips))
    ensures Agrees(on, Rules(true, true, skips))
  {
    forall t | t != [] ensures AgreesAt(on, Rules(true, true, skips), t) {
      assert AgreesAt(on, Rules(true, false, skips), t);
    }
  }

  /**
   The limit, exactly: whichever way an application pauses, going on from the returned offset
   never meets it, if and only if counting each byte once more after each callback made before it
   is read does not.
   */
  lemma NoPauseMeetsLimit(skips: seq<Event> -> bool, p: Parser, data: string, trace: seq<Event>)
    requires p.errno == OK && Resting(p)
    ensures var r := Rules(true, true, skips);
            (forall on | Agrees(on, r) :: Drive(p, data, on, trace).p.errno != HeaderOverflow)
            <==> FeedPaused(r, Begin(r, p, trace), data).p.errno != HeaderOverflow
  {
    hide Drive, FeedPaused, Resting, UpToRun, AlwaysPauses;
    var r := Rules(true, true, skips);
    forall on | Agrees(on, r)
      ensures EndsWithin(on, FeedPaused(r, Begin(r, p, trace), data), Drive(p, data, on, trace))
    {
      DrivePaused(r, p, data, on, trace);
    }
    var on := PausingAgrees(skips);
  }

  /** An application that never pauses drives in one call. */
  lemma SteadyDrives(skips: seq<Event> -> bool, p: Parser, data: string, steady: Callbacks, trace: seq<Event>)
    requires Agrees(steady, Rules(true, false, skips)) && data != [] && p.errno == OK && Resting(p)
    ensures Drive(p, data, steady, trace) == Exec(p, data, steady, trace)
  {
    hide Exec, Resting, Looks, Feed, FeedOn;
    ExecFeeds(Rules(true, false, skips), p, data, steady, trace);
  }

  lemma BothEnd(w: Cfg, d: Outcome, o: Outcome)
    requires EndsAs(w, d) && EndsAs(w, o) && o.p.nread <= d.p.nread
    ensures SameButAhead(d, o)
  {
    hide UpToRun, Joined;
    assert UpToRun(w.trace, Joined(d.trace)) && UpToRun(w.trace, Joined(o.trace));
  }

  /**
   Pausing, exactly. An application that pauses wherever it likes and goes on from the returned
   offset gets what one that never pauses gets: the same fields, bytes read and end, the same
   joined record, which a parse error may cut by the run it comes in, and a count of header bytes
   that is ahead by those that pauses have left unread since it was last set back. This holds for
   all such applications, and the one that never pauses does not meet the limit, if and only if
   counting each byte once more after each callback made before it is read does not meet it.
   */
  lemma PauseTransparency(skips: seq<Event> -> bool, p: Parser, data: string, steady: Callbacks, trace: seq<Event>)
    requires Agrees(steady, Rules(true, false, skips)) && data != [] && p.errno == OK && Resting(p)
    ensures var r := Rules(true, true, skips);
            (&& Exec(p, data, steady, trace).p.errno != HeaderOverflow
             && forall on | Agrees(on, r) ::
                  SameButCount(Drive(p, data, on, trace), Exec(p, data, steady, trace),
                               Recounts(r, p, data, on, trace)))
            <==> FeedPaused(r, Begin(r, p, trace), data).p.errno != HeaderOverflow
  {
    hide Exec, Drive, FeedPaused, Resting, Recounts, UpToRun, Joined;
    var r := Rules(true, true, skips);
    NoPauseMeetsLimit(skips, p, data, trace);
    SteadyMayPause(skips, steady);
    SteadyDrives(skips, p, data, steady, trace);
    if FeedPaused(r, Begin(r, p, trace), data).p.errno != HeaderOverflow {
      forall on | Agrees(on, r)
        ensures SameButCount(Drive(p, data, on, trace), Exec(p, data, steady, trace), Recounts(r, p, data, on, trace))
      {
        PauseAgrees(skips, p, data, on, steady, trace);
      }
    }
  }

  /**
   The same over calls cut anywhere: each piece is driven to its end. No cutting and no pausing
   makes a difference, but for the count, if and only if the same condition holds.
   */
  lemma PausesAndCuts(skips: seq<Event> -> bool, p: Parser, data: string, steady: Callbacks, trace: seq<Event>)
    requires Agrees(steady, Rules(true, false, skips)) && data != [] && p.errno == OK && Resting(p)
    ensures var r := Rules(true, true, skips);
            (&& Exec(p, data, steady, trace).p.errno != HeaderOverflow
             && forall on, pieces | Agrees(on, r) && Cuts(pieces, data) ::
                  SameButAhead(DriveAll(p, pieces, on, trace), Exec(p, data, steady, trace)))
            <==> FeedPaused(r, Begin(r, p, trace), data).p.errno != HeaderOverflow
  {
    hide Exec, DriveAll, Drive, FeedPaused, Resting, Joined, UpToRun, Agrees, Cuts;
    var r := Rules(true, true, skips);
    var w := FeedPaused(r, Begin(r, p, trace), data);
    if !Met(w) {
      NoPauseMeetsLimit(skips, p, data, trace);
      SteadyMayPause(skips, steady);
      SteadyDrives(skips, p, data, steady, trace);
      forall on, pieces | Agrees(on, r) && Cuts(pieces, data)
        ensures SameButAhead(DriveAll(p, pieces, on, trace), Exec(p, data, steady, trace))
      {
        CutsAgree(skips, p, data, pieces, on, steady, trace);
      }
    } else {
      var on := PausingAgrees(skips);
      DriveAllPaused(r, p, [data], on, trace);
      OnePiece(data);
      assert Cuts([data], data) && Concat([data]) == data by { CutsIs([data], data); }
      if SameButAhead(DriveAll(p, [data], on, trace), Exec(p, data, steady, trace)) {
        MetIsMet(on, w, DriveAll(p, [data], on, trace), Exec(p, data, steady, trace));
      }
    }
  }

  lemma CutsIs(pieces: seq<string>, data: string)
    requires Cuts(pieces, data)
    ensures Concat(pieces) == data
  {
  }

  lemma MetIsMet(on: Callbacks, w: Cfg, d: Outcome, o: Outcome)
    requires AlwaysPauses(on) && EndsWithin(on, w, d) && Met(w) && SameButAhead(d, o)
    ensures o.p.errno == HeaderOverflow
  {
    hide UpToRun, Joined, AlwaysPauses;
  }

  lemma CutsAgree(skips: seq<Event> -> bool, p: Parser, data: string, pieces: seq<string>,
                  on: Callbacks, steady: Callbacks, trace: seq<Event>)
    requires Agrees(steady, Rules(true, false, skips)) && Agrees(on, Rules(true, true, skips))
    requires data != [] && p.errno == OK && Resting(p) && Cuts(pieces, data)
    requires var r := Rules(true, true, skips); !Met(FeedPaused(r, Begin(r, p, trace), data))
    ensures SameButAhead(DriveAll(p, pieces, on, trace), Exec(p, data, steady, trace))
  {
    hide Exec, DriveAll, Drive, FeedPaused, Resting, Joined, UpToRun, AlwaysPauses, Feed, Recounts;
    var r := Rules(true, true, skips);
    SteadyMayPause(skips, steady);
    SteadyDrives(skips, p, data, steady, trace);
    DrivePaused(r, p, data, steady, trace);
    DriveAllPaused(r, p, pieces, on, trace);
    DriveAllCounts(r, p, pieces, on, trace);
    SteadyCounts(skips, p, data, steady, trace);
    BothEnd(FeedPaused(r, Begin(r, p, trace), data), DriveAll(p, pieces, on, trace), Exec(p, data, steady, trace));
  }

  lemma SteadyCounts(skips: seq<Event> -> bool, p: Parser, data: string, steady: Callbacks, trace: seq<Event>)
    requires Agrees(steady, Rules(true, false, skips)) && data != [] && p.errno == OK && Resting(p)
    ensures var r := Rules(true, true, skips);
            Feed(r, Begin(r, p, trace), data).p.nread == Exec(p, data, steady, trace).p.nread
  {
    hide Exec, Resting, Feed, Joined, Pending;
    var r := Rules(true, true, skips);
    SteadyMayPause(skips, steady);
    ExecFeeds(Rules(true, false, skips), p, data, steady, trace);
    ExecFeeds(r, p, data, steady, trace);
    var o := Exec(p, data, steady, trace);
    FeedStoppedOrDone(r, CallAt(r, o, data), data[o.ret..]);
  }

  /** The condition holds where the count and three times the bytes are within the limit. */
  lemma ThreeTimesFit(skips: seq<Event> -> bool, p: Parser, data: string, trace: seq<Event>)
    requires p.errno == OK && Resting(p) && p.nread + 3 * |data| <= HTTP_MAX_HEADER_SIZE
    ensures var r := Rules(true, true, skips);
            FeedPaused(r, Begin(r, p, trace), data).p.errno != HeaderOverflow
  {
    hide Drive, FeedPaused, Resting, Looks, Agrees;
    NoPauseMeetsLimit(skips, p, data, trace);
    forall on | Agrees(on, Rules(true, true, skips))
      ensures Drive(p, data, on, trace).p.errno != HeaderOverflow
    {
      LooksAtMostTwo(p.state);
      DriveFits(p, data, on, trace);
    }
  }
}
