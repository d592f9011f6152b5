/**
 Pausing. An application that pauses wherever it likes and goes on from the returned offset gets
 what one that never pauses gets, but for the count of header bytes: a byte that a pause leaves
 unread is counted again when it is fed again.
 */
module Pausing {
  import opened Chars
  import opened Types
  import opened UrlChar
  import opened Arms
  import opened Execute
  import opened Invariant
  import opened Marking
  import opened Reference
  import opened Bridge
  import opened Consumption
  import opened Refinement

  // ----- how often a byte can be left unread

  /** How many more callbacks can be made for a byte before it is read. */
  function Looks(s: State): nat {
    match s
    case Header(HeaderValueDiscardLws) => 2
    case Header(HeaderFieldStart) => 1
    case Header(HeaderValueLws) => 1
    case Header(HeaderValue) => 1
    case HeadersEnd(HeadersAlmostDone) => 1
    case Body(BodyIdentity) => 1
    case _ => 0
  }

  /**
   An arm that looks at the byte again uses up a look with its callback, and does not set back the
   count of a header byte; and no arm finds the limit exceeded.
   */
  predicate UsesLook(p: Parser, a: Act) {
    && (Repeats(a.next) ==>
          && Looks(a.p.state) + (if a.next.Quiet? then 0 else 1) <= Looks(p.state)
          && a.p.state != Chunk(ChunkSizeStart)
          && (ParsingHeader(a.p.state) ==> ParsingHeader(p.state) && a.p.nread == p.nread))
    && (a.next.Fail? ==> a.next.errno != HeaderOverflow)
  }

  lemma HeaderLooks(p: Parser, s: HeaderLineState, ch: char)
    requires p.state == Header(s)
    ensures UsesLook(p, HeaderArm(p, s, ch))
  {
    hide MatchFieldByte, MatchValueByte, Token, Lower;
  }

  lemma ArmLooks(p: Parser, ch: char, avail: nat)
    requires avail > 0
    ensures UsesLook(p, Arm(p, ch, avail))
  {
    match p.state
    case Start(s) => assert UsesLook(p, StartArm(p, s, ch));
    case StatusLine(s) => assert UsesLook(p, StatusLineArm(p, s, ch)) by { hide AddDigit; }
    case MethodName => assert UsesLook(p, MethodArm(p, ch)) by { hide MethodStr, OtherMethod; }
    case Url(s) => assert UsesLook(p, UrlArm(p, s, ch)) by { hide ParseUrlChar; }
    case Version(s) => assert UsesLook(p, VersionArm(p, s, ch)) by { hide AddDigit; }
    case Header(s) => HeaderLooks(p, s, ch);
    case HeadersEnd(s) => assert UsesLook(p, HeadersEndArm(p, s, ch));
    case Body(s) => assert UsesLook(p, BodyArm(p, s, avail));
    case Chunk(s) => assert UsesLook(p, ChunkArm(p, s, ch, avail)) by { hide Unhex; }
  }

  /** What a turn reads and counts: it never goes back, and adds nothing to the count. */
  lemma PassLooks(p: Parser, marks: Marks, data: string, i: nat, on: Callbacks, trace: seq<Event>)
    requires i < |data| && MarksWithin(marks, i) && p.errno == OK
    ensures var u := Pass(p, marks, data, i, on, trace);
            && u.p.nread <= p.nread && u.p.errno != HeaderOverflow
            && (Unread(u.verdict) ==> Looks(u.p.state) + (if u.verdict.Stop? then 1 else 0) <= Looks(p.state))
            && (Unread(u.verdict) ==>
                  && u.p.state != Chunk(ChunkSizeStart)
                  && (ParsingHeader(u.p.state) ==> ParsingHeader(p.state) && u.p.nread == p.nread))
            && (u.verdict == Stop(CallbackExit(false)) ==> u.i > i)
  {
    hide Arm, Looks;
    ArmLooks(p, data[i], |data| - i);
  }

  /** A parser paused before a byte that it has looked at. */
  predicate LeftUnread(p: Parser) {
    Looks(p.state) <= 1 && p.state != Chunk(ChunkSizeStart)
  }

  predicate HeaderCounted(p: Parser) {
    ParsingHeader(p.state) ==> p.nread > 0
  }

  /** What the loop from byte i on may have read and counted, when n is the end of the buffer. */
  predicate LoopBound(p: Parser, o: Outcome, i: nat, n: nat) {
    && i <= n && o.ret >= i
    && (o.how == CallbackExit(false) ==> (i < n ==> o.ret > i) && o.p.nread <= p.nread + (o.ret - i))
    && (o.how == CallbackExit(true) ==>
          && o.p.nread <= p.nread + (o.ret - i) + 1 && LeftUnread(o.p)
          && (p.nread <= HTTP_MAX_HEADER_SIZE ==> HeaderCounted(o.p))
          && (o.ret == i ==> Looks(o.p.state) < Looks(p.state)))
    && (p.nread + (n - i) <= HTTP_MAX_HEADER_SIZE ==> o.p.errno != HeaderOverflow)
  }

  /** The same when byte i has been counted already. */
  predicate LookBound(p: Parser, o: Outcome, i: nat, n: nat) {
    && i < n && o.ret >= i
    && (o.how == CallbackExit(false) ==> o.ret > i && o.p.nread <= p.nread + (o.ret - i) - 1)
    && (o.how == CallbackExit(true) ==>
          && o.p.nread <= p.nread + (o.ret - i) && LeftUnread(o.p)
          && (p.nread <= HTTP_MAX_HEADER_SIZE && HeaderCounted(p) ==> HeaderCounted(o.p))
          && (o.ret == i ==> Looks(o.p.state) < Looks(p.state)))
    && (p.nread + (n - i) - 1 <= HTTP_MAX_HEADER_SIZE ==> o.p.errno != HeaderOverflow)
  }

  lemma {:induction false} FlushCounts(kinds: seq<Kind>, p: Parser, marks: Marks, data: string,
                                       on: Callbacks, trace: seq<Event>)
    requires MarksWithin(marks, |data|) && p.errno == OK
    ensures var o := FlushAll(kinds, p, marks, data, on, trace);
            o.ret == |data| && o.p.nread == p.nread && o.p.errno != HeaderOverflow && o.how != CallbackExit(true)
  {
    if kinds != [] {
      if kinds[0] in marks {
        var e := Data(kinds[0], data[marks[kinds[0]]..]);
        var t := trace + [e];
        var q := AfterCall(p, e, on(t));
        if q.errno == OK {
          FlushCounts(kinds[1..], q, marks - {kinds[0]}, data, on, t);
        }
      } else {
        FlushCounts(kinds[1..], p, marks, data, on, trace);
      }
    }
  }

  lemma {:induction false} LoopCounts(p: Parser, marks: Marks, data: string, i: nat, on: Callbacks, trace: seq<Event>)
    requires i <= |data| && MarksWithin(marks, i) && p.errno == OK
    ensures LoopBound(p, Loop(p, marks, data, i, on, trace), i, |data|)
    decreases |data| - i, Rank(p.state), 1
  {
    hide LookAt, FlushAll, Looks;
    if i == |data| {
      FlushCounts(FLUSH_ORDER, p, marks, data, on, trace);
    } else if !Overflows(p) {
      LookCounts(Tick(p), marks, data, i, on, trace);
    }
  }

  lemma {:induction false} LookCounts(p: Parser, marks: Marks, data: string, i: nat, on: Callbacks, trace: seq<Event>)
    requires i < |data| && MarksWithin(marks, i) && p.errno == OK
    ensures LookBound(p, LookAt(p, marks, data, i, on, trace), i, |data|)
    decreases |data| - i, Rank(p.state), 0
  {
    hide Loop;
    var u := Pass(p, marks, data, i, on, trace);
    PassLooks(p, marks, data, i, on, trace);
    LooksAtMostTwo(p.state);
    hide Pass, Looks;
    match u.verdict
    case OnSame => LookCounts(u.p, u.marks, data, u.i, on, u.trace);
    case OnNext => LoopCounts(u.p, u.marks, data, u.i, on, u.trace);
    case Stop(how) =>
  }

  lemma LooksAtMostTwo(s: State)
    ensures Looks(s) <= 2
  {
  }

  lemma ExecCounts(p: Parser, data: string, on: Callbacks, trace: seq<Event>)
    requires data != [] && p.errno == OK
    ensures LoopBound(p, Exec(p, data, on, trace), 0, |data|)
  {
    LoopCounts(p, FirstMarks(p.state), data, 0, on, trace);
  }

  // ----- going on after every pause

  /**
   An application that goes on after every pause: it unpauses the parser and feeds it the
   bytes from the returned offset on. With no bytes left there is nothing to call for (a call
   without data would say that the stream has ended).
   */
  function Drive(p: Parser, data: string, on: Callbacks, trace: seq<Event>): Outcome
    decreases |data|, Looks(p.state)
  {
    if data == [] then Outcome(p, trace, 0, AllRead, map[])
    else
      var o := Exec(p, data, on, trace);
      var q := Pause(o.p, false);
      if o.p.errno != Paused || p.errno != OK || o.ret > |data| then o
      else if !o.how.CallbackExit? then o.(p := q)
      else
        ExecCounts(p, data, on, trace);
        var rest := Drive(q, data[o.ret..], on, o.trace);
        rest.(ret := o.ret + rest.ret)
  }

  /** A byte of s brings the count back to zero. */
  predicate Resets(r: Rules, c: Cfg, s: string)
    decreases |s|
  {
    s != "" && (OnByte(r, c, s[0]).p.nread == 0 || Resets(r, OnByte(r, c, s[0]), s[1..]))
  }

  /** The count that going on after a pause adds. */
  function Again(r: Rules, how: How, c: Cfg, rest: string): nat
    requires how.CallbackExit?
  {
    if how.unread && ParsingHeader(c.p.state) && !Resets(r, c, rest) then 1 else 0
  }

  /** How many header bytes were left unread by a pause since the count was last brought back to zero. */
  function Recounts(r: Rules, p: Parser, data: string, on: Callbacks, trace: seq<Event>): nat
    decreases |data|, Looks(p.state)
  {
    if data == [] then 0
    else
      var o := Exec(p, data, on, trace);
      var q := Pause(o.p, false);
      if o.p.errno != Paused || p.errno != OK || o.ret > |data| || !o.how.CallbackExit? then 0
      else
        ExecCounts(p, data, on, trace);
        var rest := data[o.ret..];
        Recounts(r, q, rest, on, o.trace) + Again(r, o.how, Begin(r, q, o.trace), rest)
  }

  // ----- a higher count in the reference

  /** An arm keeps the count or sets it back, whatever it is. */
  predicate CountsAlike(p: Parser, n: nat, a: Act, b: Act) {
    (a.p.nread == p.nread && b.p.nread == n) || (a.p.nread == 0 && b.p.nread == 0)
  }

  lemma FirstLineCounts(p: Parser, ch: char)
    ensures p.state.Start? ==> StartArm(p, p.state.start, ch).p.nread == p.nread
    ensures p.state.StatusLine? ==> StatusLineArm(p, p.state.line, ch).p.nread == p.nread
    ensures MethodArm(p, ch).p.nread == p.nread
  {
    hide AddDigit, MethodStr, OtherMethod;
  }

  lemma UrlCounts(p: Parser, ch: char)
    ensures p.state.Url? ==> UrlArm(p, p.state.url, ch).p.nread == p.nread
    ensures p.state.Version? ==> VersionArm(p, p.state.version, ch).p.nread == p.nread
  {
    hide AddDigit, ParseUrlChar;
  }

  lemma HeaderCounts(p: Parser, ch: char)
    requires p.state.Header?
    ensures HeaderArm(p, p.state.header, ch).p.nread == p.nread
  {
    hide Token, Lower;
  }

  lemma BodyCounts(p: Parser, n: nat, ch: char)
    ensures p.state.HeadersEnd? ==>
              CountsAlike(p, n, HeadersEndArm(p, p.state.end, ch), HeadersEndArm(p.(nread := n), p.state.end, ch))
    ensures p.state.Body? ==> BodyArm(p, p.state.body, 1).p.nread == p.nread
  {
  }

  lemma ChunkCounts(p: Parser, n: nat, ch: char)
    requires p.state.Chunk? && (p.state.chunk.ChunkSizeStart? ==> p.nread == n)
    ensures CountsAlike(p, n, ChunkArm(p, p.state.chunk, ch, 1), ChunkArm(p.(nread := n), p.state.chunk, ch, 1))
  {
    hide Unhex;
  }

  lemma ArmCounts(p: Parser, n: nat, ch: char)
    requires p.state == Chunk(ChunkSizeStart) ==> p.nread == n
    ensures CountsAlike(p, n, Arm(p, ch, 1), Arm(p.(nread := n), ch, 1))
  {
    var q := p.(nread := n);
    FirstLineCounts(p, ch);
    FirstLineCounts(q, ch);
    UrlCounts(p, ch);
    UrlCounts(q, ch);
    BodyCounts(p, n, ch);
    BodyCounts(q, n, ch);
    if p.state.Header? {
      HeaderCounts(p, ch);
      HeaderCounts(q, ch);
    }
    if p.state.Chunk? {
      ChunkCounts(p, n, ch);
    }
    hide StartArm, StatusLineArm, MethodArm, UrlArm, VersionArm, HeaderArm, HeadersEndArm, BodyArm, ChunkArm;
  }

  /** d is c but for the count. */
  predicate ButCount(c: Cfg, d: Cfg) {
    d == c.(p := c.p.(nread := d.p.nread))
  }

  /** The counts are n and m still, or both have been set back. */
  predicate Kept(c: Cfg, d: Cfg, n: nat, m: nat) {
    (c.p.nread == n && d.p.nread == m) || (c.p.nread == 0 && d.p.nread == 0)
  }

  /** The reaction to a good arm is good. */
  lemma ReactGood(r: Rules, c: Cfg, a: Act, b: char)
    requires r.counting && LeavesGood(a) && a.p.errno == OK && c.stop == Running
    ensures var x := React(r, c, a, b);
            x.c.stop == Running ==> x.c.p.errno == OK && (if x.again then Looking(x.c.p) else Resting(x.c.p))
  {
    hide Good, Emit;
    if !Fails(a.next) {
      if a.next.Notify? {
        AnswerGood(a, Some(a.next.event), Reply(1, false));
      }
      AnswerGood(a, None, Reply(1, false));
    }
  }

  lemma ReactAhead(r: Rules, c: Cfg, d: Cfg, a: Act, a': Act, b: char)
    requires r.counting && ButCount(c, d) && Alike(a, a') && CountsAlike(c.p, d.p.nread, a, a')
    ensures var x, y := React(r, c, a, b), React(r, d, a', b);
            ButCount(x.c, y.c) && Kept(x.c, y.c, c.p.nread, d.p.nread) && x.again == y.again
  {
    hide Emit;
  }

  lemma {:induction false} RedoAhead(r: Rules, c: Cfg, d: Cfg, b: char)
    requires r.counting && ButCount(c, d) && Looking(c.p) && Looking(d.p) && c.p.errno == OK && c.stop == Running
    ensures var x, y := Redo(r, c, b), Redo(r, d, b);
            && ButCount(x, y) && Kept(x, y, c.p.nread, d.p.nread)
            && (x.stop == Running ==> x.p.errno == OK && Resting(x.p) && Resting(y.p))
    decreases Rank(c.p.state)
  {
    hide Arm, React, Good, Alike;
    var a, a' := Arm(c.p, b, 1), Arm(d.p, b, 1);
    ArmGood(c.p, b, 1);
    ArmGood(d.p, b, 1);
    ArmAlike(c.p, d.p.nread, b);
    ArmCounts(c.p, d.p.nread, b);
    ReactGood(r, c, a, b);
    ReactGood(r, d, a', b);
    ReactAhead(r, c, d, a, a', b);
    var x, y := React(r, c, a, b), React(r, d, a', b);
    if x.again {
      AgainRuns(r, c, a, b);
      RedoAhead(r, x.c, y.c, b);
    }
  }

  lemma AgainRuns(r: Rules, c: Cfg, a: Act, b: char)
    requires React(r, c, a, b).again
    ensures React(r, c, a, b).c.stop == Running
  {
    hide Emit;
  }

  /** d is c with a count that is ahead by e; nothing is ahead where nothing is counted. */
  predicate Ahead(c: Cfg, d: Cfg, e: nat) {
    && d == c.(p := c.p.(nread := c.p.nread + e)) && Resting(c.p) && Resting(d.p)
    && c.p.errno == OK && c.stop == Running && (c.p.nread == 0 && !ParsingHeader(c.p.state) ==> e == 0)
  }

  lemma TickAhead(p: Parser, q: Parser)
    requires Resting(p) && Resting(q) && q == p.(nread := q.nread) && p.nread <= q.nread && !Overflows(q)
    ensures !Overflows(p)
    ensures Tick(p).nread == p.nread + if ParsingHeader(p.state) then 1 else 0
    ensures Tick(q).nread == q.nread + if ParsingHeader(p.state) then 1 else 0
  {
  }

  lemma ByteAhead(r: Rules, c: Cfg, d: Cfg, b: char, e: nat)
    requires r.counting && Ahead(c, d, e) && !Overflows(d.p)
    ensures var x, y := OnByte(r, c, b), OnByte(r, d, b);
            var e' := if x.p.nread == 0 then 0 else e;
            y == x.(p := x.p.(nread := x.p.nread + e')) && (x.stop == Running ==> Ahead(x, y, e'))
  {
    hide Good, Redo;
    TickAhead(c.p, d.p);
    TickLooks(c.p);
    TickLooks(d.p);
    RedoAhead(r, c.(p := Tick(c.p)), d.(p := Tick(d.p)), b);
  }

  lemma {:induction false} FeedAhead(r: Rules, c: Cfg, d: Cfg, s: string, e: nat)
    requires r.counting && Ahead(c, d, e) && Feed(r, d, s).p.errno != HeaderOverflow
    ensures var x, y := Feed(r, c, s), Feed(r, d, s);
            y == x.(p := x.p.(nread := x.p.nread + if Resets(r, c, s) then 0 else e))
    ensures Resets(r, c, s) == Resets(r, d, s)
    decreases |s|
  {
    hide OnByte, Resting;
    if s != "" {
      if Overflows(d.p) {
        LimitExceeded(r, d, s[0]);
        FeedStopped(r, OnByte(r, d, s[0]), s[1..]);
      }
      ByteAhead(r, c, d, s[0], e);
      var x, y := OnByte(r, c, s[0]), OnByte(r, d, s[0]);
      if x.stop == Running {
        FeedAhead(r, x, y, s[1..], if x.p.nread == 0 then 0 else e);
      } else {
        FeedStopped(r, x, s[1..]);
        FeedStopped(r, y, s[1..]);
        ResetsStopped(r, x, s[1..]);
        ResetsStopped(r, y, s[1..]);
      }
    }
  }

  lemma LimitExceeded(r: Rules, c: Cfg, b: char)
    requires r.counting && c.stop == Running && Overflows(c.p)
    ensures var d := OnByte(r, c, b); d.stop == Failed && d.p.errno == HeaderOverflow
  {
  }

  lemma {:induction false} ResetsStopped(r: Rules, c: Cfg, s: string)
    requires c.stop != Running
    ensures Resets(r, c, s) ==> c.p.nread == 0
    decreases |s|
  {
    if s != "" {
      ResetsStopped(r, c, s[1..]);
    }
  }

  // ----- driving on, by the reference

  /** An outcome that is what the reference says, with a count that is higher by e. */
  ghost predicate IsAhead(c: Cfg, o: Outcome, e: nat) {
    && o.p == c.p.(nread := c.p.nread + e) && c.taken == o.ret && c.stop == StopOf(o.how)
    && !o.how.CallbackExit? && o.how != Aborted
    && UpToRun(c.trace, Joined(o.trace)) && (o.how != ErrorExit ==> c.trace == Joined(o.trace))
  }

  /** Feeding on after a pause: an unread byte counts again. */
  lemma ResumeFeeds(r: Rules, q: Parser, trace: seq<Event>, rest: string)
    requires r.counting && q.errno == OK && Resting(q) && LeftUnread(q) && HeaderCounted(q) && rest != ""
    requires Feed(r, Begin(r, q, trace), rest).p.errno != HeaderOverflow
    ensures var c := Begin(r, q, trace);
            var x, y := Feed(r, Redo(r, c, rest[0]), rest[1..]), Feed(r, c, rest);
            y == x.(p := x.p.(nread := x.p.nread + if ParsingHeader(q.state) && !Resets(r, c, rest) then 1 else 0))
  {
    hide Redo, Resting, Joined, Looks;
    var c := Begin(r, q, trace);
    if Overflows(q) {
      LimitExceeded(r, c, rest[0]);
      FeedStopped(r, OnByte(r, c, rest[0]), rest[1..]);
    }
    TickLooks(q);
    if ParsingHeader(q.state) {
      var d := c.(p := Tick(q));
      UnreadLooks(q);
      RedoAhead(r, c, d, rest[0]);
      var x, y := Redo(r, c, rest[0]), Redo(r, d, rest[0]);
      var e := if y.p.nread == 0 then 0 else 1;
      if x.stop == Running {
        FeedAhead(r, x, y, rest[1..], e);
      } else {
        FeedStopped(r, x, rest[1..]);
        FeedStopped(r, y, rest[1..]);
        ResetsStopped(r, y, rest[1..]);
      }
    }
  }

  lemma UnreadLooks(q: Parser)
    requires Resting(q) && LeftUnread(q)
    ensures Looking(q) && (!Overflows(q) ==> Tick(q).nread == q.nread + if ParsingHeader(q.state) then 1 else 0)
  {
  }

  lemma GoOnFeeds(r: Rules, before: Cfg, o: Outcome, data: string)
    requires r.counting && Leaves(r, before, o, data) && o.how.CallbackExit? && Resting(Pause(o.p, false))
    requires o.how.unread ==> LeftUnread(o.p) && HeaderCounted(o.p)
    requires Feed(r, Begin(r, Pause(o.p, false), o.trace), data[o.ret..]).p.errno != HeaderOverflow
    ensures var b, rest := Begin(r, Pause(o.p, false), o.trace), data[o.ret..];
            Shift(Feed(r, b, rest), o.ret)
            == before.(p := before.p.(nread := before.p.nread + Again(r, o.how, b, rest)))
  {
    hide Resting, OnByte, Redo, Resets, Emit, Joined, Looks, Feed;
    var q, rest := Pause(o.p, false), data[o.ret..];
    var b := Begin(r, q, o.trace);
    assert CallAt(r, o, data) == Shift(b, o.ret);
    FeedShift(r, b, rest, o.ret);
    if o.how.unread {
      ResumeFeeds(r, q, o.trace, rest);
      RedoShift(r, b, rest[0], o.ret);
      FeedShift(r, Redo(r, b, rest[0]), rest[1..], o.ret);
      assert rest[1..] == data[o.ret + 1..];
    }
  }

  lemma RestingCount(p: Parser)
    requires Resting(p)
    ensures p.nread <= HTTP_MAX_HEADER_SIZE
  {
  }

  /** After a pause: the reference on the rest, and on all. */
  lemma DriveGoesOn(r: Rules, p: Parser, data: string, on: Callbacks, trace: seq<Event>)
    requires r.counting && Agrees(on, r) && p.errno == OK && Resting(p) && data != []
    requires var o := Exec(p, data, on, trace);
             && o.how.CallbackExit? && o.ret <= |data| && o.p.errno == Paused
             && IsAhead(Feed(r, Begin(r, Pause(o.p, false), o.trace), data[o.ret..]),
                        Drive(Pause(o.p, false), data[o.ret..], on, o.trace),
                        Recounts(r, Pause(o.p, false), data[o.ret..], on, o.trace))
             && Feed(r, Begin(r, Pause(o.p, false), o.trace), data[o.ret..]).p.errno != HeaderOverflow
    ensures IsAhead(Feed(r, Begin(r, p, trace), data), Drive(p, data, on, trace), Recounts(r, p, data, on, trace))
    ensures Feed(r, Begin(r, p, trace), data).p.errno != HeaderOverflow
  {
    hide Exec, Resting, Resets, Emit, Joined, Looks, Feed, UpToRun;
    var o := Exec(p, data, on, trace);
    ExecEnds(p, data, on, trace);
    ExecCounts(p, data, on, trace);
    ExecFeeds(r, p, data, on, trace);
    RestingCount(p);
    PauseRests(o.p, false);
    GoOnFeeds(r, Feed(r, Begin(r, p, trace), data), o, data);
  }

  lemma DriveEnds(r: Rules, p: Parser, data: string, on: Callbacks, trace: seq<Event>)
    requires r.counting && Agrees(on, r) && p.errno == OK && Resting(p) && data != []
    requires !Exec(p, data, on, trace).how.CallbackExit? && Drive(p, data, on, trace).p.errno != HeaderOverflow
    ensures IsAhead(Feed(r, Begin(r, p, trace), data), Drive(p, data, on, trace), Recounts(r, p, data, on, trace))
    ensures Feed(r, Begin(r, p, trace), data).p.errno != HeaderOverflow
  {
    hide Exec, Resting, Resets, Emit, Joined, Looks, Feed;
    var o := Exec(p, data, on, trace);
    ExecEnds(p, data, on, trace);
    ExecFeeds(r, p, data, on, trace);
    PendingUpToRun(o.trace, o.marks, data, o.ret);
    FeedStoppedOrDone(r, CallAt(r, o, data), data[o.ret..]);
  }

  /**
   Driving on after every pause, by the reference: all is the same but the count, and that is
   ahead by the header bytes that pauses have left unread since it was last set back.
   */
  lemma {:induction false} DriveIs(r: Rules, p: Parser, data: string, on: Callbacks, trace: seq<Event>)
    requires r.counting && Agrees(on, r) && p.errno == OK && Resting(p)
    requires Drive(p, data, on, trace).p.errno != HeaderOverflow
    ensures IsAhead(Feed(r, Begin(r, p, trace), data), Drive(p, data, on, trace), Recounts(r, p, data, on, trace))
    ensures Feed(r, Begin(r, p, trace), data).p.errno != HeaderOverflow
    decreases |data|, Looks(p.state)
  {
    hide Exec, Resting, Joined, Looks, Feed, IsAhead, Recounts;
    if data == [] {
      NothingDriven(r, p, on, trace);
    } else {
      var o := Exec(p, data, on, trace);
      if o.how.CallbackExit? {
        ExecEnds(p, data, on, trace);
        ExecCounts(p, data, on, trace);
        ExecFeeds(r, p, data, on, trace);
        PauseRests(o.p, false);
        DriveIs(r, Pause(o.p, false), data[o.ret..], on, o.trace);
        DriveGoesOn(r, p, data, on, trace);
      } else {
        DriveEnds(r, p, data, on, trace);
      }
    }
  }

  lemma NothingDriven(r: Rules, p: Parser, on: Callbacks, trace: seq<Event>)
    requires r.counting
    ensures IsAhead(Feed(r, Begin(r, p, trace), []), Drive(p, [], on, trace), Recounts(r, p, [], on, trace))
    ensures Feed(r, Begin(r, p, trace), []).p == p
  {
    hide Joined, Emit;
  }

  /** Where three times the bytes still fit, going on after pauses does not meet the limit. */
  lemma {:induction false} DriveFits(p: Parser, data: string, on: Callbacks, trace: seq<Event>)
    requires p.errno == OK
    requires data != [] ==> p.nread + 3 * |data| + Looks(p.state) <= HTTP_MAX_HEADER_SIZE + 2
    ensures Drive(p, data, on, trace).p.errno != HeaderOverflow
    decreases |data|, Looks(p.state)
  {
    hide Exec, Looks;
    if data != [] {
      var o := Exec(p, data, on, trace);
      ExecCounts(p, data, on, trace);
      LooksAtMostTwo(p.state);
      LooksAtMostTwo(o.p.state);
      if o.p.errno == Paused && o.how.CallbackExit? && o.ret <= |data| {
        DriveFits(Pause(o.p, false), data[o.ret..], on, o.trace);
      }
    }
  }

  /**
   The same end, bytes read and record, and the same parser but for the count, which is not lower.
   A parse error may cut either record by the run it comes in.
   */
  ghost predicate SameButAhead(d: Outcome, o: Outcome) {
    && d.p == o.p.(nread := d.p.nread) && o.p.nread <= d.p.nread && d.ret == o.ret && d.how == o.how
    && (o.how != ErrorExit ==> Joined(d.trace) == Joined(o.trace))
    && exists full :: UpToRun(full, Joined(d.trace)) && UpToRun(full, Joined(o.trace))
  }

  /** The same, when the count is ahead by e. */
  ghost predicate SameButCount(d: Outcome, o: Outcome, e: nat) {
    SameButAhead(d, o) && d.p.nread == o.p.nread + e
  }

  /** A run with pauses that is not refused for the limit, and one without. */
  lemma PauseAgrees(skips: seq<Event> -> bool, p: Parser, data: string,
                    on: Callbacks, steady: Callbacks, trace: seq<Event>)
    requires Agrees(on, Rules(true, true, skips)) && Agrees(steady, Rules(true, false, skips))
    requires data != [] && p.errno == OK && Resting(p)
    requires Drive(p, data, on, trace).p.errno != HeaderOverflow
    ensures SameButCount(Drive(p, data, on, trace), Exec(p, data, steady, trace),
                         Recounts(Rules(true, true, skips), p, data, on, trace))
  {
    hide Exec, Drive, Resting, Feed, UpToRun, Recounts;
    var r := Rules(true, true, skips);
    var o := Exec(p, data, steady, trace);
    DriveIs(r, p, data, on, trace);
    ExecIs(Rules(true, false, skips), p, data, steady, trace);
    ExecFeeds(Rules(true, false, skips), p, data, steady, trace);
    assert Agrees(steady, r) by {
      forall t | t != [] ensures AgreesAt(steady, r, t) {
        assert AgreesAt(steady, Rules(true, false, skips), t);
      }
    }
    ExecFeeds(r, p, data, steady, trace);
    PendingUpToRun(o.trace, o.marks, data, o.ret);
    FeedStoppedOrDone(r, CallAt(r, o, data), data[o.ret..]);
    var full := Feed(r, Begin(r, p, trace), data).trace;
    assert UpToRun(full, Joined(o.trace)) && UpToRun(full, Joined(Drive(p, data, on, trace).trace));
  }

  // ----- an input on which the count shows

  /** An application that pauses at every callback. */
  function PausesAlways(t: seq<Event>): Reply {
    Reply(0, true)
  }

  lemma LfPass(p: Parser, trace: seq<Event>)
    requires p.errno == OK && p.state == Header(HeaderValue)
    ensures Pass(p, map[KValue := 0], "\n", 0, PausesAlways, trace)
         == Turn(p.(state := Header(HeaderAlmostDone), errno := Paused), trace + [Data(KValue, "")], map[], 0,
                 Stop(CallbackExit(true)))
  {
    var z := p.(state := Header(HeaderAlmostDone));
    assert Arm(p, LF, 1) == Act(z, None, 1, Flush(KValue, false, Repeat)) by {
      hide MatchValueByte;
    }
    hide Arm;
    var marks: Marks := map[KValue := 0];
    assert "\n"[0..0] == "" && marks - {KValue} == map[];
  }

  /** LF alone ends a value: paused there, it counts once more, and that can be one too many. */
  lemma LfCountsTwice(p: Parser, trace: seq<Event>)
    requires p.errno == OK && p.state == Header(HeaderValue) && p.nread == HTTP_MAX_HEADER_SIZE - 1
    ensures Drive(p, "\n", PausesAlways, trace).p.errno == HeaderOverflow
  {
    hide Pass, Looks;
    var z := Tick(p).(state := Header(HeaderAlmostDone), errno := Paused);
    var t := trace + [Data(KValue, "")];
    assert !Overflows(p) && Tick(p).nread == HTTP_MAX_HEADER_SIZE;
    LfPass(Tick(p), trace);
    assert Exec(p, "\n", PausesAlways, trace) == LookAt(Tick(p), map[KValue := 0], "\n", 0, PausesAlways, trace);
    assert Exec(p, "\n", PausesAlways, trace) == Outcome(z, t, 0, CallbackExit(true), map[]);
    hide Exec;
    assert "\n"[0..] == "\n";
    LimitNext(Pause(z, false), t);
  }

  lemma LimitNext(p: Parser, trace: seq<Event>)
    requires p.errno == OK && p.state == Header(HeaderAlmostDone) && p.nread == HTTP_MAX_HEADER_SIZE
    ensures Drive(p, "\n", PausesAlways, trace).p.errno == HeaderOverflow
  {
    hide LookAt;
  }
}
