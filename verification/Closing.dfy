/**
 The end of a connection: once a message after which the connection is not kept alive has
 been completed by its own bytes, the parser is dead. No callback is made any more, and the
 first byte other than CR and LF is refused.
 */
module Closing {
  import opened Chars
  import opened Types
  import opened Arms
  import opened Execute
  import opened Invariant
  import opened Marking
  import opened Grammar

  /** Where message_complete leaves the parser: at a next message, or dead. */
  predicate CompletesRightly(a: Act) {
    a.next.Notify? && a.next.event == MessageComplete ==>
      a.p.state == if ShouldKeepAlive(a.p) then FirstState(a.p) else Start(Dead)
  }

  lemma StartCompletes(p: Parser, s: StartState, ch: char)
    ensures CompletesRightly(StartArm(p, s, ch))
  {
  }

  lemma HeaderCompletes(p: Parser, s: HeaderLineState, ch: char)
    ensures !HeaderArm(p, s, ch).next.Notify?
  {
    hide MatchFieldByte, MatchValueByte, Token, Lower;
  }

  lemma HeadersEndCompletes(p: Parser, s: HeadersEndState, ch: char)
    ensures CompletesRightly(HeadersEndArm(p, s, ch))
  {
  }

  lemma BodyCompletes(p: Parser, s: BodyState, avail: nat)
    requires avail > 0
    ensures CompletesRightly(BodyArm(p, s, avail))
  {
  }

  lemma ArmCompletes(p: Parser, ch: char, avail: nat)
    requires avail > 0
    ensures CompletesRightly(Arm(p, ch, avail))
  {
    match p.state
    case Start(s) => StartCompletes(p, s, ch);
    case Header(s) => HeaderCompletes(p, s, ch);
    case HeadersEnd(s) => HeadersEndCompletes(p, s, ch);
    case Body(s) => BodyCompletes(p, s, avail);
    case _ =>
  }

  /** The parser that the application sees in on_message_complete tells what follows. */
  lemma PassCompletes(p: Parser, marks: Marks, data: string, i: nat, on: Callbacks, trace: seq<Event>)
    requires i < |data| && MarksWithin(marks, i)
    ensures var u := Pass(p, marks, data, i, on, trace);
            u.trace == trace + [MessageComplete] && !ShouldKeepAlive(u.p) ==> u.p.state == Start(Dead)
  {
    hide Arm, ShouldKeepAlive;
    var a := Arm(p, data[i], |data| - i);
    ArmCompletes(p, data[i], |data| - i);
    var u := Pass(p, marks, data, i, on, trace);
    if |u.trace| > |trace| && u.trace[|trace|] == MessageComplete {
      var e := Call(a.next, SetMark(marks, a.mark, i), data, i + a.take - 1);
      KeepAliveKept(a.p, on(u.trace));
    }
  }

  lemma KeepAliveKept(p: Parser, r: Reply)
    ensures ShouldKeepAlive(AfterCall(p, MessageComplete, r)) == ShouldKeepAlive(p)
  {
  }

  // ----- the dead parser

  /** How many CR and LF data starts with. */
  function Eols(data: string): (n: nat)
    ensures n <= |data|
  {
    if data == "" || !IsEol(data[0]) then 0 else 1 + Eols(data[1..])
  }

  /** What a dead parser makes of data: it reads CR and LF up to the limit, and nothing else. */
  function DeadEnd(p: Parser, data: string): (Errno, nat) {
    var room := if p.nread <= HTTP_MAX_HEADER_SIZE then HTTP_MAX_HEADER_SIZE - p.nread else 0;
    if Eols(data) == |data| <= room then (OK, |data|)
    else if Eols(data) < room then (ClosedConnection, Eols(data))
    else (HeaderOverflow, room)
  }

  lemma DeadLook(p: Parser, data: string, i: nat, on: Callbacks, trace: seq<Event>)
    requires i < |data| && p.state == Start(Dead) && p.errno == OK
    ensures LookAt(p, map[], data, i, on, trace) ==
      if IsEol(data[i]) then Loop(p, map[], data, i + 1, on, trace)
      else Outcome(p.(errno := ClosedConnection), trace, i, ErrorExit, map[])
  {
    var a := Arm(p, data[i], |data| - i);
    assert a == if IsEol(data[i]) then Quietly(p) else Failing(p, ClosedConnection);
    hide Arm;
  }

  /** One byte more or less. */
  lemma DeadEndStep(p: Parser, data: string)
    requires p.state == Start(Dead) && p.nread <= HTTP_MAX_HEADER_SIZE && data != ""
    ensures DeadEnd(p, data) ==
              if Overflows(p) then (HeaderOverflow, 0)
              else if !IsEol(data[0]) then (ClosedConnection, 0)
              else var (e, n) := DeadEnd(Tick(p), data[1..]); (e, n + 1)
    ensures !Overflows(p) ==> Tick(p).nread <= HTTP_MAX_HEADER_SIZE
  {
    hide IsEol;
  }

  lemma {:induction false} DeadLoop(p: Parser, data: string, i: nat, on: Callbacks, trace: seq<Event>)
    requires i <= |data| && p.state == Start(Dead) && p.errno == OK && p.nread <= HTTP_MAX_HEADER_SIZE
    ensures var o := Loop(p, map[], data, i, on, trace);
            var (e, n) := DeadEnd(p, data[i..]);
            o.trace == trace && o.p.state == Start(Dead) && o.p.errno == e && o.ret == i + n
    decreases |data| - i
  {
    hide LookAt, FlushAll, Overflows, IsEol;
    if i == |data| {
      Refinement.FlushNothing(FLUSH_ORDER, p, data, on, trace);
    } else {
      hide DeadEnd;
      DeadEndStep(p, data[i..]);
      assert data[i..][1..] == data[i + 1..];
      if !Overflows(p) {
        var q := Tick(p);
        DeadLook(q, data, i, on, trace);
        if IsEol(data[i]) {
          DeadLoop(q, data, i + 1, on, trace);
        }
      }
    }
  }

  /**
   A dead parser makes no callback. It takes CR and LF, as far as the header limit goes, and
   refuses the first other byte with HPE_CLOSED_CONNECTION unless that limit comes first.
   */
  lemma DeadExec(p: Parser, data: string, on: Callbacks, trace: seq<Event>)
    requires p.state == Start(Dead) && p.errno == OK && Resting(p)
    ensures var o := Exec(p, data, on, trace);
            var (e, n) := DeadEnd(p, data);
            o.trace == trace && o.p.state == Start(Dead) && o.p.errno == e && o.ret == n
  {
    hide Loop;
    DeadLoop(p, data, 0, on, trace);
    assert data[0..] == data;
  }

  lemma {:induction false} DeadDoAll(s: Session, ops: seq<Op>, on: Callbacks)
    requires s.p.state == Start(Dead) && Inv(s.p)
    ensures var t := DoAll(s, ops, on); t.trace == s.trace && t.p.state == Start(Dead)
    decreases |ops|
  {
    hide Exec, Good;
    if ops != [] {
      match ops[0] {
        case Give(bytes) =>
          Consumption.ExecKeepsInv(s.p, bytes, on, s.trace);
          if s.p.errno == OK {
            DeadExec(s.p, bytes, on, s.trace);
          } else {
            ErrorExec(s.p, bytes, on, s.trace);
          }
        case SetPaused(paused) => PauseKeeps(s.p, paused, Idle);
      }
      DeadDoAll(Do(s, ops[0], on), ops[1..], on);
    }
  }

  /** Once errno is set, a call does nothing. */
  lemma ErrorExec(p: Parser, data: string, on: Callbacks, trace: seq<Event>)
    requires p.errno != OK
    ensures var o := Exec(p, data, on, trace); o.p == p && o.trace == trace && o.ret == 0
  {
  }

  /** After an error nothing changes any more, whatever is given, and pausing does not clear it. */
  lemma {:induction false} ErrorStays(s: Session, ops: seq<Op>, on: Callbacks)
    requires s.p.errno != OK && s.p.errno != Paused
    ensures DoAll(s, ops, on) == s
    decreases |ops|
  {
    hide Exec;
    if ops != [] {
      if ops[0].Give? {
        ErrorExec(s.p, ops[0].bytes, on, s.trace);
      }
      ErrorStays(s, ops[1..], on);
    }
  }

  /** While the parser is paused it takes no bytes, nor the end of the stream. */
  predicate Waits(op: Op) {
    op.Give? || op == SetPaused(true)
  }

  lemma {:induction false} StaysPaused(s: Session, ops: seq<Op>, on: Callbacks)
    requires s.p.errno == Paused && forall op :: op in ops ==> Waits(op)
    ensures DoAll(s, ops, on) == s
    decreases |ops|
  {
    hide Exec;
    if ops != [] {
      assert ops[0] in ops && forall op :: op in ops[1..] ==> op in ops;
      if ops[0].Give? {
        ErrorExec(s.p, ops[0].bytes, on, s.trace);
      }
      StaysPaused(s, ops[1..], on);
    }
  }

  /** A pause between calls, with any calls during it, leaves no trace once it is over. */
  lemma PauseBetween(s: Session, ops: seq<Op>, on: Callbacks)
    requires s.p.errno == OK && forall op :: op in ops ==> Waits(op)
    ensures DoAll(DoAll(Do(s, SetPaused(true), on), ops, on), [SetPaused(false)], on) == s
  {
    hide Exec;
    StaysPaused(Do(s, SetPaused(true), on), ops, on);
    assert [SetPaused(false)][1..] == [];
  }

  /**
   No callback after the last message: when a pass through the switch has completed a message
   and http_should_keep_alive is false, neither the rest of the call nor any sequence of calls
   and pauses after it makes a callback.
   */
  lemma NothingAfterClose(p: Parser, marks: Marks, data: string, i: nat, on: Callbacks,
                          trace: seq<Event>, ops: seq<Op>)
    requires i < |data| && MarksWithin(marks, i) && MarksFit(p.state, marks, i, false)
    requires p.errno == OK && Looking(p)
    requires var u := Pass(p, marks, data, i, on, trace);
             u.trace == trace + [MessageComplete] && !ShouldKeepAlive(u.p)
    ensures var o := LookAt(p, marks, data, i, on, trace);
            DoAll(Session(o.p, o.trace), ops, on).trace == trace + [MessageComplete]
  {
    hide Pass, Good, ShouldKeepAlive, MarksFit, Loop;
    var u := Pass(p, marks, data, i, on, trace);
    PassGood(p, marks, data, i, on, trace);
    PassCompletes(p, marks, data, i, on, trace);
    var o := LookAt(p, marks, data, i, on, trace);
    Consumption.LookEnds(p, marks, data, i, on, trace);
    DeadTurn(u, data, on);
    DeadDoAll(Session(o.p, o.trace), ops, on);
  }

  /** However a turn ends that leaves a dead parser, the rest of the call makes no callback. */
  lemma DeadTurn(u: Turn, data: string, on: Callbacks)
    requires u.p.state == Start(Dead) && TurnGood(u, |data|) && MarksWithin(u.marks, u.i) && u.i <= |data|
    ensures u.verdict.OnNext? ==>
              var o := Loop(u.p, u.marks, data, u.i, on, u.trace);
              o.trace == u.trace && o.p.state == Start(Dead)
    ensures u.verdict.OnSame? && u.i < |data| ==>
              var o := LookAt(u.p, u.marks, data, u.i, on, u.trace);
              o.trace == u.trace && o.p.state == Start(Dead)
  {
    hide Loop, LookAt;
    if u.verdict.OnNext? {
      DeadLoop(u.p, data, u.i, on, u.trace);
    } else if u.verdict.OnSame? && u.i < |data| {
      DeadLook(u.p, data, u.i, on, u.trace);
      DeadLoop(u.p, data, u.i + 1, on, u.trace);
    }
  }
}
