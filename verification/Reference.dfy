/**
 The reference semantics of the parser: one byte at a time, with no buffers and no marks.

 What callbacks deliver is recorded with adjacent pieces of the same kind joined, since an
 application may get any string in any number of pieces (README.md of http-parser, lines
 140-142). How the bytes were cut into calls does not show in this record.
 */
module Reference {
  import opened Types
  import opened Arms
  import opened Execute

  /** One callback more, joined to the one before if both deliver the same kind of data. */
  function Emit(t: seq<Event>, e: Event): seq<Event> {
    if e.Data? && t != [] && t[|t| - 1].Data? && t[|t| - 1].kind == e.kind then
      t[..|t| - 1] + [Data(e.kind, t[|t| - 1].bytes + e.bytes)]
    else t + [e]
  }

  function Joined(trace: seq<Event>): seq<Event> {
    if trace == [] then [] else Emit(Joined(trace[..|trace| - 1]), trace[|trace| - 1])
  }

  datatype Stop = Running | Failed | Exited

  /** The parser, the joined record, and how many bytes were taken; once stopped, it takes no more. */
  datatype Cfg = Cfg(p: Parser, trace: seq<Event>, stop: Stop, taken: nat)

  /**
   What the reference depends on: whether header bytes are counted against the limit, and
   after which records the application asks for the body to be skipped. It may decide that by
   what it sees in on_headers_complete. `pauses` says whether it may also pause, which the
   reference does not look at.
   */
  datatype Rules = Rules(counting: bool, pauses: bool, skips: seq<Event> -> bool)

  /** Without counting, nread stays at 1, which is what it is wherever it is looked at. */
  function Norm(r: Rules, p: Parser): Parser {
    if r.counting then p else p.(nread := 1)
  }

  /** The callback for byte b: each byte of a run is delivered on its own. */
  function ByteEvent(s: State, a: Act, b: char): Option<Event> {
    match a.next
    case Quiet(Consume) =>
      var k := if a.mark.Some? then a.mark else Held(s);
      if k.Some? then Some(Data(k.value, [b])) else None
    case Notify(e, _) => Some(e)
    case Flush(k, inclusive, _) =>
      if inclusive then Some(Data(k, [b])) else if k == KBody then None else Some(Data(k, []))
    case _ => None
  }

  datatype Reaction = Reaction(c: Cfg, again: bool)

  function React(r: Rules, c: Cfg, a: Act, b: char): (x: Reaction)
    ensures x.again ==> Repeats(a.next) && x.c.p.state == a.p.state
  {
    if a.next.Abort? then Reaction(c.(p := Norm(r, a.p), stop := Failed), false)
    else if a.next.Fail? then
      Reaction(c.(p := Norm(r, a.p.(errno := a.next.errno)), stop := Failed), false)
    else
      var e := ByteEvent(c.p.state, a, b);
      var t := if e.Some? then Emit(c.trace, e.value) else c.trace;
      var q := if e.Some? && e.value.HeadersComplete? && r.skips(t) then
                 a.p.(flags := a.p.flags.(skipBody := true))
               else a.p;
      Reaction(Cfg(Norm(r, q), t, if a.next.andThen.Exit? then Exited else Running,
                   if a.next.andThen.Repeat? then c.taken else c.taken + 1),
               a.next.andThen.Repeat?)
  }

  /** A byte, from the switch on. */
  function Redo(r: Rules, c: Cfg, b: char): Cfg
    decreases Rank(c.p.state)
  {
    var x := React(r, c, Arm(c.p, b, 1), b);
    if x.again then Redo(r, x.c, b) else x.c
  }

  function OnByte(r: Rules, c: Cfg, b: char): Cfg {
    if c.stop != Running then c
    else if !r.counting then Redo(r, c.(p := Norm(r, c.p)), b)
    else if Overflows(c.p) then c.(p := Tick(c.p).(errno := HeaderOverflow), stop := Failed)
    else Redo(r, c.(p := Tick(c.p)), b)
  }

  function Feed(r: Rules, c: Cfg, bytes: string): Cfg
    decreases |bytes|
  {
    if bytes == [] then c else Feed(r, OnByte(r, c, bytes[0]), bytes[1..])
  }

  /** Feeding is one fold: it can be cut anywhere. */
  lemma {:induction false} FeedAppend(r: Rules, c: Cfg, a: string, b: string)
    ensures Feed(r, c, a + b) == Feed(r, Feed(r, c, a), b)
    decreases |a|
  {
    hide OnByte;
    if a == [] {
      assert a + b == b;
    } else {
      assert (a + b)[1..] == a[1..] + b;
      FeedAppend(r, OnByte(r, c, a[0]), a[1..], b);
    }
  }

  lemma {:induction false} FeedStopped(r: Rules, c: Cfg, bytes: string)
    requires c.stop != Running
    ensures Feed(r, c, bytes) == c
    decreases |bytes|
  {
    if bytes != [] {
      FeedStopped(r, c, bytes[1..]);
    }
  }

  /** Joining is associative: pieces may be joined before they are delivered. */
  lemma EmitEmit(t: seq<Event>, k: Kind, a: string, b: string)
    ensures Emit(Emit(t, Data(k, a)), Data(k, b)) == Emit(t, Data(k, a + b))
  {
    var u := Emit(t, Data(k, a));
    assert u[|u| - 1].kind == k;
    if t != [] && t[|t| - 1].Data? && t[|t| - 1].kind == k {
      assert t[|t| - 1].bytes + a + b == t[|t| - 1].bytes + (a + b);
      assert u[..|u| - 1] == t[..|t| - 1];
    } else {
      assert u[..|u| - 1] == t;
    }
  }

  lemma JoinedSnoc(trace: seq<Event>, e: Event)
    ensures Joined(trace + [e]) == Emit(Joined(trace), e)
  {
    assert (trace + [e])[..|trace|] == trace;
  }
}
