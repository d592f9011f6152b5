/**
 http_parser_execute refines the one-byte reference: with its buffers, marks, bulk skips,
 flushes and pauses it ends in the same parser and delivers the same joined record.
 */
module Bridge {
  import opened Chars
  import opened Types
  import opened UrlChar
  import opened Arms
  import opened Execute
  import opened Invariant
  import opened Marking
  import opened Reference

  /** An application that never reports an error, and skips bodies where the rules say so. */
  ghost predicate Agrees(on: Callbacks, r: Rules) {
    forall t :: t != [] ==> AgreesAt(on, r, t)
  }

  predicate AgreesAt(on: Callbacks, r: Rules, t: seq<Event>)
    requires t != []
  {
    && on(t).rc == (if t[|t| - 1].HeadersComplete? && r.skips(Joined(t)) then 1 else 0)
    && (!r.pauses ==> !on(t).pause)
  }

  /** The kind that is marked. */
  function Marked(marks: Marks): Option<Kind> {
    if KField in marks then Some(KField)
    else if KValue in marks then Some(KValue)
    else if KUrl in marks then Some(KUrl)
    else if KBody in marks then Some(KBody)
    else if KStatus in marks then Some(KStatus)
    else None
  }

  lemma MarkedNone(marks: Marks)
    requires Marked(marks).None?
    ensures marks == map[]
  {
    forall k ensures k !in marks {
      match k {
        case KUrl => case KStatus => case KField => case KValue => case KBody =>
      }
    }
  }

  /** The joined record with the marked bytes that are not delivered yet. */
  function Pending(trace: seq<Event>, marks: Marks, data: string, i: nat): seq<Event>
    requires i <= |data|
  {
    var k := Marked(marks);
    if k.Some? && marks[k.value] < i then
      Emit(Joined(trace), Data(k.value, data[marks[k.value]..i]))
    else Joined(trace)
  }

  /** The reference configuration that a turn of the loop stands for. */
  function Stands(r: Rules, p: Parser, trace: seq<Event>, marks: Marks, data: string, i: nat, stop: Stop): Cfg
    requires i <= |data|
  {
    Cfg(Norm(r, if p.errno == Paused then p.(errno := OK) else p), Pending(trace, marks, data, i), stop, i)
  }

  function StopOf(how: How): Stop {
    match how
    case AllRead => Running
    case CallbackExit(_) => Running
    case UpgradeExit => Exited
    case _ => Failed
  }

  function TurnAt(r: Rules, u: Turn, data: string): Cfg
    requires u.i <= |data|
  {
    Stands(r, u.p, u.trace, u.marks, data, u.i, if u.verdict.Stop? then StopOf(u.verdict.how) else Running)
  }

  function CallAt(r: Rules, o: Outcome, data: string): Cfg
    requires o.ret <= |data|
  {
    Stands(r, o.p, o.trace, o.marks, data, o.ret, StopOf(o.how))
  }

  // ----- one arm that takes one byte

  lemma MarkedOnly(marks: Marks, k: Kind)
    requires k in marks && Only(marks, k)
    ensures Marked(marks) == Some(k)
    ensures marks - {k} == map[]
  {
  }

  /** The parser after the callback of an application that agrees with the rules. */
  lemma Answers(r: Rules, on: Callbacks, p: Parser, trace: seq<Event>, e: Event)
    requires Agrees(on, r) && p.errno == OK
    ensures var q := Answered(p, Some(e), on, trace + [e]);
            (q.errno == OK || q.errno == Paused) && (!r.pauses ==> q.errno == OK)
            && q.(errno := OK) ==
               if e.HeadersComplete? && r.skips(Emit(Joined(trace), e)) then
                 p.(flags := p.flags.(skipBody := true))
               else p
  {
    var t := trace + [e];
    JoinedSnoc(trace, e);
    assert AgreesAt(on, r, t);
    assert t[|t| - 1] == e;
  }

  /**
   What one arm's turn means for the reference: the same step, seen with the marks. It is
   stated for any arm result, so that the switch does not enter into it.
   */
  ghost predicate Matches(r: Rules, p: Parser, a: Act, marks: Marks, data: string, i: nat,
                          on: Callbacks, trace: seq<Event>)
    requires MarksWithin(marks, i) && 0 < a.take && i + a.take <= |data|
  {
    var u := Finish(a, marks, data, i, on, trace);
    var x := React(r, Cfg(p, Pending(trace, marks, data, i), Running, i), a, data[i]);
    && x.c == TurnAt(r, u, data)
    && (x.again <==> Repeats(a.next))
    && u.i == (if x.again || u.verdict == Stop(ErrorExit) then i else i + 1)
    && (match u.verdict
        case OnSame => x.again
        case OnNext => !x.again
        case Stop(how) =>
          && how != AllRead
          && (if how.CallbackExit? then r.pauses && u.p.errno == Paused && how.unread == x.again else !x.again)
          && (how != ErrorExit ==> u.marks == map[]))
    && (!r.pauses ==> u.p.errno != Paused)
  }

  lemma FailMatches(r: Rules, p: Parser, a: Act, n: nat, marks: Marks, data: string, i: nat,
                    on: Callbacks, trace: seq<Event>)
    requires MarksWithin(marks, i) && a.take == 1 && i < |data|
    requires MarksFit(p.state, marks, i, true) && Shape(p.state, a, n)
    requires Fails(a.next)
    ensures Matches(r, p, a, marks, data, i, on, trace)
  {
  }

  lemma NotifyMatches(r: Rules, p: Parser, a: Act, n: nat, marks: Marks, data: string, i: nat,
                      on: Callbacks, trace: seq<Event>)
    requires MarksWithin(marks, i) && a.take == 1 && i < |data|
    requires MarksFit(p.state, marks, i, true) && Shape(p.state, a, n)
    requires Agrees(on, r) && a.p.errno == OK && a.next.Notify?
    ensures Matches(r, p, a, marks, data, i, on, trace)
  {
    hide Emit, Joined, Answered;
    Answers(r, on, a.p, trace, a.next.event);
    JoinedSnoc(trace, a.next.event);
  }

  /** A marked run grows by the byte p passes. */
  lemma PendingGrows(trace: seq<Event>, marks: Marks, k: Kind, data: string, i: nat)
    requires k in marks && Only(marks, k) && marks[k] <= i < |data|
    ensures Emit(Pending(trace, marks, data, i), Data(k, [data[i]])) == Pending(trace, marks, data, i + 1)
  {
    var start := marks[k];
    MarkedOnly(marks, k);
    assert data[start..i] + [data[i]] == data[start..i + 1];
    if start < i {
      EmitEmit(Joined(trace), k, data[start..i], [data[i]]);
    } else {
      assert data[start..i + 1] == [data[i]];
    }
  }

  /** Delivering a marked run adds nothing to what was pending. */
  lemma PendingDelivered(trace: seq<Event>, marks: Marks, k: Kind, data: string, i: nat)
    requires k in marks && Only(marks, k) && marks[k] <= i <= |data|
    ensures var t := trace + [Data(k, data[marks[k]..i])];
            Emit(Pending(trace, marks, data, i), Data(k, [])) == Joined(t)
            && (marks[k] < i ==> Pending(trace, marks, data, i) == Joined(t))
  {
    var run := data[marks[k]..i];
    MarkedOnly(marks, k);
    JoinedSnoc(trace, Data(k, run));
    assert run + [] == run;
    if marks[k] < i {
      EmitEmit(Joined(trace), k, run, []);
    }
  }

  lemma QuietMatches(r: Rules, p: Parser, a: Act, n: nat, marks: Marks, data: string, i: nat,
                     on: Callbacks, trace: seq<Event>)
    requires MarksWithin(marks, i) && a.take == 1 && i < |data|
    requires MarksFit(p.state, marks, i, true) && Shape(p.state, a, n)
    requires a.p.errno == OK && a.next.Quiet?
    ensures Matches(r, p, a, marks, data, i, on, trace)
  {
    hide Emit, Joined;
    var k := if a.mark.Some? then a.mark else Held(p.state);
    if a.next.andThen.Consume? && k.Some? {
      var m := SetMark(marks, a.mark, i);
      assert k.value in m && Only(m, k.value);
      assert Pending(trace, m, data, i) == Pending(trace, marks, data, i);
      PendingGrows(trace, m, k.value, data, i);
    }
  }

  /** What the loop does with a data callback for a mark that is set. */
  lemma FlushFinish(p: Parser, a: Act, n: nat, marks: Marks, data: string, i: nat,
                    on: Callbacks, trace: seq<Event>)
    requires MarksWithin(marks, i) && a.take == 1 && i < |data|
    requires MarksFit(p.state, marks, i, true) && Shape(p.state, a, n)
    requires a.next.Flush? && a.next.kind in SetMark(marks, a.mark, i)
    ensures var k := a.next.kind;
            var m := SetMark(marks, a.mark, i);
            var e := Data(k, data[m[k]..if a.next.inclusive then i + 1 else i]);
            var u := Finish(a, marks, data, i, on, trace);
            && Only(m, k) && Pending(trace, m, data, i) == Pending(trace, marks, data, i)
            && (!a.next.inclusive && k == KBody ==> m[k] < i)
            && u.p == Answered(a.p, Some(e), on, trace + [e]) && u.trace == trace + [e] && u.marks == map[]
            && u.i == (if a.next.andThen.Repeat? then i else i + 1)
            && !a.next.andThen.Exit?
            && u.verdict == if u.p.errno != OK then Stop(CallbackExit(a.next.andThen.Repeat?))
                            else if a.next.andThen.Repeat? then OnSame else OnNext
  {
    hide Emit, Joined, AfterCall;
  }

  lemma FlushMatches(r: Rules, p: Parser, a: Act, n: nat, marks: Marks, data: string, i: nat,
                     on: Callbacks, trace: seq<Event>)
    requires MarksWithin(marks, i) && a.take == 1 && i < |data|
    requires MarksFit(p.state, marks, i, true) && Shape(p.state, a, n)
    requires Agrees(on, r) && a.p.errno == OK && a.next.Flush?
    requires a.next.kind in SetMark(marks, a.mark, i)
    ensures Matches(r, p, a, marks, data, i, on, trace)
  {
    hide Emit, Joined, AfterCall, Finish, MarksFit, Shape;
    FlushFinish(p, a, n, marks, data, i, on, trace);
    var k := a.next.kind;
    var m := SetMark(marks, a.mark, i);
    var end := if a.next.inclusive then i + 1 else i;
    if a.next.inclusive {
      PendingGrows(trace, m, k, data, i);
    }
    PendingDelivered(trace, m, k, data, end);
    Answers(r, on, a.p, trace, Data(k, data[m[k]..end]));
  }

  /** CALLBACK_DATA(body) after a chunk whose bytes all came in an earlier call. */
  lemma NoFlushMatches(r: Rules, p: Parser, a: Act, n: nat, marks: Marks, data: string, i: nat,
                       on: Callbacks, trace: seq<Event>)
    requires MarksWithin(marks, i) && a.take == 1 && i < |data|
    requires MarksFit(p.state, marks, i, true) && Shape(p.state, a, n)
    requires a.p.errno == OK && a.next.Flush? && a.next.kind !in SetMark(marks, a.mark, i)
    ensures Matches(r, p, a, marks, data, i, on, trace)
  {
    hide Emit, Joined;
  }

  lemma ActMatches(r: Rules, p: Parser, a: Act, n: nat, marks: Marks, data: string, i: nat,
                   on: Callbacks, trace: seq<Event>)
    requires MarksWithin(marks, i) && a.take == 1 && i < |data|
    requires MarksFit(p.state, marks, i, true) && Shape(p.state, a, n)
    requires Agrees(on, r) && a.p.errno == OK && LeavesGood(a)
    ensures Matches(r, p, a, marks, data, i, on, trace)
  {
    hide Matches, MarksFit, Shape, Good;
    match a.next
    case Fail(_) => FailMatches(r, p, a, n, marks, data, i, on, trace);
    case Notify(_, _) => NotifyMatches(r, p, a, n, marks, data, i, on, trace);
    case Quiet(_) => QuietMatches(r, p, a, n, marks, data, i, on, trace);
    case Flush(k, _, _) =>
      if k in SetMark(marks, a.mark, i) {
        FlushMatches(r, p, a, n, marks, data, i, on, trace);
      } else {
        NoFlushMatches(r, p, a, n, marks, data, i, on, trace);
      }
  }

  // ----- the switch does not depend on how many bytes are left, but in a body run

  lemma ArmAvail(p: Parser, ch: char, avail: nat)
    requires avail > 0 && !BodyRun(p.state)
    ensures Arm(p, ch, avail) == Arm(p, ch, 1) && Arm(p, ch, avail).take == 1
  {
  }

  /** The parser in a body run, before the last of the n bytes that an arm takes at once. */
  function BeforeLast(p: Parser, n: nat): Parser
    requires n > 0 && (p.state == Body(BodyIdentityEof) || n <= p.contentLength)
  {
    if p.state == Body(BodyIdentityEof) then p else p.(contentLength := p.contentLength - (n - 1))
  }

  /** In a body run that is not at its end: what the asserts there ask for. */
  predicate RunOk(p: Parser) {
    && BodyRun(p.state)
    && (p.state == Chunk(ChunkData) ==> p.flags.chunked)
    && (p.state != Body(BodyIdentityEof) ==> 0 < p.contentLength < ULLONG_MAX)
  }

  lemma LookingRuns(p: Parser)
    requires Looking(p) && BodyRun(p.state)
    ensures RunOk(p)
  {
  }

  /** Taking n bytes at once does what taking the last of them alone does. */
  lemma RunArm(p: Parser, ch: char, last: char, avail: nat)
    requires avail > 0 && RunOk(p)
    ensures var a := Arm(p, ch, avail);
            && (p.state != Body(BodyIdentityEof) ==> a.take <= p.contentLength)
            && Arm(BeforeLast(p, a.take), last, 1) == a.(take := 1)
            && !a.next.Fail?
  {
  }

  lemma RunByte(r: Rules, c: Cfg, b: char)
    requires RunOk(c.p) && c.stop == Running
    requires c.p.state == Body(BodyIdentityEof) || c.p.contentLength > 1
    ensures OnByte(r, c, b) == Cfg(Norm(r, BeforeLast(c.p, 2)), Emit(c.trace, Data(KBody, [b])), Running, c.taken + 1)
  {
  }

  /** The reference, fed the bytes of a body run but not its last one. */
  lemma {:induction false} RunFeeds(r: Rules, c: Cfg, bytes: string)
    requires RunOk(c.p) && c.stop == Running && c.p == Norm(r, c.p)
    requires bytes != [] && (c.p.state == Body(BodyIdentityEof) || |bytes| < c.p.contentLength)
    ensures Feed(r, c, bytes)
         == Cfg(BeforeLast(c.p, |bytes| + 1), Emit(c.trace, Data(KBody, bytes)), Running, c.taken + |bytes|)
    decreases |bytes|
  {
    hide OnByte, Emit;
    RunByte(r, c, bytes[0]);
    var d := OnByte(r, c, bytes[0]);
    if |bytes| > 1 {
      RunFeeds(r, d, bytes[1..]);
      EmitEmit(c.trace, KBody, [bytes[0]], bytes[1..]);
      assert [bytes[0]] + bytes[1..] == bytes;
    } else {
      assert [bytes[0]] == bytes;
    }
  }

  // ----- only ChunkSizeStart looks at nread, and there it is 1

  /** The same but for nread. */
  predicate Alike(a: Act, b: Act) {
    b == a.(p := a.p.(nread := b.p.nread))
  }

  lemma StartAlike(p: Parser, n: nat, s: StartState, ch: char)
    ensures Alike(StartArm(p, s, ch), StartArm(p.(nread := n), s, ch))
  {
  }

  lemma StatusLineAlike(p: Parser, n: nat, s: StatusLineState, ch: char)
    ensures Alike(StatusLineArm(p, s, ch), StatusLineArm(p.(nread := n), s, ch))
  {
  }

  lemma MethodAlike(p: Parser, n: nat, ch: char)
    ensures Alike(MethodArm(p, ch), MethodArm(p.(nread := n), ch))
  {
  }

  lemma UrlByteAlike(p: Parser, n: nat, from: UrlState, ch: char)
    ensures Alike(UrlByte(p, from, ch), UrlByte(p.(nread := n), from, ch))
  {
    hide ParseUrlChar;
  }

  lemma UrlAlike(p: Parser, n: nat, s: UrlState, ch: char)
    ensures Alike(UrlArm(p, s, ch), UrlArm(p.(nread := n), s, ch))
  {
    hide UrlByte, UrlOpening;
    UrlByteAlike(p, n, s, ch);
    UrlByteAlike(p, n, ReqServerStart, ch);
  }

  lemma VersionAlike(p: Parser, n: nat, s: VersionState, ch: char)
    ensures Alike(VersionArm(p, s, ch), VersionArm(p.(nread := n), s, ch))
  {
  }

  lemma MatchNextAlike(p: Parser, n: nat, c: char, word: string, done: HeaderState)
    requires |word| > 1
    ensures MatchNext(p.(nread := n), c, word, done) == MatchNext(p, c, word, done).(nread := n)
  {
  }

  lemma FieldMatcherAlike(p: Parser, n: nat, ch: char)
    ensures var m := MatchFieldByte(p, ch);
            var k := MatchFieldByte(p.(nread := n), ch);
            m.Some? == k.Some? && (m.Some? ==> k.value == m.value.(nread := n))
  {
    hide MatchNext, Token;
    var c := Token(ch);
    match p.headerState
    case HMatchingConnection => MatchNextAlike(p, n, c, CONNECTION, HConnection);
    case HMatchingProxyConnection => MatchNextAlike(p, n, c, PROXY_CONNECTION, HConnection);
    case HMatchingContentLength => MatchNextAlike(p, n, c, CONTENT_LENGTH, HContentLength);
    case HMatchingTransferEncoding => MatchNextAlike(p, n, c, TRANSFER_ENCODING, HTransferEncoding);
    case HMatchingUpgrade => MatchNextAlike(p, n, c, UPGRADE, HUpgrade);
    case _ =>
  }

  lemma ValueMatcherAlike(p: Parser, n: nat, ch: char)
    ensures var m := MatchValueByte(p, ch);
            var k := MatchValueByte(p.(nread := n), ch);
            m.Some? == k.Some? && (m.Some? ==> k.value == m.value.(nread := n))
  {
    hide MatchNext, Lower;
    var c := Lower(ch);
    match p.headerState
    case HMatchingTransferEncodingChunked => MatchNextAlike(p, n, c, CHUNKED, HTransferEncodingChunked);
    case HMatchingConnectionKeepAlive => MatchNextAlike(p, n, c, KEEP_ALIVE, HConnectionKeepAlive);
    case HMatchingConnectionClose => MatchNextAlike(p, n, c, CLOSE, HConnectionClose);
    case _ =>
  }

  lemma ValueAlike(p: Parser, n: nat, ch: char)
    ensures Alike(ValueArm(p, ch), ValueArm(p.(nread := n), ch))
  {
    hide MatchValueByte, ContentLengthArm;
    ValueMatcherAlike(p, n, ch);
    LengthAlike(p, n, ch);
  }

  lemma LengthAlike(p: Parser, n: nat, ch: char)
    ensures Alike(ContentLengthArm(p, ch), ContentLengthArm(p.(nread := n), ch))
  {
  }

  lemma ValueStartAlike(p: Parser, n: nat, ch: char)
    ensures Alike(ValueStartArm(p, ch), ValueStartArm(p.(nread := n), ch))
  {
    hide Lower, IsNum;
  }

  lemma FieldAlike(p: Parser, n: nat, ch: char)
    ensures Alike(FieldArm(p, ch), FieldArm(p.(nread := n), ch))
    ensures Alike(FieldStartArm(p, ch), FieldStartArm(p.(nread := n), ch))
  {
    hide MatchFieldByte, Token;
    FieldMatcherAlike(p, n, ch);
  }

  lemma HeaderAlike(p: Parser, n: nat, s: HeaderLineState, ch: char)
    ensures Alike(HeaderArm(p, s, ch), HeaderArm(p.(nread := n), s, ch))
  {
    hide FieldArm, FieldStartArm, ValueArm, ValueStartArm;
    FieldAlike(p, n, ch);
    ValueAlike(p, n, ch);
    ValueStartAlike(p, n, ch);
  }

  lemma HeadersEndAlike(p: Parser, n: nat, s: HeadersEndState, ch: char)
    ensures Alike(HeadersEndArm(p, s, ch), HeadersEndArm(p.(nread := n), s, ch))
  {
  }

  lemma BodyAlike(p: Parser, n: nat, s: BodyState)
    ensures Alike(BodyArm(p, s, 1), BodyArm(p.(nread := n), s, 1))
  {
  }

  lemma ChunkAlike(p: Parser, n: nat, s: ChunkState, ch: char)
    requires s == ChunkSizeStart ==> p.nread == n
    ensures Alike(ChunkArm(p, s, ch, 1), ChunkArm(p.(nread := n), s, ch, 1))
  {
  }

  lemma ArmAlike(p: Parser, n: nat, ch: char)
    requires p.state == Chunk(ChunkSizeStart) ==> p.nread == n
    ensures Alike(Arm(p, ch, 1), Arm(p.(nread := n), ch, 1))
  {
    match p.state
    case Start(s) => StartAlike(p, n, s, ch);
    case StatusLine(s) => StatusLineAlike(p, n, s, ch);
    case MethodName => MethodAlike(p, n, ch);
    case Url(s) => UrlAlike(p, n, s, ch);
    case Version(s) => VersionAlike(p, n, s, ch);
    case Header(s) => HeaderAlike(p, n, s, ch);
    case HeadersEnd(s) => HeadersEndAlike(p, n, s, ch);
    case Body(s) => BodyAlike(p, n, s);
    case Chunk(s) => ChunkAlike(p, n, s, ch);
  }

  // ----- one turn of the loop

  /** Feeding the bytes from i on, when byte i has been counted. */
  function FeedOn(r: Rules, c: Cfg, data: string, i: nat): Cfg
    requires i < |data|
  {
    Feed(r, Redo(r, c, data[i]), data[i + 1..])
  }

  function Here(r: Rules, p: Parser, trace: seq<Event>, marks: Marks, data: string, i: nat): Cfg
    requires i <= |data|
  {
    Stands(r, p, trace, marks, data, i, Running)
  }

  /** What a turn leaves to feed: the same byte again if it is unread, else the bytes from u.i on. */
  ghost predicate Continues(r: Rules, before: Cfg, u: Turn, data: string)
    requires u.i <= |data| && (Unread(u.verdict) ==> u.i < |data|)
  {
    && before == (if Unread(u.verdict) then FeedOn(r, TurnAt(r, u, data), data, u.i)
                  else Feed(r, TurnAt(r, u, data), data[u.i..]))
    && (u.verdict.Stop? && u.verdict.how.CallbackExit? ==> r.pauses && u.p.errno == Paused)
    && (u.verdict.Stop? && u.verdict.how != ErrorExit ==> u.marks == map[])
    && (!r.pauses ==> u.p.errno != Paused)
  }

  /** A turn of one byte. */
  lemma TurnFeeds(r: Rules, p: Parser, marks: Marks, data: string, i: nat, on: Callbacks, trace: seq<Event>)
    requires i < |data| && MarksWithin(marks, i) && MarksFit(p.state, marks, i, true)
    requires r.counting && Agrees(on, r) && p.errno == OK && Looking(p)
    ensures var u := Finish(Arm(p, data[i], 1), marks, data, i, on, trace);
            (Unread(u.verdict) ==> u.i < |data|)
            && Continues(r, FeedOn(r, Here(r, p, trace, marks, data, i), data, i), u, data)
  {
    hide Arm, MarksFit, Looking, React, Finish, Pending;
    var a := Arm(p, data[i], 1);
    ArmGood(p, data[i], 1);
    ArmShape(p, data[i], 1);
    ActMatches(r, p, a, 1, marks, data, i, on, trace);
    var u := Finish(a, marks, data, i, on, trace);
    var c := TurnAt(r, u, data);
    var h := Here(r, p, trace, marks, data, i);
    var x := React(r, h, Arm(h.p, data[i], 1), data[i]);
    assert x.c == c;
    assert Redo(r, h, data[i]) == if x.again then Redo(r, c, data[i]) else c;
    if Unread(u.verdict) {
      assert Continues(r, FeedOn(r, h, data, i), u, data);
    } else if u.verdict.OnNext? {
      assert Continues(r, FeedOn(r, h, data, i), u, data);
    } else if c.stop != Running {
      FeedStopped(r, c, data[i + 1..]);
      FeedStopped(r, c, data[u.i..]);
      assert Continues(r, FeedOn(r, h, data, i), u, data);
    } else {
      assert Continues(r, FeedOn(r, h, data, i), u, data);
    }
  }

  // ----- a turn of any number of bytes

  /** In a body run no byte is counted, so feeding on is feeding. */
  lemma RunFeedOn(r: Rules, c: Cfg, data: string, i: nat)
    requires i < |data| && BodyRun(c.p.state) && c.stop == Running && c.p == Norm(r, c.p)
    ensures FeedOn(r, c, data, i) == Feed(r, c, data[i..])
  {
    hide Redo;
    assert data[i..][1..] == data[i + 1..];
    assert OnByte(r, c, data[i]) == Redo(r, c, data[i]);
  }

  /** The bytes of a run before its last one, in the reference. */
  lemma RunUpTo(r: Rules, p: Parser, data: string, i: nat, j: nat, trace: seq<Event>)
    requires i < j < |data| && BodyRun(p.state) && Looking(p) && p.errno == OK
    requires p.state == Body(BodyIdentityEof) || j - i < p.contentLength
    ensures FeedOn(r, Here(r, p, trace, map[], data, i), data, i)
         == FeedOn(r, Here(r, BeforeLast(p, j - i + 1), trace, map[KBody := i], data, j), data, j)
  {
    hide Feed, FeedOn, Looking, Joined, Emit;
    var c := Here(r, p, trace, map[], data, i);
    var d := Here(r, BeforeLast(p, j - i + 1), trace, map[KBody := i], data, j);
    RunFeedOn(r, c, data, i);
    assert data[i..] == data[i..j] + data[j..];
    FeedAppend(r, c, data[i..j], data[j..]);
    LookingRuns(p);
    RunFeeds(r, c, data[i..j]);
    assert Feed(r, c, data[i..j]) == d;
    RunFeedOn(r, d, data, j);
  }

  /** Taking a run at once ends a turn as taking its last byte alone does. */
  lemma RunFinish(a: Act, data: string, i: nat, on: Callbacks, trace: seq<Event>)
    requires a.take > 1 && i + a.take <= |data| && a.mark == Some(KBody) && !a.next.Fail? && !a.next.Abort?
    ensures var j := i + a.take - 1;
            Finish(a, map[], data, i, on, trace) == Finish(a.(take := 1), map[KBody := i], data, j, on, trace)
  {
    hide AfterCall;
    var j := i + a.take - 1;
    assert SetMark(map[], a.mark, i) == SetMark(map[KBody := i], a.mark, j);
  }

  lemma RunPass(r: Rules, p: Parser, marks: Marks, data: string, i: nat, on: Callbacks, trace: seq<Event>)
    requires i < |data| && MarksWithin(marks, i) && MarksFit(p.state, marks, i, false)
    requires r.counting && Agrees(on, r) && p.errno == OK && Looking(p)
    requires BodyRun(p.state) && Arm(p, data[i], |data| - i).take > 1
    ensures Continues(r, FeedOn(r, Here(r, p, trace, marks, data, i), data, i),
                      Pass(p, marks, data, i, on, trace), data)
  {
    hide Arm, Finish, FeedOn, Here, Looking, Continues;
    var a := Arm(p, data[i], |data| - i);
    var j := i + a.take - 1;
    ArmGood(p, data[i], |data| - i);
    ArmShape(p, data[i], |data| - i);
    LookingRuns(p);
    RunArm(p, data[i], data[j], |data| - i);
    RunUpTo(r, p, data, i, j, trace);
    var q := BeforeLast(p, a.take);
    LookingBeforeLast(p, a.take);
    TurnFeeds(r, q, map[KBody := i], data, j, on, trace);
    RunFinish(a, data, i, on, trace);
  }

  lemma LookingBeforeLast(p: Parser, n: nat)
    requires Looking(p) && BodyRun(p.state) && n > 0
    requires p.state == Body(BodyIdentityEof) || n <= p.contentLength
    ensures Looking(BeforeLast(p, n))
  {
  }

  /** One pass through the switch, in the reference. */
  lemma PassFeeds(r: Rules, p: Parser, marks: Marks, data: string, i: nat, on: Callbacks, trace: seq<Event>)
    requires i < |data| && MarksWithin(marks, i) && MarksFit(p.state, marks, i, false)
    requires r.counting && Agrees(on, r) && p.errno == OK && Looking(p)
    ensures Continues(r, FeedOn(r, Here(r, p, trace, marks, data, i), data, i),
                      Pass(p, marks, data, i, on, trace), data)
  {
    hide Arm, Finish, FeedOn, Here, Looking, Continues;
    var a := Arm(p, data[i], |data| - i);
    if !BodyRun(p.state) {
      ArmAvail(p, data[i], |data| - i);
      TurnFeeds(r, p, marks, data, i, on, trace);
    } else if a.take == 1 {
      LookingRuns(p);
      RunArm(p, data[i], data[i], |data| - i);
      TurnFeeds(r, p, marks, data, i, on, trace);
    } else {
      RunPass(r, p, marks, data, i, on, trace);
    }
  }
}
