/**
 Whether a connection stays open. What the headers and the version of a message say is what the
 parser does after it: it stands before a next message, or it is dead and refuses the next byte
 that is no line end. Nothing here is said in terms of http_should_keep_alive; that function is
 found to say the same.
 */
module Connection {
  import opened Chars
  import opened Types
  import opened Arms
  import opened Execute
  import opened Invariant
  import opened Reference
  import opened Steps
  import opened Refinement
  import opened Bridge
  import opened Messages
  import opened RoundTrip
  import opened Cutting
  import Headers
  import Methods
  import UrlText
  import RequestLine
  import ResponseLine

  /** What the last message has left counted. */
  function CarryOf(ms: seq<Message>): nat {
    if ms == [] then 0 else Carry(ms[|ms| - 1])
  }

  /** m can come after ms, which leave the connection open. */
  predicate Follows(typ: ParserType, ms: seq<Message>, m: Message) {
    && AllOf(typ, ms) && AllFit(0, ms) && TypeOf(m) == typ && Complete(m)
    && CarryOf(ms) + |HeadText(m)| <= HTTP_MAX_HEADER_SIZE
  }

  /** The application skips the bodies of just those messages that come without one. */
  predicate ChosenToo(skips: seq<Event> -> bool, ms: seq<Message>, m: Message) {
    ChosenAll(skips, [], ms) && Chosen(skips, AfterAll([], ms), m)
  }

  /** The reference after ms and m. */
  predicate Arrived(r: Rules, c: Cfg, ms: seq<Message>, m: Message, d: Cfg) {
    && d.stop == Running && d.taken == c.taken + |TextAll(ms) + Text(m)| && Idle(r, d)
    && d.trace == EventsOfAll(ms) + EventsOf(m)
    && d.p.typ == TypeOf(m) && d.p == Lined(d.p, m) && d.p.errno == c.p.errno && d.p.state == StateAfter(m)
    && (ShouldKeepAlive(d.p) <==> Persistent(m)) && (r.counting ==> d.p.nread == Carry(m))
  }

  lemma StreamReads(skips: seq<Event> -> bool, typ: ParserType, ms: seq<Message>, m: Message)
    requires Follows(typ, ms, m) && ChosenToo(skips, ms, m)
    ensures var r := Rules(true, false, skips);
            var c := Begin(r, Init(typ), []);
            Arrived(r, c, ms, m, Feed(r, c, TextAll(ms) + Text(m)))
  {
    hide Feed, AllFit, TextAll, EventsOfAll, EventsOf, AfterAll, ChosenAll, Complete, Text, HeadText, Carry;
    hide AfterMessage, Lined, StateAfter, ShouldKeepAlive, Persistent, Chosen;
    var r := Rules(true, false, skips);
    var c := Begin(r, Init(typ), []);
    FeedAppend(r, c, TextAll(ms), Text(m));
    PipelineReads(r, c, ms);
    var d := Feed(r, c, TextAll(ms));
    MessageReads(r, d, m);
    AllWritten(ms);
    LastCloses(ms);
    MessageWritten(d.trace, m);
  }

  // ----- the dead parser in the stream

  lemma DeadByte(r: Rules, c: Cfg, b: char)
    requires c.stop == Running && c.p.state == Start(Dead) && Room(r, c.p, 1)
    ensures var d := OnByte(r, c, b);
            if IsEol(b) then d == Went(c, Read(r, c.p, 1), c.trace, 1)
            else RefusedWith(d, ClosedConnection) && d.trace == c.trace && d.taken == c.taken
  {
    HeaderByte(r, c, b);
  }

  lemma {:induction false} DeadEols(r: Rules, c: Cfg, eols: string)
    requires c.stop == Running && c.p.state == Start(Dead) && Room(r, c.p, |eols|) && c.p == Read(r, c.p, 0)
    requires OnlyEols(eols)
    ensures Feed(r, c, eols) == Went(c, Read(r, c.p, |eols|), c.trace, |eols|)
    decreases |eols|
  {
    hide OnByte;
    if eols != "" {
      DeadByte(r, c, eols[0]);
      DeadEols(r, OnByte(r, c, eols[0]), eols[1..]);
    }
  }

  lemma DeadStops(r: Rules, c: Cfg, eols: string, b: char, rest: string)
    requires c.stop == Running && c.p.state == Start(Dead) && Room(r, c.p, |eols| + 1) && c.p == Read(r, c.p, 0)
    requires OnlyEols(eols) && !IsEol(b)
    ensures var d := Feed(r, c, eols + [b] + rest);
            RefusedWith(d, ClosedConnection) && d.trace == c.trace && d.taken == c.taken + |eols|
  {
    hide OnByte, Feed;
    FeedAppend(r, c, eols + [b], rest);
    FeedSnoc(r, c, eols, b);
    DeadEols(r, c, eols);
    DeadByte(r, Feed(r, c, eols), b);
    FeedStopped(r, Feed(r, c, eols + [b]), rest);
  }

  // ----- over calls cut anywhere

  /**
   After messages that keep the connection open, any whole message is delivered, and the parser is
   ready for another one if and only if that message keeps it open too; otherwise it is dead. This
   is just what http_should_keep_alive answers.
   */
  lemma StaysOpenIff(typ: ParserType, ms: seq<Message>, m: Message, pieces: seq<string>,
                     skips: seq<Event> -> bool, on: Callbacks)
    requires Follows(typ, ms, m) && ChosenToo(skips, ms, m) && Agrees(on, Rules(true, false, skips))
    requires Concat(pieces) == TextAll(ms) + Text(m) && pieces != [] && forall s :: s in pieces ==> s != ""
    ensures var o := Calls(Init(typ), pieces, on, []);
            && o.how == AllRead && o.ret == |TextAll(ms) + Text(m)| && o.p.errno == OK
            && Joined(o.trace) == EventsOfAll(ms) + EventsOf(m)
            && o.p.state == (if !Persistent(m) then Start(Dead)
                             else if typ.Request? then Start(StartReq) else Start(StartRes))
            && (ShouldKeepAlive(o.p) <==> Persistent(m)) && o.p == Lined(o.p, m)
  {
    hide Calls, Feed, AllFit, TextAll, EventsOfAll, EventsOf, ChosenAll, Complete, Text, HeadText, Carry, AfterAll;
    hide Lined, ShouldKeepAlive, Persistent, Chosen, Joined;
    var r := Rules(true, false, skips);
    InitRests(typ);
    CallsIs(r, Init(typ), pieces, on, []);
    StreamReads(skips, typ, ms, m);
  }

  /**
   After a message that does not keep the connection open all of it has been delivered, line ends
   are skipped, and the next other byte is refused with HPE_CLOSED_CONNECTION, at its offset.
   */
  lemma ClosedAfter(typ: ParserType, ms: seq<Message>, m: Message, eols: string, b: char, rest: string,
                    pieces: seq<string>, skips: seq<Event> -> bool, on: Callbacks)
    requires Follows(typ, ms, m) && ChosenToo(skips, ms, m) && Agrees(on, Rules(true, false, skips))
    requires !Persistent(m) && OnlyEols(eols) && b != '\r' && b != '\n'
    requires Carry(m) + |eols| < HTTP_MAX_HEADER_SIZE
    requires Concat(pieces) == TextAll(ms) + Text(m) + (eols + [b] + rest)
    requires pieces != [] && forall s :: s in pieces ==> s != ""
    ensures var o := Calls(Init(typ), pieces, on, []);
            && o.how == ErrorExit && o.p.errno == ClosedConnection && o.ret == |TextAll(ms) + Text(m)| + |eols|
            && Joined(o.trace) == EventsOfAll(ms) + EventsOf(m)
  {
    hide Calls, Feed, AllFit, TextAll, EventsOfAll, EventsOf, ChosenAll, Complete, Text, HeadText, Carry, AfterAll;
    hide Lined, ShouldKeepAlive, Persistent, Chosen, Joined;
    var r := Rules(true, false, skips);
    InitRests(typ);
    CallsIs(r, Init(typ), pieces, on, []);
    var c := Begin(r, Init(typ), []);
    FeedAppend(r, c, TextAll(ms) + Text(m), eols + [b] + rest);
    StreamReads(skips, typ, ms, m);
    DeadStops(r, Feed(r, c, TextAll(ms) + Text(m)), eols, b, rest);
    NoRunLost(EventsOfAll(ms), m, Joined(Calls(Init(typ), pieces, on, []).trace));
  }

  /** A record that ends with a message is not up to the middle of a run. */
  lemma NoRunLost(before: seq<Event>, m: Message, got: seq<Event>)
    requires UpToRun(before + EventsOf(m), got)
    ensures got == before + EventsOf(m)
  {
    hide HeadEvents, BodyEvents, HeaderEvents;
    var full := before + EventsOf(m);
    assert full[|full| - 1] == MessageComplete;
  }

  // ----- any messages at all

  /** The first message that does not keep the connection open. */
  function FirstClosing(ms: seq<Message>): (k: nat)
    ensures k <= |ms| && (k < |ms| ==> !Persistent(ms[k])) && forall i :: 0 <= i < k ==> Persistent(ms[i])
  {
    if ms == [] || !Persistent(ms[0]) then 0 else 1 + FirstClosing(ms[1..])
  }

  /** Each message is whole, and its head fits the limit. */
  predicate AllHeadsFit(ms: seq<Message>) {
    forall k :: 0 <= k < |ms| ==> HeadFits(ms, k)
  }

  predicate HeadFits(ms: seq<Message>, k: nat)
    requires k < |ms|
  {
    Complete(ms[k]) && CarryOf(ms[..k]) + |HeadText(ms[k])| <= HTTP_MAX_HEADER_SIZE
  }

  /** Up to a message all of whose forerunners keep the connection open. */
  lemma FollowsAt(typ: ParserType, ms: seq<Message>, skips: seq<Event> -> bool, k: nat)
    requires AllOf(typ, ms) && AllHeadsFit(ms) && ChosenAll(skips, [], ms) && k < |ms| && k <= FirstClosing(ms)
    ensures Follows(typ, ms[..k], ms[k]) && ChosenToo(skips, ms[..k], ms[k])
  {
    hide Complete, Persistent, HeadText, Carry, Chosen, AfterAll, FirstClosing;
    ChosenFront(skips, [], ms, k);
    assert ChosenAt(skips, [], ms, k) && HeadFits(ms, k) && ms[k] in ms;
    forall m | m in ms[..k] ensures TypeOf(m) == typ {
      assert m in ms;
    }
    forall j | 0 <= j < k ensures Fits(0, ms[..k], j) {
      assert HeadFits(ms, j) && Persistent(ms[j]) && ms[..k][j] == ms[j];
      if j > 0 {
        assert ms[..j][j - 1] == ms[..k][j - 1];
      }
    }
  }

  lemma {:induction false} TextFront(ms: seq<Message>, k: nat) returns (rest: string)
    requires k <= |ms|
    ensures TextAll(ms) == TextAll(ms[..k]) + rest
    decreases |ms|
  {
    hide Text;
    rest := "";
    if k == |ms| {
      assert ms[..k] == ms;
    } else {
      var n := |ms| - 1;
      rest := TextFront(ms[..n], k);
      assert ms[..n][..k] == ms[..k];
      assert TextAll(ms) == TextAll(ms[..k]) + (rest + Text(ms[n]));
      rest := rest + Text(ms[n]);
    }
  }

  /** The texts of all messages up to the k-th, the beginning of the next one, and the rest. */
  lemma TextAround(ms: seq<Message>, k: nat) returns (b: char, rest: string)
    requires k + 1 < |ms| && LineOk(ms[k + 1].line)
    ensures TextAll(ms) == TextAll(ms[..k]) + Text(ms[k]) + (ms[k + 1].lead + [b] + rest) && !IsEol(b)
    ensures |ms[k + 1].lead| < |HeadText(ms[k + 1])|
    ensures TextAll(ms[..k + 1]) == TextAll(ms[..k]) + Text(ms[k])
    ensures EventsOfAll(ms[..k + 1]) == EventsOfAll(ms[..k]) + EventsOf(ms[k])
  {
    hide LineOk, Headers.PrintAll, PayloadText, FirstLine, EventsOf;
    var n := ms[k + 1];
    var line := FirstLine(n.line);
    LineBegins(n.line);
    b := line[0];
    var r := TextFront(ms, k + 2);
    assert ms[..k + 2][..k + 1] == ms[..k + 1] && ms[..k + 1][..k] == ms[..k];
    var tail := Headers.PrintAll(n.headers) + n.eol + PayloadText(n.payload);
    assert line == [b] + line[1..];
    assert Text(n) == n.lead + [b] + (line[1..] + tail);
    hide Text;
    rest := line[1..] + tail + r;
    assert TextAll(ms[..k + 2]) == TextAll(ms[..k + 1]) + Text(n);
    assert Text(n) + r == n.lead + [b] + rest;
  }

  lemma LineBegins(l: Line)
    requires LineOk(l)
    ensures FirstLine(l) != "" && !IsEol(FirstLine(l)[0])
  {
    match l
    case Asking(meth, gap, target, protocol, eol) =>
      hide UrlText.PrintUrl, ProtocolText;
      Methods.FirstGuess(meth);
      hide MethodStr;
      Methods.EolNoLetter(MethodStr(meth)[0]);
      assert FirstLine(l)[0] == MethodStr(meth)[0];
    case Answering(status) =>
      assert FirstLine(l)[0] == 'H' by { StatusBegins(status); }
  }

  lemma StatusBegins(l: ResponseLine.Status)
    ensures ResponseLine.Print(l) != "" && ResponseLine.Print(l)[0] == 'H'
  {
    hide ResponseLine.ReasonText;
  }

  /**
   Messages that may or may not keep the connection open, in calls cut anywhere: they are delivered
   up to the first one that does not, and that one too. If it is the last they have all been read;
   otherwise the first byte of the next one is refused.
   */
  lemma DeliveredUpToClose(typ: ParserType, ms: seq<Message>, pieces: seq<string>,
                           skips: seq<Event> -> bool, on: Callbacks)
    requires AllOf(typ, ms) && AllHeadsFit(ms) && ms != []
    requires ChosenAll(skips, [], ms) && Agrees(on, Rules(true, false, skips)) && Cuts(pieces, TextAll(ms))
    ensures var o := Calls(Init(typ), pieces, on, []);
            var k := FirstClosing(ms);
            if k >= |ms| - 1 then
              && o.how == AllRead && o.ret == |TextAll(ms)| && o.p.errno == OK
              && Joined(o.trace) == EventsOfAll(ms)
            else
              && o.how == ErrorExit && o.p.errno == ClosedConnection
              && o.ret == |TextAll(ms[..k + 1])| + |ms[k + 1].lead|
              && Joined(o.trace) == EventsOfAll(ms[..k + 1])
  {
    hide Calls, TextAll, EventsOfAll, EventsOf, ChosenAll, Complete, Text, HeadText, Carry, Follows, ChosenToo;
    hide Lined, ShouldKeepAlive, Persistent, Joined, FirstClosing, AllOf;
    var k := FirstClosing(ms);
    if k >= |ms| - 1 {
      FollowsAt(typ, ms, skips, |ms| - 1);
      AllButLast(ms);
      StaysOpenIff(typ, ms[..|ms| - 1], ms[|ms| - 1], pieces, skips, on);
    } else {
      FollowsAt(typ, ms, skips, k);
      assert HeadFits(ms, k + 1);
      LineIsOk(ms[k + 1]);
      var b, rest := TextAround(ms, k);
      ClosedAfter(typ, ms[..k], ms[k], ms[k + 1].lead, b, rest, pieces, skips, on);
    }
  }

  lemma LineIsOk(m: Message)
    requires Complete(m)
    ensures OnlyEols(m.lead) && LineOk(m.line)
  {
  }

  lemma AllButLast(ms: seq<Message>)
    requires ms != []
    ensures TextAll(ms) == TextAll(ms[..|ms| - 1]) + Text(ms[|ms| - 1])
    ensures EventsOfAll(ms) == EventsOfAll(ms[..|ms| - 1]) + EventsOf(ms[|ms| - 1])
  {
  }
}
