/**
 A parser for requests and responses alike. The first two bytes of a message tell which one it
 is, and from then on the parser is just the parser for that kind.
 */
module EitherKind {
  import opened Chars
  import opened Types
  import opened Arms
  import opened Execute
  import opened Invariant
  import opened Reference
  import opened Steps
  import opened Refinement
  import opened Bridge
  import opened Messages
  import opened RoundTrip
  import opened Connection
  import opened Cutting
  import Methods
  import Headers
  import Numbers
  import ResponseLine

  predicate Undecided(r: Rules, c: Cfg, n: nat) {
    && c.stop == Running && c.p.typ.Both? && c.p.state == Start(StartReqOrRes) && Room(r, c.p, n)
    && c.p == Read(r, c.p, 0)
  }

  /** c with a parser for messages of one kind. */
  function Decided(c: Cfg, typ: ParserType): Cfg {
    c.(p := c.p.(typ := typ, state := Init(typ).state))
  }

  /** Line ends are skipped, and tell nothing. */
  lemma {:induction false} EolsSkipped(r: Rules, c: Cfg, eols: string)
    requires Undecided(r, c, |eols|) && OnlyEols(eols)
    ensures Feed(r, c, eols) == Went(c, Read(r, c.p, |eols|), c.trace, |eols|)
    decreases |eols|
  {
    hide OnByte;
    if eols != "" {
      var q := Read(r, c.p, 1);
      assert Arm(q, eols[0], 1) == Quietly(q);
      QuietByte(r, c, eols[0], q);
      EolsSkipped(r, Went(c, q, c.trace, 1), eols[1..]);
    }
  }

  /** Any first byte but H begins a request, or nothing. */
  lemma NoH(r: Rules, c: Cfg, b: char)
    requires Undecided(r, c, 1) && !IsEol(b) && b != 'H'
    ensures OnByte(r, c, b) == OnByte(r, Decided(c, Request), b)
  {
    HeaderByte(r, c, b);
    HeaderByte(r, Decided(c, Request), b);
    var q := Read(r, c.p, 1);
    var z := q.(flags := NO_FLAGS, contentLength := ULLONG_MAX, typ := Request);
    assert Arm(q, b, 1) == Again(z, Start(StartReq));
    AlreadyCleared(q.(typ := Request, state := Start(StartReq)), b);
    hide Arm, Emit;
    assert Redo(r, c.(p := q), b) == Redo(r, c.(p := z.(state := Start(StartReq))), b);
  }

  /** The start of a request clears these fields anyway. */
  lemma AlreadyCleared(p: Parser, b: char)
    requires p.state == Start(StartReq) && !IsEol(b)
    ensures Arm(p, b, 1) == Arm(p.(flags := NO_FLAGS, contentLength := ULLONG_MAX), b, 1)
  {
    hide FirstMethod, IsAlpha;
  }

  /** The parser when H has been read, and what comes next will tell. */
  function HRead(r: Rules, c: Cfg): Cfg {
    Went(c, Read(r, c.p, 1).(flags := NO_FLAGS, contentLength := ULLONG_MAX, state := Start(ResOrRespH)),
         Emit(c.trace, MessageBegin), 1)
  }

  lemma HReads(r: Rules, c: Cfg)
    requires Undecided(r, c, 1)
    ensures OnByte(r, c, 'H') == HRead(r, c)
  {
    HeaderByte(r, c, 'H');
    hide Emit;
  }

  lemma SecondByte(r: Rules, c: Cfg, b: char)
    requires Undecided(r, c, 2)
    ensures var d := OnByte(r, HRead(r, c), b);
            if b == 'T' then
              d == Went(c, ResponseLine.Begun(r, c.p, 2, ResHT).(typ := Response), Emit(c.trace, MessageBegin), 2)
            else if b == 'E' then
              d == Went(c, Methods.Reading(r, c.p, HEAD, 2).(typ := Request), Emit(c.trace, MessageBegin), 2)
            else RefusedWith(d, InvalidConstant)
  {
    HeaderByte(r, HRead(r, c), b);
    hide Emit;
  }

  lemma HtReads(r: Rules, c: Cfg)
    requires Undecided(r, c, 2)
    ensures OnByte(r, OnByte(r, Decided(c, Response), 'H'), 'T') ==
              Went(c, ResponseLine.Begun(r, c.p, 2, ResHT).(typ := Response), Emit(c.trace, MessageBegin), 2)
  {
    hide OnByte, Emit;
    ResponseLine.FirstLetter(r, Decided(c, Response));
    Numbers.PassingByte(r, OnByte(r, Decided(c, Response), 'H'), 'T', StatusLine(ResHT));
  }

  lemma HeReads(r: Rules, c: Cfg)
    requires Undecided(r, c, 2)
    ensures OnByte(r, OnByte(r, Decided(c, Request), 'H'), 'E') ==
              Went(c, Methods.Reading(r, c.p, HEAD, 2).(typ := Request), Emit(c.trace, MessageBegin), 2)
  {
    hide OnByte, Feed, Emit;
    var d := Decided(c, Request);
    Methods.NameReads(r, d, HEAD, 2);
    assert MethodStr(HEAD)[..2] == ['H', 'E'];
    TwoBytes(r, d, 'H', 'E');
  }

  /**
   Whatever the text: after line ends, H T begins a response, H with any other byte but E is
   refused, and all else is read as the parser for requests reads it.
   */
  lemma KindFound(r: Rules, c: Cfg, eols: string, text: string)
    requires Undecided(r, c, |eols| + 2) && OnlyEols(eols) && |text| >= 2 && !IsEol(text[0])
    ensures var d := Feed(r, c, eols + text);
            var e := Went(c, Read(r, c.p, |eols|), c.trace, |eols|);
            if text[0] != 'H' || text[1] == 'E' then d == Feed(r, Decided(e, Request), text)
            else if text[1] == 'T' then d == Feed(r, Decided(e, Response), text)
            else RefusedWith(d, InvalidConstant)
  {
    hide OnByte, Feed, Emit;
    FeedAppend(r, c, eols, text);
    EolsSkipped(r, c, eols);
    var e := Feed(r, c, eols);
    assert text == [text[0]] + text[1..];
    FeedOne(r, e, text[0], text[1..]);
    if text[0] != 'H' {
      NoH(r, e, text[0]);
      FeedOne(r, Decided(e, Request), text[0], text[1..]);
    } else {
      assert text == [text[0], text[1]] + text[2..];
      FeedAppend(r, e, [text[0], text[1]], text[2..]);
      FeedAppend(r, Decided(e, Request), [text[0], text[1]], text[2..]);
      FeedAppend(r, Decided(e, Response), [text[0], text[1]], text[2..]);
      TwoBytes(r, e, text[0], text[1]);
      TwoBytes(r, Decided(e, Request), text[0], text[1]);
      TwoBytes(r, Decided(e, Response), text[0], text[1]);
      HReads(r, e);
      SecondByte(r, e, text[1]);
      HtReads(r, e);
      HeReads(r, e);
      if text[1] != 'E' && text[1] != 'T' {
        FeedStopped(r, Feed(r, e, [text[0], text[1]]), text[2..]);
      }
    }
  }

  // ----- over calls cut anywhere

  /** The messages begin at once: a line end before the first one is told by a parser for responses alone. */
  predicate NoLead(ms: seq<Message>) {
    ms != [] && ms[0].lead == ""
  }

  lemma TextTells(typ: ParserType, ms: seq<Message>)
    requires AllOf(typ, ms) && NoLead(ms) && HeadOk(ms[0])
    ensures var text := TextAll(ms);
            && |text| >= 2 && !IsEol(text[0])
            && typ == (if text[0] != 'H' || text[1] == 'E' then Request else Response)
            && (typ.Response? ==> text[0] == 'H' && text[1] == 'T')
  {
    hide Text, LineOk, FirstLine, Headers.AllWellFormed, Headers.AllLengthsOk;
    var m := ms[0];
    assert m in ms;
    var rest := TextFront(ms, 1);
    assert ms[..1] == [m] && [m][..0] == [];
    assert TextAll([m]) == TextAll([]) + Text(m) == Text(m);
    hide TextAll;
    FirstTwo(m.line);
    LineFirst(m);
    assert TextAll(ms)[0] == FirstLine(m.line)[0] && TextAll(ms)[1] == FirstLine(m.line)[1];
  }

  lemma LineFirst(m: Message)
    requires m.lead == ""
    ensures FirstLine(m.line) <= Text(m)
  {
    hide FirstLine, Headers.PrintAll, PayloadText;
    assert m.lead + FirstLine(m.line) == FirstLine(m.line);
    assert Text(m) == FirstLine(m.line) + (Headers.PrintAll(m.headers) + m.eol + PayloadText(m.payload));
  }

  lemma FirstTwo(l: Line)
    requires LineOk(l)
    ensures var s := FirstLine(l);
            && |s| >= 2 && !IsEol(s[0])
            && (if l.Asking? then s[0] != 'H' || s[1] == 'E' else s[0] == 'H' && s[1] == 'T')
  {
    match l
    case Asking(meth, _, _, _, _) =>
      TwoLetters(meth);
      hide MethodStr;
      assert FirstLine(l)[..2] == MethodStr(meth)[..2];
    case Answering(status) =>
      assert FirstLine(l)[0] == 'H' && FirstLine(l)[1] == 'T' by { hide ResponseLine.ReasonText; }
  }

  lemma TwoLetters(m: Method)
    ensures var s := MethodStr(m); |s| >= 2 && !IsEol(s[0]) && (s[0] != 'H' || s[1] == 'E')
  {
  }

  /** A parser for both kinds reads messages of one kind as the parser for that kind does. */
  lemma PrintParseEither(typ: ParserType, ms: seq<Message>, pieces: seq<string>,
                         skips: seq<Event> -> bool, on: Callbacks)
    requires AllOf(typ, ms) && AllFit(0, ms) && NoLead(ms)
    requires Concat(pieces) == TextAll(ms) && pieces != [] && forall s :: s in pieces ==> s != ""
    requires Agrees(on, Rules(true, false, skips)) && ChosenAll(skips, [], ms)
    ensures var o := Calls(Init(Both), pieces, on, []);
            && o.how == AllRead && o.ret == |TextAll(ms)|
            && Joined(o.trace) == EventsOfAll(ms)
            && o.p.typ == typ && o.p.state == FirstState(o.p) && o.p.errno == OK && o.p == Lined(o.p, ms[|ms| - 1])
  {
    hide Calls, Feed, AllFit, TextAll, EventsOfAll, AfterAll, ChosenAll, HeadOk;
    var r := Rules(true, false, skips);
    InitRests(Both);
    CallsIs(r, Init(Both), pieces, on, []);
    assert HeadOk(ms[0]) && TypeOf(ms[0]) == typ by {
      assert ms[0] in ms;
      FirstFits(ms);
    }
    TextTells(typ, ms);
    var c := Begin(r, Init(Both), []);
    KindFound(r, c, "", TextAll(ms));
    assert "" + TextAll(ms) == TextAll(ms);
    assert Decided(c, typ) == Begin(r, Init(typ), []);
    PipelineReads(r, Begin(r, Init(typ), []), ms);
    AllWritten(ms);
  }

  lemma FirstFits(ms: seq<Message>)
    requires AllFit(0, ms) && ms != []
    ensures HeadOk(ms[0])
  {
    hide HeadOk, HeadText, HandsOver, Framed, Delimited, Persistent;
    assert Fits(0, ms, 0);
  }
}
