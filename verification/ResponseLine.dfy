/**
 The first line of a response: its numbers are read exactly or refused, and the reason phrase
 is delivered.
 */
module ResponseLine {
  import opened Chars
  import opened Types
  import opened Arms
  import opened Execute
  import opened Reference
  import opened Steps
  import opened Lengths
  import opened Numbers

  /** The numbers of a status line. */
  predicate OfStatus(k: Number) {
    k == Major || k == Minor || k == Code
  }

  /** What ends each number, and the state after it. */
  function EndOf(k: Number): char {
    if k == Major then '.' else ' '
  }

  function After(k: Number): StatusLineState {
    match k
    case Major => ResFirstHttpMinor
    case Minor => ResFirstStatusCode
    case _ => ResStatusStart
  }

  /** A number with what ends it. */
  lemma FieldReads(r: Rules, c: Cfg, k: Number, v: string)
    requires c.stop == Running && c.p.state == FirstDigitState(k) && OfStatus(k) && Room(r, c.p, |v| + 1)
    requires NumberText(v)
    ensures var n := |v| + 1;
            var d := Feed(r, c, v + [EndOf(k)]);
            if Decimal(v) <= MAX_NUMBER then
              d == Went(c, Stored(Read(r, c.p, n), k, Decimal(v)).(state := StatusLine(After(k))), c.trace, n)
            else RefusedWith(d, NumberErrno(k))
  {
    hide OnByte, Feed, Decimal;
    NumberReads(r, c, k, v);
    if Decimal(v) <= MAX_NUMBER {
      FeedSnoc(r, c, v, EndOf(k));
      PassingByte(r, Feed(r, c, v), EndOf(k), StatusLine(After(k)));
    } else {
      StaysRefused(r, c, v, [EndOf(k)], NumberErrno(k));
    }
  }

  // ----- the protocol's name

  /** The parser at the start of a response, when its first letter has been read. */
  function Begun(r: Rules, p: Parser, n: nat, s: StatusLineState): Parser {
    Read(r, p, n).(flags := NO_FLAGS, contentLength := ULLONG_MAX, state := StatusLine(s))
  }

  lemma FirstLetter(r: Rules, c: Cfg)
    requires c.stop == Running && c.p.state == Start(StartRes) && Room(r, c.p, 1)
    ensures OnByte(r, c, 'H') == Went(c, Begun(r, c.p, 1, ResH), Emit(c.trace, MessageBegin), 1)
  {
    HeaderByte(r, c, 'H');
    var q := Read(r, c.p, 1);
    assert Arm(q, 'H', 1) == Act(Begun(r, c.p, 1, ResH), None, 1, Notify(MessageBegin, Consume));
    hide Arm, Emit;
  }

  lemma NameReads(r: Rules, c: Cfg)
    requires c.stop == Running && c.p.state == Start(StartRes) && Room(r, c.p, 5)
    ensures Feed(r, c, HTTP_SLASH)
         == Went(c, Begun(r, c.p, 5, ResFirstHttpMajor), Emit(c.trace, MessageBegin), 5)
  {
    hide OnByte, Feed, Emit;
    FirstLetter(r, c);
    FeedByte(r, c, 'H');
    var c1 := Went(c, Begun(r, c.p, 1, ResH), Emit(c.trace, MessageBegin), 1);
    PassingByte(r, c1, 'T', StatusLine(ResHT));
    FeedSnoc(r, c, "H", 'T');
    var c2 := OnByte(r, c1, 'T');
    PassingByte(r, c2, 'T', StatusLine(ResHTT));
    FeedSnoc(r, c, "HT", 'T');
    var c3 := OnByte(r, c2, 'T');
    PassingByte(r, c3, 'P', StatusLine(ResHTTP));
    FeedSnoc(r, c, "HTT", 'P');
    PassingByte(r, OnByte(r, c3, 'P'), '/', StatusLine(ResFirstHttpMajor));
    FeedSnoc(r, c, "HTTP", '/');
    assert "H" + ['T'] == "HT" && "HT" + ['T'] == "HTT" && "HTT" + ['P'] == "HTTP" && "HTTP" + ['/'] == HTTP_SLASH;
  }

  // ----- the reason phrase

  predicate OneLine(s: string) {
    CR !in s && LF !in s
  }

  /** A delivery of the reason; nothing is delivered when there is none. */
  function WithReason(t: seq<Event>, s: string): seq<Event> {
    if s == "" then t else Emit(t, Data(KStatus, s))
  }

  lemma ReasonByte(r: Rules, c: Cfg, b: char)
    requires c.stop == Running && Room(r, c.p, 1) && !IsEol(b)
    requires c.p.state == StatusLine(ResStatusStart) || (c.p.state == StatusLine(ResStatus) && c.p.index == 0)
    ensures OnByte(r, c, b) ==
              Went(c, Read(r, c.p, 1).(state := StatusLine(ResStatus), index := 0),
                   Emit(c.trace, Data(KStatus, [b])), 1)
  {
    var q := Read(r, c.p, 1);
    var z := q.(state := StatusLine(ResStatus), index := 0);
    var a := if c.p.state == StatusLine(ResStatus) then Quietly(z) else Quietly(z).(mark := Some(KStatus));
    assert Arm(q, b, 1) == a;
    hide Arm, Emit;
    HeldByte(r, c, b, z, KStatus);
  }

  lemma {:induction false} ReasonReads(r: Rules, c: Cfg, s: string)
    requires c.stop == Running && c.p.state == StatusLine(ResStatusStart) && Room(r, c.p, |s|)
    requires OneLine(s) && s != ""
    ensures Feed(r, c, s) ==
              Went(c, Read(r, c.p, |s|).(state := StatusLine(ResStatus), index := 0),
                   Emit(c.trace, Data(KStatus, s)), |s|)
    decreases |s|
  {
    hide OnByte, Feed, Emit;
    var n := |s| - 1;
    var u, b := s[..n], s[n];
    assert s == u + [b] && b in s;
    if n == 0 {
      assert s == [b];
      ReasonByte(r, c, b);
      FeedByte(r, c, b);
    } else {
      assert forall e :: e in u ==> e in s;
      ReasonReads(r, c, u);
      FeedSnoc(r, c, u, b);
      ReasonByte(r, Feed(r, c, u), b);
      EmitEmit(c.trace, KStatus, u, [b]);
    }
  }

  /** Where the line may end: after the code, after its space, or in the reason. */
  predicate MayEnd(s: State) {
    s == StatusLine(ResStatusCode) || s == StatusLine(ResStatusStart) || s == StatusLine(ResStatus)
  }

  function Ended(c: Cfg): seq<Event> {
    if c.p.state == StatusLine(ResStatus) then Emit(c.trace, Data(KStatus, [])) else c.trace
  }

  lemma LineEnds(r: Rules, c: Cfg, eol: string)
    requires c.stop == Running && Room(r, c.p, |eol|) && MayEnd(c.p.state) && IsLineEnd(eol)
    ensures Feed(r, c, eol) == Went(c, Read(r, c.p, |eol|).(state := Header(HeaderFieldStart)), Ended(c), |eol|)
  {
    hide OnByte, Emit;
    if eol == "\n" {
      EolEnds(r, c, LF, Header(HeaderFieldStart));
      FeedByte(r, c, LF);
    } else {
      EolEnds(r, c, CR, StatusLine(ResLineAlmostDone));
      PassingByte(r, OnByte(r, c, CR), LF, Header(HeaderFieldStart));
      TwoBytes(r, c, CR, LF);
    }
  }

  lemma EolEnds(r: Rules, c: Cfg, b: char, t: State)
    requires c.stop == Running && Room(r, c.p, 1) && MayEnd(c.p.state)
    requires (b, t) == (CR, StatusLine(ResLineAlmostDone)) || (b, t) == (LF, Header(HeaderFieldStart))
    ensures OnByte(r, c, b) == Went(c, Read(r, c.p, 1).(state := t), Ended(c), 1)
  {
    var q := Read(r, c.p, 1);
    if c.p.state == StatusLine(ResStatus) {
      assert Arm(q, b, 1) == Delivering(q, t, KStatus);
      hide Arm, Emit;
      EndByte(r, c, b, q, t, KStatus);
    } else {
      assert Arm(q, b, 1) == Quietly(q.(state := t));
      hide Arm, Emit;
      QuietByte(r, c, b, q.(state := t));
    }
  }

  /** A reason that may be missing, with the space before it. */
  function ReasonText(reason: Option<string>): string {
    if reason.None? then "" else " " + reason.value
  }

  function ReasonOf(reason: Option<string>): string {
    if reason.None? then "" else reason.value
  }

  lemma ReasonLine(r: Rules, c: Cfg, reason: Option<string>, eol: string)
    requires c.stop == Running && c.p.state == StatusLine(ResStatusCode) && IsLineEnd(eol)
    requires Room(r, c.p, |ReasonText(reason) + eol|) && OneLine(ReasonOf(reason))
    ensures var d := Feed(r, c, ReasonText(reason) + eol);
            var n := |ReasonText(reason) + eol|;
            d == Went(c, Read(r, c.p, n).(state := Header(HeaderFieldStart), index := d.p.index),
                      WithReason(c.trace, ReasonOf(reason)), n)
  {
    hide OnByte, Feed, Emit;
    var s := ReasonOf(reason);
    if reason.None? {
      assert ReasonText(reason) + eol == eol;
      LineEnds(r, c, eol);
    } else {
      PassingByte(r, c, ' ', StatusLine(ResStatusStart));
      FeedOne(r, c, ' ', s + eol);
      assert ReasonText(reason) + eol == [' '] + (s + eol);
      var d := OnByte(r, c, ' ');
      FeedAppend(r, d, s, eol);
      if s == "" {
        NoBytes(r, d);
        LineEnds(r, d, eol);
      } else {
        ReasonReads(r, d, s);
        LineEnds(r, Feed(r, d, s), eol);
        EmitNothing(c.trace, KStatus, s);
      }
    }
  }

  // ----- the whole line

  /** gap is the space before the code that is more than one; the reason may be missing. */
  datatype Status = Status(major: string, minor: string, gap: string, code: string,
                           reason: Option<string>, eol: string)

  predicate StatusText(l: Status) {
    && NumberText(l.major) && NumberText(l.minor) && NumberText(l.code)
    && Spaces(l.gap) && OneLine(ReasonOf(l.reason)) && IsLineEnd(l.eol)
  }

  function Print(l: Status): string {
    HTTP_SLASH + (l.major + ".") + (l.minor + " ") + l.gap + l.code + (ReasonText(l.reason) + l.eol)
  }

  predicate NumbersOk(l: Status) {
    Decimal(l.major) <= MAX_NUMBER && Decimal(l.minor) <= MAX_NUMBER && Decimal(l.code) <= MAX_NUMBER
  }

  lemma {:induction false} GapReads(r: Rules, c: Cfg, gap: string)
    requires c.stop == Running && c.p.state == StatusLine(ResFirstStatusCode) && Room(r, c.p, |gap|)
    requires c.p == Read(r, c.p, 0) && Spaces(gap)
    ensures Feed(r, c, gap) == Went(c, Read(r, c.p, |gap|), c.trace, |gap|)
    decreases |gap|
  {
    hide OnByte;
    if gap != "" {
      var q := Read(r, c.p, 1);
      PassingByte(r, c, ' ', c.p.state);
      GapReads(r, Went(c, q, c.trace, 1), gap[1..]);
    }
  }

  /** The version and the gap before the code. */
  lemma VersionReads(r: Rules, c: Cfg, l: Status)
    requires c.stop == Running && c.p.state == Start(StartRes) && Room(r, c.p, |Print(l)|) && StatusText(l)
    ensures var s := HTTP_SLASH + (l.major + ".") + (l.minor + " ") + l.gap;
            var d := Feed(r, c, s);
            if Decimal(l.major) <= MAX_NUMBER && Decimal(l.minor) <= MAX_NUMBER then
              d == Went(c, Begun(r, c.p, |s|, ResFirstStatusCode).(
                             major := Decimal(l.major), minor := Decimal(l.minor)),
                        Emit(c.trace, MessageBegin), |s|)
            else RefusedWith(d, InvalidVersion)
  {
    hide OnByte, Feed, Emit, Decimal, NumberText, OneLine, WithReason;
    var s1 := HTTP_SLASH;
    var s2 := s1 + (l.major + ".");
    var s3 := s2 + (l.minor + " ");
    NameReads(r, c);
    FeedAppend(r, c, s1, l.major + ".");
    FieldReads(r, Feed(r, c, s1), Major, l.major);
    if Decimal(l.major) > MAX_NUMBER {
      StaysRefused(r, c, s2, l.minor + " ", InvalidVersion);
      StaysRefused(r, c, s3, l.gap, InvalidVersion);
    } else {
      FeedAppend(r, c, s2, l.minor + " ");
      FieldReads(r, Feed(r, c, s2), Minor, l.minor);
      if Decimal(l.minor) > MAX_NUMBER {
        StaysRefused(r, c, s3, l.gap, InvalidVersion);
      } else {
        FeedAppend(r, c, s3, l.gap);
        GapReads(r, Feed(r, c, s3), l.gap);
      }
    }
  }

  /** What is said of the first number that is too big. */
  function NumbersErrno(l: Status): Errno {
    if Decimal(l.major) <= MAX_NUMBER && Decimal(l.minor) <= MAX_NUMBER then InvalidStatus else InvalidVersion
  }

  /**
   A status line is accepted exactly when its three numbers are at most 999; they are stored as
   they are, and the reason is delivered if there is one.
   */
  lemma StatusReads(r: Rules, c: Cfg, l: Status)
    requires c.stop == Running && c.p.state == Start(StartRes) && Room(r, c.p, |Print(l)|) && StatusText(l)
    ensures var d := Feed(r, c, Print(l));
            if NumbersOk(l) then
              d == Went(c, Begun(r, c.p, |Print(l)|, ResH).(
                             major := Decimal(l.major), minor := Decimal(l.minor), statusCode := Decimal(l.code),
                             state := Header(HeaderFieldStart), index := d.p.index),
                        WithReason(Emit(c.trace, MessageBegin), ReasonOf(l.reason)), |Print(l)|)
            else RefusedWith(d, NumbersErrno(l))
  {
    hide OnByte, Feed, Emit, Decimal, OneLine, WithReason, ReasonText, ReasonOf;
    var s := HTTP_SLASH + (l.major + ".") + (l.minor + " ") + l.gap;
    var end := ReasonText(l.reason) + l.eol;
    VersionReads(r, c, l);
    if Feed(r, c, s).stop == Failed {
      StaysRefused(r, c, s, l.code, InvalidVersion);
      StaysRefused(r, c, s + l.code, end, InvalidVersion);
    } else {
      FeedAppend(r, c, s, l.code);
      NumberReads(r, Feed(r, c, s), Code, l.code);
      if Decimal(l.code) > MAX_NUMBER {
        StaysRefused(r, c, s + l.code, end, InvalidStatus);
      } else {
        FeedAppend(r, c, s + l.code, end);
        ReasonLine(r, Feed(r, c, s + l.code), l.reason, l.eol);
      }
    }
  }

  // ----- and nothing else is a status line

  predicate VersionPart(l: Status) {
    NumberText(l.major) && NumberText(l.minor) && Decimal(l.major) <= MAX_NUMBER && Decimal(l.minor) <= MAX_NUMBER
  }

  function ToCode(l: Status): string {
    HTTP_SLASH + (l.major + ".") + (l.minor + " ") + l.gap
  }

  /** What has been read of a status line when the parser is in s. */
  predicate StatusSoFar(w: string, p: Parser, l: Status) {
    match p.state
    case Start(StartRes) => w == ""
    case StatusLine(ResH) => w == "H"
    case StatusLine(ResHT) => w == "HT"
    case StatusLine(ResHTT) => w == "HTT"
    case StatusLine(ResHTTP) => w == "HTTP"
    case StatusLine(ResFirstHttpMajor) => w == HTTP_SLASH
    case StatusLine(ResHttpMajor) =>
      w == HTTP_SLASH + l.major && NumberText(l.major) && p.major == Decimal(l.major) <= MAX_NUMBER
    case StatusLine(ResFirstHttpMinor) =>
      w == HTTP_SLASH + (l.major + ".") && NumberText(l.major) && Decimal(l.major) <= MAX_NUMBER
    case StatusLine(ResHttpMinor) =>
      w == HTTP_SLASH + (l.major + ".") + l.minor && VersionPart(l) && p.minor == Decimal(l.minor)
    case StatusLine(ResFirstStatusCode) => w == ToCode(l) && VersionPart(l) && Spaces(l.gap)
    case StatusLine(ResStatusCode) =>
      && w == ToCode(l) + l.code && VersionPart(l) && Spaces(l.gap) && NumberText(l.code)
      && p.statusCode == Decimal(l.code) <= MAX_NUMBER && l.reason == None
    case StatusLine(s) =>
      && w == ToCode(l) + l.code + ReasonText(l.reason) && VersionPart(l) && Spaces(l.gap) && NumberText(l.code)
      && Decimal(l.code) <= MAX_NUMBER && l.reason.Some? && OneLine(l.reason.value)
      && (s == ResStatusStart || (s == ResStatus && p.index == 0))
    case _ => false
  }

  /** What is said of a status line that is refused. */
  predicate StatusError(e: Errno) {
    e == InvalidConstant || e == Strict || e == InvalidVersion || e == InvalidStatus
  }

  predicate StatusOrError(w: string, d: Cfg, l: Status) {
    if d.stop == Failed then StatusError(d.p.errno) else d.stop == Running && StatusSoFar(w, d.p, l)
  }

  /** In the protocol's name. */
  lemma NameStep(r: Rules, c: Cfg, w: string, l: Status, b: char)
    requires c.stop == Running && StatusSoFar(w, c.p, l) && Room(r, c.p, 1) && c.p == Read(r, c.p, 0) && !IsEol(b)
    requires NameErrno(c.p.state).Some? || c.p.state == Start(StartRes)
    ensures StatusOrError(w + [b], OnByte(r, c, b), l)
    ensures OnByte(r, c, b).stop == Running ==> OnByte(r, c, b).p.nread == Read(r, c.p, 1).nread
  {
    hide OnByte, VersionPart, ToCode, OneLine, ReasonText, Emit;
    if c.p.state == Start(StartRes) {
      if b == 'H' {
        FirstLetter(r, c);
      } else {
        NoFirstLetter(r, c, b);
      }
    } else if Passes(c.p.state, b, NextName(c.p.state)) {
      PassingByte(r, c, b, NextName(c.p.state));
    } else {
      NoPassing(r, c, b);
    }
  }

  lemma NoFirstLetter(r: Rules, c: Cfg, b: char)
    requires c.stop == Running && c.p.state == Start(StartRes) && Room(r, c.p, 1) && b != 'H' && !IsEol(b)
    ensures RefusedWith(OnByte(r, c, b), InvalidConstant)
  {
    HeaderByte(r, c, b);
  }

  /** In the version. */
  lemma VersionStep(r: Rules, c: Cfg, w: string, l: Status, b: char) returns (k: Status)
    requires c.stop == Running && StatusSoFar(w, c.p, l) && Room(r, c.p, 1) && c.p == Read(r, c.p, 0) && !IsEol(b)
    requires c.p.state == FirstDigitState(Major) || c.p.state == DigitState(Major)
          || c.p.state == FirstDigitState(Minor) || c.p.state == DigitState(Minor)
    ensures StatusOrError(w + [b], OnByte(r, c, b), k)
    ensures OnByte(r, c, b).stop == Running ==> OnByte(r, c, b).p.nread == Read(r, c.p, 1).nread
  {
    hide OnByte, Decimal, NumberText, OneLine, ReasonText;
    k := l;
    var n := if c.p.state == FirstDigitState(Major) || c.p.state == DigitState(Major) then Major else Minor;
    var v := if n == Major then l.major else l.minor;
    if c.p.state == FirstDigitState(n) {
      if IsNum(b) {
        FirstDigit(r, c, n, b);
        OneDigitIs(b);
        k := if n == Major then l.(major := [b]) else l.(minor := [b]);
      } else {
        NoFirstDigit(r, c, n, b);
      }
    } else if IsNum(b) {
      DigitGoesOn(r, c, n, v, b);
      k := if n == Major then l.(major := v + [b]) else l.(minor := v + [b]);
    } else if b == EndOf(n) {
      PassingByte(r, c, b, StatusLine(After(n)));
      k := if n == Minor then l.(gap := "") else l;
    } else {
      NoNumberEnd(r, c, n, b);
    }
  }

  /** From the code on. */
  lemma CodeStep(r: Rules, c: Cfg, w: string, l: Status, b: char) returns (k: Status)
    requires c.stop == Running && StatusSoFar(w, c.p, l) && Room(r, c.p, 1) && c.p == Read(r, c.p, 0) && !IsEol(b)
    requires c.p.state == FirstDigitState(Code) || c.p.state == DigitState(Code)
    ensures StatusOrError(w + [b], OnByte(r, c, b), k)
    ensures OnByte(r, c, b).stop == Running ==> OnByte(r, c, b).p.nread == Read(r, c.p, 1).nread
  {
    hide OnByte, Decimal, NumberText, OneLine;
    k := l;
    if IsNum(b) {
      if c.p.state == FirstDigitState(Code) {
        FirstDigit(r, c, Code, b);
        OneDigitIs(b);
        k := l.(code := [b], reason := None);
        assert w + [b] == ToCode(k) + k.code;
      } else {
        DigitGoesOn(r, c, Code, l.code, b);
        k := l.(code := l.code + [b]);
        assert w + [b] == ToCode(k) + k.code;
      }
    } else if b == ' ' {
      if c.p.state == FirstDigitState(Code) {
        PassingByte(r, c, b, c.p.state);
        k := l.(gap := l.gap + [b]);
        assert w + [b] == ToCode(k);
      } else {
        PassingByte(r, c, b, StatusLine(ResStatusStart));
        k := l.(reason := Some(""));
        assert w + [b] == ToCode(k) + k.code + ReasonText(k.reason);
        assert OneLine("") by { NoReason(); }
      }
    } else if c.p.state == FirstDigitState(Code) {
      NoFirstDigit(r, c, Code, b);
    } else {
      NoNumberEnd(r, c, Code, b);
    }
  }

  lemma NoReason()
    ensures OneLine("")
  {
  }

  lemma ReasonStep(r: Rules, c: Cfg, w: string, l: Status, b: char) returns (k: Status)
    requires c.stop == Running && StatusSoFar(w, c.p, l) && Room(r, c.p, 1) && c.p == Read(r, c.p, 0) && !IsEol(b)
    requires c.p.state == StatusLine(ResStatusStart) || c.p.state == StatusLine(ResStatus)
    ensures StatusOrError(w + [b], OnByte(r, c, b), k)
    ensures OnByte(r, c, b).stop == Running ==> OnByte(r, c, b).p.nread == Read(r, c.p, 1).nread
  {
    hide OnByte, Decimal, NumberText, Emit;
    k := l.(reason := Some(l.reason.value + [b]));
    assert w + [b] == ToCode(k) + k.code + ReasonText(k.reason);
    ReasonByte(r, c, b);
  }

  lemma {:induction false} StatusDecomposes(r: Rules, c: Cfg, w: string) returns (l: Status)
    requires c.stop == Running && c.p.state == Start(StartRes) && Room(r, c.p, |w|) && c.p == Read(r, c.p, 0)
    requires OneLine(w)
    ensures StatusOrError(w, Feed(r, c, w), l)
    ensures Feed(r, c, w).stop == Running ==> Feed(r, c, w).p.nread == Read(r, c.p, |w|).nread
    decreases |w|
  {
    hide OnByte, Feed, StatusSoFar;
    l := Status("", "", "", "", None, "");
    if w == "" {
      NoBytes(r, c);
      NoStatusYet(c.p, l);
    } else {
      var n := |w| - 1;
      var u, b := w[..n], w[n];
      assert w == u + [b] && b in w && forall e :: e in u ==> e in w;
      l := StatusDecomposes(r, c, u);
      FeedSnoc(r, c, u, b);
      var d := Feed(r, c, u);
      if d.stop == Failed {
        FeedStopped(r, d, [b]);
        FeedByte(r, d, b);
      } else {
        StatusStates(u, d.p, l);
        match d.p.state {
          case StatusLine(ResStatusStart) => l := ReasonStep(r, d, u, l, b);
          case StatusLine(ResStatus) => l := ReasonStep(r, d, u, l, b);
          case StatusLine(ResFirstStatusCode) => l := CodeStep(r, d, u, l, b);
          case StatusLine(ResStatusCode) => l := CodeStep(r, d, u, l, b);
          case _ =>
            if NameErrno(d.p.state).Some? || d.p.state == Start(StartRes) {
              NameStep(r, d, u, l, b);
            } else {
              l := VersionStep(r, d, u, l, b);
            }
        }
      }
    }
  }

  lemma NoStatusYet(p: Parser, l: Status)
    requires p.state == Start(StartRes)
    ensures StatusSoFar("", p, l)
  {
  }

  lemma StatusStates(w: string, p: Parser, l: Status)
    requires StatusSoFar(w, p, l)
    ensures p.state == Start(StartRes) || (p.state.StatusLine? && p.state != StatusLine(ResLineAlmostDone))
    ensures w == "" <==> p.state == Start(StartRes)
  {
  }

  /** The line is complete where it may end. */
  ghost predicate IsStatus(w: string) {
    exists l :: StatusText(l) && NumbersOk(l) && w + l.eol == Print(l)
  }

  /** Any other text in its place is refused; an empty line is skipped. */
  lemma StatusRecognised(r: Rules, c: Cfg, w: string, eol: string)
    requires c.stop == Running && c.p.state == Start(StartRes) && Room(r, c.p, |w| + |eol|)
    requires c.p == Read(r, c.p, 0) && OneLine(w) && w != "" && IsLineEnd(eol)
    ensures var d := Feed(r, c, w + eol);
            if IsStatus(w) then d.stop == Running && d.p.state == Header(HeaderFieldStart)
            else d.stop == Failed && StatusError(d.p.errno)
  {
    hide OnByte, Feed, StatusText, NumbersOk, Print, OneLine, Emit, WithReason;
    FeedAppend(r, c, w, eol);
    if IsStatus(w) {
      var l :| StatusText(l) && NumbersOk(l) && w + l.eol == Print(l);
      OtherLineEnd(l, w, eol);
      StatusReads(r, c, l.(eol := eol));
    } else {
      var l := StatusDecomposes(r, c, w);
      var d := Feed(r, c, w);
      if d.stop == Failed {
        FeedStopped(r, d, eol);
      } else {
        StatusUnfinished(r, d, w, l, eol[0]);
        FeedOne(r, d, eol[0], eol[1..]);
        assert eol == [eol[0]] + eol[1..];
        FeedStopped(r, OnByte(r, d, eol[0]), eol[1..]);
      }
    }
  }

  lemma OtherLineEnd(l: Status, w: string, eol: string)
    requires StatusText(l) && NumbersOk(l) && w + l.eol == Print(l) && IsLineEnd(eol)
    ensures var k := l.(eol := eol); StatusText(k) && NumbersOk(k) && Print(k) == w + eol
  {
    hide NumberText, Decimal, OneLine, ReasonText;
    var x := HTTP_SLASH + (l.major + ".") + (l.minor + " ") + l.gap + l.code;
    assert Print(l) == (x + ReasonText(l.reason)) + l.eol;
    assert |w| == |x + ReasonText(l.reason)| && w == Print(l)[..|w|] == x + ReasonText(l.reason);
  }

  /** Where a status line is not complete it may not end. */
  lemma StatusUnfinished(r: Rules, c: Cfg, w: string, l: Status, b: char)
    requires c.stop == Running && StatusSoFar(w, c.p, l) && !IsStatus(w) && w != "" && IsEol(b) && Room(r, c.p, 1)
    ensures OnByte(r, c, b).stop == Failed && StatusError(OnByte(r, c, b).p.errno)
  {
    hide OnByte, IsStatus;
    AtItsEnd(w, c.p, l);
    StatusStates(w, c.p, l);
    hide StatusSoFar;
    match c.p.state
    case StatusLine(ResFirstHttpMajor) => NoFirstDigit(r, c, Major, b);
    case StatusLine(ResHttpMajor) => NoNumberEnd(r, c, Major, b);
    case StatusLine(ResFirstHttpMinor) => NoFirstDigit(r, c, Minor, b);
    case StatusLine(ResHttpMinor) => NoNumberEnd(r, c, Minor, b);
    case StatusLine(ResFirstStatusCode) => NoFirstDigit(r, c, Code, b);
    case _ => NoPassing(r, c, b);
  }

  lemma AtItsEnd(w: string, p: Parser, l: Status)
    requires StatusSoFar(w, p, l)
    ensures MayEnd(p.state) ==> IsStatus(w)
  {
    hide Decimal, NumberText, OneLine;
    if MayEnd(p.state) {
      var k := l.(eol := "\n");
      assert OneLine(ReasonOf(k.reason)) by { NoReason(); }
      assert w == ToCode(l) + l.code + ReasonText(l.reason);
      assert w + k.eol == Print(k);
      assert StatusText(k) && NumbersOk(k);
    }
  }
}
