/**
 The numbers of the first lines: versions in requests and responses, and status codes. Each is
 read exactly, or refused.
 */
module Numbers {
  import opened Chars
  import opened Types
  import opened Arms
  import opened Execute
  import opened Reference
  import opened Steps
  import opened Lengths

  const HTTP_SLASH := "HTTP/"

  predicate Spaces(s: string) {
    forall i :: 0 <= i < |s| ==> s[i] == ' '
  }

  predicate NumberText(v: string) {
    v != "" && forall i :: 0 <= i < |v| ==> IsNum(v[i])
  }

  /** The numbers of a response's first line, and of a request's. */
  datatype Number = Major | Minor | Code | ReqMajor | ReqMinor

  function FirstDigitState(k: Number): State {
    match k
    case Major => StatusLine(ResFirstHttpMajor)
    case Minor => StatusLine(ResFirstHttpMinor)
    case Code => StatusLine(ResFirstStatusCode)
    case ReqMajor => Version(ReqFirstHttpMajor)
    case ReqMinor => Version(ReqFirstHttpMinor)
  }

  function DigitState(k: Number): State {
    match k
    case Major => StatusLine(ResHttpMajor)
    case Minor => StatusLine(ResHttpMinor)
    case Code => StatusLine(ResStatusCode)
    case ReqMajor => Version(ReqHttpMajor)
    case ReqMinor => Version(ReqHttpMinor)
  }

  function Value(p: Parser, k: Number): nat {
    match k
    case Major => p.major
    case Minor => p.minor
    case Code => p.statusCode
    case ReqMajor => p.major
    case ReqMinor => p.minor
  }

  function Stored(p: Parser, k: Number, n: nat): Parser {
    match k
    case Major => p.(major := n)
    case Minor => p.(minor := n)
    case Code => p.(statusCode := n)
    case ReqMajor => p.(major := n)
    case ReqMinor => p.(minor := n)
  }

  /** What is said of a number that is refused. */
  function NumberErrno(k: Number): Errno {
    if k == Code then InvalidStatus else InvalidVersion
  }

  const MAX_NUMBER := 999

  /** The major version of a request does not begin with 0. */
  predicate MayBegin(k: Number, b: char) {
    IsNum(b) && (k == ReqMajor ==> b != '0')
  }

  lemma FirstDigit(r: Rules, c: Cfg, k: Number, b: char)
    requires c.stop == Running && c.p.state == FirstDigitState(k) && Room(r, c.p, 1) && MayBegin(k, b)
    ensures OnByte(r, c, b) ==
              Went(c, Stored(Read(r, c.p, 1), k, DigitValue(b)).(state := DigitState(k)), c.trace, 1)
  {
    var q := Read(r, c.p, 1);
    var z := Stored(q, k, DigitValue(b)).(state := DigitState(k));
    assert Arm(q, b, 1) == Quietly(z);
    hide Arm;
    QuietByte(r, c, b, z);
  }

  /** A byte that a number may not begin with; before a status code a space is skipped. */
  lemma NoFirstDigit(r: Rules, c: Cfg, k: Number, b: char)
    requires c.stop == Running && c.p.state == FirstDigitState(k) && Room(r, c.p, 1)
    requires !MayBegin(k, b) && !(k == Code && b == ' ')
    ensures RefusedWith(OnByte(r, c, b), NumberErrno(k))
  {
    HeaderByte(r, c, b);
  }

  lemma NextDigit(r: Rules, c: Cfg, k: Number, b: char)
    requires c.stop == Running && c.p.state == DigitState(k) && Room(r, c.p, 1) && IsNum(b)
    requires Value(c.p, k) <= MAX_NUMBER
    ensures var n := Value(c.p, k) * 10 + DigitValue(b);
            var d := OnByte(r, c, b);
            if n <= MAX_NUMBER then d == Went(c, Stored(Read(r, c.p, 1), k, n), c.trace, 1)
            else RefusedWith(d, NumberErrno(k))
  {
    hide Arm;
    var q := Read(r, c.p, 1);
    var n := Value(c.p, k) * 10 + DigitValue(b);
    DigitArm(q, k, b);
    if n <= MAX_NUMBER {
      QuietByte(r, c, b, Stored(q, k, n));
    } else {
      HeaderByte(r, c, b);
    }
  }

  lemma DigitArm(p: Parser, k: Number, b: char)
    requires p.state == DigitState(k) && IsNum(b) && Value(p, k) <= MAX_NUMBER
    ensures var n := Value(p, k) * 10 + DigitValue(b);
            var a := Arm(p, b, 1);
            if n <= MAX_NUMBER then a == Quietly(Stored(p, k, n)) else a.next == Fail(NumberErrno(k))
  {
    assert AddDigit(Value(p, k), b) == Value(p, k) * 10 + DigitValue(b);
    hide AddDigit;
  }

  lemma DecimalSnoc(v: string, b: char)
    requires IsNum(b)
    ensures Decimal(v + [b]) == Decimal(v) * 10 + DigitValue(b)
  {
    assert (v + [b])[..|v|] == v;
  }

  /** A number is accepted exactly when it is at most 999, and what is stored is that number. */
  lemma {:induction false} NumberReads(r: Rules, c: Cfg, k: Number, v: string)
    requires c.stop == Running && c.p.state == FirstDigitState(k) && Room(r, c.p, |v|)
    requires NumberText(v) && MayBegin(k, v[0])
    ensures var d := Feed(r, c, v);
            if Decimal(v) <= MAX_NUMBER then
              d == Went(c, Stored(Read(r, c.p, |v|), k, Decimal(v)).(state := DigitState(k)), c.trace, |v|)
            else RefusedWith(d, NumberErrno(k))
    decreases |v|
  {
    hide OnByte, Feed, Decimal;
    var n := |v| - 1;
    var u, b := v[..n], v[n];
    assert v == u + [b];
    DecimalSnoc(u, b);
    if n == 0 {
      assert v == [b] && u == "";
      assert Decimal("") == 0 by { NoDigits(); }
      FirstDigit(r, c, k, b);
      FeedByte(r, c, b);
    } else {
      NumberReads(r, c, k, u);
      FeedSnoc(r, c, u, b);
      var d := Feed(r, c, u);
      if d.stop == Failed {
        FeedStopped(r, d, [b]);
        FeedByte(r, d, b);
      } else {
        NextDigit(r, d, k, b);
      }
    }
  }

  lemma NoDigits()
    ensures Decimal("") == 0
  {
  }

  lemma OneDigitIs(b: char)
    requires IsNum(b)
    ensures Decimal([b]) == DigitValue(b) <= MAX_NUMBER && NumberText([b])
  {
    assert [b][..0] == "";
  }

  /** One digit more, when what has been read of the number is v. */
  lemma DigitGoesOn(r: Rules, c: Cfg, k: Number, v: string, b: char)
    requires c.stop == Running && c.p.state == DigitState(k) && Room(r, c.p, 1) && IsNum(b)
    requires NumberText(v) && Value(c.p, k) == Decimal(v) <= MAX_NUMBER
    ensures NumberText(v + [b])
    ensures var d := OnByte(r, c, b);
            var n := Decimal(v + [b]);
            if n <= MAX_NUMBER then d == Went(c, Stored(Read(r, c.p, 1), k, n), c.trace, 1)
            else RefusedWith(d, NumberErrno(k))
  {
    hide OnByte, Decimal;
    DecimalSnoc(v, b);
    NextDigit(r, c, k, b);
  }

  /** Text that begins with what is refused is refused. */
  lemma StaysRefused(r: Rules, c: Cfg, a: string, b: string, e: Errno)
    requires RefusedWith(Feed(r, c, a), e)
    ensures RefusedWith(Feed(r, c, a + b), e)
  {
    hide Feed;
    FeedAppend(r, c, a, b);
    FeedStopped(r, Feed(r, c, a), b);
  }

  // ----- single bytes of a first line

  /** Between the numbers of a first line, and in the protocol's name. */
  predicate Passes(s: State, b: char, t: State) {
    match s
    case StatusLine(ResH) => b == 'T' && t == StatusLine(ResHT)
    case StatusLine(ResHT) => b == 'T' && t == StatusLine(ResHTT)
    case StatusLine(ResHTT) => b == 'P' && t == StatusLine(ResHTTP)
    case StatusLine(ResHTTP) => b == '/' && t == StatusLine(ResFirstHttpMajor)
    case StatusLine(ResHttpMajor) => b == '.' && t == StatusLine(ResFirstHttpMinor)
    case StatusLine(ResHttpMinor) => b == ' ' && t == StatusLine(ResFirstStatusCode)
    case StatusLine(ResFirstStatusCode) => b == ' ' && t == s
    case StatusLine(ResStatusCode) =>
      (b == ' ' && t == StatusLine(ResStatusStart)) || (b == CR && t == StatusLine(ResLineAlmostDone))
      || (b == LF && t == Header(HeaderFieldStart))
    case StatusLine(ResLineAlmostDone) => b == LF && t == Header(HeaderFieldStart)
    case Version(ReqHttpStart) => (b == ' ' && t == s) || (b == 'H' && t == Version(ReqHttpH))
    case Version(ReqHttpH) => b == 'T' && t == Version(ReqHttpHT)
    case Version(ReqHttpHT) => b == 'T' && t == Version(ReqHttpHTT)
    case Version(ReqHttpHTT) => b == 'P' && t == Version(ReqHttpHTTP)
    case Version(ReqHttpHTTP) => b == '/' && t == Version(ReqFirstHttpMajor)
    case Version(ReqHttpMajor) => b == '.' && t == Version(ReqFirstHttpMinor)
    case Version(ReqHttpMinor) =>
      (b == CR && t == Version(ReqLineAlmostDone)) || (b == LF && t == Header(HeaderFieldStart))
    case Version(ReqLineAlmostDone) => b == LF && t == Header(HeaderFieldStart)
    case _ => false
  }

  lemma PassingByte(r: Rules, c: Cfg, b: char, t: State)
    requires c.stop == Running && Passes(c.p.state, b, t) && Room(r, c.p, 1)
    ensures OnByte(r, c, b) == Went(c, Read(r, c.p, 1).(state := t), c.trace, 1)
  {
    hide AddDigit;
    var q := Read(r, c.p, 1);
    assert Arm(q, b, 1) == Quietly(q.(state := t));
    hide Arm;
    QuietByte(r, c, b, q.(state := t));
  }

  /** The states of Passes in which no number is being read. */
  function NameErrno(s: State): Option<Errno> {
    match s
    case StatusLine(ResH) => Some(Strict)
    case StatusLine(ResHT) => Some(Strict)
    case StatusLine(ResHTT) => Some(Strict)
    case StatusLine(ResHTTP) => Some(Strict)
    case StatusLine(ResLineAlmostDone) => Some(Strict)
    case Version(ReqHttpStart) => Some(InvalidConstant)
    case Version(ReqHttpH) => Some(Strict)
    case Version(ReqHttpHT) => Some(Strict)
    case Version(ReqHttpHTT) => Some(Strict)
    case Version(ReqHttpHTTP) => Some(Strict)
    case Version(ReqLineAlmostDone) => Some(LfExpected)
    case _ => None
  }

  /** A byte that does not pass there is refused. */
  lemma NoPassing(r: Rules, c: Cfg, b: char)
    requires c.stop == Running && Room(r, c.p, 1) && NameErrno(c.p.state).Some?
    requires forall t :: !Passes(c.p.state, b, t)
    ensures RefusedWith(OnByte(r, c, b), NameErrno(c.p.state).value)
  {
    HeaderByte(r, c, b);
    WouldPass(c.p.state, b);
  }

  lemma WouldPass(s: State, b: char)
    requires NameErrno(s).Some? && forall t :: !Passes(s, b, t)
    ensures match s
            case StatusLine(ResHTT) => b != 'P'
            case StatusLine(ResHTTP) => b != '/'
            case StatusLine(ResLineAlmostDone) => b != LF
            case StatusLine(_) => b != 'T'
            case Version(ReqHttpStart) => b != ' ' && b != 'H'
            case Version(ReqHttpHTT) => b != 'P'
            case Version(ReqHttpHTTP) => b != '/'
            case Version(ReqLineAlmostDone) => b != LF
            case _ => b != 'T'
  {
    if s == Version(ReqHttpStart) {
      assert !Passes(s, b, Version(ReqHttpH)) && !Passes(s, b, s);
    } else {
      assert !Passes(s, b, NextName(s));
    }
  }

  function NextName(s: State): State {
    match s
    case StatusLine(ResH) => StatusLine(ResHT)
    case StatusLine(ResHT) => StatusLine(ResHTT)
    case StatusLine(ResHTT) => StatusLine(ResHTTP)
    case StatusLine(ResHTTP) => StatusLine(ResFirstHttpMajor)
    case Version(ReqHttpH) => Version(ReqHttpHT)
    case Version(ReqHttpHT) => Version(ReqHttpHTT)
    case Version(ReqHttpHTT) => Version(ReqHttpHTTP)
    case Version(ReqHttpHTTP) => Version(ReqFirstHttpMajor)
    case _ => Header(HeaderFieldStart)
  }

  /** After a number, what neither goes on with it nor ends it is refused. */
  lemma NoNumberEnd(r: Rules, c: Cfg, k: Number, b: char)
    requires c.stop == Running && Room(r, c.p, 1) && c.p.state == DigitState(k) && !IsNum(b)
    requires forall t :: !Passes(c.p.state, b, t)
    ensures RefusedWith(OnByte(r, c, b), NumberErrno(k))
  {
    HeaderByte(r, c, b);
    assert !Passes(c.p.state, b, StatusLine(ResFirstHttpMinor));
    assert !Passes(c.p.state, b, StatusLine(ResFirstStatusCode));
    assert !Passes(c.p.state, b, StatusLine(ResStatusStart)) && !Passes(c.p.state, b, StatusLine(ResLineAlmostDone));
    assert !Passes(c.p.state, b, Header(HeaderFieldStart)) && !Passes(c.p.state, b, Version(ReqFirstHttpMinor));
    assert !Passes(c.p.state, b, Version(ReqLineAlmostDone));
  }
}
