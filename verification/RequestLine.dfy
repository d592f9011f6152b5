/**
 The rest of the request line: the URL, which the stream parser accepts exactly when the URL
 automaton does, and the version.
 */
module RequestLine {
  import opened Chars
  import opened Types
  import opened UrlChar
  import opened Arms
  import opened Execute
  import opened Reference
  import opened Steps
  import opened Lengths
  import opened Numbers

  predicate UrlText(url: string) {
    url != "" && ' ' !in url && CR !in url && LF !in url
  }

  predicate AtUrl(r: Rules, c: Cfg, n: nat) {
    c.stop == Running && c.p.state == Url(ReqSpacesBeforeUrl) && Room(r, c.p, n)
  }

  /** The URL state of the stream before byte b, when the last one was s. */
  function FromState(p: Parser): UrlState
    requires p.state.Url?
  {
    if p.state.url == ReqSpacesBeforeUrl && p.meth == CONNECT then ReqServerStart else p.state.url
  }

  lemma UrlByteRead(r: Rules, c: Cfg, b: char)
    requires c.stop == Running && c.p.state.Url? && Room(r, c.p, 1) && b != ' ' && !IsEol(b)
    ensures var d := OnByte(r, c, b);
            var s := ParseUrlChar(FromState(c.p), b);
            if s.None? then RefusedWith(d, InvalidUrl)
            else d == Went(c, Read(r, c.p, 1).(state := Url(s.value)), Emit(c.trace, Data(KUrl, [b])), 1)
  {
    HeaderByte(r, c, b);
    hide ParseUrlChar, Emit;
  }

  lemma UrlRunSnoc(s: UrlState, v: string, b: char)
    ensures UrlRun(s, "") == Some(s)
    ensures var t := UrlRun(s, v); UrlRun(s, v + [b]) == if t.None? then None else ParseUrlChar(t.value, b)
  {
    hide ParseUrlChar;
    assert (v + [b])[..|v|] == v;
  }

  /** The URL bytes of a request line, in the stream and in the automaton. */
  lemma {:induction false} UrlReads(r: Rules, c: Cfg, url: string)
    requires UrlText(url) && AtUrl(r, c, |url|)
    ensures var d := Feed(r, c, url);
            var s := UrlRun(UrlStart(c.p.meth == CONNECT), url);
            if s.None? then RefusedWith(d, InvalidUrl)
            else
              && s.value != ReqSpacesBeforeUrl
              && d == Went(c, Read(r, c.p, |url|).(state := Url(s.value)), Emit(c.trace, Data(KUrl, url)), |url|)
    decreases |url|
  {
    hide OnByte, Feed, Emit, ParseUrlChar, UrlRun;
    var n := |url| - 1;
    var v, b := url[..n], url[n];
    assert url == v + [b] && b in url;
    UrlRunSnoc(UrlStart(c.p.meth == CONNECT), v, b);
    FeedSnoc(r, c, v, b);
    if n == 0 {
      assert v == "" && url == [b];
      NoBytes(r, c);
      UrlByteRead(r, c, b);
      UrlGoesOn(UrlStart(c.p.meth == CONNECT), b);
    } else {
      assert v[0] in url && forall e :: e in v ==> e in url;
      UrlReads(r, c, v);
      var d := Feed(r, c, v);
      if d.stop == Failed {
        FeedStopped(r, d, [b]);
        FeedByte(r, d, b);
      } else {
        UrlByteRead(r, d, b);
        EmitEmit(c.trace, KUrl, v, [b]);
        UrlGoesOn(d.p.state.url, b);
      }
    }
  }

  predicate EndsUrl(b: char) {
    b == ' ' || IsEol(b)
  }

  /** The parser after the byte that ends a URL; without a version it is HTTP/0.9. */
  function AfterUrl(p: Parser, b: char): Parser {
    if b == ' ' then p.(state := Version(ReqHttpStart))
    else
      p.(major := 0, minor := 9,
         state := if b == CR then Version(ReqLineAlmostDone) else Header(HeaderFieldStart))
  }

  lemma UrlEndRead(r: Rules, c: Cfg, b: char)
    requires c.stop == Running && c.p.state.Url? && c.p.state.url != ReqSpacesBeforeUrl
    requires Room(r, c.p, 1) && EndsUrl(b)
    ensures var d := OnByte(r, c, b);
            if UrlOpening(c.p.state.url) then RefusedWith(d, InvalidUrl)
            else d == Went(c, AfterUrl(Read(r, c.p, 1), b), Emit(c.trace, Data(KUrl, [])), 1)
  {
    HeaderByte(r, c, b);
    hide ParseUrlChar, Emit;
  }

  /**
   The stream and the URL automaton agree: a request line gets past its URL exactly when the
   automaton, started as http_parser_parse_url starts it, does not die on the URL and ends in a
   state where a URL may end; and then the joined on_url bytes are that URL. Otherwise it says
   HPE_INVALID_URL.
   */
  lemma UrlAgreement(r: Rules, c: Cfg, url: string, b: char)
    requires UrlText(url) && AtUrl(r, c, |url| + 1) && EndsUrl(b)
    ensures var d := Feed(r, c, url + [b]);
            var s := UrlRun(UrlStart(c.p.meth == CONNECT), url);
            if s.Some? && UrlClosable(s.value) then
              d == Went(c, AfterUrl(Read(r, c.p, |url| + 1), b), Emit(c.trace, Data(KUrl, url)), |url| + 1)
            else RefusedWith(d, InvalidUrl)
  {
    hide OnByte, Feed, Emit, ParseUrlChar, UrlRun;
    UrlReads(r, c, url);
    FeedSnoc(r, c, url, b);
    var d := Feed(r, c, url);
    if d.stop == Failed {
      FeedStopped(r, d, [b]);
      FeedByte(r, d, b);
    } else {
      UrlEndRead(r, d, b);
      EmitNothing(c.trace, KUrl, url);
    }
  }

  // ----- the version

  datatype HttpVersion = HttpVersion(major: string, minor: string)

  predicate MajorText(s: string) {
    NumberText(s) && s[0] != '0'
  }

  predicate VersionText(v: HttpVersion) {
    MajorText(v.major) && NumberText(v.minor)
  }

  predicate VersionOk(v: HttpVersion) {
    Decimal(v.major) <= MAX_NUMBER && Decimal(v.minor) <= MAX_NUMBER
  }

  function PrintVersion(v: HttpVersion): string {
    HTTP_SLASH + v.major + "." + v.minor
  }

  /** The state after k letters of the protocol's name. */
  function NameState(k: nat): State
    requires k <= 5
  {
    Version(if k == 0 then ReqHttpStart else if k == 1 then ReqHttpH else if k == 2 then ReqHttpHT
            else if k == 3 then ReqHttpHTT else if k == 4 then ReqHttpHTTP else ReqFirstHttpMajor)
  }

  lemma {:induction false} SpacesRead(r: Rules, c: Cfg, gap: string)
    requires c.stop == Running && Room(r, c.p, |gap|) && c.p == Read(r, c.p, 0) && Spaces(gap)
    requires c.p.state == Url(ReqSpacesBeforeUrl) || c.p.state == Version(ReqHttpStart)
    ensures Feed(r, c, gap) == Went(c, Read(r, c.p, |gap|), c.trace, |gap|)
    decreases |gap|
  {
    hide OnByte, Arm;
    if gap != "" {
      var q := Read(r, c.p, 1);
      SpaceArm(q);
      QuietByte(r, c, ' ', q);
      SpacesRead(r, Went(c, q, c.trace, 1), gap[1..]);
    }
  }

  lemma SpaceArm(p: Parser)
    requires p.state == Url(ReqSpacesBeforeUrl) || p.state == Version(ReqHttpStart)
    ensures Arm(p, ' ', 1) == Quietly(p)
  {
  }

  lemma {:induction false} NameReads(r: Rules, c: Cfg, k: nat)
    requires c.stop == Running && k <= 5 && Room(r, c.p, k) && c.p == Read(r, c.p, 0)
    requires c.p.state == Version(ReqHttpStart)
    ensures Feed(r, c, HTTP_SLASH[..k]) == Went(c, Read(r, c.p, k).(state := NameState(k)), c.trace, k)
  {
    hide OnByte, Feed;
    if k == 0 {
      NoBytes(r, c);
    } else {
      NameReads(r, c, k - 1);
      assert HTTP_SLASH[..k] == HTTP_SLASH[..k - 1] + [HTTP_SLASH[k - 1]];
      FeedSnoc(r, c, HTTP_SLASH[..k - 1], HTTP_SLASH[k - 1]);
      PassingByte(r, Feed(r, c, HTTP_SLASH[..k - 1]), HTTP_SLASH[k - 1], NameState(k));
    }
  }

  /** A line end in a state in which CR and LF both end the line. */
  lemma LineEndReads(r: Rules, c: Cfg, eol: string)
    requires c.stop == Running && c.p.state == Version(ReqHttpMinor) && Room(r, c.p, |eol|) && IsLineEnd(eol)
    ensures Feed(r, c, eol) == Went(c, Read(r, c.p, |eol|).(state := Header(HeaderFieldStart)), c.trace, |eol|)
  {
    hide OnByte;
    if eol == "\n" {
      PassingByte(r, c, LF, Header(HeaderFieldStart));
      FeedByte(r, c, LF);
    } else {
      PassingByte(r, c, CR, Version(ReqLineAlmostDone));
      PassingByte(r, OnByte(r, c, CR), LF, Header(HeaderFieldStart));
      TwoBytes(r, c, CR, LF);
    }
  }

  lemma MajorReads(r: Rules, c: Cfg, v: HttpVersion)
    requires c.stop == Running && c.p.state == Version(ReqFirstHttpMajor) && Room(r, c.p, |v.major| + 1)
    requires MajorText(v.major)
    ensures var n := |v.major| + 1;
            var d := Feed(r, c, v.major + ".");
            if Decimal(v.major) <= MAX_NUMBER then
              d == Went(c, Read(r, c.p, n).(major := Decimal(v.major), state := Version(ReqFirstHttpMinor)), c.trace, n)
            else RefusedWith(d, InvalidVersion)
  {
    hide OnByte, Feed, Decimal;
    NumberReads(r, c, ReqMajor, v.major);
    if Decimal(v.major) <= MAX_NUMBER {
      FeedSnoc(r, c, v.major, '.');
      PassingByte(r, Feed(r, c, v.major), '.', Version(ReqFirstHttpMinor));
    } else {
      StaysRefused(r, c, v.major, ".", InvalidVersion);
    }
  }

  /**
   The version that ends a request line is accepted if and only if both its numbers are at most
   999, and they are then stored as they are.
   */
  lemma VersionReads(r: Rules, c: Cfg, gap: string, v: HttpVersion, eol: string)
    requires c.stop == Running && c.p == Read(r, c.p, 0) && IsLineEnd(eol) && Spaces(gap) && VersionText(v)
    requires c.p.state == Version(ReqHttpStart) && Room(r, c.p, |gap + PrintVersion(v) + eol|)
    ensures var n := |gap + PrintVersion(v) + eol|;
            var d := Feed(r, c, gap + PrintVersion(v) + eol);
            if VersionOk(v) then
              d == Went(c, Read(r, c.p, n).(major := Decimal(v.major), minor := Decimal(v.minor),
                                            state := Header(HeaderFieldStart)), c.trace, n)
            else RefusedWith(d, InvalidVersion)
  {
    hide OnByte, Feed, Decimal;
    var s1 := gap + HTTP_SLASH;
    var s2 := s1 + (v.major + ".");
    var s3 := s2 + v.minor;
    assert gap + PrintVersion(v) == s3;
    SpacesRead(r, c, gap);
    var c0 := Feed(r, c, gap);
    assert HTTP_SLASH[..5] == HTTP_SLASH;
    NameReads(r, c0, 5);
    FeedAppend(r, c, gap, HTTP_SLASH);
    MajorReads(r, Feed(r, c, s1), v);
    FeedAppend(r, c, s1, v.major + ".");
    if Decimal(v.major) > MAX_NUMBER {
      StaysRefused(r, c, s2, v.minor, InvalidVersion);
      StaysRefused(r, c, s3, eol, InvalidVersion);
    } else {
      NumberReads(r, Feed(r, c, s2), ReqMinor, v.minor);
      FeedAppend(r, c, s2, v.minor);
      if Decimal(v.minor) > MAX_NUMBER {
        StaysRefused(r, c, s3, eol, InvalidVersion);
      } else {
        FeedAppend(r, c, s3, eol);
        LineEndReads(r, Feed(r, c, s3), eol);
      }
    }
  }

  // ----- and nothing else is a version

  /** What has been read of a version when the parser is in s. */
  predicate VersionSoFar(w: string, p: Parser, gap: string, v: HttpVersion) {
    Spaces(gap) &&
    match p.state
    case Version(ReqHttpStart) => w == gap
    case Version(ReqHttpH) => w == gap + "H"
    case Version(ReqHttpHT) => w == gap + "HT"
    case Version(ReqHttpHTT) => w == gap + "HTT"
    case Version(ReqHttpHTTP) => w == gap + "HTTP"
    case Version(ReqFirstHttpMajor) => w == gap + "HTTP/"
    case Version(ReqHttpMajor) =>
      w == gap + "HTTP/" + v.major && MajorText(v.major) && p.major == Decimal(v.major) <= MAX_NUMBER
    case Version(ReqFirstHttpMinor) =>
      w == gap + "HTTP/" + v.major + "." && MajorText(v.major) && Decimal(v.major) <= MAX_NUMBER
    case Version(ReqHttpMinor) =>
      w == gap + PrintVersion(v) && VersionText(v) && VersionOk(v) && p.minor == Decimal(v.minor)
    case _ => false
  }

  /** What is said of a version that is refused. */
  predicate VersionError(e: Errno) {
    e == InvalidConstant || e == Strict || e == InvalidVersion
  }

  predicate VersionOrError(w: string, d: Cfg, gap: string, v: HttpVersion) {
    if d.stop == Failed then VersionError(d.p.errno) else d.stop == Running && VersionSoFar(w, d.p, gap, v)
  }

  lemma NameStep(r: Rules, c: Cfg, w: string, gap: string, v: HttpVersion, b: char) returns (gap': string)
    requires c.stop == Running && VersionSoFar(w, c.p, gap, v) && Room(r, c.p, 1) && c.p == Read(r, c.p, 0)
    requires NameErrno(c.p.state).Some? && !IsEol(b)
    ensures VersionOrError(w + [b], OnByte(r, c, b), gap', v)
    ensures OnByte(r, c, b).stop == Running ==> OnByte(r, c, b).p.nread == Read(r, c.p, 1).nread
  {
    hide OnByte, MajorText, VersionText, VersionOk;
    gap' := gap;
    if Passes(c.p.state, b, c.p.state) {
      PassingByte(r, c, b, c.p.state);
      gap' := gap + [b];
    } else if Passes(c.p.state, b, if b == 'H' then Version(ReqHttpH) else NextName(c.p.state)) {
      var t := if b == 'H' then Version(ReqHttpH) else NextName(c.p.state);
      PassingByte(r, c, b, t);
    } else {
      NothingPasses(c.p.state, b);
      NoPassing(r, c, b);
    }
  }

  lemma NothingPasses(s: State, b: char)
    requires NameErrno(s).Some? && s.Version? && !IsEol(b)
    requires !Passes(s, b, s) && !Passes(s, b, if b == 'H' then Version(ReqHttpH) else NextName(s))
    ensures forall t :: !Passes(s, b, t)
  {
  }

  lemma MajorStep(r: Rules, c: Cfg, w: string, gap: string, v: HttpVersion, b: char) returns (v': HttpVersion)
    requires c.stop == Running && VersionSoFar(w, c.p, gap, v) && Room(r, c.p, 1) && c.p == Read(r, c.p, 0)
    requires (c.p.state == Version(ReqFirstHttpMajor) || c.p.state == Version(ReqHttpMajor)) && !IsEol(b)
    ensures VersionOrError(w + [b], OnByte(r, c, b), gap, v')
    ensures OnByte(r, c, b).stop == Running ==> OnByte(r, c, b).p.nread == Read(r, c.p, 1).nread
  {
    hide OnByte, Decimal;
    v' := v;
    if c.p.state == Version(ReqFirstHttpMajor) {
      if MayBegin(ReqMajor, b) {
        FirstDigit(r, c, ReqMajor, b);
        v' := v.(major := [b]);
        OneDigitIs(b);
      } else {
        NoFirstDigit(r, c, ReqMajor, b);
      }
    } else if IsNum(b) {
      DigitGoesOn(r, c, ReqMajor, v.major, b);
      v' := v.(major := v.major + [b]);
      assert w + [b] == gap + "HTTP/" + v'.major;
    } else if b == '.' {
      PassingByte(r, c, b, Version(ReqFirstHttpMinor));
    } else {
      NoNumberEnd(r, c, ReqMajor, b);
    }
  }

  lemma MinorStep(r: Rules, c: Cfg, w: string, gap: string, v: HttpVersion, b: char) returns (v': HttpVersion)
    requires c.stop == Running && VersionSoFar(w, c.p, gap, v) && Room(r, c.p, 1) && c.p == Read(r, c.p, 0)
    requires (c.p.state == Version(ReqFirstHttpMinor) || c.p.state == Version(ReqHttpMinor)) && !IsEol(b)
    ensures VersionOrError(w + [b], OnByte(r, c, b), gap, v')
    ensures OnByte(r, c, b).stop == Running ==> OnByte(r, c, b).p.nread == Read(r, c.p, 1).nread
  {
    hide OnByte, Decimal, MajorText;
    v' := v;
    if c.p.state == Version(ReqFirstHttpMinor) {
      if IsNum(b) {
        FirstDigit(r, c, ReqMinor, b);
        v' := v.(minor := [b]);
        OneDigitIs(b);
        assert w + [b] == gap + PrintVersion(v');
      } else {
        NoFirstDigit(r, c, ReqMinor, b);
      }
    } else if IsNum(b) {
      DigitGoesOn(r, c, ReqMinor, v.minor, b);
      v' := v.(minor := v.minor + [b]);
      assert w + [b] == gap + PrintVersion(v');
    } else {
      NoNumberEnd(r, c, ReqMinor, b);
    }
  }

  lemma {:induction false} VersionDecomposes(r: Rules, c: Cfg, w: string) returns (gap: string, v: HttpVersion)
    requires c.stop == Running && c.p.state == Version(ReqHttpStart) && Room(r, c.p, |w|) && c.p == Read(r, c.p, 0)
    requires CR !in w && LF !in w
    ensures VersionOrError(w, Feed(r, c, w), gap, v)
    ensures Feed(r, c, w).stop == Running ==> Feed(r, c, w).p.nread == Read(r, c.p, |w|).nread
    decreases |w|
  {
    hide OnByte, Feed, VersionSoFar;
    gap, v := "", HttpVersion("", "");
    if w == "" {
      NoBytes(r, c);
      NoVersionYet(c.p);
    } else {
      var n := |w| - 1;
      var u, b := w[..n], w[n];
      assert w == u + [b] && b in w && forall e :: e in u ==> e in w;
      gap, v := VersionDecomposes(r, c, u);
      FeedSnoc(r, c, u, b);
      var d := Feed(r, c, u);
      if d.stop == Failed {
        FeedStopped(r, d, [b]);
        FeedByte(r, d, b);
      } else {
        VersionStates(u, d.p, gap, v);
        match d.p.state {
          case Version(ReqFirstHttpMajor) => v := MajorStep(r, d, u, gap, v, b);
          case Version(ReqHttpMajor) => v := MajorStep(r, d, u, gap, v, b);
          case Version(ReqFirstHttpMinor) => v := MinorStep(r, d, u, gap, v, b);
          case Version(ReqHttpMinor) => v := MinorStep(r, d, u, gap, v, b);
          case _ => gap := NameStep(r, d, u, gap, v, b);
        }
      }
    }
  }

  lemma NoVersionYet(p: Parser)
    requires p.state == Version(ReqHttpStart)
    ensures VersionSoFar("", p, "", HttpVersion("", ""))
  {
  }

  lemma VersionStates(w: string, p: Parser, gap: string, v: HttpVersion)
    requires VersionSoFar(w, p, gap, v)
    ensures p.state.Version? && p.state != Version(ReqLineAlmostDone)
    ensures NameErrno(p.state).Some? || p.state == Version(ReqFirstHttpMajor) || p.state == Version(ReqHttpMajor)
         || p.state == Version(ReqFirstHttpMinor) || p.state == Version(ReqHttpMinor)
  {
  }

  /** The version is complete where the line may end. */
  ghost predicate IsVersion(w: string) {
    exists gap, v :: Spaces(gap) && VersionText(v) && VersionOk(v) && w == gap + PrintVersion(v)
  }

  /** Any other text in the place of the version is refused. */
  lemma VersionRecognised(r: Rules, c: Cfg, w: string, eol: string)
    requires c.stop == Running && c.p.state == Version(ReqHttpStart) && Room(r, c.p, |w| + |eol|)
    requires c.p == Read(r, c.p, 0) && CR !in w && LF !in w && IsLineEnd(eol)
    ensures var d := Feed(r, c, w + eol);
            if IsVersion(w) then d.stop == Running && d.p.state == Header(HeaderFieldStart)
            else d.stop == Failed && VersionError(d.p.errno)
  {
    hide OnByte, Feed, VersionText, VersionOk, PrintVersion;
    FeedAppend(r, c, w, eol);
    if IsVersion(w) {
      var gap, v :| Spaces(gap) && VersionText(v) && VersionOk(v) && w == gap + PrintVersion(v);
      VersionReads(r, c, gap, v, eol);
    } else {
      var gap, v := VersionDecomposes(r, c, w);
      var d := Feed(r, c, w);
      if d.stop == Failed {
        FeedStopped(r, d, eol);
      } else {
        VersionUnfinished(r, d, w, gap, v, eol[0]);
        FeedOne(r, d, eol[0], eol[1..]);
        assert eol == [eol[0]] + eol[1..];
        FeedStopped(r, OnByte(r, d, eol[0]), eol[1..]);
      }
    }
  }

  lemma AtItsEnd(w: string, p: Parser, gap: string, v: HttpVersion)
    requires VersionSoFar(w, p, gap, v)
    ensures p.state == Version(ReqHttpMinor) ==> IsVersion(w)
    ensures p.state == Version(ReqFirstHttpMajor) || p.state == Version(ReqHttpMajor)
         || p.state == Version(ReqFirstHttpMinor) || p.state == Version(ReqHttpMinor) || NameErrno(p.state).Some?
  {
    hide Decimal, MajorText, NumberText;
  }

  /** Where a version is not complete the line may not end. */
  lemma VersionUnfinished(r: Rules, c: Cfg, w: string, gap: string, v: HttpVersion, b: char)
    requires c.stop == Running && VersionSoFar(w, c.p, gap, v) && !IsVersion(w) && IsEol(b) && Room(r, c.p, 1)
    ensures OnByte(r, c, b).stop == Failed && VersionError(OnByte(r, c, b).p.errno)
  {
    hide OnByte, Decimal, MajorText, NumberText, IsVersion;
    AtItsEnd(w, c.p, gap, v);
    hide VersionSoFar;
    match c.p.state
    case Version(ReqFirstHttpMajor) => NoFirstDigit(r, c, ReqMajor, b);
    case Version(ReqHttpMajor) => NoNumberEnd(r, c, ReqMajor, b);
    case Version(ReqFirstHttpMinor) => NoFirstDigit(r, c, ReqMinor, b);
    case _ => NoPassing(r, c, b);
  }
}
