/**
 Header lines in the stream: what a well-formed line delivers, and what it does to the flags
 and to content_length, by a specification on names and values that knows no matchers.
 */
module Headers {
  import opened Chars
  import opened Types
  import opened Arms
  import opened Execute
  import opened Reference
  import opened Steps
  import opened RequestLine
  import opened HeaderMatch
  import opened Lengths

  /** A further line of a value: it begins with a space or tab. */
  datatype Fold = Fold(eol: string, text: string)

  /**
   `name: value`: lead is the white space before the value, which may run over lines, folds are
   further lines of the value, and eol is the end of the last line.
   */
  datatype HeaderLine = HeaderLine(name: string, lead: string, value: string, folds: seq<Fold>, eol: string)

  function PrintFolds(fs: seq<Fold>): string {
    if fs == [] then "" else fs[0].eol + fs[0].text + PrintFolds(fs[1..])
  }

  function Print(h: HeaderLine): string {
    h.name + ":" + h.lead + h.value + PrintFolds(h.folds) + h.eol
  }

  function FoldsText(fs: seq<Fold>): string {
    if fs == [] then "" else fs[0].text + FoldsText(fs[1..])
  }

  /** The value without its line ends. */
  function ValueOf(h: HeaderLine): string {
    h.value + FoldsText(h.folds)
  }

  /** Spaces and tabs, and line ends with a space or tab after them. */
  predicate LeadText(s: string) {
    forall i :: 0 <= i < |s| ==> LeadAt(s, i)
  }

  predicate LeadAt(s: string, i: nat)
    requires i < |s|
  {
    || IsSpaceOrTab(s[i])
    || (s[i] == LF && i + 1 < |s| && IsSpaceOrTab(s[i + 1]))
    || (s[i] == CR && i + 1 < |s| && s[i + 1] == LF)
  }

  predicate FoldOk(f: Fold) {
    IsLineEnd(f.eol) && f.text != "" && IsSpaceOrTab(f.text[0]) && CR !in f.text && LF !in f.text
  }

  predicate FoldsOk(fs: seq<Fold>) {
    forall f :: f in fs ==> FoldOk(f)
  }

  predicate WellFormed(h: HeaderLine) {
    && TokenText(h.name) && LeadText(h.lead)
    && CR !in h.value && LF !in h.value && FoldsOk(h.folds) && IsLineEnd(h.eol)
    && (if h.value == "" then h.folds == [] else !IsSpaceOrTab(h.value[0]))
  }

  predicate Named(h: HeaderLine, word: string) {
    EqualsIgnoringCase(h.name, word)
  }

  /** A folded value says none of the words. */
  predicate Says(h: HeaderLine, word: string) {
    h.folds == [] && EqualsIgnoringCase(TrimRight(h.value), word)
  }

  predicate IsConnection(h: HeaderLine) {
    Named(h, "connection") || Named(h, "proxy-connection")
  }

  /** The flags after one header more. */
  function Flagged(f: Flags, h: HeaderLine): Flags {
    f.(chunked := f.chunked || (Named(h, "transfer-encoding") && Says(h, "chunked")),
       keepAlive := f.keepAlive || (IsConnection(h) && Says(h, "keep-alive")),
       close := f.close || (IsConnection(h) && Says(h, "close")),
       upgrade := f.upgrade || (Named(h, "upgrade") && h.value != ""))
  }

  predicate GivesLength(h: HeaderLine) {
    Named(h, "content-length") && h.value != ""
  }

  /** A content-length is accepted if it is a number within the bound, on one line. */
  predicate LengthOk(h: HeaderLine) {
    GivesLength(h) ==> h.folds == [] && LengthText(h.value) && Decimal(h.value) <= MAX_LENGTH
  }

  function Length(n: nat, h: HeaderLine): nat {
    if GivesLength(h) then Decimal(h.value) else n
  }

  // ----- the name

  predicate AtField(r: Rules, c: Cfg, n: nat) {
    c.stop == Running && c.p.state == Header(HeaderFieldStart) && Room(r, c.p, n)
  }

  /** q is p but for the matcher. */
  predicate ButMatcher(q: Parser, p: Parser) {
    q == p.(headerState := q.headerState, index := q.index)
  }

  lemma NameByte(r: Rules, c: Cfg, l: string, b: char)
    requires c.stop == Running && c.p.state == Header(HeaderField) && Room(r, c.p, 1)
    requires IsToken(b) && NameAt(c.p, l)
    ensures var d := OnByte(r, c, b);
            && d == Went(c, d.p, Emit(c.trace, Data(KField, [b])), 1)
            && ButMatcher(d.p, Read(r, c.p, 1)) && NameAt(d.p, l + [Token(b)])
  {
    var q := Read(r, c.p, 1);
    MatchStep(q, l, b);
    MatchKeeps(q, b);
    HeldByte(r, c, b, MatchFieldByte(q, b).value, KField);
    hide OnByte, MatchFieldByte, Token, NameAt, Emit;
  }

  lemma MatchKeeps(p: Parser, b: char)
    ensures var m := MatchFieldByte(p, b); m.Some? ==> ButMatcher(m.value, p)
  {
    hide Token;
  }

  lemma MatchValueKeeps(p: Parser, b: char)
    ensures var m := MatchValueByte(p, b); m.Some? ==> ButMatcher(m.value, p)
  {
    hide Lower;
  }

  lemma TokensSnoc(name: string, b: char)
    ensures Tokens(name + [b]) == Tokens(name) + [Token(b)]
  {
    hide Token;
  }

  lemma {:induction false} NameReads(r: Rules, c: Cfg, name: string)
    requires TokenText(name) && AtField(r, c, |name|)
    ensures var d := Feed(r, c, name);
            && d == Went(c, d.p, Emit(c.trace, Data(KField, name)), |name|)
            && ButMatcher(d.p, Read(r, c.p, |name|).(state := Header(HeaderField)))
            && NameAt(d.p, Tokens(name))
    decreases |name|
  {
    hide OnByte, Feed, Token, Emit, Classify, Arm;
    var n := |name| - 1;
    var v, b := name[..n], name[n];
    assert name == v + [b];
    if n == 0 {
      assert name == [b] && Tokens(name) == [Token(b)];
      var q := Read(r, c.p, 1);
      MatchStart(q, b);
      FieldArmIs(q, b);
      HeldByte(r, c, b, FieldStartArm(q, b).p, KField);
      FeedByte(r, c, b);
    } else {
      NameReads(r, c, v);
      FeedSnoc(r, c, v, b);
      NameByte(r, Feed(r, c, v), Tokens(v), b);
      TokensSnoc(v, b);
      EmitEmit(c.trace, KField, v, [b]);
    }
  }

  lemma FieldArmIs(p: Parser, b: char)
    requires p.state == Header(HeaderFieldStart)
    ensures Arm(p, b, 1) == FieldStartArm(p, b)
  {
  }

  // ----- between name and value

  predicate BeforeValue(r: Rules, c: Cfg, n: nat) {
    c.stop == Running && c.p.state == Header(HeaderValueDiscardWs) && Room(r, c.p, n)
  }

  lemma ColonReads(r: Rules, c: Cfg)
    requires c.stop == Running && c.p.state == Header(HeaderField) && Room(r, c.p, 1)
    ensures OnByte(r, c, ':')
         == Went(c, Read(r, c.p, 1).(state := Header(HeaderValueDiscardWs)), Emit(c.trace, Data(KField, [])), 1)
  {
    var q := Read(r, c.p, 1);
    assert Arm(q, ':', 1) == Delivering(q, Header(HeaderValueDiscardWs), KField) by {
      hide MatchFieldByte;
    }
    EndByte(r, c, ':', q, Header(HeaderValueDiscardWs), KField);
    hide Arm, OnByte, Emit;
  }

  /** The white space before a value, which may run over lines. */
  lemma {:induction false} LeadReads(r: Rules, c: Cfg, lead: string)
    requires BeforeValue(r, c, |lead|) && c.p == Read(r, c.p, 0) && LeadText(lead)
    ensures Feed(r, c, lead) == Went(c, Read(r, c.p, |lead|), c.trace, |lead|)
    decreases |lead|
  {
    hide OnByte, Feed;
    if lead == "" {
      NoBytes(r, c);
    } else {
      assert LeadAt(lead, 0);
      var n := if lead[0] == CR then 3 else if lead[0] == LF then 2 else 1;
      assert lead[0] == CR ==> LeadAt(lead, 1);
      assert lead == lead[..n] + lead[n..];
      LeadTail(lead, n);
      FeedAppend(r, c, lead[..n], lead[n..]);
      if n == 1 {
        assert lead[..n] == [lead[0]];
        FeedByte(r, c, lead[0]);
        EmptyByte(r, c, HeaderValueDiscardWs, lead[0], HeaderValueDiscardWs);
      } else {
        var eol := lead[..n - 1];
        assert lead[..n] == eol + [lead[n - 1]] && (eol == "\n" || eol == "\r\n");
        EmptyEndReads(r, c, eol);
        FeedSnoc(r, c, eol, lead[n - 1]);
        EmptyByte(r, Feed(r, c, eol), HeaderValueDiscardLws, lead[n - 1], HeaderValueDiscardWs);
      }
      LeadReads(r, Feed(r, c, lead[..n]), lead[n..]);
    }
  }

  lemma LeadTail(s: string, n: nat)
    requires LeadText(s) && n <= |s|
    ensures LeadText(s[n..])
  {
    forall i | 0 <= i < |s| - n ensures LeadAt(s[n..], i) {
      assert LeadAt(s, n + i);
    }
  }

  // ----- a value

  /** The parser in a value, before the matcher's work. */
  function InValue(r: Rules, p: Parser, n: nat): Parser {
    Read(r, p, n).(state := Header(HeaderValue),
                   flags := p.flags.(upgrade := p.flags.upgrade || p.headerState == HUpgrade))
  }

  predicate ValueText(v: string) {
    v != "" && CR !in v && LF !in v && !IsSpaceOrTab(v[0])
  }

  lemma ValueStartByte(r: Rules, c: Cfg, b: char)
    requires BeforeValue(r, c, 1) && !IsSpaceOrTab(b) && !IsEol(b) && c.p.headerState != HContentLength
    ensures var d := OnByte(r, c, b);
            && d == Went(c, d.p, Emit(c.trace, Data(KValue, [b])), 1)
            && ButMatcher(d.p, InValue(r, c.p, 1)) && ValueAt(d.p, c.p.headerState, [b])
  {
    var q := Read(r, c.p, 1);
    ValueStart(q, b);
    assert Arm(q, b, 1) == ValueStartArm(q, b) by { hide ValueStartArm; }
    HeldByte(r, c, b, ValueStartArm(q, b).p, KValue);
    hide OnByte, ValueStartArm, Arm, Emit, ClassifyValue;
  }

  lemma ValueByte(r: Rules, c: Cfg, h: HeaderState, v: string, b: char)
    requires c.stop == Running && c.p.state == Header(HeaderValue) && Room(r, c.p, 1)
    requires !IsEol(b) && ValueAt(c.p, h, v)
    ensures var d := OnByte(r, c, b);
            && d == Went(c, d.p, Emit(c.trace, Data(KValue, [b])), 1)
            && ButMatcher(d.p, Read(r, c.p, 1)) && ValueAt(d.p, h, v + [b])
  {
    var q := Read(r, c.p, 1);
    ValueStep(q, h, v, b);
    MatchValueKeeps(q, b);
    NoLengthValue(h, v);
    assert Arm(q, b, 1) == Quietly(MatchValueByte(q, b).value) by { hide MatchValueByte; }
    HeldByte(r, c, b, MatchValueByte(q, b).value, KValue);
    hide OnByte, MatchValueByte, Arm, Emit, ClassifyValue;
  }

  lemma NoLengthValue(h: HeaderState, v: string)
    ensures ClassifyValue(h, v) != HContentLength
  {
    hide LowerAll, WordAndSpaces;
  }

  lemma {:induction false} ValueReads(r: Rules, c: Cfg, v: string)
    requires BeforeValue(r, c, |v|) && ValueText(v) && c.p.headerState != HContentLength
    ensures var d := Feed(r, c, v);
            && d == Went(c, d.p, Emit(c.trace, Data(KValue, v)), |v|)
            && ButMatcher(d.p, InValue(r, c.p, |v|)) && ValueAt(d.p, c.p.headerState, v)
    decreases |v|
  {
    hide OnByte, Feed, Emit, ClassifyValue;
    var n := |v| - 1;
    var u, b := v[..n], v[n];
    assert v == u + [b] && b in v;
    if n == 0 {
      assert v == [b];
      ValueStartByte(r, c, b);
      FeedByte(r, c, b);
    } else {
      assert forall e :: e in u ==> e in v;
      ValueReads(r, c, u);
      FeedSnoc(r, c, u, b);
      ValueByte(r, Feed(r, c, u), c.p.headerState, u, b);
      EmitEmit(c.trace, KValue, u, [b]);
    }
  }

  // ----- a content-length

  lemma LengthByte(r: Rules, c: Cfg, v: string, b: char)
    requires c.stop == Running && c.p.state == Header(HeaderValue) && Room(r, c.p, 1)
    requires !IsEol(b) && c.p.headerState == HContentLength
    requires v != "" && c.p.contentLength == Decimal(v) <= MAX_LENGTH
    ensures var d := OnByte(r, c, b);
            if (IsNum(b) || b == ' ') && Decimal(v + [b]) <= MAX_LENGTH then
              d == Went(c, Read(r, c.p, 1).(contentLength := Decimal(v + [b])), Emit(c.trace, Data(KValue, [b])), 1)
            else RefusedWith(d, InvalidContentLength)
  {
    var q := Read(r, c.p, 1);
    LengthStep(q, v, b);
    assert Arm(q, b, 1) == ContentLengthArm(q, b) by { hide ContentLengthArm, MatchValueByte; }
    hide Arm, ContentLengthArm, Emit;
    if (IsNum(b) || b == ' ') && Decimal(v + [b]) <= MAX_LENGTH {
      HeldByte(r, c, b, q.(contentLength := Decimal(v + [b])), KValue);
    } else {
      HeaderByte(r, c, b);
    }
  }

  lemma LengthStartByte(r: Rules, c: Cfg, b: char)
    requires BeforeValue(r, c, 1) && !IsSpaceOrTab(b) && !IsEol(b) && c.p.headerState == HContentLength
    ensures var d := OnByte(r, c, b);
            if IsNum(b) then
              d == Went(c, Read(r, c.p, 1).(state := Header(HeaderValue), index := 0, contentLength := DigitValue(b)),
                        Emit(c.trace, Data(KValue, [b])), 1)
            else RefusedWith(d, InvalidContentLength)
  {
    var q := Read(r, c.p, 1);
    assert Arm(q, b, 1) == ValueStartArm(q, b) by { hide ValueStartArm; }
    hide Arm, Emit;
    if IsNum(b) {
      HeldByte(r, c, b, q.(state := Header(HeaderValue), index := 0, contentLength := DigitValue(b)), KValue);
    } else {
      HeaderByte(r, c, b);
    }
  }

  lemma OneDigitText(b: char)
    ensures LengthText([b]) <==> IsNum(b)
  {
  }

  lemma LengthTextSnoc(u: string, b: char)
    requires u != ""
    ensures LengthText(u + [b]) <==> LengthText(u) && (IsNum(b) || b == ' ')
  {
    var v := u + [b];
    assert v[|u|] == b && forall i :: 0 <= i < |u| ==> u[i] == v[i];
  }

  lemma OneDigit(b: char)
    ensures Decimal([b]) == if IsNum(b) then DigitValue(b) else 0
  {
    assert [b][..0] == "";
  }

  /** Content-Length v leads from c to d: it is read as the number it is, or refused. */
  predicate LengthTaken(r: Rules, c: Cfg, v: string, d: Cfg) {
    if LengthText(v) && Decimal(v) <= MAX_LENGTH then
      d == Went(c, Read(r, c.p, |v|).(state := Header(HeaderValue), index := 0, contentLength := Decimal(v)),
                Emit(c.trace, Data(KValue, v)), |v|)
    else RefusedWith(d, InvalidContentLength)
  }

  lemma LengthFirst(r: Rules, c: Cfg, b: char)
    requires BeforeValue(r, c, 1) && !IsSpaceOrTab(b) && !IsEol(b) && c.p.headerState == HContentLength
    ensures LengthTaken(r, c, [b], Feed(r, c, [b]))
  {
    hide OnByte, Feed, Emit, Decimal, LengthText;
    LengthStartByte(r, c, b);
    FeedByte(r, c, b);
    OneDigit(b);
    OneDigitText(b);
  }

  lemma Fewer(r: Rules, c: Cfg, k: nat, n: nat)
    requires k <= n && BeforeValue(r, c, n)
    ensures BeforeValue(r, c, k)
  {
  }

  lemma LengthNext(r: Rules, c: Cfg, v: string, d: Cfg, b: char)
    requires BeforeValue(r, c, |v| + 1) && v != "" && !IsEol(b) && c.p.headerState == HContentLength
    requires LengthTaken(r, c, v, d)
    ensures LengthTaken(r, c, v + [b], OnByte(r, d, b))
  {
    hide OnByte, Emit, Decimal, IsNum, LengthText;
    DecimalGrows(v, b);
    LengthTextSnoc(v, b);
    if d.stop == Failed {
      FeedStopped(r, d, [b]);
      FeedByte(r, d, b);
    } else {
      LengthByte(r, d, v, b);
      EmitEmit(c.trace, KValue, v, [b]);
    }
  }

  /**
   A Content-Length is accepted exactly when it is a number in digits, with spaces among them
   allowed, of at most 18446744073709551609; and what is stored is that number, without wrap.
   */
  lemma {:induction false} LengthReads(r: Rules, c: Cfg, v: string)
    requires BeforeValue(r, c, |v|) && ValueText(v) && c.p.headerState == HContentLength
    ensures LengthTaken(r, c, v, Feed(r, c, v))
    decreases |v|
  {
    hide OnByte, Feed, LengthTaken, BeforeValue;
    var n := |v| - 1;
    var u, b := v[..n], v[n];
    assert v == u + [b] && b in v;
    if n == 0 {
      assert v == [b];
      LengthFirst(r, c, b);
    } else {
      assert forall e :: e in u ==> e in v;
      Fewer(r, c, n, |v|);
      LengthReads(r, c, u);
      FeedSnoc(r, c, u, b);
      LengthNext(r, c, u, Feed(r, c, u), b);
    }
  }

  // ----- what the matchers' states mean

  /** The matcher's state after a name says which of the five names it is. */
  lemma NamesMean(h: HeaderLine)
    requires TokenText(h.name)
    ensures var k := Classify(Tokens(h.name));
            && (k == HConnection <==> IsConnection(h))
            && (k == HContentLength <==> Named(h, CONTENT_LENGTH))
            && (k == HTransferEncoding <==> Named(h, TRANSFER_ENCODING))
            && (k == HUpgrade <==> Named(h, UPGRADE))
  {
    TokensEqual(h.name, CONNECTION);
    TokensEqual(h.name, PROXY_CONNECTION);
    TokensEqual(h.name, CONTENT_LENGTH);
    TokensEqual(h.name, TRANSFER_ENCODING);
    TokensEqual(h.name, UPGRADE);
    hide EqualsIgnoringCase, Tokens;
    KeywordsDiffer();
  }

  lemma KeywordsDiffer()
    ensures CONNECTION[0] == 'c' && CONTENT_LENGTH[0] == 'c' && PROXY_CONNECTION[0] == 'p'
    ensures TRANSFER_ENCODING[0] == 't' && UPGRADE[0] == 'u'
    ensures |CONNECTION| == 10 && |CONTENT_LENGTH| == 14
  {
  }

  lemma ValueDone(k: HeaderState, v: string)
    ensures ClassifyValue(k, v) == HTransferEncodingChunked <==> k == HTransferEncoding && WordAndSpaces(v, CHUNKED)
    ensures ClassifyValue(k, v) == HConnectionKeepAlive <==> k == HConnection && WordAndSpaces(v, KEEP_ALIVE)
    ensures ClassifyValue(k, v) == HConnectionClose <==> k == HConnection && WordAndSpaces(v, CLOSE)
  {
    if v != "" {
      OneWord(v);
    }
    hide LowerAll;
  }

  /** And after a value, whether it says one of the three words. */
  lemma ValuesMean(h: HeaderLine)
    requires TokenText(h.name) && CR !in h.value
    ensures var k := ClassifyValue(Classify(Tokens(h.name)), h.value);
            h.folds == [] ==>
              && (k == HTransferEncodingChunked <==> Named(h, "transfer-encoding") && Says(h, "chunked"))
              && (k == HConnectionKeepAlive <==> IsConnection(h) && Says(h, "keep-alive"))
              && (k == HConnectionClose <==> IsConnection(h) && Says(h, "close"))
  {
    hide Classify, ClassifyValue, WordAndSpaces, EqualsIgnoringCase, TrimRight, Tokens;
    NamesMean(h);
    WordAndSpacesIsTrim(h.value, CHUNKED);
    WordAndSpacesIsTrim(h.value, KEEP_ALIVE);
    WordAndSpacesIsTrim(h.value, CLOSE);
    ValueDone(Classify(Tokens(h.name)), h.value);
  }

  lemma NothingSaid(h: HeaderLine)
    requires h.value == ""
    ensures !Says(h, CHUNKED) && !Says(h, KEEP_ALIVE) && !Says(h, CLOSE)
  {
  }

  // ----- the end of a line

  lemma ValueEndReads(r: Rules, c: Cfg, eol: string)
    requires c.stop == Running && c.p.state == Header(HeaderValue) && Room(r, c.p, |eol|) && IsLineEnd(eol)
    ensures Feed(r, c, eol)
         == Went(c, Read(r, c.p, |eol|).(state := Header(HeaderValueLws)), Emit(c.trace, Data(KValue, [])), |eol|)
  {
    hide OnByte, Emit;
    if eol == "\n" {
      ValueLfReads(r, c);
      FeedByte(r, c, LF);
    } else {
      ValueCrReads(r, c);
      AlmostDoneReads(r, OnByte(r, c, CR));
      TwoBytes(r, c, CR, LF);
    }
  }

  lemma ValueCrReads(r: Rules, c: Cfg)
    requires c.stop == Running && c.p.state == Header(HeaderValue) && Room(r, c.p, 1)
    ensures OnByte(r, c, CR)
         == Went(c, Read(r, c.p, 1).(state := Header(HeaderAlmostDone)), Emit(c.trace, Data(KValue, [])), 1)
  {
    var q := Read(r, c.p, 1);
    assert Arm(q, CR, 1) == Delivering(q, Header(HeaderAlmostDone), KValue) by { hide MatchValueByte; }
    hide Arm, OnByte, Emit;
    EndByte(r, c, CR, q, Header(HeaderAlmostDone), KValue);
  }

  /** LF alone is looked at twice: it ends the value, and then the line. */
  lemma ValueLfReads(r: Rules, c: Cfg)
    requires c.stop == Running && c.p.state == Header(HeaderValue) && Room(r, c.p, 1)
    ensures OnByte(r, c, LF)
         == Went(c, Read(r, c.p, 1).(state := Header(HeaderValueLws)), Emit(c.trace, Data(KValue, [])), 1)
  {
    hide Arm, Emit;
    HeaderByte(r, c, LF);
    var q := Read(r, c.p, 1);
    var z := q.(state := Header(HeaderAlmostDone));
    ValueLfArm(q);
    AlmostDoneArm(z);
    var d := Cfg(z, Emit(c.trace, Data(KValue, [])), Running, c.taken);
    assert Redo(r, c.(p := q), LF) == Redo(r, d, LF);
  }

  lemma ValueLfArm(p: Parser)
    requires p.state == Header(HeaderValue)
    ensures Arm(p, LF, 1) == Act(p.(state := Header(HeaderAlmostDone)), None, 1, Flush(KValue, false, Repeat))
  {
    hide MatchValueByte;
  }

  lemma AlmostDoneReads(r: Rules, c: Cfg)
    requires c.stop == Running && c.p.state == Header(HeaderAlmostDone) && Room(r, c.p, 1)
    ensures OnByte(r, c, LF) == Went(c, Read(r, c.p, 1).(state := Header(HeaderValueLws)), c.trace, 1)
  {
    hide Arm, OnByte;
    var z := Read(r, c.p, 1);
    AlmostDoneArm(z);
    QuietByte(r, c, LF, z.(state := Header(HeaderValueLws)));
  }

  lemma AlmostDoneArm(p: Parser)
    requires p.state == Header(HeaderAlmostDone)
    ensures Arm(p, LF, 1) == Quietly(p.(state := Header(HeaderValueLws)))
  {
  }

  lemma EmptyEndReads(r: Rules, c: Cfg, eol: string)
    requires BeforeValue(r, c, |eol|) && IsLineEnd(eol)
    ensures Feed(r, c, eol) == Went(c, Read(r, c.p, |eol|).(state := Header(HeaderValueDiscardLws)), c.trace, |eol|)
  {
    hide OnByte;
    if eol == "\n" {
      EmptyByte(r, c, HeaderValueDiscardWs, LF, HeaderValueDiscardLws);
      FeedByte(r, c, LF);
    } else {
      EmptyByte(r, c, HeaderValueDiscardWs, CR, HeaderValueDiscardWsAlmostDone);
      EmptyByte(r, OnByte(r, c, CR), HeaderValueDiscardWsAlmostDone, LF, HeaderValueDiscardLws);
      TwoBytes(r, c, CR, LF);
    }
  }

  lemma EmptyByte(r: Rules, c: Cfg, s: HeaderLineState, b: char, t: HeaderLineState)
    requires c.stop == Running && c.p.state == Header(s) && Room(r, c.p, 1)
    requires (s, b, t) in {(HeaderValueDiscardWs, LF, HeaderValueDiscardLws),
                           (HeaderValueDiscardWs, CR, HeaderValueDiscardWsAlmostDone),
                           (HeaderValueDiscardWsAlmostDone, LF, HeaderValueDiscardLws)}
          || (IsSpaceOrTab(b) && (s == HeaderValueDiscardWs || s == HeaderValueDiscardLws) && t == HeaderValueDiscardWs)
    ensures OnByte(r, c, b) == Went(c, Read(r, c.p, 1).(state := Header(t)), c.trace, 1)
  {
    var q := Read(r, c.p, 1);
    assert Arm(q, b, 1) == Quietly(q.(state := Header(t))) by { hide ValueStartArm; }
    hide Arm;
    QuietByte(r, c, b, q.(state := Header(t)));
  }

  lemma LwsArm(p: Parser, b: char)
    requires !IsSpaceOrTab(b)
    ensures p.state == Header(HeaderValueLws) ==>
              Arm(p, b, 1) == Again(p.(flags := HeaderFlags(p)), Header(HeaderFieldStart))
    ensures p.state == Header(HeaderValueDiscardLws) ==>
              Arm(p, b, 1) == Act(p.(state := Header(HeaderFieldStart)), Some(KValue), 1, Flush(KValue, false, Repeat))
  {
  }

  /** The next line's first byte, if it does not fold, finds the header finished. */
  lemma LineSettles(r: Rules, c: Cfg, b: char)
    requires c.stop == Running && c.p.state == Header(HeaderValueLws) && Room(r, c.p, 1) && !IsSpaceOrTab(b)
    ensures OnByte(r, c, b)
         == OnByte(r, c.(p := c.p.(state := Header(HeaderFieldStart), flags := HeaderFlags(c.p))), b)
  {
    hide Arm, OnByte;
    HeaderByte(r, c, b);
    HeaderByte(r, c.(p := c.p.(state := Header(HeaderFieldStart), flags := HeaderFlags(c.p))), b);
    LwsArm(Read(r, c.p, 1), b);
  }

  lemma EmptySettles(r: Rules, c: Cfg, b: char)
    requires c.stop == Running && c.p.state == Header(HeaderValueDiscardLws) && Room(r, c.p, 1) && !IsSpaceOrTab(b)
    ensures OnByte(r, c, b)
         == OnByte(r, c.(p := c.p.(state := Header(HeaderFieldStart)), trace := Emit(c.trace, Data(KValue, []))), b)
  {
    hide Arm, OnByte, Emit;
    HeaderByte(r, c, b);
    HeaderByte(r, c.(p := c.p.(state := Header(HeaderFieldStart)), trace := Emit(c.trace, Data(KValue, []))), b);
    LwsArm(Read(r, c.p, 1), b);
  }

  // ----- further lines of a value

  /** A value is being read that a folded line leaves without meaning. */
  predicate MayFold(p: Parser) {
    p.headerState != HContentLength && p.headerState != HUpgrade
  }

  /** d is c in a value that says nothing, with text more delivered; n bytes have been read. */
  predicate Folded(r: Rules, c: Cfg, text: string, n: nat, d: Cfg) {
    && d == Went(c, d.p, Emit(c.trace, Data(KValue, text)), n)
    && ButMatcher(d.p, Read(r, c.p, n).(state := Header(HeaderValue))) && d.p.headerState == HGeneral
  }

  lemma FoldArms(p: Parser, b: char)
    requires p.state == Header(HeaderValueLws) && IsSpaceOrTab(b) && p.headerState != HUpgrade
    ensures Arm(p, b, 1) == Again(p, Header(HeaderValueStart))
    ensures var q := p.(state := Header(HeaderValueStart));
            var z := p.(state := Header(HeaderValue), headerState := HGeneral, index := 0);
            if p.headerState == HContentLength then Arm(q, b, 1).next == Fail(InvalidContentLength)
            else Arm(q, b, 1) == Quietly(z).(mark := Some(KValue))
  {
  }

  /** The space or tab that goes on with a value. A content-length may not go on. */
  lemma FoldByte(r: Rules, c: Cfg, b: char)
    requires c.stop == Running && c.p.state == Header(HeaderValueLws) && Room(r, c.p, 1) && IsSpaceOrTab(b)
    requires c.p.headerState != HUpgrade
    ensures if MayFold(c.p) then Folded(r, c, [b], 1, OnByte(r, c, b))
            else RefusedWith(OnByte(r, c, b), InvalidContentLength)
  {
    hide Arm, Emit;
    HeaderByte(r, c, b);
    var p := Read(r, c.p, 1);
    var q := p.(state := Header(HeaderValueStart));
    FoldArms(p, b);
    assert Redo(r, c.(p := p), b) == Redo(r, c.(p := q), b);
  }

  lemma GeneralByte(r: Rules, c: Cfg, b: char)
    requires c.stop == Running && c.p.state == Header(HeaderValue) && c.p.headerState == HGeneral && Room(r, c.p, 1)
    requires !IsEol(b)
    ensures OnByte(r, c, b) == Went(c, Read(r, c.p, 1), Emit(c.trace, Data(KValue, [b])), 1)
  {
    var q := Read(r, c.p, 1);
    assert Arm(q, b, 1) == Quietly(q);
    HeldByte(r, c, b, q, KValue);
    hide OnByte, Arm, Emit;
  }

  lemma {:induction false} FoldTextReads(r: Rules, c: Cfg, text: string)
    requires c.stop == Running && c.p.state == Header(HeaderValueLws) && Room(r, c.p, |text|) && MayFold(c.p)
    requires text != "" && IsSpaceOrTab(text[0]) && CR !in text && LF !in text
    ensures Folded(r, c, text, |text|, Feed(r, c, text))
    decreases |text|
  {
    hide OnByte, Feed, Emit;
    var n := |text| - 1;
    var u, b := text[..n], text[n];
    assert text == u + [b] && b in text;
    if n == 0 {
      assert text == [b];
      FoldByte(r, c, b);
      FeedByte(r, c, b);
    } else {
      assert forall e :: e in u ==> e in text;
      FoldTextReads(r, c, u);
      FeedSnoc(r, c, u, b);
      GeneralByte(r, Feed(r, c, u), b);
      EmitEmit(c.trace, KValue, u, [b]);
    }
  }

  lemma FoldReads(r: Rules, c: Cfg, f: Fold)
    requires c.stop == Running && c.p.state == Header(HeaderValue) && MayFold(c.p) && FoldOk(f)
    requires Room(r, c.p, |f.eol + f.text|)
    ensures Folded(r, c, f.text, |f.eol + f.text|, Feed(r, c, f.eol + f.text))
  {
    hide OnByte, Feed, Emit;
    FeedAppend(r, c, f.eol, f.text);
    ValueEndReads(r, c, f.eol);
    FoldTextReads(r, Feed(r, c, f.eol), f.text);
    EmitEmit(c.trace, KValue, [], f.text);
    assert [] + f.text == f.text;
  }

  /** The further lines of a value are delivered with it; what it says is lost. */
  lemma {:induction false} FoldsRead(r: Rules, c: Cfg, fs: seq<Fold>)
    requires c.stop == Running && c.p.state == Header(HeaderValue) && MayFold(c.p) && FoldsOk(fs) && fs != []
    requires Room(r, c.p, |PrintFolds(fs)|)
    ensures Folded(r, c, FoldsText(fs), |PrintFolds(fs)|, Feed(r, c, PrintFolds(fs)))
    decreases |fs|
  {
    hide OnByte, Feed, Emit, FoldOk;
    var f, rest := fs[0], fs[1..];
    assert f in fs && forall g :: g in rest ==> g in fs;
    FeedAppend(r, c, f.eol + f.text, PrintFolds(rest));
    FoldReads(r, c, f);
    var d := Feed(r, c, f.eol + f.text);
    if rest == [] {
      NoBytes(r, d);
      assert PrintFolds(fs) == f.eol + f.text && FoldsText(fs) == f.text;
    } else {
      FoldsRead(r, d, rest);
      EmitEmit(c.trace, KValue, f.text, FoldsText(rest));
    }
  }

  /** A content-length that goes on after its line is refused. */
  lemma LengthFolds(r: Rules, c: Cfg, fs: seq<Fold>)
    requires c.stop == Running && c.p.state == Header(HeaderValue) && c.p.headerState == HContentLength
    requires FoldsOk(fs) && fs != [] && Room(r, c.p, |PrintFolds(fs)|)
    ensures RefusedWith(Feed(r, c, PrintFolds(fs)), InvalidContentLength)
  {
    hide OnByte, Feed, Emit;
    var f := fs[0];
    assert f in fs;
    var rest := f.text[1..] + PrintFolds(fs[1..]);
    assert PrintFolds(fs) == f.eol + ([f.text[0]] + rest);
    FeedAppend(r, c, f.eol, [f.text[0]] + rest);
    ValueEndReads(r, c, f.eol);
    var d := Feed(r, c, f.eol);
    FoldByte(r, d, f.text[0]);
    FeedOne(r, d, f.text[0], rest);
    FeedStopped(r, OnByte(r, d, f.text[0]), rest);
  }

  // ----- a whole line

  /** The parser after a header line, when the next one has begun. */
  function AfterLine(r: Rules, p: Parser, h: HeaderLine): Parser {
    Read(r, p, |Print(h)|).(flags := Flagged(p.flags, h), contentLength := Length(p.contentLength, h))
  }

  function Delivered(t: seq<Event>, h: HeaderLine): seq<Event> {
    Emit(Emit(t, Data(KField, h.name)), Data(KValue, ValueOf(h)))
  }

  /** d is what the line h makes of c, once a byte that does not fold follows. */
  predicate LineDone(r: Rules, c: Cfg, h: HeaderLine, d: Cfg) {
    && d == Went(c, d.p, Delivered(c.trace, h), |Print(h)|)
    && ButMatcher(d.p, AfterLine(r, c.p, h))
  }

  /** Name, colon and lead. */
  lemma HeadReads(r: Rules, c: Cfg, h: HeaderLine) returns (d: Cfg)
    requires WellFormed(h) && AtField(r, c, |h.name| + 1 + |h.lead|)
    ensures d == Feed(r, c, h.name + ":" + h.lead)
    ensures var n := |h.name| + 1 + |h.lead|;
            && d == Went(c, d.p, Emit(c.trace, Data(KField, h.name)), n)
            && ButMatcher(d.p, Read(r, c.p, n).(state := Header(HeaderValueDiscardWs)))
            && d.p.headerState == Classify(Tokens(h.name))
  {
    hide OnByte, Feed, Emit, Classify, Token, Tokens;
    NameReads(r, c, h.name);
    var c1 := Feed(r, c, h.name);
    FeedSnoc(r, c, h.name, ':');
    ColonReads(r, c1);
    EmitNothing(c.trace, KField, h.name);
    var c2 := OnByte(r, c1, ':');
    FeedAppend(r, c, h.name + ":", h.lead);
    LeadReads(r, c2, h.lead);
    d := Feed(r, c2, h.lead);
  }

  /** What is left of a line to read, when its name has been read. */
  lemma LineSplits(h: HeaderLine)
    ensures Print(h) == (h.name + ":" + h.lead) + (h.value + PrintFolds(h.folds) + h.eol)
  {
  }

  predicate Finishes(r: Rules, c: Cfg, h: HeaderLine, b: char, d: Cfg) {
    LineDone(r, c, h, d) && OnByte(r, Feed(r, c, Print(h)), b) == OnByte(r, d, b)
  }

  lemma EmptyLine(r: Rules, c: Cfg, h: HeaderLine, b: char) returns (d: Cfg)
    requires WellFormed(h) && h.value == "" && AtField(r, c, |Print(h)| + 1) && !IsSpaceOrTab(b)
    ensures Finishes(r, c, h, b, d)
  {
    hide OnByte, Feed, Emit, Classify, EqualsIgnoringCase, Tokens;
    LineSplits(h);
    assert h.value + PrintFolds(h.folds) + h.eol == h.eol && ValueOf(h) == "";
    var c1 := HeadReads(r, c, h);
    FeedAppend(r, c, h.name + ":" + h.lead, h.eol);
    EmptyEndReads(r, c1, h.eol);
    var c2 := Feed(r, c1, h.eol);
    EmptySettles(r, c2, b);
    NothingSaid(h);
    d := c2.(p := c2.p.(state := Header(HeaderFieldStart)), trace := Emit(c2.trace, Data(KValue, [])));
  }

  /** What is made of a value on one line or more. */
  function Meaning(h: HeaderState, v: string, fs: seq<Fold>): HeaderState {
    if fs == [] then ClassifyValue(h, v) else HGeneral
  }

  lemma ValueMayFold(h: HeaderState, v: string)
    ensures ClassifyValue(h, v) != HContentLength && ClassifyValue(h, v) != HUpgrade
  {
    hide LowerAll, WordAndSpaces;
  }

  lemma ValueAndFolds(r: Rules, c: Cfg, v: string, fs: seq<Fold>)
    requires BeforeValue(r, c, |v + PrintFolds(fs)|) && ValueText(v) && FoldsOk(fs)
    requires c.p.headerState != HContentLength
    ensures var d := Feed(r, c, v + PrintFolds(fs));
            var n := |v + PrintFolds(fs)|;
            && d == Went(c, d.p, Emit(c.trace, Data(KValue, v + FoldsText(fs))), n)
            && ButMatcher(d.p, InValue(r, c.p, n)) && d.p.headerState == Meaning(c.p.headerState, v, fs)
  {
    hide OnByte, Feed, Emit, ClassifyValue, ValueText, FoldsOk;
    FeedAppend(r, c, v, PrintFolds(fs));
    ValueReads(r, c, v);
    var d := Feed(r, c, v);
    ValueMayFold(c.p.headerState, v);
    if fs == [] {
      NoBytes(r, d);
      assert v + PrintFolds(fs) == v && v + FoldsText(fs) == v;
    } else {
      FoldsRead(r, d, fs);
      EmitEmit(c.trace, KValue, v, FoldsText(fs));
    }
  }

  /** A value and the end of its last line, and the byte b of the next one, which settles the flags. */
  lemma ValueLine(r: Rules, c: Cfg, v: string, fs: seq<Fold>, eol: string, b: char) returns (d: Cfg)
    requires BeforeValue(r, c, |v + PrintFolds(fs) + eol| + 1) && ValueText(v) && FoldsOk(fs)
    requires c.p.headerState != HContentLength && IsLineEnd(eol) && !IsSpaceOrTab(b)
    ensures var n := |v + PrintFolds(fs) + eol|;
            var p := InValue(r, c.p, n).(headerState := Meaning(c.p.headerState, v, fs));
            && d == Went(c, d.p, Emit(c.trace, Data(KValue, v + FoldsText(fs))), n)
            && ButMatcher(d.p, p.(state := Header(HeaderFieldStart), flags := HeaderFlags(p)))
    ensures OnByte(r, Feed(r, c, v + PrintFolds(fs) + eol), b) == OnByte(r, d, b)
  {
    hide OnByte, Feed, Emit, ClassifyValue, ValueText, FoldsOk, PrintFolds, FoldsText, Meaning;
    ValueAndFolds(r, c, v, fs);
    var c2 := Feed(r, c, v + PrintFolds(fs));
    FeedAppend(r, c, v + PrintFolds(fs), eol);
    ValueEndReads(r, c2, eol);
    EmitNothing(c.trace, KValue, v + FoldsText(fs));
    var c3 := Feed(r, c2, eol);
    LineSettles(r, c3, b);
    d := c3.(p := c3.p.(state := Header(HeaderFieldStart), flags := HeaderFlags(c3.p)));
  }

  lemma GeneralLine(r: Rules, c: Cfg, h: HeaderLine, b: char) returns (d: Cfg)
    requires WellFormed(h) && h.value != "" && !Named(h, CONTENT_LENGTH)
    requires AtField(r, c, |Print(h)| + 1) && !IsSpaceOrTab(b)
    ensures Finishes(r, c, h, b, d)
  {
    hide OnByte, Feed, Emit, Classify, ClassifyValue, EqualsIgnoringCase, Tokens, TrimRight;
    LineSplits(h);
    NamesMean(h);
    ValuesMean(h);
    var c1 := HeadReads(r, c, h);
    FeedAppend(r, c, h.name + ":" + h.lead, h.value + PrintFolds(h.folds) + h.eol);
    d := ValueLine(r, c1, h.value, h.folds, h.eol, b);
  }

  /** The value of a content-length, with the end of its last line. */
  lemma LengthValueLine(r: Rules, c: Cfg, h: HeaderLine, b: char) returns (d: Cfg)
    requires WellFormed(h) && h.value != "" && c.p.headerState == HContentLength
    requires BeforeValue(r, c, |h.value + PrintFolds(h.folds) + h.eol| + 1) && !IsSpaceOrTab(b)
    ensures var s := h.value + PrintFolds(h.folds) + h.eol;
            if h.folds == [] && LengthText(h.value) && Decimal(h.value) <= MAX_LENGTH then
              && d == Went(c, d.p, Emit(c.trace, Data(KValue, h.value)), |s|)
              && ButMatcher(d.p, Read(r, c.p, |s|).(state := Header(HeaderFieldStart),
                                                   contentLength := Decimal(h.value)))
              && OnByte(r, Feed(r, c, s), b) == OnByte(r, d, b)
            else RefusedWith(Feed(r, c, s), InvalidContentLength)
  {
    hide OnByte, Feed, Emit, LengthText, Decimal, TokenText, LeadText, PrintFolds;
    LengthReads(r, c, h.value);
    var s := h.value + PrintFolds(h.folds);
    d := Feed(r, c, h.value);
    FeedAppend(r, c, s, h.eol);
    FeedAppend(r, c, h.value, PrintFolds(h.folds));
    if d.stop == Failed {
      FeedStopped(r, d, PrintFolds(h.folds));
      FeedStopped(r, d, h.eol);
    } else if h.folds != [] {
      LengthFolds(r, d, h.folds);
      FeedStopped(r, Feed(r, c, s), h.eol);
    } else {
      assert PrintFolds(h.folds) == "" by { NoFolds(); }
      NoBytes(r, d);
      ValueEndReads(r, d, h.eol);
      EmitNothing(c.trace, KValue, h.value);
      var e := Feed(r, d, h.eol);
      LineSettles(r, e, b);
      d := e.(p := e.p.(state := Header(HeaderFieldStart), flags := HeaderFlags(e.p)));
    }
  }

  lemma NoFolds()
    ensures PrintFolds([]) == "" && FoldsText([]) == ""
  {
  }

  lemma LengthLine(r: Rules, c: Cfg, h: HeaderLine, b: char) returns (d: Cfg)
    requires WellFormed(h) && GivesLength(h) && AtField(r, c, |Print(h)| + 1) && !IsSpaceOrTab(b)
    ensures if LengthOk(h) then Finishes(r, c, h, b, d)
            else RefusedWith(Feed(r, c, Print(h)), InvalidContentLength)
  {
    hide OnByte, Feed, Emit, Classify, EqualsIgnoringCase, Tokens, TrimRight, Decimal, PrintFolds, LengthText;
    LineSplits(h);
    NamesMean(h);
    ValuesMean(h);
    LengthIsPlain(Classify(Tokens(h.name)), h.value);
    var c1 := HeadReads(r, c, h);
    FeedAppend(r, c, h.name + ":" + h.lead, h.value + PrintFolds(h.folds) + h.eol);
    d := LengthValueLine(r, c1, h, b);
    if h.folds == [] {
      NoFolds();
      assert ValueOf(h) == h.value;
    }
  }

  lemma LengthIsPlain(k: HeaderState, v: string)
    ensures k == HContentLength ==> ClassifyValue(k, v) == HGeneral
  {
  }

  /**
   A header line, whatever its name: if it gives no bad Content-Length, it delivers its name and
   its value and does to the flags and to content_length what the specification says; otherwise
   it is refused. b is the byte after it, which must not fold the line.
   */
  lemma LineReads(r: Rules, c: Cfg, h: HeaderLine, b: char) returns (d: Cfg)
    requires WellFormed(h) && AtField(r, c, |Print(h)| + 1) && !IsSpaceOrTab(b)
    ensures if LengthOk(h) then Finishes(r, c, h, b, d)
            else RefusedWith(Feed(r, c, Print(h)), InvalidContentLength)
  {
    hide Finishes, AtField;
    if h.value == "" {
      d := EmptyLine(r, c, h, b);
    } else if Named(h, CONTENT_LENGTH) {
      d := LengthLine(r, c, h, b);
    } else {
      d := GeneralLine(r, c, h, b);
    }
  }

  // ----- a block of lines

  function PrintAll(hs: seq<HeaderLine>): string {
    if hs == [] then "" else Print(hs[0]) + PrintAll(hs[1..])
  }

  predicate AllWellFormed(hs: seq<HeaderLine>) {
    forall h :: h in hs ==> WellFormed(h)
  }

  predicate AllLengthsOk(hs: seq<HeaderLine>) {
    forall h :: h in hs ==> LengthOk(h)
  }

  function FlaggedAll(f: Flags, hs: seq<HeaderLine>): Flags
    decreases |hs|
  {
    if hs == [] then f else FlaggedAll(Flagged(f, hs[0]), hs[1..])
  }

  function LengthAll(n: nat, hs: seq<HeaderLine>): nat
    decreases |hs|
  {
    if hs == [] then n else LengthAll(Length(n, hs[0]), hs[1..])
  }

  function DeliveredAll(t: seq<Event>, hs: seq<HeaderLine>): seq<Event>
    decreases |hs|
  {
    if hs == [] then t else DeliveredAll(Delivered(t, hs[0]), hs[1..])
  }

  lemma FeedSame(r: Rules, c: Cfg, d: Cfg, s: string)
    requires s != "" && OnByte(r, c, s[0]) == OnByte(r, d, s[0])
    ensures Feed(r, c, s) == Feed(r, d, s)
  {
    hide OnByte;
  }

  function AfterBlock(r: Rules, p: Parser, hs: seq<HeaderLine>): Parser {
    Read(r, p, |PrintAll(hs)|).(flags := FlaggedAll(p.flags, hs), contentLength := LengthAll(p.contentLength, hs))
  }

  predicate BlockDone(r: Rules, c: Cfg, hs: seq<HeaderLine>, b: char, d: Cfg) {
    && d == Went(c, d.p, DeliveredAll(c.trace, hs), |PrintAll(hs)|)
    && ButMatcher(d.p, AfterBlock(r, c.p, hs))
    && OnByte(r, Feed(r, c, PrintAll(hs)), b) == OnByte(r, d, b)
  }

  lemma NoLines(r: Rules, c: Cfg, b: char)
    requires c.stop == Running && c.p == Read(r, c.p, 0)
    ensures BlockDone(r, c, [], b, c)
  {
    hide OnByte;
  }

  /** A block of header lines and the byte b after it, by the specification of the lines. */
  lemma {:induction false} BlockReads(r: Rules, c: Cfg, hs: seq<HeaderLine>, b: char) returns (d: Cfg)
    requires AllWellFormed(hs) && AtField(r, c, |PrintAll(hs)| + 1) && c.p == Read(r, c.p, 0)
    requires !IsSpaceOrTab(b)
    ensures if AllLengthsOk(hs) then BlockDone(r, c, hs, b, d)
            else RefusedWith(Feed(r, c, PrintAll(hs)), InvalidContentLength)
    decreases |hs|
  {
    hide OnByte, Feed, Emit, Flagged, Length, Delivered, LengthOk, WellFormed, Print;
    if hs == [] {
      NoLines(r, c, b);
      d := c;
    } else {
      var h, rest := hs[0], hs[1..];
      assert h in hs && forall g :: g in rest ==> g in hs;
      var next := PrintAll(rest) + [b];
      NextLine(rest, b);
      var e := LineReads(r, c, h, next[0]);
      FeedAppend(r, c, Print(h), PrintAll(rest));
      if !LengthOk(h) {
        FeedStopped(r, Feed(r, c, Print(h)), PrintAll(rest));
        d := c;
      } else {
        assert AllLengthsOk(hs) <==> AllLengthsOk(rest);
        d := BlockReads(r, e, rest, b);
        if rest != [] {
          assert next[0] == PrintAll(rest)[0];
          FeedSame(r, Feed(r, c, Print(h)), e, PrintAll(rest));
        } else {
          assert PrintAll(rest) == "" && next == [b];
          NoBytes(r, Feed(r, c, Print(h)));
          NoBytes(r, e);
        }
      }
    }
  }

  /** A next line does not begin with a space or tab. */
  lemma NextLine(rest: seq<HeaderLine>, b: char)
    requires AllWellFormed(rest) && !IsSpaceOrTab(b)
    ensures !IsSpaceOrTab((PrintAll(rest) + [b])[0])
    ensures rest != [] ==> PrintAll(rest) != ""
  {
    if rest != [] {
      assert rest[0] in rest;
      TokenNoSpace(rest[0].name[0]);
      assert Print(rest[0])[0] == rest[0].name[0];
    }
  }

  /**
   What the flags say when a header block has been read: each is set exactly when it was before
   or some line asks for it. Order, repetition and other headers do not matter.
   */
  lemma {:induction false} FlagsMean(f: Flags, hs: seq<HeaderLine>)
    ensures var g := FlaggedAll(f, hs);
            && (g.chunked <==> f.chunked || exists h :: h in hs && Named(h, "transfer-encoding") && Says(h, "chunked"))
            && (g.keepAlive <==> f.keepAlive || exists h :: h in hs && IsConnection(h) && Says(h, "keep-alive"))
            && (g.close <==> f.close || exists h :: h in hs && IsConnection(h) && Says(h, "close"))
            && (g.upgrade <==> f.upgrade || exists h :: h in hs && Named(h, "upgrade") && h.value != "")
            && g.trailing == f.trailing && g.skipBody == f.skipBody
    decreases |hs|
  {
    hide Named, Says, IsConnection;
    if hs != [] {
      FlagsMean(Flagged(f, hs[0]), hs[1..]);
      assert forall h :: h in hs <==> h == hs[0] || h in hs[1..];
    }
  }
}
