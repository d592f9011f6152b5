/**
 What the matchers for header names and header values find: exactly the keywords, in any
 case, and for values with any number of spaces after them.
 */
module HeaderMatch {
  import opened Chars
  import opened Types
  import opened Arms
  import opened Invariant

  /** The matcher's state when the letters l of a name have been read, in lower case. */
  function Classify(l: string): HeaderState {
    if l == CONNECTION || l == PROXY_CONNECTION then HConnection
    else if l == CONTENT_LENGTH then HContentLength
    else if l == TRANSFER_ENCODING then HTransferEncoding
    else if l == UPGRADE then HUpgrade
    else if l <= CONNECTION && |l| > 3 then HMatchingConnection
    else if l <= PROXY_CONNECTION && |l| > 0 then HMatchingProxyConnection
    else if l <= CONTENT_LENGTH && |l| > 3 then HMatchingContentLength
    else if l <= TRANSFER_ENCODING && |l| > 0 then HMatchingTransferEncoding
    else if l <= UPGRADE && |l| > 0 then HMatchingUpgrade
    else if l <= CONNECTION && |l| == 1 then HC
    else if l <= CONNECTION && |l| == 2 then HCO
    else if l <= CONNECTION && |l| == 3 then HCON
    else HGeneral
  }

  predicate IsMatching(h: HeaderState) {
    h.HC? || h.HCO? || h.HCON? || h.HMatchingConnection? || h.HMatchingProxyConnection?
    || h.HMatchingContentLength? || h.HMatchingTransferEncoding? || h.HMatchingUpgrade?
  }

  /** The parser has read the letters l of a name. */
  predicate NameAt(p: Parser, l: string) {
    l != "" && p.headerState == Classify(l) && (IsMatching(p.headerState) ==> p.index == |l| - 1)
  }

  lemma PrefixSnoc(l: string, c: char, word: string)
    ensures l + [c] <= word <==> l <= word && |l| < |word| && word[|l|] == c
  {
    if l <= word && |l| < |word| && word[|l|] == c {
      assert word[..|l| + 1] == l + [c];
    }
  }

  /** Which words a beginning of one word can begin. */
  lemma FirstLetters(l: string)
    requires l != ""
    ensures l <= CONNECTION ==> l[0] == 'c' && (|l| > 3 ==> l[3] == 'n')
    ensures l <= CONTENT_LENGTH ==> l[0] == 'c' && (|l| > 3 ==> l[3] == 't')
    ensures l <= PROXY_CONNECTION ==> l[0] == 'p'
    ensures l <= TRANSFER_ENCODING ==> l[0] == 't'
    ensures l <= UPGRADE ==> l[0] == 'u'
    ensures |l| <= 3 ==> (l <= CONNECTION <==> l <= CONTENT_LENGTH)
  {
    assert CONNECTION[..3] == CONTENT_LENGTH[..3];
  }

  /** A word that is none of the keywords' beginnings stays none. */
  lemma GeneralStays(l: string, c: char)
    requires l != "" && Classify(l) in {HGeneral, HConnection, HContentLength, HTransferEncoding, HUpgrade}
    ensures Classify(l + [c]) == HGeneral
  {
    PrefixSnoc(l, c, CONNECTION);
    PrefixSnoc(l, c, PROXY_CONNECTION);
    PrefixSnoc(l, c, CONTENT_LENGTH);
    PrefixSnoc(l, c, TRANSFER_ENCODING);
    PrefixSnoc(l, c, UPGRADE);
    FirstLetters(l);
  }

  /** The word a matching state is matching, and what it turns to at the end of it. */
  function Target(h: HeaderState): Option<(string, HeaderState)> {
    match h
    case HMatchingConnection => Some((CONNECTION, HConnection))
    case HMatchingProxyConnection => Some((PROXY_CONNECTION, HConnection))
    case HMatchingContentLength => Some((CONTENT_LENGTH, HContentLength))
    case HMatchingTransferEncoding => Some((TRANSFER_ENCODING, HTransferEncoding))
    case HMatchingUpgrade => Some((UPGRADE, HUpgrade))
    case _ => None
  }

  function AfterLetter(h: HeaderState, k: nat, c: char): HeaderState
    requires Target(h).Some?
  {
    var (word, done) := Target(h).value;
    if k < |word| && word[k] == c then (if k + 1 == |word| then done else h) else HGeneral
  }

  lemma MatchingGoesOn(l: string, c: char)
    requires l != "" && Target(Classify(l)).Some?
    ensures Classify(l + [c]) == AfterLetter(Classify(l), |l|, c)
    ensures |l| < |Target(Classify(l)).value.0| <= 17
  {
    PrefixSnoc(l, c, CONNECTION);
    PrefixSnoc(l, c, PROXY_CONNECTION);
    PrefixSnoc(l, c, CONTENT_LENGTH);
    PrefixSnoc(l, c, TRANSFER_ENCODING);
    PrefixSnoc(l, c, UPGRADE);
    FirstLetters(l);
  }

  lemma ShortGoesOn(l: string, c: char)
    requires l != ""
    ensures Classify(l) in {HC, HCO, HCON} ==> |l| <= 3
    ensures Classify(l) == HC ==> Classify(l + [c]) == if c == 'o' then HCO else HGeneral
    ensures Classify(l) == HCO ==> Classify(l + [c]) == if c == 'n' then HCON else HGeneral
    ensures Classify(l) == HCON ==>
              Classify(l + [c]) ==
                if c == 'n' then HMatchingConnection
                else if c == 't' then HMatchingContentLength
                else HGeneral
  {
    PrefixSnoc(l, c, CONNECTION);
    PrefixSnoc(l, c, PROXY_CONNECTION);
    PrefixSnoc(l, c, CONTENT_LENGTH);
    PrefixSnoc(l, c, TRANSFER_ENCODING);
    PrefixSnoc(l, c, UPGRADE);
    FirstLetters(l);
  }

  /** One more letter against a word that l is a beginning of. */
  lemma MatchNextGoes(p: Parser, l: string, c: char, word: string, done: HeaderState)
    requires 1 < |word| <= 17 && 0 < |l| < |word| && p.index == |l| - 1
    ensures var q := MatchNext(p, c, word, done);
            && q.index == |l|
            && q.headerState == if word[|l|] != c then HGeneral
                                else if |l| + 1 == |word| then done else p.headerState
  {
  }

  lemma MatchStep(p: Parser, l: string, ch: char)
    requires NameAt(p, l) && IsToken(ch)
    ensures var m := MatchFieldByte(p, ch);
            m.Some? && NameAt(m.value, l + [Token(ch)])
  {
    hide Classify, Token;
    var c := Token(ch);
    var h := p.headerState;
    if Target(h).Some? {
      MatchingGoesOn(l, c);
      var (word, done) := Target(h).value;
      hide MatchNext;
      MatchNextGoes(p, l, c, word, done);
    } else if h in {HC, HCO, HCON} {
      ShortGoesOn(l, c);
    } else {
      assert h in {HGeneral, HConnection, HContentLength, HTransferEncoding, HUpgrade} by { Classes(l); }
      GeneralStays(l, c);
      TokenNoSpace(ch);
    }
  }

  lemma TokenNoSpace(ch: char)
    requires IsToken(ch)
    ensures ch != ' ' && ch != ':' && !IsEol(ch) && !IsSpaceOrTab(ch)
  {
  }

  lemma Classes(l: string)
    ensures Target(Classify(l)).Some? ||
            Classify(l) in {HC, HCO, HCON, HGeneral, HConnection, HContentLength, HTransferEncoding, HUpgrade}
  {
  }

  /** The first letter of a name. */
  lemma MatchStart(p: Parser, ch: char)
    requires IsToken(ch)
    ensures var a := FieldStartArm(p, ch);
            && a == Act(p.(state := Header(HeaderField), index := 0, headerState := a.p.headerState),
                        Some(KField), 1, Quiet(Consume))
            && NameAt(a.p, [Token(ch)])
  {
    TokenNoSpace(ch);
    OneLetter(Token(ch));
    hide Token, Classify;
  }

  lemma OneLetter(c: char)
    ensures Classify([c]) ==
              match c
              case 'c' => HC
              case 'p' => HMatchingProxyConnection
              case 't' => HMatchingTransferEncoding
              case 'u' => HMatchingUpgrade
              case _ => HGeneral
  {
    assert [] + [c] == [c];
    PrefixSnoc([], c, CONNECTION);
    PrefixSnoc([], c, PROXY_CONNECTION);
    PrefixSnoc([], c, TRANSFER_ENCODING);
    PrefixSnoc([], c, UPGRADE);
  }

  // ----- values

  function LowerAll(v: string): (l: string)
    ensures |l| == |v|
  {
    seq(|v|, i requires 0 <= i < |v| => Lower(v[i]))
  }

  predicate AllSpaces(v: string) {
    forall i :: 0 <= i < |v| ==> v[i] == ' '
  }

  /** v is the word, in any case, and then spaces. */
  predicate WordAndSpaces(v: string, word: string) {
    |v| >= |word| && LowerAll(v[..|word|]) == word && AllSpaces(v[|word|..])
  }

  /** The state of the matcher for one word when v has been read. */
  function ClassifyWord(v: string, word: string, mid: HeaderState, done: HeaderState): HeaderState {
    if |v| < |word| && LowerAll(v) <= word then mid
    else if WordAndSpaces(v, word) then done
    else HGeneral
  }

  /** The state of the value matcher when v has been read, for a header whose name left h. */
  function ClassifyValue(h: HeaderState, v: string): HeaderState {
    if h == HTransferEncoding then
      ClassifyWord(v, CHUNKED, HMatchingTransferEncodingChunked, HTransferEncodingChunked)
    else if h == HConnection then
      if ClassifyWord(v, KEEP_ALIVE, HMatchingConnectionKeepAlive, HConnectionKeepAlive) != HGeneral then
        ClassifyWord(v, KEEP_ALIVE, HMatchingConnectionKeepAlive, HConnectionKeepAlive)
      else ClassifyWord(v, CLOSE, HMatchingConnectionClose, HConnectionClose)
    else HGeneral
  }

  predicate IsMatchingValue(h: HeaderState) {
    h.HMatchingTransferEncodingChunked? || h.HMatchingConnectionKeepAlive? || h.HMatchingConnectionClose?
  }

  predicate ValueAt(p: Parser, h: HeaderState, v: string) {
    v != "" && p.headerState == ClassifyValue(h, v) && (IsMatchingValue(p.headerState) ==> p.index == |v| - 1)
  }

  lemma LowerSnoc(v: string, ch: char)
    ensures LowerAll(v + [ch]) == LowerAll(v) + [Lower(ch)]
  {
  }

  /** One byte more of a value, for one word. */
  lemma WordGoesOn(v: string, ch: char, word: string, mid: HeaderState, done: HeaderState)
    requires v != "" && |word| > 0 && mid != done && mid != HGeneral && done != HGeneral
    requires forall i :: 0 <= i < |word| ==> word[i] != ' '
    ensures var k := ClassifyWord(v, word, mid, done);
            ClassifyWord(v + [ch], word, mid, done) ==
              if k == mid then
                (if word[|v|] != Lower(ch) then HGeneral else if |v| + 1 == |word| then done else mid)
              else if k == done then (if ch == ' ' then done else HGeneral)
              else HGeneral
    ensures ClassifyWord(v, word, mid, done) == mid ==> |v| < |word|
  {
    LowerSnoc(v, ch);
    PrefixSnoc(LowerAll(v), Lower(ch), word);
    var n := |word|;
    if |v| < n {
      assert |v| + 1 == n ==> (v + [ch])[..n] == v + [ch];
    } else {
      assert (v + [ch])[..n] == v[..n];
      assert (v + [ch])[n..] == v[n..] + [ch];
      assert AllSpaces(v[n..] + [ch]) <==> AllSpaces(v[n..]) && ch == ' ' by { SpacesSnoc(v[n..], ch); }
    }
  }

  lemma SpacesSnoc(v: string, ch: char)
    ensures AllSpaces(v + [ch]) <==> AllSpaces(v) && ch == ' '
  {
    if AllSpaces(v + [ch]) {
      assert (v + [ch])[|v|] == ch;
      assert forall i :: 0 <= i < |v| ==> (v + [ch])[i] == v[i];
    }
  }

  lemma WordStarts(v: string, word: string, mid: HeaderState, done: HeaderState)
    requires v != "" && |word| > 0 && ClassifyWord(v, word, mid, done) != HGeneral
    ensures Lower(v[0]) == word[0]
  {
    if |v| >= |word| {
      assert v[..|word|][0] == v[0];
      assert LowerAll(v[..|word|])[0] == Lower(v[0]);
    } else {
      assert LowerAll(v)[0] == word[0];
    }
  }

  /** The keyword that a value state is matching, and what it turns to at the end of it. */
  function ValueTarget(h: HeaderState): Option<(string, HeaderState)> {
    match h
    case HMatchingTransferEncodingChunked => Some((CHUNKED, HTransferEncodingChunked))
    case HMatchingConnectionKeepAlive => Some((KEEP_ALIVE, HConnectionKeepAlive))
    case HMatchingConnectionClose => Some((CLOSE, HConnectionClose))
    case _ => None
  }

  predicate IsDone(h: HeaderState) {
    h.HTransferEncodingChunked? || h.HConnectionKeepAlive? || h.HConnectionClose?
  }

  function AfterByte(k: HeaderState, n: nat, ch: char): HeaderState {
    if ValueTarget(k).Some? then
      var (word, done) := ValueTarget(k).value;
      if n < |word| && word[n] == Lower(ch) then (if n + 1 == |word| then done else k) else HGeneral
    else if IsDone(k) && ch == ' ' then k
    else HGeneral
  }

  lemma ValueGoesOn(h: HeaderState, v: string, ch: char)
    requires v != ""
    ensures ClassifyValue(h, v + [ch]) == AfterByte(ClassifyValue(h, v), |v|, ch)
    ensures ValueTarget(ClassifyValue(h, v)).Some? ==> |v| < |ValueTarget(ClassifyValue(h, v)).value.0|
    ensures ValueTarget(ClassifyValue(h, v)).Some? || IsDone(ClassifyValue(h, v)) || ClassifyValue(h, v) == HGeneral
  {
    if h == HTransferEncoding {
      WordGoesOn(v, ch, CHUNKED, HMatchingTransferEncodingChunked, HTransferEncodingChunked);
    } else if h == HConnection {
      WordGoesOn(v, ch, KEEP_ALIVE, HMatchingConnectionKeepAlive, HConnectionKeepAlive);
      WordGoesOn(v, ch, CLOSE, HMatchingConnectionClose, HConnectionClose);
      OneWord(v);
      OneWord(v + [ch]);
    }
    hide WordAndSpaces, Lower, LowerAll;
  }

  /** What one byte makes of the matcher for a value. */
  lemma ValueStep(p: Parser, h: HeaderState, v: string, ch: char)
    requires ValueAt(p, h, v)
    ensures var m := MatchValueByte(p, ch);
            m.Some? && ValueAt(m.value, h, v + [ch])
  {
    hide ClassifyValue, Lower, MatchNext;
    ValueGoesOn(h, v, ch);
    if ValueTarget(p.headerState).Some? {
      var (word, done) := ValueTarget(p.headerState).value;
      MatchNextGoes(p, v, Lower(ch), word, done);
    }
  }

  /** A value cannot be on its way to both words of a connection header. */
  lemma OneWord(v: string)
    requires v != ""
    ensures ClassifyWord(v, KEEP_ALIVE, HMatchingConnectionKeepAlive, HConnectionKeepAlive) == HGeneral
         || ClassifyWord(v, CLOSE, HMatchingConnectionClose, HConnectionClose) == HGeneral
  {
    if ClassifyWord(v, KEEP_ALIVE, HMatchingConnectionKeepAlive, HConnectionKeepAlive) != HGeneral {
      WordStarts(v, KEEP_ALIVE, HMatchingConnectionKeepAlive, HConnectionKeepAlive);
      if ClassifyWord(v, CLOSE, HMatchingConnectionClose, HConnectionClose) != HGeneral {
        WordStarts(v, CLOSE, HMatchingConnectionClose, HConnectionClose);
      }
    }
  }

  /** The first byte of a value. */
  lemma ValueStart(p: Parser, ch: char)
    requires p.headerState != HContentLength
    ensures var a := ValueStartArm(p, ch);
            && a == Act(p.(state := Header(HeaderValue), index := 0, headerState := a.p.headerState,
                           flags := p.flags.(upgrade := p.flags.upgrade || p.headerState == HUpgrade)),
                        Some(KValue), 1, Quiet(Consume))
            && ValueAt(a.p, p.headerState, [ch])
  {
    hide ClassifyValue, Lower;
    OneByteValue(p.headerState, ch);
  }

  lemma OneByteValue(h: HeaderState, ch: char)
    ensures ClassifyValue(h, [ch]) ==
              if h == HTransferEncoding && Lower(ch) == 'c' then HMatchingTransferEncodingChunked
              else if h == HConnection && Lower(ch) == 'k' then HMatchingConnectionKeepAlive
              else if h == HConnection && Lower(ch) == 'c' then HMatchingConnectionClose
              else HGeneral
  {
    hide ClassifyWord, Lower;
    OneByteWord(ch, CHUNKED, HMatchingTransferEncodingChunked, HTransferEncodingChunked);
    OneByteWord(ch, KEEP_ALIVE, HMatchingConnectionKeepAlive, HConnectionKeepAlive);
    OneByteWord(ch, CLOSE, HMatchingConnectionClose, HConnectionClose);
  }

  lemma OneByteWord(ch: char, word: string, mid: HeaderState, done: HeaderState)
    requires |word| > 1
    ensures ClassifyWord([ch], word, mid, done) == if Lower(ch) == word[0] then mid else HGeneral
  {
    assert LowerAll([ch]) == [] + [Lower(ch)];
    PrefixSnoc([], Lower(ch), word);
  }

  // ----- what a header line means

  function ToLower(c: char): char {
    if 'A' <= c <= 'Z' then (c as int + 32) as char else c
  }

  predicate EqualsIgnoringCase(s: string, word: string) {
    |s| == |word| && forall i :: 0 <= i < |s| ==> ToLower(s[i]) == word[i]
  }

  function TrimRight(v: string): string {
    if v != "" && v[|v| - 1] == ' ' then TrimRight(v[..|v| - 1]) else v
  }

  predicate Keyword(word: string) {
    word != "" && forall i :: 0 <= i < |word| ==> 'a' <= word[i] <= 'z' || word[i] == '-'
  }

  /** LOWER finds a keyword in any case, and nothing else, as CR cannot stand in a value. */
  lemma LowerIsToLower(ch: char, k: char)
    requires ch != CR && ('a' <= k <= 'z' || k == '-')
    ensures Lower(ch) == k <==> ToLower(ch) == k
  {
  }

  lemma LowerEquals(v: string, word: string)
    requires Keyword(word) && CR !in v
    ensures LowerAll(v) == word <==> EqualsIgnoringCase(v, word)
  {
    if |v| == |word| {
      forall i | 0 <= i < |v| ensures Lower(v[i]) == word[i] <==> ToLower(v[i]) == word[i] {
        LowerIsToLower(v[i], word[i]);
      }
      hide Lower, ToLower;
      if EqualsIgnoringCase(v, word) {
        assert forall i :: 0 <= i < |v| ==> LowerAll(v)[i] == word[i];
      }
      if LowerAll(v) == word {
        assert forall i :: 0 <= i < |v| ==> LowerAll(v)[i] == Lower(v[i]) && LowerAll(v)[i] == word[i];
      }
    }
  }

  /** The trimmed value is what stands before the last spaces. */
  lemma {:induction false} TrimRightSpaces(v: string)
    ensures TrimRight(v) <= v && AllSpaces(v[|TrimRight(v)|..])
    ensures TrimRight(v) == "" || TrimRight(v)[|TrimRight(v)| - 1] != ' '
    decreases |v|
  {
    if v != "" && v[|v| - 1] == ' ' {
      var u := v[..|v| - 1];
      TrimRightSpaces(u);
      var n := |TrimRight(u)|;
      assert v[n..] == u[n..] + [' '];
      SpacesSnoc(u[n..], ' ');
    }
  }

  lemma SpaceTail(v: string, n: nat)
    requires n <= |v| && AllSpaces(v[n..])
    ensures forall i :: n <= i < |v| ==> v[i] == ' '
  {
    forall i | n <= i < |v| ensures v[i] == ' ' {
      assert v[n..][i - n] == v[i];
    }
  }

  /** The matcher's test on values is equality with the trimmed value. */
  lemma WordAndSpacesIsTrim(v: string, word: string)
    requires Keyword(word) && CR !in v
    ensures WordAndSpaces(v, word) <==> EqualsIgnoringCase(TrimRight(v), word)
  {
    var t := TrimRight(v);
    TrimRightSpaces(v);
    assert CR !in t by { assert forall c :: c in t ==> c in v; }
    LowerEquals(t, word);
    var n := |word|;
    if WordAndSpaces(v, word) {
      assert LowerAll(v[..n])[n - 1] == word[n - 1];
      SpaceTail(v, n);
      SpaceTail(v, |t|);
      assert v[..n] == t;
    }
    if EqualsIgnoringCase(t, word) {
      assert v[..n] == t;
    }
  }

  function Tokens(name: string): (l: string)
    ensures |l| == |name|
  {
    seq(|name|, i requires 0 <= i < |name| => Token(name[i]))
  }

  predicate TokenText(name: string) {
    name != "" && forall i :: 0 <= i < |name| ==> IsToken(name[i])
  }

  lemma TokensEqual(name: string, word: string)
    requires TokenText(name)
    ensures Tokens(name) == word <==> EqualsIgnoringCase(name, word)
  {
    forall i | 0 <= i < |name| ensures Token(name[i]) == ToLower(name[i]) {
      TokenIsLower(name[i]);
    }
    hide Token, ToLower;
    if EqualsIgnoringCase(name, word) {
      assert forall i :: 0 <= i < |name| ==> Tokens(name)[i] == word[i];
    }
    if Tokens(name) == word {
      assert forall i :: 0 <= i < |name| ==> Tokens(name)[i] == word[i];
    }
  }

  lemma TokenIsLower(ch: char)
    requires IsToken(ch)
    ensures Token(ch) == ToLower(ch)
  {
  }
}
