/**
 Where a header line is none: names with bytes that no token contains, and lines without a colon.
 */
module HeaderNames {
  import opened Chars
  import opened Types
  import opened Arms
  import opened Execute
  import opened Reference
  import opened Steps
  import opened HeaderMatch
  import opened Headers
  import CharSets

  /** How many token bytes w begins with. */
  function TokenBytes(w: string): (n: nat)
    ensures n <= |w| && (forall i :: 0 <= i < n ==> IsToken(w[i])) && (n < |w| ==> !IsToken(w[n]))
  {
    if w == "" || !IsToken(w[0]) then 0 else 1 + TokenBytes(w[1..])
  }

  lemma BadByte(r: Rules, c: Cfg, b: char)
    requires c.stop == Running && Room(r, c.p, 1) && !IsToken(b) && !IsEol(b)
    requires c.p.state == Header(HeaderFieldStart) || (c.p.state == Header(HeaderField) && b != ':')
    ensures RefusedWith(OnByte(r, c, b), InvalidHeaderToken)
  {
    HeaderByte(r, c, b);
    hide MatchFieldByte;
  }

  /**
   A name up to a colon is accepted if and only if it is a token: not empty, visible bytes without
   the separators.
   */
  lemma NameRecognised(r: Rules, c: Cfg, w: string)
    requires AtField(r, c, |w| + 1) && ':' !in w && CR !in w && LF !in w
    ensures var d := Feed(r, c, w + ":");
            if w != "" && forall i :: 0 <= i < |w| ==> CharSets.TokenByte(w[i]) then
              && d == Went(c, d.p, Emit(c.trace, Data(KField, w)), |w| + 1)
              && d.p.state == Header(HeaderValueDiscardWs)
            else RefusedWith(d, InvalidHeaderToken)
  {
    hide OnByte, Feed, Emit, CharSets.TokenByte, IsToken;
    forall i | 0 <= i < |w| ensures CharSets.TokenByte(w[i]) <==> IsToken(w[i]) {
      CharSets.Tokens(w[i]);
    }
    var n := TokenBytes(w);
    if n < |w| || w == "" {
      NotAName(r, c, w, n);
    } else {
      FeedSnoc(r, c, w, ':');
      NameReads(r, c, w);
      ColonReads(r, Feed(r, c, w));
      EmitNothing(c.trace, KField, w);
    }
  }

  lemma NotAName(r: Rules, c: Cfg, w: string, n: nat)
    requires AtField(r, c, |w| + 1) && ':' !in w && CR !in w && LF !in w && n <= |w|
    requires (forall i :: 0 <= i < n ==> IsToken(w[i])) && (if n < |w| then !IsToken(w[n]) else w == "")
    ensures RefusedWith(Feed(r, c, w + ":"), InvalidHeaderToken)
  {
    hide OnByte, Feed, Emit, IsToken;
    var s := w + ":";
    var u, b, rest := s[..n], s[n], s[n + 1..];
    assert s == u + ([b] + rest) && u == w[..n];
    assert n < |w| ==> b == w[n] && b in w;
    assert !IsToken(b) by { ColonIsNone(); }
    FeedAppend(r, c, u, [b] + rest);
    if n == 0 {
      NoBytes(r, c);
    } else {
      NameReads(r, c, u);
    }
    var d := Feed(r, c, u);
    BadByte(r, d, b);
    FeedOne(r, d, b, rest);
    FeedStopped(r, OnByte(r, d, b), rest);
  }

  lemma ColonIsNone()
    ensures !IsToken(':')
  {
  }

  // ----- a line without a colon

  lemma NameEnd(r: Rules, c: Cfg, b: char)
    requires c.stop == Running && c.p.state == Header(HeaderField) && Room(r, c.p, 1) && IsEol(b)
    ensures OnByte(r, c, b)
         == Went(c, Read(r, c.p, 1).(state := Header(if b == CR then HeaderAlmostDone else HeaderFieldStart)),
                 Emit(c.trace, Data(KField, [])), 1)
  {
    var q := Read(r, c.p, 1);
    var s := Header(if b == CR then HeaderAlmostDone else HeaderFieldStart);
    assert Arm(q, b, 1) == Delivering(q, s, KField) by {
      hide MatchFieldByte;
      assert !IsToken(b);
    }
    EndByte(r, c, b, q, s, KField);
    hide Arm, OnByte, Emit;
  }

  lemma NamesSayNothing(l: string)
    ensures var h := Classify(l);
            h != HConnectionKeepAlive && h != HConnectionClose && h != HTransferEncodingChunked
  {
  }

  /**
   A name with no colon before the end of its line is delivered alone, and says nothing, whatever
   name it is. b is the byte after it, which must not fold the line.
   */
  lemma NoColon(r: Rules, c: Cfg, name: string, eol: string, b: char) returns (d: Cfg)
    requires TokenText(name) && IsLineEnd(eol) && AtField(r, c, |name + eol| + 1) && !IsSpaceOrTab(b)
    ensures d == Went(c, d.p, Emit(c.trace, Data(KField, name)), |name + eol|)
    ensures ButMatcher(d.p, Read(r, c.p, |name + eol|)) && OnByte(r, Feed(r, c, name + eol), b) == OnByte(r, d, b)
  {
    hide OnByte, Feed, Emit, Classify, Tokens;
    NameReads(r, c, name);
    var e := Feed(r, c, name);
    FeedAppend(r, c, name, eol);
    EmitNothing(c.trace, KField, name);
    NameEnd(r, e, eol[0]);
    if eol == "\n" {
      FeedByte(r, e, LF);
      d := OnByte(r, e, LF);
    } else {
      AlmostDoneReads(r, OnByte(r, e, CR));
      TwoBytes(r, e, CR, LF);
      var f := Feed(r, e, eol);
      LineSettles(r, f, b);
      NamesSayNothing(Tokens(name));
      d := f.(p := f.p.(state := Header(HeaderFieldStart), flags := HeaderFlags(f.p)));
    }
  }
}
