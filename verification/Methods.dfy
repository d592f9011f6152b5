/**
 Recognising the method: the guess from the first letter and the switches in mid-word find
 a method exactly when its name and one space have been read.
 */
module Methods {
  import opened Chars
  import opened Types
  import opened Arms
  import opened Execute
  import opened Reference
  import opened Steps

  /** The method the parser holds when it has read the first k letters of m's name. */
  function Guess(m: Method, k: nat): Method {
    match m
    case COPY => if k <= 2 then CONNECT else m
    case CHECKOUT => if k <= 1 then CONNECT else m
    case MOVE => if k <= 1 then MKCOL else m
    case MERGE => if k <= 1 then MKCOL else m
    case MSEARCH => if k <= 1 then MKCOL else m
    case MKACTIVITY => if k <= 2 then MKCOL else m
    case SEARCH => if k <= 1 then SUBSCRIBE else m
    case PROPFIND => if k <= 1 then POST else m
    case PROPPATCH => if k <= 1 then POST else if k <= 4 then PROPFIND else m
    case PUT => if k <= 1 then POST else m
    case PURGE => if k <= 1 then POST else if k <= 2 then PUT else m
    case PATCH => if k <= 1 then POST else m
    case UNSUBSCRIBE => if k <= 2 then UNLOCK else m
    case _ => m
  }

  lemma FirstGuess(m: Method)
    ensures var s := MethodStr(m);
            |s| > 1 && IsAlpha(s[0]) && FirstMethod(s[0]) == Some(Guess(m, 1))
  {
  }

  lemma FullGuess(m: Method)
    ensures Guess(m, |MethodStr(m)|) == m
  {
  }

  /** The next letter of the name leads to the next guess. */
  lemma NextGuess(m: Method, k: nat)
    requires 0 < k < |MethodStr(m)|
    ensures var ch := MethodStr(m)[k];
            var g := Guess(m, k);
            ch != '\0' && ch != ' ' &&
            if ch == CharAt(MethodStr(g), k) then Guess(m, k + 1) == g
            else OtherMethod(g, k, ch) == Some(Guess(m, k + 1))
  {
    if Guess(m, k) == m {
      SameGuess(m, k);
      hide MethodStr, OtherMethod, Guess;
    }
  }

  lemma SameGuess(m: Method, k: nat)
    requires 0 < k < |MethodStr(m)| && Guess(m, k) == m
    ensures Guess(m, k + 1) == m && MethodStr(m)[k] != '\0' && MethodStr(m)[k] != ' '
  {
  }

  // ----- reading the name

  /** The parser when k letters of a name have been read and m is the guess. */
  function Reading(r: Rules, p: Parser, m: Method, k: nat): Parser {
    Read(r, p, k).(flags := NO_FLAGS, contentLength := ULLONG_MAX, meth := m, index := k,
                   state := MethodName)
  }

  predicate Fresh(r: Rules, c: Cfg, n: nat) {
    c.stop == Running && c.p.state == Start(StartReq) && Room(r, c.p, n)
  }

  lemma FirstByte(r: Rules, c: Cfg, b: char)
    requires Fresh(r, c, 1) && !IsEol(b)
    ensures var d := OnByte(r, c, b);
            if IsAlpha(b) && FirstMethod(b).Some? then
              d == Went(c, Reading(r, c.p, FirstMethod(b).value, 1), Emit(c.trace, MessageBegin), 1)
            else RefusedWith(d, InvalidMethod)
  {
    HeaderByte(r, c, b);
    hide FirstMethod, IsAlpha, Emit;
  }

  lemma NextByte(r: Rules, c: Cfg, b: char)
    requires c.stop == Running && c.p.state == MethodName && Room(r, c.p, 1) && c.p.index < 255
    ensures var d := OnByte(r, c, b);
            var a := MethodArm(Read(r, c.p, 1), b);
            if a.next.Fail? then RefusedWith(d, InvalidMethod) else d == Went(c, Norm(r, a.p), c.trace, 1)
  {
    HeaderByte(r, c, b);
    hide MethodStr, OtherMethod;
  }

  lemma {:induction false} NameReads(r: Rules, c: Cfg, m: Method, k: nat)
    requires 0 < k <= |MethodStr(m)| && Fresh(r, c, k)
    ensures Feed(r, c, MethodStr(m)[..k])
         == Went(c, Reading(r, c.p, Guess(m, k), k), Emit(c.trace, MessageBegin), k)
    decreases k
  {
    hide OnByte, Feed, Emit, IsAlpha, FirstMethod, OtherMethod, Guess, MethodStr;
    var s := MethodStr(m);
    NameLength(m);
    if k == 1 {
      FirstGuess(m);
      EolNoLetter(s[0]);
      FirstByte(r, c, s[0]);
      FeedByte(r, c, s[0]);
      assert s[..1] == [s[0]];
    } else {
      NameReads(r, c, m, k - 1);
      NextGuess(m, k - 1);
      assert s[..k] == s[..k - 1] + [s[k - 1]];
      FeedSnoc(r, c, s[..k - 1], s[k - 1]);
      NextByte(r, Feed(r, c, s[..k - 1]), s[k - 1]);
    }
  }

  lemma NameLength(m: Method)
    ensures 1 < |MethodStr(m)| <= 11
  {
  }

  lemma EolNoLetter(c: char)
    ensures IsAlpha(c) ==> !IsEol(c)
  {
  }

  /** The parser when m's name and a space have been read. */
  function Named(r: Rules, p: Parser, m: Method): Parser {
    var n := |MethodStr(m)| + 1;
    Reading(r, p, m, n).(state := Url(ReqSpacesBeforeUrl))
  }

  /** Every method name is recognised. */
  lemma MethodReads(r: Rules, c: Cfg, m: Method)
    requires Fresh(r, c, |MethodStr(m)| + 1)
    ensures Feed(r, c, MethodStr(m) + " ")
         == Went(c, Named(r, c.p, m), Emit(c.trace, MessageBegin), |MethodStr(m)| + 1)
  {
    hide OnByte, Feed, Emit, OtherMethod, Guess, MethodStr;
    var s := MethodStr(m);
    NameLength(m);
    FirstGuess(m);
    NameReads(r, c, m, |s|);
    FullGuess(m);
    assert s[..|s|] == s;
    FeedSnoc(r, c, s, ' ');
    NextByte(r, Feed(r, c, s), ' ');
  }

  // ----- and nothing else is

  /** A switch in mid-word keeps the letters that have been read. */
  lemma SwitchKeeps(m: Method, index: nat, ch: char)
    requires 0 < index <= |MethodStr(m)|
    ensures var other := OtherMethod(m, index, ch);
            other.Some? ==>
              var s := MethodStr(other.value);
              index < |s| && s[index] == ch && s[..index] == MethodStr(m)[..index]
  {
    var other := OtherMethod(m, index, ch);
    if other.Some? {
      SwitchSame(m, index, ch);
      var s, t := MethodStr(other.value), MethodStr(m);
      hide MethodStr, OtherMethod;
      forall j | 0 <= j < index ensures s[j] == t[j] {
        assert j == 0 || j == 1 || j == 2 || j == 3;
      }
      assert s[..index] == t[..index];
    }
  }

  lemma SwitchSame(m: Method, index: nat, ch: char)
    requires 0 < index <= |MethodStr(m)| && OtherMethod(m, index, ch).Some?
    ensures var s, t := MethodStr(OtherMethod(m, index, ch).value), MethodStr(m);
            && index <= 4 && index < |s| && s[index] == ch && s[0] == t[0]
            && (index > 1 ==> s[1] == t[1]) && (index > 2 ==> s[2] == t[2])
            && (index > 3 ==> s[3] == t[3])
  {
  }

  /** What has been read so far is the beginning of the method's name. */
  predicate Holds(c: Cfg, w: string) {
    RefusedWith(c, InvalidMethod) ||
    (&& c.stop == Running && c.p.state == MethodName && c.p.index == |w|
     && 0 < |w| <= |MethodStr(c.p.meth)| && MethodStr(c.p.meth)[..|w|] == w)
  }

  lemma {:induction false} NameHeld(r: Rules, c: Cfg, w: string)
    requires w != "" && ' ' !in w && Fresh(r, c, |w|) && !IsEol(w[0])
    ensures Holds(Feed(r, c, w), w)
    ensures r.counting && Feed(r, c, w).stop == Running ==> Feed(r, c, w).p.nread == c.p.nread + |w|
    decreases |w|
  {
    hide OnByte, Feed, Emit, IsAlpha, FirstMethod, OtherMethod, MethodStr;
    var n := |w| - 1;
    if n == 0 {
      FirstByte(r, c, w[0]);
      FeedByte(r, c, w[0]);
      assert w == [w[0]];
      FirstLetter(w[0]);
    } else {
      var v := w[..n];
      NameHeld(r, c, v);
      assert w == v + [w[n]] && w[n] in w;
      FeedSnoc(r, c, v, w[n]);
      var d := Feed(r, c, v);
      if d.stop == Failed {
        FeedStopped(r, d, [w[n]]);
        FeedByte(r, d, w[n]);
      } else {
        NameLength(d.p.meth);
        NextByte(r, d, w[n]);
        SwitchKeeps(d.p.meth, n, w[n]);
        NextHeld(Read(r, d.p, 1), v, w[n]);
      }
    }
  }

  lemma FirstLetter(ch: char)
    ensures FirstMethod(ch).Some? ==>
              var s := MethodStr(FirstMethod(ch).value); |s| > 1 && s[0] == ch && s[..1] == [ch]
  {
  }

  lemma NextHeld(p: Parser, v: string, ch: char)
    requires ch != ' ' && 0 < |v| <= |MethodStr(p.meth)| <= 11 && p.index == |v|
    requires MethodStr(p.meth)[..|v|] == v
    requires var other := OtherMethod(p.meth, p.index, ch);
             other.Some? ==>
               var s := MethodStr(other.value);
               |v| < |s| && s[|v|] == ch && s[..|v|] == v
    ensures var a := MethodArm(p, ch);
            a.next.Fail? ||
            (&& a.p.state == p.state && a.p.index == |v| + 1 <= |MethodStr(a.p.meth)|
             && MethodStr(a.p.meth)[..|v| + 1] == v + [ch] && a.p.nread == p.nread)
  {
    hide MethodStr, OtherMethod;
  }

  /** CR and LF before the request line are skipped. */
  lemma {:induction false} EolsSkipped(r: Rules, c: Cfg, eols: string)
    requires Fresh(r, c, |eols|) && c.p == Read(r, c.p, 0) && forall e :: e in eols ==> IsEol(e)
    ensures Feed(r, c, eols) == Went(c, Read(r, c.p, |eols|), c.trace, |eols|)
    decreases |eols|
  {
    hide OnByte;
    if eols != "" {
      var q := Read(r, c.p, 1);
      assert eols[0] in eols;
      assert Arm(q, eols[0], 1) == Quietly(q);
      QuietByte(r, c, eols[0], q);
      EolsSkipped(r, Went(c, q, c.trace, 1), eols[1..]);
    }
  }

  /**
   A method is recognised exactly when its name has been read: after any CR and LF, any word
   without a space and then a space, the parser stands before the URL with method m if and
   only if the word is m's name. A word that is the name of none is refused.
   */
  lemma MethodRecognised(r: Rules, c: Cfg, eols: string, w: string, m: Method)
    requires Fresh(r, c, |eols| + |w| + 1) && c.p == Read(r, c.p, 0)
    requires w != "" && ' ' !in w && !IsEol(w[0]) && forall e :: e in eols ==> IsEol(e)
    ensures var d := Feed(r, c, eols + (w + " "));
            && ((d.stop == Running && d.p.state == Url(ReqSpacesBeforeUrl) && d.p.meth == m) <==>
                (w == MethodStr(m)))
            && ((forall k :: w != MethodStr(k)) ==> RefusedWith(d, InvalidMethod))
  {
    hide OnByte, Feed;
    FeedAppend(r, c, eols, w + " ");
    EolsSkipped(r, c, eols);
    WordRecognised(r, Feed(r, c, eols), w, m);
  }

  lemma WordRecognised(r: Rules, c: Cfg, w: string, m: Method)
    requires w != "" && ' ' !in w && !IsEol(w[0]) && Fresh(r, c, |w| + 1)
    ensures var d := Feed(r, c, w + " ");
            && ((d.stop == Running && d.p.state == Url(ReqSpacesBeforeUrl) && d.p.meth == m) <==>
                (w == MethodStr(m)))
            && ((forall k :: w != MethodStr(k)) ==> RefusedWith(d, InvalidMethod))
  {
    hide OnByte, Feed, Emit, OtherMethod, MethodStr;
    var d := Feed(r, c, w);
    NameHeld(r, c, w);
    FeedSnoc(r, c, w, ' ');
    if d.stop == Failed {
      FeedStopped(r, d, " ");
      FeedByte(r, d, ' ');
    } else {
      NameLength(d.p.meth);
      NextByte(r, d, ' ');
      SpaceEnds(Read(r, d.p, 1));
    }
    if w == MethodStr(m) {
      MethodReads(r, c, m);
    }
  }

  /** A space goes on to the URL at the end of the name, and is refused before it. */
  lemma SpaceEnds(p: Parser)
    requires 0 < p.index <= |MethodStr(p.meth)| <= 11
    ensures var a := MethodArm(p, ' ');
            if p.index == |MethodStr(p.meth)| then a == Go(p.(index := p.index + 1), Url(ReqSpacesBeforeUrl))
            else a.next.Fail?
  {
    if p.index < |MethodStr(p.meth)| {
      NoSpace(p.meth, p.index);
    }
    NoSpaceSwitch(p.meth, p.index);
    hide MethodStr, OtherMethod;
  }

  lemma NoSpace(m: Method, k: nat)
    requires k < |MethodStr(m)|
    ensures MethodStr(m)[k] != ' ' && MethodStr(m)[k] != '\0'
  {
  }

  lemma NoSpaceSwitch(m: Method, k: nat)
    ensures OtherMethod(m, k, ' ').None?
  {
  }
}
