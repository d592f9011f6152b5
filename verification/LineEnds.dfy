/**
 CR in the header part. Where it is taken at all LF has to follow; no line ends with CR alone.
 */
module LineEnds {
  import opened Chars
  import opened Types
  import opened UrlChar
  import opened Arms
  import opened Execute
  import opened Reference
  import opened Steps
  import opened Headers

  /** CR has been read, and the line is not over. */
  predicate CrRead(s: State) {
    || s == StatusLine(ResLineAlmostDone) || s == Version(ReqLineAlmostDone)
    || s == Header(HeaderAlmostDone) || s == Header(HeaderValueDiscardWsAlmostDone)
    || s == HeadersEnd(HeadersAlmostDone) || s == Chunk(ChunkSizeAlmostDone)
  }

  /** The arms for CR: it is refused, or ends a line but for its LF, or is looked at again. */
  predicate TakesCr(a: Act) {
    || a.next.Fail? || a.next.Abort? || (Repeats(a.next) && a.p.state == Header(HeaderFieldStart))
    || (!Repeats(a.next) && !a.next.andThen.Exit? && CrRead(a.p.state))
  }

  /** In HeaderValueStart only the space or tab of a folded line is looked at, once more. */
  predicate InHeader(s: State) {
    ParsingHeader(s) && !s.Start? && s != Header(HeaderValueStart)
  }

  lemma FirstLineCr(p: Parser)
    requires p.state.StatusLine? || p.state.Url? || p.state.Version? || p.state.MethodName?
    ensures TakesCr(Arm(p, CR, 1))
  {
    NoCrInName(p.meth, p.index);
    hide MethodStr, OtherMethod;
  }

  lemma NoCrInName(m: Method, k: nat)
    ensures CharAt(MethodStr(m), k) != CR && OtherMethod(m, k, CR).None?
  {
  }

  lemma HeaderCr(p: Parser, s: HeaderLineState)
    requires p.state == Header(s) && s != HeaderValueStart
    ensures TakesCr(HeaderArm(p, s, CR))
  {
    hide MatchFieldByte, MatchValueByte, ValueStartArm;
  }

  lemma ArmCr(p: Parser)
    requires InHeader(p.state)
    ensures TakesCr(Arm(p, CR, 1))
  {
    match p.state
    case Header(s) => HeaderCr(p, s);
    case Chunk(s) =>
    case HeadersEnd(s) =>
    case _ => FirstLineCr(p);
  }

  lemma {:induction false} RedoCr(r: Rules, c: Cfg)
    requires InHeader(c.p.state)
    ensures var d := Redo(r, c, CR); d.stop == Failed || (d.stop == Running && CrRead(d.p.state))
    decreases Rank(c.p.state)
  {
    hide Arm, Emit;
    var a := Arm(c.p, CR, 1);
    ArmCr(c.p);
    var x := React(r, c, a, CR);
    if x.again {
      RedoCr(r, x.c);
    }
  }

  /** What is said of the missing LF. */
  lemma LfMissing(r: Rules, c: Cfg, b: char)
    requires c.stop == Running && CrRead(c.p.state) && Room(r, c.p, 1) && b != LF
    requires c.p.state.Chunk? ==> c.p.flags.chunked
    ensures RefusedWith(OnByte(r, c, b), if c.p.state == Version(ReqLineAlmostDone) then LfExpected else Strict)
  {
    HeaderByte(r, c, b);
    LfArm(Read(r, c.p, 1), b);
    hide Arm;
  }

  lemma LfArm(p: Parser, b: char)
    requires CrRead(p.state) && b != LF && (p.state.Chunk? ==> p.flags.chunked)
    ensures Arm(p, b, 1).next == Fail(if p.state == Version(ReqLineAlmostDone) then LfExpected else Strict)
  {
  }

  lemma NotAfterCr(r: Rules, c: Cfg, b: char)
    requires CrRead(c.p.state) && b != LF
    ensures Redo(r, c, b).stop == Failed
  {
  }

  /**
   Whatever has been read of a first line, of headers or trailers, or of a chunk size: CR and then
   any byte but LF is refused, and what follows does not matter.
   */
  lemma BareCr(r: Rules, c: Cfg, b: char, rest: string)
    requires c.stop == Running && InHeader(c.p.state) && b != LF
    ensures Feed(r, c, [CR, b] + rest).stop == Failed
  {
    hide Redo, Feed;
    FeedAppend(r, c, [CR, b], rest);
    TwoBytes(r, c, CR, b);
    RedoCr(r, c.(p := Norm(r, c.p)));
    RedoCr(r, c.(p := Tick(c.p)));
    var d := OnByte(r, c, CR);
    if d.stop == Running {
      NotAfterCr(r, d.(p := Norm(r, d.p)), b);
      NotAfterCr(r, d.(p := Tick(d.p)), b);
    }
    FeedStopped(r, OnByte(r, d, b), rest);
  }

  /** The data of a chunk is followed by CR LF. */
  lemma DataEndMissing(r: Rules, c: Cfg, b: char)
    requires c.stop == Running && c.p.flags.chunked && c.p.contentLength == 0 && c.p == Norm(r, c.p)
    ensures c.p.state == Chunk(ChunkDataAlmostDone) && b != CR ==> RefusedWith(OnByte(r, c, b), Strict)
    ensures c.p.state == Chunk(ChunkDataDone) && b != LF ==> RefusedWith(OnByte(r, c, b), Strict)
  {
  }
}
