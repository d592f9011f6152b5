/**
 The end of the header block and what follows it: a body of known length, a chunked body
 with its trailers, or none.
 */
module Bodies {
  import opened Chars
  import opened Types
  import opened Arms
  import opened Execute
  import opened Invariant
  import opened Reference
  import opened Steps
  import opened Lengths
  import Bridge
  import opened HeaderMatch
  import opened Headers

  /** The parser with nread set back. */
  function Zeroed(r: Rules, p: Parser): Parser {
    Norm(r, p.(nread := 0))
  }

  /** How a message without upgrade goes on after its headers: with which body, or complete. */
  function BodyState(p: Parser): State {
    if p.flags.chunked then Chunk(ChunkSizeStart)
    else if p.contentLength == 0 then NewMessage(p)
    else if p.contentLength != ULLONG_MAX then Body(BodyIdentity)
    else if NeedsEof(p) then Body(BodyIdentityEof)
    else NewMessage(p)
  }

  predicate Upgrading(p: Parser) {
    (p.flags.upgrade || p.meth == CONNECT) && !p.flags.trailing
  }

  predicate PlainHeaders(p: Parser) {
    !p.flags.upgrade && p.meth != CONNECT && !p.flags.skipBody && !p.flags.trailing
  }

  /** The callback at the end of the headers, with what the application sees in it. */
  function HeadersEvent(p: Parser, upgrade: bool): Event {
    HeadersComplete(SeenBy(p.(upgrade := upgrade)))
  }

  /** Before the LF of the empty line. */
  function BeforeLf(r: Rules, c: Cfg, eol: string): Cfg
    requires eol != ""
  {
    Went(c, Read(r, c.p, |eol| - 1).(state := HeadersEnd(HeadersAlmostDone)), c.trace, |eol| - 1)
  }

  /** An empty line, with or without its CR. */
  lemma EmptyLineReads(r: Rules, c: Cfg, eol: string)
    requires AtField(r, c, |eol|) && IsLineEnd(eol) && c.p == Read(r, c.p, 0)
    ensures Feed(r, c, eol) == OnByte(r, BeforeLf(r, c, eol), LF)
  {
    hide OnByte;
    if eol == "\n" {
      FeedByte(r, c, LF);
      LfAgain(r, c);
    } else {
      CrReads(r, c);
      TwoBytes(r, c, CR, LF);
    }
  }

  lemma LfAgain(r: Rules, c: Cfg)
    requires AtField(r, c, 1)
    ensures OnByte(r, c, LF) == OnByte(r, c.(p := c.p.(state := HeadersEnd(HeadersAlmostDone))), LF)
  {
    hide Arm, OnByte;
    var d := c.(p := c.p.(state := HeadersEnd(HeadersAlmostDone)));
    HeaderByte(r, c, LF);
    HeaderByte(r, d, LF);
    LfAgainArm(Read(r, c.p, 1));
  }

  lemma LfAgainArm(p: Parser)
    requires p.state == Header(HeaderFieldStart)
    ensures Arm(p, LF, 1) == Again(p, HeadersEnd(HeadersAlmostDone))
  {
  }

  /** The empty line that ends the headers of a message without upgrade. */
  lemma EndReads(r: Rules, c: Cfg, eol: string)
    requires AtField(r, c, |eol|) && IsLineEnd(eol) && c.p == Read(r, c.p, 0)
    requires PlainHeaders(c.p) && !r.skips(Emit(c.trace, HeadersEvent(c.p, false)))
    ensures var p := c.p.(upgrade := false);
            var t := Emit(c.trace, HeadersEvent(c.p, false));
            var s := BodyState(p);
            Feed(r, c, eol) ==
              Went(c, Zeroed(r, p).(state := s),
                   if s == NewMessage(p) then Emit(t, MessageComplete) else t, |eol|)
  {
    hide OnByte, Emit, BodyState, NewMessage;
    EmptyLineReads(r, c, eol);
    EndLf(r, BeforeLf(r, c, eol));
    BodyStateOf(c.p.(upgrade := false), BeforeLf(r, c, eol).p.(upgrade := false));
  }

  lemma CrReads(r: Rules, c: Cfg)
    requires AtField(r, c, 1)
    ensures OnByte(r, c, CR) == Went(c, Read(r, c.p, 1).(state := HeadersEnd(HeadersAlmostDone)), c.trace, 1)
  {
    var q := Read(r, c.p, 1);
    assert Arm(q, CR, 1) == Quietly(q.(state := HeadersEnd(HeadersAlmostDone)));
    hide Arm;
    QuietByte(r, c, CR, q.(state := HeadersEnd(HeadersAlmostDone)));
  }

  lemma EndLf(r: Rules, c: Cfg)
    requires c.stop == Running && c.p.state == HeadersEnd(HeadersAlmostDone) && Room(r, c.p, 1)
    requires PlainHeaders(c.p) && !r.skips(Emit(c.trace, HeadersEvent(c.p, false)))
    ensures var p := c.p.(upgrade := false);
            var t := Emit(c.trace, HeadersEvent(c.p, false));
            var s := BodyState(p);
            OnByte(r, c, LF) ==
              Went(c, Zeroed(r, p).(state := s),
                   if s == NewMessage(p) then Emit(t, MessageComplete) else t, 1)
  {
    HeaderByte(r, c, LF);
    var q := Read(r, c.p, 1);
    var q1 := q.(state := HeadersEnd(HeadersDone), upgrade := false);
    assert Arm(q, LF, 1) == Act(q1, None, 1, Notify(HeadersEvent(c.p, false), Repeat));
    var c1 := Cfg(q1, Emit(c.trace, HeadersEvent(c.p, false)), Running, c.taken);
    hide BodyState, NewMessage, NeedsEof;
    assert Redo(r, c.(p := q), LF) == Redo(r, c1, LF) by {
      hide Arm, Emit;
    }
    DoneLf(r, c1);
    BodyStateOf(c.p.(upgrade := false), q1);
  }

  /** What follows the headers depends on neither state nor count. */
  lemma BodyStateOf(p: Parser, q: Parser)
    requires q == p.(state := q.state, nread := q.nread)
    ensures BodyState(q) == BodyState(p) && NewMessage(q) == NewMessage(p)
  {
  }

  lemma DoneLf(r: Rules, c: Cfg)
    requires c.stop == Running && c.p.state == HeadersEnd(HeadersDone) && PlainHeaders(c.p) && !c.p.upgrade
    ensures var s := BodyState(c.p);
            Redo(r, c, LF) ==
              Went(c, Zeroed(r, c.p).(state := s),
                   if s == NewMessage(c.p) then Emit(c.trace, MessageComplete) else c.trace, 1)
  {
    hide Emit;
  }

  // ----- a message whose body the application does not want

  /** When on_headers_complete returns 1 the message is complete, whatever its headers announce. */
  lemma SkipReads(r: Rules, c: Cfg, eol: string)
    requires AtField(r, c, |eol|) && IsLineEnd(eol) && c.p == Read(r, c.p, 0)
    requires !Upgrading(c.p) && !c.p.flags.trailing && r.skips(Emit(c.trace, HeadersEvent(c.p, false)))
    ensures var p := c.p.(upgrade := false, flags := c.p.flags.(skipBody := true));
            var t := Emit(Emit(c.trace, HeadersEvent(c.p, false)), MessageComplete);
            Feed(r, c, eol) == Went(c, Zeroed(r, p).(state := NewMessage(p)), t, |eol|)
  {
    hide OnByte, Emit, NewMessage;
    EmptyLineReads(r, c, eol);
    var d := BeforeLf(r, c, eol);
    SkipLf(r, d);
    BodyStateOf(c.p.(upgrade := false, flags := c.p.flags.(skipBody := true)),
                d.p.(upgrade := false, flags := c.p.flags.(skipBody := true)));
  }

  lemma SkipLf(r: Rules, c: Cfg)
    requires c.stop == Running && c.p.state == HeadersEnd(HeadersAlmostDone) && Room(r, c.p, 1)
    requires !Upgrading(c.p) && !c.p.flags.trailing && r.skips(Emit(c.trace, HeadersEvent(c.p, false)))
    ensures var p := c.p.(upgrade := false, flags := c.p.flags.(skipBody := true));
            var t := Emit(Emit(c.trace, HeadersEvent(c.p, false)), MessageComplete);
            OnByte(r, c, LF) == Went(c, Zeroed(r, p).(state := NewMessage(p)), t, 1)
  {
    HeaderByte(r, c, LF);
    var q := Read(r, c.p, 1);
    var q1 := q.(state := HeadersEnd(HeadersDone), upgrade := false);
    assert Arm(q, LF, 1) == Act(q1, None, 1, Notify(HeadersEvent(c.p, false), Repeat));
    var q2 := q1.(flags := q1.flags.(skipBody := true));
    var c1 := Cfg(q2, Emit(c.trace, HeadersEvent(c.p, false)), Running, c.taken);
    hide NewMessage, NeedsEof;
    assert Redo(r, c.(p := q), LF) == Redo(r, c1, LF) by {
      hide Arm, Emit;
    }
    var z := q2.(nread := 0);
    assert Arm(q2, LF, 1) == Completing(z, Consume);
    BodyStateOf(c.p.(upgrade := false, flags := c.p.flags.(skipBody := true)), z);
    hide Arm, Emit;
  }

  // ----- a message that leaves for another protocol

  /** The parser after such headers; it makes no difference whether the body is to be skipped. */
  function AfterUpgrade(r: Rules, c: Cfg): Parser {
    var q := c.p.(upgrade := true);
    if r.skips(Emit(c.trace, HeadersEvent(c.p, true))) then q.(flags := q.flags.(skipBody := true)) else q
  }

  /** The empty line that ends the headers of such a message also ends the call. */
  lemma UpgradeReads(r: Rules, c: Cfg, eol: string)
    requires AtField(r, c, |eol|) && IsLineEnd(eol) && c.p == Read(r, c.p, 0)
    requires Upgrading(c.p)
    ensures var p := AfterUpgrade(r, c);
            var t := Emit(Emit(c.trace, HeadersEvent(c.p, true)), MessageComplete);
            Feed(r, c, eol) == Cfg(Zeroed(r, p).(state := NewMessage(p)), t, Exited, c.taken + |eol|)
  {
    hide OnByte, Emit, NewMessage;
    EmptyLineReads(r, c, eol);
    UpgradeLf(r, BeforeLf(r, c, eol));
    BodyStateOf(AfterUpgrade(r, c), AfterUpgrade(r, BeforeLf(r, c, eol)));
  }

  lemma UpgradeLf(r: Rules, c: Cfg)
    requires c.stop == Running && c.p.state == HeadersEnd(HeadersAlmostDone) && Room(r, c.p, 1)
    requires Upgrading(c.p)
    ensures var p := AfterUpgrade(r, c);
            var t := Emit(Emit(c.trace, HeadersEvent(c.p, true)), MessageComplete);
            OnByte(r, c, LF) == Cfg(Zeroed(r, p).(state := NewMessage(p)), t, Exited, c.taken + 1)
  {
    HeaderByte(r, c, LF);
    var q := Read(r, c.p, 1);
    var q1 := q.(state := HeadersEnd(HeadersDone), upgrade := true);
    assert Arm(q, LF, 1) == Act(q1, None, 1, Notify(HeadersEvent(c.p, true), Repeat));
    var q2 := AfterUpgrade(r, c.(p := q1));
    var c1 := Cfg(q2, Emit(c.trace, HeadersEvent(c.p, true)), Running, c.taken);
    hide NewMessage, NeedsEof;
    assert Redo(r, c.(p := q), LF) == Redo(r, c1, LF) by {
      hide Arm, Emit;
    }
    var z := q2.(nread := 0);
    assert Arm(q2, LF, 1) == Completing(z, Exit);
    BodyStateOf(AfterUpgrade(r, c), z);
    hide Arm, Emit;
  }

  // ----- a body of known length

  predicate InBody(r: Rules, c: Cfg) {
    && c.stop == Running && c.p.state == Body(BodyIdentity) && c.p == Norm(r, c.p)
    && 0 < c.p.contentLength < ULLONG_MAX
  }

  /** The last byte of a body completes the message. */
  lemma LastByte(r: Rules, c: Cfg, b: char)
    requires InBody(r, c) && c.p.contentLength == 1
    ensures var p := c.p.(contentLength := 0);
            OnByte(r, c, b) ==
              Went(c, p.(state := NewMessage(p)), Emit(Emit(c.trace, Data(KBody, [b])), MessageComplete), 1)
  {
    var q := c.p.(contentLength := 0, state := Body(MessageDone));
    assert Arm(c.p, b, 1) == Act(q, Some(KBody), 1, Flush(KBody, true, Repeat));
    assert Arm(q, b, 1) == Completing(q, Consume);
    hide Arm, Emit;
    var d := Cfg(q, Emit(c.trace, Data(KBody, [b])), Running, c.taken);
    assert Redo(r, c, b) == Redo(r, d, b);
  }

  /**
   Bytes of a body of known length: what has been delivered is just what was fed, what remains
   is what was declared less that, and the message is complete when nothing remains.
   */
  lemma BodyReads(r: Rules, c: Cfg, bytes: string)
    requires InBody(r, c) && bytes != "" && |bytes| <= c.p.contentLength
    ensures var p := c.p.(contentLength := c.p.contentLength - |bytes|);
            var t := Emit(c.trace, Data(KBody, bytes));
            Feed(r, c, bytes) ==
              if p.contentLength > 0 then Went(c, p, t, |bytes|)
              else Went(c, p.(state := NewMessage(p)), Emit(t, MessageComplete), |bytes|)
  {
    hide OnByte, Feed, Emit;
    if |bytes| < c.p.contentLength {
      Bridge.RunFeeds(r, c, bytes);
    } else {
      var n := |bytes| - 1;
      var b := bytes[n];
      assert bytes == bytes[..n] + [b];
      FeedSnoc(r, c, bytes[..n], b);
      if n > 0 {
        Bridge.RunFeeds(r, c, bytes[..n]);
        LastByte(r, Feed(r, c, bytes[..n]), b);
        EmitEmit(c.trace, KBody, bytes[..n], [b]);
      } else {
        NoBytes(r, c);
        assert bytes == [b] && bytes[..n] == "";
        LastByte(r, c, b);
      }
    }
  }

  // ----- chunks

  /** A chunk of a chunked body as it is sent: size line with an extension, then the data. */
  datatype ChunkLine = ChunkLine(size: string, extension: string)

  /** The size in hex, and an extension without CR that begins with `;` or a space. */
  predicate ChunkText(l: ChunkLine) {
    && SizeText(l.size)
    && CR !in l.extension && (l.extension != "" ==> l.extension[0] == ';' || l.extension[0] == ' ')
  }

  function PrintSize(l: ChunkLine): string {
    l.size + l.extension + "\r\n"
  }

  predicate AtChunk(r: Rules, c: Cfg, n: nat) {
    && c.stop == Running && c.p.state == Chunk(ChunkSizeStart) && c.p.flags.chunked
    && c.p == Zeroed(r, c.p) && n <= HTTP_MAX_HEADER_SIZE
  }

  lemma SizeStart(r: Rules, c: Cfg, b: char)
    requires AtChunk(r, c, 1)
    ensures var d := OnByte(r, c, b);
            if Unhex(b) >= 0 then
              d == Went(c, Read(r, c.p, 1).(state := Chunk(ChunkSize), contentLength := Unhex(b)), c.trace, 1)
            else RefusedWith(d, InvalidChunkSize)
  {
    hide Unhex;
    HeaderByte(r, c, b);
    if Unhex(b) >= 0 {
      var q := Read(r, c.p, 1);
      assert Arm(q, b, 1) == Quietly(q.(state := Chunk(ChunkSize), contentLength := Unhex(b)));
      QuietByte(r, c, b, q.(state := Chunk(ChunkSize), contentLength := Unhex(b)));
    } else {
      UnhexNegative(b);
    }
  }

  lemma UnhexNegative(b: char)
    ensures Unhex(b) >= -1
  {
  }

  lemma SizeByte(r: Rules, c: Cfg, v: string, b: char)
    requires c.stop == Running && c.p.state == Chunk(ChunkSize) && c.p.flags.chunked && Room(r, c.p, 1)
    requires SizeText(v) && c.p.contentLength == Hexadecimal(v) <= MAX_CHUNK && Unhex(b) >= 0
    ensures SizeText(v + [b])
    ensures var d := OnByte(r, c, b);
            if Hexadecimal(v + [b]) <= MAX_CHUNK then
              d == Went(c, Read(r, c.p, 1).(contentLength := Hexadecimal(v + [b])), c.trace, 1)
            else RefusedWith(d, InvalidContentLength)
  {
    var q := Read(r, c.p, 1);
    SizeStep(q, v, b);
    assert Arm(q, b, 1) == ChunkArm(q, ChunkSize, b, 1) by { hide ChunkArm; }
    hide Arm, ChunkArm, Hexadecimal, Unhex;
    if Hexadecimal(v + [b]) <= MAX_CHUNK {
      QuietByte(r, c, b, q.(contentLength := Hexadecimal(v + [b])));
    } else {
      HeaderByte(r, c, b);
    }
  }

  /**
   A chunk size is accepted exactly when it is at most 2^64 - 17, and what is stored is that
   number, without wrap.
   */
  lemma {:induction false} SizeReads(r: Rules, c: Cfg, v: string)
    requires AtChunk(r, c, |v|) && SizeText(v)
    ensures var d := Feed(r, c, v);
            if Hexadecimal(v) <= MAX_CHUNK then
              d == Went(c, Read(r, c.p, |v|).(state := Chunk(ChunkSize), contentLength := Hexadecimal(v)), c.trace, |v|)
            else RefusedWith(d, InvalidContentLength)
    decreases |v|
  {
    hide OnByte, Feed, Unhex, Hexadecimal;
    var n := |v| - 1;
    var u, b := v[..n], v[n];
    assert v == u + [b];
    if n == 0 {
      assert v == [b];
      SizeStart(r, c, b);
      FeedByte(r, c, b);
      OneHex(b);
    } else {
      SizeReads(r, c, u);
      FeedSnoc(r, c, u, b);
      HexadecimalGrows(u, b);
      var d := Feed(r, c, u);
      if d.stop == Failed {
        FeedStopped(r, d, [b]);
        FeedByte(r, d, b);
      } else {
        SizeByte(r, d, u, b);
      }
    }
  }

  lemma OneHex(b: char)
    requires Unhex(b) >= 0
    ensures Hexadecimal([b]) == Unhex(b) <= MAX_CHUNK
  {
    assert [b][..0] == "";
    HexNoCr(b);
  }

  /** The rest of a size line up to its CR: nothing, or an extension. */
  lemma {:induction false} ExtensionReads(r: Rules, c: Cfg, e: string)
    requires c.stop == Running && c.p.flags.chunked && Room(r, c.p, |e|) && c.p == Read(r, c.p, 0)
    requires c.p.state == Chunk(ChunkSize) || c.p.state == Chunk(ChunkParameters)
    requires CR !in e && (e != "" && c.p.state == Chunk(ChunkSize) ==> e[0] == ';' || e[0] == ' ')
    ensures Feed(r, c, e) ==
              Went(c, Read(r, c.p, |e|).(state := if e == "" then c.p.state else Chunk(ChunkParameters)), c.trace, |e|)
    decreases |e|
  {
    hide OnByte;
    if e != "" {
      var q := Read(r, c.p, 1);
      assert e[0] in e && forall x :: x in e[1..] ==> x in e;
      assert Arm(q, e[0], 1) == Quietly(q.(state := Chunk(ChunkParameters))) by { ExtensionArm(q, e[0]); }
      QuietByte(r, c, e[0], q.(state := Chunk(ChunkParameters)));
      ExtensionReads(r, OnByte(r, c, e[0]), e[1..]);
    }
  }

  lemma ExtensionArm(p: Parser, b: char)
    requires p.flags.chunked && b != CR
    requires p.state == Chunk(ChunkParameters) || (p.state == Chunk(ChunkSize) && (b == ';' || b == ' '))
    ensures Arm(p, b, 1) == Quietly(p.(state := Chunk(ChunkParameters)))
  {
  }

  /** What a size line leads to: the data, or the trailers after the last chunk. */
  function AfterSize(r: Rules, p: Parser, n: nat): Parser {
    var q := p.(contentLength := n);
    Zeroed(r, if n == 0 then q.(state := Header(HeaderFieldStart), flags := p.flags.(trailing := true))
              else q.(state := Chunk(ChunkData)))
  }

  lemma SizeEndReads(r: Rules, c: Cfg)
    requires c.stop == Running && c.p.flags.chunked && Room(r, c.p, 2)
    requires c.p.state == Chunk(ChunkSize) || c.p.state == Chunk(ChunkParameters)
    ensures Feed(r, c, "\r\n") == Went(c, AfterSize(r, c.p, c.p.contentLength), c.trace, 2)
  {
    var q := Read(r, c.p, 1).(state := Chunk(ChunkSizeAlmostDone));
    assert Arm(Read(r, c.p, 1), CR, 1) == Quietly(q) by { hide Unhex; }
    QuietByte(r, c, CR, q);
    TwoBytes(r, c, CR, LF);
    var d := OnByte(r, c, CR);
    hide OnByte;
    SizeLf(r, d);
  }

  lemma SizeLf(r: Rules, c: Cfg)
    requires c.stop == Running && c.p.flags.chunked && Room(r, c.p, 1)
    requires c.p.state == Chunk(ChunkSizeAlmostDone)
    ensures OnByte(r, c, LF) == Went(c, AfterSize(r, c.p, c.p.contentLength), c.trace, 1)
  {
    var q := Read(r, c.p, 1);
    var z := Arm(q, LF, 1).p;
    assert Arm(q, LF, 1) == Quietly(z) && Norm(r, z) == AfterSize(r, c.p, c.p.contentLength);
    hide Arm;
    QuietByte(r, c, LF, z);
  }

  /** A whole size line: its number is exact, or beyond the bound and refused. */
  lemma SizeLineReads(r: Rules, c: Cfg, l: ChunkLine)
    requires AtChunk(r, c, |PrintSize(l)|) && ChunkText(l)
    ensures var n := Hexadecimal(l.size);
            var d := Feed(r, c, PrintSize(l));
            if n <= MAX_CHUNK then d == Went(c, AfterSize(r, c.p, n), c.trace, |PrintSize(l)|)
            else RefusedWith(d, InvalidContentLength)
  {
    hide OnByte, Feed, Hexadecimal, Unhex, SizeText;
    assert PrintSize(l) == l.size + (l.extension + "\r\n");
    FeedAppend(r, c, l.size, l.extension + "\r\n");
    SizeReads(r, c, l.size);
    var c1 := Feed(r, c, l.size);
    if c1.stop == Failed {
      FeedStopped(r, c1, l.extension + "\r\n");
    } else {
      FeedAppend(r, c1, l.extension, "\r\n");
      ExtensionReads(r, c1, l.extension);
      SizeEndReads(r, Feed(r, c1, l.extension));
    }
  }

  /** How many hex digits w begins with. */
  function HexDigits(w: string): (n: nat)
    ensures n <= |w| && (forall i :: 0 <= i < n ==> Unhex(w[i]) >= 0) && (n < |w| ==> Unhex(w[n]) < 0)
  {
    if w == "" || Unhex(w[0]) < 0 then 0 else 1 + HexDigits(w[1..])
  }

  ghost predicate IsSizeLine(w: string) {
    exists l :: ChunkText(l) && PrintSize(l) == w + "\r\n"
  }

  lemma NoSizeByte(r: Rules, c: Cfg, b: char)
    requires c.stop == Running && c.p.state == Chunk(ChunkSize) && c.p.flags.chunked && Room(r, c.p, 1)
    requires Unhex(b) < 0 && b != CR && b != ';' && b != ' '
    ensures RefusedWith(OnByte(r, c, b), InvalidChunkSize)
  {
    UnhexNegative(b);
    hide Unhex;
    HeaderByte(r, c, b);
  }

  /** Any other text is refused: it has no digits, or something that is no extension after them. */
  lemma SizeLineRecognised(r: Rules, c: Cfg, w: string)
    requires AtChunk(r, c, |w| + 2) && CR !in w && !IsSizeLine(w)
    ensures var d := Feed(r, c, w + "\r\n");
            RefusedWith(d, InvalidChunkSize) || RefusedWith(d, InvalidContentLength)
  {
    hide OnByte, Feed, Hexadecimal, Unhex;
    var n := HexDigits(w);
    var v, e := w[..n], w[n..] + "\r\n";
    assert w + "\r\n" == v + e && e == [e[0]] + e[1..];
    FeedAppend(r, c, v, e);
    FeedOne(r, Feed(r, c, v), e[0], e[1..]);
    UnhexCr();
    assert n < |w| ==> e[0] == w[n] && w[n] in w;
    if n == 0 {
      NoBytes(r, c);
      SizeStart(r, c, e[0]);
      FeedStopped(r, OnByte(r, c, e[0]), e[1..]);
    } else {
      SizeReads(r, c, v);
      var d := Feed(r, c, v);
      if d.stop == Failed {
        FeedStopped(r, d, e);
      } else {
        NoExtension(w, n);
        NoSizeByte(r, d, e[0]);
        FeedStopped(r, OnByte(r, d, e[0]), e[1..]);
      }
    }
  }

  lemma UnhexCr()
    ensures Unhex(CR) < 0
  {
  }

  lemma NoExtension(w: string, n: nat)
    requires !IsSizeLine(w) && CR !in w && 0 < n <= |w| && forall i :: 0 <= i < n ==> Unhex(w[i]) >= 0
    ensures n < |w| && w[n] != ';' && w[n] != ' '
  {
    hide Unhex;
    var l := ChunkLine(w[..n], w[n..]);
    assert PrintSize(l) == w + "\r\n";
    assert forall b :: b in w[n..] ==> b in w;
    assert !ChunkText(l);
  }

  // ----- the data of a chunk

  predicate AtData(r: Rules, c: Cfg) {
    && c.stop == Running && c.p.state == Chunk(ChunkData) && c.p.flags.chunked && c.p == Zeroed(r, c.p)
    && 0 < c.p.contentLength < ULLONG_MAX
  }

  lemma LastDataByte(r: Rules, c: Cfg, b: char)
    requires AtData(r, c) && c.p.contentLength == 1
    ensures OnByte(r, c, b) ==
              Went(c, c.p.(contentLength := 0, state := Chunk(ChunkDataAlmostDone)), Emit(c.trace, Data(KBody, [b])), 1)
  {
    var q := c.p.(contentLength := 0, state := Chunk(ChunkDataAlmostDone));
    BodyByte(r, c, b);
    assert Arm(c.p, b, 1) == Act(q, Some(KBody), 1, Quiet(Consume));
    hide Arm, Emit, OnByte;
  }

  lemma DataReads(r: Rules, c: Cfg, data: string)
    requires AtData(r, c) && c.p.contentLength == |data|
    ensures Feed(r, c, data) ==
              Went(c, c.p.(contentLength := 0, state := Chunk(ChunkDataAlmostDone)),
                   Emit(c.trace, Data(KBody, data)), |data|)
  {
    hide OnByte, Feed, Emit;
    var n := |data| - 1;
    var b := data[n];
    assert data == data[..n] + [b];
    FeedSnoc(r, c, data[..n], b);
    if n > 0 {
      Bridge.RunFeeds(r, c, data[..n]);
      LastDataByte(r, Feed(r, c, data[..n]), b);
      EmitEmit(c.trace, KBody, data[..n], [b]);
    } else {
      NoBytes(r, c);
      assert data == [b] && data[..n] == "";
      LastDataByte(r, c, b);
    }
  }

  lemma DataEndReads(r: Rules, c: Cfg)
    requires c.stop == Running && c.p.state == Chunk(ChunkDataAlmostDone) && c.p.flags.chunked
    requires c.p.contentLength == 0 && c.p == Zeroed(r, c.p)
    ensures Feed(r, c, "\r\n") == Went(c, c.p.(state := Chunk(ChunkSizeStart)), c.trace, 2)
  {
    var q := c.p.(state := Chunk(ChunkDataDone));
    BodyByte(r, c, CR);
    assert Arm(c.p, CR, 1) == Delivering(c.p, Chunk(ChunkDataDone), KBody);
    TwoBytes(r, c, CR, LF);
    var d := Went(c, q, c.trace, 1);
    BodyByte(r, d, LF);
    assert Arm(q, LF, 1) == Quietly(q.(state := Chunk(ChunkSizeStart), nread := 0));
    hide Arm, OnByte;
  }

  function PrintChunk(l: ChunkLine, data: string): string {
    PrintSize(l) + data + "\r\n"
  }

  /** A chunk delivers its data, and the parser is where it was before it. */
  lemma ChunkReads(r: Rules, c: Cfg, l: ChunkLine, data: string)
    requires AtChunk(r, c, |PrintSize(l)|) && ChunkText(l)
    requires Hexadecimal(l.size) == |data| && 0 < |data| <= MAX_CHUNK
    ensures Feed(r, c, PrintChunk(l, data)) ==
              Went(c, c.p.(contentLength := 0), Emit(c.trace, Data(KBody, data)), |PrintChunk(l, data)|)
  {
    hide OnByte, Feed, Hexadecimal, Emit, ChunkText, PrintSize;
    FeedAppend(r, c, PrintSize(l) + data, "\r\n");
    FeedAppend(r, c, PrintSize(l), data);
    SizeLineReads(r, c, l);
    var c1 := Feed(r, c, PrintSize(l));
    DataReads(r, c1, data);
    DataEndReads(r, Feed(r, c1, data));
  }

  // ----- a whole chunked body

  datatype Piece = Piece(line: ChunkLine, data: string)

  predicate ChunkOk(k: Piece) {
    && ChunkText(k.line) && |PrintSize(k.line)| <= HTTP_MAX_HEADER_SIZE
    && Hexadecimal(k.line.size) == |k.data| && 0 < |k.data| <= MAX_CHUNK
  }

  predicate ChunksOk(ks: seq<Piece>) {
    forall k :: k in ks ==> ChunkOk(k)
  }

  function PrintChunks(ks: seq<Piece>): string {
    if ks == [] then "" else PrintChunk(ks[0].line, ks[0].data) + PrintChunks(ks[1..])
  }

  function DataOf(ks: seq<Piece>): string {
    if ks == [] then "" else ks[0].data + DataOf(ks[1..])
  }

  /** A delivery of bytes; nothing is delivered when there are none. */
  function WithBody(t: seq<Event>, body: string): seq<Event> {
    if body == "" then t else Emit(t, Data(KBody, body))
  }

  lemma {:induction false} ChunksRead(r: Rules, c: Cfg, ks: seq<Piece>)
    requires AtChunk(r, c, 0) && ChunksOk(ks)
    ensures var d := Feed(r, c, PrintChunks(ks));
            d == Went(c, c.p.(contentLength := d.p.contentLength), WithBody(c.trace, DataOf(ks)), |PrintChunks(ks)|)
    decreases |ks|
  {
    hide OnByte, Feed, Emit, ChunkOk, PrintChunk;
    if ks == [] {
      NoBytes(r, c);
    } else {
      var k, rest := ks[0], ks[1..];
      assert k in ks && forall x :: x in rest ==> x in ks;
      FeedAppend(r, c, PrintChunk(k.line, k.data), PrintChunks(rest));
      OneChunk(r, c, k);
      var c1 := Feed(r, c, PrintChunk(k.line, k.data));
      ChunksRead(r, c1, rest);
      if DataOf(rest) == "" {
        assert DataOf(ks) == k.data;
      } else {
        EmitEmit(c.trace, KBody, k.data, DataOf(rest));
      }
    }
  }

  lemma OneChunk(r: Rules, c: Cfg, k: Piece)
    requires AtChunk(r, c, 0) && ChunkOk(k)
    ensures k.data != ""
    ensures Feed(r, c, PrintChunk(k.line, k.data)) ==
              Went(c, c.p.(contentLength := 0), Emit(c.trace, Data(KBody, k.data)), |PrintChunk(k.line, k.data)|)
  {
    hide OnByte, Feed, Emit, PrintChunk, Hexadecimal, ChunkText;
    ChunkReads(r, c, k.line, k.data);
  }

  /** The empty line after the trailers completes the message. */
  lemma TrailersEnd(r: Rules, c: Cfg, eol: string)
    requires AtField(r, c, |eol|) && IsLineEnd(eol) && c.p == Read(r, c.p, 0) && c.p.flags.trailing
    ensures var p := Read(r, c.p, |eol|);
            Feed(r, c, eol) == Went(c, p.(state := NewMessage(p)), Emit(c.trace, MessageComplete), |eol|)
  {
    hide OnByte;
    EmptyLineReads(r, c, eol);
    var d := BeforeLf(r, c, eol);
    HeaderByte(r, d, LF);
    var z := Read(r, d.p, 1);
    assert Arm(z, LF, 1) == Completing(z, Consume);
    hide Arm, Emit;
  }

  /** The last chunk's size line, the trailers and the empty line. */
  datatype Ending = Ending(last: ChunkLine, trailers: seq<HeaderLine>, eol: string)

  /** What stays counted when the trailers have been read. */
  function TrailerText(e: Ending): string {
    PrintAll(e.trailers) + e.eol
  }

  function PrintEnding(e: Ending): string {
    PrintSize(e.last) + TrailerText(e)
  }

  predicate EndingOk(e: Ending) {
    && ChunkText(e.last) && |PrintSize(e.last)| <= HTTP_MAX_HEADER_SIZE && Hexadecimal(e.last.size) == 0
    && AllWellFormed(e.trailers) && AllLengthsOk(e.trailers) && IsLineEnd(e.eol)
    && |TrailerText(e)| <= HTTP_MAX_HEADER_SIZE
  }

  /** The flags when the trailers have been read: they count as headers do. */
  function TrailerFlags(f: Flags, e: Ending): Flags {
    FlaggedAll(f.(trailing := true), e.trailers)
  }

  predicate Ended(r: Rules, c: Cfg, e: Ending, d: Cfg) {
    && d == Went(c, d.p, Emit(DeliveredAll(c.trace, e.trailers), MessageComplete), |PrintEnding(e)|)
    && d.p.state == NewMessage(d.p) && d.p.flags == TrailerFlags(c.p.flags, e)
    && d.p == Read(r, d.p, 0) && (r.counting ==> d.p.nread == |TrailerText(e)|)
    && d.p == c.p.(state := d.p.state, flags := d.p.flags, contentLength := d.p.contentLength,
                   nread := d.p.nread, headerState := d.p.headerState, index := d.p.index)
  }

  lemma EndingReads(r: Rules, c: Cfg, e: Ending)
    requires AtChunk(r, c, 0) && EndingOk(e)
    ensures Ended(r, c, e, Feed(r, c, PrintEnding(e)))
  {
    hide OnByte, Feed, Emit, Hexadecimal, ChunkText, PrintSize, AllWellFormed, AllLengthsOk;
    hide FlaggedAll, LengthAll, DeliveredAll, PrintAll, NewMessage;
    SizeLineReads(r, c, e.last);
    FeedAppend(r, c, PrintSize(e.last), TrailerText(e));
    var c1 := Feed(r, c, PrintSize(e.last));
    FeedAppend(r, c1, PrintAll(e.trailers), e.eol);
    var d := BlockReads(r, c1, e.trailers, e.eol[0]);
    var c2 := Feed(r, c1, PrintAll(e.trailers));
    FeedSame(r, c2, d, e.eol);
    FlagsMean(c1.p.flags, e.trailers);
    TrailersEnd(r, d, e.eol);
    NewMessageStays(Read(r, d.p, |e.eol|));
  }

  /** NEW_MESSAGE does not look at the state. */
  lemma NewMessageStays(p: Parser)
    ensures NewMessage(p.(state := NewMessage(p))) == NewMessage(p)
  {
  }
}
