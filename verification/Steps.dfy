/**
 Single bytes in the reference, for the lemmas about particular stretches of a message: a
 header byte is counted, and then the switch does what its arm says.
 */
module Steps {
  import opened Chars
  import opened Types
  import opened Arms
  import opened Execute
  import opened Reference

  /** The parser with n header bytes more counted. */
  function Read(r: Rules, p: Parser, n: nat): Parser {
    p.(nread := if r.counting then p.nread + n else 1)
  }

  /** There is room for n header bytes more. */
  predicate Room(r: Rules, p: Parser, n: nat) {
    r.counting ==> p.nread + n <= HTTP_MAX_HEADER_SIZE
  }

  /** c after n bytes more, with parser p and record t. */
  function Went(c: Cfg, p: Parser, t: seq<Event>, n: nat): Cfg {
    Cfg(p, t, Running, c.taken + n)
  }

  /** The parser takes LF alone for CR LF at the end of a line. */
  predicate IsLineEnd(s: string) {
    s == "\r\n" || s == "\n"
  }

  /** The run has failed with this errno. */
  predicate RefusedWith(c: Cfg, e: Errno) {
    c.stop == Failed && c.p.errno == e
  }

  lemma FeedOne(r: Rules, c: Cfg, b: char, rest: string)
    ensures Feed(r, c, [b] + rest) == Feed(r, OnByte(r, c, b), rest)
  {
    hide OnByte;
    assert ([b] + rest)[1..] == rest;
  }

  lemma NoBytes(r: Rules, c: Cfg)
    ensures Feed(r, c, "") == c
  {
  }

  lemma FeedByte(r: Rules, c: Cfg, b: char)
    ensures Feed(r, c, [b]) == OnByte(r, c, b)
  {
    hide OnByte;
    FeedOne(r, c, b, []);
    assert [b] + [] == [b];
  }

  lemma FeedSnoc(r: Rules, c: Cfg, bytes: string, b: char)
    ensures Feed(r, c, bytes + [b]) == OnByte(r, Feed(r, c, bytes), b)
  {
    hide OnByte, Feed;
    FeedAppend(r, c, bytes, [b]);
    FeedByte(r, Feed(r, c, bytes), b);
  }

  lemma TwoBytes(r: Rules, c: Cfg, a: char, b: char)
    ensures Feed(r, c, [a, b]) == OnByte(r, OnByte(r, c, a), b)
  {
    hide OnByte;
    FeedSnoc(r, c, [a], b);
    FeedByte(r, c, a);
    assert [a] + [b] == [a, b];
  }

  /** A byte in a state of the header part. */
  lemma HeaderByte(r: Rules, c: Cfg, b: char)
    requires c.stop == Running && ParsingHeader(c.p.state) && Room(r, c.p, 1)
    ensures OnByte(r, c, b) == Redo(r, c.(p := Read(r, c.p, 1)), b)
  {
    hide Redo;
  }

  /** A header byte whose arm ends quietly in q. */
  lemma QuietByte(r: Rules, c: Cfg, b: char, q: Parser)
    requires c.stop == Running && ParsingHeader(c.p.state) && Room(r, c.p, 1)
    requires Held(c.p.state) == None && Arm(Read(r, c.p, 1), b, 1) == Quietly(q)
    ensures OnByte(r, c, b) == Went(c, Norm(r, q), c.trace, 1)
  {
    HeaderByte(r, c, b);
    hide Arm;
  }

  /** A header byte that goes on with the run of kind k, marked before or now. */
  lemma HeldByte(r: Rules, c: Cfg, b: char, q: Parser, k: Kind)
    requires c.stop == Running && ParsingHeader(c.p.state) && Room(r, c.p, 1)
    requires var a := Arm(Read(r, c.p, 1), b, 1);
             (Held(c.p.state) == Some(k) && a == Quietly(q)) || a == Quietly(q).(mark := Some(k))
    ensures OnByte(r, c, b) == Went(c, Norm(r, q), Emit(c.trace, Data(k, [b])), 1)
  {
    HeaderByte(r, c, b);
    hide Arm, Emit;
  }

  /** A header byte that ends a run of kind k. */
  lemma EndByte(r: Rules, c: Cfg, b: char, q: Parser, s: State, k: Kind)
    requires c.stop == Running && ParsingHeader(c.p.state) && Room(r, c.p, 1) && k != KBody
    requires Arm(Read(r, c.p, 1), b, 1) == Delivering(q, s, k)
    ensures OnByte(r, c, b) == Went(c, Norm(r, q.(state := s)), Emit(c.trace, Data(k, [])), 1)
  {
    HeaderByte(r, c, b);
    hide Arm, Emit;
  }

  lemma EmitNothing(t: seq<Event>, k: Kind, s: string)
    ensures Emit(Emit(t, Data(k, s)), Data(k, [])) == Emit(t, Data(k, s))
  {
    EmitEmit(t, k, s, []);
    assert s + [] == s;
  }

  /** A byte of a body, which is not counted. */
  lemma BodyByte(r: Rules, c: Cfg, b: char)
    requires c.stop == Running && !ParsingHeader(c.p.state) && c.p == Norm(r, c.p)
    ensures OnByte(r, c, b) == Redo(r, c, b)
  {
    hide Redo;
  }
}
