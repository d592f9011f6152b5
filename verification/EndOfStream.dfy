/**
 A session in which the order of the callbacks is broken: a second call without data after a
 response that only the end of the stream ends.
 */
module EndOfStream {
  import opened Types
  import opened Arms
  import opened Execute
  import opened Invariant
  import opened Reference
  import opened Lengths
  import opened Bridge
  import opened Refinement
  import HeaderMatch
  import Headers
  import ResponseLine
  import Messages
  import RoundTrip
  import Grammar

  const TEXT := "HTTP/1.1 200 OK\r\n\r\n"

  /** A response without headers: nothing says how long its body is. */
  function OpenEnded(): Messages.Message {
    var line := ResponseLine.Status("1", "1", "", "200", Some("OK"), "\r\n");
    Messages.Message("", Messages.Answering(line), [], "\r\n", Messages.Plain(""))
  }

  lemma NumbersAre()
    ensures Decimal("1") == 1 && Decimal("200") == 200
  {
    assert "1"[..0] == "" && "200"[..2] == "20" && "20"[..1] == "2" && "2"[..0] == "";
  }

  lemma TextIs()
    ensures Messages.Text(OpenEnded()) == Messages.HeadText(OpenEnded()) == TEXT
  {
    var l := OpenEnded().line.status;
    assert ResponseLine.Print(l) == "HTTP/1.1 200 OK\r\n";
    hide ResponseLine.Print;
    assert Headers.PrintAll([]) == "";
  }

  lemma OpenEndedIs()
    ensures RoundTrip.Unbounded(OpenEnded())
  {
    NumbersAre();
    hide Decimal;
  }

  /** Both calls complete the message, so the second one breaks the order. */
  lemma SecondEof(skips: seq<Event> -> bool, on: Callbacks)
    requires Agrees(on, Rules(true, false, skips)) && !skips(RoundTrip.AfterHead([], OpenEnded()))
    ensures var s := Grammar.Session(Init(Response), []);
            var ops := [Grammar.Give(TEXT), Grammar.Give(""), Grammar.Give("")];
            && Joined(Grammar.DoAll(s, ops[..2], on).trace) == Messages.EventsOf(OpenEnded())
            && Grammar.Overrun(s, ops, on, false) && !Grammar.InOrder(Grammar.DoAll(s, ops, on))
            && Grammar.InOrder(Grammar.DoAll(s, ops[..2], on))
  {
    hide Exec, Messages.EventsOf, RoundTrip.AfterHead, RoundTrip.Unbounded, Joined, Grammar.InOrder;
    var m, p := OpenEnded(), Init(Response);
    OpenEndedIs();
    TextIs();
    var pieces := [TEXT];
    assert Concat(pieces) == TEXT && Messages.TextAll([]) + Messages.Text(m) == TEXT by {
      assert Concat(pieces[1..]) == "";
    }
    RoundTrip.PrintParseUntilEof([], m, pieces, skips, on);
    var o := Exec(p, TEXT, on, []);
    OneCall(p, TEXT, on, []);
    var e := Exec(o.p, "", on, o.trace);
    var s0, s1, s2 := Grammar.Session(p, []), Grammar.Session(o.p, o.trace), Grammar.Session(e.p, e.trace);
    var give, eof := Grammar.Give(TEXT), Grammar.Give("");
    var ops := [give, eof, eof];
    assert ops[..2] == [give, eof] && ops[1..] == [eof, eof] && [eof, eof][1..] == [eof] && [eof][1..] == [];
    assert Grammar.Do(s0, give, on) == s1 && Grammar.Do(s1, eof, on) == s2;
    hide Grammar.Do;
    assert Grammar.DoAll(s1, [eof], on) == Grammar.DoAll(s2, [], on) == s2;
    assert Grammar.DoAll(s0, ops[..2], on) == s2;
    assert Grammar.Overrun(s2, [eof], on, true);
    assert Grammar.CompletesAtEof(s1, eof);
    assert Grammar.Overrun(s1, [eof, eof], on, false);
    assert Grammar.Overrun(s0, ops, on, false);
    Grammar.CallbackOrder(Response, ops, on);
    assert !Grammar.Overrun(s2, [], on, true);
    assert !Grammar.Overrun(s1, [eof], on, false);
    assert !Grammar.Overrun(s0, [give, eof], on, false);
    Grammar.CallbackOrder(Response, ops[..2], on);
  }
}
