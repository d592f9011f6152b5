/**
 The fields of a URL divide it: they come in order without overlap, and what is in none of
 them is a delimiter.
 */
module UrlPartition {
  import opened Chars
  import opened Types
  import opened UrlChar
  import opened Arms
  import opened Execute
  import opened Reference
  import opened Steps
  import opened RequestLine
  import opened UrlFields
  import opened UrlSpans
  import opened UrlParser

  /** The server part up to byte i, when that byte belongs to it. */
  lemma ServerUpTo(text: string, connect: bool, i: nat)
    requires i < |text| && PartsFit(text, connect) && PartAt(text, connect, i) == Some(Host)
    ensures var host := PartText(text[..i + 1], connect, Host);
            var before := PartText(text[..i], connect, Host);
            && host == before + [text[i]] && host <= PartText(text, connect, Host)
            && HostRun(HostOpening(text, connect), before).Some?
            && HostRun(HostOpening(text, connect), host).Some?
            && HostRun(HostOpening(text, connect), host)
            == ParseHostChar(HostRun(HostOpening(text, connect), before).value, text[i])
  {
    hide ParseHostChar, UrlRun, PartAfter, HostOpening;
    ServerFits(text, connect, i);
    var upTo := text[..i + 1];
    assert upTo[..i] == text[..i] && upTo[i] == text[i];
    var host := PartText(upTo, connect, Host);
    PartTextGrows(text, connect, Host, i + 1);
    HostForward(HostOpening(text, connect), PartText(text, connect, Host), |host|);
    assert PartText(text, connect, Host)[..|host|] == host;
    assert host[..|host| - 1] == PartText(text[..i], connect, Host);
  }

  lemma UrlUpTo(text: string, connect: bool, i: nat)
    requires i < |text| && UrlRun(UrlStart(connect), text).Some?
    ensures UrlRun(UrlStart(connect), text[..i]).Some? && UrlRun(UrlStart(connect), text[..i + 1]).Some?
    ensures UrlRun(UrlStart(connect), text[..i + 1])
         == ParseUrlChar(UrlRun(UrlStart(connect), text[..i]).value, text[i])
  {
    hide ParseUrlChar;
    UrlForward(UrlStart(connect), text, i + 1);
    var upTo := text[..i + 1];
    assert upTo[..i] == text[..i] && upTo[i] == text[i];
  }

  /** A byte in no field is a delimiter. */
  lemma Delimiters(text: string, connect: bool, i: nat)
    requires i < |text| && PartsFit(text, connect) && FieldAt(text, connect, i).None?
    ensures text[i] in ":/?#@[]"
  {
    hide ParseUrlChar, ParseHostChar, UrlRun, HostRun, PartText, HostOpening, Part, HostPart;
    if PartAt(text, connect, i) == Some(Host) {
      ServerUpTo(text, connect, i);
      HostStepForward(HostRun(HostOpening(text, connect), PartText(text[..i], connect, Host)).value, text[i]);
    } else {
      UrlUpTo(text, connect, i);
      UrlStepForward(UrlRun(UrlStart(connect), text[..i]).value, text[i]);
    }
  }

  /** A field's place, from the states that give it. */
  lemma PlaceOfPart(s: UrlState, t: UrlState)
    requires Part(s).Some? && Part(t).Some? && UrlRank(s) <= UrlRank(t)
    ensures Place(Part(s).value) <= Place(Part(t).value)
    ensures Part(s) != Some(Host) ==> Place(Part(s).value) == 0 || Place(Part(s).value) > 3
    ensures Part(s) != Part(t) && Part(t) == Some(Host) ==> Place(Part(s).value) == 0
    ensures Part(s) != Part(t) && Part(s) == Some(Host) ==> Place(Part(t).value) > 3
  {
  }

  lemma PlaceOfHostPart(s: HostState, t: HostState)
    requires HostPart(s).Some? && HostPart(t).Some? && HostRank(s) <= HostRank(t)
    ensures Place(HostPart(s).value) <= Place(HostPart(t).value)
  {
  }

  lemma PlaceInServer(f: Field)
    ensures InServer(f) <==> 1 <= Place(f) <= 3
  {
  }

  /** Fields come in the order in which a URL has them. */
  lemma FieldOrder(text: string, connect: bool, i: nat, j: nat)
    requires i <= j < |text| && PartsFit(text, connect)
    requires FieldAt(text, connect, i).Some? && FieldAt(text, connect, j).Some?
    ensures Place(FieldAt(text, connect, i).value) <= Place(FieldAt(text, connect, j).value)
  {
    hide ParseUrlChar, ParseHostChar, UrlRun, HostRun, PartText, HostOpening, Part, HostPart, Place;
    UrlUpTo(text, connect, i);
    UrlUpTo(text, connect, j);
    assert text[..j + 1][..i + 1] == text[..i + 1];
    UrlForward(UrlStart(connect), text[..j + 1], i + 1);
    var s, t := UrlRun(UrlStart(connect), text[..i + 1]).value, UrlRun(UrlStart(connect), text[..j + 1]).value;
    PlaceOfPart(s, t);
    var start := HostOpening(text, connect);
    HostPartsInServer(start, PartText(text[..i + 1], connect, Host));
    HostPartsInServer(start, PartText(text[..j + 1], connect, Host));
    PlaceInServer(FieldAt(text, connect, i).value);
    PlaceInServer(FieldAt(text, connect, j).value);
    if Part(s) == Some(Host) && Part(t) == Some(Host) {
      ServerOrder(text, connect, i, j);
    }
  }

  lemma ServerOrder(text: string, connect: bool, i: nat, j: nat)
    requires i <= j < |text| && PartsFit(text, connect)
    requires PartAt(text, connect, i) == PartAt(text, connect, j) == Some(Host)
    requires FieldAt(text, connect, i).Some? && FieldAt(text, connect, j).Some?
    ensures Place(FieldAt(text, connect, i).value) <= Place(FieldAt(text, connect, j).value)
  {
    hide ParseUrlChar, ParseHostChar, UrlRun, HostRun, PartText, HostOpening, Part, HostPart, Place;
    var start := HostOpening(text, connect);
    ServerUpTo(text, connect, i);
    ServerUpTo(text, connect, j);
    assert text[..j + 1][..i + 1] == text[..i + 1];
    PartTextGrows(text[..j + 1], connect, Host, i + 1);
    var a, b := PartText(text[..i + 1], connect, Host), PartText(text[..j + 1], connect, Host);
    assert b[..|a|] == a;
    HostForward(start, b, |a|);
    PlaceOfHostPart(HostRun(start, a).value, HostRun(start, b).value);
  }

  lemma NoneLeft(o: Option<Field>)
    requires forall f :: o != Some(f)
    ensures o.None?
  {
    match o
    case None =>
    case Some(f) => assert false;
  }

  /**
   What a caller finds after http_parser_parse_url has returned 0: the fields are not empty,
   lie inside the URL, do not overlap and stand in order, and every byte outside of all of
   them is one of : / ? # @ [ ].
   */
  lemma Partition(text: string, connect: bool, fields: set<Field>, data: FieldData)
    requires Accepted(text, connect)
    requires forall f :: f in fields <==> HasField(text, connect, f)
    requires forall f :: f in fields ==> Covers(text, connect, f, data[f])
    ensures forall f :: f in fields ==> 0 < data[f].len && data[f].off + data[f].len <= |text|
    ensures forall f, g :: f in fields && g in fields && Place(f) < Place(g) ==>
              data[f].off + data[f].len <= data[g].off
    ensures forall i ::
              0 <= i < |text| && (forall f :: f in fields ==> !(data[f].off <= i < data[f].off + data[f].len)) ==>
              text[i] in ":/?#@[]"
  {
    hide FieldAt, PartsFit, Place;
    forall f | f in fields
      ensures 0 < data[f].len
    {
      var i :| 0 <= i < |text| && FieldAt(text, connect, i) == Some(f);
    }
    forall f, g | f in fields && g in fields && Place(f) < Place(g)
      ensures data[f].off + data[f].len <= data[g].off
    {
      var i, j := data[f].off + data[f].len - 1, data[g].off;
      assert FieldAt(text, connect, i) == Some(f) && FieldAt(text, connect, j) == Some(g);
      if j <= i {
        FieldOrder(text, connect, j, i);
      }
    }
    forall i | 0 <= i < |text| && (forall f :: f in fields ==> !(data[f].off <= i < data[f].off + data[f].len))
      ensures text[i] in ":/?#@[]"
    {
      forall f
        ensures FieldAt(text, connect, i) != Some(f)
      {
        if f !in fields {
          assert !HasField(text, connect, f);
        }
      }
      NoneLeft(FieldAt(text, connect, i));
      Delimiters(text, connect, i);
    }
  }

  /**
   The two users of the URL automaton agree: of a URL that the stream parser has let through,
   http_parser_parse_url can only reject the host, the port, or fields that CONNECT forbids.
   */
  lemma StreamedUrl(r: Rules, c: Cfg, url: string, b: char)
    requires UrlText(url) && AtUrl(r, c, |url| + 1) && EndsUrl(b)
    requires Feed(r, c, url + [b]).stop != Failed
    ensures var connect := c.p.meth == CONNECT;
            Accepted(url, connect)
            <==>
            && (PartText(url, connect, Schema) != "" || PartText(url, connect, Host) != "" ==> HostFits(url, connect))
            && (connect ==> forall f :: HasField(url, connect, f) <==> f == Host || f == Port)
            && PortOf(url, connect) <= 0xFFFF
  {
    hide Feed, UrlRun, PartText, HostFits, HasField, PortOf;
    UrlAgreement(r, c, url, b);
  }
}
