/**
 What http_parser_parse_url takes, and the fields it finds, by the text of the URL alone.
 */
module UrlGrammar {
  import opened Chars
  import opened Types
  import opened UrlChar
  import opened Arms
  import opened Execute
  import opened Reference
  import opened Steps
  import opened Lengths
  import opened UrlFields
  import opened UrlSpans
  import opened UrlText
  import Numbers
  import RequestLine
  import HostText

  /** There has to be a server part after a schema, and there may be one after CONNECT. */
  predicate HasServer(u: Pieces) {
    u.schema.Some? || u.server != ""
  }

  /** text is put together from these pieces. */
  predicate Composed(text: string, connect: bool, u: Pieces, a: HostText.Authority) {
    && Proper(u, connect) && text == PrintUrl(u)
    && (HasServer(u) ==> HostText.ProperAuthority(a) && u.server == HostText.PrintAuthority(a))
  }

  /** Where field f stands; an empty span if it is not there. */
  function SpanOf(u: Pieces, a: HostText.Authority, f: Field): Span {
    match f
    case Schema => if u.schema.Some? then Span(0, |u.schema.value|) else NO_SPAN
    case UserInfo => if HasServer(u) && a.userInfo.Some? then Span(ServerFrom(u), |a.userInfo.value|) else NO_SPAN
    case Host => if HasServer(u) then Span(ServerFrom(u) + HostText.HostFrom(a), |a.host|) else NO_SPAN
    case Port =>
      if HasServer(u) && a.port.Some? then Span(ServerFrom(u) + HostText.PortFrom(a), |a.port.value|) else NO_SPAN
    case Path => Span(PathFrom(u), |u.path|)
    case Query => if u.query.Some? then Span(PathTo(u) + 1, |u.query.value|) else NO_SPAN
    case Fragment =>
      if u.fragment.Some? then Span(FragmentFrom(u), |u.fragment.value| - Hashes(u.fragment.value)) else NO_SPAN
  }

  /** The text of field f; the number signs that begin a fragment do not belong to it. */
  function TextOf(u: Pieces, a: HostText.Authority, f: Field): string {
    match f
    case Schema => if u.schema.Some? then u.schema.value else ""
    case UserInfo => if HasServer(u) && a.userInfo.Some? then a.userInfo.value else ""
    case Host => if HasServer(u) then a.host else ""
    case Port => if HasServer(u) && a.port.Some? then a.port.value else ""
    case Path => u.path
    case Query => if u.query.Some? then u.query.value else ""
    case Fragment => if u.fragment.Some? then u.fragment.value[Hashes(u.fragment.value)..] else ""
  }

  // ----- the server part

  lemma PrefixPart(text: string, connect: bool, n: nat, i: nat)
    requires i < n <= |text|
    ensures PartAt(text[..n], connect, i) == PartAt(text, connect, i)
  {
    hide PartAfter;
    assert text[..n][..i + 1] == text[..i + 1];
  }

  lemma ServerTextIs(u: Pieces, connect: bool, n: nat)
    requires Proper(u, connect) && ServerFrom(u) <= n <= PathFrom(u)
    ensures n <= |PrintUrl(u)| && PartText(PrintUrl(u)[..n], connect, Host) == u.server[..n - ServerFrom(u)]
  {
    hide Proper, PartAt, Hashes, PartText;
    PrintedLength(u);
    var text := PrintUrl(u);
    var s := Span(ServerFrom(u), n - ServerFrom(u));
    forall i | 0 <= i < n
      ensures PartAt(text[..n], connect, i) == Some(Host) <==> s.off <= i < s.off + s.len
    {
      PrefixPart(text, connect, n, i);
      PartsAre(u, connect, i);
    }
    PartTextIs(text[..n], connect, Host, s);
    ServerSlice(u, n);
  }

  lemma ServerSlice(u: Pieces, n: nat)
    requires ServerFrom(u) <= n <= PathFrom(u)
    ensures n <= |PrintUrl(u)| && PrintUrl(u)[..n][ServerFrom(u)..n] == u.server[..n - ServerFrom(u)]
  {
    hide SchemaText, QueryText, FragmentText;
    var k := n - ServerFrom(u);
    assert PrintUrl(u) == SchemaText(u) + u.server + (u.path + QueryText(u) + FragmentText(u));
    Beginning(SchemaText(u), u.server, u.path + QueryText(u) + FragmentText(u), k);
    assert (SchemaText(u) + u.server[..k])[|SchemaText(u)|..] == u.server[..k];
  }

  lemma AllServerTextIs(u: Pieces, connect: bool)
    requires Proper(u, connect)
    ensures PartText(PrintUrl(u), connect, Host) == u.server
  {
    hide Proper, PartAt, Hashes, PartText;
    PrintedLength(u);
    var text := PrintUrl(u);
    var s := Span(ServerFrom(u), |u.server|);
    forall i | 0 <= i < |text|
      ensures PartAt(text, connect, i) == Some(Host) <==> s.off <= i < s.off + s.len
    {
      PartsAre(u, connect, i);
    }
    PartTextIs(text, connect, Host, s);
    assert text[s.off..s.off + s.len] == u.server;
  }

  lemma SchemaTextIs(u: Pieces, connect: bool)
    requires Proper(u, connect)
    ensures PartText(PrintUrl(u), connect, Schema) == if u.schema.Some? then u.schema.value else ""
  {
    hide Proper, PartAt, Hashes, PartText;
    PrintedLength(u);
    var text := PrintUrl(u);
    var s := Span(0, if u.schema.Some? then |u.schema.value| else 0);
    forall i | 0 <= i < |text|
      ensures PartAt(text, connect, i) == Some(Schema) <==> s.off <= i < s.off + s.len
    {
      PartsAre(u, connect, i);
    }
    PartTextIs(text, connect, Schema, s);
    assert text[0..s.len] == if u.schema.Some? then u.schema.value else "";
  }

  // ----- the fields

  /** The field that byte i stands in. */
  function FieldBy(u: Pieces, a: HostText.Authority, i: nat): Option<Field> {
    if ServerFrom(u) <= i < PathFrom(u) then HostText.PieceAt(a, i - ServerFrom(u)) else UrlText.PieceAt(u, i)
  }

  lemma FieldsAre(text: string, connect: bool, u: Pieces, a: HostText.Authority, i: nat)
    requires Composed(text, connect, u, a) && i < |text|
    ensures FieldAt(text, connect, i) == FieldBy(u, a, i)
  {
    hide Proper, PartText, HostPartAfter, PartAfter, PrintUrl, Hashes, HostText.ProperAuthority;
    hide HostText.PrintAuthority;
    PartsAre(u, connect, i);
    if ServerFrom(u) <= i < PathFrom(u) {
      var k := i + 1 - ServerFrom(u);
      ServerTextIs(u, connect, i + 1);
      AllServerTextIs(u, connect);
      HostText.PartsAre(a, k - 1);
    } else {
      NoHostElsewhere(u, i);
    }
  }

  lemma NoHostElsewhere(u: Pieces, i: nat)
    requires !(ServerFrom(u) <= i < PathFrom(u))
    ensures UrlText.PieceAt(u, i) != Some(Host)
  {
  }

  // ----- slices

  lemma Middle(pre: string, s: string, post: string)
    ensures (pre + s + post)[|pre|..|pre| + |s|] == s
  {
  }

  lemma SubSlice(text: string, s: string, b: nat, from: nat, n: nat)
    requires b + |s| <= |text| && text[b..b + |s|] == s && from + n <= |s|
    ensures text[b + from..b + from + n] == s[from..from + n]
  {
    var x, y := text[b + from..b + from + n], s[from..from + n];
    forall k | 0 <= k < n ensures x[k] == y[k] {
      assert s[from + k] == text[b + (from + k)];
    }
  }

  lemma UserStands(a: HostText.Authority)
    requires a.userInfo.Some?
    ensures var u := a.userInfo.value;
            |u| <= |HostText.PrintAuthority(a)| && HostText.PrintAuthority(a)[0..|u|] == u
  {
    var post := "@" + HostText.HostText(a) + HostText.PortText(a);
    assert HostText.PrintAuthority(a) == "" + a.userInfo.value + post;
    Middle("", a.userInfo.value, post);
  }

  lemma HostStands(a: HostText.Authority)
    ensures var h := HostText.HostFrom(a);
            h + |a.host| <= |HostText.PrintAuthority(a)| && HostText.PrintAuthority(a)[h..h + |a.host|] == a.host
  {
    hide HostText.UserText, HostText.PortText;
    var pre := HostText.UserText(a) + if a.bracketed then "[" else "";
    var post := (if a.bracketed then "]" else "") + HostText.PortText(a);
    assert HostText.PrintAuthority(a) == pre + a.host + post;
    Middle(pre, a.host, post);
  }

  lemma PortStands(a: HostText.Authority)
    requires a.port.Some?
    ensures var p := HostText.PortFrom(a);
            && p + |a.port.value| == |HostText.PrintAuthority(a)|
            && HostText.PrintAuthority(a)[p..p + |a.port.value|] == a.port.value
  {
    hide HostText.UserText, HostText.HostText;
    var pre := HostText.UserText(a) + HostText.HostText(a) + ":";
    assert HostText.PrintAuthority(a) == pre + a.port.value + "";
    Middle(pre, a.port.value, "");
  }

  /** s is a span of text that holds t. */
  predicate Holds(text: string, s: Span, t: string) {
    s.off + s.len <= |text| && s.len == |t| && text[s.off..s.off + s.len] == t
  }

  lemma ServerStands(u: Pieces)
    ensures PathFrom(u) <= |PrintUrl(u)| && PrintUrl(u)[ServerFrom(u)..PathFrom(u)] == u.server
  {
    hide SchemaText, QueryText, FragmentText;
    var post := u.path + QueryText(u) + FragmentText(u);
    assert PrintUrl(u) == SchemaText(u) + u.server + post;
    Middle(SchemaText(u), u.server, post);
  }

  lemma InServerStands(u: Pieces, a: HostText.Authority, f: Field)
    requires InServer(f) && HasServer(u) && u.server == HostText.PrintAuthority(a)
    ensures Holds(PrintUrl(u), SpanOf(u, a, f), TextOf(u, a, f))
  {
    hide HostText.HostFrom, HostText.PortFrom, HostText.PrintAuthority, PrintUrl, ServerFrom, PathFrom;
    ServerStands(u);
    ServerEnds(u);
    var b := ServerFrom(u);
    match f
    case UserInfo =>
      if a.userInfo.Some? {
        UserStands(a);
        SubSlice(PrintUrl(u), u.server, b, 0, |a.userInfo.value|);
      }
    case Host =>
      HostStands(a);
      SubSlice(PrintUrl(u), u.server, b, HostText.HostFrom(a), |a.host|);
    case Port =>
      if a.port.Some? {
        PortStands(a);
        SubSlice(PrintUrl(u), u.server, b, HostText.PortFrom(a), |a.port.value|);
      }
  }

  lemma ServerEnds(u: Pieces)
    ensures PathFrom(u) == ServerFrom(u) + |u.server|
  {
  }

  lemma PathStands(u: Pieces)
    ensures Holds(PrintUrl(u), Span(PathFrom(u), |u.path|), u.path)
  {
    hide SchemaText, QueryText, FragmentText;
    var pre, post := SchemaText(u) + u.server, QueryText(u) + FragmentText(u);
    assert PrintUrl(u) == pre + u.path + post;
    Middle(pre, u.path, post);
  }

  lemma QueryStands(u: Pieces)
    requires u.query.Some?
    ensures Holds(PrintUrl(u), Span(PathTo(u) + 1, |u.query.value|), u.query.value)
  {
    hide SchemaText, FragmentText;
    var pre := SchemaText(u) + u.server + u.path + "?";
    assert PrintUrl(u) == pre + u.query.value + FragmentText(u);
    Middle(pre, u.query.value, FragmentText(u));
  }

  lemma FragmentStands(u: Pieces)
    requires u.fragment.Some?
    ensures var n := Hashes(u.fragment.value);
            Holds(PrintUrl(u), Span(FragmentFrom(u), |u.fragment.value| - n), u.fragment.value[n..])
  {
    hide SchemaText, QueryText, Hashes;
    var n := Hashes(u.fragment.value);
    var pre := SchemaText(u) + u.server + u.path + QueryText(u) + ("#" + u.fragment.value[..n]);
    assert PrintUrl(u) == pre + u.fragment.value[n..] + "";
    Middle(pre, u.fragment.value[n..], "");
  }

  lemma SchemaStands(u: Pieces)
    requires u.schema.Some?
    ensures Holds(PrintUrl(u), Span(0, |u.schema.value|), u.schema.value)
  {
    hide QueryText, FragmentText;
    var post := "://" + u.server + u.path + QueryText(u) + FragmentText(u);
    assert PrintUrl(u) == "" + u.schema.value + post;
    Middle("", u.schema.value, post);
  }

  lemma Nowhere(text: string)
    ensures Holds(text, NO_SPAN, "")
  {
  }

  lemma PieceStands(text: string, connect: bool, u: Pieces, a: HostText.Authority, f: Field)
    requires Composed(text, connect, u, a)
    ensures Holds(text, SpanOf(u, a, f), TextOf(u, a, f))
  {
    hide Proper, Hashes, HostText.ProperAuthority, PrintUrl, HostText.PrintAuthority, Holds, PathFrom, PathTo;
    hide FragmentFrom;
    Nowhere(text);
    match f
    case Schema => if u.schema.Some? { SchemaStands(u); }
    case Path => PathStands(u);
    case Query => if u.query.Some? { QueryStands(u); }
    case Fragment => if u.fragment.Some? { FragmentStands(u); }
    case _ => if HasServer(u) { InServerStands(u, a, f); }
  }

  // ----- the fields of the URL

  /** Each field stands just where its piece stands, and is that piece. */
  lemma FieldsStand(text: string, connect: bool, u: Pieces, a: HostText.Authority, f: Field)
    requires Composed(text, connect, u, a)
    ensures Covers(text, connect, f, SpanOf(u, a, f)) && Holds(text, SpanOf(u, a, f), TextOf(u, a, f))
    ensures HasField(text, connect, f) <==> TextOf(u, a, f) != ""
  {
    hide FieldAt, Composed, SpanOf, TextOf, FieldBy;
    var s := SpanOf(u, a, f);
    PieceStands(text, connect, u, a, f);
    forall i | 0 <= i < |text|
      ensures FieldAt(text, connect, i) == Some(f) <==> s.off <= i < s.off + s.len
    {
      FieldsAre(text, connect, u, a, i);
      ByPlace(text, connect, u, a, f, i);
    }
    if s.len > 0 {
      assert FieldAt(text, connect, s.off) == Some(f);
    }
  }

  lemma ByPlace(text: string, connect: bool, u: Pieces, a: HostText.Authority, f: Field, i: nat)
    requires Composed(text, connect, u, a) && i < |text|
    ensures var s := SpanOf(u, a, f); FieldBy(u, a, i) == Some(f) <==> s.off <= i < s.off + s.len
  {
    hide Proper, Hashes, HostText.ProperAuthority;
    PrintedLength(u);
  }

  // ----- which URLs are taken

  function PortNumber(u: Pieces, a: HostText.Authority): nat {
    if HasServer(u) && a.port.Some? then Decimal(a.port.value) else 0
  }

  /** A host and a port, and nothing else; a question mark or number signs alone do not count. */
  predicate OnlyHostAndPort(u: Pieces, a: HostText.Authority) {
    forall f :: TextOf(u, a, f) != "" <==> f == Host || f == Port
  }

  /** The text is empty, or put together from pieces with a port that fits 16 bits; CONNECT wants host and port only. */
  ghost predicate Takes(text: string, connect: bool) {
    (text == "" && !connect) ||
    exists u, a ::
      Composed(text, connect, u, a) && PortNumber(u, a) <= 0xFFFF && (connect ==> OnlyHostAndPort(u, a))
  }

  lemma PortIs(text: string, connect: bool, u: Pieces, a: HostText.Authority)
    requires Composed(text, connect, u, a)
    ensures PortOf(text, connect) == PortNumber(u, a)
  {
    hide FieldAt, Composed, Decimal;
    FieldsStand(text, connect, u, a, Port);
    var s := SpanOf(u, a, Port);
    FieldTextIs(text, connect, Port, s, |text|);
    assert Decimal("") == 0 by { Numbers.NoDigits(); }
    assert FieldText(text, connect, Port, |text|) == TextOf(u, a, Port);
  }

  lemma ServerAsked(u: Pieces, connect: bool)
    requires Proper(u, connect)
    ensures HasServer(u) <==> PartText(PrintUrl(u), connect, Schema) != "" || PartText(PrintUrl(u), connect, Host) != ""
    ensures HostFits(PrintUrl(u), connect) <==>
              exists a :: HostText.ProperAuthority(a) && u.server == HostText.PrintAuthority(a)
  {
    hide PrintUrl, PartText, HostText.ProperAuthority, HostText.PrintAuthority, HostRun;
    SchemaTextIs(u, connect);
    AllServerTextIs(u, connect);
    HostText.HostRecognised(u.server);
  }

  lemma ComposedFits(text: string, connect: bool, u: Pieces, a: HostText.Authority)
    requires Composed(text, connect, u, a)
    ensures PartsFit(text, connect)
  {
    hide PrintUrl, PartText, HostFits, Proper, HostText.ProperAuthority, HostText.PrintAuthority, UrlRun;
    StateIs(u, connect);
    ServerAsked(u, connect);
  }

  lemma FitsComposed(text: string, connect: bool) returns (u: Pieces, a: HostText.Authority)
    requires PartsFit(text, connect) && text != ""
    ensures Composed(text, connect, u, a)
  {
    hide PrintUrl, PartText, HostFits, Proper, HostText.ProperAuthority, HostText.PrintAuthority, UrlRun, Reads;
    var s := UrlRun(UrlStart(connect), text).value;
    u := Decomposes(text, connect);
    a := HostText.Authority(None, false, "", None);
    Incomplete(text, connect, s, u);
    ServerAsked(u, connect);
    if HasServer(u) {
      a :| HostText.ProperAuthority(a) && u.server == HostText.PrintAuthority(a);
    }
  }

  /** A URL that ends before its server part does not fit: there is no host. */
  lemma Incomplete(text: string, connect: bool, s: UrlState, u: Pieces)
    requires Reads(text, connect, s, u) && text != "" && PartsFit(text, connect)
    ensures Proper(u, connect) && text == PrintUrl(u)
  {
    hide Proper, PrintUrl, SchemaOk, PartsFit;
    if s == ReqSchema {
      OnlySchema(text, text);
    } else if s == ReqSchemaSlash || s == ReqSchemaSlashSlash || s == ReqServerStart {
      assert SchemaText(u) == u.schema.value + "://";
      OnlySchema(text, u.schema.value);
    }
  }

  lemma OnlySchema(text: string, schema: string)
    requires SchemaOk(schema)
    requires text == schema || text == schema + ":" || text == schema + ":/" || text == schema + "://"
    ensures !PartsFit(text, false)
  {
    hide PartText, PartAt, SchemaOk, PartAfter;
    var v := Pieces(Some(schema), "", "/", None, None);
    assert Proper(v, false) by { SlashIsUrl('/'); hide UrlByte; }
    hide Proper;
    assert PrintUrl(v) == schema + "://" + "/";
    assert text == PrintUrl(v)[..|text|];
    hide PrintUrl;
    forall i | 0 <= i < |text|
      ensures PartAt(text, false, i) == if i < |schema| then Some(Schema) else None
    {
      PrefixPart(PrintUrl(v), false, |text|, i);
      PartsAre(v, false, i);
    }
    PartTextIs(text, false, Schema, Span(0, |schema|));
    PartTextIs(text, false, Host, NO_SPAN);
    assert text[0..|schema|] == schema && text[0..0] == "";
    NoHost(text, schema);
  }

  lemma NoHost(text: string, schema: string)
    requires PartText(text, false, Host) == "" && PartText(text, false, Schema) == schema && SchemaOk(schema)
    ensures !PartsFit(text, false)
  {
    hide PartText, UrlRun;
  }

  /**
   http_parser_parse_url takes a URL if and only if it is empty, or put together from a schema, a
   server part, a path, a query and a fragment as they may follow one another, with a host after a
   schema, a port of at most 65535, and after CONNECT a host and a port alone.
   */
  lemma AcceptedByText(text: string, connect: bool)
    ensures Accepted(text, connect) <==> Takes(text, connect)
  {
    hide Composed, PartsFit, HasField, TextOf, PortOf, PortNumber;
    if text == "" {
      EmptyUrl(connect);
    } else if Accepted(text, connect) {
      var u, a := FitsComposed(text, connect);
      FieldsOf(text, connect, u, a);
      PortIs(text, connect, u, a);
    }
    forall u, a | Composed(text, connect, u, a) && PortNumber(u, a) <= 0xFFFF && (connect ==> OnlyHostAndPort(u, a))
      ensures Accepted(text, connect)
    {
      ComposedFits(text, connect, u, a);
      FieldsOf(text, connect, u, a);
      PortIs(text, connect, u, a);
    }
  }

  lemma FieldsOf(text: string, connect: bool, u: Pieces, a: HostText.Authority)
    requires Composed(text, connect, u, a)
    ensures forall f :: HasField(text, connect, f) <==> TextOf(u, a, f) != ""
  {
    hide Composed, HasField, TextOf, Covers, Holds;
    forall f ensures HasField(text, connect, f) <==> TextOf(u, a, f) != "" {
      FieldsStand(text, connect, u, a, f);
    }
  }

  lemma EmptyUrl(connect: bool)
    ensures Accepted("", connect) <==> !connect
    ensures forall u, a :: !Composed("", connect, u, a)
  {
    forall u, a ensures !Composed("", connect, u, a) {
      if Composed("", connect, u, a) {
        NeverEmpty(u, connect);
      }
    }
    hide Composed;
    assert !HasField("", connect, Host);
  }

  lemma NeverEmpty(u: Pieces, connect: bool)
    requires Proper(u, connect)
    ensures PrintUrl(u) != ""
  {
    hide SchemaOk, ServerOk, PathOk, QueryOk, FragmentOk;
  }

  /**
   A result tells what the URL is put together from: just the fields that are not empty, each
   where its piece stands, and the number of the port.
   */
  ghost predicate Tells(text: string, connect: bool, fields: set<Field>, data: map<Field, Span>, port: nat) {
    forall u, a | Composed(text, connect, u, a) :: TellsPieces(u, a, fields, data, port)
  }

  predicate TellsPieces(u: Pieces, a: HostText.Authority, fields: set<Field>, data: map<Field, Span>, port: nat) {
    && (forall f :: f in fields <==> TextOf(u, a, f) != "")
    && (forall f :: f in fields ==> f in data && data[f] == SpanOf(u, a, f))
    && port == PortNumber(u, a)
  }

  lemma OneSpan(text: string, connect: bool, f: Field, s: Span, t: Span)
    requires Covers(text, connect, f, s) && Covers(text, connect, f, t) && s.len > 0 && t.len > 0
    ensures s == t
  {
    hide FieldAt;
    assert FieldAt(text, connect, s.off) == Some(f) && FieldAt(text, connect, t.off) == Some(f);
    assert FieldAt(text, connect, s.off + s.len - 1) == Some(f);
    assert FieldAt(text, connect, t.off + t.len - 1) == Some(f);
  }

  /** A result that has the fields that the automata find tells what the URL is put together from. */
  lemma FoundTells(text: string, connect: bool, fields: set<Field>, data: map<Field, Span>)
    requires forall f :: f in fields <==> HasField(text, connect, f)
    requires forall f :: f in fields ==> f in data && data[f].len > 0 && Covers(text, connect, f, data[f])
    ensures Tells(text, connect, fields, data, PortOf(text, connect))
  {
    hide Composed, HasField, TextOf, SpanOf, Covers, PortOf, PortNumber;
    forall u, a | Composed(text, connect, u, a)
      ensures TellsPieces(u, a, fields, data, PortOf(text, connect))
    {
      PortIs(text, connect, u, a);
      FieldsOf(text, connect, u, a);
      forall f | f in fields ensures data[f] == SpanOf(u, a, f) {
        FieldsStand(text, connect, u, a, f);
        NotEmpty(text, SpanOf(u, a, f), TextOf(u, a, f));
        OneSpan(text, connect, f, data[f], SpanOf(u, a, f));
      }
    }
  }

  lemma NotEmpty(text: string, s: Span, t: string)
    requires Holds(text, s, t) && t != ""
    ensures s.len > 0
  {
  }

  // ----- the URL of a request line

  lemma {:induction false} RunHasNoBlanks(s: UrlState, url: string)
    requires UrlRun(s, url).Some?
    ensures ' ' !in url && CR !in url && LF !in url
    decreases |url|
  {
    if url != "" {
      var n := |url| - 1;
      RunHasNoBlanks(s, url[..n]);
      NoBlankTaken(UrlRun(s, url[..n]).value, url[n]);
      assert url == url[..n] + [url[n]];
    }
  }

  lemma NoBlankTaken(s: UrlState, ch: char)
    requires ParseUrlChar(s, ch).Some?
    ensures ch != ' ' && ch != CR && ch != LF
  {
  }

  lemma ProperIsUrl(u: Pieces, connect: bool)
    requires Proper(u, connect)
    ensures RequestLine.UrlText(PrintUrl(u))
  {
    hide Proper, PrintUrl, UrlRun;
    StateIs(u, connect);
    NeverEmpty(u, connect);
    RunHasNoBlanks(UrlStart(connect), PrintUrl(u));
  }

  /** The stream parser gets past the URL of a request line if and only if its text is a proper URL. */
  lemma RequestUrlByText(r: Rules, c: Cfg, url: string, b: char)
    requires RequestLine.UrlText(url) && RequestLine.AtUrl(r, c, |url| + 1) && RequestLine.EndsUrl(b)
    ensures var d := Feed(r, c, url + [b]);
            if exists u :: Proper(u, c.p.meth == CONNECT) && url == PrintUrl(u) then
              d == Went(c, RequestLine.AfterUrl(Read(r, c.p, |url| + 1), b), Emit(c.trace, Data(KUrl, url)), |url| + 1)
            else RefusedWith(d, InvalidUrl)
  {
    hide Feed, UrlRun, Emit, Proper, PrintUrl;
    RequestLine.UrlAgreement(r, c, url, b);
    UrlRecognised(url, c.p.meth == CONNECT);
  }
}
