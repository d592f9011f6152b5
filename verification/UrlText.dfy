/**
 URLs by their text. The URL automaton accepts just the texts that are put together from a
 schema, a server part, a path, a query and a fragment; and the part that it reads each byte in
 is the piece the byte stands in. The automaton does not enter into what is stated.
 */
module UrlText {
  import opened Chars
  import opened CharSets
  import opened Types
  import opened UrlChar
  import opened UrlFields
  import opened UrlSpans

  /** A URL in pieces. A query or a fragment may be there and empty. */
  datatype Pieces = Pieces(schema: Option<string>, server: string, path: string,
                           query: Option<string>, fragment: Option<string>)

  function SchemaText(u: Pieces): string {
    if u.schema.Some? then u.schema.value + "://" else ""
  }

  function QueryText(u: Pieces): string {
    if u.query.Some? then "?" + u.query.value else ""
  }

  function FragmentText(u: Pieces): string {
    if u.fragment.Some? then "#" + u.fragment.value else ""
  }

  function PrintUrl(u: Pieces): string {
    SchemaText(u) + u.server + u.path + QueryText(u) + FragmentText(u)
  }

  predicate SchemaOk(s: string) {
    s != "" && forall i :: 0 <= i < |s| ==> Letter(s[i])
  }

  predicate ServerByte(c: char) {
    UserInfoByte(c) || c == '[' || c == ']' || c == '@'
  }

  /** No two at-signs stand side by side. */
  predicate ServerOk(s: string) {
    && (forall i :: 0 <= i < |s| ==> ServerByte(s[i]))
    && forall i :: 0 < i < |s| && s[i] == '@' ==> s[i - 1] != '@'
  }

  predicate PathOk(s: string) {
    forall i :: 0 <= i < |s| ==> UrlByte(s[i])
  }

  predicate QueryOk(s: string) {
    forall i :: 0 <= i < |s| ==> UrlByte(s[i]) || s[i] == '?'
  }

  predicate FragmentOk(s: string) {
    forall i :: 0 <= i < |s| ==> UrlByte(s[i]) || s[i] == '?' || s[i] == '#'
  }

  /**
   What may stand in a request line: after CONNECT a server part, which may be followed by the
   other pieces; otherwise these alone, or after a schema and a server part. A path begins with a
   slash, or is or begins with an asterisk when nothing stands before it. A fragment does not
   follow the server part at once.
   */
  predicate Proper(u: Pieces, connect: bool) {
    && (u.schema.Some? ==> !connect && SchemaOk(u.schema.value))
    && ServerOk(u.server) && (u.server != "" ==> connect || u.schema.Some?)
    && PathOk(u.path)
    && (u.path != "" ==> u.path[0] == '/' || (u.path[0] == '*' && !connect && u.schema.None?))
    && (!connect && u.schema.None? ==> u.path != "")
    && (u.query.Some? ==> QueryOk(u.query.value))
    && (u.fragment.Some? ==> FragmentOk(u.fragment.value) && (u.path != "" || u.query.Some?))
    && (u.server != "" || u.path != "" || u.query.Some?)
  }

  /** The number signs that a fragment begins with; they do not belong to it. */
  function Hashes(s: string): (n: nat)
    ensures n <= |s|
  {
    if s == "" || s[0] != '#' then 0 else 1 + Hashes(s[1..])
  }

  // ----- where the automaton is after a whole URL

  function ServerState(s: string): UrlState {
    if s == "" then ReqServerStart else if s[|s| - 1] == '@' then ReqServerWithAt else ReqServer
  }

  function FragmentState(s: string): UrlState {
    if Hashes(s) == |s| then ReqFragmentStart else ReqFragment
  }

  function StateOf(u: Pieces): UrlState {
    if u.fragment.Some? then FragmentState(u.fragment.value)
    else if u.query.Some? then (if u.query.value == "" then ReqQueryStringStart else ReqQueryString)
    else if u.path != "" then ReqPath
    else ServerState(u.server)
  }

  lemma {:induction false} RunAppend(s: UrlState, a: string, b: string)
    ensures var t := UrlRun(s, a); UrlRun(s, a + b) == if t.None? then None else UrlRun(t.value, b)
    decreases |b|
  {
    hide ParseUrlChar;
    if b == "" {
      assert a + b == a;
    } else {
      var n := |b| - 1;
      assert (a + b)[..|a + b| - 1] == a + b[..n] && (a + b)[|a + b| - 1] == b[n];
      RunAppend(s, a, b[..n]);
    }
  }

  lemma RunSnoc(s: UrlState, a: string, ch: char)
    ensures var t := UrlRun(s, a); UrlRun(s, a + [ch]) == if t.None? then None else ParseUrlChar(t.value, ch)
  {
    hide ParseUrlChar;
    assert (a + [ch])[..|a|] == a;
  }

  lemma Classes(ch: char)
    ensures Letter(ch) == IsAlpha(ch) && UserInfoByte(ch) == IsUserInfoChar(ch) && UrlByte(ch) == IsUrlChar(ch)
  {
    Letters(ch);
    UserInfos(ch);
    Urls(ch);
    hide Letter, IsAlpha, UserInfoByte, IsUserInfoChar, UrlByte, IsUrlChar;
  }

  /** What is refused everywhere is in none of the classes. */
  lemma NoBlanks(ch: char)
    requires ch == ' ' || ch == CR || ch == LF || ch == '\t' || ch == '\U{000C}'
    ensures !IsAlpha(ch) && !IsUserInfoChar(ch) && !IsUrlChar(ch)
  {
  }

  /** One byte, for the states that are not within a schema. */
  lemma StepIs(s: UrlState, ch: char)
    ensures s == ReqSpacesBeforeUrl ==>
              ParseUrlChar(s, ch) == if ch == '/' || ch == '*' then Some(ReqPath)
                                     else if Letter(ch) then Some(ReqSchema) else None
    ensures s == ReqSchema ==>
              ParseUrlChar(s, ch) == if Letter(ch) then Some(ReqSchema)
                                     else if ch == ':' then Some(ReqSchemaSlash) else None
    ensures s == ReqServerStart || s == ReqServer || (s == ReqServerWithAt && ch != '@') ==>
              ParseUrlChar(s, ch) == if ch == '/' then Some(ReqPath) else if ch == '?' then Some(ReqQueryStringStart)
                                     else if ch == '@' then Some(ReqServerWithAt)
                                     else if ServerByte(ch) then Some(ReqServer) else None
    ensures s == ReqServerWithAt && ch == '@' ==> ParseUrlChar(s, ch) == None
    ensures s == ReqPath ==>
              ParseUrlChar(s, ch) == if UrlByte(ch) then Some(ReqPath) else if ch == '?' then Some(ReqQueryStringStart)
                                     else if ch == '#' then Some(ReqFragmentStart) else None
    ensures s == ReqQueryStringStart || s == ReqQueryString ==>
              ParseUrlChar(s, ch) == if UrlByte(ch) || ch == '?' then Some(ReqQueryString)
                                     else if ch == '#' then Some(ReqFragmentStart) else None
    ensures s == ReqFragmentStart ==>
              ParseUrlChar(s, ch) == if UrlByte(ch) || ch == '?' then Some(ReqFragment)
                                     else if ch == '#' then Some(ReqFragmentStart) else None
    ensures s == ReqFragment ==>
              ParseUrlChar(s, ch) == if UrlByte(ch) || ch == '?' || ch == '#' then Some(ReqFragment) else None
  {
    Classes(ch);
    hide Letter, IsAlpha, UserInfoByte, IsUserInfoChar, UrlByte, IsUrlChar;
    if ch == ' ' || ch == CR || ch == LF || ch == '\t' || ch == '\U{000C}' {
      NoBlanks(ch);
    }
  }

  // ----- the pieces, read one after the other

  lemma {:induction false} SchemaRuns(s: string)
    requires SchemaOk(s)
    ensures UrlRun(ReqSpacesBeforeUrl, s) == Some(ReqSchema)
    decreases |s|
  {
    hide ParseUrlChar, Letter;
    var n := |s| - 1;
    assert s == s[..n] + [s[n]];
    RunSnoc(ReqSpacesBeforeUrl, s[..n], s[n]);
    StepIs(ReqSpacesBeforeUrl, s[n]);
    StepIs(ReqSchema, s[n]);
    LetterNoSlash(s[n]);
    if n > 0 {
      SchemaRuns(s[..n]);
    }
  }

  lemma LetterNoSlash(ch: char)
    requires Letter(ch)
    ensures ch != '/' && ch != '*' && ch != ':'
  {
    InAlphabet(ch);
  }

  lemma SchemaEndRuns(s: string)
    requires SchemaOk(s)
    ensures UrlRun(ReqSpacesBeforeUrl, s + "://") == Some(ReqServerStart)
  {
    hide ParseUrlChar, Letter, SchemaOk;
    SchemaRuns(s);
    ThreeBytes(ReqSpacesBeforeUrl, s);
    ColonSlashSlash();
  }

  lemma ThreeBytes(s: UrlState, a: string)
    requires UrlRun(s, a) == Some(ReqSchema)
    ensures UrlRun(s, a + "://") == UrlRun(ReqSchema, "://")
  {
    hide ParseUrlChar;
    RunAppend(s, a, "://");
  }

  lemma ColonSlashSlash()
    ensures UrlRun(ReqSchema, ":") == Some(ReqSchemaSlash)
    ensures UrlRun(ReqSchema, ":/") == Some(ReqSchemaSlashSlash)
    ensures UrlRun(ReqSchema, "://") == Some(ReqServerStart)
  {
    assert ":"[..0] == "" && ":/"[..1] == ":" && "://"[..2] == ":/";
  }

  lemma {:induction false} ServerRuns(s: string)
    requires ServerOk(s)
    ensures UrlRun(ReqServerStart, s) == Some(ServerState(s))
    decreases |s|
  {
    hide ParseUrlChar, UserInfoByte;
    if s != "" {
      var n := |s| - 1;
      assert s == s[..n] + [s[n]];
      RunSnoc(ReqServerStart, s[..n], s[n]);
      ServerRuns(s[..n]);
      StepIs(ServerState(s[..n]), s[n]);
      ServerNoSlash(s[n]);
    }
  }

  lemma ServerNoSlash(ch: char)
    requires ServerByte(ch)
    ensures ch != '/' && ch != '?'
  {
    InAlphabet(ch);
    hide Letter;
  }

  /** A path after one of the states it can begin in. */
  lemma {:induction false} PathRuns(from: UrlState, s: string)
    requires from == ReqSpacesBeforeUrl || from == ReqServerStart || from == ReqServer || from == ReqServerWithAt
    requires PathOk(s) && s != "" && (s[0] == '/' || (s[0] == '*' && from == ReqSpacesBeforeUrl))
    ensures UrlRun(from, s) == Some(ReqPath)
    decreases |s|
  {
    hide ParseUrlChar, UrlByte;
    var n := |s| - 1;
    assert s == s[..n] + [s[n]];
    RunSnoc(from, s[..n], s[n]);
    StepIs(from, s[n]);
    StepIs(ReqPath, s[n]);
    if n > 0 {
      PathRuns(from, s[..n]);
    }
  }

  lemma {:induction false} QueryRuns(s: string)
    requires QueryOk(s)
    ensures UrlRun(ReqQueryStringStart, s) == Some(if s == "" then ReqQueryStringStart else ReqQueryString)
    decreases |s|
  {
    hide ParseUrlChar, UrlByte;
    if s != "" {
      var n := |s| - 1;
      assert s == s[..n] + [s[n]];
      RunSnoc(ReqQueryStringStart, s[..n], s[n]);
      QueryRuns(s[..n]);
      StepIs(ReqQueryStringStart, s[n]);
      StepIs(ReqQueryString, s[n]);
    }
  }

  lemma {:induction false} HashesSnoc(s: string, ch: char)
    ensures Hashes(s + [ch]) == if Hashes(s) == |s| && ch == '#' then |s| + 1 else Hashes(s)
    decreases |s|
  {
    if s != "" {
      assert (s + [ch])[1..] == s[1..] + [ch];
      HashesSnoc(s[1..], ch);
    }
  }

  lemma {:induction false} FragmentRuns(s: string)
    requires FragmentOk(s)
    ensures UrlRun(ReqFragmentStart, s) == Some(FragmentState(s))
    decreases |s|
  {
    hide ParseUrlChar, UrlByte, Hashes;
    if s != "" {
      var n := |s| - 1;
      assert s == s[..n] + [s[n]];
      RunSnoc(ReqFragmentStart, s[..n], s[n]);
      FragmentRuns(s[..n]);
      HashesSnoc(s[..n], s[n]);
      StepIs(FragmentState(s[..n]), s[n]);
      HashNoUrl(s[n]);
    } else {
      assert Hashes("") == 0 by { NoHashes(); }
    }
  }

  lemma NoHashes()
    ensures Hashes("") == 0
  {
  }

  lemma HashNoUrl(ch: char)
    ensures ch == '#' || ch == '?' ==> !UrlByte(ch)
  {
    InAlphabet(ch);
    hide Letter;
  }

  /** Up to the path: a schema and a server part, or neither. */
  lemma FrontRuns(u: Pieces, connect: bool)
    requires Proper(u, connect)
    ensures UrlRun(UrlStart(connect), SchemaText(u) + u.server)
         == Some(if !connect && u.schema.None? then ReqSpacesBeforeUrl else ServerState(u.server))
  {
    hide ParseUrlChar, SchemaOk, ServerOk, PathOk, QueryOk, FragmentOk;
    if u.schema.Some? {
      SchemaEndRuns(u.schema.value);
    } else {
      assert SchemaText(u) + u.server == u.server;
    }
    if connect || u.schema.Some? {
      RunAppend(UrlStart(connect), SchemaText(u), u.server);
      ServerRuns(u.server);
    }
  }

  lemma PathToo(u: Pieces, connect: bool)
    requires Proper(u, connect)
    ensures UrlRun(UrlStart(connect), SchemaText(u) + u.server + u.path)
         == Some(if u.path != "" then ReqPath else ServerState(u.server))
  {
    hide ParseUrlChar, SchemaOk, ServerOk, QueryOk, FragmentOk, UrlRun, PathOk;
    FrontRuns(u, connect);
    RunAppend(UrlStart(connect), SchemaText(u) + u.server, u.path);
    if u.path == "" {
      assert SchemaText(u) + u.server + u.path == SchemaText(u) + u.server;
    } else {
      PathRuns(UrlRun(UrlStart(connect), SchemaText(u) + u.server).value, u.path);
    }
  }

  lemma QueryToo(u: Pieces, connect: bool)
    requires Proper(u, connect)
    ensures UrlRun(UrlStart(connect), SchemaText(u) + u.server + u.path + QueryText(u))
         == Some(StateOf(u.(fragment := None)))
  {
    hide ParseUrlChar, SchemaOk, ServerOk, QueryOk, FragmentOk, UrlRun, PathOk;
    var before := SchemaText(u) + u.server + u.path;
    PathToo(u, connect);
    if u.query.None? {
      assert before + QueryText(u) == before;
    } else {
      assert before + QueryText(u) == before + ['?'] + u.query.value;
      RunSnoc(UrlStart(connect), before, '?');
      var s := UrlRun(UrlStart(connect), before).value;
      StepIs(s, '?');
      HashNoUrl('?');
      RunAppend(UrlStart(connect), before + ['?'], u.query.value);
      QueryRuns(u.query.value);
    }
  }

  /** The automaton goes through a proper URL, and is then where its last piece says. */
  lemma StateIs(u: Pieces, connect: bool)
    requires Proper(u, connect)
    ensures UrlRun(UrlStart(connect), PrintUrl(u)) == Some(StateOf(u)) && UrlClosable(StateOf(u))
  {
    hide ParseUrlChar, SchemaOk, ServerOk, QueryOk, FragmentOk, UrlRun, PathOk;
    var before := SchemaText(u) + u.server + u.path + QueryText(u);
    QueryToo(u, connect);
    if u.fragment.None? {
      assert PrintUrl(u) == before;
    } else {
      assert PrintUrl(u) == before + ['#'] + u.fragment.value;
      RunSnoc(UrlStart(connect), before, '#');
      StepIs(UrlRun(UrlStart(connect), before).value, '#');
      HashNoUrl('#');
      RunAppend(UrlStart(connect), before + ['#'], u.fragment.value);
      FragmentRuns(u.fragment.value);
    }
  }

  // ----- every accepted text is a URL in pieces

  /** What has been read when the automaton is in s: within a schema, or a proper URL. */
  ghost predicate Reads(text: string, connect: bool, s: UrlState, u: Pieces) {
    match s
    case ReqSpacesBeforeUrl => text == "" && !connect
    case ReqSchema => SchemaOk(text) && !connect
    case ReqSchemaSlash => u.schema.Some? && SchemaOk(u.schema.value) && text == u.schema.value + ":" && !connect
    case ReqSchemaSlashSlash =>
      u.schema.Some? && SchemaOk(u.schema.value) && text == u.schema.value + ":/" && !connect
    case ReqServerStart =>
      && u == Pieces(u.schema, "", "", None, None) && text == SchemaText(u)
      && (if connect then u.schema.None? else u.schema.Some? && SchemaOk(u.schema.value))
    case _ => Proper(u, connect) && text == PrintUrl(u) && s == StateOf(u)
  }

  const NOTHING := Pieces(None, "", "", None, None)

  lemma SchemaStep(text: string, s: UrlState, u: Pieces, ch: char) returns (v: Pieces)
    requires Reads(text, false, s, u) && ParseUrlChar(s, ch).Some?
    requires s == ReqSpacesBeforeUrl || s == ReqSchema || s == ReqSchemaSlash || s == ReqSchemaSlashSlash
    ensures Reads(text + [ch], false, ParseUrlChar(s, ch).value, v)
  {
    hide ParseUrlChar, Letter, UrlByte;
    StepIs(s, ch);
    SlashIsUrl(ch);
    match s
    case ReqSpacesBeforeUrl =>
      v := NOTHING.(path := [ch]);
      assert PrintUrl(v) == [ch] == text + [ch];
    case ReqSchema =>
      v := NOTHING.(schema := Some(text));
    case ReqSchemaSlash =>
      v := u;
      SlashStep(s, ch);
      assert text + [ch] == u.schema.value + ":/";
    case ReqSchemaSlashSlash =>
      v := NOTHING.(schema := u.schema);
      SlashStep(s, ch);
      assert text + [ch] == u.schema.value + "://";
  }

  lemma SlashStep(s: UrlState, ch: char)
    requires (s == ReqSchemaSlash || s == ReqSchemaSlashSlash) && ParseUrlChar(s, ch).Some?
    ensures ch == '/'
    ensures ParseUrlChar(s, ch) == Some(if s == ReqSchemaSlash then ReqSchemaSlashSlash else ReqServerStart)
  {
  }

  lemma SlashIsUrl(ch: char)
    ensures ch == '/' || ch == '*' ==> UrlByte(ch) && !Letter(ch)
  {
    InAlphabet(ch);
    hide Letter;
  }

  /** In a server part, or at its start: nothing follows it yet. */
  predicate AtServer(text: string, connect: bool, u: Pieces) {
    && u == Pieces(u.schema, u.server, "", None, None) && text == SchemaText(u) + u.server
    && ServerOk(u.server)
    && (if connect then u.schema.None? else u.schema.Some? && SchemaOk(u.schema.value))
  }

  lemma ServerToPath(text: string, connect: bool, u: Pieces) returns (v: Pieces)
    requires AtServer(text, connect, u)
    ensures Reads(text + ['/'], connect, ReqPath, v)
  {
    hide UrlByte, ServerOk, QueryOk, FragmentOk, SchemaOk;
    v := u.(path := "/");
    SlashIsUrl('/');
    assert PrintUrl(v) == SchemaText(u) + u.server + "/" == text + ['/'];
  }

  lemma ServerToQuery(text: string, connect: bool, u: Pieces) returns (v: Pieces)
    requires AtServer(text, connect, u)
    ensures Reads(text + ['?'], connect, ReqQueryStringStart, v)
  {
    hide ServerOk, SchemaOk;
    v := u.(query := Some(""));
    assert PrintUrl(v) == SchemaText(u) + u.server + "?" == text + ['?'];
  }

  lemma ServerGoesOn(text: string, connect: bool, u: Pieces, ch: char) returns (v: Pieces)
    requires AtServer(text, connect, u) && ServerOk(u.server + [ch])
    ensures Reads(text + [ch], connect, ServerState([ch]), v)
  {
    hide ServerOk, SchemaOk;
    v := u.(server := u.server + [ch]);
    assert PrintUrl(v) == SchemaText(u) + (u.server + [ch]) == text + [ch];
  }

  lemma ServerStep(text: string, connect: bool, s: UrlState, u: Pieces, ch: char) returns (v: Pieces)
    requires Reads(text, connect, s, u) && ParseUrlChar(s, ch).Some?
    requires s == ReqServerStart || s == ReqServer || s == ReqServerWithAt
    ensures Reads(text + [ch], connect, ParseUrlChar(s, ch).value, v)
  {
    hide ParseUrlChar, UserInfoByte, Reads, AtServer, Letter;
    StepIs(s, ch);
    IsAtServer(text, connect, s, u);
    if ch == '/' {
      v := ServerToPath(text, connect, u);
    } else if ch == '?' {
      v := ServerToQuery(text, connect, u);
    } else {
      v := ServerGoesOn(text, connect, u, ch);
    }
  }

  lemma IsAtServer(text: string, connect: bool, s: UrlState, u: Pieces)
    requires Reads(text, connect, s, u)
    requires s == ReqServerStart || s == ReqServer || s == ReqServerWithAt
    ensures AtServer(text, connect, u) && ServerOk(u.server)
    ensures s == ReqServerWithAt <==> u.server != "" && u.server[|u.server| - 1] == '@'
  {
    hide SchemaOk, PathOk, QueryOk, FragmentOk, UserInfoByte;
    ServerEnds(u, connect, s);
    assert SchemaText(u) + "" == SchemaText(u);
  }

  /** In these states nothing follows the server part. */
  lemma ServerEnds(u: Pieces, connect: bool, s: UrlState)
    requires s == ReqServerStart || s == ReqServer || s == ReqServerWithAt
    ensures s == StateOf(u) ==> u == Pieces(u.schema, u.server, "", None, None)
    ensures s == StateOf(u) && s == ReqServerWithAt ==> u.server != "" && u.server[|u.server| - 1] == '@'
    ensures s == StateOf(u) && s == ReqServer ==> u.server != "" && u.server[|u.server| - 1] != '@'
    ensures u == Pieces(u.schema, u.server, "", None, None) ==> PrintUrl(u) == SchemaText(u) + u.server
  {
  }

  lemma PathGoesOn(u: Pieces, connect: bool, ch: char) returns (v: Pieces)
    requires Proper(u, connect) && u.path != "" && u.query.None? && u.fragment.None? && (UrlByte(ch) || ch == '?')
    ensures Reads(PrintUrl(u) + [ch], connect, if UrlByte(ch) then ReqPath else ReqQueryStringStart, v)
  {
    hide UrlByte, ServerOk, FragmentOk, SchemaOk;
    var before := SchemaText(u) + u.server;
    assert PrintUrl(u) == before + u.path;
    if UrlByte(ch) {
      v := u.(path := u.path + [ch]);
      assert PrintUrl(v) == before + (u.path + [ch]) == PrintUrl(u) + [ch];
    } else {
      v := u.(query := Some(""));
      assert PrintUrl(v) == before + u.path + "?" == PrintUrl(u) + [ch];
    }
  }

  lemma PathStep(text: string, connect: bool, s: UrlState, u: Pieces, ch: char) returns (v: Pieces)
    requires Reads(text, connect, s, u) && ParseUrlChar(s, ch).Some? && s == ReqPath
    ensures Reads(text + [ch], connect, ParseUrlChar(s, ch).value, v)
  {
    hide ParseUrlChar, UrlByte, PrintUrl, Proper;
    StepIs(s, ch);
    HashNoUrl(ch);
    if ch == '#' {
      v := ToFragment(u, connect);
    } else {
      v := PathGoesOn(u, connect, ch);
    }
  }

  lemma QueryGoesOn(u: Pieces, connect: bool, ch: char) returns (v: Pieces)
    requires Proper(u, connect) && u.query.Some? && u.fragment.None? && (UrlByte(ch) || ch == '?')
    ensures Reads(PrintUrl(u) + [ch], connect, ReqQueryString, v)
  {
    hide UrlByte, ServerOk, PathOk, FragmentOk, SchemaOk;
    v := u.(query := Some(u.query.value + [ch]));
    var before := SchemaText(u) + u.server + u.path;
    assert PrintUrl(u) == before + ("?" + u.query.value);
    assert PrintUrl(v) == before + ("?" + (u.query.value + [ch])) == PrintUrl(u) + [ch];
  }

  lemma ToFragment(u: Pieces, connect: bool) returns (v: Pieces)
    requires Proper(u, connect) && u.fragment.None? && (u.path != "" || u.query.Some?)
    ensures Reads(PrintUrl(u) + ['#'], connect, ReqFragmentStart, v)
  {
    hide ServerOk, PathOk, QueryOk, SchemaOk;
    NoHashes();
    v := u.(fragment := Some(""));
    assert PrintUrl(v) == SchemaText(u) + u.server + u.path + QueryText(u) + "#" == PrintUrl(u) + ['#'];
  }

  lemma QueryStep(text: string, connect: bool, s: UrlState, u: Pieces, ch: char) returns (v: Pieces)
    requires Reads(text, connect, s, u) && ParseUrlChar(s, ch).Some?
    requires s == ReqQueryStringStart || s == ReqQueryString
    ensures Reads(text + [ch], connect, ParseUrlChar(s, ch).value, v)
  {
    hide ParseUrlChar, UrlByte, PrintUrl, Proper;
    StepIs(s, ch);
    HashNoUrl(ch);
    if ch == '#' {
      v := ToFragment(u, connect);
    } else {
      v := QueryGoesOn(u, connect, ch);
    }
  }

  lemma FragmentStep(text: string, connect: bool, s: UrlState, u: Pieces, ch: char) returns (v: Pieces)
    requires Reads(text, connect, s, u) && ParseUrlChar(s, ch).Some? && (s == ReqFragmentStart || s == ReqFragment)
    ensures Reads(text + [ch], connect, ParseUrlChar(s, ch).value, v)
  {
    hide ParseUrlChar, UrlByte, ServerOk, PathOk, QueryOk, SchemaOk, Hashes;
    StepIs(s, ch);
    assert u.fragment.Some?;
    HashNoUrl(ch);
    HashesSnoc(u.fragment.value, ch);
    v := u.(fragment := Some(u.fragment.value + [ch]));
    var before := SchemaText(u) + u.server + u.path + QueryText(u);
    assert PrintUrl(v) == before + ("#" + (u.fragment.value + [ch])) == text + [ch];
  }

  lemma {:induction false} Decomposes(text: string, connect: bool) returns (u: Pieces)
    requires UrlRun(UrlStart(connect), text).Some?
    ensures Reads(text, connect, UrlRun(UrlStart(connect), text).value, u)
    decreases |text|
  {
    hide ParseUrlChar, Reads;
    u := NOTHING;
    if text == "" {
      NothingRead(connect);
    } else {
      var n := |text| - 1;
      var ch := text[n];
      assert text == text[..n] + [ch];
      var s := UrlRun(UrlStart(connect), text[..n]).value;
      var w := Decomposes(text[..n], connect);
      match s {
        case ReqServerStart => u := ServerStep(text[..n], connect, s, w, ch);
        case ReqServer => u := ServerStep(text[..n], connect, s, w, ch);
        case ReqServerWithAt => u := ServerStep(text[..n], connect, s, w, ch);
        case ReqPath => u := PathStep(text[..n], connect, s, w, ch);
        case ReqQueryStringStart => u := QueryStep(text[..n], connect, s, w, ch);
        case ReqQueryString => u := QueryStep(text[..n], connect, s, w, ch);
        case ReqFragmentStart => u := FragmentStep(text[..n], connect, s, w, ch);
        case ReqFragment => u := FragmentStep(text[..n], connect, s, w, ch);
        case _ =>
          NoSchemaAfterConnect(text[..n], connect, s, w);
          u := SchemaStep(text[..n], s, w, ch);
      }
    }
  }

  lemma NothingRead(connect: bool)
    ensures Reads("", connect, UrlStart(connect), NOTHING)
  {
  }

  lemma NoSchemaAfterConnect(text: string, connect: bool, s: UrlState, u: Pieces)
    requires Reads(text, connect, s, u)
    ensures s == ReqSpacesBeforeUrl || s == ReqSchema || s == ReqSchemaSlash || s == ReqSchemaSlashSlash ==> !connect
  {
    hide Proper, SchemaOk;
  }

  /**
   A request line's URL is accepted, and may end, if and only if it is a server part after CONNECT,
   or a path, or a schema with a server part, each followed by what may follow it.
   */
  lemma UrlRecognised(text: string, connect: bool)
    ensures var s := UrlRun(UrlStart(connect), text);
            (s.Some? && UrlClosable(s.value)) <==> exists u :: Proper(u, connect) && text == PrintUrl(u)
  {
    hide ParseUrlChar, Proper, PrintUrl, UrlRun, SchemaOk;
    var s := UrlRun(UrlStart(connect), text);
    if s.Some? {
      var u := Decomposes(text, connect);
    }
    forall u | Proper(u, connect) && text == PrintUrl(u)
      ensures s.Some? && UrlClosable(s.value)
    {
      StateIs(u, connect);
    }
  }

  // ----- where each piece stands

  function ServerFrom(u: Pieces): nat {
    |SchemaText(u)|
  }

  function PathFrom(u: Pieces): nat {
    ServerFrom(u) + |u.server|
  }

  function PathTo(u: Pieces): nat {
    PathFrom(u) + |u.path|
  }

  function QueryTo(u: Pieces): nat {
    PathTo(u) + |QueryText(u)|
  }

  function FragmentFrom(u: Pieces): nat {
    QueryTo(u) + 1 + if u.fragment.Some? then Hashes(u.fragment.value) else 0
  }

  /** The part that byte i stands in, by the places of the pieces; the delimiters are in none. */
  function PieceAt(u: Pieces, i: nat): Option<Field> {
    if u.schema.Some? && i < |u.schema.value| then Some(Schema)
    else if ServerFrom(u) <= i < PathFrom(u) then Some(Host)
    else if PathFrom(u) <= i < PathTo(u) then Some(Path)
    else if PathTo(u) < i < QueryTo(u) then Some(Query)
    else if u.fragment.Some? && FragmentFrom(u) <= i < |PrintUrl(u)| then Some(Fragment)
    else None
  }

  lemma PrintedLength(u: Pieces)
    ensures |PrintUrl(u)| == QueryTo(u) + |FragmentText(u)|
  {
  }

  lemma SchemaPart(u: Pieces, connect: bool, i: nat)
    requires Proper(u, connect) && i < ServerFrom(u)
    ensures i < |PrintUrl(u)| && PartAt(PrintUrl(u), connect, i) == PieceAt(u, i)
  {
    hide ParseUrlChar, ServerOk, PathOk, QueryOk, FragmentOk, Hashes, Letter;
    PrintedLength(u);
    var s := u.schema.value;
    var before := PrintUrl(u)[..i + 1];
    assert PrintUrl(u)[..ServerFrom(u)] == s + "://";
    if i < |s| {
      assert before == s[..i + 1];
      SchemaRuns(s[..i + 1]);
    } else {
      SchemaRuns(s);
      ColonSlashSlash();
      var k := i + 1 - |s|;
      assert before == s + "://"[..k];
      RunAppend(ReqSpacesBeforeUrl, s, "://"[..k]);
      assert "://"[..1] == ":" && "://"[..2] == ":/" && "://"[..3] == "://";
    }
  }

  lemma Beginning(pre: string, s: string, post: string, k: nat)
    requires k <= |s|
    ensures (pre + s + post)[..|pre| + k] == pre + s[..k]
  {
  }

  /** The beginning of a URL that ends in its server part, path or query. */
  lemma Shortened(u: Pieces, connect: bool, v: Pieces, i: nat)
    requires Proper(v, connect) && i < |PrintUrl(u)| && PrintUrl(v) == PrintUrl(u)[..i + 1]
    ensures PartAt(PrintUrl(u), connect, i) == Part(StateOf(v))
  {
    hide Proper, PrintUrl, UrlRun;
    StateIs(v, connect);
  }

  lemma ShorterServer(u: Pieces, connect: bool, k: nat)
    requires Proper(u, connect) && 0 < k <= |u.server|
    ensures var v := Pieces(u.schema, u.server[..k], "", None, None);
            Proper(v, connect) && Part(StateOf(v)) == Some(Host)
  {
    hide PathOk, QueryOk, FragmentOk, SchemaOk, UserInfoByte;
    assert PathOk("") by { NoPath(); }
  }

  lemma ServerPrefix(u: Pieces, k: nat)
    requires k <= |u.server|
    ensures ServerFrom(u) + k <= |PrintUrl(u)|
    ensures PrintUrl(Pieces(u.schema, u.server[..k], "", None, None)) == PrintUrl(u)[..ServerFrom(u) + k]
  {
    PrintedLength(u);
    NoneAfter(Pieces(u.schema, u.server[..k], "", None, None));
    hide SchemaText, QueryText, FragmentText;
    var post := u.path + QueryText(u) + FragmentText(u);
    assert PrintUrl(u) == SchemaText(u) + u.server + post;
    Beginning(SchemaText(u), u.server, post, k);
  }

  lemma ServerPart(u: Pieces, connect: bool, i: nat)
    requires Proper(u, connect) && ServerFrom(u) <= i < PathFrom(u)
    ensures i < |PrintUrl(u)| && PartAt(PrintUrl(u), connect, i) == Some(Host)
  {
    hide PartAt, PrintUrl, Proper, StateOf, Part;
    var k := i + 1 - ServerFrom(u);
    ShorterServer(u, connect, k);
    ServerPrefix(u, k);
    Shortened(u, connect, Pieces(u.schema, u.server[..k], "", None, None), i);
  }

  lemma NoneAfter(u: Pieces)
    requires u.query.None? && u.fragment.None?
    ensures PrintUrl(u) == SchemaText(u) + u.server + u.path
    ensures u.path == "" ==> PrintUrl(u) == SchemaText(u) + u.server
    ensures SchemaText(u) == if u.schema.Some? then u.schema.value + "://" else ""
  {
  }

  lemma NoPath()
    ensures PathOk("")
  {
  }

  lemma ShorterPath(u: Pieces, connect: bool, k: nat)
    requires Proper(u, connect) && 0 < k <= |u.path|
    ensures var v := u.(path := u.path[..k], query := None, fragment := None);
            Proper(v, connect) && Part(StateOf(v)) == Some(Path)
  {
    hide ServerOk, QueryOk, FragmentOk, SchemaOk, UrlByte;
  }

  lemma PathPrefix(u: Pieces, k: nat)
    requires k <= |u.path|
    ensures PathFrom(u) + k <= |PrintUrl(u)|
    ensures PrintUrl(u.(path := u.path[..k], query := None, fragment := None)) == PrintUrl(u)[..PathFrom(u) + k]
  {
    PrintedLength(u);
    NoneAfter(u.(path := u.path[..k], query := None, fragment := None));
    hide SchemaText, QueryText, FragmentText;
    var pre, post := SchemaText(u) + u.server, QueryText(u) + FragmentText(u);
    assert PrintUrl(u) == pre + u.path + post;
    Beginning(pre, u.path, post, k);
  }

  lemma PathPart(u: Pieces, connect: bool, i: nat)
    requires Proper(u, connect) && PathFrom(u) <= i < PathTo(u)
    ensures i < |PrintUrl(u)| && PartAt(PrintUrl(u), connect, i) == Some(Path)
  {
    hide PartAt, PrintUrl, Proper, StateOf, Part;
    var k := i + 1 - PathFrom(u);
    ShorterPath(u, connect, k);
    PathPrefix(u, k);
    Shortened(u, connect, u.(path := u.path[..k], query := None, fragment := None), i);
  }

  lemma QueryPart(u: Pieces, connect: bool, i: nat)
    requires Proper(u, connect) && PathTo(u) <= i < QueryTo(u)
    ensures i < |PrintUrl(u)| && PartAt(PrintUrl(u), connect, i) == if i == PathTo(u) then None else Some(Query)
  {
    hide ServerOk, PathOk, FragmentOk, SchemaOk, UrlByte, PartAt, Hashes, PartAfter;
    PrintedLength(u);
    var k := i - PathTo(u);
    var v := u.(query := Some(u.query.value[..k]), fragment := None);
    var before := SchemaText(u) + u.server + u.path;
    assert PrintUrl(v) == before + ("?" + u.query.value[..k]) == PrintUrl(u)[..i + 1];
    Shortened(u, connect, v, i);
  }

  lemma {:induction false} HashesUpTo(s: string, k: nat)
    requires k <= |s|
    ensures Hashes(s[..k]) == k <==> k <= Hashes(s)
    decreases |s|
  {
    if k > 0 {
      assert s[..k][1..] == s[1..][..k - 1];
      HashesUpTo(s[1..], k - 1);
    }
  }

  lemma ShorterFragment(u: Pieces, connect: bool, k: nat)
    requires Proper(u, connect) && u.fragment.Some? && k <= |u.fragment.value|
    ensures var v := u.(fragment := Some(u.fragment.value[..k]));
            Proper(v, connect) && Part(StateOf(v)) == if k <= Hashes(u.fragment.value) then None else Some(Fragment)
  {
    hide ServerOk, PathOk, QueryOk, SchemaOk, UrlByte, Hashes;
    HashesUpTo(u.fragment.value, k);
  }

  lemma FragmentPrefix(u: Pieces, k: nat)
    requires u.fragment.Some? && k <= |u.fragment.value|
    ensures QueryTo(u) + 1 + k <= |PrintUrl(u)|
    ensures PrintUrl(u.(fragment := Some(u.fragment.value[..k]))) == PrintUrl(u)[..QueryTo(u) + 1 + k]
  {
    PrintedLength(u);
    hide SchemaText, QueryText;
    var before := SchemaText(u) + u.server + u.path + QueryText(u);
    assert PrintUrl(u.(fragment := Some(u.fragment.value[..k]))) == before + ("#" + u.fragment.value[..k]) by {
      SameBefore(u, k);
    }
    assert PrintUrl(u) == before + "#" + u.fragment.value + "";
    Beginning(before + "#", u.fragment.value, "", k);
  }

  lemma SameBefore(u: Pieces, k: nat)
    requires u.fragment.Some? && k <= |u.fragment.value|
    ensures var v := u.(fragment := Some(u.fragment.value[..k]));
            SchemaText(v) == SchemaText(u) && QueryText(v) == QueryText(u)
  {
  }

  lemma FragmentPart(u: Pieces, connect: bool, i: nat)
    requires Proper(u, connect) && QueryTo(u) <= i < |PrintUrl(u)|
    ensures PartAt(PrintUrl(u), connect, i) == if i < FragmentFrom(u) then None else Some(Fragment)
  {
    PrintedLength(u);
    hide PartAt, PrintUrl, Proper, StateOf, Part, Hashes;
    var k := i - QueryTo(u);
    ShorterFragment(u, connect, k);
    FragmentPrefix(u, k);
    Shortened(u, connect, u.(fragment := Some(u.fragment.value[..k])), i);
  }

  /** Every byte is read in the part whose piece it stands in. */
  lemma PartsAre(u: Pieces, connect: bool, i: nat)
    requires Proper(u, connect) && i < |PrintUrl(u)|
    ensures PartAt(PrintUrl(u), connect, i) == PieceAt(u, i)
  {
    hide Proper, PartAt, Hashes;
    PrintedLength(u);
    if i < ServerFrom(u) {
      SchemaPart(u, connect, i);
    } else if i < PathFrom(u) {
      ServerPart(u, connect, i);
    } else if i < PathTo(u) {
      PathPart(u, connect, i);
    } else if i < QueryTo(u) {
      QueryPart(u, connect, i);
    } else {
      FragmentPart(u, connect, i);
    }
  }
}
