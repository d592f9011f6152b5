/**
 Which field every byte of a URL belongs to, and which URLs are accepted.

 Two automata decide: the URL automaton over the whole text, and the host automaton over
 those of its bytes that the first one reads in a server state. Nothing here depends on how
 http_parser_parse_url finds the fields; UrlParser proves that it finds these.
 */
module UrlFields {
  import opened Chars
  import opened Types
  import opened UrlChar
  import opened Lengths

  datatype Field = Schema | Host | Port | Path | Query | Fragment | UserInfo

  /** The enumeration `http_host_state`; the dead state is None. */
  datatype HostState =
    | UserInfoStart | InUserInfo | HostStart | V6Start | InHost | InV6 | V6End | PortStart | InPort

  /** http_parse_host_char */
  function ParseHostChar(s: HostState, ch: char): Option<HostState> {
    match s
    case UserInfoStart => UserInfoChar(ch)
    case InUserInfo => UserInfoChar(ch)
    case HostStart =>
      if ch == '[' then Some(V6Start)
      else if IsHostChar(ch) then Some(InHost)
      else None
    case InHost =>
      if IsHostChar(ch) then Some(InHost)
      else if ch == ':' then Some(PortStart)
      else None
    case V6End =>
      if ch == ':' then Some(PortStart) else None
    case InV6 =>
      if ch == ']' then Some(V6End) else V6Char(ch)
    case V6Start => V6Char(ch)
    case InPort => PortChar(ch)
    case PortStart => PortChar(ch)
  }

  function UserInfoChar(ch: char): Option<HostState> {
    if ch == '@' then Some(HostStart)
    else if IsUserInfoChar(ch) then Some(InUserInfo)
    else None
  }

  function V6Char(ch: char): Option<HostState> {
    if IsHex(ch) || ch == ':' || ch == '.' then Some(InV6) else None
  }

  function PortChar(ch: char): Option<HostState> {
    if IsNum(ch) then Some(InPort) else None
  }

  /** The state after all of host, or None where a byte was refused. */
  function HostRun(s: HostState, host: string): Option<HostState> {
    if host == "" then Some(s)
    else
      var t := HostRun(s, host[..|host| - 1]);
      if t.None? then None else ParseHostChar(t.value, host[|host| - 1])
  }

  /** Where a host may end. */
  predicate HostClosable(s: HostState) {
    s.InHost? || s.V6End? || s.InPort?
  }

  /** The field of a byte, by the state after it; delimiters belong to none. */
  function Part(s: UrlState): Option<Field> {
    match s
    case ReqSchema => Some(Schema)
    case ReqServer => Some(Host)
    case ReqServerWithAt => Some(Host)
    case ReqPath => Some(Path)
    case ReqQueryString => Some(Query)
    case ReqFragment => Some(Fragment)
    case _ => None
  }

  function HostPart(s: HostState): Option<Field> {
    match s
    case InUserInfo => Some(UserInfo)
    case InHost => Some(Host)
    case InV6 => Some(Host)
    case InPort => Some(Port)
    case _ => None
  }

  function PartAfter(text: string, connect: bool): Option<Field> {
    var s := UrlRun(UrlStart(connect), text);
    if s.None? then None else Part(s.value)
  }

  function HostPartAfter(s: HostState, host: string): Option<Field> {
    var t := HostRun(s, host);
    if t.None? then None else HostPart(t.value)
  }

  /** The bytes of text that the URL automaton reads in part f, in order. */
  function PartText(text: string, connect: bool, f: Field): string {
    if text == "" then ""
    else
      var rest := PartText(text[..|text| - 1], connect, f);
      if PartAfter(text, connect) == Some(f) then rest + [text[|text| - 1]] else rest
  }

  /** The host automaton starts at user information if there is an '@' to end it. */
  function HostOpening(text: string, connect: bool): HostState {
    if '@' in PartText(text, connect, Host) then UserInfoStart else HostStart
  }

  /** The field that byte i of text belongs to. */
  function FieldAt(text: string, connect: bool, i: nat): Option<Field>
    requires i < |text|
  {
    var part := PartAfter(text[..i + 1], connect);
    if part == Some(Host) then
      HostPartAfter(HostOpening(text, connect), PartText(text[..i + 1], connect, Host))
    else part
  }

  ghost predicate HasField(text: string, connect: bool, f: Field) {
    exists i :: 0 <= i < |text| && FieldAt(text, connect, i) == Some(f)
  }

  /** The bytes of a field among the first n, in order. */
  function FieldText(text: string, connect: bool, f: Field, n: nat): string
    requires n <= |text|
  {
    if n == 0 then ""
    else
      var rest := FieldText(text, connect, f, n - 1);
      if FieldAt(text, connect, n - 1) == Some(f) then rest + [text[n - 1]] else rest
  }

  /** The host automaton reads the whole of the server part and may end there. */
  predicate HostFits(text: string, connect: bool) {
    var t := HostRun(HostOpening(text, connect), PartText(text, connect, Host));
    t.Some? && HostClosable(t.value)
  }

  function PortOf(text: string, connect: bool): nat {
    Decimal(FieldText(text, connect, Port, |text|))
  }

  /** Neither automaton dies; the host one is asked if there is a schema or a server part. */
  predicate PartsFit(text: string, connect: bool) {
    && UrlRun(UrlStart(connect), text).Some?
    && ((PartText(text, connect, Schema) != "" || PartText(text, connect, Host) != "") ==> HostFits(text, connect))
  }

  /** The URLs http_parser_parse_url takes. */
  ghost predicate Accepted(text: string, connect: bool) {
    && PartsFit(text, connect)
    && (connect ==> forall f :: HasField(text, connect, f) <==> f == Host || f == Port)
    && PortOf(text, connect) <= 0xFFFF
  }

  // ---- order ----

  function UrlRank(s: UrlState): nat {
    match s
    case ReqSpacesBeforeUrl => 0
    case ReqSchema => 1
    case ReqSchemaSlash => 2
    case ReqSchemaSlashSlash => 3
    case ReqServerStart => 4
    case ReqServer => 5
    case ReqServerWithAt => 5
    case ReqPath => 6
    case ReqQueryStringStart => 7
    case ReqQueryString => 8
    case ReqFragmentStart => 9
    case ReqFragment => 10
  }

  function HostRank(s: HostState): nat {
    match s
    case UserInfoStart => 0
    case InUserInfo => 1
    case HostStart => 2
    case V6Start => 3
    case InHost => 4
    case InV6 => 4
    case V6End => 5
    case PortStart => 6
    case InPort => 7
  }

  /** The order in which the fields stand in a URL. */
  function Place(f: Field): nat {
    match f
    case Schema => 0
    case UserInfo => 1
    case Host => 2
    case Port => 3
    case Path => 4
    case Query => 5
    case Fragment => 6
  }

  lemma UrlStepForward(s: UrlState, ch: char)
    requires ParseUrlChar(s, ch).Some?
    ensures var t := ParseUrlChar(s, ch).value;
            && UrlRank(s) <= UrlRank(t)
            && (Part(t).None? ==> ch in ":/?#")
            && (Part(t) == Some(Host) ==> (t == ReqServerWithAt <==> ch == '@'))
            && (Part(s) == Some(Host) && IsNum(ch) ==> Part(t) == Some(Host))
  {
  }

  lemma HostStepForward(s: HostState, ch: char)
    requires ParseHostChar(s, ch).Some?
    ensures var t := ParseHostChar(s, ch).value;
            && HostRank(s) <= HostRank(t)
            && (s != t ==> HostRank(s) < HostRank(t))
            && (HostPart(t).None? ==> ch in ":@[]")
            && (HostPart(t) == Some(Port) ==> IsNum(ch))
  {
  }

  /** What a run has passed it does not come back to. */
  lemma {:induction false} UrlForward(s: UrlState, text: string, n: nat)
    requires n <= |text| && UrlRun(s, text).Some?
    ensures UrlRun(s, text[..n]).Some?
    ensures UrlRank(UrlRun(s, text[..n]).value) <= UrlRank(UrlRun(s, text).value)
    decreases |text|
  {
    hide ParseUrlChar, Part;
    if n == |text| {
      assert text[..n] == text;
    } else {
      var before := text[..|text| - 1];
      assert before[..n] == text[..n];
      UrlForward(s, before, n);
      UrlStepForward(UrlRun(s, before).value, text[|text| - 1]);
    }
  }

  lemma {:induction false} HostForward(s: HostState, text: string, n: nat)
    requires n <= |text| && HostRun(s, text).Some?
    ensures HostRun(s, text[..n]).Some?
    ensures HostRank(HostRun(s, text[..n]).value) <= HostRank(HostRun(s, text).value)
    decreases |text|
  {
    hide ParseHostChar, HostPart;
    if n == |text| {
      assert text[..n] == text;
    } else {
      var before := text[..|text| - 1];
      assert before[..n] == text[..n];
      HostForward(s, before, n);
      HostStepForward(HostRun(s, before).value, text[|text| - 1]);
    }
  }

  /** The server part only grows. */
  lemma {:induction false} PartTextGrows(text: string, connect: bool, f: Field, n: nat)
    requires n <= |text|
    ensures PartText(text[..n], connect, f) <= PartText(text, connect, f)
    decreases |text|
  {
    hide PartAfter;
    if n == |text| {
      assert text[..n] == text;
    } else {
      assert text[..|text| - 1][..n] == text[..n];
      PartTextGrows(text[..|text| - 1], connect, f, n);
    }
  }
}
