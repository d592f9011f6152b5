/**
 parse_url_char: the URL automaton that http_parser_execute and http_parser_parse_url share.
 */
module UrlChar {
  import opened Chars
  import opened Types

  /** The state after ch, or None where the source answers s_dead. */
  function ParseUrlChar(s: UrlState, ch: char): Option<UrlState> {
    if ch == ' ' || ch == CR || ch == LF || ch == '\t' || ch == '\U{000C}' then None
    else match s
      case ReqSpacesBeforeUrl =>
        if ch == '/' || ch == '*' then Some(ReqPath)
        else if IsAlpha(ch) then Some(ReqSchema)
        else None
      case ReqSchema =>
        if IsAlpha(ch) then Some(ReqSchema)
        else if ch == ':' then Some(ReqSchemaSlash)
        else None
      case ReqSchemaSlash =>
        if ch == '/' then Some(ReqSchemaSlashSlash) else None
      case ReqSchemaSlashSlash =>
        if ch == '/' then Some(ReqServerStart) else None
      case ReqServerWithAt =>
        if ch == '@' then None else ServerChar(ch)
      case ReqServerStart => ServerChar(ch)
      case ReqServer => ServerChar(ch)
      case ReqPath =>
        if IsUrlChar(ch) then Some(ReqPath)
        else if ch == '?' then Some(ReqQueryStringStart)
        else if ch == '#' then Some(ReqFragmentStart)
        else None
      case ReqQueryStringStart => QueryChar(ch)
      case ReqQueryString => QueryChar(ch)
      case ReqFragmentStart =>
        if IsUrlChar(ch) || ch == '?' then Some(ReqFragment)
        else if ch == '#' then Some(ReqFragmentStart)
        else None
      case ReqFragment =>
        if IsUrlChar(ch) || ch == '?' || ch == '#' then Some(ReqFragment) else None
  }

  function ServerChar(ch: char): Option<UrlState> {
    if ch == '/' then Some(ReqPath)
    else if ch == '?' then Some(ReqQueryStringStart)
    else if ch == '@' then Some(ReqServerWithAt)
    else if IsUserInfoChar(ch) || ch == '[' || ch == ']' then Some(ReqServer)
    else None
  }

  function QueryChar(ch: char): Option<UrlState> {
    if IsUrlChar(ch) || ch == '?' then Some(ReqQueryString)
    else if ch == '#' then Some(ReqFragmentStart)
    else None
  }

  /** Where a request line's URL may not end yet, and where it may. */
  predicate UrlOpening(s: UrlState) {
    s.ReqSchema? || s.ReqSchemaSlash? || s.ReqSchemaSlashSlash? || s.ReqServerStart?
  }

  predicate UrlClosable(s: UrlState) {
    !UrlOpening(s) && !s.ReqSpacesBeforeUrl?
  }

  /** The state after all of url, or None where a byte was refused. */
  function UrlRun(s: UrlState, url: string): Option<UrlState> {
    if url == "" then Some(s)
    else
      var t := UrlRun(s, url[..|url| - 1]);
      if t.None? then None else ParseUrlChar(t.value, url[|url| - 1])
  }

  /** Where a URL starts: CONNECT is followed by host:port alone. */
  function UrlStart(isConnect: bool): UrlState {
    if isConnect then ReqServerStart else ReqSpacesBeforeUrl
  }

  lemma UrlGoesOn(s: UrlState, ch: char)
    ensures ParseUrlChar(s, ch) != Some(ReqSpacesBeforeUrl)
  {
  }
}
