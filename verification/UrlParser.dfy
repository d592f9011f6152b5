/**
 http_parser_parse_url and http_parse_host, in the form of the source: one pass over the URL
 moves field offsets and lengths of a result structure in place, and a second pass over the
 server part of it splits that part.
 */
module UrlParser {
  import opened Chars
  import opened Types
  import opened UrlChar
  import opened Lengths
  import opened UrlFields
  import opened UrlSpans
  import UrlGrammar

  /** What is stored in 16 bits of n. */
  function Short(n: nat): nat {
    n % 0x1_0000
  }

  lemma ShortOf(n: nat)
    ensures Short(n) <= n && Short(n) <= 0xFFFF && (n <= 0xFFFF ==> Short(n) == n)
  {
  }

  /** One more byte of field f, which begins at p unless it goes on there. */
  function Counted(data: FieldData, f: Field, goesOn: bool, p: nat): FieldData {
    data[f := if goesOn then Span(data[f].off, Short(data[f].len + 1)) else Span(Short(p), 1)]
  }

  lemma OneUrlByte(text: string, connect: bool, p: nat)
    requires p < |text| && UrlRun(UrlStart(connect), text[..p]).Some?
    ensures var t := ParseUrlChar(UrlRun(UrlStart(connect), text[..p]).value, text[p]);
            && UrlRun(UrlStart(connect), text[..p + 1]) == t
            && (t.None? ==> UrlRun(UrlStart(connect), text).None?)
            && (t.Some? ==>
                  && t.value != ReqSpacesBeforeUrl && Part(t.value) != Some(UserInfo) && Part(t.value) != Some(Port)
                  && ('@' in PartText(text[..p + 1], connect, Host)
                      <==> '@' in PartText(text[..p], connect, Host) || t.value == ReqServerWithAt))
  {
    hide ParseUrlChar, Part;
    var s := UrlRun(UrlStart(connect), text[..p]).value;
    assert text[..p + 1][..p] == text[..p] && text[..p + 1][p] == text[p];
    UrlGoesOn(s, text[p]);
    if ParseUrlChar(s, text[p]).None? {
      if UrlRun(UrlStart(connect), text).Some? {
        UrlForward(UrlStart(connect), text, p + 1);
      }
    } else {
      UrlStepForward(s, text[p]);
      UrlParts(ParseUrlChar(s, text[p]).value);
    }
  }

  lemma UrlParts(s: UrlState)
    ensures s == ReqServerWithAt ==> Part(s) == Some(Host)
    ensures Part(s) != Some(UserInfo) && Part(s) != Some(Port)
  {
  }

  /** While nothing is beyond 16 bits, the counted fields are the spans. */
  lemma CountedParted(text: string, connect: bool, p: nat, fields: set<Field>, data: FieldData, last: Option<Field>)
    requires p < |text| <= 0xFFFF && Parted(text[..p], connect, fields, data, last)
    requires UrlRun(UrlStart(connect), text[..p]).Some?
    requires ParseUrlChar(UrlRun(UrlStart(connect), text[..p]).value, text[p]).Some?
    ensures var uf := Part(ParseUrlChar(UrlRun(UrlStart(connect), text[..p]).value, text[p]).value);
            if uf.None? then Parted(text[..p + 1], connect, fields, data, last)
            else
              Parted(text[..p + 1], connect, if uf == last then fields else fields + {uf.value},
                     Counted(data, uf.value, uf == last, p), uf)
  {
    hide ParseUrlChar, Part, Parted, IsPart;
    var uf := Part(ParseUrlChar(UrlRun(UrlStart(connect), text[..p]).value, text[p]).value);
    PartedStep(text[..p], text[p], connect, fields, data, last);
    assert text[..p] + [text[p]] == text[..p + 1];
    PartedWithin(text[..p], connect, fields, data, last);
  }

  /** Before the first byte. */
  lemma PartedStart(text: string, connect: bool, data: FieldData)
    requires text == "" && forall f :: data[f] == NO_SPAN
    ensures UrlRun(UrlStart(connect), text) == Some(UrlStart(connect)) && PartText(text, connect, Host) == ""
    ensures Parted(text, connect, {}, data, None)
  {
  }

  lemma PartedWithin(text: string, connect: bool, fields: set<Field>, data: FieldData, last: Option<Field>)
    requires Parted(text, connect, fields, data, last)
    ensures forall f :: data[f].off + data[f].len <= |text|
    ensures last.Some? ==> last.value in fields
  {
    forall f
      ensures data[f].off + data[f].len <= |text|
    {
      assert IsPart(text, connect, f, data[f]);
    }
  }

  lemma OneHostByte(start: HostState, host: string, p: nat)
    requires p < |host| && HostRun(start, host[..p]).Some?
    ensures var s := HostRun(start, host[..p]).value;
            var t := ParseHostChar(s, host[p]);
            && HostRun(start, host[..p + 1]) == t
            && (t.None? ==> HostRun(start, host).None?)
            && (t.Some? ==> HostRank(s) <= HostRank(t.value) && (s != t.value ==> HostRank(s) < HostRank(t.value)))
  {
    hide ParseHostChar, HostPart;
    var s := HostRun(start, host[..p]).value;
    assert host[..p + 1][..p] == host[..p] && host[..p + 1][p] == host[p];
    if ParseHostChar(s, host[p]).None? {
      if HostRun(start, host).Some? {
        HostForward(start, host, p + 1);
      }
    } else {
      HostStepForward(s, host[p]);
    }
  }

  /** One byte of the server part at p, which takes the automaton from s to t. */
  function HostCounted(fields: set<Field>, data: FieldData,
                       s: HostState, t: HostState, p: nat): (set<Field>, FieldData) {
    var part := HostPart(t);
    if part.None? then (fields, data)
    else if part == Some(Host) then
      (fields, data[Host := Span(if s == t then data[Host].off else Short(p), Short(data[Host].len + 1))])
    else
      (if s == t then fields else fields + {part.value}, Counted(data, part.value, s == t, p))
  }

  /** In the loop over the server part, up to p: nothing else is touched or out of bounds. */
  ghost predicate Splitting(fields0: set<Field>, data0: FieldData,
                            fields: set<Field>, data: FieldData, s: HostState, p: nat) {
    && (forall f :: !InServer(f) ==> data[f] == data0[f])
    && (forall f :: !InServer(f) || f == Host ==> (f in fields <==> f in fields0))
    && (forall f :: InServer(f) ==> data[f].off + data[f].len <= p)
    && (HostRank(s) < 4 ==> data[Host].len == 0)
  }

  lemma SplittingStep(fields0: set<Field>, data0: FieldData, fields: set<Field>, data: FieldData,
                      s: HostState, t: HostState, p: nat)
    requires Splitting(fields0, data0, fields, data, s, p)
    requires HostRank(s) <= HostRank(t) && (s != t ==> HostRank(s) < HostRank(t))
    ensures var (fields', data') := HostCounted(fields, data, s, t, p);
            Splitting(fields0, data0, fields', data', t, p + 1)
  {
    hide Short;
    ShortOf(p);
    var part := HostPart(t);
    if part.Some? {
      ShortOf(data[part.value].len + 1);
    }
  }

  /** And the fields of the server part are in their spans. */
  ghost predicate Split(start: HostState, host: string, off: nat, fields: set<Field>, data: FieldData) {
    && (forall f :: InServer(f) ==> HostParted(start, host, off, f, data[f]))
    && (UserInfo in fields <==> data[UserInfo].len > 0)
    && (Port in fields <==> data[Port].len > 0)
  }

  /** While nothing is beyond 16 bits, the counted fields are the spans. */
  lemma CountedHost(start: HostState, host: string, p: nat, off: nat, f: Field,
                    s: HostState, t: HostState, fields: set<Field>, data: FieldData)
    requires p < |host| && off + |host| <= 0xFFFF && HostPart(start).None?
    requires HostRun(start, host[..p]) == Some(s) && ParseHostChar(s, host[p]) == Some(t)
    requires HostParted(start, host[..p], off, f, data[f])
    ensures HostParted(start, host[..p + 1], off, f, HostCounted(fields, data, s, t, off + p).1[f])
    ensures HostPart(t) == Some(f) ==> HostCounted(fields, data, s, t, off + p).1[f].len > 0
  {
    hide ParseHostChar, HostPart, IsHostPart, HostRun, Short;
    HostPartedStep(start, host[..p], host[p], off, f, data[f]);
    assert host[..p] + [host[p]] == host[..p + 1];
    HostSpanWithin(start, host[..p], off, f, data[f]);
    ShortOf(off + p);
    ShortOf(data[f].len + 1);
  }

  lemma HostSpanWithin(start: HostState, host: string, off: nat, f: Field, s: Span)
    requires IsHostPart(start, host, off, f, s)
    ensures s.len > 0 ==> off <= s.off && s.off + s.len <= off + |host|
  {
  }

  lemma SplitStep(start: HostState, host: string, p: nat, off: nat, s: HostState, t: HostState,
                  fields: set<Field>, data: FieldData)
    requires p < |host| && off + |host| <= 0xFFFF && HostPart(start).None?
    requires HostRun(start, host[..p]) == Some(s) && ParseHostChar(s, host[p]) == Some(t)
    requires Split(start, host[..p], off, fields, data)
    ensures var (fields', data') := HostCounted(fields, data, s, t, off + p);
            Split(start, host[..p + 1], off, fields', data')
  {
    hide ParseHostChar, HostPart, HostParted, HostRun, Short;
    CountedHost(start, host, p, off, UserInfo, s, t, fields, data);
    CountedHost(start, host, p, off, Host, s, t, fields, data);
    CountedHost(start, host, p, off, Port, s, t, fields, data);
    GoesOnCounted(start, host[..p], off, UserInfo, s, t, data);
    GoesOnCounted(start, host[..p], off, Port, s, t, data);
  }

  lemma GoesOnCounted(start: HostState, host: string, off: nat, f: Field, s: HostState, t: HostState, data: FieldData)
    requires HostParted(start, host, off, f, data[f]) && HostRun(start, host) == Some(s) && HostPart(start).None?
    ensures s == t && HostPart(t) == Some(f) ==> data[f].len > 0
  {
    hide HostPart;
    if s == t && HostPart(t) == Some(f) {
      assert host != "";
      LastHostPart(start, host);
      assert HostPartAt(start, host, |host| - 1) == Some(f);
    }
  }

  lemma SplitStart(start: HostState, off: nat, fields: set<Field>, data: FieldData)
    requires start == UserInfoStart || start == HostStart
    requires data[UserInfo] == data[Port] == NO_SPAN && UserInfo !in fields && Port !in fields
    ensures HostPart(start).None? && HostRun(start, "") == Some(start)
    ensures var data' := data[Host := Span(off, 0)];
            && Split(start, "", off, fields, data')
            && Splitting(fields, data, fields, data', start, off)
  {
  }

  lemma SplittingEnds(fields0: set<Field>, data0: FieldData, fields: set<Field>, data: FieldData,
                      s: HostState, p: nat, len: nat)
    requires Splitting(fields0, data0, fields, data, s, p) && p <= len
    requires forall f :: data0[f].off + data0[f].len <= len
    ensures forall f :: data[f].off + data[f].len <= len
    ensures forall f :: !InServer(f) ==> data[f] == data0[f]
    ensures forall f :: !InServer(f) || f == Host ==> (f in fields <==> f in fields0)
  {
  }

  /** The first pass, in the terms of PartsFit. */
  lemma PartsFound(text: string, connect: bool, fields: set<Field>, data: FieldData, last: Option<Field>)
    requires Parted(text, connect, fields, data, last)
    ensures var h := data[Host];
            && IsPart(text, connect, Host, h) && h.off + h.len <= |text|
            && text[h.off..h.off + h.len] == PartText(text, connect, Host)
            && (PartsFit(text, connect) <==> (Schema in fields || Host in fields ==> HostFits(text, connect)))
  {
    hide UrlRun, PartText, HostFits, PartRank;
    var s := data[Schema];
    assert IsPart(text, connect, Host, data[Host]) && IsPart(text, connect, Schema, s);
    PartTextIs(text, connect, Host, data[Host]);
    PartTextIs(text, connect, Schema, s);
    assert |text[s.off..s.off + s.len]| == s.len;
  }

  lemma HostVerdict(text: string, connect: bool, foundAt: bool)
    requires foundAt <==> '@' in PartText(text, connect, Host)
    ensures var start := if foundAt then UserInfoStart else HostStart;
            var t := HostRun(start, PartText(text, connect, Host));
            start == HostOpening(text, connect) && (HostFits(text, connect) <==> t.Some? && HostClosable(t.value))
  {
  }

  /** What the two passes found, put together: every field is where it is, or nowhere. */
  ghost predicate Found(text: string, connect: bool, fields: set<Field>, data: FieldData) {
    forall f :: FoundOne(text, connect, f, f in fields, data[f])
  }

  ghost predicate FoundOne(text: string, connect: bool, f: Field, there: bool, s: Span) {
    && (there <==> s.len > 0)
    && Covers(text, connect, f, if there then s else NO_SPAN)
  }

  /** Where there is no server part, the first pass has found it all. */
  lemma FoundAlone(text: string, connect: bool, fields: set<Field>, data: FieldData, last: Option<Field>)
    requires Parted(text, connect, fields, data, last) && Host !in fields
    requires UserInfo !in fields && Port !in fields
    ensures Found(text, connect, fields, data)
  {
    hide Covers, IsPart, PartRank, UrlRun;
    forall f
      ensures FoundOne(text, connect, f, f in fields, data[f])
    {
      assert IsPart(text, connect, f, data[f]);
      if InServer(f) {
        assert IsPart(text, connect, Host, data[Host]);
        NoServerField(text, connect, data[Host], f);
      } else {
        OtherField(text, connect, f, data[f]);
        EmptyCovers(text, connect, f, data[f]);
      }
    }
  }

  lemma EmptyCovers(text: string, connect: bool, f: Field, s: Span)
    requires Covers(text, connect, f, s)
    ensures s.len == 0 ==> Covers(text, connect, f, NO_SPAN)
  {
  }

  /** And where there is one, the second pass has found the rest. */
  lemma FoundBoth(text: string, connect: bool, fields0: set<Field>, data0: FieldData, last: Option<Field>,
                  fields: set<Field>, data: FieldData)
    requires Parted(text, connect, fields0, data0, last) && HostFits(text, connect)
    requires forall f :: !InServer(f) ==> data[f] == data0[f]
    requires forall f :: !InServer(f) || f == Host ==> (f in fields <==> f in fields0)
    requires forall f :: data[f].off + data[f].len <= |text|
    requires var h := data0[Host];
             && IsPart(text, connect, Host, h)
             && Split(HostOpening(text, connect), text[h.off..h.off + h.len], h.off, fields, data)
    ensures Found(text, connect, fields, data)
  {
    hide Covers, IsPart, PartRank, UrlRun, IsHostPart, HostRun, PartText;
    PartedWithin(text, connect, fields0, data0, last);
    var h := data0[Host];
    var start, host := HostOpening(text, connect), text[h.off..h.off + h.len];
    PartTextIs(text, connect, Host, h);
    assert HostParted(start, host, h.off, Host, data[Host]);
    HostNamed(start, host, h.off, data[Host]);
    HostNotEmpty(start, host);
    forall f
      ensures FoundOne(text, connect, f, f in fields, data[f])
    {
      if InServer(f) {
        assert HostParted(start, host, h.off, f, data[f]);
        ServerField(text, connect, h, f, data[f]);
      } else {
        assert IsPart(text, connect, f, data0[f]);
        OtherField(text, connect, f, data[f]);
      }
      EmptyCovers(text, connect, f, data[f]);
    }
  }

  lemma HostNotEmpty(start: HostState, host: string)
    requires start == UserInfoStart || start == HostStart
    requires HostRun(start, host).Some? && HostClosable(HostRun(start, host).value)
    ensures host != "" && HostRank(HostRun(start, host).value) >= 4
  {
  }

  lemma FoundHas(text: string, connect: bool, fields: set<Field>, data: FieldData, f: Field)
    requires Found(text, connect, fields, data)
    ensures f in fields <==> HasField(text, connect, f)
    ensures Covers(text, connect, f, if f in fields then data[f] else NO_SPAN)
    ensures f in fields ==> data[f].len > 0
  {
    hide FieldAt;
    assert FoundOne(text, connect, f, f in fields, data[f]);
    if f in fields {
      assert FieldAt(text, connect, data[f].off) == Some(f);
    }
  }

  lemma FoundConnect(text: string, connect: bool, fields: set<Field>, data: FieldData)
    requires Found(text, connect, fields, data)
    ensures fields == {Host, Port} <==> forall f :: HasField(text, connect, f) <==> f == Host || f == Port
  {
    hide Found, HasField;
    forall f
      ensures f in fields <==> HasField(text, connect, f)
    {
      FoundHas(text, connect, fields, data, f);
    }
  }

  lemma FoundAll(text: string, connect: bool, fields: set<Field>, data: FieldData)
    requires Found(text, connect, fields, data)
    ensures forall f :: f in fields <==> HasField(text, connect, f)
    ensures forall f :: f in fields ==> data[f].len > 0 && Covers(text, connect, f, data[f])
  {
    hide Found, HasField, Covers;
    forall f
      ensures f in fields <==> HasField(text, connect, f)
      ensures f in fields ==> data[f].len > 0 && Covers(text, connect, f, data[f])
    {
      FoundHas(text, connect, fields, data, f);
    }
  }

  lemma FoundPort(all: string, len: nat, connect: bool, fields: set<Field>, data: FieldData)
    requires len < |all| && !IsNum(all[len])
    requires PartsFit(all[..len], connect) && Found(all[..len], connect, fields, data)
    ensures var n := PortOf(all[..len], connect);
            if Port in fields then
              data[Port].off <= |all| && StrToUl(all[data[Port].off..]) == if n <= ULLONG_MAX then n else ULLONG_MAX
            else n == 0
  {
    hide Found, FieldAt, UrlRun, HostFits, PartText, PortOf;
    FoundHas(all[..len], connect, fields, data, Port);
    if Port in fields {
      assert FieldAt(all[..len], connect, data[Port].off) == Some(Port);
      PortDigit(all[..len], connect, data[Port].off);
      ServerFits(all[..len], connect, data[Port].off);
      PortNumber(all, len, connect, data[Port]);
    } else {
      NoPort(all[..len], connect);
    }
  }

  lemma ServerFits(text: string, connect: bool, i: nat)
    requires PartsFit(text, connect) && i < |text| && PartAt(text, connect, i) == Some(Host)
    ensures HostFits(text, connect)
  {
    hide UrlRun, HostFits, PartAfter;
    PartTextGrows(text, connect, Host, i + 1);
    assert PartText(text[..i + 1], connect, Host) != "";
  }

  class HttpParserUrl {
    /** The bits of `field_set`. */
    var fieldSet: set<Field>
    var port: nat
    var fieldData: FieldData

    /** The result as the caller clears it. */
    constructor ()
      ensures Zeroed() && fieldSet == {} && port == 0
    {
      fieldSet, port, fieldData := {}, 0, ZEROED;
    }

    ghost predicate Zeroed()
      reads this
    {
      forall f :: fieldData[f] == NO_SPAN
    }

    ghost predicate Within(n: nat)
      reads this
    {
      forall f :: fieldData[f].off + fieldData[f].len <= n
    }

    /** The fields are those of the URL, where they are in it, and the port is its number. */
    ghost predicate Describes(text: string, connect: bool)
      reads this
    {
      && (forall f :: f in fieldSet <==> HasField(text, connect, f))
      && (forall f :: f in fieldSet ==> fieldData[f].len > 0 && Covers(text, connect, f, fieldData[f]))
      && port == PortOf(text, connect)
    }

    /** The byte at p in field f, which the byte before it was in or not. */
    method CountByte(f: Field, goesOn: bool, p: nat)
      requires Within(p)
      modifies this
      ensures port == old(port) && fieldSet == if goesOn then old(fieldSet) else old(fieldSet) + {f}
      ensures fieldData == Counted(old(fieldData), f, goesOn, p) && Within(p + 1)
    {
      hide Short;
      ShortOf(p);
      ShortOf(fieldData[f].len + 1);
      if goesOn {
        fieldData := fieldData[f := Span(fieldData[f].off, Short(fieldData[f].len + 1))];
      } else {
        fieldData := fieldData[f := Span(Short(p), 1)];
        fieldSet := fieldSet + {f};
      }
    }

    /** When p bytes of the URL have been scanned: the automaton is in s, and the last field was last. */
    ghost predicate Scanned(text: string, isConnect: bool, p: nat, s: UrlState, last: Option<Field>, foundAt: bool)
      requires p <= |text|
      reads this
    {
      && port == 0 && Within(p) && UrlRun(UrlStart(isConnect), text[..p]) == Some(s)
      && fieldData[UserInfo] == fieldData[Port] == NO_SPAN && UserInfo !in fieldSet && Port !in fieldSet
      && (foundAt <==> '@' in PartText(text[..p], isConnect, Host))
      && (|text| <= 0xFFFF ==> Parted(text[..p], isConnect, fieldSet, fieldData, last))
    }

    /** The byte at p, which takes the automaton from s to t. */
    method TakeByte(ghost text: string, ghost isConnect: bool, p: nat, ghost s: UrlState, t: UrlState,
                    last: Option<Field>, ghost foundAt: bool)
      returns (now: Option<Field>)
      requires p < |text| && Scanned(text, isConnect, p, s, last, foundAt) && ParseUrlChar(s, text[p]) == Some(t)
      modifies this
      ensures Scanned(text, isConnect, p + 1, t, now, foundAt || t == ReqServerWithAt)
    {
      hide ParseUrlChar, Parted, Part, UrlRun, PartText;
      OneUrlByte(text, isConnect, p);
      if |text| <= 0xFFFF {
        CountedParted(text, isConnect, p, fieldSet, fieldData, last);
      }
      var uf := Part(t);
      now := last;
      if uf.Some? {
        CountByte(uf.value, uf == last, p);
        now := uf;
      }
    }

    /** The loop over the URL. */
    method FindParts(buf: array<char>, len: nat, isConnect: bool) returns (alive: bool, foundAt: bool)
      requires len <= buf.Length && Zeroed()
      modifies this
      ensures alive <==> UrlRun(UrlStart(isConnect), buf[..len]).Some?
      ensures alive ==> fieldData[UserInfo] == fieldData[Port] == NO_SPAN && UserInfo !in fieldSet && Port !in fieldSet
      ensures alive ==> port == 0 && Within(len) && (foundAt <==> '@' in PartText(buf[..len], isConnect, Host))
      ensures alive && len <= 0xFFFF ==>
                exists last :: Parted(buf[..len], isConnect, fieldSet, fieldData, last)
    {
      hide ParseUrlChar, Parted, Part, UrlRun, PartText;
      ghost var text := buf[..len];
      port, fieldSet := 0, {};
      var s := UrlStart(isConnect);
      var last: Option<Field> := None;
      foundAt := false;
      var p := 0;
      PartedStart(text[..p], isConnect, fieldData);
      while p < len
        invariant p <= len && Scanned(text, isConnect, p, s, last, foundAt)
      {
        var t := ParseUrlChar(s, buf[p]);
        if t.None? {
          OneUrlByte(text, isConnect, p);
          return false, foundAt;
        }
        last := TakeByte(text, isConnect, p, s, t.value, last, foundAt);
        s := t.value;
        if s == ReqServerWithAt {
          foundAt := true;
        }
        p := p + 1;
      }
      assert text[..p] == text;
      alive := true;
    }

    /** The switch of http_parse_host. */
    method CountHostByte(s: HostState, t: HostState, p: nat)
      modifies this
      ensures port == old(port)
      ensures (fieldSet, fieldData) == HostCounted(old(fieldSet), old(fieldData), s, t, p)
    {
      hide Short;
      match t
      case InHost =>
        var off := if s != InHost then Short(p) else fieldData[Host].off;
        fieldData := fieldData[Host := Span(off, Short(fieldData[Host].len + 1))];
      case InV6 =>
        var off := if s != InV6 then Short(p) else fieldData[Host].off;
        fieldData := fieldData[Host := Span(off, Short(fieldData[Host].len + 1))];
      case InPort =>
        fieldData := Counted(fieldData, Port, s == InPort, p);
        fieldSet := if s == InPort then fieldSet else fieldSet + {Port};
      case InUserInfo =>
        fieldData := Counted(fieldData, UserInfo, s == InUserInfo, p);
        fieldSet := if s == InUserInfo then fieldSet else fieldSet + {UserInfo};
      case _ =>
    }

    /** http_parse_host */
    method ParseHost(buf: array<char>, len: nat, foundAt: bool) returns (fits: bool)
      requires len <= buf.Length && Within(len)
      requires fieldData[UserInfo] == fieldData[Port] == NO_SPAN && UserInfo !in fieldSet && Port !in fieldSet
      modifies this
      ensures fits ==>
                && Within(len) && port == old(port)
                && (forall f :: !InServer(f) ==> fieldData[f] == old(fieldData[f]))
                && (forall f :: !InServer(f) || f == Host ==> (f in fieldSet <==> f in old(fieldSet)))
      ensures var h := old(fieldData[Host]);
              var t := HostRun(if foundAt then UserInfoStart else HostStart, buf[h.off..h.off + h.len]);
              fits <==> t.Some? && HostClosable(t.value)
      ensures fits && len <= 0xFFFF ==>
                var h := old(fieldData[Host]);
                Split(if foundAt then UserInfoStart else HostStart, buf[h.off..h.off + h.len], h.off,
                      fieldSet, fieldData)
    {
      hide ParseHostChar, Splitting, Split, HostPart, HostRun, HostCounted, HostRank, HostClosable, InServer;
      var h := fieldData[Host];
      ghost var host := buf[h.off..h.off + h.len];
      SplitStart(if foundAt then UserInfoStart else HostStart, h.off, fieldSet, fieldData);
      fieldData := fieldData[Host := Span(h.off, 0)];
      var s := if foundAt then UserInfoStart else HostStart;
      ghost var start := s;
      var p := h.off;
      assert host[..0] == "";
      while p < h.off + h.len
        invariant h.off <= p <= h.off + h.len && port == old(port)
        invariant HostRun(start, host[..p - h.off]) == Some(s)
        invariant Splitting(old(fieldSet), old(fieldData), fieldSet, fieldData, s, p)
        invariant len <= 0xFFFF ==> Split(start, host[..p - h.off], h.off, fieldSet, fieldData)
      {
        OneHostByte(start, host, p - h.off);
        var t := ParseHostChar(s, buf[p]);
        if t.None? {
          return false;
        }
        SplittingStep(old(fieldSet), old(fieldData), fieldSet, fieldData, s, t.value, p);
        if len <= 0xFFFF {
          SplitStep(start, host, p - h.off, h.off, s, t.value, fieldSet, fieldData);
        }
        CountHostByte(s, t.value, p);
        s := t.value;
        p := p + 1;
      }
      assert host[..p - h.off] == host;
      SplittingEnds(old(fieldSet), old(fieldData), fieldSet, fieldData, s, p, len);
      fits := HostClosable(s);
    }

    /** Both loops. */
    method FindFields(buf: array<char>, len: nat, isConnect: bool) returns (fits: bool)
      requires len <= buf.Length && Zeroed()
      modifies this
      ensures fits ==> Within(len) && port == 0
      ensures len <= 0xFFFF ==> (fits <==> PartsFit(buf[..len], isConnect))
      ensures len <= 0xFFFF && fits ==> Found(buf[..len], isConnect, fieldSet, fieldData)
    {
      hide UrlRun, PartText, HostRun, HostOpening, Found, Parted, Split, HostFits, IsPart, HostClosable;
      ghost var text := buf[..len];
      var alive, foundAt := FindParts(buf, len, isConnect);
      if !alive {
        assert !PartsFit(text, isConnect);
        return false;
      }
      ghost var fields0, data0 := fieldSet, fieldData;
      fits := true;
      if Schema in fieldSet || Host in fieldSet {
        fits := ParseHost(buf, len, foundAt);
      }
      if len <= 0xFFFF {
        ghost var last :| Parted(text, isConnect, fields0, data0, last);
        ghost var h := data0[Host];
        PartsFound(text, isConnect, fields0, data0, last);
        HostVerdict(text, isConnect, foundAt);
        PrefixSlice(buf[..], len, h.off, h.off + h.len);
        assert buf[h.off..h.off + h.len] == buf[..][h.off..h.off + h.len] && buf[..][..len] == text;
        if Schema in fields0 || Host in fields0 {
          if fits {
            FoundBoth(text, isConnect, fields0, data0, last, fieldSet, fieldData);
          }
        } else {
          FoundAlone(text, isConnect, fields0, data0, last);
        }
      }
    }

    /** http_parser_parse_url on the first len bytes of buf; strtoul needs a byte after them that ends a port. */
    method ParseUrl(buf: array<char>, len: nat, isConnect: bool) returns (rc: int)
      requires len < buf.Length && !IsNum(buf[len])
      requires Zeroed()
      modifies this
      ensures rc == 0 || rc == 1
      ensures len <= 0xFFFF ==> (rc == 0 <==> Accepted(buf[..len], isConnect))
      ensures len <= 0xFFFF && rc == 0 ==> Describes(buf[..len], isConnect)
      ensures len <= 0xFFFF ==> (rc == 0 <==> UrlGrammar.Takes(buf[..len], isConnect))
      ensures len <= 0xFFFF && rc == 0 ==> UrlGrammar.Tells(buf[..len], isConnect, fieldSet, fieldData, port)
    {
      hide PartsFit, Found, HasField, PortOf, Covers, UrlGrammar.Takes, UrlGrammar.Tells;
      UrlGrammar.AcceptedByText(buf[..len], isConnect);
      ghost var text := buf[..len];
      var fits := FindFields(buf, len, isConnect);
      if !fits {
        return 1;
      }
      if len <= 0xFFFF {
        FoundConnect(text, isConnect, fieldSet, fieldData);
        FoundPort(buf[..], len, isConnect, fieldSet, fieldData);
      }
      if isConnect && fieldSet != {Host, Port} {
        return 1;
      }
      if Port in fieldSet {
        var v := StrToUl(buf[fieldData[Port].off..]);
        if v > 0xFFFF {
          return 1;
        }
        port := v;
      }
      if len <= 0xFFFF {
        FoundAll(text, isConnect, fieldSet, fieldData);
        UrlGrammar.FoundTells(text, isConnect, fieldSet, fieldData);
      }
      return 0;
    }
  }
}

