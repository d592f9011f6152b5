/**
 Fields as spans: what the two passes of http_parser_parse_url keep true of the offsets and
 lengths they have counted so far.
 */
module UrlSpans {
  import opened Chars
  import opened Types
  import opened UrlChar
  import opened Lengths
  import opened UrlFields

  /** A field's offset and length, 16 bits each. */
  datatype Span = Span(off: nat, len: nat)

  const NO_SPAN := Span(0, 0)

  /** The array `field_data`. */
  type FieldData = m: map<Field, Span> | forall f: Field :: f in m witness ZEROED

  const ZEROED: map<Field, Span> := map f: Field | true :: NO_SPAN

  function PartAt(text: string, connect: bool, i: nat): Option<Field>
    requires i < |text|
  {
    PartAfter(text[..i + 1], connect)
  }

  /** s is exactly where text has part f. */
  ghost predicate IsPart(text: string, connect: bool, f: Field, s: Span) {
    && s.off + s.len <= |text|
    && forall i :: 0 <= i < |text| ==> (PartAt(text, connect, i) == Some(f) <==> s.off <= i < s.off + s.len)
  }

  /** A part's state in the URL automaton. */
  function PartRank(f: Field): nat {
    match f
    case Schema => 1
    case Host => 5
    case Path => 6
    case Query => 8
    case Fragment => 10
    case _ => 0
  }

  /** After the first pass over text: every part is in its span, and none after the last one. */
  ghost predicate Parted(text: string, connect: bool, fields: set<Field>, data: FieldData, last: Option<Field>) {
    && UrlRun(UrlStart(connect), text).Some?
    && (forall f :: IsPart(text, connect, f, data[f]))
    && (forall f :: f in fields <==> data[f].len > 0)
    && (last.None? ==> fields == {})
    && (last.Some? ==>
          && last.value in fields
          && PartRank(last.value) <= UrlRank(UrlRun(UrlStart(connect), text).value)
          && forall f :: f in fields ==> PartRank(f) <= PartRank(last.value))
  }

  /** The fields after a byte at p that is in field uf, or in none. */
  function Grown(fields: set<Field>, data: FieldData,
                 last: Option<Field>, uf: Option<Field>, p: nat): (set<Field>, FieldData)
  {
    if uf.None? then (fields, data)
    else if uf == last then (fields, data[uf.value := Span(data[uf.value].off, data[uf.value].len + 1)])
    else (fields + {uf.value}, data[uf.value := Span(p, 1)])
  }

  lemma PartRankIs(s: UrlState)
    ensures Part(s).Some? ==> PartRank(Part(s).value) == UrlRank(s) > 0
    ensures forall f :: PartRank(f) == UrlRank(s) && PartRank(f) > 0 ==> Part(s) == Some(f)
  {
  }

  lemma PartsBefore(text: string, ch: char, connect: bool, i: nat)
    requires i < |text|
    ensures PartAt(text + [ch], connect, i) == PartAt(text, connect, i)
  {
    assert (text + [ch])[..i + 1] == text[..i + 1];
  }

  lemma LastPart(text: string, connect: bool)
    requires text != ""
    ensures PartAt(text, connect, |text| - 1) == PartAfter(text, connect)
  {
    assert text[..|text|] == text;
  }

  /** A span over text[..n], kept, lengthened or begun by the next byte. */
  lemma OnePart(text: string, ch: char, connect: bool, f: Field, s: Span)
    requires IsPart(text, connect, f, s)
    ensures var now := PartAfter(text + [ch], connect) == Some(f);
            && (!now ==> IsPart(text + [ch], connect, f, s))
            && (now && s.len == 0 ==> IsPart(text + [ch], connect, f, Span(|text|, 1)))
            && (now && s.len > 0 && s.off + s.len == |text| ==>
                  IsPart(text + [ch], connect, f, Span(s.off, s.len + 1)))
  {
    hide PartAfter, PartAt;
    LastPart(text + [ch], connect);
    forall i | 0 <= i < |text|
      ensures PartAt(text + [ch], connect, i) == PartAt(text, connect, i)
    {
      PartsBefore(text, ch, connect, i);
    }
  }

  /** A part goes on right where it is, and a new one has not been met before. */
  lemma Adjoining(text: string, connect: bool, fields: set<Field>, data: FieldData, last: Option<Field>, s: UrlState)
    requires Parted(text, connect, fields, data, last) && Part(s).Some?
    requires UrlRank(UrlRun(UrlStart(connect), text).value) <= UrlRank(s)
    ensures var f := Part(s).value;
            if last == Some(f) then data[f].len > 0 && data[f].off + data[f].len == |text| else data[f].len == 0
  {
    hide Part, UrlRun;
    var f := Part(s).value;
    var before := UrlRun(UrlStart(connect), text).value;
    PartRankIs(before);
    PartRankIs(s);
    if last == Some(f) {
      assert text != "";
      LastPart(text, connect);
      assert IsPart(text, connect, f, data[f]);
      assert PartAt(text, connect, |text| - 1) == Some(f);
    }
  }

  lemma PartedStep(text: string, ch: char, connect: bool, fields: set<Field>, data: FieldData, last: Option<Field>)
    requires Parted(text, connect, fields, data, last)
    requires ParseUrlChar(UrlRun(UrlStart(connect), text).value, ch).Some?
    ensures var s := ParseUrlChar(UrlRun(UrlStart(connect), text).value, ch).value;
            var (fields', data') := Grown(fields, data, last, Part(s), |text|);
            Parted(text + [ch], connect, fields', data', if Part(s).Some? then Part(s) else last)
  {
    hide ParseUrlChar, Part, IsPart;
    var before := UrlRun(UrlStart(connect), text).value;
    var s := ParseUrlChar(before, ch).value;
    assert (text + [ch])[..|text|] == text;
    assert UrlRun(UrlStart(connect), text + [ch]) == Some(s);
    UrlStepForward(before, ch);
    PartRankIs(s);
    if Part(s).Some? {
      Adjoining(text, connect, fields, data, last, s);
    }
    var (fields', data') := Grown(fields, data, last, Part(s), |text|);
    forall f
      ensures IsPart(text + [ch], connect, f, data'[f])
    {
      OnePart(text, ch, connect, f, data[f]);
    }
  }

  // ---- the host ----

  function HostPartAt(start: HostState, host: string, j: nat): Option<Field>
    requires j < |host|
  {
    HostPartAfter(start, host[..j + 1])
  }

  /** s is exactly where the host at offset off has part f. */
  ghost predicate IsHostPart(start: HostState, host: string, off: nat, f: Field, s: Span) {
    && (s.len > 0 ==> off <= s.off && s.off + s.len <= off + |host|)
    && forall j :: 0 <= j < |host| ==>
         (HostPartAt(start, host, j) == Some(f) <==> s.off <= off + j < s.off + s.len)
  }

  function HostPartRank(f: Field): nat {
    match f
    case UserInfo => 1
    case Host => 4
    case Port => 7
    case _ => 0
  }

  /** After the second pass over host, for a field of the server part. */
  ghost predicate HostParted(start: HostState, host: string, off: nat, f: Field, s: Span) {
    && HostRun(start, host).Some?
    && IsHostPart(start, host, off, f, s)
    && (s.len > 0 ==> HostPartRank(f) <= HostRank(HostRun(start, host).value))
  }

  /** One byte of the host, at offset p, which takes the automaton from s to t. */
  function HostGrown(s: HostState, t: HostState, f: Field, span: Span, p: nat): Span {
    if HostPart(t) != Some(f) then span
    else if s == t then Span(span.off, span.len + 1)
    else Span(p, 1)
  }

  lemma HostPartRankIs(s: HostState)
    ensures HostPart(s).Some? ==> HostPartRank(HostPart(s).value) == HostRank(s) > 0
  {
  }

  lemma LastHostPart(start: HostState, host: string)
    requires host != ""
    ensures HostPartAt(start, host, |host| - 1) == HostPartAfter(start, host)
  {
    assert host[..|host|] == host;
  }

  lemma HostPartsBefore(start: HostState, host: string, ch: char, j: nat)
    requires j < |host|
    ensures HostPartAt(start, host + [ch], j) == HostPartAt(start, host, j)
  {
    assert (host + [ch])[..j + 1] == host[..j + 1];
  }

  lemma OneHostPart(start: HostState, host: string, ch: char, off: nat, f: Field, s: Span, t: Span)
    requires IsHostPart(start, host, off, f, s)
    requires var now := HostPartAfter(start, host + [ch]) == Some(f);
             if !now then t == s
             else if s.len == 0 then t == Span(off + |host|, 1)
             else s.off + s.len == off + |host| && t == Span(s.off, s.len + 1)
    ensures IsHostPart(start, host + [ch], off, f, t)
  {
    hide HostPartAfter, HostPartAt;
    LastHostPart(start, host + [ch]);
    forall j | 0 <= j < |host + [ch]|
      ensures HostPartAt(start, host + [ch], j) == Some(f) <==> t.off <= off + j < t.off + t.len
    {
      if j < |host| {
        HostPartsBefore(start, host, ch, j);
        assert HostPartAt(start, host, j) == Some(f) <==> s.off <= off + j < s.off + s.len;
      }
    }
  }

  /** A host that ends in part f: the span ends where the host does. */
  lemma HostPartEnds(start: HostState, host: string, off: nat, f: Field, s: Span)
    requires IsHostPart(start, host, off, f, s) && HostPart(start).None?
    requires HostRun(start, host).Some? && HostPart(HostRun(start, host).value) == Some(f)
    ensures s.len > 0 && s.off + s.len == off + |host|
  {
    hide HostPart;
    assert host != "";
    LastHostPart(start, host);
    assert HostPartAt(start, host, |host| - 1) == Some(f);
  }

  lemma HostPartedStep(start: HostState, host: string, ch: char, off: nat, f: Field, s: Span)
    requires HostParted(start, host, off, f, s) && HostPart(start).None?
    requires ParseHostChar(HostRun(start, host).value, ch).Some?
    ensures var before := HostRun(start, host).value;
            var t := ParseHostChar(before, ch).value;
            && HostParted(start, host + [ch], off, f, HostGrown(before, t, f, s, off + |host|))
            && (HostPart(t) == Some(f) && before != t ==> s.len == 0)
  {
    hide ParseHostChar, HostPart, IsHostPart, HostRank, HostPartRank;
    var before := HostRun(start, host).value;
    var t := ParseHostChar(before, ch).value;
    assert (host + [ch])[..|host|] == host;
    assert HostRun(start, host + [ch]) == Some(t);
    HostStepForward(before, ch);
    HostPartRankIs(before);
    HostPartRankIs(t);
    if HostPart(t) == Some(f) && before == t {
      HostPartEnds(start, host, off, f, s);
    }
    OneHostPart(start, host, ch, off, f, s, HostGrown(before, t, f, s, off + |host|));
  }

  // ---- both passes together ----

  /** The span of f without the last byte. */
  function Cut(s: Span, n: nat): Span {
    if s.len == 0 then NO_SPAN
    else if s.off + s.len > n then Span(s.off, s.len - 1)
    else s
  }

  lemma CutIsPart(before: string, ch: char, connect: bool, f: Field, s: Span)
    requires IsPart(before + [ch], connect, f, s)
    ensures IsPart(before, connect, f, Cut(s, |before|))
    ensures PartAfter(before + [ch], connect) == Some(f) <==> s.len > 0 && s.off + s.len > |before|
  {
    hide PartAfter, PartAt;
    LastPart(before + [ch], connect);
    forall i | 0 <= i < |before|
      ensures PartAt(before, connect, i) == PartAt(before + [ch], connect, i)
    {
      PartsBefore(before, ch, connect, i);
    }
  }

  /** The part texts are the slices of their spans. */
  lemma {:induction false} PartTextIs(text: string, connect: bool, f: Field, s: Span)
    requires IsPart(text, connect, f, s)
    ensures PartText(text, connect, f) == text[s.off..s.off + s.len]
    decreases |text|
  {
    hide PartAfter, PartAt;
    if text == "" {
    } else {
      var n := |text| - 1;
      var before := text[..n];
      assert text == before + [text[n]];
      CutIsPart(before, text[n], connect, f, s);
      CutText(text, s);
      PartTextIs(before, connect, f, Cut(s, n));
    }
  }

  lemma SliceSnoc(text: string, from: nat, to: nat)
    requires from < to <= |text|
    ensures text[from..to] == text[from..to - 1] + [text[to - 1]]
  {
  }

  lemma DropTake(text: string, from: nat, n: nat)
    requires from + n <= |text|
    ensures text[from..][..n] == text[from..from + n]
  {
  }

  lemma PrefixSlice(text: string, n: nat, from: nat, to: nat)
    requires from <= to <= n <= |text|
    ensures text[..n][from..to] == text[from..to]
  {
  }

  lemma CutText(text: string, s: Span)
    requires text != "" && s.off + s.len <= |text|
    ensures var n := |text| - 1;
            var t := Cut(s, n);
            && t.off + t.len <= n
            && text[s.off..s.off + s.len]
            == text[..n][t.off..t.off + t.len] + if s.len > 0 && s.off + s.len > n then [text[n]] else []
  {
    var n := |text| - 1;
    var t := Cut(s, n);
    if s.len > 0 && s.off + s.len > n {
      SliceSnoc(text, s.off, s.off + s.len);
      PrefixSlice(text, n, s.off, n);
    } else if s.len > 0 {
      PrefixSlice(text, n, s.off, s.off + s.len);
    } else {
      assert text[..n][t.off..t.off + t.len] == "" && text[s.off..s.off + s.len] == "";
    }
  }

  /** s is exactly where text has field f. */
  ghost predicate Covers(text: string, connect: bool, f: Field, s: Span) {
    && s.off + s.len <= |text|
    && forall i :: 0 <= i < |text| ==> (FieldAt(text, connect, i) == Some(f) <==> s.off <= i < s.off + s.len)
  }

  lemma {:induction false} FieldTextIs(text: string, connect: bool, f: Field, s: Span, n: nat)
    requires Covers(text, connect, f, s) && n <= |text|
    ensures FieldText(text, connect, f, n)
         == if n <= s.off then "" else if n <= s.off + s.len then text[s.off..n] else text[s.off..s.off + s.len]
    decreases n
  {
    hide FieldAt;
    if n == 0 {
    } else {
      FieldTextIs(text, connect, f, s, n - 1);
      assert FieldAt(text, connect, n - 1) == Some(f) <==> s.off <= n - 1 < s.off + s.len;
      if s.off < n <= s.off + s.len {
        SliceSnoc(text, s.off, n);
      }
    }
  }

  lemma PartsUpTo(text: string, connect: bool, f: Field, s: Span, n: nat)
    requires IsPart(text, connect, f, s) && s.off <= n <= s.off + s.len
    ensures PartText(text[..n], connect, f) == text[s.off..n]
  {
    hide PartAfter, PartText;
    var t := Span(s.off, n - s.off);
    forall i | 0 <= i < n
      ensures PartAt(text[..n], connect, i) == PartAt(text, connect, i)
    {
      assert text[..n][..i + 1] == text[..i + 1];
    }
    assert IsPart(text[..n], connect, f, t);
    PartTextIs(text[..n], connect, f, t);
    PrefixSlice(text, n, s.off, n);
  }

  predicate InServer(f: Field) {
    f == UserInfo || f == Host || f == Port
  }

  lemma HostPartsInServer(s: HostState, host: string)
    ensures HostPartAfter(s, host).Some? ==> InServer(HostPartAfter(s, host).value)
  {
    hide HostRun;
  }

  /** A field of the server part, found by the second pass in what the first one found. */
  lemma ServerField(text: string, connect: bool, h: Span, f: Field, s: Span)
    requires IsPart(text, connect, Host, h) && InServer(f)
    requires IsHostPart(HostOpening(text, connect), text[h.off..h.off + h.len], h.off, f, s)
    requires s.off + s.len <= |text|
    ensures Covers(text, connect, f, s)
  {
    hide PartText, HostOpening, HostPartAfter, PartAfter;
    var start, host := HostOpening(text, connect), text[h.off..h.off + h.len];
    forall i | 0 <= i < |text|
      ensures FieldAt(text, connect, i) == Some(f) <==> s.off <= i < s.off + s.len
    {
      assert PartAt(text, connect, i) == Some(Host) <==> h.off <= i < h.off + h.len;
      if h.off <= i < h.off + h.len {
        PartsUpTo(text, connect, Host, h, i + 1);
        assert host[..i - h.off + 1] == text[h.off..i + 1];
        assert HostPartAt(start, host, i - h.off) == Some(f) <==> s.off <= i < s.off + s.len;
      } else {
        PartsOutside(text[..i + 1], connect);
      }
    }
  }

  /** The URL automaton by itself gives neither user information nor a port. */
  lemma PartsOutside(text: string, connect: bool)
    ensures PartAfter(text, connect) != Some(UserInfo) && PartAfter(text, connect) != Some(Port)
  {
    hide UrlRun;
  }

  lemma OtherField(text: string, connect: bool, f: Field, s: Span)
    requires IsPart(text, connect, f, s) && !InServer(f)
    ensures Covers(text, connect, f, s)
  {
    hide PartText, HostOpening, HostPartAfter, PartAfter;
    forall i | 0 <= i < |text|
      ensures FieldAt(text, connect, i) == Some(f) <==> s.off <= i < s.off + s.len
    {
      assert PartAt(text, connect, i) == Some(f) <==> s.off <= i < s.off + s.len;
      HostPartsInServer(HostOpening(text, connect), PartText(text[..i + 1], connect, Host));
    }
  }

  /** Without a server part no byte is in one of its fields. */
  lemma NoServerField(text: string, connect: bool, h: Span, f: Field)
    requires IsPart(text, connect, Host, h) && h.len == 0 && InServer(f)
    ensures Covers(text, connect, f, NO_SPAN)
  {
    hide PartText, HostOpening, HostPartAfter, PartAfter;
    forall i | 0 <= i < |text|
      ensures FieldAt(text, connect, i) != Some(f)
    {
      assert PartAt(text, connect, i) != Some(Host);
      PartsOutside(text[..i + 1], connect);
    }
  }

  /** A host that may end has a name. */
  lemma {:induction false} HostNamed(start: HostState, host: string, off: nat, s: Span)
    requires start == UserInfoStart || start == HostStart
    requires HostRun(start, host).Some? && HostRank(HostRun(start, host).value) >= 4
    requires IsHostPart(start, host, off, Host, s)
    ensures s.len > 0
  {
    hide ParseHostChar;
    var n := NamedAt(start, host);
    assert HostPartAt(start, host, n) == Some(Host);
  }

  lemma {:induction false} NamedAt(start: HostState, host: string) returns (n: nat)
    requires start == UserInfoStart || start == HostStart
    requires HostRun(start, host).Some? && HostRank(HostRun(start, host).value) >= 4
    ensures n < |host| && HostPartAt(start, host, n) == Some(Host)
    decreases |host|
  {
    hide ParseHostChar, HostPart;
    n := |host| - 1;
    var before := host[..n];
    if HostRank(HostRun(start, before).value) >= 4 {
      n := NamedAt(start, before);
      assert before[..n + 1] == host[..n + 1];
    } else {
      HostBegins(HostRun(start, before).value, host[n]);
      LastHostPart(start, host);
    }
  }

  lemma HostBegins(s: HostState, ch: char)
    requires HostRank(s) < 4 && ParseHostChar(s, ch).Some? && HostRank(ParseHostChar(s, ch).value) >= 4
    ensures HostPart(ParseHostChar(s, ch).value) == Some(Host)
  {
  }

  // ---- the port ----

  /** The server part does not end before a digit. */
  lemma ServerDigit(text: string, connect: bool, e: nat)
    requires 0 < e < |text| && UrlRun(UrlStart(connect), text).Some?
    requires PartAt(text, connect, e - 1) == Some(Host) && IsNum(text[e])
    ensures PartAt(text, connect, e) == Some(Host)
  {
    hide ParseUrlChar, Part;
    UrlForward(UrlStart(connect), text, e + 1);
    var upTo := text[..e + 1];
    assert upTo[..e] == text[..e] && upTo[e] == text[e];
    UrlStepForward(UrlRun(UrlStart(connect), text[..e]).value, text[e]);
  }

  lemma PortState(s: HostState, ch: char)
    requires ParseHostChar(s, ch).Some?
    ensures HostPart(ParseHostChar(s, ch).value) == Some(Port) ==> IsNum(ch)
    ensures HostPart(s) == Some(Port) ==> HostPart(ParseHostChar(s, ch).value) == Some(Port)
  {
  }

  lemma PortDigit(text: string, connect: bool, i: nat)
    requires i < |text| && FieldAt(text, connect, i) == Some(Port)
    ensures PartAt(text, connect, i) == Some(Host) && IsNum(text[i])
  {
    hide ParseHostChar, HostPart, PartAfter, HostOpening;
    var upTo := text[..i + 1];
    PartsOutside(upTo, connect);
    assert upTo[..i] == text[..i] && upTo[i] == text[i];
    var host := PartText(upTo, connect, Host);
    var before := PartText(text[..i], connect, Host);
    assert host == before + [text[i]] && host[..|host| - 1] == before;
    PortState(HostRun(HostOpening(text, connect), before).value, text[i]);
  }

  /** A digit after a digit of the port is one more. */
  lemma PortGoesOn(text: string, connect: bool, i: nat)
    requires i + 1 < |text| && FieldAt(text, connect, i) == Some(Port) && IsNum(text[i + 1])
    requires UrlRun(UrlStart(connect), text).Some? && HostFits(text, connect)
    ensures FieldAt(text, connect, i + 1) == Some(Port)
  {
    hide ParseHostChar, HostPart, PartAfter, HostOpening, UrlRun, ParseUrlChar;
    PortDigit(text, connect, i);
    ServerDigit(text, connect, i + 1);
    var upTo := text[..i + 2];
    assert upTo[..i + 1] == text[..i + 1] && upTo[i + 1] == text[i + 1];
    var start := HostOpening(text, connect);
    var host := PartText(upTo, connect, Host);
    var before := PartText(text[..i + 1], connect, Host);
    assert host == before + [text[i + 1]] && host[..|host| - 1] == before;
    PartTextGrows(text, connect, Host, i + 2);
    HostForward(start, PartText(text, connect, Host), |host|);
    assert PartText(text, connect, Host)[..|host|] == host;
    PortState(HostRun(start, before).value, text[i + 1]);
  }

  /** The digits strtoul reads, and the number it makes of them. */
  function LeadingDigits(s: string): string {
    if s == "" || !IsNum(s[0]) then "" else [s[0]] + LeadingDigits(s[1..])
  }

  function StrToUl(s: string): nat {
    var n := Decimal(LeadingDigits(s));
    if n <= ULLONG_MAX then n else ULLONG_MAX
  }

  lemma {:induction false} DigitsLead(s: string, n: nat)
    requires n <= |s| && (forall i :: 0 <= i < n ==> IsNum(s[i])) && (n < |s| ==> !IsNum(s[n]))
    ensures LeadingDigits(s) == s[..n]
    decreases n
  {
    if n == 0 {
    } else {
      DigitsLead(s[1..], n - 1);
      assert s[..n] == [s[0]] + s[1..][..n - 1];
    }
  }

  /** strtoul at a port reads the port, and nothing after it. */
  lemma PortNumber(all: string, len: nat, connect: bool, s: Span)
    requires len < |all| && !IsNum(all[len])
    requires UrlRun(UrlStart(connect), all[..len]).Some? && HostFits(all[..len], connect)
    requires Covers(all[..len], connect, Port, s) && s.len > 0
    ensures var n := PortOf(all[..len], connect);
            StrToUl(all[s.off..]) == if n <= ULLONG_MAX then n else ULLONG_MAX
  {
    hide FieldAt, HostFits, UrlRun, FieldText, Decimal;
    var text, rest := all[..len], all[s.off..];
    var e := s.off + s.len;
    forall i | 0 <= i < s.len
      ensures IsNum(rest[i])
    {
      PortDigit(text, connect, s.off + i);
    }
    if e < len {
      assert FieldAt(text, connect, e - 1) == Some(Port);
      if IsNum(text[e]) {
        PortGoesOn(text, connect, e - 1);
      }
    }
    DigitsLead(rest, s.len);
    FieldTextIs(text, connect, Port, s, len);
    PrefixSlice(all, len, s.off, e);
    DropTake(all, s.off, s.len);
  }

  lemma NoPort(text: string, connect: bool)
    requires Covers(text, connect, Port, NO_SPAN)
    ensures PortOf(text, connect) == 0
  {
    FieldTextIs(text, connect, Port, NO_SPAN, |text|);
    assert text[0..0] == "";
  }
}
