/**
 Server parts by their text: user information, a host name or a bracketed address, and a port.
 The host automaton accepts just these, and reads each byte in the piece it stands in.
 */
module HostText {
  import opened Chars
  import opened CharSets
  import opened Types
  import opened UrlFields
  import opened UrlSpans

  /** The user information may be there and empty; the port may not. */
  datatype Authority = Authority(userInfo: Option<string>, bracketed: bool, host: string, port: Option<string>)

  function UserText(a: Authority): string {
    if a.userInfo.Some? then a.userInfo.value + "@" else ""
  }

  function HostText(a: Authority): string {
    if a.bracketed then "[" + a.host + "]" else a.host
  }

  function PortText(a: Authority): string {
    if a.port.Some? then ":" + a.port.value else ""
  }

  function PrintAuthority(a: Authority): string {
    UserText(a) + HostText(a) + PortText(a)
  }

  predicate UserOk(s: string) {
    forall i :: 0 <= i < |s| ==> UserInfoByte(s[i])
  }

  predicate HostOk(s: string) {
    forall i :: 0 <= i < |s| ==> HostChar(s[i])
  }

  predicate AddressOk(s: string) {
    forall i :: 0 <= i < |s| ==> AddressChar(s[i])
  }

  predicate PortOk(s: string) {
    forall i :: 0 <= i < |s| ==> Digit(s[i])
  }

  predicate ProperAuthority(a: Authority) {
    && (a.userInfo.Some? ==> UserOk(a.userInfo.value))
    && a.host != "" && (if a.bracketed then AddressOk(a.host) else HostOk(a.host))
    && (a.port.Some? ==> a.port.value != "" && PortOk(a.port.value))
  }

  lemma {:induction false} RunAppend(s: HostState, a: string, b: string)
    ensures var t := HostRun(s, a); HostRun(s, a + b) == if t.None? then None else HostRun(t.value, b)
    decreases |b|
  {
    hide ParseHostChar;
    if b == "" {
      assert a + b == a;
    } else {
      var n := |b| - 1;
      assert (a + b)[..|a + b| - 1] == a + b[..n] && (a + b)[|a + b| - 1] == b[n];
      RunAppend(s, a, b[..n]);
    }
  }

  lemma RunSnoc(s: HostState, a: string, ch: char)
    ensures var t := HostRun(s, a); HostRun(s, a + [ch]) == if t.None? then None else ParseHostChar(t.value, ch)
  {
    hide ParseHostChar;
    assert (a + [ch])[..|a|] == a;
  }

  /** One byte of the host automaton, by the written-out classes. */
  lemma StepIs(s: HostState, ch: char)
    ensures s == UserInfoStart || s == InUserInfo ==>
              ParseHostChar(s, ch) == if ch == '@' then Some(HostStart)
                                      else if UserInfoByte(ch) then Some(InUserInfo) else None
    ensures s == HostStart ==>
              ParseHostChar(s, ch) == if ch == '[' then Some(V6Start) else if HostChar(ch) then Some(InHost) else None
    ensures s == InHost ==>
              ParseHostChar(s, ch) == if HostChar(ch) then Some(InHost) else if ch == ':' then Some(PortStart) else None
    ensures s == V6Start ==> ParseHostChar(s, ch) == if AddressChar(ch) then Some(InV6) else None
    ensures s == InV6 ==>
              ParseHostChar(s, ch) == if ch == ']' then Some(V6End) else if AddressChar(ch) then Some(InV6) else None
    ensures s == V6End ==> ParseHostChar(s, ch) == if ch == ':' then Some(PortStart) else None
    ensures s == PortStart || s == InPort ==> ParseHostChar(s, ch) == if Digit(ch) then Some(InPort) else None
  {
    UserInfos(ch);
    Hosts(ch);
    Addresses(ch);
    Digits(ch);
    hide UserInfoByte, IsUserInfoChar, HostChar, IsHostChar, AddressChar, IsHex, Digit, IsNum;
  }

  /** The delimiters are in none of the classes they end. */
  lemma Ends(ch: char)
    ensures ch == '@' ==> !UserInfoByte(ch) && !HostChar(ch) && !AddressChar(ch) && !Digit(ch)
    ensures ch == '[' || ch == ']' ==> !HostChar(ch) && !AddressChar(ch)
    ensures ch == ':' ==> !HostChar(ch)
  {
    InAlphabet(ch);
    hide Letter;
  }

  // ----- the pieces, read one after the other

  lemma {:induction false} UserRuns(s: string)
    requires UserOk(s)
    ensures HostRun(UserInfoStart, s) == Some(if s == "" then UserInfoStart else InUserInfo)
    decreases |s|
  {
    hide ParseHostChar, UserInfoByte;
    if s != "" {
      var n := |s| - 1;
      assert s == s[..n] + [s[n]];
      RunSnoc(UserInfoStart, s[..n], s[n]);
      UserRuns(s[..n]);
      StepIs(UserInfoStart, s[n]);
      StepIs(InUserInfo, s[n]);
      Ends(s[n]);
    }
  }

  lemma {:induction false} NameRuns(s: string)
    requires HostOk(s) && s != ""
    ensures HostRun(HostStart, s) == Some(InHost)
    decreases |s|
  {
    hide ParseHostChar, HostChar;
    var n := |s| - 1;
    assert s == s[..n] + [s[n]];
    RunSnoc(HostStart, s[..n], s[n]);
    StepIs(HostStart, s[n]);
    StepIs(InHost, s[n]);
    Ends(s[n]);
    if n > 0 {
      NameRuns(s[..n]);
    }
  }

  lemma {:induction false} AddressRuns(s: string)
    requires AddressOk(s)
    ensures HostRun(V6Start, s) == Some(if s == "" then V6Start else InV6)
    decreases |s|
  {
    hide ParseHostChar, AddressChar;
    if s != "" {
      var n := |s| - 1;
      assert s == s[..n] + [s[n]];
      RunSnoc(V6Start, s[..n], s[n]);
      AddressRuns(s[..n]);
      StepIs(V6Start, s[n]);
      StepIs(InV6, s[n]);
      Ends(s[n]);
    }
  }

  lemma {:induction false} PortRuns(s: string)
    requires PortOk(s)
    ensures HostRun(PortStart, s) == Some(if s == "" then PortStart else InPort)
    decreases |s|
  {
    hide ParseHostChar, Digit;
    if s != "" {
      var n := |s| - 1;
      assert s == s[..n] + [s[n]];
      RunSnoc(PortStart, s[..n], s[n]);
      PortRuns(s[..n]);
      StepIs(PortStart, s[n]);
      StepIs(InPort, s[n]);
    }
  }

  /** Where the automaton starts. */
  function StartOf(a: Authority): HostState {
    if a.userInfo.Some? then UserInfoStart else HostStart
  }

  lemma UserTextRuns(a: Authority)
    requires a.userInfo.Some? ==> UserOk(a.userInfo.value)
    ensures HostRun(StartOf(a), UserText(a)) == Some(HostStart)
  {
    hide ParseHostChar, UserOk;
    if a.userInfo.Some? {
      UserRuns(a.userInfo.value);
      RunSnoc(UserInfoStart, a.userInfo.value, '@');
      StepIs(UserInfoStart, '@');
      StepIs(InUserInfo, '@');
    }
  }

  /** Up to the end of the host, of which there may be only a beginning. */
  lemma HostRuns(a: Authority)
    requires a.userInfo.Some? ==> UserOk(a.userInfo.value)
    requires if a.bracketed then AddressOk(a.host) else HostOk(a.host)
    ensures a.bracketed ==>
              && HostRun(StartOf(a), UserText(a) + "[") == Some(V6Start)
              && HostRun(StartOf(a), UserText(a) + "[" + a.host) == Some(if a.host == "" then V6Start else InV6)
              && (a.host != "" ==> HostRun(StartOf(a), UserText(a) + HostText(a)) == Some(V6End))
    ensures !a.bracketed && a.host != "" ==> HostRun(StartOf(a), UserText(a) + HostText(a)) == Some(InHost)
  {
    hide ParseHostChar, UserOk, AddressOk, HostOk, HostRun;
    var s := StartOf(a);
    UserTextRuns(a);
    if a.bracketed {
      var open := UserText(a) + ['['];
      RunSnoc(s, UserText(a), '[');
      StepIs(HostStart, '[');
      RunAppend(s, open, a.host);
      AddressRuns(a.host);
      RunSnoc(s, open + a.host, ']');
      StepIs(InV6, ']');
      assert UserText(a) + HostText(a) == open + a.host + [']'];
    } else if a.host != "" {
      RunAppend(s, UserText(a), a.host);
      NameRuns(a.host);
    }
  }

  lemma PortTextRuns(a: Authority)
    requires a.port.Some? && PortOk(a.port.value) && ProperAuthority(a.(port := None))
    ensures HostRun(StartOf(a), PrintAuthority(a)) == Some(if a.port.value == "" then PortStart else InPort)
  {
    hide ParseHostChar, UserOk, AddressOk, HostOk, PortOk, HostRun;
    var before := UserText(a) + HostText(a);
    HostRuns(a);
    assert PrintAuthority(a) == before + [':'] + a.port.value;
    RunSnoc(StartOf(a), before, ':');
    StepIs(V6End, ':');
    StepIs(InHost, ':');
    Ends(':');
    RunAppend(StartOf(a), before + [':'], a.port.value);
    PortRuns(a.port.value);
  }

  function StateOf(a: Authority): HostState {
    if a.port.Some? then InPort else if a.bracketed then V6End else InHost
  }

  lemma StateIs(a: Authority)
    requires ProperAuthority(a)
    ensures HostRun(StartOf(a), PrintAuthority(a)) == Some(StateOf(a)) && HostClosable(StateOf(a))
  {
    hide UserOk, AddressOk, HostOk, PortOk, HostRun;
    if a.port.Some? {
      PortTextRuns(a);
    } else {
      HostRuns(a);
      assert PrintAuthority(a) == UserText(a) + HostText(a);
    }
  }

  // ----- every server part that is accepted is put together from the pieces

  /** What has been read when the automaton is in s. */
  function Printed(s: HostState, a: Authority): string {
    match s
    case UserInfoStart => ""
    case InUserInfo => if a.userInfo.Some? then a.userInfo.value else ""
    case HostStart => UserText(a)
    case V6Start => UserText(a) + "["
    case InV6 => UserText(a) + "[" + a.host
    case V6End => UserText(a) + HostText(a)
    case InHost => UserText(a) + HostText(a)
    case PortStart => UserText(a) + HostText(a) + ":"
    case InPort => PrintAuthority(a)
  }

  predicate Reads(text: string, start: HostState, s: HostState, a: Authority) {
    && text == Printed(s, a) && start == StartOf(a)
    && (a.userInfo.Some? ==> UserOk(a.userInfo.value))
    && match s
       case UserInfoStart => a.userInfo == Some("")
       case InUserInfo => a.userInfo.Some? && a.userInfo.value != ""
       case HostStart => true
       case V6Start => true
       case InV6 => a.bracketed && a.host != "" && AddressOk(a.host)
       case V6End => a.bracketed && a.host != "" && AddressOk(a.host)
       case InHost => !a.bracketed && a.host != "" && HostOk(a.host)
       case PortStart => a.host != "" && (if a.bracketed then AddressOk(a.host) else HostOk(a.host))
       case InPort => ProperAuthority(a) && a.port.Some?
  }

  lemma UserStep(text: string, start: HostState, s: HostState, a: Authority, ch: char) returns (b: Authority)
    requires Reads(text, start, s, a) && ParseHostChar(s, ch).Some? && (s == UserInfoStart || s == InUserInfo)
    ensures Reads(text + [ch], start, ParseHostChar(s, ch).value, b)
  {
    hide ParseHostChar, UserInfoByte;
    StepIs(s, ch);
    b := if ch == '@' then a else a.(userInfo := Some(a.userInfo.value + [ch]));
  }

  lemma HostStep(text: string, start: HostState, s: HostState, a: Authority, ch: char) returns (b: Authority)
    requires Reads(text, start, s, a) && ParseHostChar(s, ch).Some? && (s == HostStart || s == InHost)
    ensures Reads(text + [ch], start, ParseHostChar(s, ch).value, b)
  {
    hide ParseHostChar, HostChar, UserOk;
    StepIs(s, ch);
    Ends(ch);
    if s == HostStart {
      b := a.(bracketed := ch == '[', host := [ch]);
      assert HostChar(ch) ==> HostOk([ch]);
    } else if ch == ':' {
      b := a;
    } else {
      b := a.(host := a.host + [ch]);
      assert UserText(a) + (a.host + [ch]) == text + [ch];
    }
  }

  lemma AddressStep(text: string, start: HostState, s: HostState, a: Authority, ch: char) returns (b: Authority)
    requires Reads(text, start, s, a) && ParseHostChar(s, ch).Some? && (s == V6Start || s == InV6 || s == V6End)
    ensures Reads(text + [ch], start, ParseHostChar(s, ch).value, b)
  {
    hide ParseHostChar, AddressChar, UserOk;
    StepIs(s, ch);
    Ends(ch);
    match s {
      case V6Start =>
        b := a.(bracketed := true, host := [ch]);
      case InV6 =>
        if ch == ']' {
          b := a;
          assert UserText(a) + ("[" + a.host + "]") == text + [ch];
        } else {
          b := a.(host := a.host + [ch]);
          assert UserText(a) + "[" + (a.host + [ch]) == text + [ch];
        }
      case V6End =>
        b := a;
    }
  }

  lemma PortStep(text: string, start: HostState, s: HostState, a: Authority, ch: char) returns (b: Authority)
    requires Reads(text, start, s, a) && ParseHostChar(s, ch).Some? && (s == PortStart || s == InPort)
    ensures Reads(text + [ch], start, ParseHostChar(s, ch).value, b)
  {
    hide ParseHostChar, Digit, UserOk, HostOk, AddressOk;
    StepIs(s, ch);
    if s == PortStart {
      b := a.(port := Some([ch]));
      assert UserText(a) + HostText(a) + (":" + [ch]) == text + [ch];
    } else {
      b := a.(port := Some(a.port.value + [ch]));
      assert UserText(a) + HostText(a) + (":" + (a.port.value + [ch])) == text + [ch];
    }
  }

  lemma {:induction false} Decomposes(text: string, start: HostState) returns (a: Authority)
    requires HostRun(start, text).Some? && (start == UserInfoStart || start == HostStart)
    ensures Reads(text, start, HostRun(start, text).value, a)
    decreases |text|
  {
    hide ParseHostChar, Reads;
    a := Authority(if start == UserInfoStart then Some("") else None, false, "", None);
    if text == "" {
      NothingRead(start, a);
    } else {
      var n := |text| - 1;
      var ch := text[n];
      assert text == text[..n] + [ch];
      var s := HostRun(start, text[..n]).value;
      var b := Decomposes(text[..n], start);
      match s {
        case UserInfoStart => a := UserStep(text[..n], start, s, b, ch);
        case InUserInfo => a := UserStep(text[..n], start, s, b, ch);
        case HostStart => a := HostStep(text[..n], start, s, b, ch);
        case InHost => a := HostStep(text[..n], start, s, b, ch);
        case PortStart => a := PortStep(text[..n], start, s, b, ch);
        case InPort => a := PortStep(text[..n], start, s, b, ch);
        case _ => a := AddressStep(text[..n], start, s, b, ch);
      }
    }
  }

  lemma NothingRead(start: HostState, a: Authority)
    requires start == UserInfoStart || start == HostStart
    requires a == Authority(if start == UserInfoStart then Some("") else None, false, "", None)
    ensures Reads("", start, start, a)
  {
  }

  lemma Closed(text: string, start: HostState, s: HostState, a: Authority) returns (b: Authority)
    requires Reads(text, start, s, a) && HostClosable(s)
    ensures ProperAuthority(b) && text == PrintAuthority(b) && start == StartOf(b)
  {
    hide UserOk, HostOk, AddressOk, PortOk;
    b := if s == InPort then a else a.(port := None);
    assert UserText(b) + HostText(b) + "" == UserText(b) + HostText(b);
  }

  /** An at-sign stands only at the end of the user information. */
  lemma AtSign(a: Authority)
    requires ProperAuthority(a)
    ensures '@' in PrintAuthority(a) <==> a.userInfo.Some?
  {
    hide HostChar, AddressChar, Digit, UserOk;
    Ends('@');
    if a.userInfo.Some? {
      assert PrintAuthority(a)[|a.userInfo.value|] == '@';
    }
  }

  /** The start that http_parser_parse_url takes. */
  function Opening(host: string): HostState {
    if '@' in host then UserInfoStart else HostStart
  }

  /**
   A server part is accepted if and only if it is a host name or a bracketed address, perhaps with
   user information before it and a port after it.
   */
  lemma HostRecognised(host: string)
    ensures var t := HostRun(Opening(host), host);
            (t.Some? && HostClosable(t.value)) <==> exists a :: ProperAuthority(a) && host == PrintAuthority(a)
  {
    hide HostRun, ProperAuthority, PrintAuthority;
    var t := HostRun(Opening(host), host);
    if t.Some? && HostClosable(t.value) {
      var b := Decomposes(host, Opening(host));
      var a := Closed(host, Opening(host), t.value, b);
    }
    forall a | ProperAuthority(a) && host == PrintAuthority(a)
      ensures t.Some? && HostClosable(t.value)
    {
      AtSign(a);
      StateIs(a);
    }
  }

  // ----- where each piece stands

  function HostFrom(a: Authority): nat {
    |UserText(a)| + if a.bracketed then 1 else 0
  }

  function PortFrom(a: Authority): nat {
    |UserText(a)| + |HostText(a)| + 1
  }

  /** The field that byte j stands in, by the places of the pieces; the delimiters are in none. */
  function PieceAt(a: Authority, j: nat): Option<Field> {
    if a.userInfo.Some? && j < |a.userInfo.value| then Some(UserInfo)
    else if HostFrom(a) <= j < HostFrom(a) + |a.host| then Some(Host)
    else if PortFrom(a) <= j then Some(Port)
    else None
  }

  lemma UserPart(a: Authority, j: nat)
    requires ProperAuthority(a) && j < |UserText(a)|
    ensures j < |PrintAuthority(a)| && HostPartAt(StartOf(a), PrintAuthority(a), j) == PieceAt(a, j)
  {
    hide ParseHostChar, HostRun, UserInfoByte, AddressOk, HostOk, PortOk;
    var u := a.userInfo.value;
    var before := PrintAuthority(a)[..j + 1];
    if j < |u| {
      assert before == u[..j + 1];
      UserRuns(u[..j + 1]);
    } else {
      assert before == UserText(a);
      UserTextRuns(a);
    }
  }

  lemma NamePart(a: Authority, j: nat)
    requires ProperAuthority(a) && |UserText(a)| <= j < |UserText(a)| + |HostText(a)|
    ensures j < |PrintAuthority(a)| && HostPartAt(StartOf(a), PrintAuthority(a), j) == PieceAt(a, j)
  {
    hide ParseHostChar, HostRun, UserOk, AddressChar, HostChar, PortOk;
    var before := PrintAuthority(a)[..j + 1];
    var k := j + 1 - HostFrom(a);
    if a.bracketed && j == HostFrom(a) + |a.host| {
      HostRuns(a);
      assert before == UserText(a) + HostText(a);
    } else {
      var b := a.(host := a.host[..k], port := None);
      HostRuns(b);
      assert before == if a.bracketed then UserText(a) + "[" + a.host[..k] else UserText(a) + a.host[..k];
    }
  }

  lemma PortPart(a: Authority, j: nat)
    requires ProperAuthority(a) && PortFrom(a) - 1 <= j < |PrintAuthority(a)|
    ensures HostPartAt(StartOf(a), PrintAuthority(a), j) == PieceAt(a, j)
  {
    hide ParseHostChar, HostRun, UserOk, AddressOk, HostOk, Digit;
    var k := j + 1 - PortFrom(a);
    var b := a.(port := Some(a.port.value[..k]));
    assert PrintAuthority(a)[..j + 1] == UserText(a) + HostText(a) + (":" + a.port.value[..k]);
    PortTextRuns(b);
  }

  /** Every byte is read in the field whose piece it stands in. */
  lemma PartsAre(a: Authority, j: nat)
    requires ProperAuthority(a) && j < |PrintAuthority(a)|
    ensures HostPartAt(Opening(PrintAuthority(a)), PrintAuthority(a), j) == PieceAt(a, j)
  {
    hide ProperAuthority, HostPartAt;
    AtSign(a);
    if j < |UserText(a)| {
      UserPart(a, j);
    } else if j < |UserText(a)| + |HostText(a)| {
      NamePart(a, j);
    } else {
      PortPart(a, j);
    }
  }
}
