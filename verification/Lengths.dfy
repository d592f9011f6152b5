/**
 The two lengths a message can give, as exact numbers: the decimal Content-Length and the
 hexadecimal chunk size, each with the bound that the overflow checks put on it.
 */
module Lengths {
  import opened Chars
  import opened Types
  import opened Arms

  const MAX_LENGTH := 18446744073709551609
  const MAX_CHUNK := 0x1_0000_0000_0000_0000 - 17

  /** Digits with spaces among them, beginning with a digit. */
  predicate LengthText(v: string) {
    v != "" && IsNum(v[0]) && forall i :: 0 <= i < |v| ==> IsNum(v[i]) || v[i] == ' '
  }

  function Decimal(v: string): nat {
    if v == "" then 0
    else
      var n := Decimal(v[..|v| - 1]);
      if IsNum(v[|v| - 1]) then n * 10 + DigitValue(v[|v| - 1]) else n
  }

  /** A chunk size, by the table: the hex digits, and bytes from 128 up as zeros. */
  predicate SizeText(v: string) {
    v != "" && forall i :: 0 <= i < |v| ==> Unhex(v[i]) >= 0
  }

  function Hexadecimal(v: string): nat
    requires forall i :: 0 <= i < |v| ==> Unhex(v[i]) >= 0
  {
    if v == "" then 0 else Hexadecimal(v[..|v| - 1]) * 16 + Unhex(v[|v| - 1])
  }

  /** What has been read of a length is exact, within the bound, and not the sentinel. */
  lemma LengthStep(p: Parser, v: string, ch: char)
    requires v != "" && p.contentLength == Decimal(v) <= MAX_LENGTH
    ensures var a := ContentLengthArm(p, ch);
            var w := v + [ch];
            if (IsNum(ch) || ch == ' ') && Decimal(w) <= MAX_LENGTH then
              a == Quietly(p.(contentLength := Decimal(w))) && Decimal(w) != ULLONG_MAX
            else a.next == Fail(InvalidContentLength)
  {
    assert (v + [ch])[..|v|] == v;
  }

  lemma SizeStep(p: Parser, v: string, ch: char)
    requires SizeText(v) && p.contentLength == Hexadecimal(v) <= MAX_CHUNK && p.flags.chunked
    requires Unhex(ch) >= 0
    ensures SizeText(v + [ch])
    ensures var a := ChunkArm(p, ChunkSize, ch, 1);
            var w := v + [ch];
            if Hexadecimal(w) <= MAX_CHUNK then
              a == Quietly(p.(contentLength := Hexadecimal(w))) && Hexadecimal(w) != ULLONG_MAX
            else a.next == Fail(InvalidContentLength)
  {
    assert (v + [ch])[..|v|] == v;
    HexNoCr(ch);
    hide Unhex;
  }

  lemma HexNoCr(ch: char)
    requires Unhex(ch) >= 0
    ensures ch != CR && ch != ';' && ch != ' ' && ch != LF && Unhex(ch) < 16
  {
  }

  /** Numbers only grow, so that the bound on the whole bounds every beginning. */
  lemma DecimalGrows(v: string, ch: char)
    ensures Decimal(v) <= Decimal(v + [ch])
  {
    assert (v + [ch])[..|v|] == v;
  }

  lemma HexadecimalGrows(v: string, ch: char)
    requires (forall i :: 0 <= i < |v| ==> Unhex(v[i]) >= 0) && Unhex(ch) >= 0
    ensures Hexadecimal(v) <= Hexadecimal(v + [ch])
  {
    assert (v + [ch])[..|v|] == v;
  }
}
