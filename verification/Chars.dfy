/**
 Character classes of the parser, in strict mode.

 The C code reads bytes through `char`; here a byte is a Dafny `char`. Characters from
 128 up never match a class (except in Unhex, where the table is zero there), so what is
 proved for every string holds in particular for every byte string.
 */
module Chars {

  const CR := '\r'
  const LF := '\n'

  predicate IsSpaceOrTab(c: char) {
    c == ' ' || c == '\t'
  }

  predicate IsEol(c: char) {
    c == CR || c == LF
  }

  /** LOWER: sets bit 0x20, for letters and for everything else alike. */
  function Lower(c: char): char {
    if c as int < 128 && (c as int / 32) % 2 == 0 then (c as int + 32) as char else c
  }

  predicate IsAlpha(c: char) {
    'a' <= Lower(c) <= 'z'
  }

  predicate IsNum(c: char) {
    '0' <= c <= '9'
  }

  predicate IsAlphaNum(c: char) {
    IsAlpha(c) || IsNum(c)
  }

  predicate IsHex(c: char) {
    IsNum(c) || 'a' <= Lower(c) <= 'f'
  }

  function DigitValue(c: char): nat
    requires IsNum(c)
  {
    c as int - '0' as int
  }

  /** The table `unhex`: -1 for what is no hex digit, but 0 for every byte from 128 up. */
  function Unhex(c: char): int {
    if IsNum(c) then DigitValue(c)
    else if 'a' <= c <= 'f' then c as int - 'a' as int + 10
    else if 'A' <= c <= 'F' then c as int - 'A' as int + 10
    else if c as int < 128 then -1
    else 0
  }

  /** The table `tokens`: the lower-cased character, or NUL for what no token contains. */
  function Token(c: char): char {
    if 'A' <= c <= 'Z' then (c as int + 32) as char
    else if 'a' <= c <= 'z' || IsNum(c) || c in "!#$%&'*+-.^_`|~" then c
    else '\0'
  }

  predicate IsToken(c: char) {
    Token(c) != '\0'
  }

  predicate IsMark(c: char) {
    c in "-_.!~*'()"
  }

  predicate IsUserInfoChar(c: char) {
    IsAlphaNum(c) || IsMark(c) || c in "%;:&=+$,"
  }

  /** The bit table `normal_url_char`. */
  predicate IsUrlChar(c: char) {
    '!' <= c <= '~' && c != '#' && c != '?'
  }

  predicate IsHostChar(c: char) {
    IsAlphaNum(c) || c == '.' || c == '-'
  }

  /** Reading a C string: the terminating NUL stands right after the last character. */
  function CharAt(s: string, i: nat): char {
    if i < |s| then s[i] else '\0'
  }
}
