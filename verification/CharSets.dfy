/**
 The character classes of the parsers, written out. Specifications on text are stated with these,
 and the predicates of the parsers are proved to be the same.
 */
module CharSets {
  import opened Chars

  predicate Letter(c: char) {
    c in "ABCDEFGHIJKLMNOPQRSTUVWXYZ" || c in "abcdefghijklmnopqrstuvwxyz"
  }

  predicate Digit(c: char) {
    c in "0123456789"
  }

  predicate AddressChar(c: char) {
    c in "0123456789ABCDEFabcdef:."
  }

  predicate HostChar(c: char) {
    Letter(c) || Digit(c) || c in ".-"
  }

  predicate UserInfoByte(c: char) {
    Letter(c) || Digit(c) || c in "-_.!~*'()%;:&=+$,"
  }

  /** What is visible, but for # and ?. */
  predicate UrlByte(c: char) {
    Letter(c) || Digit(c) || c in "!\"$%&'()*+,-./:;<=>@[\\]^_`{|}~"
  }

  /** What is visible, but for the separators of section 2.2 of RFC 2616. */
  predicate TokenByte(c: char) {
    '!' <= c <= '~' && c !in "()<>@,;:\\\"/[]?={}"
  }

  lemma Capitals(c: char)
    ensures c in "ABCDEFGHIJKLMNOPQRSTUVWXYZ" <==> 'A' <= c <= 'Z'
  {
  }

  lemma Smalls(c: char)
    ensures c in "abcdefghijklmnopqrstuvwxyz" <==> 'a' <= c <= 'z'
  {
  }

  lemma InAlphabet(c: char)
    ensures Letter(c) <==> 'A' <= c <= 'Z' || 'a' <= c <= 'z'
  {
    Capitals(c);
    Smalls(c);
  }

  lemma AlphaRange(c: char)
    ensures IsAlpha(c) <==> 'A' <= c <= 'Z' || 'a' <= c <= 'z'
  {
  }

  lemma Letters(c: char)
    ensures IsAlpha(c) <==> Letter(c)
  {
    InAlphabet(c);
    AlphaRange(c);
    hide Letter, IsAlpha;
  }

  lemma Digits(c: char)
    ensures IsNum(c) <==> Digit(c)
    ensures forall i :: 0 <= i < 10 && c == "0123456789"[i] ==> IsNum(c) && DigitValue(c) == i
  {
  }

  lemma HexRange(c: char)
    ensures IsHex(c) <==> '0' <= c <= '9' || 'A' <= c <= 'F' || 'a' <= c <= 'f'
  {
  }

  lemma Addresses(c: char)
    ensures IsHex(c) || c == ':' || c == '.' <==> AddressChar(c)
  {
    HexRange(c);
    hide IsHex;
  }

  lemma Hosts(c: char)
    ensures IsHostChar(c) <==> HostChar(c)
  {
    Letters(c);
    Digits(c);
    hide Letter, Digit, IsAlpha, IsNum;
  }

  lemma UserInfos(c: char)
    ensures IsUserInfoChar(c) <==> UserInfoByte(c)
  {
    Letters(c);
    Digits(c);
    hide Letter, Digit, IsAlpha, IsNum;
  }

  lemma Urls(c: char)
    ensures IsUrlChar(c) <==> UrlByte(c)
  {
    InAlphabet(c);
    Digits(c);
    hide Letter, Digit;
  }

  lemma Tokens(c: char)
    ensures IsToken(c) <==> TokenByte(c)
  {
  }

  /** The value of a hex digit is its place; bytes from 128 up are digits too, by the table. */
  lemma HexValues(c: char)
    ensures forall i :: 0 <= i < 16 && (c == "0123456789abcdef"[i] || c == "0123456789ABCDEF"[i]) ==> Unhex(c) == i
    ensures Unhex(c) >= 0 <==> c as int >= 128 || c in "0123456789ABCDEFabcdef"
    ensures c as int >= 128 ==> Unhex(c) == 0
  {
  }
}
