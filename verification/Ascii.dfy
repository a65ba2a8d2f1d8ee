/** Character classes of the HTTP and URL machines, in the strict build of the parser.
    A text is a sequence of octets; an octet is a `char` below 256. */
module Ascii {

  datatype Option<+T> = None | Some(value: T)

  predicate IsNum(c: char) { '0' <= c <= '9' }

  predicate IsAlpha(c: char) { 'a' <= c <= 'z' || 'A' <= c <= 'Z' }

  predicate IsAlphaNum(c: char) { IsAlpha(c) || IsNum(c) }

  predicate IsHex(c: char) { IsNum(c) || 'a' <= c <= 'f' || 'A' <= c <= 'F' }

  predicate IsMark(c: char) {
    c == '-' || c == '_' || c == '.' || c == '!' || c == '~' || c == '*' || c == '\'' || c == '(' || c == ')'
  }

  predicate IsUserinfoChar(c: char) {
    IsAlphaNum(c) || IsMark(c) || c == '%' || c == ';' || c == ':' || c == '&' || c == '=' || c == '+' ||
    c == '$' || c == ','
  }

  predicate IsHostChar(c: char) { IsAlphaNum(c) || c == '.' || c == '-' }

  // The bitmap of URL characters: every printable octet but '#' and '?'.
  predicate IsUrlChar(c: char) { '!' <= c <= '~' && c != '#' && c != '?' }

  // Non-zero entries of the token table, space excluded.
  predicate IsToken(c: char) {
    '!' <= c <= '~' && c != '"' && c != '(' && c != ')' && c != ',' && c != '/' && c != ':' && c != ';' &&
    c != '<' && c != '=' && c != '>' && c != '?' && c != '@' && c != '[' && c != '\\' && c != ']' &&
    c != '{' && c != '}'
  }

  predicate IsHeaderChar(c: char) {
    c == '\r' || c == '\n' || c == '\t' || (' ' <= c && c as int != 127)
  }

  // The token table folds upper-case letters and nothing else.
  function FoldToken(c: char): char {
    if 'A' <= c <= 'Z' then (c as int + 32) as char else c
  }

  // The value `c | 0x20`, which also moves octets that are not letters.
  function Lower(c: char): char {
    if c as int < 256 && (c as int / 32) % 2 == 0 then (c as int + 32) as char else c
  }

  function DigitValue(c: char): nat
    requires IsNum(c)
  { c as int - '0' as int }

  // The value of a text of digits; an octet that is none counts as zero.
  function Digit(c: char): nat { if IsNum(c) then DigitValue(c) else 0 }

  function Decimal(s: string): nat {
    if s == [] then 0 else 10 * Decimal(s[..|s| - 1]) + Digit(s[|s| - 1])
  }

  function HexDigit(n: nat): char
    requires n < 16
  {
    "0123456789ABCDEF"[n]
  }

  // The hex table lists 128 entries for 256 octets, so the upper half is zero and not -1.
  function Unhex(c: char): Option<nat> {
    if IsNum(c) then Some(c as int - '0' as int)
    else if 'a' <= c <= 'f' then Some(c as int - 'a' as int + 10)
    else if 'A' <= c <= 'F' then Some(c as int - 'A' as int + 10)
    else if c as int >= 128 then Some(0)
    else None
  }
}
