/** Character classes used by both parsers, and the maximal run of
    characters satisfying a test (what `consume_while` consumes). */
module Chars {

  /** Rust's `char::is_whitespace`: the Unicode White_Space property. */
  predicate IsWhitespace(c: char)
  {
    ('\t' <= c <= '\r') || c == ' ' || c == '\U{85}' || c == '\U{A0}' || c == '\U{1680}'
    || ('\U{2000}' <= c <= '\U{200A}') || c == '\U{2028}' || c == '\U{2029}'
    || c == '\U{202F}' || c == '\U{205F}' || c == '\U{3000}'
  }

  predicate IsAsciiDigit(c: char)
  {
    '0' <= c <= '9'
  }

  /** Rust's `char::is_alphanumeric`, restricted to ASCII letters and digits. */
  predicate IsAlphanumeric(c: char)
  {
    ('a' <= c <= 'z') || ('A' <= c <= 'Z') || IsAsciiDigit(c)
  }

  /** Identifier characters of the stylesheet parser (`valid_ident_char`):
      alphanumerics, `-` and `_`. None of them is whitespace or one of the
      characters that delimit selectors and declarations, so an identifier
      always stops before those. */
  predicate ValidIdentChar(c: char): (b: bool)
    ensures b ==> !IsWhitespace(c) && c !in "#.*,{}:;"
  {
    IsAlphanumeric(c) || c == '-' || c == '_'
  }

  /** Characters of the number in a stylesheet length. */
  predicate IsFloatChar(c: char)
  {
    IsAsciiDigit(c) || c == '.'
  }

  /** The tests the parsers hand to `consume_while`. */
  datatype CharClass =
    | Whitespace     // char::is_whitespace
    | IdentChar      // valid_ident_char
    | FloatChar      // a digit or a dot
    | Digit          // an ASCII digit
    | Alphanumeric   // char::is_alphanumeric
    | Not(c: char)   // every character but `c`

  predicate In(c: char, k: CharClass)
  {
    match k
    case Whitespace => IsWhitespace(c)
    case IdentChar => ValidIdentChar(c)
    case FloatChar => IsFloatChar(c)
    case Digit => IsAsciiDigit(c)
    case Alphanumeric => IsAlphanumeric(c)
    case Not(x) => c != x
  }

  /** The end of the maximal run of characters of `s`, starting at `pos`,
      that are all in `k` (`SpanEndRun` states that the whole run is in
      `k`). */
  function SpanEnd(s: string, pos: nat, k: CharClass): (e: nat)
    requires pos <= |s|
    ensures pos <= e <= |s|
    decreases |s| - pos
  {
    if pos == |s| || !In(s[pos], k) then pos else SpanEnd(s, pos + 1, k)
  }

  /** Where `consume_whitespace` leaves the position: past the maximal run
      of whitespace. */
  function SkipWs(s: string, pos: nat): (e: nat)
    requires pos <= |s|
    ensures pos <= e <= |s|
  {
    SpanEnd(s, pos, Whitespace)
  }

  /** Every character of the run is in the class, and the character that
      ends it is not. */
  lemma {:induction false} SpanEndRun(s: string, pos: nat, k: CharClass)
    requires pos <= |s|
    ensures forall i :: pos <= i < SpanEnd(s, pos, k) ==> In(s[i], k)
    ensures SpanEnd(s, pos, k) == |s| || !In(s[SpanEnd(s, pos, k)], k)
    decreases |s| - pos
  {
    if pos < |s| && In(s[pos], k) {
      SpanEndRun(s, pos + 1, k);
    }
  }

  /** Only one position satisfies the two maximality conditions. */
  lemma {:induction false} SpanEndUnique(s: string, pos: nat, k: CharClass, e: nat)
    requires pos <= e <= |s|
    requires forall i :: pos <= i < e ==> In(s[i], k)
    requires e == |s| || !In(s[e], k)
    ensures SpanEnd(s, pos, k) == e
    decreases e - pos
  {
    if pos < e {
      SpanEndUnique(s, pos + 1, k, e);
    }
  }

  /** Number of bytes of the UTF-8 encoding of `c`. */
  function Utf8Width(c: char): (n: nat)
    ensures 1 <= n <= 4
  {
    if c < '\U{80}' then 1 else if c < '\U{800}' then 2 else if c < '\U{10000}' then 3 else 4
  }

  /** Rust's `str::len`: the number of bytes of the UTF-8 encoding of `s`. */
  function Utf8Length(s: string): (n: nat)
    ensures |s| <= n <= 4 * |s|
  {
    if s == [] then 0 else Utf8Width(s[0]) + Utf8Length(s[1..])
  }

  /** Rust's `to_ascii_lowercase` on one character. */
  function AsciiLower(c: char): char
  {
    if 'A' <= c <= 'Z' then (c as int + 32) as char else c
  }

  function AsciiLowercase(s: string): (r: string)
    ensures |r| == |s|
  {
    if s == [] then [] else [AsciiLower(s[0])] + AsciiLowercase(s[1..])
  }
}
