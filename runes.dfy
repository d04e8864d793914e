/** Rune classes used by the lexer.  A rune is an `int`: a Unicode code point,
    or `EOF` (-1), which is what the lexer's `next` answers at end of input. */
module Runes {

  /** The value `next` returns once the input is exhausted. */
  const EOF: int := -1

  /** Go's `unicode.IsControl`: the C0 and C1 control ranges.  It converts the
      rune to an unsigned 32-bit value first, so `EOF` is NOT a control rune. */
  function IsControl(r: int): (b: bool)
    ensures r == '\r' as int || r == '\n' as int || r == '\t' as int ==> b
    ensures r == EOF ==> !b
  {
    (0 <= r <= 0x1F) || (0x7F <= r <= 0x9F)
  }

  /** Go's `unicode.IsLetter`, exact on Latin-1 (ASCII letters, the feminine and
      masculine ordinals, the micro sign and the accented letters). */
  function IsLetter(r: int): bool
  {
    ('A' as int <= r <= 'Z' as int) || ('a' as int <= r <= 'z' as int)
    || r == 0xAA || r == 0xB5 || r == 0xBA
    || (0xC0 <= r <= 0xD6) || (0xD8 <= r <= 0xF6) || (0xF8 <= r <= 0xFF)
  }

  /** Go's `unicode.IsDigit`, exact on Latin-1. */
  function IsDigit(r: int): bool
  {
    '0' as int <= r <= '9' as int
  }

  /** Go's `utf8.ValidRune`: a code point that is not a surrogate. */
  function ValidRune(r: int): bool
  {
    (0 <= r < 0xD800) || (0xDFFF < r <= 0x10FFFF)
  }

  /** `isName`: letters, digits and `-`.  None of the content-line punctuation
      or line-end runes is a name rune, and neither is `EOF`. */
  function IsName(r: int): (b: bool)
    ensures b ==> r != ';' as int && r != ':' as int && r != ',' as int && r != '=' as int
    ensures b ==> r != '"' as int && r != '\r' as int && r != '\n' as int && r != EOF
  {
    IsLetter(r) || IsDigit(r) || r == '-' as int
  }

  /** `isQSafeChar`: anything but a control rune or `"`; note that `EOF` passes. */
  function IsQSafeChar(r: int): (b: bool)
    ensures b <==> !IsControl(r) && r != '"' as int
    ensures r == EOF ==> b
    ensures r == '\r' as int || r == '"' as int ==> !b
  {
    !IsControl(r) && r != '"' as int
  }

  /** `isSafeChar`: additionally excludes `;`, `:` and `,`; `EOF` passes too. */
  function IsSafeChar(r: int): (b: bool)
    ensures b ==> IsQSafeChar(r)
    ensures r == EOF ==> b
    ensures r == ';' as int || r == ':' as int || r == ',' as int ==> !b
  {
    !IsControl(r) && r != '"' as int && r != ';' as int && r != ':' as int && r != ',' as int
  }

  /** `isValueChar`: a tab, or a valid non-control rune; `EOF` and `\r` fail. */
  function IsValueChar(r: int): (b: bool)
    ensures r == EOF || r == '\r' as int || r == '\n' as int ==> !b
    ensures r == '\t' as int || r == ' ' as int || r == ';' as int || r == ':' as int || r == ',' as int ==> b
  {
    r == '\t' as int || (!IsControl(r) && ValidRune(r))
  }

  /** Index just past the maximal run of runes satisfying `p` that starts at
      `i`: what a `for { if !p(l.next()) { l.backup(); ... } }` loop reaches. */
  function Span(s: string, i: nat, p: int -> bool): (e: nat)
    requires i <= |s|
    ensures i <= e <= |s|
    decreases |s| - i
  {
    if i == |s| || !p(s[i] as int) then i else Span(s, i + 1, p)
  }

  /** The run found by `Span` is maximal: every rune in it satisfies `p`, and
      the rune after it (if any) does not. */
  lemma {:induction false} SpanMaximal(s: string, i: nat, p: int -> bool)
    requires i <= |s|
    ensures forall k :: i <= k < Span(s, i, p) ==> p(s[k] as int)
    ensures Span(s, i, p) == |s| || !p(s[Span(s, i, p)] as int)
    decreases |s| - i
  {
    if i < |s| && p(s[i] as int) {
      SpanMaximal(s, i + 1, p);
    }
  }

  /** `Span` is determined by the run itself: any `e` with the two properties
      of `SpanMaximal` is the result. */
  lemma {:induction false} SpanUnique(s: string, i: nat, p: int -> bool, e: nat)
    requires i <= e <= |s|
    requires forall k :: i <= k < e ==> p(s[k] as int)
    requires e == |s| || !p(s[e] as int)
    ensures Span(s, i, p) == e
    decreases e - i
  {
    if i < e {
      SpanUnique(s, i + 1, p, e);
    }
  }
}
