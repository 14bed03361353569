/**
 JSON text by code point, as RFC 8259 describes it and as far as the tokenizer follows it.
 Nothing here refers to the tokenizer or the codec, and neither uses it.
 */
module JsText {

  /** Insignificant white space, section 2. */
  predicate White(c: char) {
    var n := c as int;
    n == 0x20 || n == 0x09 || n == 0x0A || n == 0x0D
  }

  predicate IsBlank(s: string) {
    forall i :: 0 <= i < |s| ==> White(s[i])
  }

  /** White space, the colon and the comma: what may stand between values. */
  predicate Between(c: char) {
    White(c) || c as int == 0x3A || c as int == 0x2C
  }

  /** What ends a value that has no quotes: the same and the closing brackets. */
  predicate EndsValue(c: char) {
    Between(c) || c as int == 0x5D || c as int == 0x7D
  }

  /** The visible characters of ASCII that end no value. */
  predicate Bare(c: char) {
    0x21 <= c as int <= 0x7E && !EndsValue(c)
  }

  /** A quote or an opening bracket. */
  predicate BeginsOther(c: char) {
    c as int == 0x22 || c as int == 0x5B || c as int == 0x7B
  }

  /** An unquoted value. */
  predicate PrimText(d: string) {
    |d| > 0 && !BeginsOther(d[0]) && forall i :: 0 <= i < |d| ==> Bare(d[i])
  }

  // ---------------------------------------------------------------- strings, section 7

  predicate Hexadecimal(c: char) {
    var n := c as int;
    0x30 <= n <= 0x39 || 0x41 <= n <= 0x46 || 0x61 <= n <= 0x66
  }

  function Digit(c: char): (h: nat)
    requires Hexadecimal(c)
    ensures h < 16
  {
    var n := c as int;
    if n <= 0x39 then n - 0x30 else if n <= 0x46 then n - 0x37 else n - 0x57
  }

  /** The characters that make an escape of two: quote, reverse solidus, solidus, b, f, n, r and t. */
  predicate Escaped(c: char) {
    var n := c as int;
    n == 0x22 || n == 0x5C || n == 0x2F || n == 0x62 || n == 0x66 || n == 0x6E || n == 0x72 || n == 0x74
  }

  /** The code points they stand for. */
  function Meaning(c: char): nat
    requires Escaped(c)
  {
    var n := c as int;
    if n == 0x62 then 0x08
    else if n == 0x66 then 0x0C
    else if n == 0x6E then 0x0A
    else if n == 0x72 then 0x0D
    else if n == 0x74 then 0x09
    else n
  }

  /** What may stand between the quotes; control characters other than NUL are let through. */
  predicate Body(d: string) {
    if d == "" then true
    else if d[0] as int != 0x5C then d[0] as int != 0x22 && d[0] as int != 0 && Body(d[1..])
    else if |d| >= 2 && Escaped(d[1]) then Body(d[2..])
    else
      |d| >= 6 && d[1] as int == 0x75 && Hexadecimal(d[2]) && Hexadecimal(d[3]) && Hexadecimal(d[4]) &&
      Hexadecimal(d[5]) && Body(d[6..])
  }
}
