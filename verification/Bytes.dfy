/** Byte strings, as the C runtime and the libraries see them. */
module Bytes {
  /** C strings hold no zero byte. */
  type Byte = b: nat | 0 < b < 256 witness 1

  type Text = seq<Byte>

  // ----- characters -----

  const AMPERSAND: Byte := 38
  const CARET: Byte := 94
  const DOLLAR: Byte := 36
  const DOT: Byte := 46
  const OPEN_BRACKET: Byte := 91
  const OPEN_PAREN: Byte := 40
  const CLOSE_PAREN: Byte := 41
  const BACKSLASH: Byte := 92
  const BAR: Byte := 124
  const STAR: Byte := 42
  const PLUS: Byte := 43
  const QUESTION: Byte := 63
  const OPEN_BRACE: Byte := 123
  const CLOSE_BRACE: Byte := 125
  const COMMA: Byte := 44
  const COLON: Byte := 58
  const EQUALS: Byte := 61
  const BANG: Byte := 33
  const LESS: Byte := 60

  function Ch(c: char): (b: Byte)
    requires '\0' < c < 128 as char
    ensures b == c as nat
  {
    c as nat
  }

  predicate IsDigit(b: Byte) {
    48 <= b <= 57
  }

  predicate At(p: Text, i: nat, c: Byte) {
    i < |p| && p[i] == c
  }
}
