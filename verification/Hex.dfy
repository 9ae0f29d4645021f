/** The lower-case hex digits of hashes and digests. */
module Hex {

  const DIGITS := "0123456789abcdef"

  predicate IsHex(c: char) { '0' <= c <= '9' || 'a' <= c <= 'f' }

  lemma HexDigits(c: char)
    ensures c in DIGITS <==> IsHex(c)
  {
    if '0' <= c <= '9' { assert DIGITS[c as int - '0' as int] == c; }
    if 'a' <= c <= 'f' { assert DIGITS[c as int - 'a' as int + 10] == c; }
  }
}
