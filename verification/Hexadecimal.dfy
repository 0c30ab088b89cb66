/** Bytes and their upper-case hexadecimal digits. */
module Hexadecimal {

  type Byte = x: int | 0 <= x < 256

  predicate IsNibble(c: char) {
    '0' <= c <= '9' || 'A' <= c <= 'F'
  }

  /** `decode_nibble`. */
  function Nibble(c: char): (n: nat)
    requires IsNibble(c)
    ensures n < 16
  {
    if c <= '9' then c as int - '0' as int else c as int - 'A' as int + 10
  }

  function NibbleChar(n: nat): (c: char)
    requires n < 16
    ensures IsNibble(c) && Nibble(c) == n
  {
    if n < 10 then ('0' as int + n) as char else ('A' as int + (n - 10)) as char
  }

  lemma NibbleBack(c: char)
    requires IsNibble(c)
    ensures NibbleChar(Nibble(c)) == c
  {
  }
}
