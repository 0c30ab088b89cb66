/** Decimal numerals: `std::to_string` and `std::from_chars` on integers. */
module Numerals {
  import opened Wrappers

  predicate IsDigit(c: char) {
    '0' <= c <= '9'
  }

  predicate AllDigits(s: string) {
    forall i :: 0 <= i < |s| ==> IsDigit(s[i])
  }

  function DigitValue(c: char): nat
    requires IsDigit(c)
  {
    c as int - '0' as int
  }

  function DigitChar(d: nat): (c: char)
    requires d < 10
    ensures IsDigit(c) && DigitValue(c) == d
  {
    ('0' as int + d) as char
  }

  /** `std::to_string` of a number that is not negative. */
  function Decimal(n: nat): (s: string)
    ensures s != [] && AllDigits(s)
    ensures s[0] == '0' ==> n == 0 && s == "0"
  {
    if n < 10 then [DigitChar(n)] else Decimal(n / 10) + [DigitChar(n % 10)]
  }

  /** The number a string of digits spells. */
  function ValueOf(digits: string): nat
    requires AllDigits(digits)
  {
    if digits == [] then 0
    else 10 * ValueOf(digits[..|digits| - 1]) + DigitValue(digits[|digits| - 1])
  }

  /** The one spelling without superfluous leading zeros. */
  predicate Canonical(s: string) {
    s != [] && AllDigits(s) && (|s| > 1 ==> s[0] != '0')
  }

  lemma {:induction false} ValueOfDecimal(n: nat)
    ensures Canonical(Decimal(n)) && ValueOf(Decimal(n)) == n
  {
    if n >= 10 {
      ValueOfDecimal(n / 10);
      var s := Decimal(n);
      assert s[..|s| - 1] == Decimal(n / 10);
    }
  }

  lemma {:induction false} ValueOfPositive(s: string)
    requires s != [] && AllDigits(s) && s[0] != '0'
    ensures ValueOf(s) > 0
  {
    if |s| > 1 {
      ValueOfPositive(s[..|s| - 1]);
    }
  }

  /** A canonical spelling is the one `std::to_string` writes. */
  lemma {:induction false} DecimalOfValue(s: string)
    requires Canonical(s)
    ensures Decimal(ValueOf(s)) == s
  {
    if |s| == 1 {
      assert s[..0] == [];
      assert s == [s[0]];
    } else {
      var front := s[..|s| - 1];
      DecimalOfValue(front);
      ValueOfPositive(front);
      assert s == front + [s[|s| - 1]];
    }
  }

  function Pow10(k: nat): (p: nat)
    ensures p >= 1
  {
    if k == 0 then 1 else 10 * Pow10(k - 1)
  }

  lemma Pow10Twenty()
    ensures Pow10(20) == 100_000_000_000_000_000_000
  {
    assert Pow10(2) == 100;
    assert Pow10(4) == 10_000;
    assert Pow10(6) == 1_000_000;
    assert Pow10(8) == 100_000_000;
    assert Pow10(10) == 10_000_000_000;
    assert Pow10(12) == 1_000_000_000_000;
    assert Pow10(14) == 100_000_000_000_000;
    assert Pow10(16) == 10_000_000_000_000_000;
    assert Pow10(18) == 1_000_000_000_000_000_000;
  }

  lemma {:induction false} DecimalLength(n: nat, k: nat)
    requires k > 0 && n < Pow10(k)
    ensures |Decimal(n)| <= k
  {
    if n >= 10 {
      DecimalLength(n / 10, k - 1);
    }
  }

  /** `std::from_chars` into a signed type, then a range check inside that type: an optional minus sign and
      digits, leading zeros allowed. A value outside the type is outside the range as well. */
  function ParseInteger(text: string, minimum: int, maximum: int): Option<int> {
    var negative := text != [] && text[0] == '-';
    var digits := if negative then text[1..] else text;
    if digits == [] || !AllDigits(digits) then None
    else
      var value := (if negative then -1 else 1) * ValueOf(digits);
      if minimum <= value <= maximum then Some(value) else None
  }

  lemma ParseIntegerDecimal(n: nat, minimum: int, maximum: int)
    ensures ParseInteger(Decimal(n), minimum, maximum) == if minimum <= n <= maximum then Some(n) else None
  {
    ValueOfDecimal(n);
  }
}
