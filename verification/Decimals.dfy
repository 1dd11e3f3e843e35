/** Decimal numerals, as strconv.Itoa and %d write them for indices. */
module Decimals {

  const DIGITS := "0123456789"

  function Decimal(n: nat): (s: string)
    ensures |s| > 0 && forall c :: c in s ==> '0' <= c <= '9'
    ensures n > 0 ==> s[0] != '0'
  {
    if n < 10 then [DIGITS[n]] else Decimal(n / 10) + [DIGITS[n % 10]]
  }

  /** The number a string of digits denotes. */
  function Value(s: string): int {
    if s == [] then 0 else 10 * Value(s[..|s|-1]) + (s[|s|-1] as int - '0' as int)
  }

  /** Reading a numeral gives back the number. */
  lemma {:induction false} DecimalRoundTrip(n: nat)
    ensures Value(Decimal(n)) == n
  {
    var s := Decimal(n);
    if n >= 10 {
      DecimalRoundTrip(n / 10);
      assert s[..|s|-1] == Decimal(n / 10);
    } else {
      assert s[..|s|-1] == [];
    }
  }

  /** So no two numbers share a numeral. */
  lemma DecimalInjective(m: nat, n: nat)
    requires Decimal(m) == Decimal(n)
    ensures m == n
  {
    DecimalRoundTrip(m);
    DecimalRoundTrip(n);
  }
}
