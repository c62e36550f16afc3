/** Decimal numerals: what `to_string` prints and what `parse` reads. */
module Decimal {
  import opened TaskStates

  function Digit(d: nat): char
    requires d < 10
  {
    '0' + d as char
  }

  predicate IsDigit(c: char) { '0' <= c <= '9' }

  function DigitValue(c: char): nat
    requires IsDigit(c)
  {
    (c - '0') as int
  }

  function Digits(n: nat): (s: string)
    ensures s != "" && forall c | c in s :: IsDigit(c)
  {
    if n < 10 then [Digit(n)] else Digits(n / 10) + [Digit(n % 10)]
  }

  /** The number a string of digits denotes. */
  function Value(s: string): nat
    requires forall c | c in s :: IsDigit(c)
  {
    if s == "" then 0 else 10 * Value(s[..|s| - 1]) + DigitValue(s[|s| - 1])
  }

  lemma {:induction false} DigitsRoundTrip(n: nat)
    ensures Value(Digits(n)) == n
    decreases n
  {
    if n >= 10 {
      DigitsRoundTrip(n / 10);
      var s := Digits(n);
      assert s[..|s| - 1] == Digits(n / 10);
    } else {
      assert Digits(n)[..0] == "";
    }
  }

  lemma DigitsInjective(m: nat, n: nat)
    ensures Digits(m) == Digits(n) ==> m == n
  {
    DigitsRoundTrip(m);
    DigitsRoundTrip(n);
  }

  const U32_MAX: nat := 0xFFFF_FFFF

  /** `str::parse::<u32>`: an optional plus sign, then at least one digit, and a
      value that fits. */
  function ParseU32(s: string): Option<nat>
  {
    var digits := if s != "" && s[0] == '+' then s[1..] else s;
    if digits != "" && (forall c | c in digits :: IsDigit(c)) && Value(digits) <= U32_MAX
    then Some(Value(digits)) else None
  }

  lemma ParseReadsDigits(n: nat)
    ensures ParseU32(Digits(n)) == ParseU32("+" + Digits(n)) == if n <= 0xFFFF_FFFF then Some(n) else None
  {
    DigitsRoundTrip(n);
    var s := Digits(n);
    assert s[0] in s;
    assert ("+" + s)[1..] == s;
  }
}
