/** Decimal numbers, as fmt prints them. */
module Decimals {
  predicate Digit(c: char) {
    '0' <= c <= '9'
  }

  function Decimal(n: nat): (s: string)
    ensures s != "" && forall i | 0 <= i < |s| :: Digit(s[i])
  {
    if n < 10 then ['0' + n as char] else Decimal(n / 10) + ['0' + (n % 10) as char]
  }

  /** %d */
  function Printed(n: int): string {
    if n < 0 then "-" + Decimal(-n) else Decimal(n)
  }

  function DecimalValue(s: string): nat
    requires forall i | 0 <= i < |s| :: Digit(s[i])
  {
    if s == "" then 0
    else
      var last := s[|s| - 1];
      assert Digit(last);
      DecimalValue(s[..|s| - 1]) * 10 + (last as int - '0' as int)
  }

  lemma {:induction false} DecimalRoundTrip(n: nat)
    ensures DecimalValue(Decimal(n)) == n
  {
    if n >= 10 {
      DecimalRoundTrip(n / 10);
      var s := Decimal(n);
      assert s[..|s| - 1] == Decimal(n / 10);
    }
  }

  lemma TheDigits(d: nat)
    requires d < 10
    ensures "0123456789"[d] == '0' + d as char
  {
  }

  /** Digit by digit from the back. */
  lemma DigitsAreDecimal(n: nat)
    ensures var s := Decimal(n);
            && s[|s| - 1] == "0123456789"[n % 10]
            && s[..|s| - 1] == (if n < 10 then "" else Decimal(n / 10))
    ensures Printed(n) == Decimal(n)
  {
    TheDigits(n % 10);
    if n >= 10 {
      var front, last := Decimal(n / 10), ['0' + (n % 10) as char];
      assert (front + last)[..|front|] == front;
    }
  }
}
