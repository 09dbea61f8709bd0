/** Numbers as text. */
module Decimals {
  function Digit(d: nat): char
    requires d < 10
  {
    ['0', '1', '2', '3', '4', '5', '6', '7', '8', '9'][d]
  }

  function Digits(n: nat): (s: string)
    ensures s != [] && ';' !in s && s[0] != '-'
  {
    if n < 10 then [Digit(n)] else Digits(n / 10) + [Digit(n % 10)]
  }

  function Decimal(n: int): (s: string)
    ensures ';' !in s
  {
    if n < 0 then "-" + Digits(-n) else Digits(n)
  }

  lemma DigitIsInjective(a: nat, b: nat)
    requires a < 10 && b < 10 && Digit(a) == Digit(b)
    ensures a == b
  {
  }

  lemma {:induction false} DigitsIsInjective(m: nat, n: nat)
    requires Digits(m) == Digits(n)
    ensures m == n
    decreases m
  {
    var s, t := Digits(m), Digits(n);
    assert s[|s| - 1] == Digit(m % 10) && t[|t| - 1] == Digit(n % 10);
    DigitIsInjective(m % 10, n % 10);
    if m >= 10 && n >= 10 {
      assert s[..|s| - 1] == Digits(m / 10) && t[..|t| - 1] == Digits(n / 10);
      DigitsIsInjective(m / 10, n / 10);
    }
  }

  lemma DecimalIsInjective(m: int, n: int)
    requires Decimal(m) == Decimal(n)
    ensures m == n
  {
    if m < 0 && n < 0 {
      assert Decimal(m)[1..] == Digits(-m) && Decimal(n)[1..] == Digits(-n);
      DigitsIsInjective(-m, -n);
    } else if m >= 0 && n >= 0 {
      DigitsIsInjective(m, n);
    }
  }

  predicate Numeric(s: string) {
    forall i :: 0 <= i < |s| ==> s[i] == '-' || '0' <= s[i] <= '9'
  }

  lemma {:induction false} DigitsAreNumeric(n: nat)
    ensures Numeric(Digits(n))
  {
    if n >= 10 {
      DigitsAreNumeric(n / 10);
    }
  }

  lemma DecimalIsNumeric(n: int)
    ensures Decimal(n) != [] && Numeric(Decimal(n))
  {
    DigitsAreNumeric(if n < 0 then -n else n);
  }
}
