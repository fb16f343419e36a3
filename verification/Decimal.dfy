/** Decimal text of 64-bit integers, as the runtime prints them and js_strtod reads them back. */
module Decimal {
  import opened Probing

  const PLUS: Byte := 43
  const MINUS: Byte := 45
  const ZERO_DIGIT: Byte := 48

  const HALF := 0x8000_0000_0000_0000

  predicate IsDigit(ch: int) { 48 <= ch <= 57 }

  predicate AllDigits(s: Name) { forall i | 0 <= i < |s| :: IsDigit(s[i]) }

  function Digits(n: nat): (r: Name)
    ensures |r| > 0 && AllDigits(r)
  {
    if n < 10 then [48 + n] else Digits(n / 10) + [48 + n % 10]
  }

  /** The text of an integer. */
  function IntText(i: int): Name {
    if i < 0 then [MINUS] + Digits(-i) else Digits(i)
  }

  /** No leading zero. */
  lemma {:induction false} DigitsStart(n: nat)
    ensures Digits(n)[0] == ZERO_DIGIT ==> n == 0 && |Digits(n)| == 1
  {
    if n >= 10 { DigitsStart(n / 10); }
  }

  function Pow10(k: nat): (r: nat)
    ensures r > 0
  {
    if k == 0 then 1 else 10 * Pow10(k - 1)
  }

  lemma {:induction false} DigitsShort(n: nat, k: nat)
    requires 0 < k && n < Pow10(k)
    ensures |Digits(n)| <= k
  {
    if n >= 10 {
      assert Pow10(k) == 10 * Pow10(k - 1);
      DigitsShort(n / 10, k - 1);
    }
  }

  lemma {:induction false} Pow10Adds(a: nat, b: nat)
    ensures Pow10(a + b) == Pow10(a) * Pow10(b)
  {
    if b > 0 {
      Pow10Adds(a, b - 1);
      assert Pow10(a + b) == 10 * Pow10(a + (b - 1));
    } else {
      assert Pow10(0) == 1;
    }
  }

  /** A 64-bit integer has at most 19 digits. */
  lemma {:induction false} Digits64(n: nat)
    requires n < HALF
    ensures |Digits(n)| <= 19
  {
    assert Pow10(4) == 10_000 by { assert Pow10(2) == 100; }
    Pow10Adds(4, 4);
    Pow10Adds(8, 8);
    Pow10Adds(16, 2);
    assert Pow10(19) == 10 * Pow10(18);
    DigitsShort(n, 19);
  }

  /** Signed 64-bit arithmetic, wrapping around. */
  function Wrap64(x: int): (r: int)
    ensures -HALF <= r < HALF
    ensures -HALF <= x < HALF ==> r == x
  {
    (x + HALF) % 0x1_0000_0000_0000_0000 - HALF
  }

  /** js_strtod's digit loop. */
  function Fraction(s: Name): (r: int)
    ensures -HALF <= r < HALF
  {
    if |s| == 0 then 0 else Wrap64(10 * Fraction(s[..|s| - 1]) + s[|s| - 1] - 48)
  }

  /** Reading the digits of a 64-bit integer gives the integer. */
  lemma {:induction false} FractionOfDigits(n: nat)
    requires n < HALF
    ensures Fraction(Digits(n)) == n
  {
    var s := Digits(n);
    if n < 10 {
      assert s[..|s| - 1] == [];
    } else {
      FractionOfDigits(n / 10);
      assert s[..|s| - 1] == Digits(n / 10);
    }
  }
}
