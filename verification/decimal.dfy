/** Decimal rendering of unsigned integers, as `usize::to_string` produces
    it, and the width facts the line-number gutter relies on. */
module Decimal {

  /** The character of decimal digit `d`. */
  function DigitChar(d: nat): (c: char)
    requires d < 10
    ensures '0' <= c <= '9'
    ensures c as int - '0' as int == d
  {
    ('0' as int + d) as char
  }

  /** The value of a decimal digit character. */
  function DigitValue(c: char): (d: nat)
    requires '0' <= c <= '9'
    ensures d < 10
  {
    c as int - '0' as int
  }

  predicate IsDecimal(s: string) {
    forall i :: 0 <= i < |s| ==> '0' <= s[i] <= '9'
  }

  /** `n.to_string()`: the shortest decimal numeral of `n`, "0" for zero. */
  function ToDecimal(n: nat): (s: string)
    ensures |s| >= 1
    ensures IsDecimal(s)
    ensures s[0] == '0' <==> n == 0
    ensures n == 0 ==> s == "0"
    decreases n
  {
    if n < 10 then [DigitChar(n)] else ToDecimal(n / 10) + [DigitChar(n % 10)]
  }

  /** The value of a decimal numeral, most significant digit first. */
  function FromDecimal(s: string): nat
    requires IsDecimal(s)
    decreases |s|
  {
    if |s| == 0 then 0 else 10 * FromDecimal(s[..|s| - 1]) + DigitValue(s[|s| - 1])
  }

  function Pow10(k: nat): (p: nat)
    ensures p >= 1
  {
    if k == 0 then 1 else 10 * Pow10(k - 1)
  }

  /** Reading back a rendered numeral gives the number again. */
  lemma {:induction false} FromToDecimal(n: nat)
    ensures FromDecimal(ToDecimal(n)) == n
  {
    if n >= 10 {
      var s := ToDecimal(n);
      FromToDecimal(n / 10);
      assert s[..|s| - 1] == ToDecimal(n / 10);
    }
  }

  /** The numeral of `n` has exactly as many digits as `n` needs: `n` lies
      below the next power of ten and, unless it is zero, at or above the
      previous one. */
  lemma {:induction false} DecimalLength(n: nat)
    ensures n < Pow10(|ToDecimal(n)|)
    ensures n > 0 ==> Pow10(|ToDecimal(n)| - 1) <= n
  {
    if n >= 10 {
      var m := n / 10;
      var k := |ToDecimal(m)|;
      DecimalLength(m);
      assert |ToDecimal(n)| == k + 1;
      assert n < 10 * (m + 1) <= 10 * Pow10(k);
      assert Pow10(k) == 10 * Pow10(k - 1) <= 10 * m <= n;
    }
  }

  lemma {:induction false} Pow10Monotonic(i: nat, j: nat)
    requires i <= j
    ensures Pow10(i) <= Pow10(j)
    decreases j
  {
    if i < j {
      Pow10Monotonic(i, j - 1);
    }
  }

  lemma Pow10Twenty()
    ensures Pow10(20) == 100_000_000_000_000_000_000
  {
    assert Pow10(5) == 100_000;
    assert Pow10(10) == 10_000_000_000 by {
      assert Pow10(10) == 100_000 * Pow10(5) by { Pow10Add(5, 5); }
    }
    assert Pow10(20) == 100_000_000_000_000_000_000 by { Pow10Add(10, 10); }
  }

  lemma {:induction false} Pow10Add(i: nat, j: nat)
    ensures Pow10(i + j) == Pow10(i) * Pow10(j)
    decreases j
  {
    if j > 0 {
      Pow10Add(i, j - 1);
      assert Pow10(i + j) == 10 * Pow10(i + j - 1);
    }
  }

  /** Every `usize` (at most 2^64 - 1) renders in at most 20 digits. */
  lemma UsizeDigits(n: nat)
    requires n < 0x1_0000_0000_0000_0000
    ensures |ToDecimal(n)| <= 20
  {
    DecimalLength(n);
    var k := |ToDecimal(n)|;
    if k > 20 {
      Pow10Monotonic(20, k - 1);
      Pow10Twenty();
      assert false;
    }
  }
}
