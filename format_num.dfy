/**
 * Decimal rendering of the argument count, written after `$` in every placeholder.
 * The crate's own formatter fills a ten-byte buffer with the base-10 digits of a
 * `u32`; here it is defined directly, together with its inverse.
 */
module FormatNum {

  /** The character of a single decimal digit. */
  function Digit(d: nat): (c: char)
    requires d < 10
    ensures '0' <= c <= '9' && c as int - '0' as int == d
  {
    ((d + 48) as char)
  }

  predicate IsDigits(s: string) {
    forall i :: 0 <= i < |s| ==> '0' <= s[i] <= '9'
  }

  /** Base-10 digits of `n`, most significant first. */
  function Decimal(n: nat): string
    decreases n
  {
    if n < 10 then [Digit(n)] else Decimal(n / 10) + [Digit(n % 10)]
  }

  /** The rendering is a non-empty run of digits with no leading zero. */
  lemma {:induction false} DecimalDigits(n: nat)
    ensures |Decimal(n)| > 0 && IsDigits(Decimal(n))
    ensures Decimal(n)[0] == '0' ==> n == 0
    decreases n
  {
    if n >= 10 {
      DecimalDigits(n / 10);
      assert Decimal(n)[0] == Decimal(n / 10)[0];
    }
  }

  /** The number a string of decimal digits stands for. */
  function ParseDecimal(s: string): nat
    requires IsDigits(s)
  {
    if s == [] then 0
    else 10 * ParseDecimal(s[..|s| - 1]) + (s[|s| - 1] as int - '0' as int)
  }

  /** Reading the digits back gives the number that was written. */
  lemma {:induction false} DecimalRoundTrip(n: nat)
    ensures IsDigits(Decimal(n)) && ParseDecimal(Decimal(n)) == n
    decreases n
  {
    DecimalDigits(n);
    var r := Decimal(n);
    if n >= 10 {
      DecimalRoundTrip(n / 10);
      assert r[..|r| - 1] == Decimal(n / 10);
    }
  }

  /** Distinct counts never share a placeholder. */
  lemma DecimalInjective(m: nat, n: nat)
    ensures Decimal(m) == Decimal(n) ==> m == n
  {
    DecimalRoundTrip(m);
    DecimalRoundTrip(n);
  }

  /** Every `u32` fits the ten-byte buffer the formatter writes into. */
  lemma {:induction false} DecimalFitsBuffer(n: nat, width: nat)
    requires 0 < width && n < Power10(width)
    ensures |Decimal(n)| <= width
    decreases n
  {
    if n >= 10 {
      DecimalFitsBuffer(n / 10, width - 1);
    }
  }

  function Power10(k: nat): nat {
    if k == 0 then 1 else 10 * Power10(k - 1)
  }

  lemma U32FitsTenDigits(n: nat)
    requires n <= 0xFFFF_FFFF
    ensures |Decimal(n)| <= 10
  {
    assert Power10(10) == 10_000_000_000;
    DecimalFitsBuffer(n, 10);
  }
}
