/**
 * Monetary arithmetic. Amounts are BigDecimal values with two fraction digits, modelled as
 * whole cents; percentages are exact rationals. BigDecimal's setScale(2, RoundingMode.HALF_UP)
 * of an exact amount of n/d cents rounds to the nearest cent, ties away from zero.
 */
module Money {

  /** A rational num/den, the model of a BigDecimal rate such as 0.10 (= 10/100). */
  datatype Ratio = Ratio(num: int, den: int)

  type Rate = r: Ratio | r.den > 0 witness Ratio(0, 1)

  /** setScale(2, HALF_UP) of an exact amount of n/d cents, as whole cents. */
  function RoundHalfUp(n: int, d: int): (r: int)
    requires d > 0
    // r is a nearest whole cent ...
    ensures 2 * d * r - d <= 2 * n <= 2 * d * r + d
    // ... and a tie goes away from zero
    ensures 2 * n == 2 * d * r + d ==> r < 0
    ensures 2 * n == 2 * d * r - d ==> r > 0
  {
    if n >= 0 then (2 * n + d) / (2 * d) else -((2 * -n + d) / (2 * d))
  }

  /** The contract of RoundHalfUp determines its result: it is exactly half-up rounding. */
  lemma RoundHalfUpUnique(n: int, d: int, r: int)
    requires d > 0
    requires 2 * d * r - d <= 2 * n <= 2 * d * r + d
    requires 2 * n == 2 * d * r + d ==> r < 0
    requires 2 * n == 2 * d * r - d ==> r > 0
    ensures r == RoundHalfUp(n, d)
  {
    var q := RoundHalfUp(n, d);
    if r < q {
      BothTies(n, d, r, q);
      TwoUnitsApart(d, r, q);
    } else if r > q {
      BothTies(n, d, q, r);
      TwoUnitsApart(d, q, r);
    }
  }

  /** If lo < hi and n/d lies within half a unit of both, it is the tie between them. */
  lemma BothTies(n: int, d: int, lo: int, hi: int)
    requires d > 0 && lo < hi
    requires 2 * n <= 2 * d * lo + d
    requires 2 * d * hi - d <= 2 * n
    ensures 2 * n == 2 * d * lo + d && 2 * n == 2 * d * hi - d
  {
    MulMonotone(d, lo + 1, hi);
    assert d * (lo + 1) == d * lo + d;
  }

  lemma TwoUnitsApart(d: int, a: int, b: int)
    requires d > 0 && a + 2 <= b
    ensures d * a + 2 * d <= d * b
  {
    MulMonotone(d, a + 2, b);
    assert d * (a + 2) == d * a + 2 * d;
  }

  lemma MulMonotone(d: int, a: int, b: int)
    requires d > 0 && a <= b
    ensures d * a <= d * b
  {
  }

  /** amount.multiply(rate).setScale(2, HALF_UP) for an amount of cents. */
  function ApplyRate(cents: int, rate: Rate): int {
    RoundHalfUp(cents * rate.num, rate.den)
  }

  /** Rounding an amount that is already whole cents leaves it unchanged. */
  lemma RoundWholeCents(n: int)
    ensures RoundHalfUp(n, 1) == n
  {
  }

  /** Zero times any rate is zero. */
  lemma ApplyRateToZero(rate: Rate)
    ensures ApplyRate(0, rate) == 0
  {
  }

  /** A rate between 0 and 1 gives an amount between 0 and the amount it is applied to. */
  lemma ApplyRateBounds(cents: int, rate: Rate)
    requires 0 <= cents
    requires 0 <= rate.num <= rate.den
    ensures 0 <= ApplyRate(cents, rate) <= cents
  {
    var n, d := cents * rate.num, rate.den;
    var r := ApplyRate(cents, rate);
    assert 0 <= n by { MulNonNegative(cents, rate.num); }
    assert n <= cents * d by { MulLe(cents, rate.num, d); }
    if r > cents {
      MulMonotone(d, cents + 1, r);
    }
  }

  lemma MulNonNegative(a: int, b: int)
    requires 0 <= a && 0 <= b
    ensures 0 <= a * b
  {
  }

  lemma MulLe(c: int, a: int, b: int)
    requires 0 <= c && a <= b
    ensures c * a <= c * b
  {
  }
}
