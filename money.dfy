/**
 * Fixed-point money. A `Decimal` is modelled exactly as a rational `Ratio`; a quantity
 * quantised to `Decimal("0.01")` is an integer number of hundredths (`Cents`; for the naira,
 * kobo). `ROUND_HALF_UP` rounds to the nearest integer with ties away from zero.
 */
module Money {

  type PosInt = n: int | n > 0 witness 1

  /** An exact decimal or rational value `num / den`. */
  datatype Ratio = Ratio(num: int, den: PosInt)

  /** An amount in hundredths of the currency unit. */
  type Cents = int

  /** The value of a whole number of cents, as a ratio. */
  function FromCents(c: Cents): Ratio {
    Ratio(c, 100)
  }

  /** `n / d` rounded to an integer with `ROUND_HALF_UP`: the nearest integer, and on a tie the
      one farther from zero. */
  function RoundHalfUp(n: int, d: PosInt): (q: int)
    ensures n >= 0 ==> -(d as int) <= 2 * (n - q * d) < d
    ensures n < 0 ==> -(d as int) < 2 * (n - q * d) <= d
  {
    if n >= 0 then
      var m := 2 * n + d;
      var q := m / (2 * d);
      assert m == q * (2 * d) + m % (2 * d);
      q
    else
      var m := 2 * -n + d;
      var q := m / (2 * d);
      assert m == q * (2 * d) + m % (2 * d);
      -q
  }

  /** The two bounds of `RoundHalfUp` leave room for one integer only. */
  lemma RoundHalfUpUnique(n: int, d: PosInt, q: int)
    requires n >= 0 ==> -(d as int) <= 2 * (n - q * d) < d
    requires n < 0 ==> -(d as int) < 2 * (n - q * d) <= d
    ensures q == RoundHalfUp(n, d)
  {
    var p := RoundHalfUp(n, d);
    if q > p {
      MulAtLeast(q - p, d);
    } else if q < p {
      MulAtLeast(p - q, d);
    }
  }

  lemma MulAtLeast(k: int, d: PosInt)
    requires k >= 1
    ensures k * d >= d
    ensures forall a: int, b: int {:trigger a * d - b * d} :: a - b == k ==> a * d - b * d == k * d
  {
  }

  /** Multiplying a strict or non-strict bound by a positive factor keeps it. */
  lemma MulBounds(lo: int, x: int, hi: int, k: PosInt)
    ensures lo <= x ==> lo * k <= x * k
    ensures x < hi ==> x * k < hi * k
    ensures lo < x ==> lo * k < x * k
    ensures x <= hi ==> x * k <= hi * k
  {
  }

  lemma MulSubDistrib(a: int, b: int, d: int)
    ensures (a - b) * d == a * d - b * d
  {
  }

  /** Rounding a fraction does not depend on how it is written: scaling numerator and denominator
      by the same factor gives the same integer. */
  lemma RoundHalfUpScale(n: int, d: PosInt, k: PosInt)
    ensures RoundHalfUp(n * k, d * k) == RoundHalfUp(n, d)
  {
    var q := RoundHalfUp(n, d);
    var e := 2 * (n - q * d);
    assert 2 * (n * k - q * (d * k)) == e * k;
    MulBounds(-(d as int), e, d, k);
    assert (n * k >= 0) == (n >= 0);
    RoundHalfUpUnique(n * k, d * k, q);
  }

  /** An exact quotient is its own rounding. */
  lemma RoundHalfUpExact(q: int, d: PosInt)
    ensures RoundHalfUp(q * d, d) == q
  {
    RoundHalfUpUnique(q * d, d, q);
  }

  /** `x.quantize(Decimal("0.01"), rounding=ROUND_HALF_UP)`, in cents. */
  function QuantizeCents(x: Ratio): Cents {
    RoundHalfUp(x.num * 100, x.den)
  }

  /** `x` has at most two decimal places: it is a whole number of cents. */
  predicate IsWholeCents(x: Ratio) {
    (x.num * 100) % x.den == 0
  }

  /** The number of cents a value with at most two decimals stands for. */
  function CentsOf(x: Ratio): Cents
    requires IsWholeCents(x)
  {
    (x.num * 100) / x.den
  }

  /** Quantising is exact, and nearest, on a value that already has two decimals. */
  lemma QuantizeWholeCents(x: Ratio)
    requires IsWholeCents(x)
    ensures QuantizeCents(x) == CentsOf(x)
  {
    var c := CentsOf(x);
    assert x.num * 100 == c * x.den;
    RoundHalfUpExact(c, x.den);
  }

  lemma QuantizeFromCents(c: Cents)
    ensures IsWholeCents(FromCents(c)) && CentsOf(FromCents(c)) == c && QuantizeCents(FromCents(c)) == c
  {
    assert c * 100 == c * 100;
    RoundHalfUpExact(c, 100);
  }

  /** `x * y` on exact values. */
  function Mul(x: Ratio, y: Ratio): Ratio {
    Ratio(x.num * y.num, x.den * y.den)
  }

  /** `x - c` for an amount `c` in cents. */
  function SubCents(x: Ratio, c: Cents): Ratio {
    Ratio(x.num * 100 - c * x.den, x.den * 100)
  }

  /** `x` is not negative. */
  predicate NonNegative(x: Ratio) {
    x.num >= 0
  }
}
