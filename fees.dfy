/**
 * The withdrawal fee and the net amount paid out: the fee is the amount times a percentage,
 * rounded half-up to hundredths, raised to a floor and then lowered to an optional ceiling;
 * the net is the amount less the fee, rounded the same way.
 */
module Fees {
  import opened Wrappers
  import opened Money

  /** The pair `calc_withdrawal_fee` returns, both in hundredths. */
  datatype FeeSplit = FeeSplit(fee: Cents, net: Cents)

  /** The percentage the configuration defaults to when none is set: 0.10. */
  const DefaultPercent: Ratio := Ratio(10, 100)

  /** The floor the configuration defaults to: 0.00. */
  const DefaultMin: Cents := 0

  /** `(amount * pct).quantize(Q, ROUND_HALF_UP)`: the fee before the floor and the ceiling. */
  function RawFee(amount: Ratio, pct: Ratio): (c: Cents)
    ensures var n := amount.num * pct.num * 100; var d := amount.den * pct.den;
      (n >= 0 ==> -d <= 2 * (n - c * d) < d) && (n < 0 ==> -d < 2 * (n - c * d) <= d)
  {
    assert Mul(amount, pct).num * 100 == amount.num * pct.num * 100;
    QuantizeCents(Mul(amount, pct))
  }

  /** `calc_withdrawal_fee`: the percentage, the floor and the optional ceiling are the
      configuration values it reads. */
  function CalcWithdrawalFee(amount: Ratio, pct: Ratio, feeMin: Cents, feeMax: Option<Cents>): (r: FeeSplit)
    ensures feeMax.None? ==> r.fee >= feeMin && r.fee >= RawFee(amount, pct)
    ensures feeMax.Some? ==> r.fee <= feeMax.value
    ensures r.fee == RawFee(amount, pct) || r.fee == feeMin || (feeMax.Some? && r.fee == feeMax.value)
    ensures feeMax.Some? && feeMin <= feeMax.value < RawFee(amount, pct) ==> r.fee == feeMax.value
    ensures RawFee(amount, pct) < feeMin && (feeMax.None? || feeMin <= feeMax.value) ==> r.fee == feeMin
    ensures r.net == RoundHalfUp(amount.num * 100 - r.fee * amount.den, amount.den)
  {
    var fee := RawFee(amount, pct);
    var fee := if fee < feeMin then feeMin else fee;
    var fee := if feeMax.Some? && feeMax.value < fee then feeMax.value else fee;
    var x := SubCents(amount, fee);
    NetScale(amount, fee);
    FeeSplit(fee, QuantizeCents(x))
  }

  /** The quantised difference, written over the amount's own denominator. */
  lemma NetScale(amount: Ratio, fee: Cents)
    ensures QuantizeCents(SubCents(amount, fee)) == RoundHalfUp(amount.num * 100 - fee * amount.den, amount.den)
  {
    var n := amount.num * 100 - fee * amount.den;
    var x := SubCents(amount, fee);
    assert x.num * 100 == n * 100;
    assert x.den == amount.den * 100;
    RoundHalfUpScale(n, amount.den, 100);
  }

  /** The net is the difference rounded half-up to the nearest hundredth. */
  lemma NetIsNearest(amount: Ratio, pct: Ratio, feeMin: Cents, feeMax: Option<Cents>)
    ensures var r := CalcWithdrawalFee(amount, pct, feeMin, feeMax);
      var n := amount.num * 100 - r.fee * amount.den; var d: int := amount.den;
      (n >= 0 ==> -d <= 2 * (n - r.net * d) < d) && (n < 0 ==> -d < 2 * (n - r.net * d) <= d)
  {
  }

  /** Between the floor and the ceiling the fee is the rounded product itself. */
  lemma FeeUnclampedIsRaw(amount: Ratio, pct: Ratio, feeMin: Cents, feeMax: Option<Cents>)
    requires feeMin <= RawFee(amount, pct)
    requires feeMax.Some? ==> RawFee(amount, pct) <= feeMax.value
    ensures CalcWithdrawalFee(amount, pct, feeMin, feeMax).fee == RawFee(amount, pct)
  {
  }

  /** The fee is never below the floor, unless the ceiling is below it. */
  lemma FeeAtLeastFloor(amount: Ratio, pct: Ratio, feeMin: Cents, feeMax: Option<Cents>)
    requires feeMax.Some? ==> feeMin <= feeMax.value
    ensures CalcWithdrawalFee(amount, pct, feeMin, feeMax).fee >= feeMin
  {
  }

  /** The ceiling is applied after the floor, so it wins when the floor is above it. */
  lemma CeilingWins(amount: Ratio, pct: Ratio, feeMin: Cents, feeMax: Cents)
    requires feeMin > feeMax
    ensures CalcWithdrawalFee(amount, pct, feeMin, Some(feeMax)).fee == feeMax
  {
  }

  /** For an amount with at most two decimals no rounding is lost: fee and net add up to the
      amount exactly. */
  lemma FeePlusNet(amount: Ratio, pct: Ratio, feeMin: Cents, feeMax: Option<Cents>)
    requires IsWholeCents(amount)
    ensures var r := CalcWithdrawalFee(amount, pct, feeMin, feeMax);
      r.fee + r.net == CentsOf(amount)
  {
    var r := CalcWithdrawalFee(amount, pct, feeMin, feeMax);
    NetOfWholeCents(amount, r.fee);
  }

  /** Taking whole hundredths off a whole-hundredths amount loses nothing to rounding. */
  lemma NetOfWholeCents(amount: Ratio, fee: Cents)
    requires IsWholeCents(amount)
    ensures fee + RoundHalfUp(amount.num * 100 - fee * amount.den, amount.den) == CentsOf(amount)
  {
    var a := CentsOf(amount);
    var d := amount.den;
    assert amount.num * 100 == a * d;
    MulSubDistrib(a, fee, d);
    RoundHalfUpExact(a - fee, d);
  }

  /** With the default percentage and floor and no ceiling, 1000.00 splits into a fee of 100.00
      and a net of 900.00. */
  lemma DefaultExample()
    ensures CalcWithdrawalFee(Ratio(100000, 100), DefaultPercent, DefaultMin, None) == FeeSplit(10000, 90000)
  {
    var amount := Ratio(100000, 100);
    RoundHalfUpExact(10000, 1000);
    assert RawFee(amount, DefaultPercent) == 10000;
    FeePlusNet(amount, DefaultPercent, DefaultMin, None);
  }

  /** Nothing bounds the net from below: a floor above the amount gives a negative net. */
  lemma NetCanBeNegative(amount: Ratio, pct: Ratio, feeMin: Cents)
    requires IsWholeCents(amount) && feeMin > CentsOf(amount)
    ensures CalcWithdrawalFee(amount, pct, feeMin, None).net < 0
  {
    FeePlusNet(amount, pct, feeMin, None);
  }
}
