/**
 * `calculateVariance`, the period-over-period change shared by the financial reports, balance
 * sheet and cash flow pages, and the sign-driven badge style used beside it. Amounts are exact
 * reals: the IEEE rounding of the source's `number` and the one-decimal `toFixed` display are not modelled.
 */
module Variance {

  function Abs(x: real): (r: real)
    ensures r >= 0.0 && (r == x || r == -x)
  {
    if x < 0.0 then -x else x
  }

  /** `calculateVariance(current, previous)`: the change relative to the magnitude of the base, in percent;
      a zero base gives 0 instead of dividing. Multiplying back by `|previous|` recovers the change in percent. */
  function CalculateVariance(current: real, previous: real): (r: real)
    ensures previous == 0.0 ==> r == 0.0
    ensures previous != 0.0 ==> r * Abs(previous) == (current - previous) * 100.0
  {
    if previous == 0.0 then 0.0 else (current - previous) / Abs(previous) * 100.0
  }

  /** The three badge styles chosen by `v > 0 ? emerald : v < 0 ? rose : neutral`. */
  datatype Trend = Up | Down | Flat

  function TrendOf(v: real): (t: Trend)
    ensures t == Up <==> v > 0.0
    ensures t == Down <==> v < 0.0
    ensures t == Flat <==> v == 0.0
  {
    if v > 0.0 then Up else if v < 0.0 then Down else Flat
  }

  /** The `'+'` prefix written before a percentage exactly when it is positive. */
  function Prefix(v: real): (s: string)
    ensures s == "+" <==> v > 0.0
    ensures s != "+" ==> s == ""
  {
    if v > 0.0 then "+" else ""
  }

  /** The variance has the sign of `current - previous`: up for growth, down for decline, flat when
      nothing changed or when the base is zero. */
  lemma VarianceTrend(current: real, previous: real)
    ensures TrendOf(CalculateVariance(current, previous)) ==
            if previous == 0.0 then Flat else TrendOf(current - previous)
  {
    if previous != 0.0 {
      var r, a := CalculateVariance(current, previous), Abs(previous);
      assert a > 0.0;
      if r > 0.0 { assert r * a > 0.0; }
      if r < 0.0 { assert r * a < 0.0; }
      if r == 0.0 { assert r * a == 0.0; }
    }
  }

  /** With a non-zero base the variance is zero exactly when the two amounts are equal. */
  lemma VarianceZeroIff(current: real, previous: real)
    requires previous != 0.0
    ensures CalculateVariance(current, previous) == 0.0 <==> current == previous
  {
    VarianceTrend(current, previous);
  }

  /** A variance badge: the percentage, its style and its sign prefix. */
  datatype Badge = Badge(percent: real, trend: Trend, prefix: string)

  function BadgeOf(percent: real): Badge {
    Badge(percent, TrendOf(percent), Prefix(percent))
  }

  /** The badge for `calculateVariance(current, previous)` is styled by the sign of the change and
      carries a `+` exactly when the base is non-zero and the amount grew. */
  lemma VarianceBadge(current: real, previous: real)
    ensures var b := BadgeOf(CalculateVariance(current, previous));
      && b.percent == CalculateVariance(current, previous)
      && b.trend == (if previous == 0.0 then Flat else TrendOf(current - previous))
      && (b.prefix == "+" <==> previous != 0.0 && current > previous)
  {
    VarianceTrend(current, previous);
  }
}
