/** What each rate is, in terms of debts and liquidity: the value of the curve, of the stable surcharge and of the
    utilizations, each to within its roundings. */
module RateValues {
  import opened WadRayMath
  import opened RateStrategy

  /** A value on the kinked curve: slope1 in proportion up to the kink, then slope1 and slope2 in proportion to what
      is left of the ray. */
  ghost predicate OnCurve(value: int, opt: int, slope1: int, slope2: int, u: int) {
    if u <= opt then 2 * Abs(opt * value - slope1 * u) <= opt + RAY
    else 2 * RAY * Abs((RAY - opt) * (value - slope1) - slope2 * (u - opt)) <= (RAY - opt) * (RAY + slope2)
  }

  /** A surcharge that begins at the optimal ratio and is whole at one ray. */
  ghost predicate OnOffset(value: int, opt: int, offset: int, ratio: int) {
    && (ratio <= opt ==> value == 0)
    && (ratio > opt ==> 2 * RAY * Abs((RAY - opt) * value - offset * (ratio - opt)) <= (RAY - opt) * (RAY + offset))
    && (ratio == RAY > opt ==> value == offset)
  }

  lemma CurveValue(opt: int, slope1: int, slope2: int, u: int)
    requires 0 < opt <= RAY && slope1 >= 0 && slope2 >= 0 && 0 <= u <= RAY
    ensures OnCurve(Curve(opt, slope1, slope2, u), opt, slope1, slope2, u)
  {
    if u <= opt {
      BelowKinkValue(opt, slope1, u, RayMul(slope1, u), RayDiv(RayMul(slope1, u), opt));
    } else {
      InProportion(slope2, u - opt, RAY - opt, RayDiv(u - opt, RAY - opt), RayMul(slope2, ExcessUtilization(opt, u)));
    }
  }

  lemma BelowKinkValue(opt: int, slope1: int, u: int, m: int, q: int)
    requires 0 < opt && slope1 >= 0 && 0 <= u && m == RayMul(slope1, u) && q == RayDiv(m, opt)
    ensures 2 * Abs(opt * q - slope1 * u) <= opt + RAY
  {
    MulLe(0, slope1, u);
    RayMulNearest(slope1, u);
    RayMulMonotone(slope1, u, slope1, u);
    RayDivNearest(m, opt);
  }

  /** An amount in proportion n/d, through a rounded ratio. */
  lemma InProportion(amount: int, n: int, d: int, x: int, m: int)
    requires amount >= 0 && 0 <= n && d > 0 && x == RayDiv(n, d) && m == RayMul(amount, x)
    ensures 2 * RAY * Abs(d * m - amount * n) <= d * (RAY + amount)
  {
    RayDivNearest(n, d);
    RayDivMonotone(n, d, n, d);
    MulLe(0, amount, x);
    RayMulNearest(amount, x);
    hide RayMul, RayDiv;
    TwoRoundings(amount, n, d, x, m);
  }

  lemma TwoRoundings(amount: int, n: int, d: int, x: int, m: int)
    requires amount >= 0 && d > 0
    requires Abs(2 * RAY * m - 2 * (amount * x)) <= RAY && Abs(2 * (d * x) - 2 * (n * RAY)) <= d
    ensures 2 * RAY * Abs(d * m - amount * n) <= d * (RAY + amount)
  {
    MulLe(2 * RAY * m - 2 * (amount * x), RAY, d);
    MulLe(-RAY, 2 * RAY * m - 2 * (amount * x), d);
    MulLe(2 * (d * x) - 2 * (n * RAY), d, amount);
    MulLe(-d, 2 * (d * x) - 2 * (n * RAY), amount);
    RoundingProducts(amount, n, d, x, m);
    AddTwoRoundings(d * m, amount * n, d * (amount * x), d, amount * d);
    assert d * (RAY + amount) == RAY * d + amount * d;
  }

  lemma RoundingProducts(amount: int, n: int, d: int, x: int, m: int)
    ensures d * (2 * RAY * m - 2 * (amount * x)) == 2 * RAY * (d * m) - 2 * (d * (amount * x)) && d * -RAY == -(RAY * d)
    ensures amount * (2 * (d * x) - 2 * (n * RAY)) == 2 * (d * (amount * x)) - 2 * RAY * (amount * n)
    ensures amount * -d == -(amount * d)
  {
    assert amount * (d * x) == d * (amount * x) && amount * (n * RAY) == RAY * (amount * n);
  }

  lemma AddTwoRoundings(dm: int, an: int, dax: int, d: int, ad: int)
    requires -(RAY * d) <= 2 * RAY * dm - 2 * dax <= RAY * d
    requires -ad <= 2 * dax - 2 * RAY * an <= ad
    ensures 2 * RAY * Abs(dm - an) <= RAY * d + ad
  {
  }

  lemma OffsetValue(s: Strategy, ratio: int)
    requires ValidStrategy(s) && 0 <= ratio <= RAY
    ensures OnOffset(StableOffset(s, ratio), s.optimalStableToTotalDebtRatio, s.stableRateExcessOffset, ratio)
  {
    hide RayMul, RayDiv;
    var n, d := ratio - s.optimalStableToTotalDebtRatio, RAY - s.optimalStableToTotalDebtRatio;
    if n > 0 {
      InProportion(s.stableRateExcessOffset, n, d, RayDiv(n, d), RayMul(s.stableRateExcessOffset, RayDiv(n, d)));
      if ratio == RAY {
        RayDivShare(n, d);
        RayMulByRay(s.stableRateExcessOffset);
      }
    }
  }

  /** The utilization is the debt's share of liquidity and debt, the stable ratio the stable debt's share of all debt,
      each the nearest whole number of rays. */
  lemma SharesNearest(stable: int, variable: int, available: int)
    requires stable >= 0 && variable >= 0 && available >= 0
    ensures stable + variable == 0 ==> BorrowUtilization(stable + variable, available) == 0
    ensures stable + variable > 0 ==>
              Nearest(BorrowUtilization(stable + variable, available), (stable + variable) * RAY,
                      available + stable + variable)
    ensures stable == 0 ==> StableToTotalDebtRatio(stable, variable) == 0
    ensures stable > 0 ==> Nearest(StableToTotalDebtRatio(stable, variable), stable * RAY, stable + variable)
  {
    if stable + variable > 0 { RayDivNearest(stable + variable, available + stable + variable); }
    if stable > 0 { RayDivNearest(stable, stable + variable); }
  }

  /** The two borrow rates of a reserve: the variable one beyond its base, and the stable one beyond the market's,
      lie on their curves at the utilization; the stable one carries the surcharge of its ratio on top. */
  lemma BorrowRates(s: Strategy, market: int, stable: int, variable: int, averageRate: int, available: int, total: int)
    requires ValidStrategy(s) && stable >= 0 && variable >= 0 && 0 <= available <= total
    ensures var r := InterestRates(s, market, stable, variable, averageRate, available, total);
            var u, ratio := BorrowUtilization(stable + variable, available), StableToTotalDebtRatio(stable, variable);
            var opt := s.optimalUtilizationRate;
            var stableCurve := Curve(opt, s.stableRateSlope1, s.stableRateSlope2, u);
            && OnCurve(r.variableBorrowRate
                       - s.baseVariableBorrowRate, opt, s.variableRateSlope1, s.variableRateSlope2, u)
            && OnCurve(stableCurve, opt, s.stableRateSlope1, s.stableRateSlope2, u)
            && OnOffset(r.stableBorrowRate - market - stableCurve, s.optimalStableToTotalDebtRatio,
                        s.stableRateExcessOffset, ratio)
  {
    hide Curve, StableOffset, OnCurve, OnOffset, BorrowUtilization, StableToTotalDebtRatio, SupplyUtilization,
         LiquidityRate, OverallBorrowRate;
    var u := BorrowUtilization(stable + variable, available);
    CurveValue(s.optimalUtilizationRate, s.variableRateSlope1, s.variableRateSlope2, u);
    CurveValue(s.optimalUtilizationRate, s.stableRateSlope1, s.stableRateSlope2, u);
    OffsetValue(s, StableToTotalDebtRatio(stable, variable));
  }

  /** With 20% as the optimal ratio and a surcharge of 8%, a reserve whose debt is all stable pays all of it. */
  lemma WholeSurcharge(s: Strategy, market: int, stable: int, averageRate: int, available: int, total: int)
    requires ValidStrategy(s) && stable > 0 && 0 <= available <= total
    requires s.optimalStableToTotalDebtRatio == RAY / 5 && s.stableRateExcessOffset == 8 * (RAY / 100)
    ensures InterestRates(s, market, stable, 0, averageRate, available, total).stableBorrowRate
         == market + Curve(s.optimalUtilizationRate, s.stableRateSlope1, s.stableRateSlope2,
                           BorrowUtilization(stable, available)) + 8 * (RAY / 100)
  {
    hide Curve, BorrowUtilization, SupplyUtilization, LiquidityRate, OverallBorrowRate, RayMul, RayDiv;
    RayDivShare(stable, stable);
    OffsetValue(s, RAY);
  }
}
