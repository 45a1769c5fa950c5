/** The shape of the kinked rate curve: its range, where it is monotone, and how far rounding at the kink
    carries it out of order. */
module RateCurve {
  import opened WadRayMath
  import opened RateStrategy

  // ---------- Rounding at the kink ----------

  /** What the first rounding adds to slope1 · optimal on its way to a whole number of rays. */
  function Carry(opt: int, slope1: int): int {
    var rest := slope1 * opt % RAY;
    if 2 * rest >= RAY then RAY - rest else -rest
  }

  /** How far the two roundings below the kink carry the curve over slope1 there. */
  function Overshoot(opt: int, slope1: int): int
    requires opt > 0
  {
    (2 * Carry(opt, slope1) + opt) / (2 * opt)
  }

  lemma CarryRounds(opt: int, slope1: int)
    requires opt > 0 && slope1 >= 0
    ensures RayMul(slope1, opt) * RAY == slope1 * opt + Carry(opt, slope1)
    ensures -RAY < 2 * Carry(opt, slope1) <= RAY
  {
    MulLe(0, slope1, opt);
    RayMulNearest(slope1, opt);
    var n := slope1 * opt;
    assert n == RAY * (n / RAY) + n % RAY;
    hide RayMul;
    var q := if 2 * (n % RAY) >= RAY then n / RAY + 1 else n / RAY;
    NearestSameRatio(RayMul(slope1, opt), n, RAY, q, n, RAY);
  }

  /** At the kink the curve is slope1 plus the overshoot, exactly. */
  lemma CurveAtKink(opt: int, slope1: int, slope2: int)
    requires 0 < opt <= RAY && slope1 >= 0
    ensures Curve(opt, slope1, slope2, opt) == slope1 + Overshoot(opt, slope1)
  {
    hide RayMul, RayDiv, Carry;
    var m, c := RayMul(slope1, opt), Carry(opt, slope1);
    CarryRounds(opt, slope1);
    RayMulMonotone(slope1, opt, slope1, opt);
    RayDivNearest(m, opt);
    var over := RayDiv(m, opt) - slope1;
    assert opt * RayDiv(m, opt) == opt * over + slope1 * opt;
    QuotientIs(over, 2 * c + opt, 2 * opt);
  }

  lemma QuotientIs(q: int, n: int, d: int)
    requires d > 0 && d * q <= n < d * q + d
    ensures n / d == q
  {
    var p := n / d;
    assert n == d * p + n % d;
    MulLtCancel(p, q + 1, d);
    MulLtCancel(q, p + 1, d);
  }

  /** The overshoot is at most 1/2 + RAY/(2·optimal). With the kink above a third of a ray that is one unit,
      reached exactly when the first rounding goes up by at least half the optimal utilization. */
  lemma OvershootBounds(opt: int, slope1: int)
    requires 0 < opt <= RAY && slope1 >= 0
    ensures 2 * (opt * Overshoot(opt, slope1)) <= RAY + opt
    ensures RAY < 3 * opt ==>
              var rest := slope1 * opt % RAY;
              && Overshoot(opt, slope1) <= 1
              && (Overshoot(opt, slope1) == 1 <==> 2 * rest >= RAY && 2 * (RAY - rest) >= opt)
  {
    CarryRounds(opt, slope1);
    hide RayMul;
    var c, over := Carry(opt, slope1), Overshoot(opt, slope1);
    hide Carry, Overshoot;
    QuotientBounds(over, 2 * c + opt, 2 * opt);
    Doubled(opt, over);
    if RAY < 3 * opt {
      MulLtCancel(over, 2, 2 * opt);
      if over <= 0 { MulLe(over, 0, 2 * opt); } else { MulLe(1, over, 2 * opt); }
      CarryUp(opt, slope1);
    }
  }

  lemma QuotientBounds(q: int, n: int, d: int)
    requires d > 0 && q == n / d
    ensures d * q <= n < d * q + d
  {
  }

  lemma Doubled(opt: int, over: int)
    ensures 2 * opt * over == 2 * (opt * over)
  {
  }

  lemma CarryUp(opt: int, slope1: int)
    requires opt > 0
    ensures var rest := slope1 * opt % RAY;
            2 * Carry(opt, slope1) >= opt <==> 2 * rest >= RAY && 2 * (RAY - rest) >= opt
  {
  }

  // ---------- Below and above the kink ----------

  lemma MonotoneOnEachSide(opt: int, slope1: int, slope2: int, u1: int, u2: int)
    requires 0 < opt <= RAY && slope1 >= 0 && slope2 >= 0 && 0 <= u1 <= u2 <= RAY
    requires u2 <= opt || u1 > opt
    ensures Curve(opt, slope1, slope2, u1) <= Curve(opt, slope1, slope2, u2)
  {
    hide RayMul, RayDiv;
    if u2 <= opt {
      RayMulMonotone(slope1, u1, slope1, u2);
      RayDivMonotone(RayMul(slope1, u1), opt, RayMul(slope1, u2), opt);
    } else {
      RayDivMonotone(u1 - opt, RAY - opt, u2 - opt, RAY - opt);
      RayMulMonotone(slope2, ExcessUtilization(opt, u1), slope2, ExcessUtilization(opt, u2));
    }
  }

  lemma BelowKink(opt: int, slope1: int, slope2: int, u: int)
    requires 0 < opt <= RAY && slope1 >= 0 && slope2 >= 0 && 0 <= u <= opt
    ensures 0 <= Curve(opt, slope1, slope2, u) <= slope1 + Overshoot(opt, slope1)
  {
    hide RayMul, RayDiv, Overshoot;
    MonotoneOnEachSide(opt, slope1, slope2, u, opt);
    CurveAtKink(opt, slope1, slope2);
    RayMulMonotone(slope1, u, slope1, u);
    RayDivMonotone(RayMul(slope1, u), opt, RayMul(slope1, u), opt);
  }

  lemma AboveKink(opt: int, slope1: int, slope2: int, u: int)
    requires 0 < opt <= RAY && slope2 >= 0 && opt < u <= RAY
    ensures slope1 <= Curve(opt, slope1, slope2, u) <= slope1 + slope2
  {
    RayMulByFraction(slope2, ExcessUtilization(opt, u));
  }

  // ---------- Range ----------

  lemma CurveRange(opt: int, slope1: int, slope2: int, u: int)
    requires 0 < opt <= RAY && slope1 >= 0 && slope2 >= 0 && 0 <= u <= RAY
    ensures 0 <= Curve(opt, slope1, slope2, u) <= slope1 + Max(slope2, Overshoot(opt, slope1))
  {
    hide Curve, Overshoot;
    if u <= opt { BelowKink(opt, slope1, slope2, u); } else { AboveKink(opt, slope1, slope2, u); }
  }

  /** The curve stays within its two slopes at every utilization exactly when the overshoot at the kink
      is no more than the second slope. */
  lemma WithinSlopesExactly(opt: int, slope1: int, slope2: int)
    requires 0 < opt <= RAY && slope1 >= 0 && slope2 >= 0
    ensures (forall u | 0 <= u <= RAY :: Curve(opt, slope1, slope2, u) <= slope1 + slope2)
        <==> Overshoot(opt, slope1) <= slope2
  {
    hide Curve, Overshoot;
    CurveAtKink(opt, slope1, slope2);
    forall u | 0 <= u <= RAY
      ensures Curve(opt, slope1, slope2, u) <= slope1 + Max(slope2, Overshoot(opt, slope1))
    {
      CurveRange(opt, slope1, slope2, u);
    }
  }

  /** Every strategy keeps the variable rate between its base and the base plus both slopes, and the stable
      rate between the market's and the market's plus both slopes and the whole offset, where an overshoot
      at the kink takes the place of a smaller second slope. */
  lemma RateRanges(s: Strategy, market: int, u: int, ratio: int)
    requires ValidStrategy(s) && 0 <= u <= RAY && 0 <= ratio <= RAY
    ensures var over := Overshoot(s.optimalUtilizationRate, s.variableRateSlope1);
            0 <= VariableRate(s, u) - s.baseVariableBorrowRate <= s.variableRateSlope1 + Max(s.variableRateSlope2, over)
    ensures var over := Overshoot(s.optimalUtilizationRate, s.stableRateSlope1);
            0 <= StableRate(s, market, u, ratio) - market
              <= s.stableRateSlope1 + Max(s.stableRateSlope2, over) + s.stableRateExcessOffset
  {
    hide Curve, RayMul, RayDiv, Overshoot;
    CurveRange(s.optimalUtilizationRate, s.variableRateSlope1, s.variableRateSlope2, u);
    CurveRange(s.optimalUtilizationRate, s.stableRateSlope1, s.stableRateSlope2, u);
    if ratio > s.optimalStableToTotalDebtRatio {
      var n, d := ratio - s.optimalStableToTotalDebtRatio, RAY - s.optimalStableToTotalDebtRatio;
      RayDivShare(n, d);
      RayMulByFraction(s.stableRateExcessOffset, RayDiv(n, d));
    }
  }

  // ---------- Order across the kink ----------

  /** Between any two utilizations the curve falls by at most the overshoot, so by at most one unit with the
      kink above a third of a ray. */
  lemma CurveDrop(opt: int, slope1: int, slope2: int, u1: int, u2: int)
    requires 0 < opt <= RAY && slope1 >= 0 && slope2 >= 0 && 0 <= u1 <= u2 <= RAY
    ensures Curve(opt, slope1, slope2, u1) <= Curve(opt, slope1, slope2, u2) + Max(0, Overshoot(opt, slope1))
    ensures RAY < 3 * opt ==> Curve(opt, slope1, slope2, u1) <= Curve(opt, slope1, slope2, u2) + 1
  {
    hide Curve, Overshoot;
    OvershootBounds(opt, slope1);
    if u2 <= opt || u1 > opt {
      MonotoneOnEachSide(opt, slope1, slope2, u1, u2);
    } else {
      BelowKink(opt, slope1, slope2, u1);
      AboveKink(opt, slope1, slope2, u2);
    }
  }

  /** The first unit above the kink earns back what rounding added at it. */
  predicate KinkInOrder(opt: int, slope1: int, slope2: int)
    requires 0 < opt <= RAY
  {
    opt == RAY || 2 * RAY * Overshoot(opt, slope1) <= 2 * (slope2 * RayDiv(1, RAY - opt)) + RAY
  }

  /** The curve is monotone over all utilizations if and only if it is so over that one unit; the
      condition is about the strategy's parameters alone. */
  lemma MonotoneExactly(opt: int, slope1: int, slope2: int)
    requires 0 < opt <= RAY && slope1 >= 0 && slope2 >= 0
    ensures (forall u1, u2 | 0 <= u1 <= u2 <= RAY :: Curve(opt, slope1, slope2, u1) <= Curve(opt, slope1, slope2, u2))
        <==> KinkInOrder(opt, slope1, slope2)
  {
    hide Curve, Overshoot, RayDiv;
    if opt < RAY { FirstUnitAbove(opt, slope1, slope2); }
    if KinkInOrder(opt, slope1, slope2) {
      forall u1, u2 | 0 <= u1 <= u2 <= RAY
        ensures Curve(opt, slope1, slope2, u1) <= Curve(opt, slope1, slope2, u2)
      {
        if u2 <= opt || u1 > opt {
          MonotoneOnEachSide(opt, slope1, slope2, u1, u2);
        } else {
          MonotoneOnEachSide(opt, slope1, slope2, u1, opt);
          MonotoneOnEachSide(opt, slope1, slope2, opt + 1, u2);
        }
      }
    }
  }

  lemma FirstUnitAbove(opt: int, slope1: int, slope2: int)
    requires 0 < opt < RAY && slope1 >= 0 && slope2 >= 0
    ensures Curve(opt, slope1, slope2, opt) <= Curve(opt, slope1, slope2, opt + 1)
       <==> KinkInOrder(opt, slope1, slope2)
  {
    hide RayMul, RayDiv, Overshoot;
    CurveAtKink(opt, slope1, slope2);
    var x := RayDiv(1, RAY - opt);
    RayDivMonotone(1, RAY - opt, 1, RAY - opt);
    MulLe(0, slope2, x);
    RayMulNearest(slope2, x);
    assert Curve(opt, slope1, slope2, opt + 1) == slope1 + RayMul(slope2, x);
  }

  /** With the kink above a third of a ray: only a first slope whose part at the kink rounds up by at least
      half the kink, together with a second slope too small to show in one unit, breaks the order. */
  lemma MonotoneFromAThird(opt: int, slope1: int, slope2: int)
    requires RAY < 3 * opt < 3 * RAY && slope1 >= 0 && slope2 >= 0
    ensures var rest := slope1 * opt % RAY;
            ((forall u1, u2 | 0 <= u1 <= u2 <= RAY :: Curve(opt, slope1, slope2, u1) <= Curve(opt, slope1, slope2, u2))
             <==> !(2 * rest >= RAY && 2 * (RAY - rest) >= opt) || 2 * (slope2 * RayDiv(1, RAY - opt)) >= RAY)
  {
    hide Curve, Overshoot, RayDiv;
    MonotoneExactly(opt, slope1, slope2);
    OvershootBounds(opt, slope1);
    RayDivMonotone(1, RAY - opt, 1, RAY - opt);
    MulLe(0, slope2, RayDiv(1, RAY - opt));
  }

  /** So every strategy whose second slope shows in one unit has a monotone curve, whatever its first. */
  lemma SteepSecondSlopeIsMonotone(opt: int, slope1: int, slope2: int, u1: int, u2: int)
    requires RAY < 3 * opt < 3 * RAY && slope1 >= 0 && slope2 >= 0 && 0 <= u1 <= u2 <= RAY
    requires 2 * (slope2 * RayDiv(1, RAY - opt)) >= RAY
    ensures Curve(opt, slope1, slope2, u1) <= Curve(opt, slope1, slope2, u2)
  {
    hide Curve, RayDiv;
    MonotoneFromAThird(opt, slope1, slope2);
  }

  /** Slopes that break it: here one more unit of utilization lowers the rate. */
  lemma RateDropsAcrossKink()
    ensures Curve(HALF_RAY, 1, 0, HALF_RAY) == 2 && Curve(HALF_RAY, 1, 0, HALF_RAY + 1) == 1
  {
    assert RayMul(1, HALF_RAY) == 1 && RayDiv(1, HALF_RAY) == 2;
    var x := ExcessUtilization(HALF_RAY, HALF_RAY + 1);
    assert 0 * x == 0;
  }

  /** Adding liquidity under a fixed debt never raises either rate by more than its overshoot, so by no more
      than one unit with the kink above a third of a ray. */
  lemma LiquidityCheapensDebt(s: Strategy, market: int, totalDebt: int, ratio: int, liquidity: int, added: int)
    requires ValidStrategy(s) && totalDebt >= 0 && liquidity >= 0 && added >= 0 && 0 <= ratio <= RAY
    ensures var before := BorrowUtilization(totalDebt, liquidity);
            var after := BorrowUtilization(totalDebt, liquidity + added);
            var opt := s.optimalUtilizationRate;
            var variableRise := VariableRate(s, after) - VariableRate(s, before);
            var stableRise := StableRate(s, market, after, ratio) - StableRate(s, market, before, ratio);
            && variableRise <= Max(0, Overshoot(opt, s.variableRateSlope1))
            && stableRise <= Max(0, Overshoot(opt, s.stableRateSlope1))
            && (RAY < 3 * opt ==> variableRise <= 1 && stableRise <= 1)
  {
    hide Curve, BorrowUtilization, StableOffset, Overshoot;
    var before, after := BorrowUtilization(totalDebt, liquidity), BorrowUtilization(totalDebt, liquidity + added);
    UtilizationAntitone(totalDebt, liquidity, liquidity + added);
    CurveDrop(s.optimalUtilizationRate, s.variableRateSlope1, s.variableRateSlope2, after, before);
    CurveDrop(s.optimalUtilizationRate, s.stableRateSlope1, s.stableRateSlope2, after, before);
    OvershootBounds(s.optimalUtilizationRate, s.variableRateSlope1);
    OvershootBounds(s.optimalUtilizationRate, s.stableRateSlope1);
  }
}
