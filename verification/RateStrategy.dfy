/** Utilization and the kinked interest rate curve: the rates a reserve charges and pays for given debts
    and liquidity. */
module RateStrategy {
  import opened WadRayMath
  import opened DecimalOrder

  datatype Strategy = Strategy(
    optimalUtilizationRate: int,
    baseVariableBorrowRate: int,
    variableRateSlope1: int,
    variableRateSlope2: int,
    stableRateSlope1: int,
    stableRateSlope2: int,
    stableRateExcessOffset: int,
    optimalStableToTotalDebtRatio: int,
    reserveFactor: int
  )

  predicate ValidStrategy(s: Strategy) {
    && 0 < s.optimalUtilizationRate <= RAY
    && 0 <= s.optimalStableToTotalDebtRatio <= RAY
    && 0 <= s.baseVariableBorrowRate && 0 <= s.variableRateSlope1 && 0 <= s.variableRateSlope2
    && 0 <= s.stableRateSlope1 && 0 <= s.stableRateSlope2 && 0 <= s.stableRateExcessOffset
    && 0 <= s.reserveFactor <= PERCENTAGE_FACTOR
  }

  datatype Rates = Rates(liquidityRate: int, stableBorrowRate: int, variableBorrowRate: int)

  // ---------- Utilization ----------

  /** The debt's share of liquidity and debt: a part of one ray, unless an excessive repayment or swap has
      driven the debt below zero. */
  function BorrowUtilization(totalDebt: int, availableLiquidity: int): (u: int)
    requires totalDebt == 0 || availableLiquidity + totalDebt != 0
    ensures totalDebt >= 0 && availableLiquidity >= 0 ==> 0 <= u <= RAY
    ensures totalDebt == 0 ==> u == 0
    ensures totalDebt > 0 && availableLiquidity == 0 ==> u == RAY
  {
    if totalDebt == 0 then 0
    else
      UtilizationInRange(totalDebt, availableLiquidity);
      RayDiv(totalDebt, availableLiquidity + totalDebt)
  }

  lemma UtilizationInRange(totalDebt: int, availableLiquidity: int)
    requires totalDebt != 0 && availableLiquidity + totalDebt != 0
    ensures totalDebt > 0 && availableLiquidity >= 0 ==> 0 <= RayDiv(totalDebt, availableLiquidity + totalDebt) <= RAY
    ensures totalDebt > 0 && availableLiquidity == 0 ==> RayDiv(totalDebt, availableLiquidity + totalDebt) == RAY
  {
    if totalDebt > 0 && availableLiquidity >= 0 { RayDivShare(totalDebt, availableLiquidity + totalDebt); }
  }

  /** The debt's share of all liquidity, unbacked included, before the cap. */
  function UncappedSupplyUtilization(totalDebt: int, totalLiquidity: int): (u: int)
    requires totalDebt == 0 || totalLiquidity + totalDebt != 0
    ensures totalDebt >= 0 && totalLiquidity >= 0 ==> 0 <= u <= RAY
    ensures totalDebt == 0 ==> u == 0
  {
    BorrowUtilization(totalDebt, totalLiquidity)
  }

  /** The source caps with `>` on two big numbers, which compares their decimal strings. */
  function SupplyUtilization(totalDebt: int, availableLiquidity: int, totalLiquidity: int): (u: int)
    requires totalDebt == 0 || (availableLiquidity + totalDebt != 0 && totalLiquidity + totalDebt != 0)
    ensures totalDebt >= 0 && 0 <= availableLiquidity <= totalLiquidity ==>
              && 0 <= u <= BorrowUtilization(totalDebt, availableLiquidity)
              && UncappedSupplyUtilization(totalDebt, totalLiquidity) <= u
  {
    ShareBelowCap(totalDebt, availableLiquidity, totalLiquidity);
    var uncapped := UncappedSupplyUtilization(totalDebt, totalLiquidity);
    var cap := BorrowUtilization(totalDebt, availableLiquidity);
    if JsGreater(uncapped, cap) then cap else uncapped
  }

  lemma ShareBelowCap(totalDebt: int, liquidity1: int, liquidity2: int)
    requires totalDebt == 0 || (liquidity1 + totalDebt != 0 && liquidity2 + totalDebt != 0)
    ensures totalDebt >= 0 && 0 <= liquidity1 <= liquidity2 ==>
              BorrowUtilization(totalDebt, liquidity2) <= BorrowUtilization(totalDebt, liquidity1)
  {
    if totalDebt >= 0 && 0 <= liquidity1 <= liquidity2 { UtilizationAntitone(totalDebt, liquidity1, liquidity2); }
  }

  lemma UtilizationAntitone(totalDebt: int, liquidity1: int, liquidity2: int)
    requires totalDebt >= 0 && 0 <= liquidity1 <= liquidity2
    ensures BorrowUtilization(totalDebt, liquidity2) <= BorrowUtilization(totalDebt, liquidity1)
  {
    if totalDebt > 0 {
      RayDivMonotone(totalDebt, liquidity2 + totalDebt, totalDebt, liquidity1 + totalDebt);
    }
  }

  lemma UtilizationMonotone(debt1: int, debt2: int, liquidity: int)
    requires 0 <= debt1 <= debt2 && liquidity >= 0
    ensures BorrowUtilization(debt1, liquidity) <= BorrowUtilization(debt2, liquidity)
  {
    if debt1 > 0 {
      MulLe(debt1, debt2, liquidity);
      assert debt1 * (liquidity + debt2) <= debt2 * (liquidity + debt1);
      RayDivOrder(debt1, liquidity + debt1, debt2, liquidity + debt2);
    }
  }

  /** The method form, with the source's reassigned local. */
  method CalcExpectedUtilizationRates(totalStableDebt: int, totalVariableDebt: int, availableLiquidity: int,
                                      totalLiquidity: int)
    returns (borrowUtilizationRate: int, supplyUtilizationRate: int)
    requires totalStableDebt + totalVariableDebt == 0
          || (&& availableLiquidity + totalStableDebt + totalVariableDebt != 0
              && totalLiquidity + totalStableDebt + totalVariableDebt != 0)
    ensures borrowUtilizationRate == BorrowUtilization(totalStableDebt + totalVariableDebt, availableLiquidity)
    ensures supplyUtilizationRate
            == SupplyUtilization(totalStableDebt + totalVariableDebt, availableLiquidity, totalLiquidity)
    ensures totalStableDebt >= 0 && totalVariableDebt >= 0 && 0 <= availableLiquidity <= totalLiquidity ==>
              0 <= supplyUtilizationRate <= borrowUtilizationRate <= RAY
  {
    var totalDebt := totalStableDebt + totalVariableDebt;
    borrowUtilizationRate := if totalDebt == 0 then 0 else RayDiv(totalDebt, availableLiquidity + totalDebt);
    supplyUtilizationRate := if totalDebt == 0 then 0 else RayDiv(totalDebt, totalLiquidity + totalDebt);
    supplyUtilizationRate :=
      if JsGreater(supplyUtilizationRate, borrowUtilizationRate) then borrowUtilizationRate else supplyUtilizationRate;
  }

  /** Numerically the cap never binds, so the reported utilization is the debt's share exactly when the
      string comparison stays quiet; otherwise suppliers are paid on a larger share than they lent. */
  lemma SupplyUtilizationIsShareExactly(totalDebt: int, availableLiquidity: int, totalLiquidity: int)
    requires totalDebt >= 0 && 0 <= availableLiquidity <= totalLiquidity
    ensures var share := UncappedSupplyUtilization(totalDebt, totalLiquidity);
            var cap := BorrowUtilization(totalDebt, availableLiquidity);
            && share <= cap
            && |Decimal(share)| <= |Decimal(cap)|
            && (SupplyUtilization(totalDebt, availableLiquidity, totalLiquidity) == share
                <==> share <= DropDigits(cap, |Decimal(cap)| - |Decimal(share)|))
  {
    UtilizationAntitone(totalDebt, availableLiquidity, totalLiquidity);
    var share := UncappedSupplyUtilization(totalDebt, totalLiquidity);
    var cap := BorrowUtilization(totalDebt, availableLiquidity);
    JsGreaterMeaning(share, cap);
    JsGreaterSameLength(share, share);
  }

  /** Without unbacked tokens both shares coincide and the cap changes nothing. */
  lemma CapIdleWithoutUnbacked(totalDebt: int, liquidity: int)
    requires totalDebt >= 0 && liquidity >= 0
    ensures SupplyUtilization(totalDebt, liquidity, liquidity) == UncappedSupplyUtilization(totalDebt, liquidity)
  {
  }

  /** The cap at work where it should not be: everything lent out and as much again unbacked. Half of
      the claims are lent, yet the utilization reported for suppliers is 100%. */
  lemma CapMisfires()
    ensures UncappedSupplyUtilization(WAD, WAD) == HALF_RAY
    ensures SupplyUtilization(WAD, 0, WAD) == RAY
  {
    HalfARayLooksGreater();
    hide JsGreater;
    assert RayDiv(WAD, WAD + WAD) == HALF_RAY;
  }

  lemma HalfARayLooksGreater()
    ensures JsGreater(HALF_RAY, RAY)
  {
    hide JsGreater, Decimal;
    ZerosCount(5, 26);
    ZerosCount(1, 27);
    RoundRays();
    JsGreaterMeaning(HALF_RAY, RAY);
    assert DropDigits(RAY, 1) == RAY / 10;
  }

  lemma RoundRays()
    ensures WithZeros(5, 26) == HALF_RAY && WithZeros(1, 27) == RAY
  {
    assert WithZeros(1, 7) == 10_000_000;
    assert WithZeros(1, 14) == 100_000_000_000_000;
    assert WithZeros(1, 21) == 1_000_000_000_000_000_000_000;
    assert WithZeros(1, 27) == RAY;
    assert WithZeros(5, 7) == 50_000_000;
    assert WithZeros(5, 14) == 500_000_000_000_000;
    assert WithZeros(5, 21) == 5_000_000_000_000_000_000_000;
  }

  // ---------- The rate curve ----------

  /** One kinked curve: slope1 up to the optimal utilization, then slope2 over the rest of the ray. */
  function Curve(optimal: int, slope1: int, slope2: int, utilization: int): int
    requires 0 < optimal <= RAY && (utilization > RAY ==> optimal < RAY)
  {
    if utilization > optimal then slope1 + RayMul(slope2, ExcessUtilization(optimal, utilization))
    else RayDiv(RayMul(slope1, utilization), optimal)
  }

  function ExcessUtilization(optimal: int, utilization: int): (r: int)
    requires 0 < optimal < utilization && optimal < RAY
    ensures utilization <= RAY ==> 0 <= r <= RAY
  {
    ExcessInRange(optimal, utilization);
    RayDiv(utilization - optimal, RAY - optimal)
  }

  lemma ExcessInRange(optimal: int, utilization: int)
    requires 0 < optimal < utilization && optimal < RAY
    ensures utilization <= RAY ==> 0 <= RayDiv(utilization - optimal, RAY - optimal) <= RAY
  {
    if utilization <= RAY { RayDivShare(utilization - optimal, RAY - optimal); }
  }

  function VariableRate(s: Strategy, utilization: int): int
    requires ValidStrategy(s) && (utilization > RAY ==> s.optimalUtilizationRate < RAY)
  {
    s.baseVariableBorrowRate + Curve(s.optimalUtilizationRate, s.variableRateSlope1, s.variableRateSlope2, utilization)
  }

  function StableToTotalDebtRatio(totalStableDebt: int, totalVariableDebt: int): (r: int)
    requires totalStableDebt > 0 ==> totalStableDebt + totalVariableDebt != 0
    ensures totalVariableDebt >= 0 ==> 0 <= r <= RAY
  {
    if totalStableDebt > 0 then
      StablePartInRange(totalStableDebt, totalVariableDebt);
      RayDiv(totalStableDebt, totalStableDebt + totalVariableDebt)
    else 0
  }

  lemma StablePartInRange(totalStableDebt: int, totalVariableDebt: int)
    requires totalStableDebt > 0 && totalStableDebt + totalVariableDebt != 0
    ensures totalVariableDebt >= 0 ==> 0 <= RayDiv(totalStableDebt, totalStableDebt + totalVariableDebt) <= RAY
  {
    if totalVariableDebt >= 0 { RayDivShare(totalStableDebt, totalStableDebt + totalVariableDebt); }
  }

  function StableRate(s: Strategy, marketStableRate: int, utilization: int, stableRatio: int): int
    requires ValidStrategy(s) && (utilization > RAY ==> s.optimalUtilizationRate < RAY)
    requires stableRatio > RAY ==> s.optimalStableToTotalDebtRatio < RAY
  {
    marketStableRate
    + Curve(s.optimalUtilizationRate, s.stableRateSlope1, s.stableRateSlope2, utilization)
    + StableOffset(s, stableRatio)
  }

  /** The surcharge on the stable rate once stable debt exceeds its optimal part of all debt. */
  function StableOffset(s: Strategy, stableRatio: int): int
    requires ValidStrategy(s) && (stableRatio > RAY ==> s.optimalStableToTotalDebtRatio < RAY)
  {
    if stableRatio > s.optimalStableToTotalDebtRatio then
      RayMul(s.stableRateExcessOffset,
             RayDiv(stableRatio - s.optimalStableToTotalDebtRatio, RAY - s.optimalStableToTotalDebtRatio))
    else 0
  }

  function OverallBorrowRate(totalStableDebt: int, totalVariableDebt: int, variableRate: int,
                             averageStableRate: int): int
  {
    var totalBorrows := totalStableDebt + totalVariableDebt;
    if totalBorrows == 0 then 0
    else RayDiv(RayMul(WadToRay(totalVariableDebt), variableRate)
                + RayMul(WadToRay(totalStableDebt), averageStableRate),
                WadToRay(totalBorrows))
  }

  function LiquidityRate(s: Strategy, overallRate: int, supplyUtilization: int): int {
    PercentMul(RayMul(overallRate, supplyUtilization), PERCENTAGE_FACTOR - s.reserveFactor)
  }

  /** No divisor is zero: all the calculations ask of debts and liquidity, which they do not check. With no
      negative debt or liquidity that is always so. */
  predicate RatesDefined(s: Strategy, totalStableDebt: int, totalVariableDebt: int, availableLiquidity: int,
                         totalLiquidity: int)
    ensures totalStableDebt >= 0 && totalVariableDebt >= 0 && 0 <= availableLiquidity <= totalLiquidity ==>
              RatesDefined(s, totalStableDebt, totalVariableDebt, availableLiquidity, totalLiquidity)
  {
    var totalDebt := totalStableDebt + totalVariableDebt;
    && (totalDebt == 0 || (availableLiquidity + totalDebt != 0 && totalLiquidity + totalDebt != 0))
    && (totalStableDebt > 0 ==> totalDebt != 0)
    && (BorrowUtilization(totalDebt, availableLiquidity) > RAY ==> s.optimalUtilizationRate < RAY)
    && (StableToTotalDebtRatio(totalStableDebt, totalVariableDebt) > RAY ==> s.optimalStableToTotalDebtRatio < RAY)
  }

  function InterestRates(s: Strategy, marketStableRate: int, totalStableDebt: int, totalVariableDebt: int,
                         averageStableBorrowRate: int, availableLiquidity: int, totalLiquidity: int): Rates
    requires ValidStrategy(s)
    requires RatesDefined(s, totalStableDebt, totalVariableDebt, availableLiquidity, totalLiquidity)
  {
    var totalDebt := totalStableDebt + totalVariableDebt;
    var utilization := BorrowUtilization(totalDebt, availableLiquidity);
    var variableRate := VariableRate(s, utilization);
    Rates(LiquidityRate(s, OverallBorrowRate(totalStableDebt, totalVariableDebt, variableRate, averageStableBorrowRate),
                        SupplyUtilization(totalDebt, availableLiquidity, totalLiquidity)),
          StableRate(s, marketStableRate, utilization, StableToTotalDebtRatio(totalStableDebt, totalVariableDebt)),
          variableRate)
  }

  /** The source's form: the rates start at their bases and are reassigned branch by branch. */
  method CalcExpectedInterestRates(s: Strategy, marketStableRate: int, totalStableDebt: int, totalVariableDebt: int,
                                   averageStableBorrowRate: int, availableLiquidity: int, totalLiquidity: int)
    returns (rates: Rates)
    requires ValidStrategy(s)
    requires RatesDefined(s, totalStableDebt, totalVariableDebt, availableLiquidity, totalLiquidity)
    ensures rates == InterestRates(s, marketStableRate, totalStableDebt, totalVariableDebt,
                                   averageStableBorrowRate, availableLiquidity, totalLiquidity)
  {
    hide RayMul, RayDiv, PercentMul, JsGreater;
    var borrowUtilizationRate, supplyUtilizationRate :=
      CalcExpectedUtilizationRates(totalStableDebt, totalVariableDebt, availableLiquidity, totalLiquidity);
    var stableBorrowRate := marketStableRate;
    var variableBorrowRate := s.baseVariableBorrowRate;
    var optimalRate := s.optimalUtilizationRate;
    var excessRate := RAY - optimalRate;
    var stableToTotalDebtRatio := StableToTotalDebtRatio(totalStableDebt, totalVariableDebt);
    if borrowUtilizationRate > optimalRate {
      var excessUtilizationRateRatio := RayDiv(borrowUtilizationRate - optimalRate, excessRate);
      stableBorrowRate :=
        stableBorrowRate + s.stableRateSlope1 + RayMul(s.stableRateSlope2, excessUtilizationRateRatio);
      variableBorrowRate :=
        variableBorrowRate + s.variableRateSlope1 + RayMul(s.variableRateSlope2, excessUtilizationRateRatio);
    } else {
      stableBorrowRate := stableBorrowRate + RayDiv(RayMul(s.stableRateSlope1, borrowUtilizationRate), optimalRate);
      variableBorrowRate :=
        variableBorrowRate + RayDiv(RayMul(s.variableRateSlope1, borrowUtilizationRate), optimalRate);
    }
    if stableToTotalDebtRatio > s.optimalStableToTotalDebtRatio {
      var excessRatio :=
        RayDiv(stableToTotalDebtRatio - s.optimalStableToTotalDebtRatio, RAY - s.optimalStableToTotalDebtRatio);
      stableBorrowRate := stableBorrowRate + RayMul(s.stableRateExcessOffset, excessRatio);
    }
    var overallRate :=
      OverallBorrowRate(totalStableDebt, totalVariableDebt, variableBorrowRate, averageStableBorrowRate);
    var liquidityRate := PercentMul(RayMul(overallRate, supplyUtilizationRate), PERCENTAGE_FACTOR - s.reserveFactor);
    return Rates(liquidityRate, stableBorrowRate, variableBorrowRate);
  }
}
