/** What borrowers pay and what suppliers are promised: the overall rate, the liquidity rate, and the
    account between the two for every reserve. */
module RateFunding {
  import opened WadRayMath
  import opened DecimalOrder
  import opened RateStrategy
  import opened RateCurve

  /** The overall rate is the debt-weighted mean rate, to within half a unit plus one wad over the debt. */
  lemma OverallRateIsWeightedMean(stable: int, variable: int, variableRate: int, averageRate: int)
    requires stable >= 0 && variable >= 0 && stable + variable > 0
    requires variableRate >= 0 && averageRate >= 0
    ensures var overall := OverallBorrowRate(stable, variable, variableRate, averageRate);
            && overall >= 0
            && 2 * Abs(overall * (stable + variable) - (variable * variableRate + stable * averageRate))
               <= stable + variable + 2 * WAD
  {
    var debt := stable + variable;
    var v := RayMul(WadToRay(variable), variableRate);
    var s := RayMul(WadToRay(stable), averageRate);
    WeightedRate(variable, variableRate, v);
    WeightedRate(stable, averageRate, s);
    RayDivMonotone(v + s, WadToRay(debt), v + s, WadToRay(debt));
    RayDivNearest(v + s, WadToRay(debt));
    MeanBounds(RayDiv(v + s, WadToRay(debt)), debt, v, s, variable * variableRate, stable * averageRate);
  }

  lemma MeanBounds(overall: int, debt: int, v: int, s: int, paidV: int, paidS: int)
    requires Nearest(v, WAD_RAY_RATIO * paidV, RAY) && Nearest(s, WAD_RAY_RATIO * paidS, RAY)
    requires Nearest(overall, (v + s) * RAY, WadToRay(debt))
    ensures 2 * Abs(overall * debt - (paidV + paidS)) <= debt + 2 * WAD
  {
    assert WadToRay(debt) * overall == WAD_RAY_RATIO * (overall * debt);
  }

  lemma WeightedRate(amount: int, rate: int, weighted: int)
    requires amount >= 0 && rate >= 0 && weighted == RayMul(WadToRay(amount), rate)
    ensures weighted >= 0
    ensures Nearest(weighted, WAD_RAY_RATIO * (amount * rate), RAY)
  {
    MulLe(0, amount, rate);
    assert WadToRay(amount) * rate == WAD_RAY_RATIO * (amount * rate);
    RayMulNearest(WadToRay(amount), rate);
    RayMulMonotone(WadToRay(amount), rate, WadToRay(amount), rate);
  }

  // ---------- The account between suppliers and borrowers ----------

  lemma ScaledGap(x: int, y: int, bound: int, k: int)
    requires Abs(x - y) <= bound && k >= 0
    ensures Abs(k * x - k * y) <= k * bound
  {
    MulLe(x - y, bound, k);
    MulLe(-bound, x - y, k);
    assert k * (x - y) == k * x - k * y;
  }

  /** Over all claims the liquidity rate collects p parts in 10000 of the overall rate on the utilized
      claims, to within the two roundings on the way. */
  lemma PromiseOverClaims(s: Strategy, overall: int, utilization: int, claims: int)
    requires ValidStrategy(s) && overall >= 0 && utilization >= 0 && claims >= 0
    ensures var p, l := PERCENTAGE_FACTOR - s.reserveFactor, LiquidityRate(s, overall, utilization);
            && l >= 0
            && Abs(20000 * RAY * (l * claims) - 2 * (p * (overall * (utilization * claims))))
               <= p * (RAY * claims) + 10000 * RAY * claims
  {
    hide RayMul, PercentMul;
    var p, l := PERCENTAGE_FACTOR - s.reserveFactor, LiquidityRate(s, overall, utilization);
    var m := RayMul(overall, utilization);
    RayMulMonotone(overall, utilization, overall, utilization);
    MulLe(0, overall, utilization);
    RayMulNearest(overall, utilization);
    MulLe(0, m, p);
    PercentMulNearest(m, p);
    LiquidityRateNonNegative(s, overall, utilization);
    PromiseGaps(l, m, p, m * p, overall * utilization, claims);
    assert overall * utilization * claims == overall * (utilization * claims);
  }

  lemma PromiseGaps(l: int, m: int, p: int, mp: int, rate: int, claims: int)
    requires p >= 0 && claims >= 0 && mp == m * p
    requires Abs(20000 * l - 2 * mp) <= 10000
    requires Abs(2 * RAY * m - 2 * rate) <= RAY
    ensures Abs(20000 * RAY * (l * claims) - 2 * (p * (rate * claims))) <= p * (RAY * claims) + 10000 * RAY * claims
  {
    GapOverClaims(20000, l, mp, 10000, claims);
    GapOverClaims(2 * RAY, m, rate, RAY, claims);
    PartOfGap(p, m * claims, rate * claims, RAY * claims);
    Reassociate(m, p, claims);
    ChainGaps(l * claims, mp * claims, p * (rate * claims), p * (RAY * claims), claims);
  }

  lemma Reassociate(m: int, p: int, claims: int)
    ensures (m * p) * claims == p * (m * claims)
  {
  }

  lemma GapOverClaims(a: int, x: int, y: int, bound: int, claims: int)
    requires a == 20000 || a == 2 * RAY
    requires Abs(a * x - 2 * y) <= bound && claims >= 0
    ensures Abs(a * (x * claims) - 2 * (y * claims)) <= bound * claims
  {
    ScaledGap(a * x, 2 * y, bound, claims);
    Rearranged(claims, a, x, 2, y);
  }

  lemma PartOfGap(p: int, x: int, y: int, bound: int)
    requires p >= 0 && Abs(2 * RAY * x - 2 * y) <= bound
    ensures Abs(2 * RAY * (p * x) - 2 * (p * y)) <= p * bound
  {
    ScaledGap(2 * RAY * x, 2 * y, bound, p);
    Rearranged(p, 2 * RAY, x, 2, y);
  }

  lemma Rearranged(k: int, a: int, x: int, b: int, y: int)
    ensures k * (a * x) == a * (x * k) == a * (k * x)
    ensures k * (b * y) == b * (y * k) == b * (k * y)
  {
  }

  lemma ChainGaps(x: int, y: int, z: int, bound: int, claims: int)
    requires Abs(20000 * x - 2 * y) <= claims * 10000
    requires Abs(2 * RAY * y - 2 * z) <= bound
    ensures Abs(20000 * RAY * x - 2 * z) <= bound + 10000 * RAY * claims
  {
  }

  /** What the overall rate collects on the claims the utilization reports, beyond what it collects on the
      debt: nothing, if the utilization is the debt's share of the claims. In rays. */
  function Excess(overall: int, utilization: int, claims: int, debt: int): int {
    overall * (utilization * claims - RAY * debt)
  }

  function RoundingTerm(p: int, claims: int, debt: int): int {
    p * (RAY * (claims + debt + 2 * WAD)) + 10000 * RAY * claims
  }

  /** The account, for every reserve and whatever the string comparison reports: what suppliers are promised
      over all claims is their part p of what variable and stable borrowers owe and of the excess, to within
      an explicit rounding term. */
  lemma SuppliersAccount(s: Strategy, market: int, stable: int, variable: int, averageRate: int, available: int,
                         total: int)
    requires ValidStrategy(s) && stable >= 0 && variable >= 0 && averageRate >= 0 && 0 <= available <= total
    ensures var r := InterestRates(s, market, stable, variable, averageRate, available, total);
            var p, debt := PERCENTAGE_FACTOR - s.reserveFactor, stable + variable;
            var claims := total + debt;
            var owed := variable * r.variableBorrowRate + stable * averageRate;
            var overall := OverallBorrowRate(stable, variable, r.variableBorrowRate, averageRate);
            var excess := Excess(overall, SupplyUtilization(debt, available, total), claims, debt);
            && overall >= 0
            && Abs(20000 * RAY * (r.liquidityRate * claims) - 2 * (p * (RAY * owed + excess)))
               <= RoundingTerm(p, claims, debt)
  {
    hide OverallBorrowRate, LiquidityRate, VariableRate, BorrowUtilization, SupplyUtilization,
         UncappedSupplyUtilization, StableRate, Curve, Excess, RoundingTerm, RayMul, RayDiv;
    var debt := stable + variable;
    var utilization := SupplyUtilization(debt, available, total);
    var rate := VariableRate(s, BorrowUtilization(debt, available));
    RateRanges(s, market, BorrowUtilization(debt, available), 0);
    var overall := OverallBorrowRate(stable, variable, rate, averageRate);
    if debt > 0 { OverallRateIsWeightedMean(stable, variable, rate, averageRate); }
    NothingOwed(stable, variable, rate, averageRate);
    PromiseOverClaims(s, overall, utilization, total + debt);
    AccountAdds(PERCENTAGE_FACTOR - s.reserveFactor, overall, utilization, total + debt, debt,
                variable * rate + stable * averageRate, LiquidityRate(s, overall, utilization) * (total + debt));
  }

  lemma NothingOwed(stable: int, variable: int, variableRate: int, averageRate: int)
    ensures stable == 0 && variable == 0 ==>
              OverallBorrowRate(stable, variable, variableRate, averageRate) == 0
                == variable * variableRate + stable * averageRate
  {
  }

  lemma AccountAdds(p: int, overall: int, utilization: int, claims: int, debt: int, owed: int, promised: int)
    requires p >= 0 && Abs(2 * (overall * debt) - 2 * owed) <= debt + 2 * WAD
    requires Abs(20000 * RAY * promised - 2 * (p * (overall * (utilization * claims))))
             <= p * (RAY * claims) + 10000 * RAY * claims
    ensures Abs(20000 * RAY * promised - 2 * (p * (RAY * owed + Excess(overall, utilization, claims, debt))))
            <= RoundingTerm(p, claims, debt)
  {
    var collected, onDebt := overall * (utilization * claims), overall * debt;
    ExcessSplits(overall, utilization, claims, debt);
    SharesOfAccount(p, collected, onDebt, owed, Excess(overall, utilization, claims, debt), debt + 2 * WAD);
    assert p * (RAY * (claims + debt + 2 * WAD)) == p * (RAY * claims) + p * (RAY * (debt + 2 * WAD));
  }

  lemma ExcessSplits(overall: int, utilization: int, claims: int, debt: int)
    ensures Excess(overall, utilization, claims, debt) == overall * (utilization * claims) - RAY * (overall * debt)
  {
    var collected := utilization * claims;
    assert overall * (collected - RAY * debt) == overall * collected - RAY * (overall * debt);
  }

  lemma SharesOfAccount(p: int, collected: int, onDebt: int, owed: int, excess: int, bound: int)
    requires p >= 0 && excess == collected - RAY * onDebt && Abs(2 * onDebt - 2 * owed) <= bound
    ensures Abs(2 * (p * collected) - 2 * (p * (RAY * owed + excess))) <= p * (RAY * bound)
  {
    ScaledGap(2 * collected, 2 * (RAY * owed + excess), RAY * bound, p);
    Rearranged(p, 2, collected, 2, RAY * owed + excess);
  }

  /** A share nearest to the debt's leaves no excess but its own rounding, one that is larger leaves at least
      that, and the cap leaves what the overall rate collects on every unbacked token, to within rounding. */
  lemma ExcessOfShare(overall: int, debt: int, available: int, total: int)
    requires overall >= 0 && debt > 0 && 0 <= available <= total
    ensures var claims, share := total + debt, UncappedSupplyUtilization(debt, total);
            var u := SupplyUtilization(debt, available, total);
            && Abs(2 * Excess(overall, share, claims, debt)) <= overall * claims
            && (u != share ==>
                  && u == BorrowUtilization(debt, available) > share
                  && 2 * Excess(overall, u, claims, debt) >= overall * claims
                  && Abs(2 * Excess(overall, u, claims, debt) - 2 * (overall * (u * (total - available))))
                     <= overall * (available + debt))
  {
    hide RayDiv, JsGreater, Excess;
    var claims, share, cap := total + debt, UncappedSupplyUtilization(debt, total), BorrowUtilization(debt, available);
    RayDivNearest(debt, claims);
    RayDivNearest(debt, available + debt);
    UtilizationAntitone(debt, available, total);
    NearestExcess(overall, share, claims, debt);
    if cap > share { LargerExcess(overall, share, cap, available + debt, total - available, debt); }
  }

  lemma NearestExcess(overall: int, share: int, claims: int, debt: int)
    requires overall >= 0 && Nearest(share, debt * RAY, claims)
    ensures Abs(2 * Excess(overall, share, claims, debt)) <= overall * claims
  {
    ScaledGap(2 * (share * claims), 2 * (RAY * debt), claims, overall);
    Rearranged(overall, 2, share * claims, 2, RAY * debt);
    ExcessSplits(overall, share, claims, debt);
    assert overall * (RAY * debt) == RAY * (overall * debt);
  }

  lemma LargerExcess(overall: int, share: int, cap: int, part: int, unbacked: int, debt: int)
    requires overall >= 0 && unbacked >= 0 && part > 0 && cap > share
    requires Nearest(share, debt * RAY, part + unbacked) && Nearest(cap, debt * RAY, part)
    ensures var claims := part + unbacked;
            && 2 * Excess(overall, cap, claims, debt) >= overall * claims
            && Abs(2 * Excess(overall, cap, claims, debt) - 2 * (overall * (cap * unbacked))) <= overall * part
  {
    var claims := part + unbacked;
    MulLe(share + 1, cap, claims);
    assert (share + 1) * claims == claims * share + claims;
    MulLe(claims, 2 * (cap * claims - RAY * debt), overall);
    Rearranged(overall, 2, cap * claims - RAY * debt, 2, cap * claims - RAY * debt);
    NearestExcess(overall, cap, part, debt);
    ExcessSplits(overall, cap, claims, debt);
    ExcessSplits(overall, cap, part, debt);
    assert cap * claims == cap * part + cap * unbacked;
    assert overall * (cap * part + cap * unbacked) == overall * (cap * part) + overall * (cap * unbacked);
  }

  /** In terms of the overall rate: with a utilization no larger than the debt's share, the supplier's rate on
      all claims is at most the lent part p of what that rate collects on the debt, up to rounding. */
  lemma InterestIsFunded(s: Strategy, overall: int, debt: int, claims: int, utilization: int)
    requires ValidStrategy(s) && overall >= 0 && 0 <= debt <= claims && claims > 0
    requires 0 <= utilization <= RayDiv(debt, claims)
    ensures var p := PERCENTAGE_FACTOR - s.reserveFactor;
            var l := LiquidityRate(s, overall, utilization);
            && l >= 0
            && 20000 * RAY * (l * claims)
               <= p * (2 * RAY * (overall * debt) + overall * claims + RAY * claims) + 10000 * RAY * claims
  {
    hide LiquidityRate, Excess;
    RayDivNearest(debt, claims);
    PromiseOverClaims(s, overall, utilization, claims);
    CollectedOnDebt(overall, RayDiv(debt, claims), utilization, claims, debt);
    PartOfCollected(PERCENTAGE_FACTOR
                    - s.reserveFactor, overall * (utilization * claims), overall * debt, overall * claims,
                    RAY * claims);
  }

  lemma CollectedOnDebt(overall: int, share: int, utilization: int, claims: int, debt: int)
    requires overall >= 0 && claims > 0 && utilization <= share && Nearest(share, debt * RAY, claims)
    ensures 2 * (overall * (utilization * claims)) <= 2 * RAY * (overall * debt) + overall * claims
  {
    hide Excess, Nearest;
    NearestExcess(overall, share, claims, debt);
    ExcessSplits(overall, share, claims, debt);
    MulLe(utilization, share, claims);
    MulLe(utilization * claims, share * claims, overall);
  }

  lemma PartOfCollected(p: int, collected: int, onDebt: int, rounding1: int, rounding2: int)
    requires p >= 0 && 2 * collected <= 2 * RAY * onDebt + rounding1
    ensures 2 * (p * collected) + p * rounding2 <= p * (2 * RAY * onDebt + rounding1 + rounding2)
  {
    MulLe(2 * collected + rounding2, 2 * RAY * onDebt + rounding1 + rounding2, p);
    assert p * (2 * collected + rounding2) == 2 * (p * collected) + p * rounding2;
  }

  /** Suppliers are promised no more than their part of what borrowers owe, and the roundings. */
  ghost predicate Funded(promised: int, owed: int, overall: int, p: int, claims: int, debt: int) {
    20000 * RAY * promised <= 2 * (p * (RAY * owed)) + p * (overall * claims) + RoundingTerm(p, claims, debt)
  }

  /** A reserve is funded whenever the utilization is the debt's share, and suppliers then get no less than
      that either; where the string comparison fires they are overpaid by the excess: strictly if it is over
      the rounding term, and out of reach of every rounding if it is over twice that. */
  lemma SuppliersArePaidByBorrowers(s: Strategy, market: int, stable: int, variable: int, averageRate: int,
                                    available: int, total: int)
    requires ValidStrategy(s) && stable >= 0 && variable >= 0 && averageRate >= 0 && 0 <= available <= total
    requires stable + variable > 0
    ensures var r := InterestRates(s, market, stable, variable, averageRate, available, total);
            var p, debt := PERCENTAGE_FACTOR - s.reserveFactor, stable + variable;
            var claims, u := total + debt, SupplyUtilization(debt, available, total);
            var share := UncappedSupplyUtilization(debt, total);
            var owed := variable * r.variableBorrowRate + stable * averageRate;
            var overall := OverallBorrowRate(stable, variable, r.variableBorrowRate, averageRate);
            var promised, excess := r.liquidityRate * claims, Excess(overall, u, claims, debt);
            && (u == share ==>
                  && Funded(promised, owed, overall, p, claims, debt)
                  && 20000 * RAY * promised
                     >= 2 * (p * (RAY * owed)) - p * (overall * claims) - RoundingTerm(p, claims, debt))
            && (u != share ==> 2 * excess >= overall * claims)
            && (u != share && 2 * (p * excess) > RoundingTerm(p, claims, debt) ==>
                  20000 * RAY * promised > 2 * (p * (RAY * owed)))
            && (2 * (p * excess) > p * (overall * claims) + 2 * RoundingTerm(p, claims, debt) ==>
                  u != share && !Funded(promised, owed, overall, p, claims, debt))
  {
    hide OverallBorrowRate, LiquidityRate, VariableRate, BorrowUtilization, UncappedSupplyUtilization,
         SupplyUtilization, Excess, RoundingTerm, InterestRates;
    var r := InterestRates(s, market, stable, variable, averageRate, available, total);
    var p, debt := PERCENTAGE_FACTOR - s.reserveFactor, stable + variable;
    var claims, u := total + debt, SupplyUtilization(debt, available, total);
    var owed := variable * r.variableBorrowRate + stable * averageRate;
    var overall := OverallBorrowRate(stable, variable, r.variableBorrowRate, averageRate);
    SuppliersAccount(s, market, stable, variable, averageRate, available, total);
    ExcessOfShare(overall, debt, available, total);
    RoundingTermNonNegative(p, claims, debt);
    FundedBy(r.liquidityRate * claims, owed, overall, p, claims, debt, Excess(overall, u, claims, debt));
  }

  lemma FundedBy(promised: int, owed: int, overall: int, p: int, claims: int, debt: int, excess: int)
    requires p >= 0
    requires Abs(20000 * RAY * promised - 2 * (p * (RAY * owed + excess))) <= RoundingTerm(p, claims, debt)
    ensures 2 * (p * excess) > RoundingTerm(p, claims, debt) ==> 20000 * RAY * promised > 2 * (p * (RAY * owed))
    ensures 2 * (p * excess) > p * (overall * claims) + 2 * RoundingTerm(p, claims, debt) ==>
              !Funded(promised, owed, overall, p, claims, debt)
    ensures Abs(2 * excess) <= overall * claims ==>
              && 2 * (p * excess) <= p * (overall * claims)
              && Funded(promised, owed, overall, p, claims, debt)
              && 20000 * RAY * promised
                 >= 2 * (p * (RAY * owed)) - p * (overall * claims) - RoundingTerm(p, claims, debt)
  {
    hide RoundingTerm;
    assert p * (RAY * owed + excess) == p * (RAY * owed) + p * excess;
    if Abs(2 * excess) <= overall * claims {
      ScaledGap(2 * excess, 0, overall * claims, p);
      Rearranged(p, 2, excess, 2, excess);
    }
  }

  lemma RoundingTermNonNegative(p: int, claims: int, debt: int)
    requires p >= 0 && claims >= 0 && debt >= 0
    ensures RoundingTerm(p, claims, debt) >= 0
  {
    MulLe(0, RAY * (claims + debt + 2 * WAD), p);
  }

  /** When the string comparison misfires they are not: the whole liquidity is lent at 1%, as much again
      is unbacked, there is no reserve factor, and suppliers of both halves are promised the full 1%. */
  lemma MisfireOverpaysSuppliers()
    ensures var s := Strategy(HALF_RAY, RAY / 100, 0, 0, 0, 0, 0, 0, 0);
            var r := InterestRates(s, 0, 0, WAD, 0, 0, WAD);
            && r.variableBorrowRate == RAY / 100 && r.liquidityRate == RAY / 100
            && r.liquidityRate * (WAD + WAD) == 2 * (WAD * r.variableBorrowRate)
  {
    CapMisfires();
    hide SupplyUtilization, JsGreater;
    var s := Strategy(HALF_RAY, RAY / 100, 0, 0, 0, 0, 0, 0, 0);
    assert VariableRate(s, RAY) == RAY / 100 by { assert RayMul(0, ExcessUtilization(HALF_RAY, RAY)) == 0; }
    assert OverallBorrowRate(0, WAD, RAY / 100, 0) == RAY / 100;
    assert LiquidityRate(s, RAY / 100, RAY) == RAY / 100;
  }

  /** Non-negative inputs give non-negative rates, and no rate to suppliers while nothing is lent. */
  lemma RatesNonNegative(s: Strategy, market: int, stable: int, variable: int, averageRate: int, available: int,
                         total: int)
    requires ValidStrategy(s) && market >= 0 && stable >= 0 && variable >= 0 && averageRate >= 0
    requires 0 <= available <= total
    ensures var r := InterestRates(s, market, stable, variable, averageRate, available, total);
            && r.liquidityRate >= 0 && r.stableBorrowRate >= market && r.variableBorrowRate >= 0
            && (SupplyUtilization(stable + variable, available, total) == 0 ==> r.liquidityRate == 0)
  {
    var debt := stable + variable;
    var u := BorrowUtilization(debt, available);
    RateRanges(s, market, u, StableToTotalDebtRatio(stable, variable));
    var rate := VariableRate(s, u);
    if debt > 0 { OverallRateIsWeightedMean(stable, variable, rate, averageRate); }
    LiquidityRateNonNegative(s, OverallBorrowRate(stable, variable, rate, averageRate),
                             SupplyUtilization(debt, available, total));
  }

  lemma LiquidityRateNonNegative(s: Strategy, overall: int, utilization: int)
    requires ValidStrategy(s) && overall >= 0 && utilization >= 0
    ensures LiquidityRate(s, overall, utilization) >= 0
    ensures utilization == 0 ==> LiquidityRate(s, overall, utilization) == 0
  {
    var p := PERCENTAGE_FACTOR - s.reserveFactor;
    var m := RayMul(overall, utilization);
    RayMulMonotone(overall, utilization, overall, utilization);
    MulLe(0, m, p);
    PercentMulNearest(m, p);
  }
}
