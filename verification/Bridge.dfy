/** Backing bridged tokens: where the fee goes. */
module Bridge {
  import opened WadRayMath
  import opened RateStrategy
  import opened ReserveModel
  import opened ReserveActions

  /** The whole fee and nothing else becomes new liquidity, whatever part of the amount actually backs;
      the treasury gains its premium at the new index and the rest of the fee goes through that index. */
  lemma FeeBecomesLiquidity(s: Strategy, supply: int, amount: int, fee: int, protocolFee: int, b: Reserve, t: int)
    requires ValidStrategy(s) && Sound(b) && t >= b.lastUpdateTimestamp && CanBack(supply, amount, fee, protocolFee)
    ensures var u := Updated(b, t);
            u.liquidityIndex >= RAY && RayMul(supply, u.liquidityIndex) > 0
    ensures var after := AfterBackUnbacked(s, supply, amount, fee, protocolFee, b, t);
            && after.totalLiquidity == b.totalLiquidity + fee
            && 0 <= after.unbacked <= b.unbacked
            && after.unbacked == (if amount >= b.unbacked then 0 else b.unbacked - amount)
            && after.availableLiquidity - b.availableLiquidity == (b.unbacked - after.unbacked) + fee
    ensures var after := AfterBackUnbacked(s, supply, amount, fee, protocolFee, b, t);
            var u, toProtocol := Updated(b, t), PremiumToProtocol(fee, protocolFee);
            && 0 <= toProtocol <= fee
            && after.liquidityIndex ==
                 CumulateToLiquidityIndex(u.liquidityIndex, RayMul(supply, u.liquidityIndex), fee - toProtocol)
                   >= u.liquidityIndex
            && after.accruedToTreasuryScaled == u.accruedToTreasuryScaled + RayDiv(toProtocol, after.liquidityIndex)
  {
    hide RayMul, RayDiv, PremiumToProtocol, CumulateToLiquidityIndex, InterestRates, BorrowUtilization,
         SupplyUtilization, BroughtUpTo, AverageStableRate, Ready;
    UpdatedReady(b, t);
    UpdatedIndexAtLeastRay(b, t);
    PremiumWithinFee(fee, protocolFee);
    BackedIndexGrows(Updated(b, t).liquidityIndex, supply, fee, protocolFee);
  }

  lemma UpdatedIndexAtLeastRay(b: Reserve, t: int)
    requires Sound(b) && t >= b.lastUpdateTimestamp
    ensures Updated(b, t).liquidityIndex >= RAY
  {
    hide Div;
    UpdatedReady(b, t);
  }

  /** Revalued at the new index, the suppliers' total grows by their premium p to within
      1 + p/(2·TS) + (TS + supply + 1)/(2·RAY); here cleared of denominators. */
  lemma SuppliersReceivePremium(supply: int, index: int, premium: int)
    requires supply > 0 && index >= RAY && premium >= 0
    ensures var total := RayMul(supply, index);
            && total > 0
            && var gap := Abs(RayMul(supply, CumulateToLiquidityIndex(index, total, premium)) - (total + premium));
               2 * RAY * (total * gap) <= total * (2 * RAY + total + supply + 1) + RAY * premium
  {
    var total := RayMul(supply, index);
    RayMulByIndex(supply, index);
    var ratio := RayDiv(premium, total);
    var next := RayMul(ratio + RAY, index);
    RayDivScaleInvariant(WAD_RAY_RATIO, premium, total);
    PremiumRoundings(supply, index, premium, total, ratio, next);
    PremiumGap(supply, index, premium, total, ratio, next, RayMul(supply, next));
  }

  /** Both together: what backing a debt pays the holders of the aToken supply. */
  lemma BackingPaysSuppliers(s: Strategy, supply: int, amount: int, fee: int, protocolFee: int, b: Reserve, t: int)
    requires ValidStrategy(s) && Sound(b) && t >= b.lastUpdateTimestamp && CanBack(supply, amount, fee, protocolFee)
    ensures var after := AfterBackUnbacked(s, supply, amount, fee, protocolFee, b, t);
            var total := RayMul(supply, Updated(b, t).liquidityIndex);
            var premium := fee - PremiumToProtocol(fee, protocolFee);
            && total > 0
            && var gap := Abs(RayMul(supply, after.liquidityIndex) - (total + premium));
               2 * RAY * (total * gap) <= total * (2 * RAY + total + supply + 1) + RAY * premium
  {
    hide RayMul, PremiumToProtocol, CumulateToLiquidityIndex, AfterBackUnbacked, Updated;
    FeeBecomesLiquidity(s, supply, amount, fee, protocolFee, b, t);
    SuppliersReceivePremium(supply, Updated(b, t).liquidityIndex, fee - PremiumToProtocol(fee, protocolFee));
  }

  lemma PremiumRoundings(supply: int, index: int, premium: int, total: int, ratio: int, next: int)
    requires supply > 0 && index >= RAY && premium >= 0 && total > 0
    requires total == RayMul(supply, index) && ratio == RayDiv(premium, total) && next == RayMul(ratio + RAY, index)
    ensures ratio >= 0
    ensures Nearest(total, supply * index, RAY) && Nearest(ratio, premium * RAY, total)
    ensures Nearest(next, (ratio + RAY) * index, RAY) && Nearest(RayMul(supply, next), supply * next, RAY)
  {
    hide RayMul, RayDiv, Nearest;
    RayDivNearest(premium, total);
    RayDivMonotone(premium, total, premium, total);
    MulLe(0, supply, index);
    RayMulNearest(supply, index);
    MulLe(0, ratio + RAY, index);
    RayMulNearest(ratio + RAY, index);
    RayMulByIndex(ratio + RAY, index);
    MulLe(0, supply, next);
    RayMulNearest(supply, next);
  }

  lemma PremiumGap(supply: int, index: int, premium: int, total: int, ratio: int, next: int, value: int)
    requires supply > 0 && total > 0 && ratio >= 0 && premium >= 0
    requires Nearest(total, supply * index, RAY)
    requires Nearest(ratio, premium * RAY, total)
    requires Nearest(next, (ratio + RAY) * index, RAY)
    requires Nearest(value, supply * next, RAY)
    ensures 2 * RAY * (total * Abs(value - (total + premium))) <= total * (2 * RAY + total + supply + 1) + RAY * premium
  {
    var grown := ratio + RAY;
    var c, d, e := supply * next, supply * (grown * index), ratio * total;
    ScaleError(supply, 2 * (next * RAY), 2 * (grown * index), RAY);
    Doubled(supply, next, grown * index);
    ScaleError(grown, 2 * (total * RAY), 2 * (supply * index), RAY);
    Regroup(grown, ratio, total, supply, index);
    GapLinear(value, total, premium, supply, ratio, c, d, e);
    WithTotal(Abs(value - (total + premium)), total, premium, supply, ratio);
  }

  lemma Doubled(k: int, x: int, y: int)
    ensures k * (2 * (x * RAY)) == 2 * RAY * (k * x) && k * (2 * y) == 2 * (k * y)
  {
  }

  lemma Regroup(grown: int, ratio: int, total: int, supply: int, index: int)
    requires grown == ratio + RAY
    ensures grown * (2 * (total * RAY)) == 2 * RAY * (ratio * total + RAY * total)
    ensures grown * (2 * (supply * index)) == 2 * (supply * (grown * index))
  {
    assert grown * total == ratio * total + RAY * total;
    assert grown * (2 * (total * RAY)) == 2 * RAY * (grown * total);
  }

  lemma GapLinear(value: int, total: int, premium: int, supply: int, ratio: int, c: int, d: int, e: int)
    requires Abs(2 * RAY * value - 2 * c) <= RAY
    requires Abs(2 * RAY * c - 2 * d) <= supply * RAY
    requires Abs(2 * RAY * (e + RAY * total) - 2 * d) <= (ratio + RAY) * RAY
    requires Abs(2 * e - 2 * RAY * premium) <= total
    ensures 2 * RAY * Abs(value - (total + premium)) <= 2 * RAY + supply + total + ratio
  {
  }

  lemma WithTotal(gap: int, total: int, premium: int, supply: int, ratio: int)
    requires total > 0 && 2 * RAY * gap <= 2 * RAY + supply + total + ratio
    requires 2 * (ratio * total) <= 2 * RAY * premium + total && ratio >= 0
    ensures 2 * RAY * (total * gap) <= total * (2 * RAY + total + supply + 1) + RAY * premium
  {
    MulLe(2 * RAY * gap, 2 * RAY + supply + total + ratio, total);
    assert total * (2 * RAY * gap) == 2 * RAY * (total * gap);
    assert total * (2 * RAY + supply + total + ratio) == total * (2 * RAY + total + supply) + ratio * total;
    assert total * (2 * RAY + total + supply + 1) == total * (2 * RAY + total + supply) + total;
  }

  lemma ScaleError(k: int, x: int, y: int, e: int)
    requires k >= 0 && Abs(x - y) <= e
    ensures Abs(k * x - k * y) <= k * e
  {
    MulLe(x - y, e, k);
    MulLe(-e, x - y, k);
    assert k * (x - y) == k * x - k * y;
  }
}
