/** How a bridge fee is shared: what the treasury and the suppliers gain, against the fee and its basis points. */
module BridgeShares {
  import opened WadRayMath
  import opened RateStrategy
  import opened ReserveModel
  import opened ReserveActions
  import opened Bridge
  import opened Solvency

  /** The treasury's gain, valued at the index the action leaves, is the fee times the protocol's basis points, and
      the supply's gain, through that index, the fee times the rest; each to within explicit rounding. */
  lemma FeeIsShared(s: Strategy, supply: int, amount: int, fee: int, bps: int, b: Reserve, t: int)
    requires ValidStrategy(s) && Sound(b) && t >= b.lastUpdateTimestamp && CanBack(supply, amount, fee, bps)
    ensures var u, after := Updated(b, t), AfterBackUnbacked(s, supply, amount, fee, bps, b, t);
            var total := RayMul(supply, u.liquidityIndex);
            var credit := after.accruedToTreasuryScaled - u.accruedToTreasuryScaled;
            && total > 0
            && Abs(20000 * (credit * after.liquidityIndex) - 2 * RAY * (fee * bps))
               <= 10000 * after.liquidityIndex + 10000 * RAY
            && Abs(20000 * (supply * (after.liquidityIndex - u.liquidityIndex))
                   - 2 * RAY * (fee * (PERCENTAGE_FACTOR - bps)))
               <= 10000 * (total + RayDiv(fee, total) + supply) + 10000 * RAY
  {
    hide Updated, AfterBackUnbacked, RayMul, RayDiv, PremiumToProtocol, CumulateToLiquidityIndex, Sound, ValidStrategy;
    FeeBecomesLiquidity(s, supply, amount, fee, bps, b, t);
    var u, after := Updated(b, t), AfterBackUnbacked(s, supply, amount, fee, bps, b, t);
    var toProtocol, total := PremiumToProtocol(fee, bps), RayMul(supply, u.liquidityIndex);
    ProtocolPart(fee, bps);
    ScaledValue(toProtocol, after.liquidityIndex);
    PremiumRaises(supply, u.liquidityIndex, after.liquidityIndex, fee - toProtocol, total);
    RayDivMonotone(fee - toProtocol, total, fee, total);
    PartsOfFee(fee, bps, toProtocol, RayDiv(toProtocol, after.liquidityIndex) * after.liquidityIndex,
               supply * (after.liquidityIndex - u.liquidityIndex), after.liquidityIndex,
               total + RayDiv(fee - toProtocol, total) + supply);
  }

  lemma ProtocolPart(fee: int, bps: int)
    requires fee >= 0 && bps >= 0
    ensures Abs(20000 * PremiumToProtocol(fee, bps) - 2 * (fee * bps)) <= 10000
  {
    MulLe(0, fee, bps);
    PercentMulNearest(fee, bps);
  }

  lemma PartsOfFee(fee: int, bps: int, toProtocol: int, credited: int, raised: int, index: int, rounding: int)
    requires Abs(20000 * toProtocol - 2 * (fee * bps)) <= 10000
    requires Abs(2 * credited - 2 * RAY * toProtocol) <= index
    requires Abs(2 * raised - 2 * RAY * (fee - toProtocol)) <= rounding
    ensures Abs(20000 * credited - 2 * RAY * (fee * bps)) <= 10000 * index + 10000 * RAY
    ensures Abs(20000 * raised - 2 * RAY * (fee * (PERCENTAGE_FACTOR - bps))) <= 10000 * rounding + 10000 * RAY
  {
    var product := fee * bps;
    assert fee * (PERCENTAGE_FACTOR - bps) == 10000 * fee - product;
    FeeLinear(fee, product, toProtocol, credited, raised, index, rounding);
  }

  lemma FeeLinear(fee: int, product: int, toProtocol: int, credited: int, raised: int, index: int, rounding: int)
    requires -10000 <= 20000 * toProtocol - 2 * product <= 10000
    requires -index <= 2 * credited - 2 * RAY * toProtocol <= index
    requires -rounding <= 2 * raised - 2 * RAY * (fee - toProtocol) <= rounding
    ensures Abs(20000 * credited - 2 * RAY * product) <= 10000 * index + 10000 * RAY
    ensures Abs(20000 * raised - 2 * RAY * (10000 * fee - product)) <= 10000 * rounding + 10000 * RAY
  {
  }
}
