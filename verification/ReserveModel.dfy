/** The reserve and user records as values, the balances, averages and indexes computed from them, and the
    updates that every action shares. */
module ReserveModel {
  import opened WadRayMath
  import opened Interest
  import opened RateStrategy

  /** Stands for "everything" in withdrawals and repayments. */
  const MAX_UINT_AMOUNT := 115792089237316195423570985008687907853269984665640564039457584007913129639935

  datatype RateMode = Stable | Variable

  datatype Reserve = Reserve(
    reserveFactor: int,
    availableLiquidity: int,
    totalLiquidity: int,
    totalStableDebt: int,
    totalVariableDebt: int,
    principalStableDebt: int,
    scaledVariableDebt: int,
    averageStableBorrowRate: int,
    variableBorrowRate: int,
    stableBorrowRate: int,
    supplyUtilizationRate: int,
    borrowUtilizationRate: int,
    liquidityIndex: int,
    variableBorrowIndex: int,
    marketStableRate: int,
    lastUpdateTimestamp: int,
    totalStableDebtLastUpdated: int,
    liquidityRate: int,
    unbacked: int,
    accruedToTreasuryScaled: int
  )

  /** What every action preserves. */
  ghost predicate Sound(r: Reserve) {
    && RAY <= r.liquidityIndex && RAY <= r.variableBorrowIndex
    && 0 <= r.availableLiquidity && 0 <= r.unbacked && r.totalLiquidity == r.availableLiquidity + r.unbacked
    && 0 <= r.principalStableDebt <= r.totalStableDebt
    && 0 <= r.scaledVariableDebt <= r.totalVariableDebt && (r.scaledVariableDebt == 0 ==> r.totalVariableDebt == 0)
    && 0 <= r.averageStableBorrowRate && 0 <= r.variableBorrowRate && 0 <= r.stableBorrowRate
    && 0 <= r.marketStableRate && 0 <= r.liquidityRate
    && 0 <= r.supplyUtilizationRate <= r.borrowUtilizationRate <= RAY
    && (r.supplyUtilizationRate == 0 ==> r.liquidityRate == 0)
    && r.totalStableDebtLastUpdated <= r.lastUpdateTimestamp
    && 0 <= r.reserveFactor <= PERCENTAGE_FACTOR
    && 0 <= r.accruedToTreasuryScaled
  }

  datatype User = User(
    scaledATokenBalance: int,
    currentATokenBalance: int,
    currentStableDebt: int,
    currentVariableDebt: int,
    principalStableDebt: int,
    scaledVariableDebt: int,
    liquidityRate: int,
    stableBorrowRate: int,
    stableRateLastUpdated: int,
    usageAsCollateralEnabled: bool,
    walletBalance: int
  )

  // ---------- Balances and indexes ----------

  function NormalizedIncome(r: Reserve, t: int): int {
    if r.liquidityRate == 0 then r.liquidityIndex
    else RayMul(CalcLinearInterest(r.liquidityRate, t, r.lastUpdateTimestamp), r.liquidityIndex)
  }

  function NormalizedDebt(variableBorrowRate: int, variableBorrowIndex: int, last: int, t: int): int {
    if variableBorrowRate == 0 then variableBorrowIndex
    else RayMul(CalcCompoundedInterest(variableBorrowRate, t, last), variableBorrowIndex)
  }

  function NextLiquidityIndex(r: Reserve, t: int): int {
    if r.supplyUtilizationRate == 0 then r.liquidityIndex
    else RayMul(CalcLinearInterest(r.liquidityRate, t, r.lastUpdateTimestamp), r.liquidityIndex)
  }

  function NextVariableBorrowIndex(r: Reserve, t: int): int {
    if r.totalVariableDebt == 0 then r.variableBorrowIndex
    else RayMul(CalcCompoundedInterest(r.variableBorrowRate, t, r.lastUpdateTimestamp), r.variableBorrowIndex)
  }

  function TotalStableDebt(principal: int, averageRate: int, last: int, t: int): int {
    RayMul(CalcCompoundedInterest(averageRate, t, last), principal)
  }

  function ATokenBalance(r: Reserve, u: User, t: int): int {
    RayMul(u.scaledATokenBalance, NormalizedIncome(r, t))
  }

  function ScaledATokenBalance(u: User, index: int, amountAdded: int, amountTaken: int): int
    requires index != 0
  {
    u.scaledATokenBalance + RayDiv(amountAdded, index) - RayDiv(amountTaken, index)
  }

  function VariableDebtBalance(r: Reserve, u: User, t: int): int {
    RayMul(u.scaledVariableDebt, NormalizedDebt(r.variableBorrowRate, r.variableBorrowIndex, r.lastUpdateTimestamp, t))
  }

  function StableDebtTokenBalance(principal: int, rate: int, last: int, t: int): int {
    if rate == 0 || t == last || last == 0 then principal
    else RayMul(principal, CalcCompoundedInterest(rate, t, last))
  }

  function UserStableDebt(u: User, t: int): int {
    StableDebtTokenBalance(u.principalStableDebt, u.stableBorrowRate, u.stableRateLastUpdated, t)
  }

  function AverageStableRate(averageBefore: int, totalBefore: int, amountChanged: int, rate: int): int {
    if totalBefore + amountChanged == 0 then 0
    else Div(averageBefore * totalBefore + rate * amountChanged, totalBefore + amountChanged)
  }

  function AverageStableRateRebalance(averageBefore: int, totalBefore: int, amountChanged: int, rate: int): int {
    var total := totalBefore + WadToRay(amountChanged);
    if total == 0 then 0
    else RayDiv(RayMul(averageBefore, totalBefore) + RayMul(rate, WadToRay(amountChanged)), total)
  }

  function UserStableRate(balanceBefore: int, rateBefore: int, amount: int, rateNew: int): int
    requires balanceBefore + amount != 0
  {
    Div(balanceBefore * rateBefore + amount * rateNew, balanceBefore + amount)
  }

  // ---------- Bringing a reserve up to date ----------

  /** All debt as of the last update: the accrued value of both kinds. */
  function TotalDebtAtLastUpdate(r: Reserve): int {
    RayMul(r.scaledVariableDebt, r.variableBorrowIndex)
    + RayMul(r.principalStableDebt,
             CalcCompoundedInterest(r.averageStableBorrowRate, r.lastUpdateTimestamp, r.totalStableDebtLastUpdated))
  }

  function DebtAccrued(r: Reserve, next: Reserve): int {
    RayMul(next.scaledVariableDebt, next.variableBorrowIndex) + next.totalStableDebt - TotalDebtAtLastUpdate(r)
  }

  function AmountToMint(r: Reserve, next: Reserve): int {
    if r.reserveFactor == 0 then 0 else PercentMul(DebtAccrued(r, next), r.reserveFactor)
  }

  function AccruedToTreasury(r: Reserve, next: Reserve): int
    requires next.liquidityIndex != 0
  {
    var amountToMint := AmountToMint(r, next);
    r.accruedToTreasuryScaled + (if amountToMint > 0 then RayDiv(amountToMint, next.liquidityIndex) else 0)
  }

  /** b with its indexes, debts and treasury brought up to time t. */
  function BroughtUpTo(b: Reserve, t: int): Reserve
    requires NextLiquidityIndex(b, t) != 0
  {
    var index := NextVariableBorrowIndex(b, t);
    var next := b.(liquidityIndex := NextLiquidityIndex(b, t),
                   variableBorrowIndex := index,
                   totalStableDebt :=
                     TotalStableDebt(b.principalStableDebt, b.averageStableBorrowRate, b.totalStableDebtLastUpdated, t),
                   totalVariableDebt := RayMul(b.scaledVariableDebt, index));
    next.(accruedToTreasuryScaled := AccruedToTreasury(b, next))
  }

  /** e with the fields of u that an update of the state sets. */
  function Filled(e: Reserve, u: Reserve): Reserve {
    e.(liquidityIndex := u.liquidityIndex,
       variableBorrowIndex := u.variableBorrowIndex,
       totalStableDebt := u.totalStableDebt,
       totalVariableDebt := u.totalVariableDebt,
       scaledVariableDebt := u.scaledVariableDebt,
       principalStableDebt := u.principalStableDebt,
       accruedToTreasuryScaled := u.accruedToTreasuryScaled)
  }

  predicate Measurable(e: Reserve, available: int) {
    var debt := e.totalStableDebt + e.totalVariableDebt;
    debt == 0 || (available + debt != 0 && available + e.unbacked + debt != 0)
  }

  /** e with liquidity, totals and utilization rates derived from it. */
  function Measured(e: Reserve, available: int): Reserve
    requires Measurable(e, available)
  {
    var debt := e.totalStableDebt + e.totalVariableDebt;
    e.(availableLiquidity := available,
       totalLiquidity := available + e.unbacked,
       borrowUtilizationRate := BorrowUtilization(debt, available),
       supplyUtilizationRate := SupplyUtilization(debt, available, available + e.unbacked))
  }

  function Priced(s: Strategy, e: Reserve): Reserve
    requires ValidStrategy(s)
    requires RatesDefined(s, e.totalStableDebt, e.totalVariableDebt, e.availableLiquidity, e.totalLiquidity)
  {
    var rates := InterestRates(s, e.marketStableRate, e.totalStableDebt, e.totalVariableDebt,
                               e.averageStableBorrowRate, e.availableLiquidity, e.totalLiquidity);
    e.(liquidityRate := rates.liquidityRate,
       stableBorrowRate := rates.stableBorrowRate,
       variableBorrowRate := rates.variableBorrowRate)
  }

  /** The timestamps the source leaves to the chain: the update time, and the stable one when stable
      principal moved. */
  function Stamped(e: Reserve, t: int, stableMoved: bool): Reserve {
    e.(lastUpdateTimestamp := t,
       totalStableDebtLastUpdated := if stableMoved then t else e.totalStableDebtLastUpdated)
  }

  function Updated(b: Reserve, t: int): Reserve
    requires Sound(b) && t >= b.lastUpdateTimestamp
  {
    IndexesGrow(b, t);
    BroughtUpTo(b, t)
  }

  /** The rates are defined for e's debts with so much liquidity available. */
  predicate Settleable(s: Strategy, e: Reserve, available: int) {
    RatesDefined(s, e.totalStableDebt, e.totalVariableDebt, available, available + e.unbacked)
  }

  /** Liquidity, utilization, rates and time stamp in one. */
  function Settled(s: Strategy, e: Reserve, available: int, t: int, stableMoved: bool): Reserve
    requires ValidStrategy(s) && Settleable(s, e, available)
  {
    Stamped(Priced(s, Measured(e, available)), t, stableMoved)
  }

  lemma IndexesGrow(b: Reserve, t: int)
    requires Sound(b) && t >= b.lastUpdateTimestamp
    ensures NextLiquidityIndex(b, t) >= b.liquidityIndex
    ensures NextVariableBorrowIndex(b, t) >= b.variableBorrowIndex
  {
    CompoundedAtLeastLinear(b.variableBorrowRate, t, b.lastUpdateTimestamp);
    CompoundedAtLeastLinear(b.liquidityRate, t, b.lastUpdateTimestamp);
    RayMulByIndex(b.variableBorrowIndex, CalcCompoundedInterest(b.variableBorrowRate, t, b.lastUpdateTimestamp));
    RayMulByIndex(b.liquidityIndex, CalcLinearInterest(b.liquidityRate, t, b.lastUpdateTimestamp));
  }
}
