/** What the record an action leaves says: liquidity, unbacked tokens, debts as of the time it describes, and the
    utilizations that belong to them. */
module RecordFields {
  import opened WadRayMath
  import opened Interest
  import opened DecimalOrder
  import opened RateStrategy
  import opened ReserveModel
  import opened ReserveActions
  import opened DebtActions
  import opened RepayActions
  import opened Balances
  import opened SwapRoundTrip
  import opened RateValues
  import opened Runs
  import opened Treasury
  import opened Ledger
  import opened CurrentRates
  import opened UpdateBetween

  // ---------- Liquidity ----------

  /** What an action adds to the available liquidity. */
  function AvailableFlow(r: Reserve, a: Action, t: int): int {
    match a
    case Deposit(amount) => amount
    case Withdraw(amount, user) => -WithdrawnAmount(r, user, amount, t)
    case MintUnbacked(amount) => 0
    case BackUnbacked(supply, amount, fee, protocolFee) => (if amount < r.unbacked then amount else r.unbacked) + fee
    case Borrow(amount, mode, current) => -amount
    case Repay(amount, mode, user) => RepaidAmount(r, user, amount, mode, t)
    case Swap(mode, user) => 0
    case Rebalance(user) => 0
  }

  /** Minting adds unbacked tokens, backing turns them into liquidity, nothing else touches them. */
  lemma LiquidityFields(s: Strategy, r: Reserve, a: Action, t: int)
    requires ValidStrategy(s) && Sound(r) && Enabled(r, a, t)
    ensures var next := After(s, r, a, t);
            && next.availableLiquidity == r.availableLiquidity + AvailableFlow(r, a, t)
            && next.unbacked == (match a
                                 case MintUnbacked(amount) => r.unbacked + amount
                                 case BackUnbacked(supply, amount, fee, protocolFee) =>
                                   if amount < r.unbacked then r.unbacked - amount else 0
                                 case _ => r.unbacked)
            && next.totalLiquidity == next.availableLiquidity + next.unbacked
            && next.marketStableRate == r.marketStableRate && next.reserveFactor == r.reserveFactor
  {
    hide InterestRates, BorrowUtilization, SupplyUtilization, BroughtUpTo, NextVariableBorrowIndex, TotalStableDebt,
         NormalizedDebt, RayMul, RayDiv, PercentMul, AverageStableRate, AverageStableRateRebalance, UserStableDebt,
         VariableDebtBalance, StableDebtTokenBalance, StableDebtNow, CanRepay, CanSwap, CanBack, RepaidAmount,
         WithdrawnAmount, Ready, CumulateToLiquidityIndex, StableDebtAged, AgeDefined, BorrowSettles, RepayDefined,
         SwapDefined, WithdrawDefined;
    UpdatedUnbacked(r, t);
  }

  // ---------- Indexes ----------

  /** An index with a year's growth on top, to within its roundings. */
  ghost predicate GrownBy(next: int, index: int, growth: int) {
    Abs(2 * ONE_YEAR * (RAY * next) - 2 * (ONE_YEAR * RAY + growth) * index) <= ONE_YEAR * (RAY + 2 * index)
  }

  /** Every action brings both indexes up to date: liquidity carries the year's rate in proportion to the time passed,
      variable debt, if there is any, compounds. Only backing raises the liquidity index beyond that. */
  lemma IndexFields(s: Strategy, r: Reserve, a: Action, t: int)
    requires ValidStrategy(s) && Sound(r) && Enabled(r, a, t)
    ensures var next, index := After(s, r, a, t), NextLiquidityIndex(r, t);
            && (if a.BackUnbacked? then next.liquidityIndex >= index else next.liquidityIndex == index)
            && GrownBy(index, r.liquidityIndex, r.liquidityRate * (t - r.lastUpdateTimestamp))
            && (r.scaledVariableDebt == 0 ==> next.variableBorrowIndex == r.variableBorrowIndex)
            && (r.scaledVariableDebt > 0 ==>
                  var c := CalcCompoundedInterest(r.variableBorrowRate, t, r.lastUpdateTimestamp);
                  Abs(2 * RAY * next.variableBorrowIndex - 2 * (c * r.variableBorrowIndex)) <= RAY)
  {
    hide Sound, After, Enabled, NextLiquidityIndex, NextVariableBorrowIndex, CalcCompoundedInterest, GrownBy;
    NextIndexes(s, r, a, t);
    LiquidityIndexValue(r, t);
    if r.scaledVariableDebt > 0 {
      DebtIndexGrows(r, t, CalcCompoundedInterest(r.variableBorrowRate, t, r.lastUpdateTimestamp));
    } else if r.scaledVariableDebt == 0 {
      NoDebtNoGrowth(r, t);
    }
  }

  lemma LiquidityIndexValue(r: Reserve, t: int)
    requires Sound(r) && t >= r.lastUpdateTimestamp
    ensures GrownBy(NextLiquidityIndex(r, t), r.liquidityIndex, r.liquidityRate * (t - r.lastUpdateTimestamp))
  {
    hide Sound, NextLiquidityIndex, CalcLinearInterest, GrownBy;
    var c := CalcLinearInterest(r.liquidityRate, t, r.lastUpdateTimestamp);
    SupplyIndexGrows(r, t, c);
    SoundRate(r);
    LinearInterestExact(r.liquidityRate, t - r.lastUpdateTimestamp, r.lastUpdateTimestamp);
    ProportionOf(r.liquidityIndex, r.liquidityRate * (t - r.lastUpdateTimestamp), c, NextLiquidityIndex(r, t));
  }

  lemma NextIndexes(s: Strategy, r: Reserve, a: Action, t: int)
    requires ValidStrategy(s) && Sound(r) && Enabled(r, a, t)
    ensures t >= r.lastUpdateTimestamp
    ensures var next := After(s, r, a, t);
            && next.variableBorrowIndex == NextVariableBorrowIndex(r, t)
            && (if a.BackUnbacked? then next.liquidityIndex >= NextLiquidityIndex(r, t)
                else next.liquidityIndex == NextLiquidityIndex(r, t))
  {
    hide InterestRates, BorrowUtilization, SupplyUtilization, BroughtUpTo, NextVariableBorrowIndex, TotalStableDebt,
         NormalizedDebt, RayMul, RayDiv, AverageStableRate, AverageStableRateRebalance, UserStableDebt,
         VariableDebtBalance, StableDebtTokenBalance, StableDebtNow, CanRepay, CanSwap, CanBack, RepaidAmount,
         WithdrawnAmount, Ready, Sound, RepayDefined, SwapDefined, BorrowDefined, WithdrawDefined, AgeDefined,
         StableDebtAged, NextLiquidityIndex, CumulateToLiquidityIndex, PremiumToProtocol;
    UpdatedIndex(r, t);
    if a.BackUnbacked? { BackedReady(a.scaledATokenSupply, a.amount, a.fee, a.bridgeProtocolFee, r, t); }
  }

  lemma SoundRate(r: Reserve)
    requires Sound(r)
    ensures r.liquidityRate >= 0
  {
    hide Div;
  }

  lemma NoDebtNoGrowth(r: Reserve, t: int)
    requires Sound(r) && r.scaledVariableDebt == 0
    ensures NextVariableBorrowIndex(r, t) == r.variableBorrowIndex
  {
    hide RayMul;
  }

  lemma ProportionOf(index: int, growth: int, c: int, next: int)
    requires index >= 0 && (c - RAY) * ONE_YEAR <= growth < (c - RAY + 1) * ONE_YEAR
    requires Abs(2 * RAY * next - 2 * (c * index)) <= RAY
    ensures GrownBy(next, index, growth)
  {
    GrowthBetween(index, ONE_YEAR * RAY + growth, c);
    BothRoundings(index, c * index, (ONE_YEAR * RAY + growth) * index, next);
  }

  lemma GrowthBetween(index: int, grown: int, c: int)
    requires index >= 0 && ONE_YEAR * c <= grown <= ONE_YEAR * c + ONE_YEAR
    ensures ONE_YEAR * (c * index) <= grown * index <= ONE_YEAR * (c * index) + ONE_YEAR * index
  {
    MulLe(ONE_YEAR * c, grown, index);
    MulLe(grown, ONE_YEAR * c + ONE_YEAR, index);
  }

  lemma BothRoundings(index: int, grown: int, whole: int, next: int)
    requires ONE_YEAR * grown <= whole <= ONE_YEAR * grown + ONE_YEAR * index
    requires -RAY <= 2 * RAY * next - 2 * grown <= RAY
    ensures Abs(2 * ONE_YEAR * (RAY * next) - 2 * whole) <= ONE_YEAR * (RAY + 2 * index)
  {
    assert 2 * ONE_YEAR * (RAY * next) == ONE_YEAR * (2 * RAY * next);
  }

  // ---------- Debts ----------

  /** The time the record describes: the transaction's, and after a borrow the current one. */
  function DescribedTime(a: Action, t: int): int {
    if a.Borrow? then a.current else t
  }

  /** A borrow's totals are what bringing its own record up to `current` gives: principal and scaled debt with all
      interest since the transaction, at the rates the borrow has set. */
  lemma BorrowLeavesAgedTotals(s: Strategy, b: Reserve, amount: int, mode: RateMode, t: int, current: int)
    requires ValidStrategy(s) && Sound(b) && b.lastUpdateTimestamp <= t <= current
    requires 0 <= amount <= b.availableLiquidity
    ensures var r := AfterBorrow(s, b, amount, mode, t, current);
            && Sound(r) && r.lastUpdateTimestamp == t
            && r.totalStableDebt == StableDebtNow(r, current) == Updated(r, current).totalStableDebt
            && r.totalVariableDebt == RayMul(r.scaledVariableDebt, NextVariableBorrowIndex(r, current))
            && r.totalVariableDebt == Updated(r, current).totalVariableDebt
  {
    hide Sound, Updated, AfterBorrow, TotalStableDebt, RayMul, NextVariableBorrowIndex;
    var r := AfterBorrow(s, b, amount, mode, t, current);
    BorrowValid(s, b, amount, mode, t, current);
    BorrowDebts(s, b, amount, mode, t, current);
    AgedDebts(s, b, amount, mode, t, current);
    UpdatedTotalsAt(r, current);
    SoundDebts(r);
    if r.scaledVariableDebt > 0 {
      NormalizedDebtIsNextIndex(r, current);
    } else {
      RayMulZero(NormalizedDebt(r.variableBorrowRate, r.variableBorrowIndex, t, current));
      RayMulZero(NextVariableBorrowIndex(r, current));
    }
  }

  lemma AgedDebts(s: Strategy, b: Reserve, amount: int, mode: RateMode, t: int, current: int)
    requires ValidStrategy(s) && Sound(b) && b.lastUpdateTimestamp <= t <= current
    requires 0 <= amount <= b.availableLiquidity
    ensures var r := AfterBorrow(s, b, amount, mode, t, current);
            && r.totalStableDebt == TotalStableDebt(r.principalStableDebt, r.averageStableBorrowRate,
                                                    r.totalStableDebtLastUpdated, current)
            && r.totalVariableDebt == RayMul(r.scaledVariableDebt,
                                             NormalizedDebt(r.variableBorrowRate, r.variableBorrowIndex, t, current))
  {
    hide InterestRates, BorrowUtilization, SupplyUtilization, BroughtUpTo, NextVariableBorrowIndex, TotalStableDebt,
         NormalizedDebt, RayMul, RayDiv, AverageStableRate, StableDebtTokenBalance, Ready, Sound, BorrowSettles,
         AgeDefined;
    UpdatedDebts(b, t);
  }

  lemma UpdatedTotalsAt(r: Reserve, t: int)
    requires Sound(r) && t >= r.lastUpdateTimestamp
    ensures Updated(r, t).totalStableDebt == StableDebtNow(r, t)
    ensures Updated(r, t).totalVariableDebt == RayMul(r.scaledVariableDebt, NextVariableBorrowIndex(r, t))
  {
    hide RayMul, TotalStableDebt, AccruedToTreasury, NextVariableBorrowIndex;
    IndexesGrow(r, t);
  }

  /** After every action the totals on record are the debts of that record at the time it describes. */
  lemma DebtFields(s: Strategy, r: Reserve, a: Action, t: int)
    requires ValidStrategy(s) && Sound(r) && Enabled(r, a, t)
    ensures var next, c := After(s, r, a, t), DescribedTime(a, t);
            && Sound(next) && c >= next.lastUpdateTimestamp == t
            && next.totalStableDebt == StableDebtNow(next, c)
            && next.totalVariableDebt == RayMul(next.scaledVariableDebt, NextVariableBorrowIndex(next, c))
  {
    hide Sound, After, Enabled, RatesSetFor, AfterBorrow, CalcCompoundedInterest, RayMul, NextVariableBorrowIndex,
         Updated;
    StepKeeps(s, r, a, t);
    if a.Borrow? {
      BorrowIsAfter(s, r, a, t);
      BorrowLeavesAgedTotals(s, r, a.amount, a.mode, t, a.current);
    } else {
      var next := After(s, r, a, t);
      OthersSetCurrentRates(s, r, a, t);
      NothingAccruesAtOnce(next, t);
      RayMulCommutes(next.principalStableDebt,
                     CalcCompoundedInterest(next.averageStableBorrowRate, t, next.totalStableDebtLastUpdated));
    }
  }

  // ---------- Utilizations ----------

  /** The borrow utilization on record is the share of its total debt in debt and available liquidity, to the nearest
      ray; the supply utilization is the share in debt and all liquidity, or the borrow utilization where the cap has
      replaced it. */
  lemma UtilizationFields(s: Strategy, r: Reserve, a: Action, t: int)
    requires ValidStrategy(s) && Sound(r) && Enabled(r, a, t)
    ensures var next := After(s, r, a, t);
            var debt := next.totalStableDebt + next.totalVariableDebt;
            && debt >= 0 && 0 <= next.availableLiquidity <= next.totalLiquidity
            && (debt == 0 ==> next.borrowUtilizationRate == 0 == next.supplyUtilizationRate)
            && (debt > 0 ==> Nearest(next.borrowUtilizationRate, debt * RAY, next.availableLiquidity + debt))
            && (debt > 0 && next.supplyUtilizationRate != next.borrowUtilizationRate ==>
                  Nearest(next.supplyUtilizationRate, debt * RAY, next.totalLiquidity + debt))
            && next.supplyUtilizationRate == SupplyUtilization(debt, next.availableLiquidity, next.totalLiquidity)
  {
    hide Sound, After, Enabled, BorrowUtilization, UncappedSupplyUtilization;
    StepKeeps(s, r, a, t);
    var next := After(s, r, a, t);
    SoundLiquidityFields(next);
    Measures(s, r, a, t);
    SharesNearest(next.totalStableDebt, next.totalVariableDebt, next.availableLiquidity);
    SharesNearest(next.totalStableDebt, next.totalVariableDebt, next.totalLiquidity);
    CappedShare(next.totalStableDebt + next.totalVariableDebt, next.availableLiquidity, next.totalLiquidity);
  }

  lemma CappedShare(debt: int, available: int, total: int)
    requires debt >= 0 && 0 <= available <= total
    ensures var u := SupplyUtilization(debt, available, total);
            u == BorrowUtilization(debt, total) || u == BorrowUtilization(debt, available)
    ensures debt == 0 ==> SupplyUtilization(debt, available, total) == 0
  {
    hide JsGreater;
  }

  lemma SoundLiquidityFields(r: Reserve)
    requires Sound(r)
    ensures 0 <= r.availableLiquidity <= r.totalLiquidity && r.totalStableDebt >= 0 && r.totalVariableDebt >= 0
  {
    hide Div;
  }

  lemma Measures(s: Strategy, r: Reserve, a: Action, t: int)
    requires ValidStrategy(s) && Sound(r) && Enabled(r, a, t)
    requires var next := After(s, r, a, t);
             0 <= next.availableLiquidity <= next.totalLiquidity && next.totalStableDebt >= 0
               && next.totalVariableDebt >= 0
    ensures var next := After(s, r, a, t);
            var debt := next.totalStableDebt + next.totalVariableDebt;
            && next.borrowUtilizationRate == BorrowUtilization(debt, next.availableLiquidity)
            && next.supplyUtilizationRate == SupplyUtilization(debt, next.availableLiquidity, next.totalLiquidity)
  {
    hide InterestRates, BorrowUtilization, SupplyUtilization, BroughtUpTo, NextVariableBorrowIndex, TotalStableDebt,
         NormalizedDebt, RayMul, RayDiv, PercentMul, AverageStableRate, AverageStableRateRebalance, UserStableDebt,
         VariableDebtBalance, StableDebtTokenBalance, StableDebtNow, CanRepay, CanSwap, CanBack, RepaidAmount,
         WithdrawnAmount, Ready, CumulateToLiquidityIndex, StableDebtAged, AgeDefined, BorrowSettles, RepayDefined,
         SwapDefined, WithdrawDefined, Updated, Sound;
  }
}
