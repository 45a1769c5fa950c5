/** The debt ledger: over any run the total debt is what was owed, plus interest, plus what was borrowed,
    less what was repaid, up to a rounding term per action. */
module Ledger {
  import opened WadRayMath
  import opened Interest
  import opened RateStrategy
  import opened ReserveModel
  import opened ReserveActions
  import opened DebtActions
  import opened RepayActions
  import opened Balances
  import opened Runs
  import opened Treasury

  /** Debt put on, or taken off, by the action itself. A stable repayment takes its amount off, or the
      whole stable debt when a clamp fires. */
  function Flow(r: Reserve, a: Action, t: int): int {
    match a
    case Borrow(amount, mode, current) => amount
    case Repay(amount, mode, user) =>
      var repaid := RepaidAmount(r, user, amount, mode, t);
      if mode.Variable? then -repaid
      else
        var debt := StableDebtNow(r, t);
        if repaid >= debt
          || AverageStableRate(r.averageStableBorrowRate, debt, Negated(repaid), user.stableBorrowRate) < 0
        then -debt else -repaid
    case _ => 0
  }

  function StableAtLastUpdate(r: Reserve): int {
    RayMul(r.principalStableDebt,
           CalcCompoundedInterest(r.averageStableBorrowRate, r.lastUpdateTimestamp, r.totalStableDebtLastUpdated))
  }

  /** One action's bookkeeping error in the total debt. */
  function Discrepancy(s: Strategy, r: Reserve, a: Action, t: int): int
    requires ValidStrategy(s) && Sound(r) && Enabled(r, a, t)
  {
    TotalDebtAtLastUpdate(After(s, r, a, t)) - TotalDebtAtLastUpdate(r) - DebtAccrued(r, Updated(r, t)) - Flow(r, a, t)
  }

  /** Adding an amount to a scaled debt and valuing the sum. */
  lemma ScaledAddition(scaled: int, amount: int, index: int)
    requires scaled >= 0 && index >= RAY && 0 <= amount
    ensures 2 * RAY * Abs(RayMul(scaled + RayDiv(amount, index), index) - RayMul(scaled, index) - amount)
            <= 2 * RAY + index
  {
    hide RayMul, RayDiv;
    DepositGap(scaled, amount, index);
  }

  /** Taking one off. */
  lemma ScaledRemoval(scaled: int, amount: int, index: int)
    requires scaled >= 0 && index >= RAY && 0 <= amount && RayDiv(amount, index) <= scaled
    ensures 2 * RAY * Abs(RayMul(scaled - RayDiv(amount, index), index) - RayMul(scaled, index) + amount)
            <= 2 * RAY + index
  {
    hide RayMul, RayDiv;
    DepositGap(scaled - RayDiv(amount, index), amount, index);
  }

  /** The debts an action leaves, against the debts of the reserve brought up to date. */
  ghost predicate Booked(r: Reserve, next: Reserve, t: int, flow: int) {
    var index := NextVariableBorrowIndex(r, t);
    && next.variableBorrowIndex == index
    && 2 * RAY * Abs(RayMul(next.scaledVariableDebt, index) + StableAtLastUpdate(next)
                     - RayMul(r.scaledVariableDebt, index) - StableDebtNow(r, t) - flow) <= 2 * RAY + index
  }

  lemma StableJustMoved(next: Reserve, t: int)
    requires Sound(next) && next.lastUpdateTimestamp == t && next.totalStableDebtLastUpdated == t
    ensures StableAtLastUpdate(next) == next.principalStableDebt
  {
    hide Div;
    SoundDebts(next);
    RayMulByRay(next.principalStableDebt);
  }

  lemma StableCarried(r: Reserve, next: Reserve, t: int)
    requires next.lastUpdateTimestamp == t && next.totalStableDebtLastUpdated == r.totalStableDebtLastUpdated
    requires next.principalStableDebt == r.principalStableDebt
    requires next.averageStableBorrowRate == r.averageStableBorrowRate
    ensures StableAtLastUpdate(next) == StableDebtNow(r, t)
  {
    hide RayMul, CalcCompoundedInterest;
    RayMulCommutes(r.principalStableDebt,
                   CalcCompoundedInterest(r.averageStableBorrowRate, t, r.totalStableDebtLastUpdated));
  }

  lemma BorrowBooked(s: Strategy, r: Reserve, amount: int, mode: RateMode, t: int, current: int)
    requires ValidStrategy(s) && Sound(r) && r.lastUpdateTimestamp <= t <= current
    requires 0 <= amount <= r.availableLiquidity
    ensures Booked(r, AfterBorrow(s, r, amount, mode, t, current), t, amount)
  {
    hide RayMul, RayDiv, StableAtLastUpdate, StableDebtNow, NextVariableBorrowIndex, AfterBorrow, Sound;
    var next := AfterBorrow(s, r, amount, mode, t, current);
    BorrowValid(s, r, amount, mode, t, current);
    BorrowDebts(s, r, amount, mode, t, current);
    UpdatedIndex(r, t);
    SoundDebts(r);
    if mode.Stable? {
      StableJustMoved(next, t);
    } else {
      StableCarried(r, next, t);
      ScaledAddition(r.scaledVariableDebt, amount, NextVariableBorrowIndex(r, t));
    }
  }

  lemma BorrowDebts(s: Strategy, r: Reserve, amount: int, mode: RateMode, t: int, current: int)
    requires ValidStrategy(s) && Sound(r) && r.lastUpdateTimestamp <= t <= current
    requires 0 <= amount <= r.availableLiquidity
    ensures var index := NextVariableBorrowIndex(r, t);
            var next := AfterBorrow(s, r, amount, mode, t, current);
            && next.variableBorrowIndex == index && index != 0 && next.lastUpdateTimestamp == t
            && next.totalStableDebtLastUpdated == (if mode.Stable? then t else r.totalStableDebtLastUpdated)
            && next.scaledVariableDebt == r.scaledVariableDebt + (if mode.Stable? then 0 else RayDiv(amount, index))
            && next.principalStableDebt
               == (if mode.Stable? then StableDebtNow(r, t) + amount else r.principalStableDebt)
            && (mode.Variable? ==> next.averageStableBorrowRate == r.averageStableBorrowRate)
  {
    hide InterestRates, BorrowUtilization, SupplyUtilization, BroughtUpTo, NextVariableBorrowIndex, TotalStableDebt,
         NormalizedDebt, RayMul, RayDiv, AverageStableRate, StableDebtTokenBalance, Ready, Sound;
    UpdatedDebts(r, t);
    UpdatedIndex(r, t);
  }

  lemma RepayBooked(s: Strategy, r: Reserve, u: User, amount: int, mode: RateMode, t: int)
    requires ValidStrategy(s) && Sound(r) && t >= r.lastUpdateTimestamp
    requires CanRepay(r, RepaidAmount(r, u, amount, mode, t), mode, t)
    ensures Booked(r, AfterRepay(s, r, u, amount, mode, t), t, Flow(r, Repay(amount, mode, u), t))
  {
    hide RayMul, RayDiv, StableAtLastUpdate, StableDebtNow, NextVariableBorrowIndex, AfterRepay, Sound, RepaidAmount,
         AverageStableRate;
    var next := AfterRepay(s, r, u, amount, mode, t);
    var repaid, index := RepaidAmount(r, u, amount, mode, t), NextVariableBorrowIndex(r, t);
    RepayValid(s, r, u, amount, mode, t);
    RepayDebts(s, r, u, amount, mode, t);
    UpdatedIndex(r, t);
    SoundDebts(r);
    if mode.Stable? {
      StableJustMoved(next, t);
    } else {
      StableCarried(r, next, t);
      ScaledRemoval(r.scaledVariableDebt, repaid, index);
    }
  }

  lemma RepayDebts(s: Strategy, r: Reserve, u: User, amount: int, mode: RateMode, t: int)
    requires ValidStrategy(s) && Sound(r) && t >= r.lastUpdateTimestamp
    requires CanRepay(r, RepaidAmount(r, u, amount, mode, t), mode, t)
    ensures var index, repaid := NextVariableBorrowIndex(r, t), RepaidAmount(r, u, amount, mode, t);
            var next := AfterRepay(s, r, u, amount, mode, t);
            && next.variableBorrowIndex == index && index != 0 && next.lastUpdateTimestamp == t
            && next.totalStableDebtLastUpdated == (if mode.Stable? then t else r.totalStableDebtLastUpdated)
            && next.scaledVariableDebt == r.scaledVariableDebt - (if mode.Stable? then 0 else RayDiv(repaid, index))
            && next.principalStableDebt ==
                 (if mode.Stable? then StableDebtNow(r, t) + Flow(r, Repay(amount, mode, u), t)
                  else r.principalStableDebt)
            && (mode.Variable? ==> next.averageStableBorrowRate == r.averageStableBorrowRate)
  {
    hide InterestRates, BorrowUtilization, SupplyUtilization, BroughtUpTo, NextVariableBorrowIndex, TotalStableDebt,
         RayMul, RayDiv, AverageStableRate, RepaidAmount, Ready, Sound;
    UpdatedDebts(r, t);
    UpdatedIndex(r, t);
  }

  lemma SwapBooked(s: Strategy, r: Reserve, u: User, mode: RateMode, t: int)
    requires ValidStrategy(s) && Sound(r) && t >= r.lastUpdateTimestamp && CanSwap(r, u, mode, t)
    requires Sound(AfterSwapRateMode(s, r, u, mode, t))
    ensures Booked(r, AfterSwapRateMode(s, r, u, mode, t), t, 0)
  {
    hide RayMul, RayDiv, StableAtLastUpdate, StableDebtNow, NextVariableBorrowIndex, AfterSwapRateMode, Sound,
         UserStableDebt, VariableDebtBalance;
    var next, index := AfterSwapRateMode(s, r, u, mode, t), NextVariableBorrowIndex(r, t);
    SwapDebts(s, r, u, mode, t);
    UpdatedIndex(r, t);
    SoundDebts(r);
    StableJustMoved(next, t);
    if mode.Stable? {
      ScaledAddition(r.scaledVariableDebt, UserStableDebt(u, t), index);
    } else {
      ScaledRemoval(r.scaledVariableDebt, VariableDebtBalance(r, u, t), index);
    }
  }

  lemma SwapDebts(s: Strategy, r: Reserve, u: User, mode: RateMode, t: int)
    requires ValidStrategy(s) && Sound(r) && t >= r.lastUpdateTimestamp && CanSwap(r, u, mode, t)
    ensures var index := NextVariableBorrowIndex(r, t);
            var stable, variable := UserStableDebt(u, t), VariableDebtBalance(r, u, t);
            var next := AfterSwapRateMode(s, r, u, mode, t);
            && next.variableBorrowIndex == index && index != 0
            && next.lastUpdateTimestamp == t && next.totalStableDebtLastUpdated == t
            && next.scaledVariableDebt ==
                 r.scaledVariableDebt + (if mode.Stable? then RayDiv(stable, index) else -RayDiv(variable, index))
            && next.principalStableDebt == StableDebtNow(r, t) + (if mode.Stable? then -stable else variable)
  {
    hide InterestRates, BorrowUtilization, SupplyUtilization, BroughtUpTo, NextVariableBorrowIndex, TotalStableDebt,
         RayMul, RayDiv, AverageStableRate, UserStableDebt, VariableDebtBalance, CanSwap, Ready, Sound;
    UpdatedDebts(r, t);
    UpdatedIndex(r, t);
  }

  lemma RebalanceBooked(s: Strategy, r: Reserve, u: User, t: int)
    requires ValidStrategy(s) && Sound(r) && t >= r.lastUpdateTimestamp && Sound(AfterStableRateRebalance(s, r, u, t))
    ensures Booked(r, AfterStableRateRebalance(s, r, u, t), t, 0)
  {
    hide InterestRates, BorrowUtilization, SupplyUtilization, BroughtUpTo, NextVariableBorrowIndex, TotalStableDebt,
         RayMul, RayDiv, AverageStableRateRebalance, UserStableDebt, Ready, Sound, StableAtLastUpdate;
    UpdatedDebts(r, t);
    UpdatedIndex(r, t);
    StableJustMoved(AfterStableRateRebalance(s, r, u, t), t);
  }

  /** Each action moves the total debt by the interest and its own flow, to within 1 + index/(2·RAY). */
  lemma StepBooked(s: Strategy, r: Reserve, a: Action, t: int)
    requires ValidStrategy(s) && Sound(r) && Enabled(r, a, t)
    ensures 2 * RAY * Abs(Discrepancy(s, r, a, t)) <= 2 * RAY + After(s, r, a, t).variableBorrowIndex
  {
    hide Sound, Enabled, After, Discrepancy, Updated, DebtAccrued, TotalDebtAtLastUpdate, Flow;
    if LeavesDebtsAlone(a) { LiquidityStepBooked(s, r, a, t); } else { DebtStepBooked(s, r, a, t); }
  }

  lemma LiquidityStepBooked(s: Strategy, r: Reserve, a: Action, t: int)
    requires ValidStrategy(s) && Sound(r) && Enabled(r, a, t) && LeavesDebtsAlone(a)
    ensures Discrepancy(s, r, a, t) == 0 && After(s, r, a, t).variableBorrowIndex >= RAY
  {
    hide After, Sound, Enabled, Updated, TotalDebtAtLastUpdate, DebtAccrued;
    StepKeeps(s, r, a, t);
    IndexAtLeastRay(After(s, r, a, t));
    DebtMovesByInterest(s, r, a, t);
  }

  lemma IndexAtLeastRay(r: Reserve)
    requires Sound(r)
    ensures r.variableBorrowIndex >= RAY
  {
    hide Div;
  }

  lemma DebtStepBooked(s: Strategy, r: Reserve, a: Action, t: int)
    requires ValidStrategy(s) && Sound(r) && Enabled(r, a, t) && !LeavesDebtsAlone(a)
    ensures 2 * RAY * Abs(Discrepancy(s, r, a, t)) <= 2 * RAY + After(s, r, a, t).variableBorrowIndex
  {
    hide Sound, Booked, AfterBorrow, AfterRepay, AfterSwapRateMode, AfterStableRateRebalance, CanRepay, CanSwap,
         RepaidAmount, AverageStableRate, StableDebtNow, UserStableDebt, Discrepancy;
    StepKeeps(s, r, a, t);
    match a {
      case Borrow(amount, mode, current) => BorrowBooked(s, r, amount, mode, t, current);
      case Repay(amount, mode, user) => RepayBooked(s, r, user, amount, mode, t);
      case Swap(mode, user) => SwapBooked(s, r, user, mode, t);
      case Rebalance(user) => RebalanceBooked(s, r, user, t);
    }
    BookedDiscrepancy(s, r, a, t);
  }

  lemma BookedDiscrepancy(s: Strategy, r: Reserve, a: Action, t: int)
    requires ValidStrategy(s) && Sound(r) && Enabled(r, a, t)
    requires Booked(r, After(s, r, a, t), t, Flow(r, a, t))
    ensures 2 * RAY * Abs(Discrepancy(s, r, a, t)) <= 2 * RAY + After(s, r, a, t).variableBorrowIndex
  {
    hide Sound, After, Enabled, Updated, Flow, RayMul, CalcCompoundedInterest, NextVariableBorrowIndex;
    EnabledInTime(r, a, t);
    UpdatedDebts(r, t);
  }

  // ---------- Over a run ----------

  ghost function FlowOf(s: Strategy, r: Reserve, steps: seq<Step>): int
    requires ValidStrategy(s) && Sound(r) && IsRun(s, r, steps)
    decreases |steps|
  {
    if steps == [] then 0
    else
      StepKeeps(s, r, steps[0].action, steps[0].time);
      Flow(r, steps[0].action, steps[0].time) + FlowOf(s, After(s, r, steps[0].action, steps[0].time), steps[1..])
  }

  /** Debt is conserved over every run of n actions: it is the initial debt plus all interest plus all
      flows, to within n·(1 + index/(2·RAY)) at the final index. */
  lemma {:induction false} DebtConserved(s: Strategy, r: Reserve, steps: seq<Step>)
    requires ValidStrategy(s) && Sound(r) && IsRun(s, r, steps)
    ensures var end := Final(s, r, steps);
            2 * RAY * Abs(TotalDebtAtLastUpdate(end)
                          - (TotalDebtAtLastUpdate(r) + InterestOf(s, r, steps) + FlowOf(s, r, steps)))
              <= |steps| * (2 * RAY + end.variableBorrowIndex)
    decreases |steps|
  {
    hide Sound, After, Enabled, Updated, TotalDebtAtLastUpdate, DebtAccrued, Flow;
    if steps != [] {
      var a, t, rest := steps[0].action, steps[0].time, steps[1..];
      var next := After(s, r, a, t);
      StepKeeps(s, r, a, t);
      EnabledInTime(r, a, t);
      StepBooked(s, r, a, t);
      DebtConserved(s, next, rest);
      RunInvariant(s, next, rest);
      var bound := 2 * RAY + Final(s, next, rest).variableBorrowIndex;
      assert |steps| * bound == bound + |rest| * bound;
    }
  }

  // ---------- Liquidity ----------

  /** What an action adds to the total liquidity, unbacked tokens included. */
  function LiquidityFlow(r: Reserve, a: Action, t: int): int {
    match a
    case Deposit(amount) => amount
    case Withdraw(amount, user) => -WithdrawnAmount(r, user, amount, t)
    case MintUnbacked(amount) => amount
    case BackUnbacked(supply, amount, fee, protocolFee) => fee
    case Borrow(amount, mode, current) => -amount
    case Repay(amount, mode, user) => RepaidAmount(r, user, amount, mode, t)
    case Swap(mode, user) => 0
    case Rebalance(user) => 0
  }

  lemma StepLiquidity(s: Strategy, r: Reserve, a: Action, t: int)
    requires ValidStrategy(s) && Sound(r) && Enabled(r, a, t)
    ensures After(s, r, a, t).totalLiquidity == r.totalLiquidity + LiquidityFlow(r, a, t)
  {
    hide InterestRates, BorrowUtilization, SupplyUtilization, BroughtUpTo, NextVariableBorrowIndex, TotalStableDebt,
         NormalizedDebt, RayMul, RayDiv, PercentMul, AverageStableRate, AverageStableRateRebalance, UserStableDebt,
         VariableDebtBalance, StableDebtTokenBalance, StableDebtNow, CanRepay, CanSwap, CanBack, RepaidAmount,
         WithdrawnAmount, Ready, CumulateToLiquidityIndex;
    UpdatedUnbacked(r, t);
  }

  lemma UpdatedUnbacked(r: Reserve, t: int)
    requires Sound(r) && t >= r.lastUpdateTimestamp
    ensures Updated(r, t).unbacked == r.unbacked && r.totalLiquidity == r.availableLiquidity + r.unbacked
    ensures Updated(r, t).marketStableRate == r.marketStableRate && Updated(r, t).reserveFactor == r.reserveFactor
  {
    hide RayMul, TotalStableDebt, AccruedToTreasury;
    IndexesGrow(r, t);
  }

  ghost function LiquidityFlowOf(s: Strategy, r: Reserve, steps: seq<Step>): int
    requires ValidStrategy(s) && Sound(r) && IsRun(s, r, steps)
    decreases |steps|
  {
    if steps == [] then 0
    else
      StepKeeps(s, r, steps[0].action, steps[0].time);
      LiquidityFlow(r, steps[0].action, steps[0].time)
      + LiquidityFlowOf(s, After(s, r, steps[0].action, steps[0].time), steps[1..])
  }

  /** Liquidity is conserved exactly over every run: no rounding anywhere reaches it. */
  lemma {:induction false} LiquidityConserved(s: Strategy, r: Reserve, steps: seq<Step>)
    requires ValidStrategy(s) && Sound(r) && IsRun(s, r, steps)
    ensures Final(s, r, steps).totalLiquidity == r.totalLiquidity + LiquidityFlowOf(s, r, steps)
    decreases |steps|
  {
    hide Sound, After, Enabled, LiquidityFlow;
    if steps != [] {
      var a, t := steps[0].action, steps[0].time;
      StepKeeps(s, r, a, t);
      StepLiquidity(s, r, a, t);
      LiquidityConserved(s, After(s, r, a, t), steps[1..]);
    }
  }
}
