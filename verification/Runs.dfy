/** Runs of the protocol: any sequence of actions, by any users, at non-decreasing times. */
module Runs {
  import opened WadRayMath
  import opened RateStrategy
  import opened ReserveModel
  import opened ReserveActions
  import opened DebtActions
  import opened RepayActions

  datatype Action =
    | Deposit(amount: int)
    | Withdraw(amount: int, user: User)
    | MintUnbacked(amount: int)
    | BackUnbacked(scaledATokenSupply: int, amount: int, fee: int, bridgeProtocolFee: int)
    | Borrow(amount: int, mode: RateMode, current: int)
    | Repay(amount: int, mode: RateMode, user: User)
    | Swap(mode: RateMode, user: User)
    | Rebalance(user: User)

  datatype Step = Step(action: Action, time: int)

  /** Amounts stay within the available liquidity and the debt; a user leaving the stable mode must not
      take more than the reserve's own weighted rate can give (see SwapValidExactly), and a rebalance must leave
      no negative average. */
  predicate Enabled(r: Reserve, a: Action, t: int) {
    && t >= r.lastUpdateTimestamp
    && match a
       case Deposit(amount) => amount >= 0
       case Withdraw(amount, user) => WithdrawnAmount(r, user, amount, t) <= r.availableLiquidity
       case MintUnbacked(amount) => amount >= 0
       case BackUnbacked(supply, amount, fee, protocolFee) => CanBack(supply, amount, fee, protocolFee)
       case Borrow(amount, mode, current) => 0 <= amount <= r.availableLiquidity && t <= current
       case Repay(amount, mode, user) => CanRepay(r, RepaidAmount(r, user, amount, mode, t), mode, t)
       case Swap(mode, user) =>
         && CanSwap(r, user, mode, t)
         && (mode.Stable? ==>
               var total, debt := StableDebtNow(r, t), UserStableDebt(user, t);
               total == debt || user.stableBorrowRate * debt - r.averageStableBorrowRate * total < total - debt)
       case Rebalance(user) => CanRebalance(r, user, t)
  }

  function After(s: Strategy, r: Reserve, a: Action, t: int): Reserve
    requires ValidStrategy(s) && Sound(r) && Enabled(r, a, t)
  {
    match a
    case Deposit(amount) => AfterDeposit(s, r, amount, t)
    case Withdraw(amount, user) => AfterWithdraw(s, r, user, amount, t)
    case MintUnbacked(amount) => AfterMintUnbacked(s, r, amount, t)
    case BackUnbacked(supply, amount, fee, protocolFee) => AfterBackUnbacked(s, supply, amount, fee, protocolFee, r, t)
    case Borrow(amount, mode, current) => AfterBorrow(s, r, amount, mode, t, current)
    case Repay(amount, mode, user) => AfterRepay(s, r, user, amount, mode, t)
    case Swap(mode, user) => AfterSwapRateMode(s, r, user, mode, t)
    case Rebalance(user) => AfterStableRateRebalance(s, r, user, t)
  }

  /** A reserve nobody has used yet, from which runs can start. */
  function FreshReserve(s: Strategy, reserveFactor: int, marketStableRate: int, t: int): Reserve {
    Reserve(reserveFactor, 0, 0, 0, 0, 0, 0, 0, s.baseVariableBorrowRate, marketStableRate, 0, 0, RAY, RAY,
            marketStableRate, t, t, 0, 0, 0)
  }

  lemma FreshReserveIsSound(s: Strategy, reserveFactor: int, marketStableRate: int, t: int)
    requires ValidStrategy(s) && 0 <= reserveFactor <= PERCENTAGE_FACTOR && marketStableRate >= 0
    ensures Sound(FreshReserve(s, reserveFactor, marketStableRate, t))
  {
  }

  /** What one action never does: break soundness, lower an index or the treasury, or go back in time. */
  lemma StepKeeps(s: Strategy, r: Reserve, a: Action, t: int)
    requires ValidStrategy(s) && Sound(r) && Enabled(r, a, t)
    ensures Sound(After(s, r, a, t))
    ensures Grows(r, After(s, r, a, t)) && After(s, r, a, t).lastUpdateTimestamp == t
  {
    hide Sound, Ready, AfterDeposit, AfterWithdraw, AfterMintUnbacked, AfterBackUnbacked, AfterBorrow, AfterRepay,
         AfterSwapRateMode, AfterStableRateRebalance, CanRepay, CanSwap, CanBack,
         RepaidAmount, WithdrawnAmount, StableDebtNow, UserStableDebt, Updated, Grows, RepayDefined, SwapDefined;
    match a {
      case Deposit(amount) => DepositValid(s, r, amount, t); LiquidityStepGrows(s, r, a, t);
      case Withdraw(amount, user) => WithdrawValid(s, r, user, amount, t); LiquidityStepGrows(s, r, a, t);
      case MintUnbacked(amount) => MintUnbackedValid(s, r, amount, t); LiquidityStepGrows(s, r, a, t);
      case BackUnbacked(supply, amount, fee, protocolFee) =>
        BackUnbackedValid(s, supply, amount, fee, protocolFee, r, t);
        BackStepGrows(s, r, supply, amount, fee, protocolFee, t);
      case Borrow(amount, mode, current) => BorrowValid(s, r, amount, mode, t, current); DebtStepGrows(s, r, a, t);
      case Repay(amount, mode, user) => RepayValid(s, r, user, amount, mode, t); DebtStepGrows(s, r, a, t);
      case Swap(mode, user) => SwapKeeps(s, r, user, mode, t); DebtStepGrows(s, r, a, t);
      case Rebalance(user) => RebalanceValidExactly(s, r, user, t); DebtStepGrows(s, r, a, t);
    }
  }

  lemma SwapKeeps(s: Strategy, r: Reserve, u: User, mode: RateMode, t: int)
    requires ValidStrategy(s) && Sound(r) && Enabled(r, Swap(mode, u), t)
    ensures Sound(AfterSwapRateMode(s, r, u, mode, t))
  {
    hide Sound, Ready, AfterSwapRateMode, StableDebtNow, UserStableDebt, VariableDebtBalance, InVariableDebt,
         SwapDefined;
    SwapValidExactly(s, r, u, mode, t);
  }

  predicate Grows(r: Reserve, next: Reserve) {
    && r.liquidityIndex <= next.liquidityIndex
    && r.variableBorrowIndex <= next.variableBorrowIndex
    && r.accruedToTreasuryScaled <= next.accruedToTreasuryScaled
    && r.reserveFactor == next.reserveFactor
    && r.marketStableRate == next.marketStableRate
  }

  lemma UpdatedGrows(r: Reserve, t: int)
    requires Sound(r) && t >= r.lastUpdateTimestamp
    ensures Grows(r, Updated(r, t))
  {
    hide RayMul, TotalStableDebt, AccruedToTreasury, NextLiquidityIndex, NextVariableBorrowIndex;
    UpdatedReady(r, t);
  }

  lemma LiquidityStepGrows(s: Strategy, r: Reserve, a: Action, t: int)
    requires ValidStrategy(s) && Sound(r) && Enabled(r, a, t)
    requires a.Deposit? || a.Withdraw? || a.MintUnbacked?
    ensures Grows(r, After(s, r, a, t)) && After(s, r, a, t).lastUpdateTimestamp == t
  {
    hide Sound, Updated, InterestRates, BorrowUtilization, SupplyUtilization, AverageStableRate, WithdrawnAmount, Ready;
    UpdatedGrows(r, t);
  }

  lemma BackStepGrows(s: Strategy, r: Reserve, supply: int, amount: int, fee: int, protocolFee: int, t: int)
    requires ValidStrategy(s) && Sound(r) && t >= r.lastUpdateTimestamp && CanBack(supply, amount, fee, protocolFee)
    ensures Grows(r, AfterBackUnbacked(s, supply, amount, fee, protocolFee, r, t))
    ensures AfterBackUnbacked(s, supply, amount, fee, protocolFee, r, t).lastUpdateTimestamp == t
  {
    hide Sound, Updated, InterestRates, BorrowUtilization, SupplyUtilization, AverageStableRate, CanBack, RayMul,
         RayDiv, PremiumToProtocol, CumulateToLiquidityIndex, Ready;
    UpdatedGrows(r, t);
    BackedReady(supply, amount, fee, protocolFee, r, t);
  }

  lemma DebtStepGrows(s: Strategy, r: Reserve, a: Action, t: int)
    requires ValidStrategy(s) && Sound(r) && Enabled(r, a, t)
    requires a.Borrow? || a.Repay? || a.Swap? || a.Rebalance?
    ensures Grows(r, After(s, r, a, t)) && After(s, r, a, t).lastUpdateTimestamp == t
  {
    hide Sound, Updated, InterestRates, BorrowUtilization, SupplyUtilization, AverageStableRate, RepaidAmount, CanRepay,
         CanSwap, Ready, RayMul, RayDiv, TotalStableDebt, NormalizedDebt, StableDebtTokenBalance, VariableDebtBalance,
         AverageStableRateRebalance;
    UpdatedGrows(r, t);
  }

  // ---------- Runs ----------

  /** Each step is enabled in the record its predecessors leave. */
  ghost predicate IsRun(s: Strategy, r: Reserve, steps: seq<Step>)
    requires ValidStrategy(s) && Sound(r)
    decreases |steps|
  {
    steps == [] ||
    (Enabled(r, steps[0].action, steps[0].time) &&
     (StepKeeps(s, r, steps[0].action, steps[0].time);
      IsRun(s, After(s, r, steps[0].action, steps[0].time), steps[1..])))
  }

  ghost function Final(s: Strategy, r: Reserve, steps: seq<Step>): Reserve
    requires ValidStrategy(s) && Sound(r) && IsRun(s, r, steps)
    decreases |steps|
  {
    if steps == [] then r
    else
      StepKeeps(s, r, steps[0].action, steps[0].time);
      Final(s, After(s, r, steps[0].action, steps[0].time), steps[1..])
  }

  /** Over every run the record stays sound, both indexes and the treasury never fall, and time never
      turns back. */
  lemma {:induction false} RunInvariant(s: Strategy, r: Reserve, steps: seq<Step>)
    requires ValidStrategy(s) && Sound(r) && IsRun(s, r, steps)
    ensures var end := Final(s, r, steps);
            && Sound(end) && Grows(r, end) && r.lastUpdateTimestamp <= end.lastUpdateTimestamp
    decreases |steps|
  {
    hide Sound, After;
    if steps != [] {
      var next := After(s, r, steps[0].action, steps[0].time);
      StepKeeps(s, r, steps[0].action, steps[0].time);
      RunInvariant(s, next, steps[1..]);
    }
  }

  /** Runs exist: a first deposit into an unused reserve. */
  lemma FirstDepositIsRun(s: Strategy, reserveFactor: int, marketStableRate: int, t: int, amount: nat)
    requires ValidStrategy(s) && 0 <= reserveFactor <= PERCENTAGE_FACTOR && marketStableRate >= 0
    ensures var r := FreshReserve(s, reserveFactor, marketStableRate, t);
            Sound(r) && IsRun(s, r, [Step(Deposit(amount), t)])
  {
    hide After;
    FreshReserveIsSound(s, reserveFactor, marketStableRate, t);
    var r := FreshReserve(s, reserveFactor, marketStableRate, t);
    StepKeeps(s, r, Deposit(amount), t);
    assert IsRun(s, After(s, r, Deposit(amount), t), []);
    assert [Step(Deposit(amount), t)][1..] == [];
  }
}
