/** A single variable borrower against the reserve: the scaled debts stay equal through everything the borrower
    does, and so the source's borrow, which starts the user's debt from the reserve's, is right for that user. */
module SoleVariableBorrower {
  import opened WadRayMath
  import opened RateStrategy
  import opened ReserveModel
  import opened ReserveActions
  import opened DebtActions
  import opened RepayActions
  import opened UserModel
  import opened Balances
  import opened Runs
  import opened Treasury
  import opened Ledger

  /** What the borrower does on the borrower's own account, or others without touching the variable debt. */
  datatype Turn =
    | Supply(amount: int)
    | Redeem(amount: int)
    | Take(amount: int, mode: RateMode, current: int)
    | PayBack(amount: int, mode: RateMode)
    | Change(mode: RateMode)
    | Other(action: Action)

  function ActionOf(turn: Turn, u: User): Action {
    match turn
    case Supply(amount) => Deposit(amount)
    case Redeem(amount) => Withdraw(amount, u)
    case Take(amount, mode, current) => Borrow(amount, mode, current)
    case PayBack(amount, mode) => Repay(amount, mode, u)
    case Change(mode) => Swap(mode, u)
    case Other(action) => action
  }

  /** A stable borrow, and a swap into the stable mode, divide by the resulting stable debt. */
  predicate TurnEnabled(r: Reserve, u: User, turn: Turn, t: int) {
    && Enabled(r, ActionOf(turn, u), t)
    && match turn
       case Take(amount, mode, current) => mode.Stable? ==> UserStableDebt(u, t) + amount != 0
       case Change(mode) => mode.Variable? ==> UserStableDebt(u, t) + VariableDebtBalance(r, u, t) != 0
       case Other(a) => LeavesDebtsAlone(a) || ((a.Borrow? || a.Repay?) && a.mode.Stable?) || a.Rebalance?
       case _ => true
  }

  function UserAfterTurn(s: Strategy, r: Reserve, u: User, turn: Turn, t: int): User
    requires ValidStrategy(s) && Sound(r) && TurnEnabled(r, u, turn, t)
  {
    hide Enabled, After;
    var after := After(s, r, ActionOf(turn, u), t);
    AfterHasIndexes(s, r, ActionOf(turn, u), t);
    match turn
    case Supply(amount) => UserAfterDeposit(u, amount, r, after, t)
    case Redeem(amount) => UserAfterWithdraw(u, amount, r, after, t)
    case Take(amount, mode, current) => UserAfterBorrow(u, amount, mode, r, after, t, current)
    case PayBack(amount, mode) => UserAfterRepay(u, amount, mode, r, after, true, t, t)
    case Change(mode) => UserAfterSwapRateMode(u, mode, r, after, t)
    case Other(action) => u
  }

  lemma AfterHasIndexes(s: Strategy, r: Reserve, a: Action, t: int)
    requires ValidStrategy(s) && Sound(r) && Enabled(r, a, t)
    ensures var after := After(s, r, a, t);
            Sound(after) && after.liquidityIndex != 0 && after.variableBorrowIndex != 0
  {
    hide Enabled, After;
    StepKeeps(s, r, a, t);
  }

  /** Every turn keeps the scaled debts equal. */
  lemma TurnKeepsScaled(s: Strategy, r: Reserve, u: User, turn: Turn, t: int)
    requires ValidStrategy(s) && Sound(r) && TurnEnabled(r, u, turn, t)
    requires u.scaledVariableDebt == r.scaledVariableDebt
    ensures UserAfterTurn(s, r, u, turn, t).scaledVariableDebt
         == After(s, r, ActionOf(turn, u), t).scaledVariableDebt
  {
    hide Sound, AfterDeposit, AfterWithdraw, AfterMintUnbacked, AfterBackUnbacked, AfterBorrow, AfterRepay,
         AfterSwapRateMode, AfterStableRateRebalance, RepaidAmount, WithdrawnAmount, UserStableDebt, StableDebtNow,
         VariableDebtBalance, ATokenBalance, StableDebtTokenBalance, NextVariableBorrowIndex, RayMul, RayDiv,
         UserStableRate, Updated;
    AfterHasIndexes(s, r, ActionOf(turn, u), t);
    match turn {
      case Supply(amount) => LiquidityKeepsScaled(s, r, Deposit(amount), t);
      case Redeem(amount) => LiquidityKeepsScaled(s, r, Withdraw(amount, u), t);
      case Take(amount, mode, current) => BorrowDebts(s, r, amount, mode, t, current);
      case PayBack(amount, mode) => RepayDebts(s, r, u, amount, mode, t);
      case Change(mode) => SwapKeepsScaled(s, r, u, mode, t);
      case Other(a) => OtherKeepsScaled(s, r, a, t);
    }
  }

  lemma LiquidityKeepsScaled(s: Strategy, r: Reserve, a: Action, t: int)
    requires ValidStrategy(s) && Sound(r) && Enabled(r, a, t) && LeavesDebtsAlone(a)
    ensures After(s, r, a, t).scaledVariableDebt == r.scaledVariableDebt
  {
    hide Sound, After, Enabled, Updated;
    EnabledInTime(r, a, t);
    DebtFieldsKept(s, r, a, t);
    UpdatedDebts(r, t);
  }

  lemma SwapKeepsScaled(s: Strategy, r: Reserve, u: User, mode: RateMode, t: int)
    requires ValidStrategy(s) && Sound(r) && t >= r.lastUpdateTimestamp && CanSwap(r, u, mode, t)
    requires u.scaledVariableDebt == r.scaledVariableDebt
    requires mode.Variable? ==> UserStableDebt(u, t) + VariableDebtBalance(r, u, t) != 0
    ensures var next := AfterSwapRateMode(s, r, u, mode, t);
            && next.variableBorrowIndex != 0
            && UserAfterSwapRateMode(u, mode, r, next, t).scaledVariableDebt == next.scaledVariableDebt
  {
    hide Sound, AfterSwapRateMode, UserStableDebt, StableDebtNow, VariableDebtBalance, ATokenBalance,
         NextVariableBorrowIndex, RayMul, RayDiv, UserStableRate, CanSwap;
    SoundDebts(r);
    SwapDebts(s, r, u, mode, t);
    if mode.Variable? { VariableDebtScalesBack(r, u, t); }
  }

  lemma OtherKeepsScaled(s: Strategy, r: Reserve, a: Action, t: int)
    requires ValidStrategy(s) && Sound(r) && Enabled(r, a, t)
    requires LeavesDebtsAlone(a) || ((a.Borrow? || a.Repay?) && a.mode.Stable?) || a.Rebalance?
    ensures After(s, r, a, t).scaledVariableDebt == r.scaledVariableDebt
  {
    hide Sound, AfterDeposit, AfterWithdraw, AfterMintUnbacked, AfterBackUnbacked, AfterBorrow, AfterRepay,
         AfterSwapRateMode, AfterStableRateRebalance, RepaidAmount, WithdrawnAmount, UserStableDebt, StableDebtNow,
         NextVariableBorrowIndex, RayMul, RayDiv;
    match a {
      case Borrow(amount, mode, current) => BorrowDebts(s, r, amount, mode, t, current);
      case Repay(amount, mode, user) => RepayDebts(s, r, user, amount, mode, t);
      case Rebalance(user) => RebalanceKeepsScaled(s, r, user, t);
      case _ => LiquidityKeepsScaled(s, r, a, t);
    }
  }

  lemma RebalanceKeepsScaled(s: Strategy, r: Reserve, u: User, t: int)
    requires ValidStrategy(s) && Sound(r) && t >= r.lastUpdateTimestamp
    ensures AfterStableRateRebalance(s, r, u, t).scaledVariableDebt == r.scaledVariableDebt
  {
    hide InterestRates, BorrowUtilization, SupplyUtilization, BroughtUpTo, RayMul, RayDiv, AverageStableRateRebalance,
         UserStableDebt, StableDebtNow, Ready, Sound;
    UpdatedIndex(r, t);
  }

  // ---------- Histories ----------

  datatype TimedTurn = TimedTurn(turn: Turn, time: int)

  /** Each turn is enabled in the records its predecessors leave. */
  ghost predicate IsHistory(s: Strategy, r: Reserve, u: User, turns: seq<TimedTurn>)
    requires ValidStrategy(s) && Sound(r)
    decreases |turns|
  {
    turns == [] ||
    (var turn, t := turns[0].turn, turns[0].time;
     && TurnEnabled(r, u, turn, t)
     && (AfterHasIndexes(s, r, ActionOf(turn, u), t);
         IsHistory(s, After(s, r, ActionOf(turn, u), t), UserAfterTurn(s, r, u, turn, t), turns[1..])))
  }

  ghost function RecordsAfter(s: Strategy, r: Reserve, u: User, turns: seq<TimedTurn>): (Reserve, User)
    requires ValidStrategy(s) && Sound(r) && IsHistory(s, r, u, turns)
    decreases |turns|
  {
    if turns == [] then (r, u)
    else
      var turn, t := turns[0].turn, turns[0].time;
      AfterHasIndexes(s, r, ActionOf(turn, u), t);
      RecordsAfter(s, After(s, r, ActionOf(turn, u), t), UserAfterTurn(s, r, u, turn, t), turns[1..])
  }

  /** Over every history the borrower's scaled debt is the reserve's, so that at any later time the borrower's
      balance is the whole variable debt. */
  lemma {:induction false} ScaledDebtsAgree(s: Strategy, r: Reserve, u: User, turns: seq<TimedTurn>)
    requires ValidStrategy(s) && Sound(r) && IsHistory(s, r, u, turns)
    requires u.scaledVariableDebt == r.scaledVariableDebt
    ensures var (end, uEnd) := RecordsAfter(s, r, u, turns);
            && Sound(end) && uEnd.scaledVariableDebt == end.scaledVariableDebt
            && forall t :: t >= end.lastUpdateTimestamp ==>
                 VariableDebtBalance(end, uEnd, t) == RayMul(end.scaledVariableDebt, NextVariableBorrowIndex(end, t))
    decreases |turns|
  {
    hide Sound, After, UserAfterTurn, Enabled, VariableDebtBalance, NextVariableBorrowIndex, RayMul, UserStableDebt;
    var (end, uEnd) := RecordsAfter(s, r, u, turns);
    if turns != [] {
      var turn, t := turns[0].turn, turns[0].time;
      AfterHasIndexes(s, r, ActionOf(turn, u), t);
      TurnKeepsScaled(s, r, u, turn, t);
      ScaledDebtsAgree(s, After(s, r, ActionOf(turn, u), t), UserAfterTurn(s, r, u, turn, t), turns[1..]);
    } else {
      SoundDebts(end);
      forall t | t >= end.lastUpdateTimestamp
        ensures VariableDebtBalance(end, uEnd, t) == RayMul(end.scaledVariableDebt, NextVariableBorrowIndex(end, t))
      {
        VariableDebtScalesBack(end, uEnd, t);
      }
    }
  }
}
