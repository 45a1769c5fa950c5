/** A single stable borrower against the reserve: two records kept by different formulas, and by different
    guards, that never come apart. */
module SoleBorrower {
  import opened WadRayMath
  import opened Interest
  import opened RateStrategy
  import opened ReserveModel
  import opened ReserveActions
  import opened DebtActions
  import opened RepayActions
  import opened UserModel
  import opened Balances
  import opened SwapRoundTrip
  import opened Runs
  import opened Treasury
  import opened Ledger

  /** The user holds all the stable debt, at the average rate, since the reserve's own stable timestamp. */
  ghost predicate InStep(r: Reserve, u: User) {
    && u.principalStableDebt == r.principalStableDebt
    && (r.principalStableDebt != 0 ==>
          && u.stableBorrowRate == r.averageStableBorrowRate
          && u.stableRateLastUpdated == r.totalStableDebtLastUpdated != 0)
  }

  /** With equal principals, rates and timestamps both accrue the same debt, unless the timestamp is zero:
      the user's balance takes that for "never" and accrues nothing. The debts then agree exactly as long
      as the reserve's interest is under half a unit. */
  lemma SoleBorrowerDebtsAgree(b: Reserve, u: User, t: int)
    requires Sound(b) && t >= b.lastUpdateTimestamp
    requires u.principalStableDebt == b.principalStableDebt && u.stableBorrowRate == b.averageStableBorrowRate
    requires u.stableRateLastUpdated == b.totalStableDebtLastUpdated
    ensures var growth := CalcCompoundedInterest(b.averageStableBorrowRate, t, b.totalStableDebtLastUpdated) - RAY;
            UserStableDebt(u, t) == StableDebtNow(b, t)
            <==> b.totalStableDebtLastUpdated != 0 || 2 * (b.principalStableDebt * growth) < RAY
  {
    hide RayMul, Sound, CalcCompoundedInterest;
    SoundDebts(b);
    BalanceAgrees(b.principalStableDebt, b.averageStableBorrowRate, b.totalStableDebtLastUpdated, t);
  }

  /** In step, balance and total agree from the last update on. */
  lemma DebtsInStep(r: Reserve, u: User, t: int)
    requires Sound(r) && t >= r.lastUpdateTimestamp && InStep(r, u)
    ensures UserStableDebt(u, t) == StableDebtNow(r, t)
    ensures StableDebtNow(r, t) >= r.principalStableDebt >= 0
    ensures r.principalStableDebt == 0 ==> StableDebtNow(r, t) == 0
  {
    hide RayMul, CalcCompoundedInterest, Sound;
    SoundDebts(r);
    StableDebtGrows(r.principalStableDebt, r.averageStableBorrowRate, r.totalStableDebtLastUpdated, t, t);
    if r.principalStableDebt != 0 {
      SoleBorrowerDebtsAgree(r, u, t);
    } else {
      NoStableDebt(u, t);
      NothingOwedNow(r, t);
    }
  }

  // ---------- Turns ----------

  /** What the borrower does at a stable rate, or anyone else at none. */
  datatype Turn =
    | BorrowMore(amount: int, current: int)
    | BeRebalanced
    | PayBack(amount: int)
    | Other(action: Action)

  function ActionOf(turn: Turn, u: User): Action {
    match turn
    case BorrowMore(amount, current) => Borrow(amount, Stable, current)
    case BeRebalanced => Rebalance(u)
    case PayBack(amount) => Repay(amount, Stable, u)
    case Other(action) => action
  }

  /** The borrower repays no more than the debt, and a borrow leaves some debt to divide by. */
  predicate TurnEnabled(r: Reserve, u: User, turn: Turn, t: int) {
    && Enabled(r, ActionOf(turn, u), t)
    && match turn
       case BorrowMore(amount, current) => t != 0 && UserStableDebt(u, t) + amount != 0
       case BeRebalanced => t != 0
       case PayBack(amount) => t != 0 && RepaidAmount(r, u, amount, Stable, t) <= UserStableDebt(u, t)
       case Other(a) => LeavesDebtsAlone(a) || ((a.Borrow? || a.Repay?) && a.mode.Variable?)
  }

  function UserAfterTurn(s: Strategy, r: Reserve, u: User, turn: Turn, t: int): User
    requires ValidStrategy(s) && Sound(r) && TurnEnabled(r, u, turn, t)
  {
    var after := After(s, r, ActionOf(turn, u), t);
    AfterHasIndex(s, r, ActionOf(turn, u), t);
    match turn
    case BorrowMore(amount, current) => UserAfterBorrow(u, amount, Stable, r, after, t, current)
    case BeRebalanced => UserAfterStableRateRebalance(u, r, after, t)
    case PayBack(amount) => UserAfterRepay(u, amount, Stable, r, after, true, t, t)
    case Other(action) => u
  }

  lemma AfterHasIndex(s: Strategy, r: Reserve, a: Action, t: int)
    requires ValidStrategy(s) && Sound(r) && Enabled(r, a, t)
    ensures Sound(After(s, r, a, t)) && After(s, r, a, t).variableBorrowIndex != 0
  {
    hide Enabled, After;
    StepKeeps(s, r, a, t);
  }

  /** Every turn keeps the two in step: the user's rate formula, the reserve's average, the two-step
      rebalancing and the clamped repayment come to the same principal, rate and timestamp. */
  lemma TurnKeepsStep(s: Strategy, r: Reserve, u: User, turn: Turn, t: int)
    requires ValidStrategy(s) && Sound(r) && TurnEnabled(r, u, turn, t) && InStep(r, u)
    ensures InStep(After(s, r, ActionOf(turn, u), t), UserAfterTurn(s, r, u, turn, t))
    ensures turn.PayBack? ==>
              After(s, r, ActionOf(turn, u), t).principalStableDebt
              == StableDebtNow(r, t) - RepaidAmount(r, u, turn.amount, Stable, t)
  {
    hide Sound, AfterBorrow, AfterRepay, AfterStableRateRebalance, UserAfterBorrow, UserAfterRepay,
         UserAfterStableRateRebalance, RepaidAmount, UserStableDebt, StableDebtNow, NextVariableBorrowIndex, RayMul,
         InStep;
    AfterHasIndex(s, r, ActionOf(turn, u), t);
    match turn {
      case BorrowMore(amount, current) => BorrowKeepsStep(s, r, u, amount, t, current);
      case BeRebalanced => RebalanceKeepsStep(s, r, u, t);
      case PayBack(amount) => PayBackKeepsStep(s, r, u, amount, t);
      case Other(a) => OtherKeepsStep(s, r, u, a, t);
    }
  }

  lemma BorrowKeepsStep(s: Strategy, r: Reserve, u: User, amount: int, t: int, current: int)
    requires ValidStrategy(s) && Sound(r) && InStep(r, u) && t != 0
    requires r.lastUpdateTimestamp <= t <= current && 0 <= amount <= r.availableLiquidity
    requires UserStableDebt(u, t) + amount != 0
    ensures var next := AfterBorrow(s, r, amount, Stable, t, current);
            next.variableBorrowIndex != 0 && InStep(next, UserAfterBorrow(u, amount, Stable, r, next, t, current))
  {
    hide AfterBorrow, UserStableDebt, StableDebtNow, AverageStableRate, UserStableRate, StableDebtTokenBalance,
         NormalizedDebt, NormalizedIncome, RayMul, RayDiv, Sound;
    DebtsInStep(r, u, t);
    BorrowDebts(s, r, amount, Stable, t, current);
    BorrowAverage(s, r, amount, t, current);
    SameMean(StableDebtNow(r, t), u.stableBorrowRate, r.averageStableBorrowRate, amount, r.stableBorrowRate);
  }

  lemma BorrowAverage(s: Strategy, r: Reserve, amount: int, t: int, current: int)
    requires ValidStrategy(s) && Sound(r)
    requires r.lastUpdateTimestamp <= t <= current && 0 <= amount <= r.availableLiquidity
    ensures AfterBorrow(s, r, amount, Stable, t, current).averageStableBorrowRate
         == AverageStableRate(r.averageStableBorrowRate, StableDebtNow(r, t), amount, r.stableBorrowRate)
  {
    hide InterestRates, BorrowUtilization, SupplyUtilization, BroughtUpTo, NextVariableBorrowIndex, TotalStableDebt,
         NormalizedDebt, RayMul, RayDiv, AverageStableRate, StableDebtTokenBalance, Ready, Sound;
  }

  lemma SameMean(debt: int, userRate: int, average: int, amount: int, rate: int)
    requires debt + amount != 0 && (debt != 0 ==> userRate == average)
    ensures UserStableRate(debt, userRate, amount, rate) == AverageStableRate(average, debt, amount, rate)
  {
    assert debt * userRate == average * debt by {
      if debt == 0 { assert 0 * userRate == 0 == average * 0; }
    }
    assert amount * rate == rate * amount;
  }

  lemma RebalanceKeepsStep(s: Strategy, r: Reserve, u: User, t: int)
    requires ValidStrategy(s) && Sound(r) && InStep(r, u) && t >= r.lastUpdateTimestamp && t != 0
    ensures var next := AfterStableRateRebalance(s, r, u, t);
            && InStep(next, UserAfterStableRateRebalance(u, r, next, t))
            && (StableDebtNow(r, t) >= WAD ==> next.averageStableBorrowRate == r.stableBorrowRate)
  {
    hide InterestRates, BorrowUtilization, SupplyUtilization, BroughtUpTo, RayMul, RayDiv, AverageStableRateRebalance,
         UserStableDebt, StableDebtNow, VariableDebtBalance, ATokenBalance, Ready, Sound;
    DebtsInStep(r, u, t);
    if StableDebtNow(r, t) >= WAD { SoleBorrowerRebalance(r, UserStableDebt(u, t), u.stableBorrowRate, t); }
  }

  lemma PayBackKeepsStep(s: Strategy, r: Reserve, u: User, amount: int, t: int)
    requires ValidStrategy(s) && Sound(r) && InStep(r, u) && t >= r.lastUpdateTimestamp && t != 0
    requires 0 <= RepaidAmount(r, u, amount, Stable, t) <= UserStableDebt(u, t)
    ensures var next := AfterRepay(s, r, u, amount, Stable, t);
            && next.variableBorrowIndex != 0
            && InStep(next, UserAfterRepay(u, amount, Stable, r, next, true, t, t))
            && next.principalStableDebt == StableDebtNow(r, t) - RepaidAmount(r, u, amount, Stable, t)
  {
    hide AfterRepay, UserStableDebt, StableDebtNow, AverageStableRate, VariableDebtBalance, ATokenBalance, RayMul,
         RayDiv, Sound, RepaidAmount;
    var repaid, debt := RepaidAmount(r, u, amount, Stable, t), StableDebtNow(r, t);
    DebtsInStep(r, u, t);
    SoundDebts(r);
    UnchangedMean(r.averageStableBorrowRate, debt, repaid, u.stableBorrowRate);
    RepayDebts(s, r, u, amount, Stable, t);
    RepayAverage(s, r, u, amount, t);
  }

  /** Taking out debt at the average rate leaves the average, without rounding, until nothing is left. */
  lemma UnchangedMean(average: int, debt: int, repaid: int, rate: int)
    requires 0 <= repaid <= debt && average >= 0 && (debt != 0 ==> rate == average)
    ensures AverageStableRate(average, debt, Negated(repaid), rate) == if repaid == debt then 0 else average
  {
    if repaid < debt {
      assert average * debt + average * Negated(repaid) == (debt - repaid) * average;
      ExactMean(debt - repaid, average);
    }
  }

  lemma RepayAverage(s: Strategy, r: Reserve, u: User, amount: int, t: int)
    requires ValidStrategy(s) && Sound(r) && t >= r.lastUpdateTimestamp
    requires CanRepay(r, RepaidAmount(r, u, amount, Stable, t), Stable, t)
    requires RepaidAmount(r, u, amount, Stable, t) <= StableDebtNow(r, t)
    ensures var average := AverageStableRate(r.averageStableBorrowRate, StableDebtNow(r, t),
                                             Negated(RepaidAmount(r, u, amount, Stable, t)), u.stableBorrowRate);
            average >= 0 ==> AfterRepay(s, r, u, amount, Stable, t).averageStableBorrowRate == average
  {
    hide InterestRates, BorrowUtilization, SupplyUtilization, BroughtUpTo, NextVariableBorrowIndex, TotalStableDebt,
         RayMul, RayDiv, AverageStableRate, RepaidAmount, Ready, Sound;
  }

  lemma OtherKeepsStep(s: Strategy, r: Reserve, u: User, a: Action, t: int)
    requires ValidStrategy(s) && Sound(r) && InStep(r, u) && Enabled(r, a, t)
    requires LeavesDebtsAlone(a) || ((a.Borrow? || a.Repay?) && a.mode.Variable?)
    ensures InStep(After(s, r, a, t), u)
  {
    hide AfterBorrow, AfterRepay, Sound, RepaidAmount, RayMul, RayDiv, NextVariableBorrowIndex, StableDebtNow, Updated,
         AfterDeposit, AfterWithdraw, AfterMintUnbacked, AfterBackUnbacked;
    match a {
      case Borrow(amount, mode, current) => BorrowDebts(s, r, amount, mode, t, current);
      case Repay(amount, mode, user) => RepayDebts(s, r, user, amount, mode, t);
      case _ =>
        EnabledInTime(r, a, t);
        DebtFieldsKept(s, r, a, t);
        UpdatedDebts(r, t);
    }
  }

  // ---------- Histories ----------

  datatype TimedTurn = TimedTurn(turn: Turn, time: int)

  /** Each turn is enabled in the records its predecessors leave. */
  ghost predicate IsHistory(s: Strategy, r: Reserve, u: User, turns: seq<TimedTurn>)
    requires ValidStrategy(s) && Sound(r)
    decreases |turns|
  {
    turns == [] ||
    (var turn, t := turns[0].turn, turns[0].time;
     && TurnEnabled(r, u, turn, t)
     && (AfterHasIndex(s, r, ActionOf(turn, u), t);
         IsHistory(s, After(s, r, ActionOf(turn, u), t), UserAfterTurn(s, r, u, turn, t), turns[1..])))
  }

  ghost function RecordsAfter(s: Strategy, r: Reserve, u: User, turns: seq<TimedTurn>): (Reserve, User)
    requires ValidStrategy(s) && Sound(r) && IsHistory(s, r, u, turns)
    decreases |turns|
  {
    if turns == [] then (r, u)
    else
      var turn, t := turns[0].turn, turns[0].time;
      AfterHasIndex(s, r, ActionOf(turn, u), t);
      RecordsAfter(s, After(s, r, ActionOf(turn, u), t), UserAfterTurn(s, r, u, turn, t), turns[1..])
  }

  /** Over every history of one stable borrower's turns and anyone's others, the borrower's principal, rate and
      timestamp are the reserve's, so that at any later time the borrower's balance is the whole stable debt. */
  lemma {:induction false} AlwaysInStep(s: Strategy, r: Reserve, u: User, turns: seq<TimedTurn>)
    requires ValidStrategy(s) && Sound(r) && InStep(r, u) && IsHistory(s, r, u, turns)
    ensures var (end, uEnd) := RecordsAfter(s, r, u, turns);
            && Sound(end) && InStep(end, uEnd)
            && forall t :: t >= end.lastUpdateTimestamp ==> UserStableDebt(uEnd, t) == StableDebtNow(end, t)
    decreases |turns|
  {
    hide Sound, After, UserAfterTurn, Enabled, InStep, UserStableDebt, StableDebtNow, RepaidAmount;
    var (end, uEnd) := RecordsAfter(s, r, u, turns);
    if turns != [] {
      var turn, t := turns[0].turn, turns[0].time;
      AfterHasIndex(s, r, ActionOf(turn, u), t);
      TurnKeepsStep(s, r, u, turn, t);
      AlwaysInStep(s, After(s, r, ActionOf(turn, u), t), UserAfterTurn(s, r, u, turn, t), turns[1..]);
    } else {
      forall t | t >= end.lastUpdateTimestamp ensures UserStableDebt(uEnd, t) == StableDebtNow(end, t) {
        DebtsInStep(end, uEnd, t);
      }
    }
  }
}
