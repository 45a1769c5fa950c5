/** Records whose rates belong to their debts: what the rates were set for, and that every action leaves such a
    record. */
module CurrentRates {
  import opened WadRayMath
  import opened Interest
  import opened RateStrategy
  import opened ReserveModel
  import opened ReserveActions
  import opened DebtActions
  import opened RepayActions
  import opened Balances
  import opened Runs
  import opened Treasury
  import opened Ledger

  function VariableAtLastUpdate(r: Reserve): int {
    RayMul(r.scaledVariableDebt, r.variableBorrowIndex)
  }

  /** A record whose rates were set for so much stable debt and for its variable debt at the last update. */
  ghost predicate RatesSetFor(s: Strategy, r: Reserve, stable: int) {
    && ValidStrategy(s) && Sound(r)
    && stable >= 0 && VariableAtLastUpdate(r) >= 0 && 0 <= r.availableLiquidity <= r.totalLiquidity
    && Rates(r.liquidityRate, r.stableBorrowRate, r.variableBorrowRate)
       == InterestRates(s, r.marketStableRate, stable, VariableAtLastUpdate(r), r.averageStableBorrowRate,
                        r.availableLiquidity, r.totalLiquidity)
  }

  /** A record whose rates were set for its debts at the last update. */
  ghost predicate RatesCurrent(s: Strategy, r: Reserve) {
    RatesSetFor(s, r, StableAtLastUpdate(r))
  }

  /** Its totals are its debts at the last update. */
  predicate TotalsCurrent(r: Reserve) {
    r.totalStableDebt == StableAtLastUpdate(r) && r.totalVariableDebt == VariableAtLastUpdate(r)
  }

  /** Everything suppliers may claim: liquidity, unbacked included, and debt. */
  function Claims(r: Reserve): int {
    r.totalLiquidity + StableAtLastUpdate(r) + VariableAtLastUpdate(r)
  }

  predicate UtilizationIsShare(r: Reserve)
    requires StableAtLastUpdate(r) >= 0 && VariableAtLastUpdate(r) >= 0 && 0 <= r.availableLiquidity <= r.totalLiquidity
  {
    var debt := StableAtLastUpdate(r) + VariableAtLastUpdate(r);
    SupplyUtilization(debt, r.availableLiquidity, r.totalLiquidity) == UncappedSupplyUtilization(debt, r.totalLiquidity)
  }

  lemma DepositLiquidity(s: Strategy, r: Reserve, amount: nat, t: int)
    requires ValidStrategy(s) && Sound(r) && t >= r.lastUpdateTimestamp
    ensures var next := After(s, r, Deposit(amount), t);
            next.availableLiquidity == r.availableLiquidity + amount && next.unbacked == Updated(r, t).unbacked
  {
    hide InterestRates, BorrowUtilization, SupplyUtilization, Updated, Sound, Ready;
  }

  lemma UnbackedOfSound(r: Reserve)
    requires Sound(r)
    ensures r.unbacked == 0 ==> r.totalLiquidity == r.availableLiquidity
  {
    hide Div;
  }

  // ---------- Every action sets current rates ----------

  lemma SettledIsCurrent(s: Strategy, e: Reserve, available: int, t: int, stableMoved: bool)
    requires ValidStrategy(s) && Ready(e, t) && available >= 0
    requires e.totalVariableDebt == RayMul(e.scaledVariableDebt, e.variableBorrowIndex)
    requires if stableMoved then e.totalStableDebt == e.principalStableDebt
             else e.totalStableDebt
                  == TotalStableDebt(e.principalStableDebt, e.averageStableBorrowRate, e.totalStableDebtLastUpdated, t)
    ensures var next := Settled(s, e, available, t, stableMoved);
            RatesCurrent(s, next) && TotalsCurrent(next)
  {
    hide InterestRates, BorrowUtilization, SupplyUtilization, RayMul, CalcCompoundedInterest, Sound;
    SettledValid(s, e, available, t, stableMoved);
    RayMulByRayAgain(e.principalStableDebt);
    NothingElapsed(e.averageStableBorrowRate, t);
    RayMulCommutes(e.principalStableDebt,
                   CalcCompoundedInterest(e.averageStableBorrowRate, t, e.totalStableDebtLastUpdated));
  }

  lemma RayMulByRayAgain(a: int)
    ensures a >= 0 ==> RayMul(a, RAY) == a
  {
    if a >= 0 { RayMulByRay(a); }
  }

  /** A variable borrow values the stable debt like a user's balance, which takes the timestamp zero for "never":
      that does not matter while the interest is under half a unit. */
  predicate StableTimeKnown(r: Reserve, a: Action, t: int) {
    a.Borrow? && a.mode.Variable? ==> BalanceSeesInterest(r.principalStableDebt, r.averageStableBorrowRate,
                                                          r.totalStableDebtLastUpdated, t)
  }

  /** The stable debt an action sets the rates for: the debt it leaves, at the transaction, but a variable borrow
      values it like a user's balance. */
  function RatedStable(r: Reserve, a: Action, next: Reserve, t: int): int {
    if a.Borrow? && a.mode.Variable? then
      StableDebtTokenBalance(r.principalStableDebt, r.averageStableBorrowRate, r.totalStableDebtLastUpdated, t)
    else StableAtLastUpdate(next)
  }

  /** Whatever the action, the record it leaves carries rates set for that stable debt and for exactly its variable
      debt at the transaction, also when a borrow ages the totals beyond that. The stable debt is the record's own
      if and only if no variable borrow meets a timestamp of zero with half a unit of interest behind it. */
  lemma ActionsSetRates(s: Strategy, r: Reserve, a: Action, t: int)
    requires ValidStrategy(s) && Sound(r) && Enabled(r, a, t)
    ensures var next := After(s, r, a, t);
            && RatesSetFor(s, next, RatedStable(r, a, next, t))
            && (RatedStable(r, a, next, t) == StableAtLastUpdate(next) <==> StableTimeKnown(r, a, t))
  {
    hide Sound, After, RatesSetFor, StableAtLastUpdate, StableDebtTokenBalance, BalanceSeesInterest, Enabled,
         AfterBorrow;
    if a.Borrow? {
      BorrowIsAfter(s, r, a, t);
      BorrowSetsRates(s, r, a.amount, a.mode, t, a.current);
    } else {
      OthersSetCurrentRates(s, r, a, t);
    }
  }

  lemma BorrowIsAfter(s: Strategy, r: Reserve, a: Action, t: int)
    requires ValidStrategy(s) && Sound(r) && Enabled(r, a, t) && a.Borrow?
    ensures r.lastUpdateTimestamp <= t <= a.current && 0 <= a.amount <= r.availableLiquidity
    ensures After(s, r, a, t) == AfterBorrow(s, r, a.amount, a.mode, t, a.current)
  {
    hide Sound, AfterBorrow, BorrowDefined, AgeDefined;
  }

  /** With that condition the rates are current. */
  lemma ActionsSetCurrentRates(s: Strategy, r: Reserve, a: Action, t: int)
    requires ValidStrategy(s) && Sound(r) && Enabled(r, a, t) && StableTimeKnown(r, a, t)
    ensures RatesCurrent(s, After(s, r, a, t))
  {
    hide Sound, After, RatesSetFor, StableAtLastUpdate, RatedStable, StableTimeKnown, Enabled;
    ActionsSetRates(s, r, a, t);
  }

  lemma OthersSetCurrentRates(s: Strategy, r: Reserve, a: Action, t: int)
    requires ValidStrategy(s) && Sound(r) && Enabled(r, a, t) && !a.Borrow?
    ensures RatesCurrent(s, After(s, r, a, t)) && TotalsCurrent(After(s, r, a, t))
  {
    hide Sound, Ready, Settled, Updated, WithUnbackedMinted, WithUnbackedBacked, WithRepaid, WithSwapped,
         WithRebalanced, WithdrawnAmount, RepaidAmount, UserStableDebt, StableDebtNow, VariableDebtBalance,
         BackingAmount, RatesCurrent, TotalsCurrent, TotalStableDebt, RayMul, RayDiv, CanRepay, CanSwap, CanBack;
    EnabledInTime(r, a, t);
    SoundAmounts(r);
    match a {
      case Deposit(amount) =>
        UpdatedReady(r, t);
        UpdatedTotals(r, t);
        SettledIsCurrent(s, Updated(r, t), r.availableLiquidity + amount, t, false);
      case Withdraw(amount, user) =>
        UpdatedReady(r, t);
        UpdatedTotals(r, t);
        SettledIsCurrent(s, Updated(r, t), r.availableLiquidity - WithdrawnAmount(r, user, amount, t), t, false);
      case MintUnbacked(amount) =>
        MintedReady(r, amount, t);
        MintedTotals(r, amount, t);
        SettledIsCurrent(s, WithUnbackedMinted(r, amount, t), r.availableLiquidity, t, false);
      case BackUnbacked(supply, amount, fee, protocolFee) =>
        BackingSetsCurrentRates(s, r, supply, amount, fee, protocolFee, t);
      case Repay(amount, mode, user) =>
        var repaid := RepaidAmount(r, user, amount, mode, t);
        RepaidReady(r, repaid, user.stableBorrowRate, mode, t);
        RepaidTotals(r, repaid, user.stableBorrowRate, mode, t);
        NonNegativeRepaid(r, repaid, mode, t);
        SettledIsCurrent(s, WithRepaid(r, repaid, user.stableBorrowRate, mode, t), r.availableLiquidity + repaid, t,
                         mode.Stable?);
      case Swap(mode, user) => SwapSetsCurrentRates(s, r, mode, user, t);
      case Rebalance(user) =>
        RebalancedReady(r, user, t);
        RebalancedTotals(r, user, t);
        SettledIsCurrent(s, WithRebalanced(r, UserStableDebt(user, t), user.stableBorrowRate, t), r.availableLiquidity,
                         t, true);
    }
  }

  lemma BorrowSetsRates(s: Strategy, r: Reserve, amount: int, mode: RateMode, t: int, current: int)
    requires ValidStrategy(s) && Sound(r) && r.lastUpdateTimestamp <= t <= current
    requires 0 <= amount <= r.availableLiquidity
    ensures var a, next := Borrow(amount, mode, current), AfterBorrow(s, r, amount, mode, t, current);
            && RatesSetFor(s, next, RatedStable(r, a, next, t))
            && (RatedStable(r, a, next, t) == StableAtLastUpdate(next) <==> StableTimeKnown(r, a, t))
  {
    hide Sound, Ready, Aged, RayMul, RatesSetFor, WithBorrowed, StableDebtAged, BalanceSeesInterest, TotalStableDebt,
         StableAtLastUpdate, StableDebtTokenBalance;
    BorrowValid(s, r, amount, mode, t, current);
    BorrowedReady(r, amount, mode, t, current);
    BorrowedStable(r, amount, mode, t);
    var e := WithBorrowed(r, amount, mode, t);
    AgedSetsRates(s, e, r.availableLiquidity - amount, StableDebtAged(r, e, mode, t, current), t, current,
                  mode.Stable?);
  }

  lemma AgedSetsRates(s: Strategy, e: Reserve, available: int, now: int, t: int, current: int, stableMoved: bool)
    requires ValidStrategy(s) && Ready(e, t) && available >= 0 && current >= t && now >= 0
    requires Sound(Aged(s, e, available, now, t, current, stableMoved))
    requires e.totalVariableDebt == RayMul(e.scaledVariableDebt, e.variableBorrowIndex)
    ensures var aged := Aged(s, e, available, now, t, current, stableMoved);
            && RatesSetFor(s, aged, e.totalStableDebt)
            && StableAtLastUpdate(aged)
               == if stableMoved then e.principalStableDebt
                  else TotalStableDebt(e.principalStableDebt, e.averageStableBorrowRate, e.totalStableDebtLastUpdated,
                                       t)
  {
    hide InterestRates, BorrowUtilization, SupplyUtilization, RayMul, CalcCompoundedInterest, Sound, NormalizedDebt;
    RayMulByRayAgain(e.principalStableDebt);
    NothingElapsed(e.averageStableBorrowRate, t);
    RayMulCommutes(e.principalStableDebt,
                   CalcCompoundedInterest(e.averageStableBorrowRate, t, e.totalStableDebtLastUpdated));
  }

  /** The debt a borrow sets the rates for is the debt it leaves, a variable borrow's if and only if both ways of
      valuing the stable debt agree. */
  lemma BorrowedStable(r: Reserve, amount: int, mode: RateMode, t: int)
    requires Sound(r) && t >= r.lastUpdateTimestamp
    ensures var e := WithBorrowed(r, amount, mode, t);
            && (mode.Stable? ==> e.totalStableDebt == e.principalStableDebt)
            && (mode.Variable? ==>
                  e.totalStableDebt == StableDebtTokenBalance(r.principalStableDebt, r.averageStableBorrowRate,
                                                              r.totalStableDebtLastUpdated, t))
            && (mode.Variable? ==>
                  (e.totalStableDebt
                   == TotalStableDebt(e.principalStableDebt, e.averageStableBorrowRate, e.totalStableDebtLastUpdated, t)
                   <==> BalanceSeesInterest(r.principalStableDebt, r.averageStableBorrowRate,
                                            r.totalStableDebtLastUpdated, t)))
  {
    hide RayMul, RayDiv, TotalStableDebt, Sound, Updated, BalanceSeesInterest, StableDebtTokenBalance,
         AverageStableRate;
    UpdatedDebts(r, t);
    SoundDebts(r);
    BalanceAgrees(r.principalStableDebt, r.averageStableBorrowRate, r.totalStableDebtLastUpdated, t);
  }

  lemma NonNegativeRepaid(r: Reserve, repaid: int, mode: RateMode, t: int)
    requires CanRepay(r, repaid, mode, t)
    ensures repaid >= 0
  {
    hide RayMul;
  }

  lemma UpdatedTotals(r: Reserve, t: int)
    requires Sound(r) && t >= r.lastUpdateTimestamp
    ensures var u := Updated(r, t);
            && u.totalVariableDebt == RayMul(u.scaledVariableDebt, u.variableBorrowIndex)
            && u.totalStableDebt
               == TotalStableDebt(u.principalStableDebt, u.averageStableBorrowRate, u.totalStableDebtLastUpdated, t)
  {
    hide RayMul, TotalStableDebt, AccruedToTreasury, NextVariableBorrowIndex;
    IndexesGrow(r, t);
  }

  lemma AverageWhileOwed(r: Reserve, t: int)
    requires Sound(r) && t >= r.lastUpdateTimestamp
    ensures var average := AverageStableRate(r.averageStableBorrowRate, r.totalStableDebt, 0, r.stableBorrowRate);
            TotalStableDebt(r.principalStableDebt, average, r.totalStableDebtLastUpdated, t)
            == TotalStableDebt(r.principalStableDebt, r.averageStableBorrowRate, r.totalStableDebtLastUpdated, t)
  {
    hide RayMul, CalcCompoundedInterest, AverageStableRate;
    SoundTotals(r);
    var average := AverageStableRate(r.averageStableBorrowRate, r.totalStableDebt, 0, r.stableBorrowRate);
    SameAverage(r.averageStableBorrowRate, r.totalStableDebt, r.stableBorrowRate);
    if r.principalStableDebt == 0 {
      var x, y := CalcCompoundedInterest(average, t, r.totalStableDebtLastUpdated),
                  CalcCompoundedInterest(r.averageStableBorrowRate, t, r.totalStableDebtLastUpdated);
      RayMulZero(x);
      RayMulZero(y);
      RayMulCommutes(0, x);
      RayMulCommutes(0, y);
    }
  }

  lemma SoundTotals(r: Reserve)
    requires Sound(r)
    ensures 0 <= r.principalStableDebt <= r.totalStableDebt && r.averageStableBorrowRate >= 0
  {
    hide Div;
  }

  lemma MintedTotals(r: Reserve, amount: int, t: int)
    requires Sound(r) && t >= r.lastUpdateTimestamp
    ensures var e := WithUnbackedMinted(r, amount, t);
            && e.totalVariableDebt == RayMul(e.scaledVariableDebt, e.variableBorrowIndex)
            && e.totalStableDebt
               == TotalStableDebt(e.principalStableDebt, e.averageStableBorrowRate, e.totalStableDebtLastUpdated, t)
  {
    hide RayMul, TotalStableDebt, AverageStableRate, Updated, Sound;
    UpdatedTotals(r, t);
    UpdatedDebts(r, t);
    AverageWhileOwed(r, t);
  }

  lemma BackingSetsCurrentRates(s: Strategy, r: Reserve, supply: int, amount: int, fee: int, protocolFee: int, t: int)
    requires ValidStrategy(s) && Sound(r) && t >= r.lastUpdateTimestamp && CanBack(supply, amount, fee, protocolFee)
    ensures var next := AfterBackUnbacked(s, supply, amount, fee, protocolFee, r, t);
            RatesCurrent(s, next) && TotalsCurrent(next)
  {
    hide RayMul, RayDiv, TotalStableDebt, AverageStableRate, Updated, Sound, Ready, Settled, RatesCurrent,
         TotalsCurrent, BackingAmount, PremiumToProtocol, CumulateToLiquidityIndex;
    SoundAmounts(r);
    BackedReady(supply, amount, fee, protocolFee, r, t);
    UpdatedTotals(r, t);
    UpdatedDebts(r, t);
    AverageWhileOwed(r, t);
    SettledIsCurrent(s, WithUnbackedBacked(supply, amount, fee, protocolFee, r, t),
                     r.availableLiquidity + BackingAmount(r, amount) + fee, t, false);
  }

  lemma RepaidTotals(r: Reserve, repaid: int, userRate: int, mode: RateMode, t: int)
    requires Sound(r) && t >= r.lastUpdateTimestamp
    ensures var e := WithRepaid(r, repaid, userRate, mode, t);
            && e.totalVariableDebt == RayMul(e.scaledVariableDebt, e.variableBorrowIndex)
            && if mode.Stable? then e.totalStableDebt == e.principalStableDebt
               else e.totalStableDebt
                    == TotalStableDebt(e.principalStableDebt, e.averageStableBorrowRate, e.totalStableDebtLastUpdated,
                                       t)
  {
    hide RayMul, RayDiv, TotalStableDebt, AverageStableRate, Updated, Sound;
    UpdatedTotals(r, t);
    UpdatedIndex(r, t);
  }

  lemma SwapSetsCurrentRates(s: Strategy, r: Reserve, mode: RateMode, user: User, t: int)
    requires ValidStrategy(s) && Sound(r) && Enabled(r, Swap(mode, user), t)
    ensures var next := AfterSwapRateMode(s, r, user, mode, t);
            RatesCurrent(s, next) && TotalsCurrent(next)
  {
    hide Sound, Ready, Settled, RatesCurrent, TotalsCurrent, RayMul, RayDiv, TotalStableDebt, AverageStableRate,
         Updated, VariableDebtBalance, UserStableDebt, StableDebtNow, CanSwap;
    SoundAmounts(r);
    SwappedDebts(r, user, mode, t);
    UpdatedIndex(r, t);
    if mode.Stable? {
      SwappedAverage(r, UserStableDebt(user, t), user.stableBorrowRate, t);
      AverageSign(r.averageStableBorrowRate, StableDebtNow(r, t), UserStableDebt(user, t), user.stableBorrowRate);
      SwapInBounds(r, user, t);
    }
    SettledIsCurrent(s, WithSwapped(r, user, mode, t), r.availableLiquidity, t, true);
  }

  lemma SwapInBounds(r: Reserve, user: User, t: int)
    requires CanSwap(r, user, Stable, t)
    ensures UserStableDebt(user, t) <= StableDebtNow(r, t)
  {
    hide RayMul, UserStableDebt, StableDebtNow;
  }

  lemma RebalancedTotals(r: Reserve, user: User, t: int)
    requires Sound(r) && t >= r.lastUpdateTimestamp
    ensures var e := WithRebalanced(r, UserStableDebt(user, t), user.stableBorrowRate, t);
            && e.totalVariableDebt == RayMul(e.scaledVariableDebt, e.variableBorrowIndex)
            && e.totalStableDebt == e.principalStableDebt
  {
    hide RayMul, RayDiv, TotalStableDebt, AverageStableRateRebalance, UserStableDebt, Updated, Sound;
    UpdatedTotals(r, t);
  }
}
