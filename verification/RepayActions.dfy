/** Repaying, swapping between the rate modes, and rebalancing a stable position. */
module RepayActions {
  import opened WadRayMath
  import opened RateStrategy
  import opened ReserveModel
  import opened ReserveActions
  import opened DebtActions

  // ---------- Repay ----------

  function RepaidAmount(b: Reserve, u: User, amount: int, mode: RateMode, t: int): int {
    if Abs(amount) == MAX_UINT_AMOUNT then
      if mode.Stable? then UserStableDebt(u, t) else VariableDebtBalance(b, u, t)
    else amount
  }

  /** The total stable debt accrued to t. */
  function StableDebtNow(b: Reserve, t: int): int {
    TotalStableDebt(b.principalStableDebt, b.averageStableBorrowRate, b.totalStableDebtLastUpdated, t)
  }

  /** Both clamps of a stable repayment: a negative total, or a negative average, erases what is left. */
  function WithStableRepaid(b: Reserve, repaid: int, userRate: int, t: int): Reserve
    requires Sound(b) && t >= b.lastUpdateTimestamp
  {
    var debt := StableDebtNow(b, t);
    var average := AverageStableRate(b.averageStableBorrowRate, debt, Negated(repaid), userRate);
    var erased := debt - repaid < 0 || average < 0;
    Updated(b, t).(
      principalStableDebt := if erased then 0 else debt - repaid,
      totalStableDebt := if erased then 0 else debt - repaid,
      averageStableBorrowRate := if erased then 0 else average)
  }

  function WithVariableRepaid(b: Reserve, repaid: int, t: int): Reserve
    requires Sound(b) && t >= b.lastUpdateTimestamp
  {
    var u := Updated(b, t);
    UpdatedReady(b, t);
    var scaled := b.scaledVariableDebt - RayDiv(repaid, u.variableBorrowIndex);
    u.(scaledVariableDebt := scaled, totalVariableDebt := RayMul(scaled, u.variableBorrowIndex))
  }

  /** The amount, scaled down, is within the reserve's scaled variable debt. */
  predicate InVariableDebt(b: Reserve, amount: int, t: int) {
    NextVariableBorrowIndex(b, t) != 0 && RayDiv(amount, NextVariableBorrowIndex(b, t)) <= b.scaledVariableDebt
  }

  /** A variable repayment stays within the variable debt; a stable one may exceed the stable debt. */
  predicate CanRepay(b: Reserve, repaid: int, mode: RateMode, t: int) {
    repaid >= 0 && (mode.Variable? ==> InVariableDebt(b, repaid, t))
  }

  function WithRepaid(b: Reserve, repaid: int, userRate: int, mode: RateMode, t: int): Reserve
    requires Sound(b) && t >= b.lastUpdateTimestamp
  {
    if mode.Stable? then WithStableRepaid(b, repaid, userRate, t) else WithVariableRepaid(b, repaid, t)
  }

  /** The calculation divides by nothing that is zero, before or after the debt is taken down. It asks for no
      more than that; a repayment that keeps within the debt always meets it. */
  predicate RepayDefined(s: Strategy, b: Reserve, u: User, amount: int, mode: RateMode, t: int)
    requires Sound(b) && t >= b.lastUpdateTimestamp
    ensures CanRepay(b, RepaidAmount(b, u, amount, mode, t), mode, t) ==> RepayDefined(s, b, u, amount, mode, t)
  {
    var repaid := RepaidAmount(b, u, amount, mode, t);
    RepaidSettleable(s, b, repaid, u.stableBorrowRate, mode, t);
    && Measurable(Updated(b, t), b.availableLiquidity + repaid)
    && Settleable(s, WithRepaid(b, repaid, u.stableBorrowRate, mode, t), b.availableLiquidity + repaid)
  }

  lemma RepaidSettleable(s: Strategy, b: Reserve, repaid: int, userRate: int, mode: RateMode, t: int)
    requires Sound(b) && t >= b.lastUpdateTimestamp
    ensures CanRepay(b, repaid, mode, t) ==>
              && Measurable(Updated(b, t), b.availableLiquidity + repaid)
              && Settleable(s, WithRepaid(b, repaid, userRate, mode, t), b.availableLiquidity + repaid)
  {
    hide InVariableDebt, RayMul, RayDiv, AverageStableRate, BroughtUpTo, WithRepaid;
    UpdatedReady(b, t);
    if CanRepay(b, repaid, mode, t) { RepaidReady(b, repaid, userRate, mode, t); }
  }

  function AfterRepay(s: Strategy, b: Reserve, u: User, amount: int, mode: RateMode, t: int): Reserve
    requires ValidStrategy(s) && Sound(b) && t >= b.lastUpdateTimestamp && RepayDefined(s, b, u, amount, mode, t)
  {
    var repaid := RepaidAmount(b, u, amount, mode, t);
    Settled(s, WithRepaid(b, repaid, u.stableBorrowRate, mode, t), b.availableLiquidity + repaid, t, mode.Stable?)
  }

  /** For any amount and any user rate the clamps leave principal, total and average non-negative. */
  lemma StableRepaidReady(b: Reserve, repaid: int, userRate: int, t: int)
    requires Sound(b) && t >= b.lastUpdateTimestamp
    ensures Ready(WithStableRepaid(b, repaid, userRate, t), t)
  {
    hide RayMul, RayDiv, AverageStableRate, TotalStableDebt;
    UpdatedReady(b, t);
  }

  /** A variable repayment, of any amount, leaves a record in order exactly if the debt contains it: nothing
      else caps it. */
  lemma VariableRepaidReady(b: Reserve, repaid: int, t: int)
    requires Sound(b) && t >= b.lastUpdateTimestamp
    ensures Ready(WithVariableRepaid(b, repaid, t), t) <==> InVariableDebt(b, repaid, t)
  {
    hide RayMul, RayDiv;
    UpdatedReady(b, t);
    var index := NextVariableBorrowIndex(b, t);
    var left := b.scaledVariableDebt - RayDiv(repaid, index);
    if left >= 0 { ScaledDebtUp(left, index); }
  }

  lemma RepaidReady(b: Reserve, repaid: int, userRate: int, mode: RateMode, t: int)
    requires Sound(b) && t >= b.lastUpdateTimestamp && CanRepay(b, repaid, mode, t)
    ensures Ready(WithRepaid(b, repaid, userRate, mode, t), t)
  {
    hide WithStableRepaid, WithVariableRepaid, Ready, InVariableDebt;
    if mode.Stable? { StableRepaidReady(b, repaid, userRate, t); } else { VariableRepaidReady(b, repaid, t); }
  }

  /** Nothing in the calculation caps a repayment: it keeps the reserve sound exactly if it keeps within the
      variable debt, or goes to the stable debt, whose clamps take any amount. */
  lemma RepayValidExactly(s: Strategy, b: Reserve, u: User, amount: int, mode: RateMode, t: int)
    requires ValidStrategy(s) && Sound(b) && t >= b.lastUpdateTimestamp && RepayDefined(s, b, u, amount, mode, t)
    requires RepaidAmount(b, u, amount, mode, t) >= 0
    ensures Sound(AfterRepay(s, b, u, amount, mode, t)) <==> CanRepay(b, RepaidAmount(b, u, amount, mode, t), mode, t)
  {
    hide Sound, Ready, WithRepaid, Settled, RepaidAmount, InVariableDebt, RepayDefined;
    var repaid := RepaidAmount(b, u, amount, mode, t);
    if CanRepay(b, repaid, mode, t) {
      RepayValid(s, b, u, amount, mode, t);
    } else {
      OverRepaid(b, repaid, u.stableBorrowRate, t);
      RepayKeepsScaled(s, b, u, amount, mode, t);
      SoundDebtsOf(AfterRepay(s, b, u, amount, mode, t));
    }
  }

  lemma OverRepaid(b: Reserve, repaid: int, userRate: int, t: int)
    requires Sound(b) && t >= b.lastUpdateTimestamp && !InVariableDebt(b, repaid, t)
    ensures WithRepaid(b, repaid, userRate, Variable, t).scaledVariableDebt < 0
  {
    hide RayMul, RayDiv;
    UpdatedReady(b, t);
  }

  lemma RepayKeepsScaled(s: Strategy, b: Reserve, u: User, amount: int, mode: RateMode, t: int)
    requires ValidStrategy(s) && Sound(b) && t >= b.lastUpdateTimestamp && RepayDefined(s, b, u, amount, mode, t)
    ensures var e := WithRepaid(b, RepaidAmount(b, u, amount, mode, t), u.stableBorrowRate, mode, t);
            AfterRepay(s, b, u, amount, mode, t).scaledVariableDebt == e.scaledVariableDebt
  {
    hide InterestRates, BorrowUtilization, SupplyUtilization, WithRepaid, RepaidAmount, Sound, InVariableDebt,
         BroughtUpTo;
  }

  lemma RepayValid(s: Strategy, b: Reserve, u: User, amount: int, mode: RateMode, t: int)
    requires ValidStrategy(s) && Sound(b) && t >= b.lastUpdateTimestamp
    requires CanRepay(b, RepaidAmount(b, u, amount, mode, t), mode, t)
    ensures Sound(AfterRepay(s, b, u, amount, mode, t))
  {
    hide Sound, Ready, WithRepaid, Settled, RepaidAmount;
    var repaid := RepaidAmount(b, u, amount, mode, t);
    SoundDebts(b);
    RepaidReady(b, repaid, u.stableBorrowRate, mode, t);
    SettledValid(s, WithRepaid(b, repaid, u.stableBorrowRate, mode, t), b.availableLiquidity + repaid, t, mode.Stable?);
  }

  // ---------- Swap ----------

  /** The user's stable debt becomes variable. Unlike a repayment this has no clamps. */
  function WithSwappedToVariable(b: Reserve, stableDebt: int, userRate: int, t: int): Reserve
    requires Sound(b) && t >= b.lastUpdateTimestamp
  {
    var u := Updated(b, t);
    UpdatedReady(b, t);
    var scaled := b.scaledVariableDebt + RayDiv(stableDebt, u.variableBorrowIndex);
    u.(
      scaledVariableDebt := scaled,
      totalVariableDebt := RayMul(scaled, u.variableBorrowIndex),
      principalStableDebt := u.totalStableDebt - stableDebt,
      totalStableDebt := u.totalStableDebt - stableDebt,
      averageStableBorrowRate :=
        AverageStableRate(b.averageStableBorrowRate, u.totalStableDebt - stableDebt + stableDebt,
                          Negated(stableDebt), userRate))
  }

  function WithSwappedToStable(b: Reserve, variableDebt: int, t: int): Reserve
    requires Sound(b) && t >= b.lastUpdateTimestamp
  {
    var u := Updated(b, t);
    UpdatedReady(b, t);
    var scaled := b.scaledVariableDebt - RayDiv(variableDebt, u.variableBorrowIndex);
    u.(
      principalStableDebt := u.totalStableDebt + variableDebt,
      totalStableDebt := u.totalStableDebt + variableDebt,
      scaledVariableDebt := scaled,
      totalVariableDebt := RayMul(scaled, u.variableBorrowIndex),
      averageStableBorrowRate :=
        AverageStableRate(b.averageStableBorrowRate, b.totalStableDebt, variableDebt, b.stableBorrowRate))
  }

  /** A swap moves a debt the reserve's own total contains. */
  predicate CanSwap(b: Reserve, u: User, mode: RateMode, t: int) {
    if mode.Stable? then
      0 <= UserStableDebt(u, t) <= StableDebtNow(b, t)
    else
      0 <= VariableDebtBalance(b, u, t) && InVariableDebt(b, VariableDebtBalance(b, u, t), t)
  }

  function WithSwapped(b: Reserve, u: User, mode: RateMode, t: int): Reserve
    requires Sound(b) && t >= b.lastUpdateTimestamp
  {
    if mode.Stable? then WithSwappedToVariable(b, UserStableDebt(u, t), u.stableBorrowRate, t)
    else WithSwappedToStable(b, VariableDebtBalance(b, u, t), t)
  }

  /** No divisor is zero for the debts the swap leaves. */
  predicate SwapDefined(s: Strategy, b: Reserve, u: User, mode: RateMode, t: int)
    requires Sound(b) && t >= b.lastUpdateTimestamp
    ensures CanSwap(b, u, mode, t) ==> SwapDefined(s, b, u, mode, t)
  {
    SwappedSettleable(s, b, u, mode, t);
    Settleable(s, WithSwapped(b, u, mode, t), b.availableLiquidity)
  }

  lemma SwappedSettleable(s: Strategy, b: Reserve, u: User, mode: RateMode, t: int)
    requires Sound(b) && t >= b.lastUpdateTimestamp
    ensures CanSwap(b, u, mode, t) ==> Settleable(s, WithSwapped(b, u, mode, t), b.availableLiquidity)
  {
    hide CanSwap, WithSwapped, Sound, Ready;
    if CanSwap(b, u, mode, t) { SwappedDebts(b, u, mode, t); }
  }

  /** `mode` is the mode the user leaves. */
  function AfterSwapRateMode(s: Strategy, b: Reserve, u: User, mode: RateMode, t: int): Reserve
    requires ValidStrategy(s) && Sound(b) && t >= b.lastUpdateTimestamp && SwapDefined(s, b, u, mode, t)
  {
    Settled(s, WithSwapped(b, u, mode, t), b.availableLiquidity, t, true)
  }

  /** Swapped debts are in place; only the average may have gone negative, when the user leaves the
      stable mode. */
  lemma SwappedDebts(b: Reserve, u: User, mode: RateMode, t: int)
    requires Sound(b) && t >= b.lastUpdateTimestamp && CanSwap(b, u, mode, t)
    ensures var e := WithSwapped(b, u, mode, t);
            && e.totalStableDebt >= 0 && e.totalVariableDebt >= 0 && e.unbacked >= 0 && b.availableLiquidity >= 0
            && (Ready(e, t) <==> e.averageStableBorrowRate >= 0)
            && (mode.Variable? ==> e.averageStableBorrowRate >= 0)
  {
    hide RayMul, RayDiv, AverageStableRate, TotalStableDebt, UserStableDebt, VariableDebtBalance;
    UpdatedReady(b, t);
    var index := NextVariableBorrowIndex(b, t);
    if mode.Stable? {
      var debt := UserStableDebt(u, t);
      RayDivMonotone(debt, index, debt, index);
      ScaledDebtUp(b.scaledVariableDebt + RayDiv(debt, index), index);
    } else {
      var debt := VariableDebtBalance(b, u, t);
      ScaledDebtUp(b.scaledVariableDebt - RayDiv(debt, index), index);
      AverageNonNegative(b.averageStableBorrowRate, b.totalStableDebt, debt, b.stableBorrowRate);
    }
  }

  /** Nothing caps a swap either: the debts it leaves are in order exactly if the reserve's own contains the
      user's. */
  lemma SwapLeavesDebtsExactly(b: Reserve, u: User, mode: RateMode, t: int)
    requires Sound(b) && t >= b.lastUpdateTimestamp
    requires if mode.Stable? then UserStableDebt(u, t) >= 0 else VariableDebtBalance(b, u, t) >= 0
    ensures var e := WithSwapped(b, u, mode, t);
            0 <= e.principalStableDebt && 0 <= e.scaledVariableDebt <==> CanSwap(b, u, mode, t)
  {
    hide RayMul, RayDiv, AverageStableRate, TotalStableDebt, UserStableDebt, VariableDebtBalance;
    UpdatedReady(b, t);
    var index := NextVariableBorrowIndex(b, t);
    if mode.Stable? {
      RayDivMonotone(UserStableDebt(u, t), index, UserStableDebt(u, t), index);
    } else {
      TotalStableNonNegative(b, t);
    }
  }

  lemma TotalStableNonNegative(b: Reserve, t: int)
    requires Sound(b) && t >= b.lastUpdateTimestamp
    ensures Updated(b, t).totalStableDebt == StableDebtNow(b, t) >= 0
  {
    hide RayMul, RayDiv, TotalStableDebt;
    UpdatedReady(b, t);
  }

  /** Entering the stable mode keeps the record sound exactly when the reserve's debt contains the user's.
      Leaving it asks more: the user's part of the weighted stable rate must exceed the whole by less than the
      remaining debt, so that truncation still brings the average back to zero. */
  lemma SwapValidExactly(s: Strategy, b: Reserve, u: User, mode: RateMode, t: int)
    requires ValidStrategy(s) && Sound(b) && t >= b.lastUpdateTimestamp && SwapDefined(s, b, u, mode, t)
    requires if mode.Stable? then UserStableDebt(u, t) >= 0 else VariableDebtBalance(b, u, t) >= 0
    ensures var total, debt := StableDebtNow(b, t), UserStableDebt(u, t);
            Sound(AfterSwapRateMode(s, b, u, mode, t))
            <==> (&& CanSwap(b, u, mode, t)
                  && (mode.Stable? ==>
                        total == debt || u.stableBorrowRate * debt - b.averageStableBorrowRate * total < total - debt))
  {
    hide Sound, Ready, WithSwapped, Settled, StableDebtNow, UserStableDebt, AverageStableRate, VariableDebtBalance,
         CanSwap;
    SwapLeavesDebtsExactly(b, u, mode, t);
    SoundDebts(b);
    SwapKeepsDebts(s, b, u, mode, t);
    SoundDebtsOf(AfterSwapRateMode(s, b, u, mode, t));
    var e := WithSwapped(b, u, mode, t);
    if CanSwap(b, u, mode, t) {
      SwappedDebts(b, u, mode, t);
      if e.averageStableBorrowRate >= 0 { SettledValid(s, e, b.availableLiquidity, t, true); }
      if mode.Stable? { SwappedSign(b, u, t); }
    }
  }

  lemma SwappedSign(b: Reserve, u: User, t: int)
    requires Sound(b) && t >= b.lastUpdateTimestamp && CanSwap(b, u, Stable, t)
    ensures var total, debt := StableDebtNow(b, t), UserStableDebt(u, t);
            WithSwapped(b, u, Stable, t).averageStableBorrowRate >= 0
            <==> total == debt || u.stableBorrowRate * debt - b.averageStableBorrowRate * total < total - debt
  {
    hide Sound, Ready, WithSwappedToVariable, StableDebtNow, UserStableDebt, AverageStableRate, VariableDebtBalance;
    SwappedAverage(b, UserStableDebt(u, t), u.stableBorrowRate, t);
    AverageSign(b.averageStableBorrowRate, StableDebtNow(b, t), UserStableDebt(u, t), u.stableBorrowRate);
  }

  /** What follows the swap leaves its debts alone. */
  lemma SwapKeepsDebts(s: Strategy, b: Reserve, u: User, mode: RateMode, t: int)
    requires ValidStrategy(s) && Sound(b) && t >= b.lastUpdateTimestamp && SwapDefined(s, b, u, mode, t)
    ensures var e, after := WithSwapped(b, u, mode, t), AfterSwapRateMode(s, b, u, mode, t);
            && after.averageStableBorrowRate == e.averageStableBorrowRate
            && after.principalStableDebt == e.principalStableDebt && after.scaledVariableDebt == e.scaledVariableDebt
  {
    hide InterestRates, BorrowUtilization, SupplyUtilization, WithSwapped, Sound, CanSwap;
  }

  lemma SoundDebtsOf(r: Reserve)
    ensures r.averageStableBorrowRate < 0 || r.principalStableDebt < 0 || r.scaledVariableDebt < 0 ==> !Sound(r)
  {
    hide Div;
  }

  lemma SwappedAverage(b: Reserve, debt: int, userRate: int, t: int)
    requires Sound(b) && t >= b.lastUpdateTimestamp
    ensures WithSwappedToVariable(b, debt, userRate, t).averageStableBorrowRate
         == AverageStableRate(b.averageStableBorrowRate, StableDebtNow(b, t), Negated(debt), userRate)
  {
    hide AverageStableRate, TotalStableDebt, RayMul, RayDiv;
  }

  /** The sign of the average left after removing `debt`, through the truncating division. */
  lemma AverageSign(average: int, total: int, debt: int, rate: int)
    requires debt <= total
    ensures AverageStableRate(average, total, Negated(debt), rate) >= 0
       <==> total == debt || rate * debt - average * total < total - debt
  {
    var n, d := average * total + rate * Negated(debt), total - debt;
    assert rate * Negated(debt) == -(rate * debt);
    if d > 0 { TruncatedSign(n, d); }
  }

  lemma TruncatedSign(n: int, d: int)
    requires d > 0
    ensures Div(n, d) >= 0 <==> n > -d
  {
    DivTruncates(n, d);
    var q := Div(n, d);
    if q <= -1 { MulLe(q, -1, d); } else { MulLe(0, q, d); }
  }

  // ---------- Rebalance ----------

  function WithRebalanced(b: Reserve, userDebt: int, userRate: int, t: int): Reserve
    requires Sound(b) && t >= b.lastUpdateTimestamp
  {
    var u := Updated(b, t);
    var total := StableDebtNow(b, t);
    var removed := AverageStableRateRebalance(b.averageStableBorrowRate, total, Negated(userDebt), userRate);
    u.(
      principalStableDebt := total,
      totalStableDebt := total,
      averageStableBorrowRate := AverageStableRateRebalance(removed, total - userDebt, userDebt, b.stableBorrowRate))
  }

  function AfterStableRateRebalance(s: Strategy, b: Reserve, u: User, t: int): Reserve
    requires ValidStrategy(s) && Sound(b) && t >= b.lastUpdateTimestamp
  {
    RebalancedDebts(b, u, t);
    Settled(s, WithRebalanced(b, UserStableDebt(u, t), u.stableBorrowRate, t), b.availableLiquidity, t, true)
  }

  lemma RebalancedDebts(b: Reserve, u: User, t: int)
    requires Sound(b) && t >= b.lastUpdateTimestamp
    ensures var e := WithRebalanced(b, UserStableDebt(u, t), u.stableBorrowRate, t);
            e.totalStableDebt >= 0 && e.totalVariableDebt >= 0 && e.unbacked >= 0 && b.availableLiquidity >= 0
  {
    hide RayMul, RayDiv, AverageStableRateRebalance, TotalStableDebt, UserStableDebt;
    UpdatedReady(b, t);
  }

  /** With a single stable borrower the rate of the re-added debt is the current stable rate. The mix of
      scaled and unscaled totals in between cancels out. */
  lemma SoleBorrowerRebalance(b: Reserve, userDebt: int, userRate: int, t: int)
    requires Sound(b) && t >= b.lastUpdateTimestamp
    requires userDebt == StableDebtNow(b, t) && userDebt >= WAD
    ensures WithRebalanced(b, userDebt, userRate, t).averageStableBorrowRate == b.stableBorrowRate
  {
    hide TotalStableDebt, RayMul, RayDiv;
    SoundDebts(b);
    var removed := AverageStableRateRebalance(b.averageStableBorrowRate, userDebt, Negated(userDebt), userRate);
    ReAddedRate(removed, userDebt, b.stableBorrowRate);
    ScaledRoundTrip(b.stableBorrowRate, WadToRay(userDebt));
  }

  lemma ReAddedRate(removed: int, debt: int, rate: int)
    requires debt > 0
    ensures AverageStableRateRebalance(removed, 0, debt, rate) == RayDiv(RayMul(rate, WadToRay(debt)), WadToRay(debt))
  {
    hide RayDiv;
    assert RayMul(removed, 0) == 0;
  }

  /** One token with 18 decimals is exactly the debt from which that holds for every rate. */
  lemma SoleBorrowerRebalanceExactlyFromOneToken(debt: int)
    requires debt > 0
    ensures (forall removed: int, rate: nat :: AverageStableRateRebalance(removed, 0, debt, rate) == rate)
            <==> debt >= WAD
  {
    hide RayMul, RayDiv, AverageStableRateRebalance;
    ScaledRoundTripExactlyFromOneRay(WadToRay(debt));
    forall removed: int, rate: nat
      ensures AverageStableRateRebalance(removed, 0, debt, rate) == RayDiv(RayMul(rate, WadToRay(debt)), WadToRay(debt))
    {
      ReAddedRate(removed, debt, rate);
    }
    if forall removed: int, rate: nat :: AverageStableRateRebalance(removed, 0, debt, rate) == rate {
      forall rate: nat ensures RayDiv(RayMul(rate, WadToRay(debt)), WadToRay(debt)) == rate {
        assert AverageStableRateRebalance(0, 0, debt, rate) == rate;
      }
    }
  }

  /** The two steps leave no negative average. */
  predicate CanRebalance(b: Reserve, u: User, t: int) {
    var total, debt := StableDebtNow(b, t), UserStableDebt(u, t);
    var removed := AverageStableRateRebalance(b.averageStableBorrowRate, total, Negated(debt), u.stableBorrowRate);
    AverageStableRateRebalance(removed, total - debt, debt, b.stableBorrowRate) >= 0
  }

  /** Rebalancing keeps the reserve sound exactly then. */
  lemma RebalanceValidExactly(s: Strategy, b: Reserve, u: User, t: int)
    requires ValidStrategy(s) && Sound(b) && t >= b.lastUpdateTimestamp
    ensures Sound(AfterStableRateRebalance(s, b, u, t)) <==> CanRebalance(b, u, t)
  {
    hide Sound, Ready, WithRebalanced, Settled, StableDebtNow, UserStableDebt, AverageStableRateRebalance;
    SoundDebts(b);
    RebalancedDebts(b, u, t);
    RebalancedReady(b, u, t);
    if CanRebalance(b, u, t) {
      SettledValid(s, WithRebalanced(b, UserStableDebt(u, t), u.stableBorrowRate, t), b.availableLiquidity, t, true);
    } else {
      RebalanceKeepsAverage(s, b, u, t);
      SoundDebtsOf(AfterStableRateRebalance(s, b, u, t));
    }
  }

  lemma RebalanceKeepsAverage(s: Strategy, b: Reserve, u: User, t: int)
    requires ValidStrategy(s) && Sound(b) && t >= b.lastUpdateTimestamp
    ensures AfterStableRateRebalance(s, b, u, t).averageStableBorrowRate >= 0 <==> CanRebalance(b, u, t)
  {
    hide InterestRates, BorrowUtilization, SupplyUtilization, BroughtUpTo, StableDebtNow, UserStableDebt, Sound,
         AverageStableRateRebalance;
  }

  lemma RebalancedReady(b: Reserve, u: User, t: int)
    requires Sound(b) && t >= b.lastUpdateTimestamp
    ensures Ready(WithRebalanced(b, UserStableDebt(u, t), u.stableBorrowRate, t), t) <==> CanRebalance(b, u, t)
  {
    hide RayMul, RayDiv, AverageStableRateRebalance, TotalStableDebt, UserStableDebt;
    UpdatedReady(b, t);
    TotalStableNonNegative(b, t);
  }

  /** So does rebalancing the only stable borrower, however small the debt. */
  lemma SoleRebalanceValid(s: Strategy, b: Reserve, u: User, t: int)
    requires ValidStrategy(s) && Sound(b) && t >= b.lastUpdateTimestamp
    requires UserStableDebt(u, t) == StableDebtNow(b, t)
    ensures CanRebalance(b, u, t) && Sound(AfterStableRateRebalance(s, b, u, t))
  {
    hide Sound, AfterStableRateRebalance, StableDebtNow, UserStableDebt, AverageStableRateRebalance;
    SoundDebts(b);
    TotalStableNonNegative(b, t);
    var debt := UserStableDebt(u, t);
    var removed := AverageStableRateRebalance(b.averageStableBorrowRate, debt, Negated(debt), u.stableBorrowRate);
    RebalancedRateNonNegative(removed, debt, b.stableBorrowRate);
    RebalanceValidExactly(s, b, u, t);
  }

  lemma RebalancedRateNonNegative(removed: int, debt: int, rate: int)
    requires debt >= 0 && rate >= 0
    ensures AverageStableRateRebalance(removed, 0, debt, rate) >= 0
  {
    hide RayMul, RayDiv;
    if debt > 0 {
      ReAddedRate(removed, debt, rate);
      RayMulMonotone(rate, WadToRay(debt), rate, WadToRay(debt));
      var m := RayMul(rate, WadToRay(debt));
      RayDivMonotone(m, WadToRay(debt), m, WadToRay(debt));
    }
  }
}
