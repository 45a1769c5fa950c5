/** Borrowing in either mode: the reserve record it leaves, aged from the transaction to the current time. */
module DebtActions {
  import opened WadRayMath
  import opened DecimalOrder
  import opened Interest
  import opened RateStrategy
  import opened RateFunding
  import opened ReserveModel
  import opened ReserveActions

  // ---------- Borrow ----------

  /** Rates are set for the debts at the transaction, totals then aged to `current`. */
  function AgedTotals(s: Strategy, e: Reserve, available: int, stableNow: int, t: int, current: int): Reserve
    requires ValidStrategy(s) && Settleable(s, e, available)
  {
    var priced := Priced(s, Measured(e, available));
    priced.(
      totalStableDebt := stableNow,
      totalVariableDebt :=
        RayMul(e.scaledVariableDebt, NormalizedDebt(priced.variableBorrowRate, e.variableBorrowIndex, t, current)))
  }

  /** No divisor is zero, for the rates or for the utilization of the aged totals. */
  predicate AgeDefined(s: Strategy, e: Reserve, available: int, stableNow: int, t: int, current: int)
    requires ValidStrategy(s)
    ensures Ready(e, t) && available >= 0 && stableNow >= 0 && current >= t ==>
              AgeDefined(s, e, available, stableNow, t, current)
  {
    AgedTotalsInOrder(s, e, available, stableNow, t, current);
    Settleable(s, e, available) && Measurable(AgedTotals(s, e, available, stableNow, t, current), available)
  }

  lemma AgedTotalsInOrder(s: Strategy, e: Reserve, available: int, stableNow: int, t: int, current: int)
    requires ValidStrategy(s)
    ensures Ready(e, t) && available >= 0 && stableNow >= 0 && current >= t ==>
              && Settleable(s, e, available)
              && Measurable(AgedTotals(s, e, available, stableNow, t, current), available)
  {
    hide InterestRates, BorrowUtilization, SupplyUtilization, RayMul, NormalizedDebt;
    if Ready(e, t) && available >= 0 && stableNow >= 0 && current >= t {
      PricedRates(s, e, available);
      var rate := Priced(s, Measured(e, available)).variableBorrowRate;
      NormalizedDebtGrows(rate, e.variableBorrowIndex, t, current, e.scaledVariableDebt);
    }
  }

  function Aged(s: Strategy, e: Reserve, available: int, stableNow: int, t: int, current: int,
                stableMoved: bool): Reserve
    requires ValidStrategy(s) && AgeDefined(s, e, available, stableNow, t, current)
  {
    Stamped(Measured(AgedTotals(s, e, available, stableNow, t, current), available), t, stableMoved)
  }

  lemma PricedRates(s: Strategy, e: Reserve, available: int)
    requires ValidStrategy(s) && Ready(e, e.totalStableDebtLastUpdated) && available >= 0
    ensures var p := Priced(s, Measured(e, available));
            && p.variableBorrowRate >= 0 && p.stableBorrowRate >= 0 && p.liquidityRate >= 0
            && (Measured(e, available).supplyUtilizationRate == 0 ==> p.liquidityRate == 0)
  {
    hide InterestRates, BorrowUtilization, SupplyUtilization, UncappedSupplyUtilization;
    RatesNonNegative(s, e.marketStableRate, e.totalStableDebt, e.totalVariableDebt, e.averageStableBorrowRate,
                     available, available + e.unbacked);
  }

  lemma NormalizedDebtGrows(rate: int, index: int, t: int, current: int, scaled: int)
    requires rate >= 0 && index >= RAY && current >= t && scaled >= 0
    ensures NormalizedDebt(rate, index, t, current) >= index
    ensures scaled <= RayMul(scaled, index) <= RayMul(scaled, NormalizedDebt(rate, index, t, current))
  {
    hide CalcCompoundedInterest, RayMul;
    CompoundedMonotone(rate, 0, t, rate, current - t, t, CalcCompoundedInterest(rate, t, t),
                       CalcCompoundedInterest(rate, current, t));
    RayMulByIndex(index, CalcCompoundedInterest(rate, current, t));
    RayMulMonotone(scaled, index, scaled, NormalizedDebt(rate, index, t, current));
    RayMulByIndex(scaled, index);
  }

  /** Nothing lent now means nothing was lent when the debt was smaller, whatever the string comparison says. */
  lemma NothingLentBefore(debt1: int, debt2: int, available: int, total: int)
    requires 0 <= debt1 <= debt2 && 0 <= available <= total
    requires SupplyUtilization(debt2, available, total) == 0
    ensures SupplyUtilization(debt1, available, total) == 0
  {
    hide RayDiv;
    UtilizationMonotone(debt1, debt2, total);
    JsGreaterMeaning(0, BorrowUtilization(debt1, available));
  }

  lemma AgedValid(s: Strategy, e: Reserve, available: int, stableNow: int, t: int, current: int, stableMoved: bool)
    requires ValidStrategy(s) && Ready(e, t) && available >= 0 && current >= t
    requires 0 <= e.totalStableDebt <= stableNow
    requires e.totalVariableDebt == RayMul(e.scaledVariableDebt, e.variableBorrowIndex)
    ensures Sound(Aged(s, e, available, stableNow, t, current, stableMoved))
  {
    hide InterestRates, BorrowUtilization, SupplyUtilization, UncappedSupplyUtilization, RayMul, RayDiv, NormalizedDebt;
    PricedRates(s, e, available);
    var p := Priced(s, Measured(e, available));
    NormalizedDebtGrows(p.variableBorrowRate, e.variableBorrowIndex, t, current, e.scaledVariableDebt);
    var variableNow :=
      RayMul(e.scaledVariableDebt, NormalizedDebt(p.variableBorrowRate, e.variableBorrowIndex, t, current));
    ScaledDebtUp(e.scaledVariableDebt, NormalizedDebt(p.variableBorrowRate, e.variableBorrowIndex, t, current));
    if SupplyUtilization(stableNow + variableNow, available, available + e.unbacked) == 0 {
      NothingLentBefore(e.totalStableDebt + e.totalVariableDebt, stableNow + variableNow, available,
                        available + e.unbacked);
    }
  }

  function WithStableBorrowed(b: Reserve, amount: int, t: int): Reserve
    requires Sound(b) && t >= b.lastUpdateTimestamp
  {
    var debt := TotalStableDebt(b.principalStableDebt, b.averageStableBorrowRate, b.totalStableDebtLastUpdated, t);
    Updated(b, t).(
      averageStableBorrowRate := AverageStableRate(b.averageStableBorrowRate, debt, amount, b.stableBorrowRate),
      principalStableDebt := debt + amount,
      totalStableDebt := debt + amount)
  }

  function WithVariableBorrowed(b: Reserve, amount: int, t: int): Reserve
    requires Sound(b) && t >= b.lastUpdateTimestamp
  {
    var u := Updated(b, t);
    UpdatedReady(b, t);
    var scaled := b.scaledVariableDebt + RayDiv(amount, u.variableBorrowIndex);
    u.(
      totalStableDebt :=
        StableDebtTokenBalance(b.principalStableDebt, b.averageStableBorrowRate, b.totalStableDebtLastUpdated, t),
      scaledVariableDebt := scaled,
      totalVariableDebt := RayMul(scaled, u.variableBorrowIndex))
  }

  lemma StableBorrowedReady(b: Reserve, amount: int, t: int)
    requires Sound(b) && t >= b.lastUpdateTimestamp && amount >= 0
    ensures var e := WithStableBorrowed(b, amount, t);
            && Ready(e, t) && e.principalStableDebt == e.totalStableDebt
            && e.totalVariableDebt == RayMul(e.scaledVariableDebt, e.variableBorrowIndex)
            && e.variableBorrowIndex == Updated(b, t).variableBorrowIndex
  {
    hide RayMul, RayDiv, AverageStableRate, TotalStableDebt;
    UpdatedReady(b, t);
    StableDebtGrows(b.principalStableDebt, b.averageStableBorrowRate, b.totalStableDebtLastUpdated, t, t);
    AverageNonNegative(b.averageStableBorrowRate,
      TotalStableDebt(b.principalStableDebt, b.averageStableBorrowRate, b.totalStableDebtLastUpdated, t), amount,
      b.stableBorrowRate);
  }

  lemma VariableBorrowedReady(b: Reserve, amount: int, t: int)
    requires Sound(b) && t >= b.lastUpdateTimestamp && amount >= 0
    ensures var e := WithVariableBorrowed(b, amount, t);
            && Ready(e, t) && e.totalVariableDebt == RayMul(e.scaledVariableDebt, e.variableBorrowIndex)
            && e.totalStableDebt
               <= TotalStableDebt(b.principalStableDebt, b.averageStableBorrowRate, b.totalStableDebtLastUpdated, t)
            && e.variableBorrowIndex == Updated(b, t).variableBorrowIndex
  {
    hide RayMul, RayDiv, CalcCompoundedInterest;
    UpdatedReady(b, t);
    var index := NextVariableBorrowIndex(b, t);
    RayDivMonotone(amount, index, amount, index);
    ScaledDebtUp(b.scaledVariableDebt + RayDiv(amount, index), index);
    StableDebtGrows(b.principalStableDebt, b.averageStableBorrowRate, b.totalStableDebtLastUpdated, t, t);
    RayMulCommutes(b.principalStableDebt,
                   CalcCompoundedInterest(b.averageStableBorrowRate, t, b.totalStableDebtLastUpdated));
  }

  function WithBorrowed(b: Reserve, amount: int, mode: RateMode, t: int): Reserve
    requires Sound(b) && t >= b.lastUpdateTimestamp
  {
    if mode.Stable? then WithStableBorrowed(b, amount, t) else WithVariableBorrowed(b, amount, t)
  }

  /** The stable debt of e, which is b with the borrow taken up at t, at `current`. */
  function StableDebtAged(b: Reserve, e: Reserve, mode: RateMode, t: int, current: int): int {
    if mode.Stable? then TotalStableDebt(e.principalStableDebt, e.averageStableBorrowRate, t, current)
    else TotalStableDebt(b.principalStableDebt, b.averageStableBorrowRate, b.totalStableDebtLastUpdated, current)
  }

  /** No divisor is zero for the rates and the utilization that stay. */
  ghost predicate BorrowSettles(s: Strategy, b: Reserve, amount: int, mode: RateMode, t: int, current: int)
    ensures ValidStrategy(s) && Sound(b) && b.lastUpdateTimestamp <= t <= current
            && 0 <= amount <= b.availableLiquidity ==>
              BorrowSettles(s, b, amount, mode, t, current)
  {
    ValidStrategy(s) && Sound(b) && b.lastUpdateTimestamp <= t <= current &&
    (BorrowedInOrder(s, b, amount, mode, t, current);
     var e := WithBorrowed(b, amount, mode, t);
     AgeDefined(s, e, b.availableLiquidity - amount, StableDebtAged(b, e, mode, t, current), t, current))
  }

  /** Nor for the utilizations on the way: before the debt is taken up, and in a variable borrow once more with the
      stable debt at `current` and the variable debt not yet raised. All in all the calculation asks for no more; a
      borrow within the liquidity always meets it. */
  ghost predicate BorrowDefined(s: Strategy, b: Reserve, amount: int, mode: RateMode, t: int, current: int)
    requires ValidStrategy(s) && Sound(b) && b.lastUpdateTimestamp <= t <= current
    ensures 0 <= amount <= b.availableLiquidity ==> BorrowDefined(s, b, amount, mode, t, current)
  {
    BorrowedInOrder(s, b, amount, mode, t, current);
    var u, e := Updated(b, t), WithBorrowed(b, amount, mode, t);
    && Measurable(u, b.availableLiquidity - amount)
    && (mode.Variable? ==>
          Measurable(u.(totalStableDebt := StableDebtAged(b, e, mode, t, current)), b.availableLiquidity - amount))
    && BorrowSettles(s, b, amount, mode, t, current)
  }

  lemma BorrowedInOrder(s: Strategy, b: Reserve, amount: int, mode: RateMode, t: int, current: int)
    requires ValidStrategy(s) && Sound(b) && b.lastUpdateTimestamp <= t <= current
    ensures 0 <= amount <= b.availableLiquidity ==>
              var u, e := Updated(b, t), WithBorrowed(b, amount, mode, t);
              && Measurable(u, b.availableLiquidity - amount)
              && (mode.Variable? ==>
                    Measurable(u.(totalStableDebt := StableDebtAged(b, e, mode, t, current)),
                               b.availableLiquidity - amount))
              && AgeDefined(s, e, b.availableLiquidity - amount, StableDebtAged(b, e, mode, t, current), t, current)
  {
    hide Sound, AgeDefined, WithStableBorrowed, WithVariableBorrowed, TotalStableDebt, RayMul;
    UpdatedReady(b, t);
    if 0 <= amount { BorrowedReady(b, amount, mode, t, current); }
  }

  lemma BorrowedReady(b: Reserve, amount: int, mode: RateMode, t: int, current: int)
    requires Sound(b) && b.lastUpdateTimestamp <= t <= current && amount >= 0
    ensures var e := WithBorrowed(b, amount, mode, t);
            && Ready(e, t)
            && 0 <= e.totalStableDebt <= StableDebtAged(b, e, mode, t, current)
            && e.totalVariableDebt == RayMul(e.scaledVariableDebt, e.variableBorrowIndex)
  {
    hide Sound, Ready, WithStableBorrowed, WithVariableBorrowed, TotalStableDebt, RayMul;
    SoundDebts(b);
    if mode.Stable? {
      var e := WithStableBorrowed(b, amount, t);
      StableBorrowedReady(b, amount, t);
      ReadyDebts(e, t);
      StableDebtGrows(e.principalStableDebt, e.averageStableBorrowRate, t, t, current);
    } else {
      VariableBorrowedReady(b, amount, t);
      ReadyDebts(WithVariableBorrowed(b, amount, t), t);
      StableDebtGrows(b.principalStableDebt, b.averageStableBorrowRate, b.totalStableDebtLastUpdated, t, current);
    }
  }

  function AfterBorrow(s: Strategy, b: Reserve, amount: int, mode: RateMode, t: int, current: int): Reserve
    requires ValidStrategy(s) && Sound(b) && b.lastUpdateTimestamp <= t <= current
    requires BorrowSettles(s, b, amount, mode, t, current)
  {
    hide RayMul, RayDiv, InterestRates, BorrowUtilization, SupplyUtilization, NormalizedDebt, TotalStableDebt,
         AverageStableRate, StableDebtTokenBalance, Updated;
    var e := WithBorrowed(b, amount, mode, t);
    Aged(s, e, b.availableLiquidity - amount, StableDebtAged(b, e, mode, t, current), t, current, mode.Stable?)
  }

  lemma BorrowValid(s: Strategy, b: Reserve, amount: int, mode: RateMode, t: int, current: int)
    requires ValidStrategy(s) && Sound(b) && b.lastUpdateTimestamp <= t <= current
    requires 0 <= amount <= b.availableLiquidity
    ensures Sound(AfterBorrow(s, b, amount, mode, t, current))
  {
    hide Sound, Ready, Aged, WithBorrowed, StableDebtAged, RayMul;
    BorrowedReady(b, amount, mode, t, current);
    var e := WithBorrowed(b, amount, mode, t);
    AgedValid(s, e, b.availableLiquidity - amount, StableDebtAged(b, e, mode, t, current), t, current, mode.Stable?);
  }

  /** Nothing in the calculation holds a borrow back: it keeps the reserve sound exactly if the liquidity is
      there. */
  lemma BorrowValidExactly(s: Strategy, b: Reserve, amount: int, mode: RateMode, t: int, current: int)
    requires ValidStrategy(s) && Sound(b) && b.lastUpdateTimestamp <= t <= current && amount >= 0
    requires BorrowSettles(s, b, amount, mode, t, current)
    ensures Sound(AfterBorrow(s, b, amount, mode, t, current)) <==> amount <= b.availableLiquidity
  {
    hide Sound, BorrowSettles, InterestRates, BorrowUtilization, SupplyUtilization, WithBorrowed, StableDebtAged;
    if amount <= b.availableLiquidity {
      BorrowValid(s, b, amount, mode, t, current);
    } else {
      BorrowedLiquidity(s, b, amount, mode, t, current);
      SoundLiquidity(AfterBorrow(s, b, amount, mode, t, current));
    }
  }

  lemma BorrowedLiquidity(s: Strategy, b: Reserve, amount: int, mode: RateMode, t: int, current: int)
    requires ValidStrategy(s) && Sound(b) && b.lastUpdateTimestamp <= t <= current
    requires BorrowSettles(s, b, amount, mode, t, current)
    ensures AfterBorrow(s, b, amount, mode, t, current).availableLiquidity == b.availableLiquidity - amount
  {
    hide Sound, BorrowSettles, InterestRates, BorrowUtilization, SupplyUtilization, WithBorrowed, StableDebtAged,
         NormalizedDebt, RayMul;
  }

  lemma SoundLiquidity(r: Reserve)
    ensures r.availableLiquidity < 0 ==> !Sound(r)
  {
    hide Div;
  }

  lemma SoundDebts(b: Reserve)
    requires Sound(b)
    ensures b.principalStableDebt >= 0 && b.averageStableBorrowRate >= 0
    ensures b.totalStableDebtLastUpdated <= b.lastUpdateTimestamp
    ensures b.availableLiquidity >= 0 && b.scaledVariableDebt >= 0 && b.totalStableDebt >= 0
    ensures b.stableBorrowRate >= 0 && b.variableBorrowRate >= 0
  {
    hide Div;
  }

  lemma ReadyDebts(e: Reserve, t: int)
    requires Ready(e, t)
    ensures e.principalStableDebt >= 0 && e.averageStableBorrowRate >= 0 && e.totalStableDebt >= 0
  {
    hide Div;
  }
}
