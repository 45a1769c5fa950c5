/** The stored average stable rate: how far it drifts from the true debt-weighted mean, and exactly when a
    repayment erases what is left. */
module StableDrift {
  import opened WadRayMath
  import opened RateStrategy
  import opened ReserveModel
  import opened ReserveActions
  import opened DebtActions
  import opened RepayActions
  import opened Balances
  import opened SwapRoundTrip

  /** One step rounds the weighted mean down, and stays between the old average and the new rate. */
  lemma AverageStep(average: int, total: int, amount: int, rate: int)
    requires average >= 0 && total >= 0 && amount >= 0 && rate >= 0 && total + amount > 0
    ensures var next := AverageStableRate(average, total, amount, rate);
            var weighted := average * total + rate * amount;
            && next * (total + amount) <= weighted < next * (total + amount) + (total + amount)
            && (average <= next <= rate || rate <= next <= average)
  {
    hide AverageStableRate;
    AverageFloor(average, total, amount, rate);
    MeanBetween(average, total, amount, rate, AverageStableRate(average, total, amount, rate));
  }

  lemma AverageFloor(average: int, total: int, amount: int, rate: int)
    requires average >= 0 && total >= 0 && amount >= 0 && rate >= 0 && total + amount > 0
    ensures var next := AverageStableRate(average, total, amount, rate);
            next * (total + amount) <= average * total + rate * amount < next * (total + amount) + (total + amount)
  {
    hide Div;
    MulLe(0, average, total);
    MulLe(0, rate, amount);
    DivTruncates(average * total + rate * amount, total + amount);
  }

  /** The user's own stable rate is the same weighted mean, so it too stays between the old and the new rate. */
  lemma UserRateIsWeightedMean(balance: int, rateBefore: int, amount: int, rateNew: int)
    requires balance >= 0 && amount >= 0 && balance + amount > 0 && rateBefore >= 0 && rateNew >= 0
    ensures var rate := UserStableRate(balance, rateBefore, amount, rateNew);
            && rate == AverageStableRate(rateBefore, balance, amount, rateNew)
            && (rateBefore <= rate <= rateNew || rateNew <= rate <= rateBefore)
  {
    assert balance * rateBefore == rateBefore * balance && amount * rateNew == rateNew * amount;
    AverageStep(rateBefore, balance, amount, rateNew);
  }

  lemma MeanBetween(average: int, total: int, amount: int, rate: int, next: int)
    requires total >= 0 && amount >= 0 && total + amount > 0
    requires next * (total + amount) <= average * total + rate * amount < next * (total + amount) + (total + amount)
    ensures average <= next <= rate || rate <= next <= average
  {
    var d := total + amount;
    var low, high := if average <= rate then average else rate, if average <= rate then rate else average;
    MulLe(low, average, total);
    MulLe(low, rate, amount);
    MulLe(average, high, total);
    MulLe(rate, high, amount);
    assert low * d == low * total + low * amount && high * d == high * total + high * amount;
    assert (next + 1) * d == next * d + d;
    MulLtCancel(low, next + 1, d);
    assert (high + 1) * d == high * d + d;
    MulLtCancel(next, high + 1, d);
  }

  // ---------- A run of stable borrows at one timestamp ----------

  predicate Positive(amounts: seq<int>) {
    forall k | 0 <= k < |amounts| :: amounts[k] > 0
  }

  lemma {:induction false} SumNonNegative(amounts: seq<int>)
    requires Positive(amounts)
    ensures Sum(amounts) >= 0
  {
    if amounts != [] { SumNonNegative(amounts[1..]); }
  }

  lemma StableBorrowEffect(s: Strategy, b: Reserve, amount: int, t: int)
    requires ValidStrategy(s) && Sound(b) && t >= b.lastUpdateTimestamp && 0 <= amount <= b.availableLiquidity
    ensures var r := AfterBorrow(s, b, amount, Stable, t, t);
            && Sound(r)
            && r.availableLiquidity == b.availableLiquidity - amount
            && r.principalStableDebt == StableDebtNow(b, t) + amount
            && r.averageStableBorrowRate ==
                 AverageStableRate(b.averageStableBorrowRate, StableDebtNow(b, t), amount, b.stableBorrowRate)
            && r.lastUpdateTimestamp == t && r.totalStableDebtLastUpdated == t
            && StableDebtNow(r, t) == r.principalStableDebt
            && StableDebtNow(b, t) >= 0
  {
    hide InterestRates, BorrowUtilization, SupplyUtilization, BroughtUpTo, TotalStableDebt, NormalizedDebt, RayMul,
         Ready, Sound, AverageStableRate;
    BorrowValid(s, b, amount, Stable, t, t);
    SoundDebts(b);
    StableDebtGrows(b.principalStableDebt, b.averageStableBorrowRate, b.totalStableDebtLastUpdated, t, t);
    NothingAccruesAtOnce(AfterBorrow(s, b, amount, Stable, t, t), t);
  }

  /** The reserve after borrowing each amount in turn, all at time t. */
  function AfterStableBorrows(s: Strategy, b: Reserve, amounts: seq<int>, t: int): Reserve
    requires ValidStrategy(s) && Sound(b) && t >= b.lastUpdateTimestamp
    requires Positive(amounts) && Sum(amounts) <= b.availableLiquidity
    decreases |amounts|
  {
    if amounts == [] then b
    else
      SumNonNegative(amounts[1..]);
      StableBorrowEffect(s, b, amounts[0], t);
      AfterStableBorrows(s, AfterBorrow(s, b, amounts[0], Stable, t, t), amounts[1..], t)
  }

  /** What the borrowed amounts add to the true weighted rate, each at the rate the reserve offers when its
      turn comes. */
  function WeightedBorrows(s: Strategy, b: Reserve, amounts: seq<int>, t: int): int
    requires ValidStrategy(s) && Sound(b) && t >= b.lastUpdateTimestamp
    requires Positive(amounts) && Sum(amounts) <= b.availableLiquidity
    decreases |amounts|
  {
    if amounts == [] then 0
    else
      SumNonNegative(amounts[1..]);
      StableBorrowEffect(s, b, amounts[0], t);
      b.stableBorrowRate * amounts[0]
      + WeightedBorrows(s, AfterBorrow(s, b, amounts[0], Stable, t, t), amounts[1..], t)
  }

  /** After n borrows the stored average times the debt is at most the true weighted rate, and short of it
      by less than n per unit of debt: the average is below the true mean by less than n. */
  lemma {:induction false} AverageDrift(s: Strategy, b: Reserve, amounts: seq<int>, t: int)
    requires ValidStrategy(s) && Sound(b) && t >= b.lastUpdateTimestamp
    requires Positive(amounts) && Sum(amounts) <= b.availableLiquidity
    ensures var r := AfterStableBorrows(s, b, amounts, t);
            var debt := StableDebtNow(r, t);
            var weighted := b.averageStableBorrowRate * StableDebtNow(b, t) + WeightedBorrows(s, b, amounts, t);
            && Sound(r) && debt == StableDebtNow(b, t) + Sum(amounts)
            && r.averageStableBorrowRate * debt <= weighted
            && (amounts != [] ==> weighted < (r.averageStableBorrowRate + |amounts|) * debt)
    decreases |amounts|
  {
    hide AfterBorrow, StableDebtNow, AverageStableRate, Sound, BorrowDefined, AgeDefined;
    if amounts != [] {
      var rest := amounts[1..];
      SumNonNegative(rest);
      StableBorrowEffect(s, b, amounts[0], t);
      SoundDebts(b);
      var next := AfterBorrow(s, b, amounts[0], Stable, t, t);
      AverageStep(b.averageStableBorrowRate, StableDebtNow(b, t), amounts[0], b.stableBorrowRate);
      AverageDrift(s, next, rest, t);
      var r := AfterStableBorrows(s, next, rest, t);
      DriftAdds(r.averageStableBorrowRate, StableDebtNow(r, t), |rest|, StableDebtNow(next, t),
                next.averageStableBorrowRate * StableDebtNow(next, t), WeightedBorrows(s, next, rest, t),
                b.averageStableBorrowRate * StableDebtNow(b, t), b.stableBorrowRate * amounts[0]);
    }
  }

  lemma DriftAdds(average: int, debt: int, n: nat, nextDebt: int, nextWeight: int, later: int, before: int, now: int)
    requires nextDebt <= debt && nextWeight <= before + now < nextWeight + nextDebt
    requires average * debt <= nextWeight + later
    requires if n == 0 then nextWeight + later == average * debt else nextWeight + later < (average + n) * debt
    ensures average * debt <= before + now + later < (average + (n + 1)) * debt
  {
    assert (average + (n + 1)) * debt == (average + n) * debt + debt;
  }

  // ---------- Repayments ----------

  /** The clamps of a stable repayment fire exactly when more is repaid than owed, or when the user's
      weighted rate exceeds the whole by at least the remaining debt; then nothing is left. A smaller
      excess is truncated away and only resets the average. */
  lemma StableClampsExactly(b: Reserve, repaid: int, userRate: int, t: int)
    requires Sound(b) && t >= b.lastUpdateTimestamp
    ensures var e := WithStableRepaid(b, repaid, userRate, t);
            var debt := StableDebtNow(b, t);
            var excess := userRate * repaid - b.averageStableBorrowRate * debt;
            && e.principalStableDebt == e.totalStableDebt
            && e.totalStableDebt >= 0 && e.averageStableBorrowRate >= 0
            && (repaid >= debt || excess >= debt - repaid ==> e.totalStableDebt == 0 && e.averageStableBorrowRate == 0)
            && (repaid < debt && excess < debt - repaid ==> e.totalStableDebt == debt - repaid > 0)
            && (repaid < debt && 0 <= excess < debt - repaid ==> e.averageStableBorrowRate == 0)
  {
    hide Sound, TotalStableDebt, RayMul, BroughtUpTo, AverageStableRate;
    var debt := StableDebtNow(b, t);
    if repaid <= debt {
      AverageSign(b.averageStableBorrowRate, debt, repaid, userRate);
      SmallExcess(b.averageStableBorrowRate, debt, repaid, userRate);
    }
  }

  lemma SmallExcess(average: int, debt: int, repaid: int, rate: int)
    requires repaid <= debt
    ensures repaid == debt || 0 <= rate * repaid - average * debt < debt - repaid ==>
              AverageStableRate(average, debt, Negated(repaid), rate) == 0
  {
    hide Div;
    var n, d := average * debt + rate * Negated(repaid), debt - repaid;
    NegatedProduct(rate, repaid);
    if d > 0 && -d < n <= 0 { TruncatesToZero(n, d); }
  }

  lemma NegatedProduct(rate: int, amount: int)
    ensures rate * Negated(amount) == -(rate * amount)
  {
  }

  lemma TruncatesToZero(n: int, d: int)
    requires d > 0 && -d < n <= 0
    ensures Div(n, d) == 0
  {
    QuotientOfSmall(-n, d);
  }

  lemma QuotientOfSmall(n: int, d: int)
    requires 0 <= n < d
    ensures n / d == 0
  {
    assert n == d * (n / d) + n % d;
    if n / d >= 1 { MulLe(1, n / d, d); }
  }

  /** Leaving the stable mode with two of three units, at a rate of 2 where the average is 0: the swap has no
      clamp and leaves a negative average, where repaying the same debt would erase the leftover. */
  lemma LeavingStableGoesNegative(s: Strategy)
    requires ValidStrategy(s)
    ensures var b, u := SmallReserve(3, 0, 0), SmallUser(2, 0, 2);
            && Sound(b) && CanSwap(b, u, Stable, 1)
            && var after := AfterSwapRateMode(s, b, u, Stable, 1);
               && !Sound(after) && after.averageStableBorrowRate == -4 && after.principalStableDebt == 1
               && var e := WithStableRepaid(b, 2, 2, 1);
                  e.averageStableBorrowRate == 0 == e.totalStableDebt
  {
    hide RayMul, RayDiv, BroughtUpTo, ValidStrategy, Sound, Ready, TotalStableDebt, VariableDebtBalance, SwapDefined,
         AfterSwapRateMode, InVariableDebt;
    var b, u := SmallReserve(3, 0, 0), SmallUser(2, 0, 2);
    SmallReserveIsSound(3, 0, 0);
    UpdatedIndex(b, 1);
    SwapValidExactly(s, b, u, Stable, 1);
    SwapKeepsDebts(s, b, u, Stable, 1);
  }

  /** Repaying one of ten units at a rate of 1 where the average is 0 (SmallReserve(10, 0, 0) is such a
      reserve): the weighted rate left is negative, but truncates to zero, so the clamp does not fire and the
      leftover of nine stays. */
  lemma LeftoverStays(b: Reserve, t: int)
    requires Sound(b) && t >= b.lastUpdateTimestamp && StableDebtNow(b, t) == 10 && b.averageStableBorrowRate == 0
    ensures var e := WithStableRepaid(b, 1, 1, t);
            e.totalStableDebt == e.principalStableDebt == 9 && e.averageStableBorrowRate == 0
  {
    hide Sound, TotalStableDebt, RayMul, BroughtUpTo, AverageStableRate;
    StableClampsExactly(b, 1, 1, t);
  }

  /** One unit is owed at a variable rate, nothing else, and two are repaid (SmallReserve(0, 1, 0) is such a
      reserve): the calculation goes through and leaves a negative scaled debt. */
  lemma RepaidTwiceOver(s: Strategy, b: Reserve, u: User)
    requires ValidStrategy(s) && Sound(b) && b.lastUpdateTimestamp == 1
    requires b.scaledVariableDebt == 1 && b.variableBorrowIndex == RAY && b.principalStableDebt == 0
    requires b.availableLiquidity == 0 == b.unbacked
    ensures RepayDefined(s, b, u, 2, Variable, 1) && !CanRepay(b, 2, Variable, 1)
    ensures AfterRepay(s, b, u, 2, Variable, 1).scaledVariableDebt == -1
    ensures !Sound(AfterRepay(s, b, u, 2, Variable, 1))
  {
    hide ValidStrategy, Sound, Ready, TotalStableDebt, VariableDebtBalance, UserStableDebt, NextVariableBorrowIndex,
         AfterRepay, RatesDefined, Updated, RayMul, RayDiv;
    NothingAccruesAtOnce(b, 1);
    OverRepaidRecord(b, u);
    NoDebtNoDivisor(s, 2);
    RepayValidExactly(s, b, u, 2, Variable, 1);
    RepayKeepsScaled(s, b, u, 2, Variable, 1);
  }

  lemma OverRepaidRecord(b: Reserve, u: User)
    requires Sound(b) && b.lastUpdateTimestamp == 1
    requires b.scaledVariableDebt == 1 && b.variableBorrowIndex == RAY && b.principalStableDebt == 0
    requires b.unbacked == 0
    ensures NextVariableBorrowIndex(b, 1) == RAY && RayDiv(2, RAY) == 2
    ensures var e, up := WithRepaid(b, 2, u.stableBorrowRate, Variable, 1), Updated(b, 1);
            && e.scaledVariableDebt == -1 && e.totalVariableDebt == 0 == e.totalStableDebt && e.unbacked == 0
            && up.totalVariableDebt == 1 && up.totalStableDebt == 0 && up.unbacked == 0
  {
    hide Sound, TotalStableDebt, AccruedToTreasury, NextVariableBorrowIndex, NextLiquidityIndex, RayMul, RayDiv;
    NothingAccruesAtOnce(b, 1);
    UpdatedIndex(b, 1);
    NothingOwedNow(b, 1);
    SmallProducts();
    UpdatedLiquidity(b, 1);
  }

  lemma SmallProducts()
    ensures RayDiv(2, RAY) == 2 && RayMul(1, RAY) == 1 && RayMul(-1, RAY) == 0
  {
  }

  lemma NoDebtNoDivisor(s: Strategy, available: int)
    ensures RatesDefined(s, 0, 0, available, available)
  {
  }

  /** A reserve without liquidity, three units owed at a stable rate (SmallReserve(3, 0, 0) is one): a borrow and a
      withdrawal of one unit go through all the same and leave negative liquidity. */
  lemma TakenBeyondLiquidity(s: Strategy, b: Reserve, u: User)
    requires ValidStrategy(s) && s.optimalUtilizationRate < RAY
    requires Sound(b) && b.lastUpdateTimestamp == 1 && StableDebtNow(b, 1) == 3 && b.scaledVariableDebt == 0
    requires b.availableLiquidity == 0 == b.unbacked
    ensures BorrowDefined(s, b, 1, Stable, 1, 1) && WithdrawDefined(s, b, u, 1, 1)
    ensures AfterBorrow(s, b, 1, Stable, 1, 1).availableLiquidity == -1
    ensures !Sound(AfterBorrow(s, b, 1, Stable, 1, 1)) && !Sound(AfterWithdraw(s, b, u, 1, 1))
  {
    hide Sound, RatesDefined, ValidStrategy, BorrowSettles, WithdrawDefined, AfterBorrow, AfterWithdraw,
         TotalStableDebt;
    ThreeOwed(s, b);
    OneWithdrawn(s, b, u);
    BorrowValidExactly(s, b, 1, Stable, 1, 1);
    BorrowedLiquidity(s, b, 1, Stable, 1, 1);
    WithdrawValidExactly(s, b, u, 1, 1);
  }

  lemma OneWithdrawn(s: Strategy, b: Reserve, u: User)
    requires ValidStrategy(s) && s.optimalUtilizationRate < RAY
    requires Sound(b) && b.lastUpdateTimestamp == 1 && StableDebtNow(b, 1) == 3 && b.scaledVariableDebt == 0
    requires b.availableLiquidity == 0 == b.unbacked
    ensures WithdrawDefined(s, b, u, 1, 1) && WithdrawnAmount(b, u, 1, 1) == 1
  {
    hide Sound, RatesDefined, Updated, TotalStableDebt;
    NoVariableDebtAccrues(b);
    UpdatedLiquidity(b, 1);
    UpdatedIndex(b, 1);
    DefinedBeyondLiquidity(s, 3);
  }

  /** The update leaves no variable debt. */
  lemma NoVariableDebtAccrues(b: Reserve)
    requires Sound(b) && b.lastUpdateTimestamp == 1 && b.scaledVariableDebt == 0
    ensures Updated(b, 1).totalVariableDebt == 0
  {
    hide RayMul, AccruedToTreasury, TotalStableDebt, NextVariableBorrowIndex;
    IndexesGrow(b, 1);
    RayMulZero(NextVariableBorrowIndex(b, 1));
  }

  lemma DefinedBeyondLiquidity(s: Strategy, debt: int)
    requires s.optimalUtilizationRate < RAY && debt >= 3
    ensures RatesDefined(s, debt, 0, -1, -1)
  {
    hide RayDiv;
    RayDivShare(debt, debt);
  }

  lemma ThreeOwed(s: Strategy, b: Reserve)
    requires ValidStrategy(s) && s.optimalUtilizationRate < RAY
    requires Sound(b) && b.lastUpdateTimestamp == 1 && StableDebtNow(b, 1) == 3 && b.scaledVariableDebt == 0
    requires b.availableLiquidity == 0 == b.unbacked
    ensures BorrowDefined(s, b, 1, Stable, 1, 1)
  {
    hide Sound, RatesDefined, Updated, TotalStableDebt, AverageStableRate, InterestRates, BorrowUtilization,
         SupplyUtilization, NormalizedDebt, ValidStrategy;
    NoVariableDebtAccrues(b);
    UpdatedLiquidity(b, 1);
    UpdatedIndex(b, 1);
    DefinedBeyondLiquidity(s, 4);
    var e := WithBorrowed(b, 1, Stable, 1);
    PrincipalNow(e.principalStableDebt, e.averageStableBorrowRate);
    RayMulZero(NormalizedDebt(Priced(s, Measured(e, -1)).variableBorrowRate, e.variableBorrowIndex, 1, 1));
  }

  lemma PrincipalNow(principal: int, rate: int)
    requires principal >= 0
    ensures TotalStableDebt(principal, rate, 1, 1) == principal
  {
    RayMulByRay(principal);
  }

  /** One unit is owed at a stable rate and the user's record says two: the swap goes through and leaves a negative
      stable debt (SmallReserve(1, 0, 0) and SmallUser(2, 0, 0) are such). */
  lemma SwappedBeyondDebt(s: Strategy, b: Reserve, u: User)
    requires ValidStrategy(s) && Sound(b) && b.lastUpdateTimestamp == 1
    requires StableDebtNow(b, 1) == 1 && UserStableDebt(u, 1) == 2
    requires b.scaledVariableDebt == 0 && b.variableBorrowIndex == RAY && b.availableLiquidity == 0 == b.unbacked
    ensures SwapDefined(s, b, u, Stable, 1) && !CanSwap(b, u, Stable, 1)
    ensures AfterSwapRateMode(s, b, u, Stable, 1).principalStableDebt == -1
    ensures !Sound(AfterSwapRateMode(s, b, u, Stable, 1))
  {
    hide Sound, RatesDefined, Updated, TotalStableDebt, AverageStableRate, AfterSwapRateMode, UserStableDebt, RayMul,
         RayDiv, NextVariableBorrowIndex, ValidStrategy;
    NothingAccruesAtOnce(b, 1);
    UpdatedLiquidity(b, 1);
    UpdatedIndex(b, 1);
    TwoScaled();
    NegativeStableDefined(s);
    SwapValidExactly(s, b, u, Stable, 1);
    SwapKeepsDebts(s, b, u, Stable, 1);
  }

  lemma TwoScaled()
    ensures RayDiv(2, RAY) == 2 && RayMul(2, RAY) == 2
  {
  }

  lemma NegativeStableDefined(s: Strategy)
    ensures RatesDefined(s, -1, 2, 0, 0)
  {
    hide RayDiv;
    RayDivShare(1, 1);
  }
}
