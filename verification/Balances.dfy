/** Users against the reserve: which index their balances follow, what a full exit leaves, and what a deposit
    is worth. */
module Balances {
  import opened WadRayMath
  import opened Interest
  import opened RateStrategy
  import opened ReserveModel
  import opened ReserveActions
  import opened RepayActions
  import opened UserModel

  // ---------- The two guards on "nothing to compound" agree ----------

  /** A balance is valued with a guard on the liquidity rate, the index moves under a guard on the supply
      utilization; on sound reserves both give the same index. */
  lemma IncomeIsNextIndex(b: Reserve, t: int)
    requires Sound(b)
    ensures NormalizedIncome(b, t) == NextLiquidityIndex(b, t)
  {
    if b.liquidityRate == 0 {
      assert CalcLinearInterest(0, t, b.lastUpdateTimestamp) == RAY;
      RayMulByRay(b.liquidityIndex);
    }
  }

  /** Likewise for debt: valued under a guard on the rate, indexed under a guard on the total debt. */
  lemma NormalizedDebtIsNextIndex(b: Reserve, t: int)
    requires Sound(b) && t >= b.lastUpdateTimestamp && b.scaledVariableDebt > 0
    ensures NormalizedDebt(b.variableBorrowRate, b.variableBorrowIndex, b.lastUpdateTimestamp, t)
            == NextVariableBorrowIndex(b, t)
  {
    hide RayMul;
    if b.variableBorrowRate == 0 {
      CompoundedAtZero(t, b.lastUpdateTimestamp);
      RayMulByRay(b.variableBorrowIndex);
    }
  }

  lemma CompoundedAtZero(t: int, last: int)
    requires t >= last
    ensures CalcCompoundedInterest(0, t, last) == RAY
  {
    CompoundedTerms(0, t - last, last);
    assert RayMul(0, 0) == 0;
    assert BasePowerTwo(0) == 0 && BasePowerThree(0) == 0;
  }

  /** A user's accrued variable debt scales back to exactly the user's scaled debt, and is part of the
      reserve's. */
  lemma VariableDebtScalesBack(b: Reserve, u: User, t: int)
    requires Sound(b) && t >= b.lastUpdateTimestamp && 0 <= u.scaledVariableDebt <= b.scaledVariableDebt
    ensures var index := NextVariableBorrowIndex(b, t);
            && index >= RAY
            && VariableDebtBalance(b, u, t) == RayMul(u.scaledVariableDebt, index)
            && RayDiv(VariableDebtBalance(b, u, t), index) == u.scaledVariableDebt
            && u.scaledVariableDebt <= VariableDebtBalance(b, u, t) <= RayMul(b.scaledVariableDebt, index)
  {
    hide RayMul, RayDiv, CalcCompoundedInterest;
    IndexesGrow(b, t);
    var index := NextVariableBorrowIndex(b, t);
    if u.scaledVariableDebt > 0 { NormalizedDebtIsNextIndex(b, t); } else { ZeroTimes(b, t, index); }
    ScaledRoundTrip(u.scaledVariableDebt, index);
    RayMulMonotone(u.scaledVariableDebt, index, b.scaledVariableDebt, index);
    RayMulByIndex(u.scaledVariableDebt, index);
  }

  lemma ZeroTimes(b: Reserve, t: int, index: int)
    ensures RayMul(0, NormalizedDebt(b.variableBorrowRate, b.variableBorrowIndex, b.lastUpdateTimestamp, t))
            == RayMul(0, index) == 0
  {
    hide NormalizedDebt;
    var x := NormalizedDebt(b.variableBorrowRate, b.variableBorrowIndex, b.lastUpdateTimestamp, t);
    assert 0 * x == 0 && 0 * index == 0;
  }

  // ---------- Stable balances ----------

  /** A stable balance is not blind to the interest since `last`: it takes a timestamp of zero for "never", which
      shows once the interest is half a unit. */
  predicate BalanceSeesInterest(principal: int, rate: int, last: int, t: int) {
    last != 0 || 2 * (principal * (CalcCompoundedInterest(rate, t, last) - RAY)) < RAY
  }

  /** A balance and the reserve's total value the same principal through different guards; they agree exactly
      then. */
  lemma BalanceAgrees(principal: int, rate: int, last: int, t: int)
    requires principal >= 0 && rate >= 0 && t >= last
    ensures StableDebtTokenBalance(principal, rate, last, t) == TotalStableDebt(principal, rate, last, t)
       <==> BalanceSeesInterest(principal, rate, last, t)
  {
    hide RayMul, CalcCompoundedInterest;
    var c := CalcCompoundedInterest(rate, t, last);
    CompoundedMonotone(rate, 0, last, rate, t - last, last, CalcCompoundedInterest(rate, last, last), c);
    RayMulCommutes(principal, c);
    RayMulByRay(principal);
    if rate == 0 { CompoundedAtZero(t, last); }
    if t == last { NothingElapsed(rate, t); }
    MulLe(RAY, c, principal);
    RayMulNearest(c, principal);
    assert principal * (c - RAY) == c * principal - RAY * principal;
  }

  lemma NothingElapsed(rate: int, t: int)
    ensures CalcCompoundedInterest(rate, t, t) == RAY
  {
  }

  // ---------- Full exit ----------

  /** Withdrawing everything leaves no scaled balance, no balance, and takes exactly the balance out of
      the reserve. */
  lemma FullWithdrawalLeavesNoDust(s: Strategy, b: Reserve, u: User, t: int)
    requires ValidStrategy(s) && Sound(b) && t >= b.lastUpdateTimestamp && u.scaledATokenBalance >= 0
    requires ATokenBalance(b, u, t) <= b.availableLiquidity
    ensures var after := AfterWithdraw(s, b, u, MAX_UINT_AMOUNT, t);
            && after.liquidityIndex >= RAY
            && var left := UserAfterWithdraw(u, MAX_UINT_AMOUNT, b, after, t);
               && left.scaledATokenBalance == 0 && left.currentATokenBalance == 0 && ATokenBalance(after, left, t) == 0
               && left.walletBalance - u.walletBalance == ATokenBalance(b, u, t)
                  == b.availableLiquidity - after.availableLiquidity
               && (u.currentATokenBalance != 0 ==> !left.usageAsCollateralEnabled)
  {
    hide RayMul, RayDiv, InterestRates, BorrowUtilization, SupplyUtilization, AccruedToTreasury, TotalStableDebt,
         NextVariableBorrowIndex, NormalizedIncome, NextLiquidityIndex, Ready, Sound, UserStableDebt,
         VariableDebtBalance;
    UpdatedReady(b, t);
    UpdatedIndex(b, t);
    IncomeIsNextIndex(b, t);
    var index := NextLiquidityIndex(b, t);
    ScaledRoundTrip(u.scaledATokenBalance, index);
    RayDivZero(index);
    RayMulZero(NormalizedIncome(AfterWithdraw(s, b, u, MAX_UINT_AMOUNT, t), t));
  }

  lemma UpdatedIndex(b: Reserve, t: int)
    requires Sound(b) && t >= b.lastUpdateTimestamp
    ensures Updated(b, t).liquidityIndex == NextLiquidityIndex(b, t) >= RAY
    ensures Updated(b, t).variableBorrowIndex == NextVariableBorrowIndex(b, t) >= RAY
    ensures Updated(b, t).scaledVariableDebt == b.scaledVariableDebt
    ensures Updated(b, t).totalStableDebt == StableDebtNow(b, t)
  {
    hide RayMul, RayDiv, AccruedToTreasury, TotalStableDebt;
    IndexesGrow(b, t);
  }

  lemma RayDivZero(index: int)
    requires index > 0
    ensures RayDiv(0, index) == 0
  {
    RayDivNearest(0, index);
    NearestSameRatio(RayDiv(0, index), 0, index, 0, 0, index);
  }

  lemma RayMulZero(x: int)
    ensures RayMul(0, x) == 0
  {
    assert 0 * x == 0;
  }

  /** Repaying all variable debt clears the user's scaled debt and takes exactly that much off the
      reserve's, while the wallet pays exactly what the reserve receives. */
  lemma FullRepaymentLeavesNoDust(s: Strategy, b: Reserve, u: User, t: int)
    requires ValidStrategy(s) && Sound(b) && t >= b.lastUpdateTimestamp
    requires 0 <= u.scaledVariableDebt <= b.scaledVariableDebt
    ensures CanRepay(b, RepaidAmount(b, u, MAX_UINT_AMOUNT, Variable, t), Variable, t)
    ensures var after := AfterRepay(s, b, u, MAX_UINT_AMOUNT, Variable, t);
            && after.variableBorrowIndex >= RAY
            && after.scaledVariableDebt == b.scaledVariableDebt - u.scaledVariableDebt
            && var left := UserAfterRepay(u, MAX_UINT_AMOUNT, Variable, b, after, true, t, t);
               && left.scaledVariableDebt == 0 && left.currentVariableDebt == 0
               && u.walletBalance - left.walletBalance == after.availableLiquidity - b.availableLiquidity
  {
    hide RayMul, RayDiv, InterestRates, BorrowUtilization, SupplyUtilization, BroughtUpTo, NextVariableBorrowIndex,
         Ready, Sound, UserStableDebt, VariableDebtBalance, ATokenBalance;
    VariableDebtScalesBack(b, u, t);
    UpdatedIndex(b, t);
    RepaidReady(b, VariableDebtBalance(b, u, t), u.stableBorrowRate, Variable, t);
    RayMulZero(NextVariableBorrowIndex(b, t));
  }

  /** Repaying all stable debt resets the user's position, and of the reserve's debt leaves at most what
      other borrowers owe. */
  lemma FullStableRepaymentClears(s: Strategy, b: Reserve, u: User, t: int)
    requires ValidStrategy(s) && Sound(b) && t >= b.lastUpdateTimestamp && UserStableDebt(u, t) >= 0
    ensures CanRepay(b, RepaidAmount(b, u, MAX_UINT_AMOUNT, Stable, t), Stable, t)
    ensures var after := AfterRepay(s, b, u, MAX_UINT_AMOUNT, Stable, t);
            && after.variableBorrowIndex >= RAY
            && (after.totalStableDebt == StableDebtNow(b, t) - UserStableDebt(u, t)
                || (after.totalStableDebt == 0 && after.averageStableBorrowRate == 0))
            && (UserStableDebt(u, t) >= StableDebtNow(b, t)
                ==> after.totalStableDebt == 0 && after.averageStableBorrowRate == 0)
            && var left := UserAfterRepay(u, MAX_UINT_AMOUNT, Stable, b, after, true, t, t);
               && left.principalStableDebt == 0 && left.currentStableDebt == 0
               && left.stableBorrowRate == 0 && left.stableRateLastUpdated == 0
               && u.walletBalance - left.walletBalance == after.availableLiquidity - b.availableLiquidity
  {
    hide RayMul, RayDiv, InterestRates, BorrowUtilization, SupplyUtilization, BroughtUpTo, NextVariableBorrowIndex,
         Ready, Sound, UserStableDebt, VariableDebtBalance, ATokenBalance, StableDebtNow, Div;
    UpdatedIndex(b, t);
    RepaidReady(b, UserStableDebt(u, t), u.stableBorrowRate, Stable, t);
  }

  // ---------- Deposits ----------

  /** The balance expected after a deposit, old balance plus amount, and the new scaled balance valued at
      the index agree within 1 + index/(2·RAY). */
  lemma DepositAgreement(s: Strategy, b: Reserve, u: User, amount: int, t: int)
    requires ValidStrategy(s) && Sound(b) && t >= b.lastUpdateTimestamp && amount >= 0 && u.scaledATokenBalance >= 0
    ensures var after := AfterDeposit(s, b, amount, t);
            && after.liquidityIndex >= RAY
            && var holds := UserAfterDeposit(u, amount, b, after, t);
               var gap := Abs(RayMul(holds.scaledATokenBalance, after.liquidityIndex) - holds.currentATokenBalance);
               && 2 * RAY * gap <= 2 * RAY + after.liquidityIndex
               && (after.liquidityIndex < 6 * RAY ==> gap <= 3)
  {
    hide RayMul, RayDiv, InterestRates, BorrowUtilization, SupplyUtilization, AccruedToTreasury, TotalStableDebt,
         NextVariableBorrowIndex, NormalizedIncome, NextLiquidityIndex, Ready, Sound, UserStableDebt,
         VariableDebtBalance;
    UpdatedReady(b, t);
    UpdatedIndex(b, t);
    IncomeIsNextIndex(b, t);
    RayDivZero(NextLiquidityIndex(b, t));
    DepositGap(u.scaledATokenBalance, amount, NextLiquidityIndex(b, t));
  }

  lemma DepositGap(scaled: int, amount: int, index: int)
    requires scaled >= 0 && amount >= 0 && index >= RAY
    ensures 2 * RAY * Abs(RayMul(scaled + RayDiv(amount, index), index) - (RayMul(scaled, index) + amount))
            <= 2 * RAY + index
  {
    var q := RayDiv(amount, index);
    RayDivNearest(amount, index);
    RayDivMonotone(amount, index, amount, index);
    MulLe(0, scaled, index);
    MulLe(0, q, index);
    RayMulNearest(scaled, index);
    assert (scaled + q) * index == scaled * index + index * q;
    RayMulNearest(scaled + q, index);
  }

  function Sum(amounts: seq<int>): int {
    if amounts == [] then 0 else amounts[0] + Sum(amounts[1..])
  }

  /** Scaled balance credited for a sequence of deposits at one index. */
  function Credited(amounts: seq<int>, index: int): int
    requires index != 0
  {
    if amounts == [] then 0 else RayDiv(amounts[0], index) + Credited(amounts[1..], index)
  }

  /** Splitting a deposit into n parts changes what is credited by at most (n + 1)/2. */
  lemma SplitDeposit(amounts: seq<int>, index: int)
    requires index >= RAY && forall k | 0 <= k < |amounts| :: amounts[k] >= 0
    ensures Sum(amounts) >= 0
    ensures 2 * Abs(Credited(amounts, index) - RayDiv(Sum(amounts), index)) <= |amounts| + 1
  {
    hide RayDiv;
    CreditedGap(amounts, index);
    var total, whole := Credited(amounts, index), RayDiv(Sum(amounts), index);
    RayDivNearest(Sum(amounts), index);
    var gap := index * (total - whole);
    assert 2 * Abs(gap) <= index * (|amounts| + 1) by {
      assert gap == index * total - index * whole;
      assert index * (|amounts| + 1) == index * |amounts| + index;
    }
    DivideGap(total - whole, index, |amounts| + 1);
  }

  lemma DivideGap(d: int, index: int, n: int)
    requires index > 0 && 2 * Abs(index * d) <= index * n
    ensures 2 * Abs(d) <= n
  {
    if d >= 0 { MulLe(0, d, index); } else { MulLe(d, 0, index); }
    assert Abs(index * d) == index * Abs(d);
    MulLtCancel(2 * Abs(d), n + 1, index) by { assert (n + 1) * index == index * n + index; }
  }

  lemma {:induction false} CreditedGap(amounts: seq<int>, index: int)
    requires index >= RAY && forall k | 0 <= k < |amounts| :: amounts[k] >= 0
    ensures Sum(amounts) >= 0
    ensures 2 * Abs(index * Credited(amounts, index) - Sum(amounts) * RAY) <= index * |amounts|
  {
    hide RayDiv;
    if amounts != [] {
      var rest := amounts[1..];
      assert forall k | 0 <= k < |rest| :: rest[k] == amounts[k + 1];
      CreditedGap(rest, index);
      RayDivNearest(amounts[0], index);
      assert index * Credited(amounts, index) == index * RayDiv(amounts[0], index) + index * Credited(rest, index);
      assert index * |amounts| == index * |rest| + index;
    }
  }
}
