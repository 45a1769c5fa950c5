/** What the user's record says after each action: every balance moves by the amount, and is worth what the record
    itself and the reserve's record make it. */
module UserFields {
  import opened WadRayMath
  import opened Interest
  import opened RateStrategy
  import opened ReserveModel
  import opened ReserveActions
  import opened DebtActions
  import opened RepayActions
  import opened UserModel
  import opened Balances
  import opened StableDrift
  import opened Runs
  import opened Ledger
  import opened Solvency

  /** An amount, scaled to the index, is what a scaled balance moves by. */
  ghost predicate ScaledBy(moved: int, amount: int, index: int) {
    2 * Abs(index * moved - RAY * amount) <= index
  }

  lemma ScaledMove(amount: int, index: int)
    requires amount >= 0 && index > 0
    ensures ScaledBy(RayDiv(amount, index), amount, index)
  {
    ScaledValue(amount, index);
    var q := RayDiv(amount, index);
    assert index * q == q * index;
  }

  // ---------- Suppliers ----------

  /** A deposit is credited: the balance rises by exactly the amount, the scaled one by the amount at the index, which
      is also what the supply gains,
        and the wallet pays it. The stable principal is overwritten with the variable debt. */
  lemma DepositCredits(s: Strategy, b: Reserve, u: User, amount: int, t: int, supply: int)
    requires ValidStrategy(s) && Sound(b) && t >= b.lastUpdateTimestamp && amount >= 0
    ensures Enabled(b, Deposit(amount), t)
    ensures var after := AfterDeposit(s, b, amount, t);
            && after.liquidityIndex == NextLiquidityIndex(b, t) >= RAY
            && var v := UserAfterDeposit(u, amount, b, after, t);
               && v.currentATokenBalance == ATokenBalance(b, u, t) + amount
               && ScaledBy(v.scaledATokenBalance - u.scaledATokenBalance, amount, after.liquidityIndex)
               && v.scaledATokenBalance - u.scaledATokenBalance
                  == SupplyAfter(s, b, supply, Deposit(amount), t) - supply
               && v.walletBalance == u.walletBalance - amount
               && (v.usageAsCollateralEnabled <==> u.currentATokenBalance == 0 || u.usageAsCollateralEnabled)
               && v.liquidityRate == after.liquidityRate
               && v.currentStableDebt == UserStableDebt(u, t) && v.currentVariableDebt == VariableDebtBalance(b, u, t)
               && v.scaledVariableDebt == u.scaledVariableDebt && v.stableBorrowRate == u.stableBorrowRate
               && v.stableRateLastUpdated == u.stableRateLastUpdated
               && v.principalStableDebt == VariableDebtBalance(b, u, t)
  {
    hide RayMul, RayDiv, InterestRates, BorrowUtilization, SupplyUtilization, BroughtUpTo, NextLiquidityIndex, Ready,
         Sound, UserStableDebt, VariableDebtBalance, ATokenBalance, ScaledBy;
    UpdatedIndex(b, t);
    RayDivZero(NextLiquidityIndex(b, t));
    ScaledMove(amount, NextLiquidityIndex(b, t));
  }

  /** A withdrawal is debited likewise: exactly the amount, which is the whole balance if everything is asked for. As
      after a deposit the two balances agree, as long as no more than the balance is withdrawn. */
  lemma WithdrawDebits(s: Strategy, b: Reserve, u: User, amount: int, t: int, supply: int)
    requires ValidStrategy(s) && Sound(b) && t >= b.lastUpdateTimestamp
    requires 0 <= WithdrawnAmount(b, u, amount, t) <= b.availableLiquidity
    ensures Enabled(b, Withdraw(amount, u), t)
    ensures WithdrawnAmount(b, u, amount, t) == if amount == MAX_UINT_AMOUNT then ATokenBalance(b, u, t) else amount
    ensures var withdrawn, after := WithdrawnAmount(b, u, amount, t), AfterWithdraw(s, b, u, amount, t);
            && after.liquidityIndex == NextLiquidityIndex(b, t) >= RAY
            && var v := UserAfterWithdraw(u, amount, b, after, t);
               && v.currentATokenBalance == ATokenBalance(b, u, t) - withdrawn
               && ScaledBy(u.scaledATokenBalance - v.scaledATokenBalance, withdrawn, after.liquidityIndex)
               && u.scaledATokenBalance - v.scaledATokenBalance
                  == supply - SupplyAfter(s, b, supply, Withdraw(amount, u), t)
               && (u.scaledATokenBalance >= 0 && withdrawn <= ATokenBalance(b, u, t) ==>
                     && v.scaledATokenBalance >= 0
                     && 2 * RAY * Abs(RayMul(v.scaledATokenBalance, after.liquidityIndex) - v.currentATokenBalance)
                        <= 2 * RAY + after.liquidityIndex)
               && v.walletBalance == u.walletBalance + withdrawn
               && (v.usageAsCollateralEnabled
                   <==> u.currentATokenBalance == 0 || (v.currentATokenBalance != 0 && u.usageAsCollateralEnabled))
               && v.liquidityRate == after.liquidityRate
               && v.currentStableDebt == UserStableDebt(u, t) && v.currentVariableDebt == VariableDebtBalance(b, u, t)
               && v.scaledVariableDebt == u.scaledVariableDebt && v.principalStableDebt == u.principalStableDebt
               && v.stableBorrowRate == u.stableBorrowRate && v.stableRateLastUpdated == u.stableRateLastUpdated
  {
    hide RayMul, RayDiv, InterestRates, BorrowUtilization, SupplyUtilization, BroughtUpTo, NextLiquidityIndex, Ready,
         Sound, UserStableDebt, VariableDebtBalance, NormalizedIncome, ScaledBy, RatesDefined;
    UpdatedIndex(b, t);
    var index, withdrawn := NextLiquidityIndex(b, t), WithdrawnAmount(b, u, amount, t);
    RayDivZero(index);
    ScaledMove(withdrawn, index);
    IncomeIsNextIndex(b, t);
    if u.scaledATokenBalance >= 0 && withdrawn <= ATokenBalance(b, u, t) {
      WithdrawalAgrees(u.scaledATokenBalance, withdrawn, index);
    }
  }

  lemma WithdrawalAgrees(scaled: int, withdrawn: int, index: int)
    requires scaled >= 0 && index >= RAY && 0 <= withdrawn <= RayMul(scaled, index)
    ensures RayDiv(withdrawn, index) <= scaled
    ensures 2 * RAY * Abs(RayMul(scaled - RayDiv(withdrawn, index), index) - (RayMul(scaled, index) - withdrawn))
            <= 2 * RAY + index
  {
    hide RayMul, RayDiv;
    ScaledRoundTrip(scaled, index);
    RayDivMonotone(withdrawn, index, RayMul(scaled, index), index);
    DepositGap(scaled - RayDiv(withdrawn, index), withdrawn, index);
  }

  // ---------- Borrowers ----------

  /** After a borrow all three balances are the record's own, valued with the reserve's record at the current time;
      the stable mode adds the amount to the principal, starts a new interval and averages the rate. */
  lemma BorrowRecord(s: Strategy, b: Reserve, u: User, amount: int, mode: RateMode, t: int, current: int)
    requires ValidStrategy(s) && Sound(b) && b.lastUpdateTimestamp <= t <= current
    requires 0 <= amount <= b.availableLiquidity && (mode.Stable? ==> UserStableDebt(u, t) + amount != 0)
    ensures var after := AfterBorrow(s, b, amount, mode, t, current);
            && after.variableBorrowIndex >= RAY
            && var v := UserAfterBorrow(u, amount, mode, b, after, t, current);
               && v.currentStableDebt == UserStableDebt(v, current)
               && v.currentVariableDebt == VariableDebtBalance(after, v, current)
               && v.currentATokenBalance == ATokenBalance(after, v, current)
               && v.walletBalance == u.walletBalance + amount && v.liquidityRate == after.liquidityRate
               && v.scaledATokenBalance == u.scaledATokenBalance
               && v.usageAsCollateralEnabled == u.usageAsCollateralEnabled
               && (mode.Stable? ==>
                     && v.principalStableDebt == UserStableDebt(u, t) + amount && v.stableRateLastUpdated == t
                     && v.scaledVariableDebt == u.scaledVariableDebt
                     && (UserStableDebt(u, t) >= 0 && u.stableBorrowRate >= 0 ==>
                           MeanRate(v.stableBorrowRate, UserStableDebt(u, t), u.stableBorrowRate, amount,
                                    b.stableBorrowRate)))
               && (mode.Variable? ==>
                     && v.principalStableDebt == u.principalStableDebt && v.stableBorrowRate == u.stableBorrowRate
                     && v.stableRateLastUpdated == u.stableRateLastUpdated
                     && ScaledBy(v.scaledVariableDebt - b.scaledVariableDebt, amount, after.variableBorrowIndex))
  {
    hide AfterBorrow, Sound, StableDebtTokenBalance, NormalizedDebt, NormalizedIncome, RayMul, RayDiv, UserStableRate,
         ScaledBy, MeanRate;
    BorrowValid(s, b, amount, mode, t, current);
    var after := AfterBorrow(s, b, amount, mode, t, current);
    IndexAtLeastRay(after);
    ScaledMove(amount, after.variableBorrowIndex);
    SoundDebts(b);
    if mode.Stable? && UserStableDebt(u, t) >= 0 && u.stableBorrowRate >= 0 {
      RateIsMean(UserStableDebt(u, t), u.stableBorrowRate, amount, b.stableBorrowRate);
    }
  }

  /** The debt-weighted mean of two rates, rounded down. */
  ghost predicate MeanRate(rate: int, debt: int, debtRate: int, amount: int, amountRate: int) {
    rate * (debt + amount) <= debt * debtRate + amount * amountRate < (rate + 1) * (debt + amount)
  }

  lemma RateIsMean(debt: int, debtRate: int, amount: int, amountRate: int)
    requires debt >= 0 && amount >= 0 && debt + amount != 0 && debtRate >= 0 && amountRate >= 0
    ensures MeanRate(UserStableRate(debt, debtRate, amount, amountRate), debt, debtRate, amount, amountRate)
  {
    hide AverageStableRate, UserStableRate;
    UserRateIsWeightedMean(debt, debtRate, amount, amountRate);
    AverageFloor(debtRate, debt, amount, amountRate);
    var rate := UserStableRate(debt, debtRate, amount, amountRate);
    assert debtRate * debt == debt * debtRate && amountRate * amount == amount * amountRate;
    assert (rate + 1) * (debt + amount) == rate * (debt + amount) + (debt + amount);
  }

  /** A repayment takes exactly the amount off the debt it names, valued at the current time, resets rate and timestamp
      of a stable debt exactly when nothing is left, and is paid from the user's wallet only on the own behalf. In the
      variable mode the two stable balances end up exchanged. */
  lemma RepayRecord(s: Strategy, b: Reserve, u: User, amount: int, mode: RateMode, own: bool, t: int, current: int)
    requires ValidStrategy(s) && Sound(b) && t >= b.lastUpdateTimestamp
    requires CanRepay(b, RepaidAmount(b, u, amount, mode, t), mode, t)
    ensures var after := AfterRepay(s, b, u, amount, mode, t);
            && after.variableBorrowIndex == NextVariableBorrowIndex(b, t) >= RAY
            && var v, repaid := UserAfterRepay(u, amount, mode, b, after, own, t, current),
                                UserRepaidAmount(u, amount, mode, b, current);
               && repaid == (if Abs(amount) != MAX_UINT_AMOUNT then amount
                             else if mode.Stable? then UserStableDebt(u, current)
                             else VariableDebtBalance(b, u, current))
               && v.walletBalance == (if own then u.walletBalance - repaid else u.walletBalance)
               && v.liquidityRate == after.liquidityRate && v.scaledATokenBalance == u.scaledATokenBalance
               && v.currentATokenBalance == ATokenBalance(b, u, t)
               && v.usageAsCollateralEnabled == u.usageAsCollateralEnabled
               && (mode.Stable? ==>
                     && v.principalStableDebt == v.currentStableDebt == UserStableDebt(u, current) - repaid
                     && UserStableDebt(v, t) == v.principalStableDebt
                     && (v.principalStableDebt == 0 ==> v.stableBorrowRate == 0 == v.stableRateLastUpdated)
                     && (v.principalStableDebt != 0 ==>
                           v.stableBorrowRate == u.stableBorrowRate && v.stableRateLastUpdated == t)
                     && v.scaledVariableDebt == u.scaledVariableDebt
                     && v.currentVariableDebt == VariableDebtBalance(b, u, current))
               && (mode.Variable? ==>
                     && (repaid >= 0 ==>
                           ScaledBy(u.scaledVariableDebt - v.scaledVariableDebt, repaid, after.variableBorrowIndex))
                     && v.currentVariableDebt == RayMul(v.scaledVariableDebt, after.variableBorrowIndex)
                     && v.principalStableDebt == UserStableDebt(u, current)
                     && v.currentStableDebt == u.principalStableDebt && v.stableBorrowRate == u.stableBorrowRate
                     && v.stableRateLastUpdated == u.stableRateLastUpdated)
  {
    hide AfterRepay, Sound, CalcCompoundedInterest, NormalizedDebt, NormalizedIncome, RayMul, RayDiv, ScaledBy,
         CanRepay, NextVariableBorrowIndex;
    RepayDebts(s, b, u, amount, mode, t);
    UpdatedIndex(b, t);
    var repaid := UserRepaidAmount(u, amount, mode, b, current);
    if repaid >= 0 { ScaledMove(repaid, NextVariableBorrowIndex(b, t)); }
  }

  /** A swap moves the whole debt of one mode into the other. Into the stable mode the debt is added to the stable debt
      on record, which is the accrued one if it is up to date, and the rate is the mean of both. */
  lemma SwapRecord(s: Strategy, b: Reserve, u: User, mode: RateMode, t: int)
    requires ValidStrategy(s) && Sound(b) && t >= b.lastUpdateTimestamp && CanSwap(b, u, mode, t)
    requires mode.Variable? ==> UserStableDebt(u, t) + VariableDebtBalance(b, u, t) != 0
    ensures var after := AfterSwapRateMode(s, b, u, mode, t);
            && after.variableBorrowIndex == NextVariableBorrowIndex(b, t) >= RAY
            && var v := UserAfterSwapRateMode(u, mode, b, after, t);
               && v.currentATokenBalance == ATokenBalance(b, u, t) && v.scaledATokenBalance == u.scaledATokenBalance
               && v.liquidityRate == after.liquidityRate && v.walletBalance == u.walletBalance
               && v.usageAsCollateralEnabled == u.usageAsCollateralEnabled
               && v.currentVariableDebt == RayMul(v.scaledVariableDebt, after.variableBorrowIndex)
               && v.currentStableDebt == v.principalStableDebt == UserStableDebt(v, t)
               && (mode.Stable? ==>
                     && v.principalStableDebt == 0 == v.stableBorrowRate == v.stableRateLastUpdated
                     && ScaledBy(v.scaledVariableDebt - u.scaledVariableDebt, UserStableDebt(u, t),
                                 after.variableBorrowIndex))
               && (mode.Variable? ==>
                     && v.scaledVariableDebt == 0 && v.stableRateLastUpdated == t
                     && v.principalStableDebt == u.currentStableDebt + VariableDebtBalance(b, u, t)
                     && (u.currentStableDebt == UserStableDebt(u, t) ==>
                           v.principalStableDebt == UserStableDebt(u, t) + VariableDebtBalance(b, u, t))
                     && (UserStableDebt(u, t) >= 0 && u.stableBorrowRate >= 0 ==>
                           MeanRate(v.stableBorrowRate, UserStableDebt(u, t), u.stableBorrowRate,
                                    VariableDebtBalance(b, u, t), b.stableBorrowRate)))
  {
    hide AfterSwapRateMode, Sound, CalcCompoundedInterest, NormalizedDebt, NormalizedIncome, RayMul, RayDiv, ScaledBy,
         NextVariableBorrowIndex, UserStableRate, MeanRate, InVariableDebt, StableDebtNow;
    SwapDebts(s, b, u, mode, t);
    UpdatedIndex(b, t);
    SoundDebts(b);
    RayMulZero(NextVariableBorrowIndex(b, t));
    if mode.Stable? {
      ScaledMove(UserStableDebt(u, t), NextVariableBorrowIndex(b, t));
    } else if UserStableDebt(u, t) >= 0 && u.stableBorrowRate >= 0 {
      RateIsMean(UserStableDebt(u, t), u.stableBorrowRate, VariableDebtBalance(b, u, t), b.stableBorrowRate);
    }
  }

  /** Rebalancing makes the accrued debt the principal of a new interval at the reserve's new average rate. */
  lemma RebalanceRecord(s: Strategy, b: Reserve, u: User, t: int)
    requires ValidStrategy(s) && Sound(b) && t >= b.lastUpdateTimestamp
    ensures var after := AfterStableRateRebalance(s, b, u, t);
            var v := UserAfterStableRateRebalance(u, b, after, t);
            && v.principalStableDebt == v.currentStableDebt == UserStableDebt(u, t) == UserStableDebt(v, t)
            && v.stableRateLastUpdated == t && v.stableBorrowRate == after.averageStableBorrowRate
            && v.currentVariableDebt == VariableDebtBalance(b, u, t) && v.scaledVariableDebt == u.scaledVariableDebt
            && v.currentATokenBalance == ATokenBalance(b, u, t) && v.scaledATokenBalance == u.scaledATokenBalance
            && v.liquidityRate == after.liquidityRate && v.walletBalance == u.walletBalance
            && v.usageAsCollateralEnabled == u.usageAsCollateralEnabled
  {
    hide AfterStableRateRebalance, Sound, CalcCompoundedInterest, NormalizedDebt, NormalizedIncome, RayMul;
  }

  /** The balances those records carry over are what the reserve's new record makes of them. */
  lemma CarriedBalances(s: Strategy, b: Reserve, u: User, a: Action, t: int)
    requires ValidStrategy(s) && Sound(b) && Enabled(b, a, t) && !a.BackUnbacked?
    requires 0 <= u.scaledVariableDebt <= b.scaledVariableDebt
    ensures var after := After(s, b, a, t);
            && t >= b.lastUpdateTimestamp
            && ATokenBalance(b, u, t) == RayMul(u.scaledATokenBalance, after.liquidityIndex)
            && VariableDebtBalance(b, u, t) == RayMul(u.scaledVariableDebt, NextVariableBorrowIndex(b, t))
  {
    hide After, Sound, Enabled, RayMul, NormalizedIncome, NextLiquidityIndex, VariableDebtBalance, Updated,
         NextVariableBorrowIndex;
    SameIndex(s, b, a, t);
    UpdatedIndex(b, t);
    IncomeIsNextIndex(b, t);
    VariableDebtScalesBack(b, u, t);
  }
}
