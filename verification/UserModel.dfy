/** The user's record after each action, given the reserve before and after it. */
module UserModel {
  import opened WadRayMath
  import opened ReserveModel
  import opened ReserveActions
  import opened RepayActions

  /** The principal is overwritten with the variable debt, as the source does. */
  function UserAfterDeposit(u: User, amount: int, before: Reserve, after: Reserve, t: int): User
    requires after.liquidityIndex != 0
  {
    var variableDebt := VariableDebtBalance(before, u, t);
    u.(scaledATokenBalance := ScaledATokenBalance(u, after.liquidityIndex, amount, 0),
       currentATokenBalance := ATokenBalance(before, u, t) + amount,
       currentStableDebt := UserStableDebt(u, t),
       currentVariableDebt := variableDebt,
       principalStableDebt := variableDebt,
       liquidityRate := after.liquidityRate,
       usageAsCollateralEnabled := u.currentATokenBalance == 0 || u.usageAsCollateralEnabled,
       walletBalance := u.walletBalance - amount)
  }

  function UserAfterWithdraw(u: User, amount: int, before: Reserve, after: Reserve, t: int): User
    requires after.liquidityIndex != 0
  {
    var withdrawn := WithdrawnAmount(before, u, amount, t);
    var left := ATokenBalance(before, u, t) - withdrawn;
    u.(scaledATokenBalance := ScaledATokenBalance(u, after.liquidityIndex, 0, withdrawn),
       currentATokenBalance := left,
       currentStableDebt := UserStableDebt(u, t),
       currentVariableDebt := VariableDebtBalance(before, u, t),
       liquidityRate := after.liquidityRate,
       usageAsCollateralEnabled := u.currentATokenBalance == 0 || (left != 0 && u.usageAsCollateralEnabled),
       walletBalance := u.walletBalance + withdrawn)
  }

  /** The variable side starts from the reserve's scaled debt, as the source does. */
  function UserAfterBorrow(u: User, amount: int, mode: RateMode, before: Reserve, after: Reserve, t: int,
                           current: int): User
    requires after.variableBorrowIndex != 0
    requires mode.Stable? ==> UserStableDebt(u, t) + amount != 0
  {
    var r :=
      if mode.Stable? then
        var debt := UserStableDebt(u, t);
        var rate := UserStableRate(debt, u.stableBorrowRate, amount, before.stableBorrowRate);
        u.(principalStableDebt := debt + amount,
           stableRateLastUpdated := t,
           stableBorrowRate := rate,
           currentStableDebt := StableDebtTokenBalance(debt + amount, rate, t, current))
      else
        u.(scaledVariableDebt := before.scaledVariableDebt + RayDiv(amount, after.variableBorrowIndex),
           currentStableDebt := UserStableDebt(u, current));
    r.(currentVariableDebt := VariableDebtBalance(after, r, current),
       liquidityRate := after.liquidityRate,
       currentATokenBalance := ATokenBalance(after, u, current),
       walletBalance := u.walletBalance + amount)
  }

  /** Resolved against the balances at `current`, not at the transaction. */
  function UserRepaidAmount(u: User, amount: int, mode: RateMode, before: Reserve, current: int): int {
    RepaidAmount(before, u, amount, mode, current)
  }

  function UserAfterRepay(u: User, amount: int, mode: RateMode, before: Reserve, after: Reserve, ownBehalf: bool,
                          t: int, current: int): User
    requires after.variableBorrowIndex != 0
  {
    var repaid := UserRepaidAmount(u, amount, mode, before, current);
    var stableDebt := UserStableDebt(u, current);
    var r :=
      if mode.Stable? then
        var left := stableDebt - repaid;
        u.(currentVariableDebt := VariableDebtBalance(before, u, current),
           principalStableDebt := left,
           currentStableDebt := left,
           stableBorrowRate := if left == 0 then 0 else u.stableBorrowRate,
           stableRateLastUpdated := if left == 0 then 0 else t)
      else
        var scaled := u.scaledVariableDebt - RayDiv(repaid, after.variableBorrowIndex);
        u.(currentStableDebt := u.principalStableDebt,
           principalStableDebt := stableDebt,
           scaledVariableDebt := scaled,
           currentVariableDebt := RayMul(scaled, after.variableBorrowIndex));
    r.(liquidityRate := after.liquidityRate,
       currentATokenBalance := ATokenBalance(before, u, t),
       walletBalance := if ownBehalf then u.walletBalance - repaid else u.walletBalance)
  }

  function UserAfterSwapRateMode(u: User, mode: RateMode, before: Reserve, after: Reserve, t: int): User
    requires after.variableBorrowIndex != 0
    requires mode.Variable? ==> UserStableDebt(u, t) + VariableDebtBalance(before, u, t) != 0
  {
    var stableDebt, variableDebt := UserStableDebt(u, t), VariableDebtBalance(before, u, t);
    var r :=
      if mode.Stable? then
        var scaled := u.scaledVariableDebt + RayDiv(stableDebt, after.variableBorrowIndex);
        u.(currentStableDebt := 0, principalStableDebt := 0, stableBorrowRate := 0, stableRateLastUpdated := 0,
           scaledVariableDebt := scaled,
           currentVariableDebt := RayMul(scaled, after.variableBorrowIndex))
      else
        u.(principalStableDebt := u.currentStableDebt + variableDebt,
           currentStableDebt := u.currentStableDebt + variableDebt,
           stableBorrowRate := UserStableRate(stableDebt, u.stableBorrowRate, variableDebt, before.stableBorrowRate),
           stableRateLastUpdated := t,
           currentVariableDebt := 0,
           scaledVariableDebt := 0);
    r.(currentATokenBalance := ATokenBalance(before, u, t),
       liquidityRate := after.liquidityRate)
  }

  function UserAfterStableRateRebalance(u: User, before: Reserve, after: Reserve, t: int): User {
    var debt := UserStableDebt(u, t);
    u.(principalStableDebt := debt,
       currentStableDebt := debt,
       currentVariableDebt := VariableDebtBalance(before, u, t),
       stableRateLastUpdated := t,
       stableBorrowRate := after.averageStableBorrowRate,
       liquidityRate := after.liquidityRate,
       currentATokenBalance := ATokenBalance(before, u, t))
  }
}
