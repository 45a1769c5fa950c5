/** The user calculations in their own form: a record filled in, and partly overwritten, field by field. */
module UserRecords {
  import opened WadRayMath
  import opened ReserveModel
  import opened UserModel

  class UserReserveData {
    var scaledATokenBalance: int
    var currentATokenBalance: int
    var currentStableDebt: int
    var currentVariableDebt: int
    var principalStableDebt: int
    var scaledVariableDebt: int
    var liquidityRate: int
    var stableBorrowRate: int
    var stableRateLastUpdated: int
    var usageAsCollateralEnabled: bool
    var walletBalance: int

    function View(): User
      reads this
    {
      User(scaledATokenBalance, currentATokenBalance, currentStableDebt, currentVariableDebt, principalStableDebt,
           scaledVariableDebt, liquidityRate, stableBorrowRate, stableRateLastUpdated, usageAsCollateralEnabled,
           walletBalance)
    }
  }

  /** The spread copy that the swap and rebalance calculations start from. */
  method Copied(u: User) returns (expected: UserReserveData)
    ensures fresh(expected) && expected.View() == u
  {
    expected := new UserReserveData;
    expected.scaledATokenBalance, expected.currentATokenBalance := u.scaledATokenBalance, u.currentATokenBalance;
    expected.currentStableDebt, expected.currentVariableDebt := u.currentStableDebt, u.currentVariableDebt;
    expected.principalStableDebt, expected.scaledVariableDebt := u.principalStableDebt, u.scaledVariableDebt;
    expected.liquidityRate, expected.stableBorrowRate := u.liquidityRate, u.stableBorrowRate;
    expected.stableRateLastUpdated, expected.usageAsCollateralEnabled :=
      u.stableRateLastUpdated, u.usageAsCollateralEnabled;
    expected.walletBalance := u.walletBalance;
  }

  method CalcExpectedUserDataAfterDeposit(amountDeposited: int, before: Reserve, after: Reserve, u: User,
                                          txTimestamp: int)
    returns (expected: UserReserveData)
    requires after.liquidityIndex != 0
    ensures fresh(expected) && expected.View() == UserAfterDeposit(u, amountDeposited, before, after, txTimestamp)
  {
    hide ATokenBalance, VariableDebtBalance, UserStableDebt, RayDiv;
    expected := new UserReserveData;
    expected.scaledVariableDebt := u.scaledVariableDebt;
    expected.stableBorrowRate := u.stableBorrowRate;
    expected.stableRateLastUpdated := u.stableRateLastUpdated;
    expected.liquidityRate := after.liquidityRate;
    expected.scaledATokenBalance := ScaledATokenBalance(u, after.liquidityIndex, amountDeposited, 0);
    expected.currentATokenBalance := ATokenBalance(before, u, txTimestamp) + amountDeposited;
    if u.currentATokenBalance == 0 {
      expected.usageAsCollateralEnabled := true;
    } else {
      expected.usageAsCollateralEnabled := u.usageAsCollateralEnabled;
    }
    expected.walletBalance := u.walletBalance - amountDeposited;
    expected.principalStableDebt := UserStableDebt(u, txTimestamp);
    expected.currentStableDebt := expected.principalStableDebt;
    expected.principalStableDebt := VariableDebtBalance(before, u, txTimestamp);
    expected.currentVariableDebt := expected.principalStableDebt;
  }

  method CalcExpectedUserDataAfterWithdraw(amountWithdrawn: int, before: Reserve, after: Reserve, u: User,
                                           txTimestamp: int)
    returns (expected: UserReserveData)
    requires after.liquidityIndex != 0
    ensures fresh(expected) && expected.View() == UserAfterWithdraw(u, amountWithdrawn, before, after, txTimestamp)
  {
    hide ATokenBalance, VariableDebtBalance, UserStableDebt, RayDiv;
    expected := new UserReserveData;
    var aTokenBalance := ATokenBalance(before, u, txTimestamp);
    var amount := amountWithdrawn;
    if amount == MAX_UINT_AMOUNT {
      amount := aTokenBalance;
    }
    expected.scaledATokenBalance := ScaledATokenBalance(u, after.liquidityIndex, 0, amount);
    expected.currentATokenBalance := aTokenBalance - amount;
    expected.principalStableDebt := u.principalStableDebt;
    expected.scaledVariableDebt := u.scaledVariableDebt;
    expected.currentStableDebt := UserStableDebt(u, txTimestamp);
    expected.currentVariableDebt := VariableDebtBalance(before, u, txTimestamp);
    expected.stableBorrowRate := u.stableBorrowRate;
    expected.stableRateLastUpdated := u.stableRateLastUpdated;
    expected.liquidityRate := after.liquidityRate;
    if u.currentATokenBalance == 0 {
      expected.usageAsCollateralEnabled := true;
    } else if expected.currentATokenBalance == 0 {
      expected.usageAsCollateralEnabled := false;
    } else {
      expected.usageAsCollateralEnabled := u.usageAsCollateralEnabled;
    }
    expected.walletBalance := u.walletBalance + amount;
  }

  method CalcExpectedUserDataAfterBorrow(amountBorrowed: int, mode: RateMode, before: Reserve, after: Reserve, u: User,
                                         txTimestamp: int, currentTimestamp: int)
    returns (expected: UserReserveData)
    requires after.variableBorrowIndex != 0
    requires mode.Stable? ==> UserStableDebt(u, txTimestamp) + amountBorrowed != 0
    ensures fresh(expected)
    ensures expected.View() == UserAfterBorrow(u, amountBorrowed, mode, before, after, txTimestamp, currentTimestamp)
  {
    hide ATokenBalance, StableDebtTokenBalance, NormalizedDebt, RayDiv, RayMul, UserStableRate;
    expected := new UserReserveData;
    if mode.Stable? {
      var stableDebtUntilTx := UserStableDebt(u, txTimestamp);
      expected.principalStableDebt := stableDebtUntilTx + amountBorrowed;
      expected.stableRateLastUpdated := txTimestamp;
      expected.stableBorrowRate :=
        UserStableRate(stableDebtUntilTx, u.stableBorrowRate, amountBorrowed, before.stableBorrowRate);
      expected.currentStableDebt :=
        StableDebtTokenBalance(expected.principalStableDebt, expected.stableBorrowRate, txTimestamp, currentTimestamp);
      expected.scaledVariableDebt := u.scaledVariableDebt;
    } else {
      expected.scaledVariableDebt := before.scaledVariableDebt + RayDiv(amountBorrowed, after.variableBorrowIndex);
      expected.principalStableDebt := u.principalStableDebt;
      expected.stableBorrowRate := u.stableBorrowRate;
      expected.stableRateLastUpdated := u.stableRateLastUpdated;
      expected.currentStableDebt := UserStableDebt(u, currentTimestamp);
    }
    expected.currentVariableDebt := VariableDebtBalance(after, expected.View(), currentTimestamp);
    expected.liquidityRate := after.liquidityRate;
    expected.usageAsCollateralEnabled := u.usageAsCollateralEnabled;
    expected.currentATokenBalance := ATokenBalance(after, u, currentTimestamp);
    expected.scaledATokenBalance := u.scaledATokenBalance;
    expected.walletBalance := u.walletBalance + amountBorrowed;
  }

  method CalcExpectedUserDataAfterRepay(totalRepaid: int, mode: RateMode, before: Reserve, after: Reserve, u: User,
                                        ownBehalf: bool, txTimestamp: int, currentTimestamp: int)
    returns (expected: UserReserveData)
    requires after.variableBorrowIndex != 0
    ensures fresh(expected)
    ensures expected.View()
            == UserAfterRepay(u, totalRepaid, mode, before, after, ownBehalf, txTimestamp, currentTimestamp)
  {
    hide ATokenBalance, UserStableDebt, VariableDebtBalance, RayDiv, RayMul;
    expected := new UserReserveData;
    var variableDebt := VariableDebtBalance(before, u, currentTimestamp);
    var stableDebt := UserStableDebt(u, currentTimestamp);
    var repaid := totalRepaid;
    if Abs(repaid) == MAX_UINT_AMOUNT {
      repaid := if mode.Stable? then stableDebt else variableDebt;
    }
    if mode.Stable? {
      expected.scaledVariableDebt := u.scaledVariableDebt;
      expected.currentVariableDebt := variableDebt;
      expected.currentStableDebt := stableDebt - repaid;
      expected.principalStableDebt := expected.currentStableDebt;
      if expected.currentStableDebt == 0 {
        expected.stableRateLastUpdated := 0;
        expected.stableBorrowRate := 0;
      } else {
        expected.stableBorrowRate := u.stableBorrowRate;
        expected.stableRateLastUpdated := txTimestamp;
      }
    } else {
      expected.currentStableDebt := u.principalStableDebt;
      expected.principalStableDebt := stableDebt;
      expected.stableBorrowRate := u.stableBorrowRate;
      expected.stableRateLastUpdated := u.stableRateLastUpdated;
      expected.scaledVariableDebt := u.scaledVariableDebt - RayDiv(repaid, after.variableBorrowIndex);
      expected.currentVariableDebt := RayMul(expected.scaledVariableDebt, after.variableBorrowIndex);
    }
    expected.liquidityRate := after.liquidityRate;
    expected.usageAsCollateralEnabled := u.usageAsCollateralEnabled;
    expected.currentATokenBalance := ATokenBalance(before, u, txTimestamp);
    expected.scaledATokenBalance := u.scaledATokenBalance;
    expected.walletBalance := if ownBehalf then u.walletBalance - repaid else u.walletBalance;
  }

  method CalcExpectedUserDataAfterSwapRateMode(before: Reserve, after: Reserve, u: User, mode: RateMode,
                                               txTimestamp: int)
    returns (expected: UserReserveData)
    requires after.variableBorrowIndex != 0
    requires mode.Variable? ==> UserStableDebt(u, txTimestamp) + VariableDebtBalance(before, u, txTimestamp) != 0
    ensures fresh(expected) && expected.View() == UserAfterSwapRateMode(u, mode, before, after, txTimestamp)
  {
    hide ATokenBalance, UserStableDebt, VariableDebtBalance, RayDiv, RayMul, UserStableRate;
    expected := Copied(u);
    var stableDebtBalance := UserStableDebt(u, txTimestamp);
    var variableDebtBalance := VariableDebtBalance(before, u, txTimestamp);
    expected.currentATokenBalance := ATokenBalance(before, u, txTimestamp);
    if mode.Stable? {
      expected.currentStableDebt, expected.principalStableDebt := 0, 0;
      expected.stableBorrowRate := 0;
      expected.scaledVariableDebt := u.scaledVariableDebt + RayDiv(stableDebtBalance, after.variableBorrowIndex);
      expected.currentVariableDebt := RayMul(expected.scaledVariableDebt, after.variableBorrowIndex);
      expected.stableRateLastUpdated := 0;
    } else {
      expected.currentStableDebt := u.currentStableDebt + variableDebtBalance;
      expected.principalStableDebt := expected.currentStableDebt;
      expected.stableBorrowRate :=
        UserStableRate(stableDebtBalance, u.stableBorrowRate, variableDebtBalance, before.stableBorrowRate);
      expected.stableRateLastUpdated := txTimestamp;
      expected.scaledVariableDebt, expected.currentVariableDebt := 0, 0;
    }
    expected.liquidityRate := after.liquidityRate;
  }

  method CalcExpectedUserDataAfterStableRateRebalance(before: Reserve, after: Reserve, u: User, txTimestamp: int)
    returns (expected: UserReserveData)
    ensures fresh(expected) && expected.View() == UserAfterStableRateRebalance(u, before, after, txTimestamp)
  {
    hide ATokenBalance, UserStableDebt, VariableDebtBalance;
    expected := Copied(u);
    expected.principalStableDebt := UserStableDebt(u, txTimestamp);
    expected.currentStableDebt := expected.principalStableDebt;
    expected.currentVariableDebt := VariableDebtBalance(before, u, txTimestamp);
    expected.stableRateLastUpdated := txTimestamp;
    expected.stableBorrowRate := after.averageStableBorrowRate;
    expected.liquidityRate := after.liquidityRate;
    expected.currentATokenBalance := ATokenBalance(before, u, txTimestamp);
  }
}
