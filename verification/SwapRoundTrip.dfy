/** Swapping a variable debt to the stable mode and back at one timestamp. */
module SwapRoundTrip {
  import opened WadRayMath
  import opened Interest
  import opened RateStrategy
  import opened ReserveModel
  import opened ReserveActions
  import opened DebtActions
  import opened RepayActions
  import opened UserModel
  import opened Balances

  /** At the timestamp of its last update nothing accrues. */
  lemma NothingAccruesAtOnce(b: Reserve, t: int)
    requires Sound(b) && b.lastUpdateTimestamp == t
    ensures NextVariableBorrowIndex(b, t) == b.variableBorrowIndex
    ensures b.totalStableDebtLastUpdated == t ==> StableDebtNow(b, t) == b.principalStableDebt
  {
    RayMulByRay(b.variableBorrowIndex);
    RayMulByRay(b.principalStableDebt);
  }

  /** The reserve after the first swap. */
  lemma AfterFirstSwap(s: Strategy, b: Reserve, u: User, t: int)
    requires ValidStrategy(s) && Sound(b) && t >= b.lastUpdateTimestamp
    requires 0 < u.scaledVariableDebt <= b.scaledVariableDebt
    ensures CanSwap(b, u, Variable, t)
    ensures var mid := AfterSwapRateMode(s, b, u, Variable, t);
            var debt := VariableDebtBalance(b, u, t);
            && Sound(mid) && debt > 0 && RayDiv(debt, mid.variableBorrowIndex) == u.scaledVariableDebt
            && mid.scaledVariableDebt == b.scaledVariableDebt - u.scaledVariableDebt
            && mid.principalStableDebt == StableDebtNow(b, t) + debt
            && mid.averageStableBorrowRate
               == AverageStableRate(b.averageStableBorrowRate, b.totalStableDebt, debt, b.stableBorrowRate)
            && mid.lastUpdateTimestamp == t && mid.totalStableDebtLastUpdated == t
            && mid.variableBorrowIndex == NextVariableBorrowIndex(b, t)
            && mid.availableLiquidity == b.availableLiquidity && mid.unbacked == b.unbacked
            && StableDebtNow(b, t) >= 0
  {
    hide RayMul, RayDiv, InterestRates, BorrowUtilization, SupplyUtilization, BroughtUpTo, NextVariableBorrowIndex,
         Ready, Sound, UserStableDebt, VariableDebtBalance, TotalStableDebt, AverageStableRate;
    VariableDebtScalesBack(b, u, t);
    UpdatedIndex(b, t);
    SwapValidExactly(s, b, u, Variable, t);
    SwappedDebts(b, u, Variable, t);
    SoundDebts(b);
    StableDebtGrows(b.principalStableDebt, b.averageStableBorrowRate, b.totalStableDebtLastUpdated, t, t);
    UpdatedLiquidity(b, t);
  }

  lemma UpdatedLiquidity(b: Reserve, t: int)
    requires Sound(b) && t >= b.lastUpdateTimestamp
    ensures Updated(b, t).unbacked == b.unbacked
  {
    hide RayMul, TotalStableDebt, AccruedToTreasury;
    IndexesGrow(b, t);
  }

  /** The average rate over all stable debt once `debt` has joined it, rounded down, in the fields of the
      reserve before. It is weighted with the total on record, not the accrued one. */
  function JoinedRate(b: Reserve, debt: int): int
    requires b.totalStableDebt >= 0 && debt > 0
  {
    (b.averageStableBorrowRate * b.totalStableDebt + b.stableBorrowRate * debt) / (b.totalStableDebt + debt)
  }

  /** What the return trip may take out: all of it if nothing else is owed at a stable rate, otherwise what
      the joined rate collects on all stable debt, and less than one unit per unit of debt more. */
  predicate ReturnsSound(b: Reserve, debt: int, others: int)
    requires b.totalStableDebt >= 0 && debt > 0
  {
    others == 0 || b.stableBorrowRate * debt < JoinedRate(b, debt) * (others + debt) + others
  }

  /** A user without stable debt who swaps to stable at any time and back at once: the user's and the
      reserve's scaled variable debt are restored exactly, total stable debt to its accrued value. The
      average stable rate is not restored: rounding down on the way in may leave it negative on the way out,
      and the reserve ends sound exactly if it does not. */
  lemma SwapThereAndBack(s: Strategy, b: Reserve, u: User, t: int)
    requires ValidStrategy(s) && Sound(b) && t >= b.lastUpdateTimestamp
    requires 0 < u.scaledVariableDebt <= b.scaledVariableDebt
    requires u.principalStableDebt == 0 && u.currentStableDebt == 0
    ensures CanSwap(b, u, Variable, t) && VariableDebtBalance(b, u, t) > 0 && b.totalStableDebt >= 0
    ensures var mid := AfterSwapRateMode(s, b, u, Variable, t);
            && Sound(mid) && mid.variableBorrowIndex >= RAY && mid.lastUpdateTimestamp == t
            && UserStableDebt(u, t) + VariableDebtBalance(b, u, t) != 0
            && var uMid := UserAfterSwapRateMode(u, Variable, b, mid, t);
               && CanSwap(mid, uMid, Stable, t)
               && var end := AfterSwapRateMode(s, mid, uMid, Stable, t);
                  && end.variableBorrowIndex >= RAY
                  && end.scaledVariableDebt == b.scaledVariableDebt
                  && end.totalVariableDebt == RayMul(b.scaledVariableDebt, NextVariableBorrowIndex(b, t))
                  && end.totalStableDebt == end.principalStableDebt == StableDebtNow(b, t)
                  && end.availableLiquidity == b.availableLiquidity && end.unbacked == b.unbacked
                  && ReturnRate(b, VariableDebtBalance(b, u, t), StableDebtNow(b, t), end.averageStableBorrowRate)
                  && (Sound(end) <==> ReturnsSound(b, VariableDebtBalance(b, u, t), StableDebtNow(b, t)))
                  && var uEnd := UserAfterSwapRateMode(uMid, Stable, mid, end, t);
                     && uEnd.scaledVariableDebt == u.scaledVariableDebt
                     && uEnd.principalStableDebt == 0 && uEnd.walletBalance == u.walletBalance
  {
    hide RayMul, RayDiv, InterestRates, BorrowUtilization, SupplyUtilization, BroughtUpTo, NextVariableBorrowIndex,
         Ready, Sound, VariableDebtBalance, StableDebtNow, AfterSwapRateMode, UserStableRate, AverageStableRate,
         JoinedRate, Div;
    AfterFirstSwap(s, b, u, t);
    UpdatedIndex(b, t);
    NoStableDebt(u, t);
    SoundDebts(b);
    var mid := AfterSwapRateMode(s, b, u, Variable, t);
    var uMid := UserAfterSwapRateMode(u, Variable, b, mid, t);
    var debt, others := VariableDebtBalance(b, u, t), StableDebtNow(b, t);
    NothingAccruesAtOnce(mid, t);
    SecondSwap(s, mid, uMid, debt, t);
    SwapValidExactly(s, mid, uMid, Stable, t);
    FirstRates(b, u, debt);
    ReturnAverage(mid.averageStableBorrowRate, others, debt, b.stableBorrowRate);
  }

  /** Entering the stable mode with no stable debt, the user is given the reserve's current rate and the
      reserve the joined one. */
  lemma FirstRates(b: Reserve, u: User, debt: int)
    requires b.totalStableDebt >= 0 && debt > 0 && b.averageStableBorrowRate >= 0 && b.stableBorrowRate >= 0
    ensures UserStableRate(0, u.stableBorrowRate, debt, b.stableBorrowRate) == b.stableBorrowRate
    ensures AverageStableRate(b.averageStableBorrowRate, b.totalStableDebt, debt, b.stableBorrowRate)
            == JoinedRate(b, debt)
  {
    MulLe(0, b.averageStableBorrowRate, b.totalStableDebt);
    MulLe(0, b.stableBorrowRate, debt);
    assert 0 * u.stableBorrowRate == 0;
    ExactMean(debt, b.stableBorrowRate);
  }

  lemma ExactMean(debt: int, rate: int)
    requires debt > 0 && rate >= 0
    ensures Div(debt * rate, debt) == rate
  {
    MulLe(0, rate, debt);
    hide Div;
    DivTruncates(debt * rate, debt);
    var q := Div(debt * rate, debt);
    assert debt * (rate - q) == debt * rate - debt * q;
    if q < rate { MulLe(1, rate - q, debt); } else if q > rate { MulLe(rate - q, -1, debt); }
  }

  lemma ReturnAverage(average: int, others: int, debt: int, rate: int)
    ensures AverageStableRate(average, others + debt, Negated(debt), rate)
         == if others == 0 then 0 else Div(average * (others + debt) - rate * debt, others)
  {
    assert rate * Negated(debt) == -(rate * debt);
  }

  /** The average rate at the end: what is left of the joined rate, truncated toward zero. */
  ghost predicate ReturnRate(b: Reserve, debt: int, others: int, average: int)
    requires b.totalStableDebt >= 0 && debt > 0
  {
    average == if others == 0 then 0 else Div(JoinedRate(b, debt) * (others + debt) - b.stableBorrowRate * debt, others)
  }

  lemma NothingOwedNow(r: Reserve, t: int)
    requires r.principalStableDebt == 0
    ensures StableDebtNow(r, t) == 0
  {
    hide CalcCompoundedInterest;
    var c := CalcCompoundedInterest(r.averageStableBorrowRate, t, r.totalStableDebtLastUpdated);
    RayMulCommutes(0, c);
    RayMulZero(c);
  }

  lemma NoStableDebt(u: User, t: int)
    requires u.principalStableDebt == 0
    ensures UserStableDebt(u, t) == 0
  {
    var c := CalcCompoundedInterest(u.stableBorrowRate, t, u.stableRateLastUpdated);
    assert 0 * c == 0;
  }

  /** The way back for a user holding exactly `debt`, taken up at this very timestamp. */
  lemma SecondSwap(s: Strategy, b: Reserve, u: User, debt: int, t: int)
    requires ValidStrategy(s) && Sound(b) && b.lastUpdateTimestamp == t && b.totalStableDebtLastUpdated == t
    requires u.principalStableDebt == debt && u.stableRateLastUpdated == t && 0 <= debt <= b.principalStableDebt
    ensures CanSwap(b, u, Stable, t) && UserStableDebt(u, t) == debt && b.variableBorrowIndex > 0
    ensures var end := AfterSwapRateMode(s, b, u, Stable, t);
            && end.variableBorrowIndex == b.variableBorrowIndex
            && end.scaledVariableDebt == b.scaledVariableDebt + RayDiv(debt, b.variableBorrowIndex)
            && end.totalVariableDebt == RayMul(end.scaledVariableDebt, b.variableBorrowIndex)
            && end.totalStableDebt == end.principalStableDebt == b.principalStableDebt - debt
            && end.averageStableBorrowRate
               == AverageStableRate(b.averageStableBorrowRate, b.principalStableDebt, Negated(debt), u.stableBorrowRate)
            && end.availableLiquidity == b.availableLiquidity && end.unbacked == b.unbacked
  {
    hide RayMul, RayDiv, InterestRates, BorrowUtilization, SupplyUtilization, BroughtUpTo, NextVariableBorrowIndex,
         Ready, Sound, StableDebtNow, AverageStableRate;
    NothingAccruesAtOnce(b, t);
    UpdatedIndex(b, t);
    UpdatedLiquidity(b, t);
  }

  /** With the total on record up to date, an average worth the swapped debt is enough to come back sound. */
  lemma WeightyAverageReturnsSound(b: Reserve, debt: int)
    requires b.totalStableDebt >= 0 && debt > 0 && b.averageStableBorrowRate * b.totalStableDebt >= debt
    ensures ReturnsSound(b, debt, b.totalStableDebt)
  {
  }

  // ---------- A reserve that does not come back sound ----------

  /** A few units of debt at second 1, everything lent, all stable debt interest-free. */
  function SmallReserve(stable: nat, variable: nat, stableRate: nat): Reserve {
    Reserve(0, 0, 0, stable, variable, stable, variable, 0, 0, stableRate, RAY, RAY, RAY, RAY, 0, 1, 1, 0, 0, 0)
  }

  /** A user with so much debt of each kind, the stable one taken up at second 1. */
  function SmallUser(stable: nat, variable: nat, stableRate: nat): User {
    User(0, 0, stable, variable, stable, variable, 0, stableRate, if stable == 0 then 0 else 1, false, 0)
  }

  lemma SmallReserveIsSound(stable: nat, variable: nat, stableRate: nat)
    ensures Sound(SmallReserve(stable, variable, stableRate))
    ensures StableDebtNow(SmallReserve(stable, variable, stableRate), 1) == stable
  {
    NothingAccruesAtOnce(SmallReserve(stable, variable, stableRate), 1);
  }

  /** One unit is owed at a stable rate of 0 and two at a variable rate. The stable rate on offer is 2: going
      there and back makes the joined rate 4/3, stored as 1, and takes 2 · 2 out of 3 · 1. */
  lemma RoundTripEndsUnsound(s: Strategy)
    requires ValidStrategy(s)
    ensures var b, u := SmallReserve(1, 2, 2), SmallUser(0, 2, 0);
            && Sound(b) && CanSwap(b, u, Variable, 1)
            && var mid := AfterSwapRateMode(s, b, u, Variable, 1);
               && Sound(mid) && mid.variableBorrowIndex != 0 && mid.lastUpdateTimestamp == 1
               && UserStableDebt(u, 1) + VariableDebtBalance(b, u, 1) != 0
               && var uMid := UserAfterSwapRateMode(u, Variable, b, mid, 1);
                  && CanSwap(mid, uMid, Stable, 1)
                  && var end := AfterSwapRateMode(s, mid, uMid, Stable, 1);
                     end.averageStableBorrowRate == -1 && !Sound(end)
  {
    hide RayMul, AfterSwapRateMode, UserAfterSwapRateMode, CanSwap, ValidStrategy, StableDebtNow, Sound,
         CalcCompoundedInterest, UserStableDebt, Updated;
    var b, u := SmallReserve(1, 2, 2), SmallUser(0, 2, 0);
    SmallReserveIsSound(1, 2, 2);
    RayMulByRay(2);
    assert JoinedRate(b, 2) == 1;
    SwapThereAndBack(s, b, u, 1);
  }
}
