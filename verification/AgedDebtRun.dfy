/** A run at whose end suppliers earn three times what accrues: the stable debt has been left alone for ten years. */
module AgedDebtRun {
  import opened WadRayMath
  import opened Interest
  import opened DecimalOrder
  import opened RateStrategy
  import opened ReserveModel
  import opened ReserveActions
  import opened DebtActions
  import opened RepayActions
  import opened Balances
  import opened SwapRoundTrip
  import opened Runs
  import opened Treasury
  import opened Ledger
  import opened CurrentRates
  import opened Earnings
  import opened SoleBorrower

  const FLAT := Strategy(HALF_RAY, 0, 0, 0, 0, 0, 0, 0, 0)

  /** One ray is deposited and borrowed at 100% stable; ten years later somebody deposits nothing. */
  function Steps(): seq<Step> {
    [Step(Deposit(RAY), 1), Step(Borrow(RAY, Stable, 1), 1), Step(Deposit(0), 1 + 10 * ONE_YEAR)]
  }

  /** A reserve with no variable debt, at some time. */
  ghost predicate Plain(r: Reserve, available: int, principal: int, t: int) {
    && Sound(r) && r.availableLiquidity == available && r.unbacked == 0 && r.lastUpdateTimestamp == t
    && r.principalStableDebt == principal && r.totalStableDebtLastUpdated == 1 && r.scaledVariableDebt == 0
    && r.marketStableRate == RAY
  }

  lemma DepositLeaves(s: Strategy, r: Reserve, amount: nat, available: int, principal: nat, last: int, t: int)
    requires ValidStrategy(s) && Plain(r, available, principal, last) && last <= t
    ensures Enabled(r, Deposit(amount), t)
    ensures var next := After(s, r, Deposit(amount), t);
            && Plain(next, available + amount, principal, t) && RatesCurrent(s, next)
            && (principal != 0 ==> next.averageStableBorrowRate == r.averageStableBorrowRate)
  {
    hide After, Sound, RatesCurrent, Updated, ValidStrategy;
    StepKeeps(s, r, Deposit(amount), t);
    DebtFieldsKept(s, r, Deposit(amount), t);
    UpdatedDebts(r, t);
    UpdatedLiquidity(r, t);
    ActionsSetCurrentRates(s, r, Deposit(amount), t);
    DepositLiquidity(s, r, amount, t);
  }

  lemma BorrowLeaves(s: Strategy, r: Reserve, amount: nat)
    requires ValidStrategy(s) && Plain(r, amount, 0, 1) && amount > 0
    ensures Enabled(r, Borrow(amount, Stable, 1), 1)
    ensures var next := After(s, r, Borrow(amount, Stable, 1), 1);
            Plain(next, 0, amount, 1) && next.averageStableBorrowRate == r.stableBorrowRate
  {
    hide After, Sound, Updated, ValidStrategy, StableDebtNow, AverageStableRate, NextVariableBorrowIndex, Enabled,
         AfterBorrow, BorrowDefined, AgeDefined;
    EnabledBorrow(r, amount);
    BorrowedIsAfter(s, r, amount);
    StepKeeps(s, r, Borrow(amount, Stable, 1), 1);
    BorrowDebts(s, r, amount, Stable, 1, 1);
    BorrowAverage(s, r, amount, 1, 1);
    NothingOwedNow(r, 1);
    SoundDebts(r);
    FirstAverage(r.averageStableBorrowRate, amount, r.stableBorrowRate);
    BorrowLiquidity(s, r, amount);
    BorrowMarket(s, r, amount);
    UpdatedLiquidity(r, 1);
  }

  lemma BorrowedIsAfter(s: Strategy, r: Reserve, amount: nat)
    requires ValidStrategy(s) && Sound(r) && r.lastUpdateTimestamp == 1 && amount <= r.availableLiquidity
    requires Enabled(r, Borrow(amount, Stable, 1), 1)
    ensures After(s, r, Borrow(amount, Stable, 1), 1) == AfterBorrow(s, r, amount, Stable, 1, 1)
  {
    hide Sound, AfterBorrow, BorrowDefined, AgeDefined;
  }

  lemma BorrowMarket(s: Strategy, r: Reserve, amount: nat)
    requires ValidStrategy(s) && Sound(r) && r.lastUpdateTimestamp == 1 && amount <= r.availableLiquidity
    ensures AfterBorrow(s, r, amount, Stable, 1, 1).marketStableRate == r.marketStableRate
  {
    hide InterestRates, BorrowUtilization, SupplyUtilization, Sound, Ready, TotalStableDebt, RayMul,
         AverageStableRate, NormalizedDebt, BorrowDefined, AgeDefined, StableDebtAged;
  }

  lemma FirstAverage(average: int, amount: nat, rate: nat)
    requires amount > 0
    ensures AverageStableRate(average, 0, amount, rate) == rate
  {
    assert average * 0 + rate * amount == amount * rate;
    ExactMean(amount, rate);
  }

  lemma BorrowLiquidity(s: Strategy, r: Reserve, amount: nat)
    requires ValidStrategy(s) && Sound(r) && r.lastUpdateTimestamp == 1 && amount <= r.availableLiquidity
    ensures var next := After(s, r, Borrow(amount, Stable, 1), 1);
            next.availableLiquidity == r.availableLiquidity - amount && next.unbacked == Updated(r, 1).unbacked
  {
    hide InterestRates, BorrowUtilization, SupplyUtilization, Updated, Sound, Ready, TotalStableDebt, RayMul,
         AverageStableRate, NormalizedDebt, Enabled, BorrowDefined, AgeDefined, StableDebtAged;
    EnabledBorrow(r, amount);
  }

  lemma EnabledBorrow(r: Reserve, amount: nat)
    requires r.lastUpdateTimestamp == 1 && amount <= r.availableLiquidity
    ensures Enabled(r, Borrow(amount, Stable, 1), 1)
  {
  }

  // ---------- The rates ----------

  /** With no debt the flat strategy offers the market rate. */
  lemma OfferedRate(r: Reserve)
    requires RatesCurrent(FLAT, r) && Plain(r, r.availableLiquidity, 0, r.lastUpdateTimestamp)
    ensures r.stableBorrowRate == RAY
  {
    hide Sound, SupplyUtilization, LiquidityRate, OverallBorrowRate;
    NoDebtAtAll(r);
    assert RayMul(0, 0) == 0 && RayDiv(0, HALF_RAY) == 0;
  }

  lemma NoDebtAtAll(r: Reserve)
    requires r.principalStableDebt == 0 && r.scaledVariableDebt == 0
    ensures StableAtLastUpdate(r) == 0 == VariableAtLastUpdate(r)
  {
    hide RayMul, CalcCompoundedInterest;
    RayMulZero(r.variableBorrowIndex);
    RayMulZero(CalcCompoundedInterest(r.averageStableBorrowRate, r.lastUpdateTimestamp, r.totalStableDebtLastUpdated));
  }

  /** With everything lent at 100% stable, suppliers are promised 100%. */
  lemma PromisedRate(r: Reserve)
    requires RatesCurrent(FLAT, r) && Plain(r, 0, RAY, r.lastUpdateTimestamp) && r.averageStableBorrowRate == RAY
    requires StableAtLastUpdate(r) > 0
    ensures r.liquidityRate == RAY && Claims(r) == StableAtLastUpdate(r) && UtilizationIsShare(r)
  {
    hide Sound, JsGreater, RayMul, RayDiv, PercentMul, VariableRate, StableRate, StableAtLastUpdate,
         VariableAtLastUpdate;
    UnbackedOfSound(r);
    NoVariableDebt(r);
    var debt := StableAtLastUpdate(r);
    RayMulByRay(WadToRay(debt));
    RayMulByRay(RAY);
    RayDivShare(WadToRay(debt), WadToRay(debt));
    RayMulZero(r.variableBorrowRate);
    WholeByPercent();
    CapIdleWithoutUnbacked(debt, 0);
  }

  lemma NoVariableDebt(r: Reserve)
    requires r.scaledVariableDebt == 0
    ensures VariableAtLastUpdate(r) == 0
  {
    hide RayMul;
    RayMulZero(r.variableBorrowIndex);
  }

  lemma WholeByPercent()
    ensures PercentMul(RAY, PERCENTAGE_FACTOR) == RAY
  {
  }

  // ---------- Ten years ----------

  /** In the eleventh year the debt gains less than a third of itself, and suppliers earn all of it. */
  lemma EleventhYear(r: Reserve)
    requires RatesCurrent(FLAT, r) && Plain(r, 0, RAY, 1 + 10 * ONE_YEAR) && r.averageStableBorrowRate == RAY
    ensures Income(r, 1 + 11 * ONE_YEAR) > 3 * (RAY * DebtAccrued(r, Updated(r, 1 + 11 * ONE_YEAR)))
  {
    hide Sound, CalcCompoundedInterest, CalcLinearInterest, RayMul, Updated, RatesCurrent;
    TenYearsAtFullRate();
    ElevenYearsAtFullRate();
    RayMulByRay(CalcCompoundedInterest(RAY, 1 + 10 * ONE_YEAR, 1));
    RayMulByRay(CalcCompoundedInterest(RAY, 1 + 11 * ONE_YEAR, 1));
    PromisedRate(r);
    NoVariableDebt(r);
    RayMulZero(NextVariableBorrowIndex(r, 1 + 11 * ONE_YEAR));
    UpdatedDebts(r, 1 + 11 * ONE_YEAR);
    LinearInterestExact(RAY, ONE_YEAR, 1 + 10 * ONE_YEAR);
  }

  lemma TenYearsAtFullRate()
    ensures CalcCompoundedInterest(RAY, 1 + 10 * ONE_YEAR, 1) == 227663833252095494364121040000
  {
    hide BasePowerTwo, BasePowerThree, Div;
    PowersAtFullRate();
    assert Div(RAY * 315360000, ONE_YEAR) == 10000000000000000000000000000;
    assert Div(99999999682840337391349920000, 2) == 49999999841420168695674960000;
    assert Div(999983000464051954010676480000, 6) == 166663833410675325668446080000;
  }

  lemma ElevenYearsAtFullRate()
    ensures CalcCompoundedInterest(RAY, 1 + 11 * ONE_YEAR, 1) == 294329562287008629466965144000
  {
    hide BasePowerTwo, BasePowerThree, Div;
    PowersAtFullRate();
    assert Div(RAY * 346896000, ONE_YEAR) == 11000000000000000000000000000;
    assert Div(120999999651117579425652912000, 2) == 60499999825558789712826456000;
    assert Div(1330977374768699038524832128000, 6) == 221829562461449839754138688000;
  }

  lemma PowersAtFullRate()
    ensures BasePowerTwo(RAY) == 1005510907653 && BasePowerThree(RAY) == 31884
  {
    assert RayMul(RAY, RAY) == RAY;
    assert BasePowerTwo(RAY) == 1005510907653;
    assert RayMul(1005510907653, RAY) == 1005510907653;
  }

  /** A fresh reserve with a market rate of 100% is plain. */
  lemma FreshIsPlain(s: Strategy, r: Reserve)
    requires s == FLAT && r == FreshReserve(s, 0, RAY, 1)
    ensures Plain(r, 0, 0, 1)
  {
    FreshReserveIsSound(s, 0, RAY, 1);
  }

  /** From any such reserve, three ordinary actions lead to a record with current rates after which suppliers earn
      over a year more than three times what all borrowers accrue. */
  lemma AgedDebtOverpaysSuppliers(s: Strategy, r: Reserve)
    requires s == FLAT && Plain(r, 0, 0, 1)
    ensures IsRun(s, r, Steps())
    ensures var end, later := Final(s, r, Steps()), 1 + 11 * ONE_YEAR;
            && RatesCurrent(s, end) && UtilizationIsShare(end) && later >= end.lastUpdateTimestamp
            && Income(end, later) > 3 * (RAY * DebtAccrued(end, Updated(end, later)))
  {
    hide Sound, After, Enabled, RatesCurrent, Updated, DebtAccrued, Income, UtilizationIsShare, StableAtLastUpdate,
         VariableAtLastUpdate, ValidStrategy;
    FlatIsValid(s);
    DepositLeaves(s, r, RAY, 0, 0, 1, 1);
    var r1 := After(s, r, Deposit(RAY), 1);
    OfferedRate(r1);
    BorrowLeaves(s, r1, RAY);
    var r2 := After(s, r1, Borrow(RAY, Stable, 1), 1);
    DepositLeaves(s, r2, 0, 0, RAY, 1, 1 + 10 * ONE_YEAR);
    var r3 := After(s, r2, Deposit(0), 1 + 10 * ONE_YEAR);
    OneStep(s, r2, Deposit(0), 1 + 10 * ONE_YEAR, []);
    OneStep(s, r1, Borrow(RAY, Stable, 1), 1, [Step(Deposit(0), 1 + 10 * ONE_YEAR)]);
    OneStep(s, r, Deposit(RAY), 1, [Step(Borrow(RAY, Stable, 1), 1), Step(Deposit(0), 1 + 10 * ONE_YEAR)]);
    DebtOfTenYears(r3);
    PromisedRate(r3);
    EleventhYear(r3);
  }

  lemma FlatIsValid(s: Strategy)
    requires s == FLAT
    ensures ValidStrategy(s)
  {
  }

  lemma DebtOfTenYears(r: Reserve)
    requires Plain(r, 0, RAY, 1 + 10 * ONE_YEAR) && r.averageStableBorrowRate == RAY
    ensures StableAtLastUpdate(r) > 0
  {
    hide Sound, CalcCompoundedInterest, RayMul;
    TenYearsAtFullRate();
    RayMulByRay(CalcCompoundedInterest(RAY, 1 + 10 * ONE_YEAR, 1));
  }

  /** A run, one step longer. */
  lemma OneStep(s: Strategy, r: Reserve, a: Action, t: int, rest: seq<Step>)
    requires ValidStrategy(s) && Sound(r) && Enabled(r, a, t) && Sound(After(s, r, a, t))
    requires IsRun(s, After(s, r, a, t), rest)
    ensures IsRun(s, r, [Step(a, t)] + rest)
    ensures Final(s, r, [Step(a, t)] + rest) == Final(s, After(s, r, a, t), rest)
  {
    hide Sound, After, Enabled;
    assert ([Step(a, t)] + rest)[1..] == rest;
  }
}
