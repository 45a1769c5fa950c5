/** Whether it matters when a reserve is brought up to date: an update in between, such as an empty deposit, against
    one update over the whole interval. */
module UpdateBetween {
  import opened WadRayMath
  import opened Interest
  import opened AgedDebt
  import opened RateStrategy
  import opened RateCurve
  import opened ReserveModel
  import opened ReserveActions
  import opened DebtActions
  import opened Balances
  import opened Runs
  import opened Treasury
  import opened Ledger
  import opened CurrentRates
  import opened Earnings
  import opened Solvency

  // ---------- The factors ----------

  /** What truncating the expansion twice may lose against truncating it once: nothing but roundings. */
  function FactorSlack(rate: int, age: nat, d: nat): int {
    RoundedDown(rate, age, d) + Choose(2, d) * (BasePowerTwo(rate) + RAY * age)
  }

  /** Compounding in two steps, the second at no lower a rate, charges at least what one step does. */
  lemma FactorsMultiply(rate: int, later: int, age: nat, d: nat, last: int, c1: int, c2: int, c: int)
    requires 0 <= rate <= later
    requires c1 == CalcCompoundedInterest(rate, last + age, last)
    requires c2 == CalcCompoundedInterest(later, last + age + d, last + age)
    requires c == CalcCompoundedInterest(rate, last + (age + d), last)
    ensures c1 * c2 >= RAY * c - FactorSlack(rate, age, d)
    ensures c1 >= RAY && c2 >= RAY
  {
    hide CalcCompoundedInterest, Choose, BasePowerTwo, BasePowerThree;
    var same := CalcCompoundedInterest(rate, last + age + d, last + age);
    CompoundedMonotone(rate, d, last + age, later, d, last + age, same, c2);
    CompoundedIs(rate, age, last);
    CompoundedIs(rate, d, last + age);
    CompoundedLead(rate, age, d, last);
    CubeLead(rate, age);
    BasePowersMonotone(rate, rate);
    MulLe(same, c2, c1);
    var x, y, p2, p3 := rate * age / ONE_YEAR, rate * d / ONE_YEAR, BasePowerTwo(rate), BasePowerThree(rate);
    TwoSteps(c1, same, c, x, y, Expansion(rate, age), Choose(2, d), Choose(3, d), Choose(3, age), p2, p3, age,
             RoundedDown(rate, age, d));
  }

  lemma TwoSteps(c1: int, c2: int, c: int, x: int, y: int, e1: int, k2: nat, k3: nat, a3: nat, p2: int, p3: int,
                 age: nat,
                 down: int)
    requires x >= 0 && y >= 0 && e1 >= 0 && p2 >= 0 && p3 >= 0
    requires c1 == RAY + x + e1 && c2 == RAY + y + (k2 * p2 + k3 * p3)
    requires c1 * y - RAY * (c - c1) >= a3 * p3 * y - RAY * (k2 * p2 + k3 * p3 + age * k2 * p3) - down
    requires p2 * x - RAY * (age * p3) >= -(p2 + RAY * age)
    ensures c1 * c2 >= RAY * c - (down + k2 * (p2 + RAY * age))
  {
    var e2 := k2 * p2 + k3 * p3;
    MulLe(0, a3, p3);
    MulLe(0, a3 * p3, y);
    MulLe(-(p2 + RAY * age), p2 * x - RAY * (age * p3), k2);
    MulLe(0, k3, p3);
    MulLe(0, k2, p2);
    MulLe(0, e1, e2);
    MulLe(0, k3 * p3, x);
    StepProducts(c1, c2, x, y, e1, e2, k2, k3, p2, p3, age);
    StepSum(c1 * c2, c1, c, c1 * y, x * (k2 * p2), x * (k3 * p3), e1 * e2, e2, a3 * p3 * y, age * k2 * p3, down,
            k2 * (p2 + RAY * age));
  }

  lemma StepProducts(c1: int, c2: int, x: int, y: int, e1: int, e2: int, k2: int, k3: int, p2: int, p3: int, age: int)
    requires c1 == RAY + x + e1 && c2 == RAY + y + e2 && e2 == k2 * p2 + k3 * p3
    ensures c1 * c2 == RAY * c1 + c1 * y + RAY * e2 + x * (k2 * p2) + x * (k3 * p3) + e1 * e2
    ensures k2 * (p2 * x - RAY * (age * p3)) == x * (k2 * p2) - RAY * (age * k2 * p3)
    ensures k2 * -(p2 + RAY * age) == -(k2 * (p2 + RAY * age))
    ensures (k3 * p3) * x == x * (k3 * p3)
  {
    assert c1 * e2 == RAY * e2 + x * e2 + e1 * e2;
    assert x * e2 == x * (k2 * p2) + x * (k3 * p3);
    assert k2 * (p2 * x) == x * (k2 * p2) && k2 * (age * p3) == age * k2 * p3;
  }

  lemma StepSum(product: int, c1: int, c: int, c1y: int, xk2: int, xk3: int, ee: int, e2: int, third: int, mixed: int,
                down: int, bound: int)
    requires product == RAY * c1 + c1y + RAY * e2 + xk2 + xk3 + ee && xk3 >= 0 && ee >= 0 && third >= 0
    requires c1y - RAY * (c - c1) >= third - RAY * (e2 + mixed) - down
    requires xk2 - RAY * mixed >= -bound
    ensures product >= RAY * c - (down + bound)
  {
  }

  /** Two rounded steps of an index against one. */
  lemma IndexesMultiply(index: int, c1: int, c2: int, c: int, slack: int, first: int, second: int, direct: int)
    requires index >= 0 && c1 >= 0 && c2 >= 0 && c1 * c2 >= RAY * c - slack
    requires Abs(2 * RAY * first - 2 * (c1 * index)) <= RAY
    requires Abs(2 * RAY * second - 2 * (c2 * first)) <= RAY
    requires Abs(2 * RAY * direct - 2 * (c * index)) <= RAY
    ensures 2 * RAY * RAY * (direct - second) <= 2 * (slack * index) + RAY * c2 + 2 * RAY * RAY
  {
    MulLe(2 * (c1 * index) - RAY, 2 * RAY * first, c2);
    MulLe(RAY * c - slack, c1 * c2, index);
    IndexProducts(index, c1, c2, c, slack, first);
    IndexSum(c1 * c2 * index, c2 * first, c * index, slack * index, second, direct, c2);
  }

  lemma IndexProducts(index: int, c1: int, c2: int, c: int, slack: int, first: int)
    ensures c2 * (2 * (c1 * index) - RAY) == 2 * (c1 * c2 * index) - RAY * c2
    ensures c2 * (2 * RAY * first) == 2 * RAY * (c2 * first)
    ensures index * (RAY * c - slack) == RAY * (c * index) - slack * index && index * (c1 * c2) == c1 * c2 * index
  {
    assert c2 * (c1 * index) == c1 * c2 * index;
  }

  lemma IndexSum(both: int, last: int, once: int, slack: int, second: int, direct: int, c2: int)
    requires 2 * both - RAY * c2 <= 2 * RAY * last && RAY * once - slack <= both
    requires 2 * RAY * second >= 2 * last - RAY && 2 * RAY * direct <= 2 * once + RAY
    ensures 2 * RAY * RAY * (direct - second) <= 2 * slack + RAY * c2 + 2 * RAY * RAY
  {
  }

  // ---------- The rates after the update ----------

  /** The record after an update at t: an empty deposit. */
  function Refreshed(s: Strategy, b: Reserve, t: int): Reserve
    requires ValidStrategy(s) && Sound(b) && t >= b.lastUpdateTimestamp
  {
    EmptyDepositEnabled(b, t);
    After(s, b, Deposit(0), t)
  }

  lemma EmptyDepositEnabled(b: Reserve, t: int)
    requires t >= b.lastUpdateTimestamp
    ensures Enabled(b, Deposit(0), t)
  {
  }

  /** What the update leaves, in the fields the next interval depends on. */
  lemma RefreshedFields(s: Strategy, b: Reserve, t: int)
    requires RatesCurrent(s, b) && t >= b.lastUpdateTimestamp
    ensures ValidStrategy(s) && Sound(b)
    ensures var mid := Refreshed(s, b, t);
            && RatesCurrent(s, mid) && Sound(mid) && mid.lastUpdateTimestamp == t
            && mid.variableBorrowIndex == NextVariableBorrowIndex(b, t)
            && mid.liquidityIndex == NextLiquidityIndex(b, t)
            && mid.scaledVariableDebt == b.scaledVariableDebt && mid.principalStableDebt == b.principalStableDebt
            && mid.availableLiquidity == b.availableLiquidity && mid.unbacked == b.unbacked
            && TotalDebtAtLastUpdate(mid) >= TotalDebtAtLastUpdate(b)
  {
    hide Sound, RatesCurrent, After, Enabled, Updated, TotalDebtAtLastUpdate, DebtAccrued, NextVariableBorrowIndex,
         NextLiquidityIndex, ValidStrategy;
    FactorOfCurrent(s, b);
    SoundOfCurrent(s, b);
    EmptyDepositEnabled(b, t);
    var a := Deposit(0);
    StepKeeps(s, b, a, t);
    KnownTime(b, a, t);
    ActionsSetCurrentRates(s, b, a, t);
    DebtFieldsKept(s, b, a, t);
    UpdatedDebts(b, t);
    UpdatedIndex(b, t);
    UpdatedUnbacked(b, t);
    SameIndex(s, b, a, t);
    DepositLiquidity(s, b, 0, t);
    DebtMovesByInterest(s, b, a, t);
    DebtNeverShrinks(b, t);
  }

  lemma KnownTime(b: Reserve, a: Action, t: int)
    requires a.Deposit?
    ensures StableTimeKnown(b, a, t)
  {
    hide CalcCompoundedInterest;
  }

  /** The debt only grew, so the variable rate falls by at most the curve's overshoot at the kink, and not at all on a
      monotone curve. */
  lemma RefreshKeepsRate(s: Strategy, b: Reserve, t: int)
    requires RatesCurrent(s, b) && t >= b.lastUpdateTimestamp
    ensures ValidStrategy(s) && Sound(b)
    ensures var mid := Refreshed(s, b, t);
            && mid.variableBorrowRate
               >= b.variableBorrowRate - Max(0, Overshoot(s.optimalUtilizationRate, s.variableRateSlope1))
            && (KinkInOrder(s.optimalUtilizationRate, s.variableRateSlope1, s.variableRateSlope2) ==>
                  mid.variableBorrowRate >= b.variableBorrowRate)
  {
    hide Sound, After, Enabled, Curve, Overshoot, KinkInOrder, BorrowUtilization, TotalDebtAtLastUpdate,
         StableAtLastUpdate, VariableAtLastUpdate, RatesCurrent;
    RefreshedFields(s, b, t);
    var mid := Refreshed(s, b, t);
    CurrentRate(s, b);
    CurrentRate(s, mid);
    var u1 := BorrowUtilization(TotalDebtAtLastUpdate(b), b.availableLiquidity);
    var u2 := BorrowUtilization(TotalDebtAtLastUpdate(mid), b.availableLiquidity);
    UtilizationMonotone(TotalDebtAtLastUpdate(b), TotalDebtAtLastUpdate(mid), b.availableLiquidity);
    SlopesNonNegative(s);
    CurveDrop(s.optimalUtilizationRate, s.variableRateSlope1, s.variableRateSlope2, u1, u2);
    MonotoneExactly(s.optimalUtilizationRate, s.variableRateSlope1, s.variableRateSlope2);
  }

  lemma SlopesNonNegative(s: Strategy)
    requires ValidStrategy(s)
    ensures 0 < s.optimalUtilizationRate <= RAY && s.variableRateSlope1 >= 0 && s.variableRateSlope2 >= 0
  {
  }

  /** The variable rate of a record with current rates is the curve's. */
  lemma CurrentRate(s: Strategy, r: Reserve)
    requires RatesCurrent(s, r)
    ensures ValidStrategy(s) && TotalDebtAtLastUpdate(r) >= 0 && r.availableLiquidity >= 0
    ensures var u := BorrowUtilization(TotalDebtAtLastUpdate(r), r.availableLiquidity);
            r.variableBorrowRate
            == s.baseVariableBorrowRate
               + Curve(s.optimalUtilizationRate, s.variableRateSlope1, s.variableRateSlope2, u)
  {
    hide Sound, Curve, BorrowUtilization, SupplyUtilization, LiquidityRate, OverallBorrowRate, StableRate, RayMul,
         CalcCompoundedInterest;
    TotalIsSum(r);
  }

  lemma TotalIsSum(r: Reserve)
    ensures TotalDebtAtLastUpdate(r) == StableAtLastUpdate(r) + VariableAtLastUpdate(r)
  {
    hide RayMul, CalcCompoundedInterest;
  }

  // ---------- Borrowers and suppliers ----------

  lemma DebtIndexGrows(b: Reserve, t: int, c: int)
    requires Sound(b) && t >= b.lastUpdateTimestamp && b.scaledVariableDebt > 0
    requires c == CalcCompoundedInterest(b.variableBorrowRate, t, b.lastUpdateTimestamp)
    ensures Abs(2 * RAY * NextVariableBorrowIndex(b, t) - 2 * (c * b.variableBorrowIndex)) <= RAY && c >= 0
  {
    hide Sound, RayMul, CalcCompoundedInterest;
    SoundDebts(b);
    SoundIndexes(b);
    DebtIsOwed(b);
    CompoundedMonotone(b.variableBorrowRate, 0, b.lastUpdateTimestamp, b.variableBorrowRate, t - b.lastUpdateTimestamp,
                       b.lastUpdateTimestamp,
                       CalcCompoundedInterest(b.variableBorrowRate, b.lastUpdateTimestamp, b.lastUpdateTimestamp), c);
    DebtRounded(c, b.variableBorrowIndex, NextVariableBorrowIndex(b, t));
  }

  lemma DebtIsOwed(b: Reserve)
    requires Sound(b) && b.scaledVariableDebt > 0
    ensures b.totalVariableDebt != 0
  {
    hide Div;
  }

  /** On a monotone curve an update in between never lowers the index that variable debts are valued at, beyond
      roundings: whoever brings the reserve up to date, borrowers owe no less. */
  lemma BorrowersOweNoLess(s: Strategy, b: Reserve, age: nat, d: nat)
    requires RatesCurrent(s, b) && Sound(b) && ValidStrategy(s) && b.scaledVariableDebt > 0
    requires KinkInOrder(s.optimalUtilizationRate, s.variableRateSlope1, s.variableRateSlope2)
    ensures var t := b.lastUpdateTimestamp + age;
            var mid := Refreshed(s, b, t);
            var c := CalcCompoundedInterest(mid.variableBorrowRate, t + d, t);
            2 * RAY * RAY * (NextVariableBorrowIndex(b, t + d) - NextVariableBorrowIndex(mid, t + d))
            <= 2 * (FactorSlack(b.variableBorrowRate, age, d) * b.variableBorrowIndex) + RAY * c + 2 * RAY * RAY
  {
    hide Sound, RatesCurrent, Refreshed, CalcCompoundedInterest, FactorSlack, KinkInOrder, NextVariableBorrowIndex,
         ValidStrategy;
    var last := b.lastUpdateTimestamp;
    var t := last + age;
    var mid := Refreshed(s, b, t);
    RefreshedFields(s, b, t);
    RefreshKeepsRate(s, b, t);
    SoundDebts(b);
    SoundIndexes(b);
    var c1, c2, c := CalcCompoundedInterest(b.variableBorrowRate, t, last),
                     CalcCompoundedInterest(mid.variableBorrowRate, t + d, t),
                     CalcCompoundedInterest(b.variableBorrowRate, t + d, last);
    FactorsMultiply(b.variableBorrowRate, mid.variableBorrowRate, age, d, last, c1, c2, c);
    DebtIndexGrows(b, t, c1);
    DebtIndexGrows(mid, t + d, c2);
    DebtIndexGrows(b, t + d, c);
    IndexesMultiply(b.variableBorrowIndex, c1, c2, c, FactorSlack(b.variableBorrowRate, age, d),
                    NextVariableBorrowIndex(b, t), NextVariableBorrowIndex(mid, t + d),
                      NextVariableBorrowIndex(b, t + d));
  }

  lemma SupplyIndexGrows(b: Reserve, t: int, c: int)
    requires Sound(b) && t >= b.lastUpdateTimestamp
    requires c == CalcLinearInterest(b.liquidityRate, t, b.lastUpdateTimestamp)
    ensures Abs(2 * RAY * NextLiquidityIndex(b, t) - 2 * (c * b.liquidityIndex)) <= RAY && c >= RAY
    ensures b.liquidityIndex >= RAY
  {
    hide Sound, RayMul, CalcLinearInterest, NextLiquidityIndex;
    IndexOfSound(b);
    RatesOfSound(b);
    LinearIsCompoundedAtLeast(b, t);
    IncomeIsNextIndex(b, t);
    if b.liquidityRate == 0 {
      NoIncome(t, b.lastUpdateTimestamp);
    } else {
      DebtRounded(c, b.liquidityIndex, NormalizedIncome(b, t));
    }
  }

  lemma NoIncome(t: int, last: int)
    ensures CalcLinearInterest(0, t, last) == RAY
  {
    assert 0 * (t - last) == 0;
  }

  /** Nor does it lower the suppliers' index, beyond roundings, while it does not lower the liquidity rate. */
  lemma SuppliersHoldNoLess(s: Strategy, b: Reserve, age: nat, d: nat)
    requires RatesCurrent(s, b) && Sound(b) && ValidStrategy(s)
    requires Refreshed(s, b, b.lastUpdateTimestamp + age).liquidityRate >= b.liquidityRate
    ensures var t := b.lastUpdateTimestamp + age;
            var mid := Refreshed(s, b, t);
            var c := CalcLinearInterest(mid.liquidityRate, t + d, t);
            2 * RAY * RAY * (NextLiquidityIndex(b, t + d) - NextLiquidityIndex(mid, t + d))
            <= 2 * (RAY * b.liquidityIndex) + RAY * c + 2 * RAY * RAY
  {
    hide Sound, RatesCurrent, Refreshed, CalcLinearInterest, NextLiquidityIndex, ValidStrategy;
    var last := b.lastUpdateTimestamp;
    var t := last + age;
    var mid := Refreshed(s, b, t);
    RefreshedFields(s, b, t);
    RatesOfSound(b);
    var c1, c2, c := CalcLinearInterest(b.liquidityRate, t, last), CalcLinearInterest(mid.liquidityRate, t + d, t),
                     CalcLinearInterest(b.liquidityRate, t + d, last);
    SupplyIndexGrows(b, t, c1);
    SupplyIndexGrows(mid, t + d, c2);
    SupplyIndexGrows(b, t + d, c);
    LinearFactors(b.liquidityRate, mid.liquidityRate, age, d, last, c1, c2, c);
    IndexesMultiply(b.liquidityIndex, c1, c2, c, RAY, NextLiquidityIndex(b, t), NextLiquidityIndex(mid, t + d),
                    NextLiquidityIndex(b, t + d));
  }

  lemma LinearFactors(rate: int, later: int, age: nat, d: nat, last: int, c1: int, c2: int, c: int)
    requires 0 <= rate <= later
    requires c1 == CalcLinearInterest(rate, last + age, last)
    requires c2 == CalcLinearInterest(later, last + age + d, last + age)
    requires c == CalcLinearInterest(rate, last + age + d, last)
    ensures c1 * c2 >= RAY * c - RAY
  {
    hide CalcLinearInterest;
    LinearInterestAdds(rate, age, d, last);
    LinearInterestExact(rate, age, last);
    LinearInterestExact(rate, d, last + age);
    LinearInterestExact(later, d, last + age);
    MulLe(rate, later, d);
    MulLe(0, rate, d);
    MulLe(0, rate, age);
    LinearProduct(c1 - RAY, c2 - RAY, CalcLinearInterest(rate, last + age + d, last + age) - RAY, rate * d, later * d);
    assert c1 * c2 == RAY * RAY + RAY * (c1 - RAY) + RAY * (c2 - RAY) + (c1 - RAY) * (c2 - RAY);
  }

  lemma LinearProduct(x: int, y: int, z: int, n: int, m: int)
    requires 0 <= n <= m && (x + 1) * ONE_YEAR > 0
    requires z * ONE_YEAR <= n < (z + 1) * ONE_YEAR && y * ONE_YEAR <= m < (y + 1) * ONE_YEAR
    ensures x >= 0 && y >= z >= 0 && x * y >= 0
  {
    MulLe(0, x, y);
  }

  /** Without stable debt and unbacked tokens, from one token with 18 decimals of variable debt on, the overall rate is
      the variable one, so that on a monotone curve the update does not lower the liquidity rate either. */
  lemma RefreshKeepsLiquidityRate(s: Strategy, b: Reserve, t: int)
    requires RatesCurrent(s, b) && Sound(b) && ValidStrategy(s) && t >= b.lastUpdateTimestamp
    requires KinkInOrder(s.optimalUtilizationRate, s.variableRateSlope1, s.variableRateSlope2)
    requires b.principalStableDebt == 0 && b.unbacked == 0 && VariableAtLastUpdate(b) >= WAD
    ensures Refreshed(s, b, t).liquidityRate >= b.liquidityRate
  {
    hide Sound, RatesCurrent, Refreshed, VariableAtLastUpdate, StableAtLastUpdate, KinkInOrder, ValidStrategy,
         TotalDebtAtLastUpdate, BorrowUtilization, LiquidityRate;
    RefreshedFields(s, b, t);
    RefreshKeepsRate(s, b, t);
    var mid := Refreshed(s, b, t);
    NoStableAtUpdate(b);
    NoStableAtUpdate(mid);
    TotalIsSum(b);
    TotalIsSum(mid);
    SoleRate(s, b);
    SoleRate(s, mid);
    SoundDebts(b);
    SoundDebts(mid);
    UtilizationMonotone(VariableAtLastUpdate(b), VariableAtLastUpdate(mid), b.availableLiquidity);
    LiquidityRateMonotone(s, b.variableBorrowRate, BorrowUtilization(VariableAtLastUpdate(b), b.availableLiquidity),
                          mid.variableBorrowRate, BorrowUtilization(VariableAtLastUpdate(mid), b.availableLiquidity));
  }

  lemma NoStableAtUpdate(r: Reserve)
    requires r.principalStableDebt == 0
    ensures StableAtLastUpdate(r) == 0
  {
    hide RayMul, CalcCompoundedInterest;
    RayMulZero(CalcCompoundedInterest(r.averageStableBorrowRate, r.lastUpdateTimestamp, r.totalStableDebtLastUpdated));
  }

  lemma SoleRate(s: Strategy, r: Reserve)
    requires RatesCurrent(s, r) && StableAtLastUpdate(r) == 0 && VariableAtLastUpdate(r) >= WAD && r.unbacked == 0
    ensures ValidStrategy(s) && r.availableLiquidity >= 0
    ensures r.liquidityRate
         == LiquidityRate(s, r.variableBorrowRate, BorrowUtilization(VariableAtLastUpdate(r), r.availableLiquidity))
  {
    hide Sound, StableAtLastUpdate, VariableAtLastUpdate, BorrowUtilization, SupplyUtilization, LiquidityRate, RayMul,
         RayDiv, StableRate, VariableRate;
    SoundDebts(r);
    UnbackedOfSound(r);
    var debt := VariableAtLastUpdate(r);
    CapIdleWithoutUnbacked(debt, r.availableLiquidity);
    RayMulZero(r.averageStableBorrowRate);
    RayMulCommutes(WadToRay(debt), r.variableBorrowRate);
    ScaledRoundTrip(r.variableBorrowRate, WadToRay(debt));
  }

  lemma LiquidityRateMonotone(s: Strategy, rate1: int, u1: int, rate2: int, u2: int)
    requires ValidStrategy(s) && 0 <= rate1 <= rate2 && 0 <= u1 <= u2
    ensures LiquidityRate(s, rate1, u1) <= LiquidityRate(s, rate2, u2)
  {
    var p := PERCENTAGE_FACTOR - s.reserveFactor;
    RayMulMonotone(rate1, u1, rate2, u2);
    var m1, m2 := RayMul(rate1, u1), RayMul(rate2, u2);
    MulLe(m1, m2, p);
    MulLe(0, m1, p);
    PercentMulNearest(m1, p);
    PercentMulNearest(m2, p);
    hide RayMul, PercentMul;
  }
}
