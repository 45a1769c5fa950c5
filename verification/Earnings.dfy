/** Realised interest: what suppliers earn over an interval against what borrowers accrue over it. */
module Earnings {
  import opened WadRayMath
  import opened Interest
  import opened AgedDebt
  import opened RateStrategy
  import opened RateFunding
  import opened ReserveModel
  import opened ReserveActions
  import opened DebtActions
  import opened RepayActions
  import opened Balances
  import opened Runs
  import opened Treasury
  import opened Ledger
  import opened CurrentRates

  /** The suppliers' income on all claims up to t, in rays. */
  function Income(r: Reserve, t: int): int {
    Claims(r) * (CalcLinearInterest(r.liquidityRate, t, r.lastUpdateTimestamp) - RAY)
  }

  function VariableGrowth(r: Reserve, t: int): int {
    CalcCompoundedInterest(r.variableBorrowRate, t, r.lastUpdateTimestamp) - RAY
  }

  /** Growth of the stable debt up to t if it were linear. */
  function StableGrowth(r: Reserve, t: int): int {
    r.averageStableBorrowRate * (t - r.lastUpdateTimestamp) / ONE_YEAR
  }

  // ---------- Variable debt over the interval ----------

  /** The accrual is the compounded growth on the debt, up to three roundings. */
  lemma VariableAccrual(scaled: int, index: int, next: int, growth: int, before: int, after: int)
    requires scaled >= 0 && growth >= 0
    requires Abs(2 * RAY * next - 2 * ((RAY + growth) * index)) <= RAY
    requires Abs(2 * RAY * before - 2 * (scaled * index)) <= RAY
    requires Abs(2 * RAY * after - 2 * (scaled * next)) <= RAY
    ensures Abs(2 * RAY * (after - before) - 2 * (growth * before)) <= growth + scaled + 2 * RAY
  {
    ScaledNext(scaled, RAY + growth, index, next);
    GrownBalance(before, scaled * index, growth);
    VariableSum(after, before, scaled * next, (RAY + growth) * (scaled * index), growth * before, growth, scaled);
  }

  lemma ScaledNext(scaled: int, factor: int, index: int, next: int)
    requires scaled >= 0 && Abs(2 * RAY * next - 2 * (factor * index)) <= RAY
    ensures Abs(2 * RAY * (scaled * next) - 2 * (factor * (scaled * index))) <= RAY * scaled
  {
    ScaledGap(2 * RAY * next, 2 * (factor * index), RAY, scaled);
    ThreeFactors(scaled, factor, index);
    Rearranged(scaled, 2 * RAY, next, 2, factor * index);
  }

  lemma GrownBalance(before: int, x: int, growth: int)
    requires growth >= 0 && Abs(2 * RAY * before - 2 * x) <= RAY
    ensures Abs(2 * RAY * (RAY * before + growth * before) - 2 * ((RAY + growth) * x)) <= RAY * (RAY + growth)
  {
    ScaledGap(2 * RAY * before, 2 * x, RAY, RAY + growth);
    Rearranged(RAY + growth, 2 * RAY, before, 2, x);
    assert (RAY + growth) * before == RAY * before + growth * before;
  }

  lemma ThreeFactors(a: int, b: int, c: int)
    ensures a * (b * c) == b * (a * c)
  {
  }

  lemma VariableSum(after: int, before: int, y: int, z: int, gained: int, growth: int, scaled: int)
    requires Abs(2 * RAY * after - 2 * y) <= RAY
    requires Abs(2 * RAY * y - 2 * z) <= RAY * scaled
    requires Abs(2 * RAY * (RAY * before + gained) - 2 * z) <= RAY * (RAY + growth)
    ensures Abs(2 * RAY * (after - before) - 2 * gained) <= growth + scaled + 2 * RAY
  {
  }

  lemma SoundIndexes(r: Reserve)
    requires Sound(r)
    ensures r.variableBorrowIndex >= RAY
    ensures r.totalVariableDebt == 0 ==> r.scaledVariableDebt == 0
  {
    hide Div;
  }

  lemma VariableSide(r: Reserve, t: int)
    requires Sound(r) && t >= r.lastUpdateTimestamp
    ensures VariableGrowth(r, t) >= 0
    ensures Abs(2 * RAY * (RayMul(r.scaledVariableDebt, NextVariableBorrowIndex(r, t)) - VariableAtLastUpdate(r))
                - 2 * (VariableGrowth(r, t) * VariableAtLastUpdate(r)))
            <= VariableGrowth(r, t) + r.scaledVariableDebt + 2 * RAY
  {
    hide Sound, RayMul, CalcCompoundedInterest;
    SoundDebts(r);
    SoundIndexes(r);
    var scaled, index, growth := r.scaledVariableDebt, r.variableBorrowIndex, VariableGrowth(r, t);
    var next := NextVariableBorrowIndex(r, t);
    var last := r.lastUpdateTimestamp;
    CompoundedMonotone(r.variableBorrowRate, 0, last, r.variableBorrowRate, t - last, last,
                       CalcCompoundedInterest(r.variableBorrowRate, last, last), RAY + growth);
    if r.totalVariableDebt == 0 {
      RayMulZero(index);
      assert growth * 0 == 0;
    } else {
      RayMulByIndex(index, RAY + growth);
      DebtRounded(RAY + growth, index, next);
      DebtRounded(scaled, index, VariableAtLastUpdate(r));
      DebtRounded(scaled, next, RayMul(scaled, next));
      VariableAccrual(scaled, index, next, growth, VariableAtLastUpdate(r), RayMul(scaled, next));
    }
  }

  // ---------- Stable debt over the interval ----------

  /** Linear interest on the stable debt up to t, less what it accrues; in rays. */
  function StableShortfall(r: Reserve, t: int): int {
    StableAtLastUpdate(r) * StableGrowth(r, t) - RAY * (StableDebtNow(r, t) - StableAtLastUpdate(r))
  }

  /** The lead of linear interest over the stable debt, by its rate, its age and the interval. */
  function StableLead(r: Reserve, t: int): int
    requires Sound(r) && t >= r.lastUpdateTimestamp
  {
    Lead(r.averageStableBorrowRate, r.lastUpdateTimestamp - r.totalStableDebtLastUpdated, t - r.lastUpdateTimestamp)
  }

  /** Roundings of the stable side, upwards and downwards; in squared rays. */
  function StableRoundingUp(r: Reserve, t: int): int
    requires Sound(r) && t >= r.lastUpdateTimestamp
  {
    2 * (r.principalStableDebt * RoundedUp(r.averageStableBorrowRate,
                                           r.lastUpdateTimestamp - r.totalStableDebtLastUpdated,
                                           t - r.lastUpdateTimestamp))
    + RAY * StableGrowth(r, t) + 2 * RAY * RAY
  }

  function StableRoundingDown(r: Reserve, t: int): int
    requires Sound(r) && t >= r.lastUpdateTimestamp
  {
    2 * (r.principalStableDebt * RoundedDown(r.averageStableBorrowRate,
                                             r.lastUpdateTimestamp - r.totalStableDebtLastUpdated,
                                             t - r.lastUpdateTimestamp))
    + RAY * StableGrowth(r, t) + 2 * RAY * RAY
  }

  /** Stable debt of any age falls short of linear interest by the lead on its principal, up to rounding: rate, age
      and interval decide the sign. */
  lemma ShortfallIsLead(r: Reserve, t: int)
    requires Sound(r) && t >= r.lastUpdateTimestamp
    ensures StableGrowth(r, t) >= 0
    ensures var lead := 2 * (r.principalStableDebt * StableLead(r, t));
            lead - StableRoundingDown(r, t) <= 2 * RAY * StableShortfall(r, t) <= lead + StableRoundingUp(r, t)
  {
    hide CalcCompoundedInterest, Lead, RoundedUp, RoundedDown, RayMul, Sound;
    SoundDebts(r);
    var rate, last, p := r.averageStableBorrowRate, r.totalStableDebtLastUpdated, r.principalStableDebt;
    var age, d := r.lastUpdateTimestamp - last, t - r.lastUpdateTimestamp;
    RayMulCommutes(p, CalcCompoundedInterest(rate, t, last));
    AgedGain(p, rate, age, d, last, StableAtLastUpdate(r), StableDebtNow(r, t));
    LeadSplits(p, Lead(rate, age, d), RoundedUp(rate, age, d), RoundedDown(rate, age, d));
  }

  lemma LeadSplits(p: int, lead: int, up: int, down: int)
    ensures p * (lead + up) == p * lead + p * up && p * (lead - down) == p * lead - p * down
  {
  }

  /** Stable debt moved within the last two seconds has no lead against it. */
  lemma FreshDebtHasNoLead(rate: int, age: nat, d: nat)
    requires rate >= 0 && age <= 2
    ensures Lead(rate, age, d) <= 0
  {
    CompoundedIs(rate, d, 0);
    BasePowersMonotone(rate, rate);
    assert Choose(3, age) == 0 by { ChooseMonotone(3, age, 2); assert Choose(3, 2) == 0; }
    var y := rate * d / ONE_YEAR;
    hide BasePowerTwo, BasePowerThree, CalcCompoundedInterest, Choose, Expansion;
    NoThird(BasePowerThree(rate), y);
    ProductMonotone(0, 0, age, Choose(2, d));
    ProductMonotone(0, 0, age * Choose(2, d), BasePowerThree(rate));
  }

  lemma NoThird(p3: int, y: int)
    ensures 0 * p3 * y == 0
  {
  }

  /** Stable debt taken up or moved at the last update falls short by rounding only. */
  lemma FreshStableDebtFallsNoShorter(r: Reserve, t: int)
    requires Sound(r) && t >= r.lastUpdateTimestamp
    requires r.principalStableDebt == 0 || r.totalStableDebtLastUpdated == r.lastUpdateTimestamp
    ensures 2 * StableShortfall(r, t) <= RAY
  {
    hide Sound, RayMul, CalcCompoundedInterest;
    SoundDebts(r);
    var rate, last, debt := r.averageStableBorrowRate, r.lastUpdateTimestamp, r.principalStableDebt;
    CompoundedIs(rate, t - last, last);
    if debt == 0 {
      RayMulZero(CalcCompoundedInterest(rate, last, r.totalStableDebtLastUpdated));
      RayMulZero(CalcCompoundedInterest(rate, t, r.totalStableDebtLastUpdated));
      RayMulCommutes(0, CalcCompoundedInterest(rate, t, r.totalStableDebtLastUpdated));
      assert 0 * StableGrowth(r, t) == 0;
    } else {
      NothingElapsed(rate, last);
      RayMulByRay(debt);
      var c := CalcCompoundedInterest(rate, t, last);
      MulLe(StableGrowth(r, t), c - RAY, debt);
      MulLe(0, c, debt);
      RayMulNearest(c, debt);
      assert debt * (c - RAY) == c * debt - RAY * debt;
    }
  }

  // ---------- Both together ----------

  /** By how much suppliers' linear interest runs ahead of the debts: what aged stable debt leads by, less what
      compounding adds on the variable debt. In squared rays. */
  function Ahead(r: Reserve, t: int): int
    requires Sound(r) && t >= r.lastUpdateTimestamp
  {
    r.principalStableDebt * StableLead(r, t)
    - RAY * (VariableAtLastUpdate(r) * Expansion(r.variableBorrowRate, t - r.lastUpdateTimestamp))
  }

  /** Linear growth on both debts, in rays. */
  function LinearOnDebts(r: Reserve, t: int): int
    requires t >= r.lastUpdateTimestamp
  {
    VariableAtLastUpdate(r) * (r.variableBorrowRate * (t - r.lastUpdateTimestamp) / ONE_YEAR)
    + StableAtLastUpdate(r) * StableGrowth(r, t)
  }

  /** Rounding of the variable accrual, in squared rays. */
  function VariableRounding(r: Reserve, t: int): int {
    RAY * (VariableGrowth(r, t) + r.scaledVariableDebt + 2 * RAY)
  }

  /** The debt accrued, plus what linear interest is ahead by, is linear interest on both debts. */
  lemma AccrualAccount(r: Reserve, t: int)
    requires Sound(r) && t >= r.lastUpdateTimestamp
    ensures var accrued := 2 * RAY * RAY * DebtAccrued(r, Updated(r, t)) + 2 * Ahead(r, t);
            var linear := 2 * RAY * LinearOnDebts(r, t);
            && accrued >= linear - VariableRounding(r, t) - StableRoundingUp(r, t)
            && accrued <= linear + VariableRounding(r, t) + StableRoundingDown(r, t)
  {
    hide Sound, RayMul, CalcCompoundedInterest, Updated, NextVariableBorrowIndex, Expansion, StableLead,
         StableRoundingUp, StableRoundingDown, StableGrowth;
    SoundDebts(r);
    UpdatedDebts(r, t);
    VariableSide(r, t);
    ShortfallIsLead(r, t);
    var d := t - r.lastUpdateTimestamp;
    CompoundedIs(r.variableBorrowRate, d, r.lastUpdateTimestamp);
    var v, g, e := VariableAtLastUpdate(r), r.variableBorrowRate * d / ONE_YEAR, Expansion(r.variableBorrowRate, d);
    AddSides(RayMul(r.scaledVariableDebt, NextVariableBorrowIndex(r, t)) - v, VariableGrowth(r, t) * v, v * g, v * e,
             StableDebtNow(r, t) - StableAtLastUpdate(r), StableAtLastUpdate(r) * StableGrowth(r, t),
             r.principalStableDebt * StableLead(r, t), VariableGrowth(r, t) + r.scaledVariableDebt + 2 * RAY,
             StableRoundingUp(r, t), StableRoundingDown(r, t)) by {
      assert VariableGrowth(r, t) * v == v * g + v * e;
    }
  }

  lemma AddSides(variable: int, grown: int, linear: int, expansion: int, stable: int, stableLinear: int, lead: int,
                 rounding: int, up: int, down: int)
    requires grown == linear + expansion
    requires Abs(2 * RAY * variable - 2 * grown) <= rounding
    requires 2 * lead - down <= 2 * RAY * (stableLinear - RAY * stable) <= 2 * lead + up
    ensures var accrued := 2 * RAY * RAY * (variable + stable) + 2 * (lead - RAY * expansion);
            2 * RAY * (linear + stableLinear) - RAY * rounding - up <= accrued
            <= 2 * RAY * (linear + stableLinear) + RAY * rounding + down
  {
  }

  /** What both kinds of borrowers owe by their rates over the interval is that linear interest, up to rounding the
      growth down. */
  lemma OwedIsLinear(r: Reserve, t: int)
    requires Sound(r) && t >= r.lastUpdateTimestamp && VariableAtLastUpdate(r) >= 0 && StableAtLastUpdate(r) >= 0
    ensures var owed :=
              VariableAtLastUpdate(r) * r.variableBorrowRate + StableAtLastUpdate(r) * r.averageStableBorrowRate;
            ONE_YEAR * LinearOnDebts(r, t) <= owed * (t - r.lastUpdateTimestamp)
            <= ONE_YEAR * (LinearOnDebts(r, t) + VariableAtLastUpdate(r) + StableAtLastUpdate(r))
  {
    hide Sound, VariableAtLastUpdate, StableAtLastUpdate;
    var d, v, w := t - r.lastUpdateTimestamp, VariableAtLastUpdate(r), StableAtLastUpdate(r);
    OwedOver(v, r.variableBorrowRate, d, r.variableBorrowRate * d / ONE_YEAR);
    OwedOver(w, r.averageStableBorrowRate, d, StableGrowth(r, t));
    assert (v * r.variableBorrowRate + w * r.averageStableBorrowRate) * d
        == v * r.variableBorrowRate * d + w * r.averageStableBorrowRate * d;
  }

  lemma OwedOver(debt: int, rate: int, d: int, growth: int)
    requires debt >= 0 && growth == rate * d / ONE_YEAR
    ensures ONE_YEAR * (debt * growth) <= debt * rate * d <= ONE_YEAR * (debt * growth + debt)
  {
    Floor(rate * d, growth);
    MulLe(ONE_YEAR * growth, rate * d, debt);
    MulLe(rate * d, ONE_YEAR * growth + ONE_YEAR, debt);
    OwedProducts(debt, rate, d, growth);
  }

  lemma OwedProducts(debt: int, rate: int, d: int, growth: int)
    ensures debt * (rate * d) == debt * rate * d && debt * (ONE_YEAR * growth) == ONE_YEAR * (debt * growth)
    ensures debt * (ONE_YEAR * growth + ONE_YEAR) == ONE_YEAR * (debt * growth + debt)
  {
  }

  // ---------- What suppliers earn ----------

  /** The overall rate and the excess of the reported utilization, for the debts at the last update. */
  function OverallRate(r: Reserve): int {
    OverallBorrowRate(StableAtLastUpdate(r), VariableAtLastUpdate(r), r.variableBorrowRate, r.averageStableBorrowRate)
  }

  function ReportedExcess(s: Strategy, r: Reserve): int
    requires RatesCurrent(s, r)
  {
    var debt := StableAtLastUpdate(r) + VariableAtLastUpdate(r);
    Excess(OverallRate(r), SupplyUtilization(debt, r.availableLiquidity, r.totalLiquidity), Claims(r), debt)
  }

  function PromiseRounding(s: Strategy, r: Reserve): int {
    RoundingTerm(PERCENTAGE_FACTOR - s.reserveFactor, Claims(r), StableAtLastUpdate(r) + VariableAtLastUpdate(r))
  }

  /** Slack of the account over the interval, for what suppliers earn at most and at least; in units of a
      squared ray and a basis point. */
  function AccountSlackAbove(s: Strategy, r: Reserve, t: int): int
    requires Sound(r) && t >= r.lastUpdateTimestamp
  {
    (PERCENTAGE_FACTOR - s.reserveFactor) * (ONE_YEAR * (VariableRounding(r, t) + StableRoundingUp(r, t)
                                                        + 2 * RAY * (VariableAtLastUpdate(r) + StableAtLastUpdate(r))))
    + (t - r.lastUpdateTimestamp) * PromiseRounding(s, r)
  }

  function AccountSlackBelow(s: Strategy, r: Reserve, t: int): int
    requires Sound(r) && t >= r.lastUpdateTimestamp
  {
    (PERCENTAGE_FACTOR - s.reserveFactor) * (ONE_YEAR * (VariableRounding(r, t) + StableRoundingDown(r, t)))
    + (t - r.lastUpdateTimestamp) * PromiseRounding(s, r) + 20000 * RAY * ONE_YEAR * Claims(r)
  }

  /** The suppliers' part of the debt accrued, of what linear interest is ahead by, and of the excess. */
  function Part(s: Strategy, r: Reserve, t: int): int
    requires RatesCurrent(s, r) && t >= r.lastUpdateTimestamp
  {
    (PERCENTAGE_FACTOR - s.reserveFactor)
    * (ONE_YEAR * (2 * RAY * RAY * DebtAccrued(r, Updated(r, t)) + 2 * Ahead(r, t))
       + 2 * (ReportedExcess(s, r) * (t - r.lastUpdateTimestamp)))
  }

  /** The account of realised interest, for every reserve, any age of its stable debt and whatever the string
      comparison reports: suppliers earn over the interval exactly that part, up to explicit slack. */
  lemma EarningsAccount(s: Strategy, r: Reserve, t: int)
    requires RatesCurrent(s, r) && t >= r.lastUpdateTimestamp
    ensures Part(s, r, t) - AccountSlackBelow(s, r, t) <= 20000 * RAY * ONE_YEAR * Income(r, t)
            <= Part(s, r, t) + AccountSlackAbove(s, r, t)
  {
    hide Sound, RayMul, CalcCompoundedInterest, CalcLinearInterest, Updated, InterestRates, DebtAccrued, Ahead,
         VariableRounding, StableRoundingUp, StableRoundingDown, LinearOnDebts, StableAtLastUpdate,
         VariableAtLastUpdate, OverallBorrowRate, RoundingTerm, SupplyUtilization, UncappedSupplyUtilization, Excess,
         ValidStrategy;
    ValidFactor(s);
    var p, d := PERCENTAGE_FACTOR - s.reserveFactor, t - r.lastUpdateTimestamp;
    var owed := VariableAtLastUpdate(r) * r.variableBorrowRate + StableAtLastUpdate(r) * r.averageStableBorrowRate;
    var growth := CalcLinearInterest(r.liquidityRate, t, r.lastUpdateTimestamp) - RAY;
    AccrualAccount(r, t);
    OwedIsLinear(r, t);
    SoundDebts(r);
    RatesOfSound(r);
    SuppliersAccount(s, r.marketStableRate, StableAtLastUpdate(r), VariableAtLastUpdate(r), r.averageStableBorrowRate,
                     r.availableLiquidity, r.totalLiquidity);
    LinearInterestExact(r.liquidityRate, d, r.lastUpdateTimestamp);
    EarnedOver(p, Claims(r), r.liquidityRate, growth, d, owed, ReportedExcess(s, r), PromiseRounding(s, r),
               LinearOnDebts(r, t), VariableAtLastUpdate(r) + StableAtLastUpdate(r));
    var accrued := 2 * RAY * RAY * DebtAccrued(r, Updated(r, t)) + 2 * Ahead(r, t);
    PartsOf(p, 2 * RAY * LinearOnDebts(r, t), accrued, ReportedExcess(s, r) * d,
            VariableRounding(r, t) + StableRoundingUp(r, t), VariableRounding(r, t) + StableRoundingDown(r, t),
            2 * RAY * (VariableAtLastUpdate(r) + StableAtLastUpdate(r)));
  }

  lemma ValidFactor(s: Strategy)
    requires ValidStrategy(s)
    ensures 0 <= s.reserveFactor <= PERCENTAGE_FACTOR
  {
  }

  lemma RatesOfSound(r: Reserve)
    requires Sound(r)
    ensures r.liquidityRate >= 0
  {
    hide Div;
  }

  lemma EarnedOver(p: int, claims: int, rate: int, growth: int, d: int, owed: int, excess: int, rounding: int,
                   linear: int, debt: int)
    requires p >= 0 && claims >= 0 && d >= 0
    requires growth * ONE_YEAR <= rate * d < (growth + 1) * ONE_YEAR
    requires Abs(20000 * RAY * (rate * claims) - 2 * (p * (RAY * owed + excess))) <= rounding
    requires ONE_YEAR * linear <= owed * d <= ONE_YEAR * (linear + debt)
    ensures var earned := 20000 * RAY * ONE_YEAR * (claims * growth);
            && earned <= p * (ONE_YEAR * (2 * RAY * linear + 2 * RAY * debt) + 2 * (excess * d)) + d * rounding
            && earned >= p * (ONE_YEAR * (2 * RAY * linear) + 2 * (excess * d)) - d * rounding
                         - 20000 * RAY * ONE_YEAR * claims
  {
    ClaimsGrow(claims, rate, growth, d);
    PromisedOver(p, claims, rate, d, owed, excess, rounding);
    OverTheYear(p, linear, debt, owed * d, excess * d);
    CombineEarned(claims * growth, rate * claims * d, p * (RAY * (owed * d) + excess * d), claims, d * rounding,
                  p * (ONE_YEAR * (2 * RAY * linear + 2 * RAY * debt) + 2 * (excess * d)),
                  p * (ONE_YEAR * (2 * RAY * linear) + 2 * (excess * d)));
  }

  lemma CombineEarned(grown: int, promised: int, part: int, claims: int, rounding: int, most: int, least: int)
    requires ONE_YEAR * grown <= promised <= ONE_YEAR * grown + ONE_YEAR * claims
    requires Abs(20000 * RAY * promised - 2 * part) <= rounding
    requires least <= 2 * part <= most
    ensures 20000 * RAY * ONE_YEAR * grown <= most + rounding
    ensures 20000 * RAY * ONE_YEAR * grown >= least - rounding - 20000 * RAY * ONE_YEAR * claims
  {
  }

  lemma ClaimsGrow(claims: int, rate: int, growth: int, d: int)
    requires claims >= 0 && growth * ONE_YEAR <= rate * d < (growth + 1) * ONE_YEAR
    ensures ONE_YEAR * (claims * growth) <= rate * claims * d <= ONE_YEAR * (claims * growth) + ONE_YEAR * claims
  {
    MulLe(growth * ONE_YEAR, rate * d, claims);
    MulLe(rate * d, growth * ONE_YEAR + ONE_YEAR, claims);
    assert claims * (rate * d) == rate * claims * d;
    assert claims * (growth * ONE_YEAR) == ONE_YEAR * (claims * growth);
    assert claims * (growth * ONE_YEAR + ONE_YEAR) == ONE_YEAR * (claims * growth) + ONE_YEAR * claims;
  }

  lemma PromisedOver(p: int, claims: int, rate: int, d: int, owed: int, excess: int, rounding: int)
    requires d >= 0 && Abs(20000 * RAY * (rate * claims) - 2 * (p * (RAY * owed + excess))) <= rounding
    ensures Abs(20000 * RAY * (rate * claims * d) - 2 * (p * (RAY * (owed * d) + excess * d))) <= d * rounding
  {
    var x, y := rate * claims, p * (RAY * owed + excess);
    ScaledGap(20000 * RAY * x, 2 * y, rounding, d);
    Rearranged(d, 20000 * RAY, x, 2, y);
    assert p * (RAY * owed + excess) * d == p * (RAY * (owed * d) + excess * d) by {
      ProductOfThree(p, RAY * owed + excess, d);
      assert (RAY * owed + excess) * d == RAY * (owed * d) + excess * d;
    }
  }

  lemma ProductOfThree(a: int, b: int, c: int)
    ensures a * b * c == a * (b * c)
  {
  }

  lemma OverTheYear(p: int, linear: int, debt: int, owed: int, excess: int)
    requires p >= 0 && ONE_YEAR * linear <= owed <= ONE_YEAR * (linear + debt)
    ensures 2 * (p * (RAY * owed + excess)) <= p * (ONE_YEAR * (2 * RAY * linear + 2 * RAY * debt) + 2 * excess)
    ensures 2 * (p * (RAY * owed + excess)) >= p * (ONE_YEAR * (2 * RAY * linear) + 2 * excess)
  {
    MulLe(RAY * (ONE_YEAR * linear), RAY * owed, p);
    MulLe(RAY * owed, RAY * (ONE_YEAR * (linear + debt)), p);
    assert p * (RAY * owed + excess) == p * (RAY * owed) + p * excess;
    assert p * (ONE_YEAR * (2 * RAY * linear) + 2 * excess) == 2 * (p * (RAY * (ONE_YEAR * linear))) + 2 * (p * excess);
    assert p * (ONE_YEAR * (2 * RAY * linear + 2 * RAY * debt) + 2 * excess)
        == 2 * (p * (RAY * (ONE_YEAR * (linear + debt)))) + 2 * (p * excess);
  }

  lemma PartsOf(p: int, linear: int, accrued: int, excess: int, up: int, down: int, debt: int)
    requires p >= 0 && linear - up <= accrued <= linear + down
    ensures p * (ONE_YEAR * (linear + debt) + 2 * excess)
            <= p * (ONE_YEAR * accrued + 2 * excess) + p * (ONE_YEAR * (up + debt))
    ensures p * (ONE_YEAR * linear + 2 * excess) >= p * (ONE_YEAR * accrued + 2 * excess) - p * (ONE_YEAR * down)
  {
    MulLe(ONE_YEAR * (linear + debt) + 2 * excess, ONE_YEAR * accrued + 2 * excess + ONE_YEAR * (up + debt), p);
    MulLe(ONE_YEAR * accrued + 2 * excess, ONE_YEAR * linear + 2 * excess + ONE_YEAR * down, p);
    assert p * (ONE_YEAR * accrued + 2 * excess + ONE_YEAR * (up + debt))
        == p * (ONE_YEAR * accrued + 2 * excess) + p * (ONE_YEAR * (up + debt));
    assert p * (ONE_YEAR * linear + 2 * excess + ONE_YEAR * down)
        == p * (ONE_YEAR * linear + 2 * excess) + p * (ONE_YEAR * down);
  }

  // ---------- When that is covered ----------

  /** Rounding of the utilization over the interval. */
  function ShareSlack(s: Strategy, r: Reserve, t: int): int {
    (PERCENTAGE_FACTOR - s.reserveFactor) * (OverallRate(r) * Claims(r) * (t - r.lastUpdateTimestamp))
  }

  /** The suppliers' part of the debt accrued. */
  function PartOfAccrued(s: Strategy, r: Reserve, t: int): int
    requires Sound(r) && t >= r.lastUpdateTimestamp
  {
    (PERCENTAGE_FACTOR - s.reserveFactor) * (ONE_YEAR * (2 * RAY * RAY * DebtAccrued(r, Updated(r, t))))
  }

  function PartOfAhead(s: Strategy, r: Reserve, t: int): int
    requires Sound(r) && t >= r.lastUpdateTimestamp
  {
    (PERCENTAGE_FACTOR - s.reserveFactor) * (ONE_YEAR * (2 * Ahead(r, t)))
  }

  /** Suppliers earn no more than their part of the debt accrued, and the slack. */
  predicate Covered(s: Strategy, r: Reserve, t: int)
    requires Sound(r) && t >= r.lastUpdateTimestamp
  {
    20000 * RAY * ONE_YEAR * Income(r, t) <= PartOfAccrued(s, r, t) + AccountSlackAbove(s, r, t) + ShareSlack(s, r, t)
  }

  lemma ShareLeavesNoExcess(s: Strategy, r: Reserve)
    requires RatesCurrent(s, r) && UtilizationIsShare(r)
    ensures Abs(2 * ReportedExcess(s, r)) <= OverallRate(r) * Claims(r)
  {
    hide Sound, RayMul, StableAtLastUpdate, VariableAtLastUpdate, InterestRates, OverallBorrowRate, SupplyUtilization,
         UncappedSupplyUtilization, Excess, ValidStrategy;
    SoundDebts(r);
    SuppliersAccount(s, r.marketStableRate, StableAtLastUpdate(r), VariableAtLastUpdate(r), r.averageStableBorrowRate,
                     r.availableLiquidity, r.totalLiquidity);
    var debt := StableAtLastUpdate(r) + VariableAtLastUpdate(r);
    if debt > 0 {
      ExcessOfShare(OverallRate(r), debt, r.availableLiquidity, r.totalLiquidity);
    } else {
      NothingOwed(StableAtLastUpdate(r), VariableAtLastUpdate(r), r.variableBorrowRate, r.averageStableBorrowRate);
      NoExcess(SupplyUtilization(0, r.availableLiquidity, r.totalLiquidity), Claims(r));
    }
  }

  lemma NoExcess(utilization: int, claims: int)
    ensures Excess(0, utilization, claims, 0) == 0 == 0 * claims
  {
  }

  /** While the utilization is the debt's share, suppliers earn their part of the debt accrued and of what linear
      interest is ahead by. So they are covered whenever that is not positive, and whenever it is positive beyond
      the slack they are not: rates, age and interval decide it, not the accrual. */
  lemma SuppliersEarnWhatAccrues(s: Strategy, r: Reserve, t: int)
    requires RatesCurrent(s, r) && t >= r.lastUpdateTimestamp && UtilizationIsShare(r)
    ensures var earned, due := 20000 * RAY * ONE_YEAR * Income(r, t), PartOfAccrued(s, r, t) + PartOfAhead(s, r, t);
            due - AccountSlackBelow(s, r, t) - ShareSlack(s, r, t) <= earned
              <= due + AccountSlackAbove(s, r, t) + ShareSlack(s, r, t)
    ensures Ahead(r, t) <= 0 ==> Covered(s, r, t)
    ensures PartOfAhead(s, r, t) > AccountSlackBelow(s, r, t) + ShareSlack(s, r, t) ==>
              20000 * RAY * ONE_YEAR * Income(r, t) > PartOfAccrued(s, r, t)
    ensures PartOfAhead(s, r, t) > AccountSlackAbove(s, r, t) + AccountSlackBelow(s, r, t) + 2 * ShareSlack(s, r, t) ==>
              !Covered(s, r, t)
  {
    hide Sound, RayMul, Updated, DebtAccrued, Ahead, ReportedExcess, OverallRate, Claims, AccountSlackAbove,
         AccountSlackBelow, Income, UtilizationIsShare, RatesCurrent, ValidStrategy;
    EarningsAccount(s, r, t);
    ShareLeavesNoExcess(s, r);
    FactorOfCurrent(s, r);
    SoundOfCurrent(s, r);
    var p, d := PERCENTAGE_FACTOR - s.reserveFactor, t - r.lastUpdateTimestamp;
    ShareOfPart(p, 2 * RAY * RAY * DebtAccrued(r, Updated(r, t)), Ahead(r, t), ReportedExcess(s, r),
                OverallRate(r) * Claims(r), d);
    NothingAhead(p, Ahead(r, t));
  }

  lemma FactorOfCurrent(s: Strategy, r: Reserve)
    requires RatesCurrent(s, r)
    ensures ValidStrategy(s) && 0 <= s.reserveFactor <= PERCENTAGE_FACTOR
  {
    hide Sound, InterestRates;
  }

  lemma NothingAhead(p: int, ahead: int)
    requires p >= 0
    ensures ahead <= 0 ==> p * (ONE_YEAR * (2 * ahead)) <= 0
  {
    if ahead <= 0 { MulLe(ONE_YEAR * (2 * ahead), 0, p); }
  }

  lemma ShareOfPart(p: int, accrued: int, ahead: int, excess: int, bound: int, d: int)
    requires p >= 0 && d >= 0 && Abs(2 * excess) <= bound
    ensures Abs(p * (ONE_YEAR * (accrued + 2 * ahead) + 2 * (excess * d))
                - (p * (ONE_YEAR * accrued) + p * (ONE_YEAR * (2 * ahead))))
            <= p * (bound * d)
  {
    ScaledGap(2 * excess, 0, bound, d);
    ScaledGap(d * (2 * excess), 0, d * bound, p);
    assert d * (2 * excess) == 2 * (excess * d) && d * bound == bound * d;
    assert p * (ONE_YEAR * (accrued + 2 * ahead) + 2 * (excess * d))
        == p * (ONE_YEAR * accrued) + p * (ONE_YEAR * (2 * ahead)) + p * (2 * (excess * d));
  }

  /** The suppliers' part of what the overall rate collects beyond the debt, when the cap reports more. */
  function PartOfExcess(s: Strategy, r: Reserve, t: int): int
    requires RatesCurrent(s, r)
  {
    (PERCENTAGE_FACTOR - s.reserveFactor) * (2 * (ReportedExcess(s, r) * (t - r.lastUpdateTimestamp)))
  }

  /** Suppliers and treasury together: with one reserve factor for both, their income and what is minted come to
      no more than the debt accrued and the suppliers' parts of what linear interest is ahead by and of the
      excess, up to the same slack and half a unit; whatever the utilization reports. */
  lemma InterestAndTreasury(s: Strategy, r: Reserve, t: int)
    requires RatesCurrent(s, r) && t >= r.lastUpdateTimestamp && r.reserveFactor == s.reserveFactor
    ensures 20000 * RAY * ONE_YEAR * (Income(r, t) + RAY * AmountToMint(r, Updated(r, t)))
            <= 20000 * RAY * ONE_YEAR * (RAY * DebtAccrued(r, Updated(r, t)))
               + PartOfAhead(s, r, t) + PartOfExcess(s, r, t) + AccountSlackAbove(s, r, t)
               + 10000 * RAY * RAY * ONE_YEAR
  {
    hide Sound, RayMul, Updated, DebtAccrued, AmountToMint, AccountSlackAbove, AccountSlackBelow, Income, RatesCurrent,
         Ahead, ReportedExcess;
    SoundOfCurrent(s, r);
    EarningsAccount(s, r, t);
    MintIsShare(r, t);
    SharesOfAccrued(DebtAccrued(r, Updated(r, t)), AmountToMint(r, Updated(r, t)), s.reserveFactor);
    PartSplits(PERCENTAGE_FACTOR - s.reserveFactor, 2 * RAY * RAY * DebtAccrued(r, Updated(r, t)), Ahead(r, t),
               ReportedExcess(s, r) * (t - r.lastUpdateTimestamp));
  }

  lemma PartSplits(p: int, accrued: int, ahead: int, excess: int)
    ensures p * (ONE_YEAR * (accrued + 2 * ahead) + 2 * excess)
         == p * (ONE_YEAR * accrued) + p * (ONE_YEAR * (2 * ahead)) + p * (2 * excess)
  {
  }

  /** While the utilization is the debt's share the excess is only its rounding: both are covered whenever linear
      interest is not ahead. */
  lemma InterestCoversEveryone(s: Strategy, r: Reserve, t: int)
    requires RatesCurrent(s, r) && t >= r.lastUpdateTimestamp && UtilizationIsShare(r)
    requires r.reserveFactor == s.reserveFactor
    ensures 20000 * RAY * ONE_YEAR * (Income(r, t) + RAY * AmountToMint(r, Updated(r, t)))
            <= 20000 * RAY * ONE_YEAR * (RAY * DebtAccrued(r, Updated(r, t)))
               + PartOfAhead(s, r, t) + AccountSlackAbove(s, r, t) + ShareSlack(s, r, t) + 10000 * RAY * RAY * ONE_YEAR
    ensures Ahead(r, t) <= 0 ==> PartOfAhead(s, r, t) <= 0
  {
    hide Sound, RayMul, Updated, DebtAccrued, AmountToMint, AccountSlackAbove, Income, UtilizationIsShare, RatesCurrent,
         Ahead, ReportedExcess, OverallRate, Claims;
    InterestAndTreasury(s, r, t);
    ShareLeavesNoExcess(s, r);
    FactorOfCurrent(s, r);
    SoundOfCurrent(s, r);
    NothingAhead(PERCENTAGE_FACTOR - s.reserveFactor, Ahead(r, t));
    ShareOfPart(PERCENTAGE_FACTOR - s.reserveFactor, 0, 0, ReportedExcess(s, r), OverallRate(r) * Claims(r),
                t - r.lastUpdateTimestamp);
  }

  lemma SoundOfCurrent(s: Strategy, r: Reserve)
    requires RatesCurrent(s, r)
    ensures Sound(r)
  {
    hide Sound, InterestRates;
  }

  lemma SharesOfAccrued(accrued: int, minted: int, factor: int)
    requires Abs(10000 * minted - factor * accrued) <= 5000
    ensures (PERCENTAGE_FACTOR - factor) * (ONE_YEAR * (2 * RAY * RAY * accrued))
            + 20000 * RAY * ONE_YEAR * (RAY * minted)
            <= 20000 * RAY * ONE_YEAR * (RAY * accrued) + 10000 * RAY * RAY * ONE_YEAR
  {
    assert (PERCENTAGE_FACTOR - factor) * (ONE_YEAR * (2 * RAY * RAY * accrued))
        == ONE_YEAR * (2 * RAY * RAY * (10000 * accrued - factor * accrued));
  }

  /** So it is after every action, for as long as nothing else happens: always if there are no unbacked tokens, and
      otherwise if the cap on the utilization keeps out of the way. */
  lemma EarnedAfterEveryAction(s: Strategy, r: Reserve, a: Action, t: int, later: int)
    requires ValidStrategy(s) && Sound(r) && Enabled(r, a, t) && StableTimeKnown(r, a, t) && later >= t
    ensures var next := After(s, r, a, t);
            && RatesCurrent(s, next) && next.lastUpdateTimestamp == t
            && (next.unbacked == 0 ==> UtilizationIsShare(next))
            && (UtilizationIsShare(next) && Ahead(next, later) <= 0 ==> Covered(s, next, later))
            && (UtilizationIsShare(next) ==>
                  20000 * RAY * ONE_YEAR * Income(next, later)
                  <= PartOfAccrued(s, next, later) + PartOfAhead(s, next, later)
                     + AccountSlackAbove(s, next, later) + ShareSlack(s, next, later))
  {
    hide Sound, After, Enabled, Covered, Ahead, SupplyUtilization, UncappedSupplyUtilization, RayMul,
         StableAtLastUpdate, StableTimeKnown, Income, PartOfAccrued, PartOfAhead, AccountSlackAbove, ShareSlack;
    var next := After(s, r, a, t);
    ActionsSetCurrentRates(s, r, a, t);
    StepKeeps(s, r, a, t);
    UnbackedOfSound(next);
    if next.unbacked == 0 {
      CapIdleWithoutUnbacked(StableAtLastUpdate(next) + VariableAtLastUpdate(next), next.totalLiquidity);
    }
    if UtilizationIsShare(next) { SuppliersEarnWhatAccrues(s, next, later); }
  }
}
