/** Rebalancing among several stable borrowers: the debt moved is turned into rays and the rest is not, so it weighs
    10^9 times too much, and the average is the debt-weighted mean only on an exact condition. */
module RebalanceMean {
  import opened WadRayMath
  import opened RateStrategy
  import opened ReserveModel
  import opened DebtActions
  import opened RepayActions

  // ---------- What is computed ----------

  lemma RayMulAnySign(a: int, b: int)
    ensures 2 * Abs(RAY * RayMul(a, b) - a * b) <= 3 * RAY
  {
    hide Div;
    DivTruncates(HALF_RAY + a * b, RAY);
  }

  lemma RayDivAnySign(a: int, b: int)
    requires b != 0
    ensures 2 * Abs(b * RayDiv(a, b) - a * RAY) <= 3 * Abs(b)
  {
    hide Div;
    DivTruncates(Div(b, 2) + a * RAY, b);
    DivTruncates(b, 2);
  }

  /** The rate is the mean of the average and of the rate of the change, the latter with the weight of 10^9 times the
      change, to within its three roundings; nothing is asked of any sign. */
  ghost predicate Reweighed(next: int, average: int, total: int, change: int, rate: int) {
    var debt := total + 1_000_000_000 * change;
    if debt == 0 then next == 0
    else 2 * Abs(debt * next - (average * total + rate * (1_000_000_000 * change))) <= 3 * Abs(debt) + 6 * RAY
  }

  lemma RebalanceReweighs(average: int, total: int, change: int, rate: int)
    ensures Reweighed(AverageStableRateRebalance(average, total, change, rate), average, total, change, rate)
  {
    hide RayMul, RayDiv;
    var debt, heavy := total + WadToRay(change), WadToRay(change);
    if debt != 0 {
      RayMulAnySign(average, total);
      RayMulAnySign(rate, heavy);
      RayDivAnySign(RayMul(average, total) + RayMul(rate, heavy), debt);
    }
  }

  /** The two steps of a rebalance, in the fields of the records: the user's debt leaves at its own rate and joins again
      at the rate on offer. */
  lemma RebalancedAverage(s: Strategy, b: Reserve, u: User, t: int) returns (removed: int)
    requires ValidStrategy(s) && Sound(b) && t >= b.lastUpdateTimestamp
    ensures var total, debt := StableDebtNow(b, t), UserStableDebt(u, t);
            && Reweighed(removed, b.averageStableBorrowRate, total, -debt, u.stableBorrowRate)
            && Reweighed(AfterStableRateRebalance(s, b, u, t).averageStableBorrowRate, removed, total - debt, debt,
                         b.stableBorrowRate)
  {
    hide InterestRates, BorrowUtilization, SupplyUtilization, BroughtUpTo, StableDebtNow, UserStableDebt, Sound,
         AverageStableRateRebalance, Reweighed;
    var total, debt := StableDebtNow(b, t), UserStableDebt(u, t);
    removed := AverageStableRateRebalance(b.averageStableBorrowRate, total, Negated(debt), u.stableBorrowRate);
    RebalanceReweighs(b.averageStableBorrowRate, total, Negated(debt), u.stableBorrowRate);
    RebalanceReweighs(removed, total - debt, debt, b.stableBorrowRate);
  }

  // ---------- When it is the mean ----------

  /** Without the roundings the two steps lead to removed/debt1 and then to numerator/(debt1 * debt2). That is the
      mean of the debts at their rates if and only if the rates make up for the weights. With a user at the average rate
      they never do, unless nobody else owes anything or the rate on offer is the average already. */
  lemma RebalanceIsMeanExactly(average: int, total: int, debt: int, userRate: int, rate: int, debt1: int, debt2: int,
                               removed: int, numerator: int)
    requires debt > 0 && total > 0 && debt1 != 0 && debt2 != 0
    requires debt1 == total - 1_000_000_000 * debt && debt2 == total - debt + 1_000_000_000 * debt
    requires removed == average * total - userRate * (1_000_000_000 * debt)
    requires numerator == removed * (total - debt) + rate * (1_000_000_000 * debt) * debt1
    ensures var left, weight := total - debt, average * total - userRate * debt;
            var isMean := total * numerator == (weight + rate * debt) * (debt1 * debt2);
            && (isMean <==> (left * rate - weight) * debt1 == total * total * (userRate - average))
            && (userRate == average ==> (isMean <==> left == 0 || rate == average))
  {
    var left, extra, weight := total - debt, 999_999_999 * debt, average * total - userRate * debt;
    NumeratorMeets(average, total, debt, userRate, rate, debt1, debt2, removed, numerator, left, extra, weight);
    SameOrGap(extra, total * numerator, (weight + rate * debt) * (debt1 * debt2), (left * rate - weight) * debt1,
              total * total * (userRate - average), debt1 * (left * rate - weight)
                + total * total * (average - userRate));
    if userRate == average { AtTheAverage(debt1, left, average, rate, weight); }
  }

  lemma SameOrGap(extra: int, x: int, y: int, p: int, q: int, gap: int)
    requires extra > 0 && gap == p - q && x - y == extra * gap
    ensures x == y <==> p == q
  {
    ProductIsZero(extra, gap);
  }

  lemma AtTheAverage(debt1: int, left: int, average: int, rate: int, weight: int)
    requires debt1 != 0 && weight == average * left
    ensures (left * rate - weight) * debt1 == 0 <==> left == 0 || rate == average
  {
    ProductIsZero(left * rate - weight, debt1);
    assert left * rate - weight == left * (rate - average);
    ProductIsZero(left, rate - average);
  }

  lemma NumeratorMeets(average: int, total: int, debt: int, userRate: int, rate: int, debt1: int, debt2: int,
                       removed: int, numerator: int, left: int, extra: int, weight: int)
    requires debt1 == left - extra && debt2 == total + extra && left == total - debt && extra == 999_999_999 * debt
    requires weight == average * total - userRate * debt
    requires removed == average * total - userRate * (1_000_000_000 * debt)
    requires numerator == removed * left + rate * (1_000_000_000 * debt) * debt1
    ensures total * numerator - (weight + rate * debt) * (debt1 * debt2)
         == extra * (debt1 * (left * rate - weight) + total * total * (average - userRate))
  {
    assert userRate * (1_000_000_000 * debt) == userRate * debt + userRate * extra;
    assert rate * (1_000_000_000 * debt) == rate * debt + rate * extra;
    MeanDifference(total, debt, left, extra, average, userRate, rate, weight);
  }

  lemma ProductIsZero(x: int, y: int)
    ensures x * y == 0 <==> x == 0 || y == 0
  {
    if x != 0 && y != 0 {
      MulLe(1, Abs(x), Abs(y));
      assert Abs(x) * Abs(y) == Abs(x * y);
    }
  }

  lemma MeanDifference(t: int, d: int, l: int, x: int, a: int, u: int, r: int, w: int)
    requires l == t - d && w == a * t - u * d
    ensures t * ((w - u * x) * l + (r * d + r * x) * (l - x)) - (w + r * d) * ((l - x) * (t + x))
         == x * ((l - x) * (l * r - w) + t * t * (a - u))
  {
    var c, g, h, y := l - x, r * d, r * x, u * x;
    Expanded(t, l, x, c, w, g, h, y);
    FactorOut(t, l, x, c, w, g, u, r);
    FactorsMeet(t, d, l, c, a, u, r, w, g);
  }

  lemma Expanded(t: int, l: int, x: int, c: int, w: int, g: int, h: int, y: int)
    requires c == l - x
    ensures t * ((w - y) * l + (g + h) * c) - (w + g) * (c * (t + x))
         == w * t * x - t * (y * l) + t * (h * c) - w * (c * x) - g * (c * x)
  {
    assert (w - y) * l == w * l - y * l && (g + h) * c == g * c + h * c;
    SpreadFour(t, w * l, y * l, g * c, h * c);
    assert c * (t + x) == c * t + c * x;
    SpreadProduct(w, g, c * t, c * x);
    assert t * (g * c) == g * (c * t);
    assert t * (w * l) == w * t * l && w * (c * t) == w * t * c;
    assert w * t * l - w * t * c == w * t * x;
  }

  lemma SpreadFour(t: int, p: int, q: int, v: int, z: int)
    ensures t * (p - q + (v + z)) == t * p - t * q + t * v + t * z
  {
  }

  lemma SpreadProduct(w: int, g: int, p: int, q: int)
    ensures (w + g) * (p + q) == w * p + w * q + g * p + g * q
  {
  }

  lemma FactorOut(t: int, l: int, x: int, c: int, w: int, g: int, u: int, r: int)
    ensures w * t * x - t * (u * x * l) + t * (r * x * c) - w * (c * x) - g * (c * x)
         == x * (w * t - t * u * l + t * r * c - w * c - g * c)
  {
    assert t * (u * x * l) == x * (t * u * l) && t * (r * x * c) == x * (t * r * c);
    assert w * (c * x) == x * (w * c) && g * (c * x) == x * (g * c);
    SpreadFour(x, w * t, t * u * l, t * r * c - w * c, -(g * c));
    assert x * (t * r * c - w * c) == x * (t * r * c) - x * (w * c);
  }

  lemma FactorsMeet(t: int, d: int, l: int, c: int, a: int, u: int, r: int, w: int, g: int)
    requires l == t - d && w == a * t - u * d && g == r * d
    ensures w * t - t * u * l + t * r * c - w * c - g * c == c * (l * r - w) + t * t * (a - u)
  {
    SpreadRate(t, d, l, c, r, w, g);
    SpreadSquare(t, d, l, a, u, w);
  }

  lemma SpreadRate(t: int, d: int, l: int, c: int, r: int, w: int, g: int)
    requires l == t - d && g == r * d
    ensures c * (l * r - w) == t * r * c - g * c - w * c
  {
    assert l * r == t * r - g;
    assert c * (t * r - g - w) == c * (t * r) - c * g - c * w;
  }

  lemma SpreadSquare(t: int, d: int, l: int, a: int, u: int, w: int)
    requires l == t - d && w == a * t - u * d
    ensures t * t * (a - u) == w * t - t * u * l
  {
    assert w * t == a * t * t - u * d * t;
    assert t * u * l == t * u * t - t * u * d;
  }

  // ---------- How far it is from the mean ----------

  /** A user at the average rate who owes at least a token, and the others at most 10^8 times as much: afterwards the
      average is as far from the rate on offer as if the others owed 10^9 times less than they do. */
  lemma RebalanceTakesOver(s: Strategy, b: Reserve, u: User, t: int)
    requires ValidStrategy(s) && Sound(b) && t >= b.lastUpdateTimestamp
    requires u.stableBorrowRate == b.averageStableBorrowRate
    requires UserStableDebt(u, t) >= WAD
    requires 0 <= StableDebtNow(b, t) - UserStableDebt(u, t) <= 100_000_000 * UserStableDebt(u, t)
    ensures var left, debt := StableDebtNow(b, t) - UserStableDebt(u, t), UserStableDebt(u, t);
            var average, rate, next := b.averageStableBorrowRate, b.stableBorrowRate,
                                       AfterStableRateRebalance(s, b, u, t).averageStableBorrowRate;
            (left + 1_000_000_000 * debt) * Abs(next - rate)
            <= left * (Abs(average - rate) + 6) + 5 * (left + 1_000_000_000 * debt)
  {
    hide InterestRates, AfterStableRateRebalance, StableDebtNow, UserStableDebt, Sound, Reweighed;
    var removed := RebalancedAverage(s, b, u, t);
    var total, debt := StableDebtNow(b, t), UserStableDebt(u, t);
    var average, rate, next := b.averageStableBorrowRate, b.stableBorrowRate,
                               AfterStableRateRebalance(s, b, u, t).averageStableBorrowRate;
    RemovedStaysClose(removed, average, total, debt);
    ReAddedTakesOver(next, removed, total - debt, debt, rate);
    MulLe(Abs(removed - rate), Abs(average - rate) + 6, total - debt);
  }

  lemma RemovedStaysClose(removed: int, average: int, total: int, debt: int)
    requires debt >= WAD && 0 <= total - debt <= 100_000_000 * debt
    requires Reweighed(removed, average, total, -debt, average)
    ensures Abs(removed - average) <= 6
  {
    var d := total + 1_000_000_000 * -debt;
    ReAddedGap(removed, average, total, 1_000_000_000 * -debt, average);
    WithinRoundings(d, removed - average, 6);
  }

  lemma WithinRoundings(d: int, x: int, bound: int)
    requires 10 * Abs(d) >= 8 * RAY && bound >= 6
    requires 2 * Abs(d * x) <= 3 * Abs(d) + 6 * RAY
    ensures Abs(x) <= bound
  {
    assert Abs(d * x) == Abs(d) * Abs(x);
    if Abs(x) > bound { MulLe(7, Abs(x), Abs(d)); }
  }

  lemma ReAddedTakesOver(next: int, removed: int, left: int, debt: int, rate: int)
    requires debt >= WAD && left >= 0
    requires Reweighed(next, removed, left, debt, rate)
    ensures (left + 1_000_000_000 * debt) * Abs(next - rate)
            <= left * Abs(removed - rate) + 5 * (left + 1_000_000_000 * debt)
  {
    var d := left + 1_000_000_000 * debt;
    ReAddedGap(next, removed, left, 1_000_000_000 * debt, rate);
    AbsProduct(d, next - rate);
    AbsProduct(left, removed - rate);
  }

  lemma ReAddedGap(next: int, removed: int, left: int, heavy: int, rate: int)
    ensures (left + heavy) * next - (removed * left + rate * heavy)
         == (left + heavy) * (next - rate) - left * (removed - rate)
  {
    assert rate * (left + heavy) == rate * left + rate * heavy;
  }

  lemma AbsProduct(k: int, x: int)
    requires k >= 0
    ensures Abs(k * x) == k * Abs(x)
  {
    MulLe(0, k, Abs(x));
  }

  /** Two borrowers owe the same at the average rate, at least a token each, and the rate on offer is 2% above it. Once
      one of them is rebalanced the mean is 1% above the old average; the record says more than 1.99%. */
  lemma HalfRebalancedTakesAll(s: Strategy, b: Reserve, u: User, t: int)
    requires ValidStrategy(s) && Sound(b) && t >= b.lastUpdateTimestamp
    requires u.stableBorrowRate == b.averageStableBorrowRate == b.stableBorrowRate - 2 * (RAY / 100)
    requires WAD <= UserStableDebt(u, t) && StableDebtNow(b, t) == 2 * UserStableDebt(u, t)
    ensures AfterStableRateRebalance(s, b, u, t).averageStableBorrowRate
         >= b.averageStableBorrowRate + 199 * (RAY / 10_000)
  {
    hide InterestRates, AfterStableRateRebalance, StableDebtNow, UserStableDebt, Sound, ValidStrategy;
    RebalanceTakesOver(s, b, u, t);
    var debt := UserStableDebt(u, t);
    var gap := Abs(AfterStableRateRebalance(s, b, u, t).averageStableBorrowRate - b.stableBorrowRate);
    if gap > RAY / 10_000 {
      assert (debt + 1_000_000_000 * debt) * gap == debt * (1_000_000_001 * gap);
      MulLe(2 * (RAY / 100) + 6 + 5 * 1_000_000_001 + 1, 1_000_000_001 * gap, debt);
    }
  }

  /** Such a user's rebalance keeps the reserve sound. */
  lemma CommonRebalanceValid(s: Strategy, b: Reserve, u: User, t: int)
    requires ValidStrategy(s) && Sound(b) && t >= b.lastUpdateTimestamp
    requires u.stableBorrowRate == b.averageStableBorrowRate >= 6
    requires UserStableDebt(u, t) >= WAD
    requires 0 <= StableDebtNow(b, t) - UserStableDebt(u, t) <= 100_000_000 * UserStableDebt(u, t)
    ensures CanRebalance(b, u, t) && Sound(AfterStableRateRebalance(s, b, u, t))
  {
    hide AfterStableRateRebalance, StableDebtNow, UserStableDebt, Sound, Reweighed, AverageStableRateRebalance;
    var total, debt := StableDebtNow(b, t), UserStableDebt(u, t);
    var removed := AverageStableRateRebalance(b.averageStableBorrowRate, total, Negated(debt), u.stableBorrowRate);
    RebalanceReweighs(b.averageStableBorrowRate, total, Negated(debt), u.stableBorrowRate);
    RemovedStaysClose(removed, b.averageStableBorrowRate, total, debt);
    SoundDebts(b);
    ReAddedNonNegative(removed, total - debt, debt, b.stableBorrowRate);
    RebalanceValidExactly(s, b, u, t);
  }

  lemma ReAddedNonNegative(removed: int, left: int, debt: int, rate: int)
    requires removed >= 0 && left >= 0 && debt > 0 && rate >= 0
    ensures AverageStableRateRebalance(removed, left, debt, rate) >= 0
  {
    hide RayMul, RayDiv;
    RayMulMonotone(removed, left, removed, left);
    RayMulMonotone(rate, WadToRay(debt), rate, WadToRay(debt));
    var n := RayMul(removed, left) + RayMul(rate, WadToRay(debt));
    RayDivMonotone(n, left + WadToRay(debt), n, left + WadToRay(debt));
  }

  // ---------- When it is negative ----------

  /** The sign of the average with the debt added again, through both divisions, by what is divided. */
  lemma ReAddedSign(removed: int, left: int, debt: int, rate: int)
    requires left + WadToRay(debt) > 0
    ensures var d := left + WadToRay(debt);
            AverageStableRateRebalance(removed, left, debt, rate) >= 0
            <==> RAY * (RayMul(removed, left) + RayMul(rate, WadToRay(debt))) > -(d + d / 2)
  {
    hide RayMul, Div;
    var d := left + WadToRay(debt);
    TruncatedSign(d / 2 + (RayMul(removed, left) + RayMul(rate, WadToRay(debt))) * RAY, d);
    assert Div(d, 2) == d / 2;
  }

  /** A user owes one unit at 100% of 2 * 10^9 units, on average at 5%, which is also the rate on offer: rebalancing
      leaves a negative average. */
  lemma RebalanceGoesNegative(s: Strategy, b: Reserve, u: User, t: int)
    requires ValidStrategy(s) && Sound(b) && t >= b.lastUpdateTimestamp
    requires StableDebtNow(b, t) == 2_000_000_000 && UserStableDebt(u, t) == 1
    requires b.averageStableBorrowRate == b.stableBorrowRate == RAY / 20 && u.stableBorrowRate == RAY
    ensures !CanRebalance(b, u, t) && !Sound(AfterStableRateRebalance(s, b, u, t))
  {
    hide AfterStableRateRebalance, StableDebtNow, UserStableDebt, Sound, ValidStrategy, AverageStableRateRebalance;
    RebalanceValidExactly(s, b, u, t);
    RemovedIsNegative();
    ReAddedIsNegative(AverageStableRateRebalance(RAY / 20, 2_000_000_000, Negated(1), RAY));
  }

  lemma RemovedIsNegative()
    ensures AverageStableRateRebalance(RAY / 20, 2_000_000_000, Negated(1), RAY) <= -8 * (RAY / 10)
  {
    assert RayMul(RAY / 20, 2_000_000_000) == 100_000_000;
    assert RayMul(RAY, -1_000_000_000) == -999_999_999;
  }

  lemma ReAddedIsNegative(removed: int)
    requires removed <= -8 * (RAY / 10)
    ensures AverageStableRateRebalance(removed, 1_999_999_999, 1, RAY / 20) < 0
  {
  }
}
