/** The reserve's total stable debt, kept at one average rate, against the sum of its borrowers' balances, each at
    its own rate: compounding is convex in the rate, so the total falls behind the sum. */
module StableTotals {
  import opened WadRayMath
  import opened Interest
  import opened AgedDebt
  import opened RateStrategy
  import opened ReserveModel
  import opened DebtActions
  import opened RepayActions
  import opened UserModel
  import opened Balances
  import opened SwapRoundTrip
  import opened StableDrift

  /** A borrower's stable principal and rate. */
  datatype Position = Position(principal: int, rate: int)

  ghost predicate NonNegative(ps: seq<Position>) {
    forall k | 0 <= k < |ps| :: ps[k].principal >= 0 && ps[k].rate >= 0
  }

  function Principals(ps: seq<Position>): int {
    if ps == [] then 0 else ps[0].principal + Principals(ps[1..])
  }

  function WeightedRates(ps: seq<Position>): int {
    if ps == [] then 0 else ps[0].rate * ps[0].principal + WeightedRates(ps[1..])
  }

  /** The sum of all balances at t, of debts taken up at `last`. */
  function StableBalances(ps: seq<Position>, last: int, t: int): int {
    if ps == [] then 0
    else StableDebtTokenBalance(ps[0].principal, ps[0].rate, last, t) + StableBalances(ps[1..], last, t)
  }

  /** Principals weighted with the linear growth and with the rounded square and cube of each rate. */
  function WeightedGrowths(ps: seq<Position>, d: int): int {
    if ps == [] then 0 else ps[0].principal * (ps[0].rate * d / ONE_YEAR) + WeightedGrowths(ps[1..], d)
  }

  function WeightedSquares(ps: seq<Position>): int {
    if ps == [] then 0 else ps[0].principal * BasePowerTwo(ps[0].rate) + WeightedSquares(ps[1..])
  }

  function WeightedCubes(ps: seq<Position>): int {
    if ps == [] then 0 else ps[0].principal * BasePowerThree(ps[0].rate) + WeightedCubes(ps[1..])
  }

  // ---------- One borrower against the average ----------

  lemma GrowthAtLeast(p: int, rate: int, d: int, growth: int)
    requires p >= 0 && growth == rate * d / ONE_YEAR
    ensures ONE_YEAR * (p * growth) >= d * (rate * p) - ONE_YEAR * p
  {
    Floor(rate * d, growth);
    MulLe(rate * d, ONE_YEAR * growth + ONE_YEAR, p);
    assert p * (rate * d) == d * (rate * p);
    assert p * (ONE_YEAR * growth + ONE_YEAR) == ONE_YEAR * (p * growth) + ONE_YEAR * p;
  }

  /** The rounded square lies above its tangent at the average rate a, up to rounding. */
  lemma SquareAtLeast(p: int, rate: int, a: int, p2: int)
    requires p >= 0 && rate >= 0 && p2 == BasePowerTwo(rate)
    ensures 2 * RAY * (ONE_YEAR * ONE_YEAR) * (p * p2)
            >= 4 * a * (rate * p) - (2 * (a * a) + RAY + 2 * RAY * (ONE_YEAR * ONE_YEAR)) * p
  {
    SquareRounded(rate);
    hide BasePowerTwo;
    TangentOfSquare(rate, a);
    var slack := 2 * (a * a) + RAY + 2 * RAY * (ONE_YEAR * ONE_YEAR);
    MulLe(4 * a * rate - slack, 2 * RAY * (ONE_YEAR * ONE_YEAR) * p2, p);
    assert p * (2 * RAY * (ONE_YEAR * ONE_YEAR) * p2) == 2 * RAY * (ONE_YEAR * ONE_YEAR) * (p * p2);
    SpreadTangent(p, 4 * a, rate, slack);
  }

  lemma TangentOfSquare(rate: int, a: int)
    ensures 2 * (rate * rate) >= 4 * a * rate - 2 * (a * a)
  {
    DifferenceSquared(rate, a, rate - a);
    assert 4 * a * rate == 4 * (a * rate);
  }

  lemma DifferenceSquared(x: int, y: int, d: int)
    requires d == x - y
    ensures 0 <= d * d == x * x - 2 * (y * x) + y * y
  {
    assert d * x == x * x - y * x && d * y == x * y - y * y && d * d == d * x - d * y;
    if d >= 0 { MulLe(0, d, d); } else { MulLe(d, 0, -d); }
  }

  lemma SpreadTangent(p: int, slope: int, rate: int, slack: int)
    ensures p * (slope * rate - slack) == slope * (rate * p) - slack * p
  {
    assert p * (slope * rate) == slope * (rate * p);
  }

  /** The rounded cube likewise: rate and rounded square lie on the same side of the average's. */
  lemma CubeAtLeast(p: int, rate: int, a: int, p2: int, a2: int, p3: int)
    requires p >= 0 && rate >= 0 && a >= 0
    requires p2 == BasePowerTwo(rate) && a2 == BasePowerTwo(a) && p3 == BasePowerThree(rate)
    ensures 2 * RAY * ONE_YEAR * (p * p3)
            >= 2 * a2 * (rate * p) + 2 * a * (p * p2) - (2 * (a * a2) + RAY + 2 * RAY * ONE_YEAR) * p
  {
    CubeRounded(rate);
    if rate <= a { BasePowersMonotone(rate, a); } else { BasePowersMonotone(a, rate); }
    hide BasePowerTwo, BasePowerThree;
    SameSide(rate, a, p2, a2);
    CubeOverTangent(p, p3, p2 * rate, a2, rate, a, p2, a * a2);
  }

  lemma CubeOverTangent(p: int, p3: int, n: int, a2: int, rate: int, a: int, p2: int, product: int)
    requires p >= 0 && n >= a2 * rate + a * p2 - product
    requires 2 * n - RAY - 2 * RAY * ONE_YEAR <= 2 * RAY * ONE_YEAR * p3
    ensures 2 * RAY * ONE_YEAR * (p * p3)
            >= 2 * a2 * (rate * p) + 2 * a * (p * p2) - (2 * product + RAY + 2 * RAY * ONE_YEAR) * p
  {
    var slack := 2 * product + RAY + 2 * RAY * ONE_YEAR;
    MulLe(2 * a2 * rate + 2 * a * p2 - slack, 2 * RAY * ONE_YEAR * p3, p);
    assert p * (2 * RAY * ONE_YEAR * p3) == 2 * RAY * ONE_YEAR * (p * p3);
    SpreadTwo(p, a2, rate, a, p2, slack);
  }

  lemma SameSide(rate: int, a: int, p2: int, a2: int)
    requires (rate <= a && p2 <= a2) || (a <= rate && a2 <= p2)
    ensures p2 * rate >= a2 * rate + a * p2 - a * a2
  {
    if rate <= a && p2 <= a2 { MulLe(rate, a, a2 - p2); } else { MulLe(a, rate, p2 - a2); }
    assert (a2 - p2) * rate == a2 * rate - p2 * rate && (a2 - p2) * a == a * a2 - a * p2;
  }

  lemma SpreadTwo(p: int, a2: int, rate: int, a: int, p2: int, slack: int)
    ensures p * (2 * a2 * rate + 2 * a * p2 - slack) == 2 * a2 * (rate * p) + 2 * a * (p * p2) - slack * p
  {
    assert p * (2 * a2 * rate) == 2 * a2 * (rate * p) && p * (2 * a * p2) == 2 * a * (p * p2);
  }

  /** A balance is the principal under the four terms of the compounded factor, rounded. */
  lemma BalanceTerms(p: int, rate: int, last: int, d: nat, growth: int, p2: int, p3: int)
    requires p >= 0 && rate >= 0 && last != 0
    requires growth == rate * d / ONE_YEAR && p2 == BasePowerTwo(rate) && p3 == BasePowerThree(rate)
    ensures Abs(2 * RAY * StableDebtTokenBalance(p, rate, last, last + d)
                - 2 * (RAY * p + p * growth + Choose(2, d) * (p * p2) + Choose(3, d) * (p * p3))) <= RAY
    ensures TotalStableDebt(p, rate, last, last + d) == StableDebtTokenBalance(p, rate, last, last + d)
  {
    hide RayMul, CalcCompoundedInterest, BasePowerTwo, BasePowerThree, Choose;
    BalanceAgrees(p, rate, last, last + d);
    CompoundedIs(rate, d, last);
    var c := CalcCompoundedInterest(rate, last + d, last);
    DebtRounded(c, p, RayMul(c, p));
    FactorTerms(p, growth, Choose(2, d), p2, Choose(3, d), p3, c);
  }

  lemma FactorTerms(p: int, growth: int, c2: int, p2: int, c3: int, p3: int, c: int)
    requires c == RAY + growth + (c2 * p2 + c3 * p3)
    ensures c * p == RAY * p + p * growth + c2 * (p * p2) + c3 * (p * p3)
  {
    assert c * p == RAY * p + growth * p + c2 * p2 * p + c3 * p3 * p;
  }

  // ---------- All of them ----------

  lemma {:induction false} SumsAtLeast(ps: seq<Position>, a: int, last: int, d: nat)
    requires NonNegative(ps) && a >= 0 && last != 0
    ensures var p, w := Principals(ps), WeightedRates(ps);
            && p >= 0
            && ONE_YEAR * WeightedGrowths(ps, d) >= d * w - ONE_YEAR * p
            && 2 * RAY * (ONE_YEAR * ONE_YEAR) * WeightedSquares(ps)
               >= 4 * a * w - (2 * (a * a) + RAY + 2 * RAY * (ONE_YEAR * ONE_YEAR)) * p
            && 2 * RAY * ONE_YEAR * WeightedCubes(ps)
               >= 2 * BasePowerTwo(a) * w + 2 * a * WeightedSquares(ps)
                  - (2 * (a * BasePowerTwo(a)) + RAY + 2 * RAY * ONE_YEAR) * p
            && 2 * RAY * StableBalances(ps, last, last + d)
               >= 2 * (RAY * p + WeightedGrowths(ps, d) + Choose(2, d) * WeightedSquares(ps)
                       + Choose(3, d) * WeightedCubes(ps)) - RAY * |ps|
  {
    hide BasePowerTwo, BasePowerThree, Choose, StableDebtTokenBalance;
    if ps != [] {
      var p, rate, rest := ps[0].principal, ps[0].rate, ps[1..];
      assert forall k | 0 <= k < |rest| :: rest[k] == ps[k + 1];
      SumsAtLeast(rest, a, last, d);
      var growth, p2, p3 := rate * d / ONE_YEAR, BasePowerTwo(rate), BasePowerThree(rate);
      GrowthAtLeast(p, rate, d, growth);
      SquareAtLeast(p, rate, a, p2);
      CubeAtLeast(p, rate, a, p2, BasePowerTwo(a), p3);
      BalanceTerms(p, rate, last, d, growth, p2, p3);
      AddPosition(p, rate * p, p * growth, p * p2, p * p3, Principals(rest), WeightedRates(rest),
                  WeightedGrowths(rest, d),
                  WeightedSquares(rest), WeightedCubes(rest), a, BasePowerTwo(a), d, Choose(2, d), Choose(3, d));
    }
  }

  /** The bounds distribute over one more position. */
  lemma AddPosition(p: int, w: int, x1: int, x2: int, x3: int, ps: int, ws: int, s1: int, s2: int, s3: int, a: int,
                    a2: int, d: int, c2: int, c3: int)
    ensures d * (w + ws) == d * w + d * ws && 4 * a * (w + ws) == 4 * a * w + 4 * a * ws
    ensures 2 * a2 * (w + ws) == 2 * a2 * w + 2 * a2 * ws && 2 * a * (x2 + s2) == 2 * a * x2 + 2 * a * s2
    ensures (2 * (a * a) + RAY + 2 * RAY * (ONE_YEAR * ONE_YEAR)) * (p + ps)
         == (2 * (a * a) + RAY + 2 * RAY * (ONE_YEAR * ONE_YEAR)) * p
            + (2 * (a * a) + RAY + 2 * RAY * (ONE_YEAR * ONE_YEAR)) * ps
    ensures (2 * (a * a2) + RAY + 2 * RAY * ONE_YEAR) * (p + ps)
         == (2 * (a * a2) + RAY + 2 * RAY * ONE_YEAR) * p + (2 * (a * a2) + RAY + 2 * RAY * ONE_YEAR) * ps
    ensures c2 * (x2 + s2) == c2 * x2 + c2 * s2 && c3 * (x3 + s3) == c3 * x3 + c3 * s3
  {
  }

  // ---------- The total against the sum ----------

  /** Rounding of n balances and of the powers of the rates, at 2 · RAY · RAY · ONE_YEAR. */
  function TotalsRounding(principals: int, average: int, d: nat, n: nat): int {
    RAY * ONE_YEAR * (2 * principals + 4 * (Choose(2, d) * principals))
    + 4 * (Choose(3, d) * (principals * (average + RAY * ONE_YEAR))) + RAY * RAY * ONE_YEAR * (n + 1)
  }

  /** For borrowers with any principals and rates, whose weighted mean the average rate does not exceed: at any
      time the total at the average rate is at most the sum of their balances, up to that rounding. */
  lemma TotalBelowBalances(ps: seq<Position>, average: int, last: int, d: nat)
    requires NonNegative(ps) && average >= 0 && last != 0
    requires average * Principals(ps) <= WeightedRates(ps)
    ensures var total := TotalStableDebt(Principals(ps), average, last, last + d);
            2 * RAY * RAY * ONE_YEAR * (total - StableBalances(ps, last, last + d))
            <= TotalsRounding(Principals(ps), average, d, |ps|)
  {
    hide BasePowerTwo, BasePowerThree, Choose, TotalStableDebt, StableDebtTokenBalance;
    var p, w, growth, a2, a3 := Principals(ps), WeightedRates(ps), average * d / ONE_YEAR, BasePowerTwo(average),
                                BasePowerThree(average);
    SumsAtLeast(ps, average, last, d);
    BalanceTerms(p, average, last, d, growth, a2, a3);
    SquareRounded(average);
    CubeRounded(average);
    GrowthsBelow(p, w, average, d, growth, WeightedGrowths(ps, d));
    SquaresBelow(p, w, average, a2, WeightedSquares(ps));
    CubesBelow(p, w, average, a2, a3, WeightedSquares(ps), WeightedCubes(ps));
    SumBelow(TotalStableDebt(p, average, last, last + d), StableBalances(ps, last, last + d), p, p * growth, p * a2,
             p * a3, WeightedGrowths(ps, d), WeightedSquares(ps), WeightedCubes(ps), Choose(2, d), Choose(3, d),
             average, |ps|);
  }

  lemma GrowthsBelow(p: int, w: int, a: int, d: nat, growth: int, sum: int)
    requires p >= 0 && a * p <= w && growth == a * d / ONE_YEAR
    requires ONE_YEAR * sum >= d * w - ONE_YEAR * p
    ensures p * growth - sum <= p
  {
    Floor(a * d, growth);
    MulLe(ONE_YEAR * growth, a * d, p);
    MulLe(a * p, w, d);
    assert p * (ONE_YEAR * growth) == ONE_YEAR * (p * growth) && p * (a * d) == d * (a * p);
  }

  lemma SquaresBelow(p: int, w: int, a: int, a2: int, sum: int)
    requires p >= 0 && a >= 0 && a * p <= w
    requires 2 * RAY * (ONE_YEAR * ONE_YEAR) * a2 <= 2 * (a * a) + RAY
    requires 2 * RAY * (ONE_YEAR * ONE_YEAR) * sum
             >= 4 * a * w - (2 * (a * a) + RAY + 2 * RAY * (ONE_YEAR * ONE_YEAR)) * p
    ensures p * a2 - sum <= 2 * p
  {
    var square := a * a;
    MulLe(2 * RAY * (ONE_YEAR * ONE_YEAR) * a2, 2 * square + RAY, p);
    MulLe(a * p, w, 4 * a);
    SquareProducts(p, a, a2, square);
    SquareSum(p * a2, sum, square * p, p, 4 * a * w);
  }

  lemma SquareProducts(p: int, a: int, a2: int, square: int)
    requires square == a * a
    ensures p * (2 * RAY * (ONE_YEAR * ONE_YEAR) * a2) == 2 * RAY * (ONE_YEAR * ONE_YEAR) * (p * a2)
    ensures p * (2 * square + RAY) == 2 * (square * p) + RAY * p && 4 * a * (a * p) == 4 * (square * p)
    ensures (2 * square + RAY + 2 * RAY * (ONE_YEAR * ONE_YEAR)) * p
         == 2 * (square * p) + (RAY + 2 * RAY * (ONE_YEAR * ONE_YEAR)) * p
  {
    assert a * (a * p) == square * p;
    assert 4 * a * (a * p) == 4 * (a * (a * p));
  }

  lemma SquareSum(x: int, sum: int, square: int, p: int, w: int)
    requires p >= 0 && w >= 4 * square
    requires 2 * RAY * (ONE_YEAR * ONE_YEAR) * x <= 2 * square + RAY * p
    requires 2 * RAY * (ONE_YEAR * ONE_YEAR) * sum >= w - (2 * square + (RAY + 2 * RAY * (ONE_YEAR * ONE_YEAR)) * p)
    ensures x - sum <= 2 * p
  {
  }

  lemma CubesBelow(p: int, w: int, a: int, a2: int, a3: int, squares: int, sum: int)
    requires p >= 0 && a >= 0 && a2 >= 0 && a * p <= w && p * a2 - squares <= 2 * p
    requires 2 * RAY * ONE_YEAR * a3 <= 2 * (a2 * a) + RAY
    requires 2 * RAY * ONE_YEAR * sum >= 2 * a2 * w + 2 * a * squares - (2 * (a * a2) + RAY + 2 * RAY * ONE_YEAR) * p
    ensures RAY * ONE_YEAR * (p * a3 - sum) <= 2 * (p * (a + RAY * ONE_YEAR))
  {
    var product := a * a2;
    MulLe(2 * RAY * ONE_YEAR * a3, 2 * product + RAY, p);
    MulLe(a * p, w, 2 * a2);
    MulLe(p * a2 - 2 * p, squares, 2 * a);
    CubeProducts(p, a, a2, a3, product);
    CubeSum(p * a3, sum, product * p, a * p, p, 2 * a2 * w, 2 * a * squares);
    assert p * (a + RAY * ONE_YEAR) == a * p + RAY * ONE_YEAR * p;
  }

  lemma CubeProducts(p: int, a: int, a2: int, a3: int, product: int)
    requires product == a * a2
    ensures p * (2 * RAY * ONE_YEAR * a3) == 2 * RAY * ONE_YEAR * (p * a3)
    ensures p * (2 * product + RAY) == 2 * (product * p) + RAY * p
    ensures 2 * a2 * (a * p) == 2 * (product * p)
    ensures 2 * a * (p * a2 - 2 * p) == 2 * (product * p) - 4 * (a * p)
    ensures (2 * product + RAY + 2 * RAY * ONE_YEAR) * p == 2 * (product * p) + (RAY + 2 * RAY * ONE_YEAR) * p
  {
    assert a2 * (a * p) == product * p && a * (p * a2) == product * p;
    assert 2 * a2 * (a * p) == 2 * (a2 * (a * p));
    assert 2 * a * (p * a2 - 2 * p) == 2 * (a * (p * a2)) - 4 * (a * p);
  }

  lemma CubeSum(x: int, sum: int, product: int, ap: int, p: int, w: int, squares: int)
    requires p >= 0 && w >= 2 * product && squares >= 2 * product - 4 * ap
    requires 2 * RAY * ONE_YEAR * x <= 2 * product + RAY * p
    requires 2 * RAY * ONE_YEAR * sum >= w + squares - (2 * product + (RAY + 2 * RAY * ONE_YEAR) * p)
    ensures RAY * ONE_YEAR * (x - sum) <= 2 * (ap + RAY * ONE_YEAR * p)
  {
  }

  lemma SumBelow(total: int, balances: int, p: int, x1: int, x2: int, x3: int, s1: int, s2: int, s3: int, c2: nat,
                 c3: nat, a: int, n: nat)
    requires Abs(2 * RAY * total - 2 * (RAY * p + x1 + c2 * x2 + c3 * x3)) <= RAY
    requires 2 * RAY * balances >= 2 * (RAY * p + s1 + c2 * s2 + c3 * s3) - RAY * n
    requires x1 - s1 <= p && x2 - s2 <= 2 * p && RAY * ONE_YEAR * (x3 - s3) <= 2 * (p * (a + RAY * ONE_YEAR))
    ensures 2 * RAY * RAY * ONE_YEAR * (total - balances)
            <= RAY * ONE_YEAR * (2 * p + 4 * (c2 * p)) + 4 * (c3 * (p * (a + RAY * ONE_YEAR)))
               + RAY * RAY * ONE_YEAR * (n + 1)
  {
    MulLe(x2 - s2, 2 * p, c2);
    MulLe(RAY * ONE_YEAR * (x3 - s3), 2 * (p * (a + RAY * ONE_YEAR)), c3);
    TermProducts(c2, x2, s2, p, c3, x3, s3, p * (a + RAY * ONE_YEAR));
    TermSum(total, balances, p, x1, c2 * x2, c3 * x3, s1, c2 * s2, c3 * s3, c2 * p, c3 * (p * (a + RAY * ONE_YEAR)), n);
  }

  lemma TermProducts(c2: int, x2: int, s2: int, p: int, c3: int, x3: int, s3: int, bound: int)
    ensures c2 * (x2 - s2) == c2 * x2 - c2 * s2 && c2 * (2 * p) == 2 * (c2 * p)
    ensures c3 * (RAY * ONE_YEAR * (x3 - s3)) == RAY * ONE_YEAR * (c3 * x3 - c3 * s3)
    ensures c3 * (2 * bound) == 2 * (c3 * bound)
  {
    assert c3 * (x3 - s3) == c3 * x3 - c3 * s3;
  }

  lemma TermSum(total: int, balances: int, p: int, x1: int, x2: int, x3: int, s1: int, s2: int, s3: int, c2p: int,
                c3b: int, n: nat)
    requires 2 * RAY * total <= 2 * (RAY * p + x1 + x2 + x3) + RAY
    requires 2 * RAY * balances >= 2 * (RAY * p + s1 + s2 + s3) - RAY * n
    requires x1 - s1 <= p && x2 - s2 <= 2 * c2p && RAY * ONE_YEAR * (x3 - s3) <= 2 * c3b
    ensures 2 * RAY * RAY * ONE_YEAR * (total - balances)
            <= RAY * ONE_YEAR * (2 * p + 4 * c2p) + 4 * c3b + RAY * RAY * ONE_YEAR * (n + 1)
  {
  }

  // ---------- A run of borrowers ----------

  /** Each new borrower's position: the amount, at the rate the reserve offers when the borrower's turn comes. */
  function Positions(s: Strategy, b: Reserve, amounts: seq<int>, t: int): seq<Position>
    requires ValidStrategy(s) && Sound(b) && t >= b.lastUpdateTimestamp
    requires Positive(amounts) && Sum(amounts) <= b.availableLiquidity
    decreases |amounts|
  {
    if amounts == [] then []
    else
      SumNonNegative(amounts[1..]);
      StableBorrowEffect(s, b, amounts[0], t);
      [Position(amounts[0], b.stableBorrowRate)]
      + Positions(s, AfterBorrow(s, b, amounts[0], Stable, t, t), amounts[1..], t)
  }

  /** That is what the user's record after such a borrow says. */
  lemma NewBorrowersPosition(s: Strategy, b: Reserve, u: User, amount: int, t: int, current: int)
    requires ValidStrategy(s) && Sound(b) && b.lastUpdateTimestamp <= t <= current
    requires 0 < amount <= b.availableLiquidity && u.principalStableDebt == 0
    ensures var after := AfterBorrow(s, b, amount, Stable, t, current);
            && after.variableBorrowIndex != 0 && UserStableDebt(u, t) + amount != 0
            && var v := UserAfterBorrow(u, amount, Stable, b, after, t, current);
               && v.principalStableDebt == amount && v.stableBorrowRate == b.stableBorrowRate
               && v.stableRateLastUpdated == t
  {
    hide AfterBorrow, Sound, StableDebtTokenBalance, NormalizedDebt, NormalizedIncome, RayMul, UserStableRate;
    BorrowValid(s, b, amount, Stable, t, current);
    IndexOfSoundReserve(AfterBorrow(s, b, amount, Stable, t, current));
    SoundDebts(b);
    NoStableDebt(u, t);
    FirstRate(u.stableBorrowRate, amount, b.stableBorrowRate);
  }

  lemma IndexOfSoundReserve(r: Reserve)
    requires Sound(r)
    ensures r.variableBorrowIndex != 0
  {
    hide Div;
  }

  lemma FirstRate(before: int, amount: int, rate: int)
    requires amount > 0 && rate >= 0
    ensures UserStableRate(0, before, amount, rate) == rate
  {
    assert 0 * before == 0;
    ExactMean(amount, rate);
  }

  lemma {:induction false} PositionsAddUp(s: Strategy, b: Reserve, amounts: seq<int>, t: int)
    requires ValidStrategy(s) && Sound(b) && t >= b.lastUpdateTimestamp
    requires Positive(amounts) && Sum(amounts) <= b.availableLiquidity
    ensures var ps, r := Positions(s, b, amounts, t), AfterStableBorrows(s, b, amounts, t);
            && NonNegative(ps) && |ps| == |amounts|
            && Principals(ps) == Sum(amounts) && WeightedRates(ps) == WeightedBorrows(s, b, amounts, t)
            && (amounts != [] ==> r.totalStableDebtLastUpdated == t && r.principalStableDebt == StableDebtNow(r, t))
    decreases |amounts|
  {
    hide AfterBorrow, StableDebtNow, AverageStableRate, Sound, BorrowDefined, AgeDefined;
    if amounts != [] {
      var rest := amounts[1..];
      SumNonNegative(rest);
      StableBorrowEffect(s, b, amounts[0], t);
      SoundDebts(b);
      var next := AfterBorrow(s, b, amounts[0], Stable, t, t);
      PositionsAddUp(s, next, rest, t);
      var ps := Positions(s, b, amounts, t);
      assert ps[1..] == Positions(s, next, rest, t);
    }
  }

  /** From a reserve without stable debt, after any borrowers have borrowed at a stable rate at one time: however
      long they wait, the reserve's total is at most the sum of their balances, up to rounding. So the last of them
      to repay finds less on record than is owed. */
  lemma BorrowersOweMoreThanRecorded(s: Strategy, b: Reserve, amounts: seq<int>, t: int, d: nat)
    requires ValidStrategy(s) && Sound(b) && t >= b.lastUpdateTimestamp && t != 0 && b.principalStableDebt == 0
    requires amounts != [] && Positive(amounts) && Sum(amounts) <= b.availableLiquidity
    ensures var ps, r := Positions(s, b, amounts, t), AfterStableBorrows(s, b, amounts, t);
            && r.averageStableBorrowRate >= 0
            && 2 * RAY * RAY * ONE_YEAR * (StableDebtNow(r, t + d) - StableBalances(ps, t, t + d))
               <= TotalsRounding(Sum(amounts), r.averageStableBorrowRate, d, |amounts|)
  {
    hide Sound, AfterStableBorrows, Positions, WeightedBorrows, TotalStableDebt, StableDebtTokenBalance, TotalsRounding;
    PositionsAddUp(s, b, amounts, t);
    AverageDrift(s, b, amounts, t);
    NothingOwedNow(b, t);
    var r := AfterStableBorrows(s, b, amounts, t);
    SoundDebts(r);
    TotalBelowBalances(Positions(s, b, amounts, t), r.averageStableBorrowRate, t, d);
  }

  /** By how much: one ray each is owed at 0% and at 200%, so at 100% on average. After a year the second borrower
      alone owes more than the whole record, and the repayment erases what the first still owes. */
  lemma RecordFallsBehind(b: Reserve, u: User, v: User)
    requires Sound(b) && b.lastUpdateTimestamp == 1 && b.totalStableDebtLastUpdated == 1
    requires b.principalStableDebt == 2 * RAY && b.averageStableBorrowRate == RAY
    requires u.principalStableDebt == RAY && u.stableBorrowRate == 0 && u.stableRateLastUpdated == 1
    requires v.principalStableDebt == RAY && v.stableBorrowRate == 2 * RAY && v.stableRateLastUpdated == 1
    ensures var t := 1 + ONE_YEAR;
            && UserStableDebt(u, t) == RAY && UserStableDebt(v, t) > StableDebtNow(b, t)
            && WithStableRepaid(b, UserStableDebt(v, t), v.stableBorrowRate, t).totalStableDebt == 0
  {
    hide Sound, CalcCompoundedInterest, RayMul, Updated, AverageStableRate;
    YearAtFullRate();
    YearAtDoubleRate();
    RayMulByRay(CalcCompoundedInterest(2 * RAY, 1 + ONE_YEAR, 1));
    TwiceARay(CalcCompoundedInterest(RAY, 1 + ONE_YEAR, 1));
  }

  lemma TwiceARay(c: int)
    requires c >= 0
    ensures RayMul(c, 2 * RAY) == 2 * c
  {
    RayMulNearest(c, 2 * RAY);
  }

  lemma YearAtFullRate()
    ensures CalcCompoundedInterest(RAY, 1 + ONE_YEAR, 1) == 2666663803286306996604104000
  {
    hide BasePowerTwo, BasePowerThree, Div;
    YearAtFullRatePowers();
    assert Div(31536000000000000000000000000000000, ONE_YEAR) == 1000000000000000000000000000;
    assert Div(999999968289590588542992000, 2) == 499999984144795294271496000;
    assert Div(999982914849070213995648000, 6) == 166663819141511702332608000;
  }

  lemma YearAtFullRatePowers()
    ensures BasePowerTwo(RAY) == 1005510907653 && BasePowerThree(RAY) == 31884
  {
    assert RayMul(RAY, RAY) == 1000000000000000000000000000;
    assert BasePowerTwo(RAY) == 1005510907653;
    assert RayMul(1005510907653, RAY) == 1005510907653;
  }

  lemma YearAtDoubleRate()
    ensures CalcCompoundedInterest(2 * RAY, 1 + ONE_YEAR, 1) == 6333331398483959380461360000
  {
    hide BasePowerTwo, BasePowerThree, Div;
    YearAtDoubleRatePowers();
    assert Div(63072000000000000000000000000000000, ONE_YEAR) == 2000000000000000000000000000;
    assert Div(3999999873160351392700896000, 2) == 1999999936580175696350448000;
    assert Div(7999988771422702104665472000, 6) == 1333331461903783684110912000;
  }

  lemma YearAtDoubleRatePowers()
    ensures BasePowerTwo(2 * RAY) == 4022043630614 && BasePowerThree(2 * RAY) == 255076
  {
    assert RayMul(2 * RAY, 2 * RAY) == 4000000000000000000000000000;
    assert BasePowerTwo(2 * RAY) == 4022043630614;
    assert RayMul(4022043630614, 2 * RAY) == 8044087261228;
  }
}
