/** Debt that has already compounded for some time: what it gains over the next interval, against linear interest
    on what it has become. The expansion stops at the third term, so the gain falls behind with age. */
module AgedDebt {
  import opened WadRayMath
  import opened Interest

  /** What compounding adds to linear interest. */
  function Expansion(rate: int, t: nat): int {
    Choose(2, t) * BasePowerTwo(rate) + Choose(3, t) * BasePowerThree(rate)
  }

  lemma CompoundedIs(rate: int, t: nat, last: int)
    requires rate >= 0
    ensures CalcCompoundedInterest(rate, last + t, last) == RAY + rate * t / ONE_YEAR + Expansion(rate, t)
    ensures rate * t / ONE_YEAR >= 0 && Expansion(rate, t) >= 0
  {
    hide CalcCompoundedInterest, BasePowerTwo, BasePowerThree, Choose;
    CompoundedTerms(rate, t, last);
    ProductMonotone(0, 0, Choose(2, t), BasePowerTwo(rate));
    ProductMonotone(0, 0, Choose(3, t), BasePowerThree(rate));
  }

  /** How far linear interest over d seconds, on debt of that age, leads what the debt gains by compounding; per
      unit of principal, in squared rays. Of the compounded debt only the third term earns nothing further, while
      the expansion over the interval itself comes on top. */
  function Lead(rate: int, age: nat, d: nat): int {
    Choose(3, age) * BasePowerThree(rate) * (rate * d / ONE_YEAR)
    - RAY * (Expansion(rate, d) + age * Choose(2, d) * BasePowerThree(rate))
  }

  /** What rounding the powers of the rate may add to the lead. */
  function RoundedUp(rate: int, age: nat, d: nat): int {
    2 * RAY * (age * d) + 2 * RAY * (Choose(2, age) * d)
  }

  /** And what it may take away, rounding down the growth included. */
  function RoundedDown(rate: int, age: nat, d: nat): int {
    rate * age / ONE_YEAR + rate * d / ONE_YEAR + 1 + RAY * (age * d)
    + Choose(2, age) * (BasePowerTwo(rate) + RAY * d) + RAY
  }

  // ---------- Sums of intervals ----------

  lemma {:induction false} ChooseOfSum(a: nat, d: nat)
    ensures Choose(2, a + d) == Choose(2, a) + a * d + Choose(2, d)
    ensures Choose(3, a + d) == Choose(3, a) + Choose(2, a) * d + a * Choose(2, d) + Choose(3, d)
  {
    if d > 0 {
      ChooseOfSum(a, d - 1);
      ChooseOne(a + d - 1);
      ChooseOne(d - 1);
      Steps(Choose(2, a), a, d, Choose(2, d - 1));
    }
  }

  lemma {:induction false} ChooseOne(t: nat)
    ensures Choose(1, t) == t
  {
    if t > 0 { ChooseOne(t - 1); }
  }

  lemma Steps(c: int, a: int, d: int, e: int)
    ensures c * (d - 1) + c == c * d && a * (d - 1) + a == a * d
    ensures a * e + a * (d - 1) == a * (e + (d - 1))
  {
  }

  // ---------- Rounded powers of the rate ----------

  /** The product of two growths against the rounded square of the rate. */
  lemma SquareLead(rate: int, a: nat, d: nat)
    requires rate >= 0
    ensures var x, y := rate * a / ONE_YEAR, rate * d / ONE_YEAR;
            -(x + y + 1 + RAY * (a * d)) <= x * y - RAY * (a * d * BasePowerTwo(rate)) <= 2 * RAY * (a * d)
  {
    var x, y, p2 := rate * a / ONE_YEAR, rate * d / ONE_YEAR, BasePowerTwo(rate);
    SquareRounded(rate);
    hide BasePowerTwo;
    MulLe(0, rate, a);
    MulLe(0, rate, d);
    MulLe(0, a, d);
    GrowthProduct(rate, a, d, x, y);
    SquareTimes(rate * rate, p2, a * d, x * y, x + y + 1);
  }

  lemma SquareRounded(rate: int)
    requires rate >= 0
    ensures 2 * (rate * rate) - RAY - 2 * RAY * (ONE_YEAR * ONE_YEAR)
            <= 2 * RAY * (ONE_YEAR * ONE_YEAR) * BasePowerTwo(rate) <= 2 * (rate * rate) + RAY
    ensures BasePowerTwo(rate) >= 0
  {
    MulLe(0, rate, rate);
    RayMulNearest(rate, rate);
    RayMulMonotone(rate, rate, rate, rate);
    var m := RayMul(rate, rate);
    hide RayMul;
    DivTruncates(m, ONE_YEAR * ONE_YEAR);
  }

  lemma GrowthProduct(rate: int, a: int, d: int, x: int, y: int)
    requires rate * a >= 0 && rate * d >= 0 && x == rate * a / ONE_YEAR && y == rate * d / ONE_YEAR
    ensures x >= 0 && y >= 0
    ensures ONE_YEAR * ONE_YEAR * (x * y) <= rate * rate * (a * d) <= ONE_YEAR * ONE_YEAR * (x * y + x + y + 1)
  {
    var n, m := rate * a, rate * d;
    ProductOrder(ONE_YEAR * x, n, ONE_YEAR * y, m);
    ProductOrder(n, ONE_YEAR * (x + 1), m, ONE_YEAR * (y + 1));
    Regrouped(rate, a, d, x, y);
  }

  lemma ProductOrder(a: int, b: int, c: int, d: int)
    requires 0 <= a <= b && 0 <= c <= d
    ensures a * c <= b * d
  {
    MulLe(a, b, c);
    MulLe(c, d, b);
  }

  lemma Regrouped(rate: int, a: int, d: int, x: int, y: int)
    ensures (rate * a) * (rate * d) == rate * rate * (a * d)
    ensures (ONE_YEAR * x) * (ONE_YEAR * y) == ONE_YEAR * ONE_YEAR * (x * y)
    ensures (ONE_YEAR * (x + 1)) * (ONE_YEAR * (y + 1)) == ONE_YEAR * ONE_YEAR * (x * y + x + y + 1)
  {
    assert (rate * a) * (rate * d) == rate * (a * (rate * d)) == rate * (rate * (a * d));
    assert (x + 1) * (y + 1) == x * y + x + y + 1;
  }

  lemma SquareTimes(square: int, p2: int, n: int, xy: int, rest: int)
    requires n >= 0 && ONE_YEAR * ONE_YEAR * xy <= square * n <= ONE_YEAR * ONE_YEAR * (xy + rest)
    requires 2 * square - RAY - 2 * RAY * (ONE_YEAR * ONE_YEAR) <= 2 * RAY * (ONE_YEAR * ONE_YEAR) * p2
             <= 2 * square + RAY
    ensures -(rest + RAY * n) <= xy - RAY * (n * p2) <= 2 * RAY * n
  {
    MulLe(2 * square - RAY - 2 * RAY * (ONE_YEAR * ONE_YEAR), 2 * RAY * (ONE_YEAR * ONE_YEAR) * p2, n);
    MulLe(2 * RAY * (ONE_YEAR * ONE_YEAR) * p2, 2 * square + RAY, n);
    var s, q := square * n, n * p2;
    assert n * (2 * RAY * (ONE_YEAR * ONE_YEAR) * p2) == 2 * RAY * (ONE_YEAR * ONE_YEAR) * q;
    assert n * (2 * square + RAY) == 2 * s + RAY * n;
    assert n * (2 * square - RAY - 2 * RAY * (ONE_YEAR * ONE_YEAR))
      == 2 * s - (RAY + 2 * RAY * (ONE_YEAR * ONE_YEAR)) * n;
    SquareLinear(s, q, n, xy, rest);
  }

  lemma SquareLinear(s: int, q: int, n: int, xy: int, rest: int)
    requires n >= 0 && ONE_YEAR * ONE_YEAR * xy <= s <= ONE_YEAR * ONE_YEAR * (xy + rest)
    requires 2 * s - (RAY + 2 * RAY * (ONE_YEAR * ONE_YEAR)) * n <= 2 * RAY * (ONE_YEAR * ONE_YEAR) * q
             <= 2 * s + RAY * n
    ensures -(rest + RAY * n) <= xy - RAY * q <= 2 * RAY * n
  {
  }

  /** The rounded square times a growth against the rounded cube. */
  lemma CubeLead(rate: int, d: nat)
    requires rate >= 0
    ensures var p2 := BasePowerTwo(rate);
            -(p2 + RAY * d) <= p2 * (rate * d / ONE_YEAR) - RAY * (d * BasePowerThree(rate)) <= 2 * RAY * d
  {
    var p2, p3, y := BasePowerTwo(rate), BasePowerThree(rate), rate * d / ONE_YEAR;
    BasePowersMonotone(rate, rate);
    CubeRounded(rate);
    hide BasePowerTwo, BasePowerThree;
    Floor(rate * d, y);
    CubeProducts(p2, rate, d, y);
    CubeTimes(p2 * rate, p3, d, p2 * y, p2);
  }

  lemma Floor(n: int, y: int)
    requires y == n / ONE_YEAR
    ensures ONE_YEAR * y <= n <= ONE_YEAR * y + ONE_YEAR
  {
  }

  lemma CubeProducts(p2: int, rate: int, d: int, y: int)
    requires p2 >= 0 && ONE_YEAR * y <= rate * d <= ONE_YEAR * y + ONE_YEAR
    ensures ONE_YEAR * (p2 * y) <= p2 * rate * d <= ONE_YEAR * (p2 * y + p2)
  {
    MulLe(ONE_YEAR * y, rate * d, p2);
    MulLe(rate * d, ONE_YEAR * y + ONE_YEAR, p2);
    assert p2 * (rate * d) == p2 * rate * d;
  }

  lemma CubeRounded(rate: int)
    requires rate >= 0
    ensures var n := BasePowerTwo(rate) * rate;
            2 * n - RAY - 2 * RAY * ONE_YEAR <= 2 * RAY * ONE_YEAR * BasePowerThree(rate) <= 2 * n + RAY
  {
    BasePowersMonotone(rate, rate);
    var p2 := BasePowerTwo(rate);
    hide BasePowerTwo;
    MulLe(0, p2, rate);
    RayMulNearest(p2, rate);
    RayMulMonotone(p2, rate, p2, rate);
    var m := RayMul(p2, rate);
    hide RayMul;
    DivTruncates(m, ONE_YEAR);
  }

  lemma CubeTimes(n: int, p3: int, d: int, z: int, p2: int)
    requires d >= 0 && ONE_YEAR * z <= n * d <= ONE_YEAR * (z + p2)
    requires 2 * n - RAY - 2 * RAY * ONE_YEAR <= 2 * RAY * ONE_YEAR * p3 <= 2 * n + RAY
    ensures -(p2 + RAY * d) <= z - RAY * (d * p3) <= 2 * RAY * d
  {
    MulLe(2 * n - RAY - 2 * RAY * ONE_YEAR, 2 * RAY * ONE_YEAR * p3, d);
    MulLe(2 * RAY * ONE_YEAR * p3, 2 * n + RAY, d);
    var s, q := n * d, d * p3;
    assert d * (2 * RAY * ONE_YEAR * p3) == 2 * RAY * ONE_YEAR * q;
    assert d * (2 * n + RAY) == 2 * s + RAY * d;
    assert d * (2 * n - RAY - 2 * RAY * ONE_YEAR) == 2 * s - (RAY + 2 * RAY * ONE_YEAR) * d;
  }

  // ---------- The lead ----------

  /** Linear interest on a compounded unit, less the unit's compounded gain, is the lead up to those roundings. */
  lemma CompoundedLead(rate: int, age: nat, d: nat, last: int)
    requires rate >= 0
    ensures var before := CalcCompoundedInterest(rate, last + age, last);
            var after := CalcCompoundedInterest(rate, last + (age + d), last);
            Lead(rate, age, d) - RoundedDown(rate, age, d)
            <= before * (rate * d / ONE_YEAR) - RAY * (after - before)
            <= Lead(rate, age, d) + RoundedUp(rate, age, d)
  {
    hide CalcCompoundedInterest, BasePowerTwo, BasePowerThree, Choose;
    CompoundedIs(rate, age, last);
    CompoundedIs(rate, age + d, last);
    ChooseOfSum(age, d);
    SquareLead(rate, age, d);
    CubeLead(rate, d);
    GrowthAdds(rate, age, d);
    CombineLead(CalcCompoundedInterest(rate, last + age, last), CalcCompoundedInterest(rate, last + (age + d), last),
                Choose(2, age), Choose(3, age), Choose(2, d), Choose(3, d), Choose(2, age + d), Choose(3, age + d), age,
                  d,
                BasePowerTwo(rate), BasePowerThree(rate), rate * age / ONE_YEAR, rate * d / ONE_YEAR,
                  rate * (age + d) / ONE_YEAR);
  }

  lemma CombineLead(before: int, after: int, c2: nat, c3: int, e2: int, e3: int, n2: int, n3: int, age: int,
                    d: int, p2: int, p3: int, x: int, y: int, w: int)
    requires before == RAY + x + (c2 * p2 + c3 * p3) && x + y <= w <= x + y + 1
    requires n2 == c2 + age * d + e2 && n3 == c3 + c2 * d + age * e2 + e3 && after == RAY + w + (n2 * p2 + n3 * p3)
    requires -(x + y + 1 + RAY * (age * d)) <= x * y - RAY * (age * d * p2) <= 2 * RAY * (age * d)
    requires -(p2 + RAY * d) <= p2 * y - RAY * (d * p3) <= 2 * RAY * d
    ensures var lead := c3 * p3 * y - RAY * (e2 * p2 + e3 * p3 + age * e2 * p3);
            && before * y - RAY * (after - before) <= lead + (2 * RAY * (age * d) + 2 * RAY * (c2 * d))
            && before * y - RAY * (after - before)
               >= lead - (x + y + 1 + RAY * (age * d) + c2 * (p2 + RAY * d) + RAY)
  {
    LeadTerms(c2, c3, e2, e3, age, d, p2, p3, x, y);
    SumTerms(c2, c3, e2, e3, n2, n3, age, d, p2, p3);
    MulLe(-(p2 + RAY * d), p2 * y - RAY * (d * p3), c2);
    MulLe(p2 * y - RAY * (d * p3), 2 * RAY * d, c2);
    var gained := age * d * p2 + e2 * p2 + (c2 * d + age * e2 + e3) * p3;
    Collect(before, after, c2 * p2 + c3 * p3, gained, x, y, w);
  }

  lemma Collect(before: int, after: int, owed: int, gained: int, x: int, y: int, w: int)
    requires before == RAY + x + owed && after == RAY + w + (owed + gained) && x + y <= w <= x + y + 1
    ensures var exact := (RAY + x + owed) * y - RAY * (y + gained);
            exact - RAY <= before * y - RAY * (after - before) <= exact
  {
  }

  lemma GrowthAdds(rate: int, a: nat, d: nat)
    requires rate >= 0
    ensures var whole, parts := rate * (a + d) / ONE_YEAR, rate * a / ONE_YEAR + rate * d / ONE_YEAR;
            parts <= whole <= parts + 1
  {
    assert rate * (a + d) == rate * a + rate * d;
  }

  lemma SumTerms(c2: int, c3: int, e2: int, e3: int, n2: int, n3: int, age: int, d: int, p2: int, p3: int)
    requires n2 == c2 + age * d + e2 && n3 == c3 + c2 * d + age * e2 + e3
    ensures n2 * p2 + n3 * p3 == c2 * p2 + c3 * p3 + (age * d * p2 + e2 * p2 + (c2 * d + age * e2 + e3) * p3)
  {
    assert n2 * p2 == c2 * p2 + age * d * p2 + e2 * p2;
    assert n3 * p3 == c3 * p3 + (c2 * d + age * e2 + e3) * p3;
  }

  /** Term by term. */
  lemma LeadTerms(c2: int, c3: int, e2: int, e3: int, age: int, d: int, p2: int, p3: int, x: int, y: int)
    ensures var gained := age * d * p2 + e2 * p2 + (c2 * d + age * e2 + e3) * p3;
            (RAY + x + (c2 * p2 + c3 * p3)) * y - RAY * (y + gained)
            == (c3 * p3 * y - RAY * (e2 * p2 + e3 * p3 + age * e2 * p3))
               + (x * y - RAY * (age * d * p2)) + c2 * (p2 * y - RAY * (d * p3))
    ensures c2 * (2 * RAY * d) == 2 * RAY * (c2 * d) && c2 * -(p2 + RAY * d) == -(c2 * (p2 + RAY * d))
  {
    assert (c2 * d) * p3 == c2 * (d * p3);
    assert c2 * (p2 * y - RAY * (d * p3)) == c2 * p2 * y - RAY * (c2 * (d * p3));
    assert (RAY + x + (c2 * p2 + c3 * p3)) * y == RAY * y + x * y + c2 * p2 * y + c3 * p3 * y;
    assert (c2 * d + age * e2 + e3) * p3 == c2 * (d * p3) + age * e2 * p3 + e3 * p3;
  }

  /** Stable debt of that age: what linear interest on it would bring over d seconds, less its gain, is the lead
      on the principal up to rounding. */
  lemma AgedGain(principal: int, rate: int, age: nat, d: nat, last: int, before: int, after: int)
    requires principal >= 0 && rate >= 0
    requires before == RayMul(principal, CalcCompoundedInterest(rate, last + age, last))
    requires after == RayMul(principal, CalcCompoundedInterest(rate, last + (age + d), last))
    ensures var g := rate * d / ONE_YEAR;
            var rounding := RAY * g + 2 * RAY * RAY;
            var gap := 2 * RAY * (before * g - RAY * (after - before));
            && g >= 0
            && gap <= 2 * (principal * (Lead(rate, age, d) + RoundedUp(rate, age, d))) + rounding
            && gap >= 2 * (principal * (Lead(rate, age, d) - RoundedDown(rate, age, d))) - rounding
  {
    var c := CalcCompoundedInterest(rate, last + age, last);
    var e := CalcCompoundedInterest(rate, last + (age + d), last);
    var g := rate * d / ONE_YEAR;
    hide CalcCompoundedInterest, Lead, RoundedUp, RoundedDown, RayMul;
    CompoundedLead(rate, age, d, last);
    CompoundedMonotone(rate, age, last, rate, age + d, last, c, e);
    GrowthNonNegative(rate, d);
    DebtRounded(principal, c, before);
    DebtRounded(principal, e, after);
    MulLe(c * g - RAY * (e - c), Lead(rate, age, d) + RoundedUp(rate, age, d), principal);
    MulLe(Lead(rate, age, d) - RoundedDown(rate, age, d), c * g - RAY * (e - c), principal);
    GainRounding(principal, c, e, before, after, g);
  }

  lemma GrowthNonNegative(rate: int, d: nat)
    requires rate >= 0
    ensures rate * d / ONE_YEAR >= 0
  {
    MulLe(0, rate, d);
  }

  lemma DebtRounded(principal: int, factor: int, debt: int)
    requires principal >= 0 && factor >= 0 && debt == RayMul(principal, factor)
    ensures Abs(2 * RAY * debt - 2 * (principal * factor)) <= RAY
  {
    MulLe(0, principal, factor);
    RayMulNearest(principal, factor);
  }

  lemma GainRounding(principal: int, c: int, e: int, before: int, after: int, g: int)
    requires g >= 0 && Abs(2 * RAY * before - 2 * (principal * c)) <= RAY
    requires Abs(2 * RAY * after - 2 * (principal * e)) <= RAY
    ensures Abs(2 * RAY * (before * g - RAY * (after - before)) - 2 * (principal * (c * g - RAY * (e - c))))
            <= RAY * g + 2 * RAY * RAY
  {
    TimesGrowth(before, principal * c, g);
    GainOf(principal, c, e, g);
    AddRoundings(before * g, principal * c * g, before, after, principal * c, principal * e, RAY * g);
  }

  lemma AddRoundings(bg: int, xg: int, before: int, after: int, x: int, y: int, rounding: int)
    requires Abs(2 * RAY * bg - 2 * xg) <= rounding
    requires Abs(2 * RAY * before - 2 * x) <= RAY && Abs(2 * RAY * after - 2 * y) <= RAY
    ensures Abs(2 * RAY * (bg - RAY * (after - before)) - 2 * (xg - RAY * (y - x))) <= rounding + 2 * RAY * RAY
  {
  }

  lemma TimesGrowth(debt: int, exact: int, g: int)
    requires g >= 0 && Abs(2 * RAY * debt - 2 * exact) <= RAY
    ensures Abs(2 * RAY * (debt * g) - 2 * (exact * g)) <= RAY * g
  {
    MulLe(2 * RAY * debt - 2 * exact, RAY, g);
    MulLe(-RAY, 2 * RAY * debt - 2 * exact, g);
    assert g * (2 * RAY * debt - 2 * exact) == 2 * RAY * (debt * g) - 2 * (exact * g);
  }

  lemma GainOf(principal: int, c: int, e: int, g: int)
    ensures principal * (c * g - RAY * (e - c)) == principal * c * g - RAY * (principal * e - principal * c)
  {
    assert principal * (c * g) == principal * c * g;
  }
}
