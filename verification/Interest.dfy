/** Interest over an interval of seconds: linear for suppliers, and for borrowers the first terms of the
    binomial expansion of per-second compounding. */
module Interest {
  import opened WadRayMath

  const ONE_YEAR := 31_536_000

  function CalcLinearInterest(rate: int, currentTimestamp: int, lastUpdateTimestamp: int): int {
    Div(rate * (currentTimestamp - lastUpdateTimestamp), ONE_YEAR) + RAY
  }

  function BasePowerTwo(rate: int): int {
    Div(RayMul(rate, rate), ONE_YEAR * ONE_YEAR)
  }

  function BasePowerThree(rate: int): int {
    Div(RayMul(BasePowerTwo(rate), rate), ONE_YEAR)
  }

  function CalcCompoundedInterest(rate: int, currentTimestamp: int, lastUpdateTimestamp: int): int {
    var timeDifference := currentTimestamp - lastUpdateTimestamp;
    if timeDifference == 0 then
      RAY
    else
      var expMinusOne := timeDifference - 1;
      var expMinusTwo := if timeDifference > 2 then timeDifference - 2 else 0;
      var secondTerm := Div(timeDifference * expMinusOne * BasePowerTwo(rate), 2);
      var thirdTerm := Div(timeDifference * expMinusOne * expMinusTwo * BasePowerThree(rate), 6);
      RAY + Div(rate * timeDifference, ONE_YEAR) + secondTerm + thirdTerm
  }

  // ---------- The sum as binomial coefficients ----------

  /** The binomial coefficient "t choose k", by Pascal's rule. */
  function Choose(k: nat, t: nat): nat {
    if k == 0 then 1 else if t == 0 then 0 else Choose(k, t - 1) + Choose(k - 1, t - 1)
  }

  lemma {:induction false} ChooseClosedForms(t: nat)
    ensures Choose(1, t) == t
    ensures t * (t - 1) == 2 * Choose(2, t)
    ensures t * (t - 1) * (t - 2) == 6 * Choose(3, t)
  {
    if t > 0 {
      ChooseClosedForms(t - 1);
      FallingFactorials(t);
    }
  }

  lemma FallingFactorials(t: int)
    ensures t * (t - 1) == (t - 1) * (t - 2) + 2 * (t - 1)
    ensures t * (t - 1) * (t - 2) == (t - 1) * (t - 2) * (t - 3) + 3 * ((t - 1) * (t - 2))
  {
    var c := (t - 1) * (t - 2);
    assert t * (t - 1) * (t - 2) == t * c;
    assert c * (t - 3) == t * c - 3 * c;
  }

  lemma {:induction false} ChooseMonotone(k: nat, t1: nat, t2: nat)
    requires t1 <= t2
    ensures Choose(k, t1) <= Choose(k, t2)
  {
    if t1 < t2 { ChooseMonotone(k, t1, t2 - 1); }
  }

  lemma BasePowersMonotone(r1: int, r2: int)
    requires 0 <= r1 <= r2
    ensures 0 <= BasePowerTwo(r1) <= BasePowerTwo(r2)
    ensures 0 <= BasePowerThree(r1) <= BasePowerThree(r2)
  {
    RayMulMonotone(r1, r1, r2, r2);
    RayMulMonotone(BasePowerTwo(r1), r1, BasePowerTwo(r2), r2);
  }

  /** For a non-negative rate the second and third terms divide exactly: only the powers of the rate and
      the first term are rounded, and the empty interval is no special case. */
  lemma CompoundedTerms(rate: int, t: nat, last: int)
    requires rate >= 0
    ensures BasePowerTwo(rate) >= 0 && BasePowerThree(rate) >= 0 && rate * t >= 0
    ensures CalcCompoundedInterest(rate, last + t, last)
         == RAY + rate * t / ONE_YEAR + Choose(2, t) * BasePowerTwo(rate) + Choose(3, t) * BasePowerThree(rate)
  {
    var p2, p3 := BasePowerTwo(rate), BasePowerThree(rate);
    BasePowersMonotone(rate, rate);
    MulLe(0, rate, t);
    if t > 0 {
      ChooseClosedForms(t);
      var triples := t * (t - 1) * (if t > 2 then t - 2 else 0);
      assert triples == 6 * Choose(3, t) by { if t <= 2 { assert t == 1 || t == 2; } }
      ExactQuotient(2, Choose(2, t), p2);
      ExactQuotient(6, Choose(3, t), p3);
    }
  }

  lemma ExactQuotient(d: int, k: int, p: int)
    requires d == 2 || d == 6
    requires k >= 0 && p >= 0
    ensures d * k * p >= 0 && k * p >= 0 && Div(d * k * p, d) == k * p
  {
    MulLe(0, k, p);
    assert d * k * p == d * (k * p);
  }

  // ---------- Order ----------

  lemma ProductMonotone(a: int, b: int, c: int, d: int)
    requires 0 <= a <= c && 0 <= b <= d
    ensures 0 <= a * b <= c * d
  {
    MulLe(0, a, b);
    MulLe(a, c, b);
    MulLe(b, d, c);
  }

  /** Debt interest grows with the rate and with the elapsed time. */
  lemma CompoundedMonotone(r1: int, t1: nat, last1: int, r2: int, t2: nat, last2: int, c1: int, c2: int)
    requires 0 <= r1 <= r2 && t1 <= t2
    requires c1 == CalcCompoundedInterest(r1, last1 + t1, last1)
    requires c2 == CalcCompoundedInterest(r2, last2 + t2, last2)
    ensures RAY <= c1 <= c2
  {
    CompoundedTerms(r1, t1, last1);
    CompoundedTerms(r2, t2, last2);
    BasePowersMonotone(r1, r2);
    ChooseMonotone(2, t1, t2);
    ChooseMonotone(3, t1, t2);
    ProductMonotone(r1, t1, r2, t2);
    ProductMonotone(Choose(2, t1), BasePowerTwo(r1), Choose(2, t2), BasePowerTwo(r2));
    ProductMonotone(Choose(3, t1), BasePowerThree(r1), Choose(3, t2), BasePowerThree(r2));
  }

  /** Compounding never charges less than linear interest does. */
  lemma CompoundedAtLeastLinear(rate: int, current: int, last: int)
    requires rate >= 0 && current >= last
    ensures CalcCompoundedInterest(rate, current, last) >= CalcLinearInterest(rate, current, last) >= RAY
  {
    var t := current - last;
    CompoundedTerms(rate, t, last);
    ProductMonotone(0, 0, Choose(2, t), BasePowerTwo(rate));
    ProductMonotone(0, 0, Choose(3, t), BasePowerThree(rate));
  }

  /** Linear interest is the exact proportion of the year's rate, rounded down, and adds up over adjacent
      intervals to within one unit. */
  lemma LinearInterestExact(rate: int, t: nat, last: int)
    requires rate >= 0
    ensures var interest := CalcLinearInterest(rate, last + t, last) - RAY;
            interest * ONE_YEAR <= rate * t < (interest + 1) * ONE_YEAR
    ensures CalcLinearInterest(rate, last + ONE_YEAR, last) == RAY + rate
  {
    MulLe(0, rate, t);
    DivTruncates(rate * t, ONE_YEAR);
  }

  lemma LinearInterestAdds(rate: int, t1: nat, t2: nat, last: int)
    requires rate >= 0
    ensures var whole := CalcLinearInterest(rate, last + t1 + t2, last) - RAY;
            var first := CalcLinearInterest(rate, last + t1, last) - RAY;
            var second := CalcLinearInterest(rate, last + t1 + t2, last + t1) - RAY;
            first + second <= whole <= first + second + 1
  {
    hide CalcLinearInterest;
    LinearInterestExact(rate, t1, last);
    LinearInterestExact(rate, t2, last + t1);
    LinearInterestExact(rate, t1 + t2, last);
    assert rate * (t1 + t2) == rate * t1 + rate * t2;
  }

  // ---------- Against exact per-second compounding, over the reals ----------

  const YEAR_SQUARED := ONE_YEAR as real * ONE_YEAR as real

  /** The rate of one second as a fraction. */
  function PerSecond(rate: int): real {
    rate as real / (RAY as real * ONE_YEAR as real)
  }

  function Power(x: real, n: nat): real {
    if n == 0 then 1.0 else x * Power(x, n - 1)
  }

  /** The k-th term of the binomial expansion of (1 + x)^t. */
  function Term(k: nat, x: real, t: nat): real {
    Choose(k, t) as real * Power(x, k)
  }

  /** Rounding error, per pair and per triple of seconds, of the squared and cubed rate of one second. */
  function SquareError(down: real): real {
    0.5 / YEAR_SQUARED + down
  }

  function CubeError(x: real, down: real): real {
    x * SquareError(down) + (0.5 / ONE_YEAR as real + down)
  }

  /** How far the integer sum may exceed, or fall short of, the expansion's terms up to the cubic one. */
  function SlackAbove(x: real, t: nat): real {
    Choose(2, t) as real * SquareError(0.0) + Choose(3, t) as real * CubeError(x, 0.0)
  }

  function SlackBelow(x: real, t: nat): real {
    1.0 + Choose(2, t) as real * SquareError(1.0) + Choose(3, t) as real * CubeError(x, 1.0)
  }

  /** The sandwich: within rounding of the expansion's terms up to the cubic one on both sides, hence never more
      than exact per-second compounding plus the slack, for every rate and every interval. */
  lemma CompoundedSandwich(rate: int, t: nat, last: int)
    requires rate >= 0
    ensures var x := PerSecond(rate);
            var c := CalcCompoundedInterest(rate, last + t, last) as real;
            var cubic := RAY as real * (1.0 + Term(1, x, t) + Term(2, x, t) + Term(3, x, t));
            && cubic - SlackBelow(x, t) <= c <= cubic + SlackAbove(x, t)
            && c <= RAY as real * Power(1.0 + x, t) + SlackAbove(x, t)
  {
    var x := PerSecond(rate);
    var e1, e2, e3 := Term(1, x, t), Term(2, x, t), Term(3, x, t);
    SumAgainstTerms(rate, t, last, e1, e2, e3);
    CubicBelowPower(x, t, e1, e2, e3);
    MulLeReal(1.0 + e1 + e2 + e3, Power(1.0 + x, t), RAY as real);
  }

  lemma SumAgainstTerms(rate: int, t: nat, last: int, e1: real, e2: real, e3: real)
    requires rate >= 0
    requires e1 == Term(1, PerSecond(rate), t) && e2 == Term(2, PerSecond(rate), t) && e3 == Term(3, PerSecond(rate), t)
    ensures var c := CalcCompoundedInterest(rate, last + t, last) as real;
            var cubic := RAY as real * (1.0 + e1 + e2 + e3);
            cubic - SlackBelow(PerSecond(rate), t) <= c <= cubic + SlackAbove(PerSecond(rate), t)
  {
    hide CalcCompoundedInterest, BasePowerTwo, BasePowerThree, Choose, Term, PerSecond, SquareError, CubeError, Power;
    var c2, c3, x := Choose(2, t) as real, Choose(3, t) as real, PerSecond(rate);
    var p3, cube := BasePowerThree(rate) as real, Power(x, 3);
    assert RAY as real * cube - CubeError(x, 1.0) <= p3 <= RAY as real * cube + CubeError(x, 0.0) by {
      PowerTwoBounds(rate, Power(x, 2));
      CubeIsNext(x);
      CubeErrors(x);
      PowerThreeBounds(rate, x, BasePowerTwo(rate) as real, p3, Power(x, 2), cube, SquareError(0.0), SquareError(1.0),
                       CubeError(x, 0.0), CubeError(x, 1.0));
    }
    CompoundedTerms(rate, t, last);
    FirstTermBounds(rate, t, e1);
    SecondTermBounds(rate, t, e2);
    CubicTerm(x, t, cube, e3);
    IntRealProduct(Choose(3, t), BasePowerThree(rate), c3, p3);
    ScaledBounds(c3, RAY as real, cube, p3, CubeError(x, 0.0), CubeError(x, 1.0), e3, c3 * p3);
    AddTerms(CalcCompoundedInterest(rate, last + t, last), rate * t / ONE_YEAR,
             Choose(2, t) * BasePowerTwo(rate), Choose(3, t) * BasePowerThree(rate), e1, e2, e3,
             c2 * SquareError(0.0), c2 * SquareError(1.0), c3 * CubeError(x, 0.0), c3 * CubeError(x, 1.0),
             SlackAbove(x, t), SlackBelow(x, t));
  }

  lemma AddTerms(c: int, i: int, j: int, k: int, e1: real, e2: real, e3: real, u2: real, v2: real, u3: real, v3: real,
                 above: real, below: real)
    requires c == RAY + i + j + k && above == u2 + u3 && below == 1.0 + v2 + v3
    requires RAY as real * e1 - 1.0 <= i as real <= RAY as real * e1
    requires RAY as real * e2 - v2 <= j as real <= RAY as real * e2 + u2
    requires RAY as real * e3 - v3 <= k as real <= RAY as real * e3 + u3
    ensures RAY as real * (1.0 + e1 + e2 + e3) - below <= c as real <= RAY as real * (1.0 + e1 + e2 + e3) + above
  {
  }

  lemma SecondTermBounds(rate: int, t: nat, e2: real)
    requires rate >= 0 && e2 == Term(2, PerSecond(rate), t)
    ensures var c2 := Choose(2, t) as real;
            RAY as real * e2 - c2 * SquareError(1.0) <= (Choose(2, t) * BasePowerTwo(rate)) as real
                                                     <= RAY as real * e2 + c2 * SquareError(0.0)
  {
    hide PerSecond, Choose, BasePowerTwo, SquareError, Power;
    var c2, p2, y2 := Choose(2, t) as real, BasePowerTwo(rate) as real, Power(PerSecond(rate), 2);
    IntRealProduct(Choose(2, t), BasePowerTwo(rate), c2, p2);
    PowerTwoBounds(rate, y2);
    ScaledBounds(c2, RAY as real, y2, p2, SquareError(0.0), SquareError(1.0), e2, c2 * p2);
  }

  lemma CubicTerm(x: real, t: nat, cube: real, e3: real)
    requires e3 == Term(3, x, t) && cube == Power(x, 3)
    ensures e3 == Choose(3, t) as real * cube
  {
    hide Choose;
  }

  lemma CubeIsNext(x: real)
    ensures Power(x, 3) == x * Power(x, 2)
  {
  }

  lemma CubeErrors(x: real)
    ensures CubeError(x, 0.0) == x * SquareError(0.0) + (0.5 / ONE_YEAR as real + 0.0)
    ensures CubeError(x, 1.0) == x * SquareError(1.0) + (0.5 / ONE_YEAR as real + 1.0)
  {
    hide SquareError;
  }

  lemma ScaledBounds(c: real, R: real, y: real, p: real, u: real, v: real, e: real, s: real)
    requires c >= 0.0 && e == c * y && s == c * p
    requires R * y - v <= p <= R * y + u
    ensures R * e - c * v <= s <= R * e + c * u
  {
    assert c * (R * y) == R * e;
    assert c * p <= c * (R * y + u);
    assert c * (R * y - v) <= c * p;
  }

  lemma IntRealProduct(a: int, b: int, x: real, y: real)
    requires x == a as real && y == b as real
    ensures (a * b) as real == x * y
  {
  }

  lemma FirstTermBounds(rate: int, t: nat, e1: real)
    requires e1 == Term(1, PerSecond(rate), t)
    ensures RAY as real * e1 - 1.0 <= (rate * t / ONE_YEAR) as real <= RAY as real * e1
  {
    hide Choose;
    var x := PerSecond(rate);
    assert e1 == t as real * x by { ChooseClosedForms(t); assert Power(x, 1) == x; }
    IntRealMul(rate, t);
    Reassociate(RAY as real, x, t as real);
  }

  lemma PowerTwoBounds(rate: int, square: real)
    requires rate >= 0 && square == Power(PerSecond(rate), 2)
    ensures var exact := RAY as real * square;
            exact - SquareError(1.0) <= BasePowerTwo(rate) as real <= exact + SquareError(0.0)
  {
    var x, R, Y := PerSecond(rate), RAY as real, ONE_YEAR as real;
    var m, p := RayMul(rate, rate), BasePowerTwo(rate);
    MulLe(0, rate, rate);
    RayMulNearest(rate, rate);
    IntRealMul(rate, rate);
    Square(x);
    assert rate as real == x * (R * Y);
    assert rate as real * rate as real == square * (R * Y * (R * Y));
    assert m >= 0;
    assert p * (ONE_YEAR * ONE_YEAR) <= m < p * (ONE_YEAR * ONE_YEAR) + ONE_YEAR * ONE_YEAR;
  }

  lemma Square(x: real)
    ensures Power(x, 2) == x * x
  {
    assert Power(x, 1) == x;
  }

  /** The rounded cube, from the rounded square and the rounding of one more power. */
  lemma CubeBounds(x: real, p2: real, p2x: real, p3: real, square: real, cube: real, up: real, down: real, u: real,
                   v: real)
    requires x >= 0.0 && cube == x * square && p2x == p2 * x
    requires RAY as real * square - down <= p2 <= RAY as real * square + up
    requires p2x - (0.5 / ONE_YEAR as real + 1.0) <= p3 <= p2x + 0.5 / ONE_YEAR as real
    requires u == x * up + (0.5 / ONE_YEAR as real + 0.0) && v == x * down + (0.5 / ONE_YEAR as real + 1.0)
    ensures RAY as real * cube - v <= p3 <= RAY as real * cube + u
  {
    Commute(x, p2);
    ScaledBounds(x, RAY as real, square, p2, up, down, cube, p2x);
    AddRounding(p3, p2x, RAY as real * cube, x * up, x * down, u, v);
  }

  lemma PowerThreeBounds(rate: int, x: real, p2: real, p3: real, square: real, cube: real, up: real, down: real,
                         u: real, v: real)
    requires rate >= 0 && x == PerSecond(rate) && cube == x * square
    requires p2 == BasePowerTwo(rate) as real && p3 == BasePowerThree(rate) as real
    requires RAY as real * square - down <= p2 <= RAY as real * square + up
    requires u == x * up + (0.5 / ONE_YEAR as real + 0.0) && v == x * down + (0.5 / ONE_YEAR as real + 1.0)
    ensures RAY as real * cube - v <= p3 <= RAY as real * cube + u
  {
    hide PerSecond, BasePowerTwo, BasePowerThree;
    OneMorePower(rate, x, p2 * x);
    PerSecondNonNegative(rate);
    CubeBounds(x, p2, p2 * x, p3, square, cube, up, down, u, v);
  }

  lemma Commute(x: real, y: real)
    ensures x * y == y * x
  {
  }

  lemma AddRounding(p: real, exact: real, scaled: real, up: real, down: real, u: real, v: real)
    requires scaled - down <= exact <= scaled + up
    requires exact - (0.5 / ONE_YEAR as real + 1.0) <= p <= exact + 0.5 / ONE_YEAR as real
    requires u == up + (0.5 / ONE_YEAR as real + 0.0) && v == down + (0.5 / ONE_YEAR as real + 1.0)
    ensures scaled - v <= p <= scaled + u
  {
  }

  lemma PerSecondNonNegative(rate: int)
    requires rate >= 0
    ensures PerSecond(rate) >= 0.0
  {
  }

  lemma OneMorePower(rate: int, x: real, exact: real)
    requires rate >= 0 && x == PerSecond(rate) && exact == BasePowerTwo(rate) as real * x
    ensures exact - (0.5 / ONE_YEAR as real + 1.0) <= BasePowerThree(rate) as real <= exact + 0.5 / ONE_YEAR as real
  {
    var R, Y := RAY as real, ONE_YEAR as real;
    var p2, p := BasePowerTwo(rate), BasePowerThree(rate);
    var m := RayMul(p2, rate);
    BasePowersMonotone(rate, rate);
    MulLe(0, p2, rate);
    RayMulNearest(p2, rate);
    IntRealMul(p2, rate);
    assert rate as real == x * (R * Y);
    assert p2 as real * rate as real == (p2 as real * x) * (R * Y);
    assert m >= 0;
    assert p * ONE_YEAR <= m < p * ONE_YEAR + ONE_YEAR;
  }

  // ---------- The expansion stays below the power ----------

  lemma {:induction false} CubicBelowPower(x: real, t: nat, e1: real, e2: real, e3: real)
    requires x >= 0.0
    requires e1 == Term(1, x, t) && e2 == Term(2, x, t) && e3 == Term(3, x, t)
    ensures 1.0 + e1 + e2 + e3 <= Power(1.0 + x, t)
  {
    if t > 0 {
      var d1, d2, d3 := Term(1, x, t - 1), Term(2, x, t - 1), Term(3, x, t - 1);
      CubicBelowPower(x, t - 1, d1, d2, d3);
      TermsStep(x, t - 1, d1, d2, d3, e1, e2, e3);
      TermNonNegative(3, x, t - 1);
      CubicGrows(x, d1, d2, d3, e1, e2, e3, Power(1.0 + x, t - 1));
    }
  }

  lemma TermsStep(x: real, t: nat, d1: real, d2: real, d3: real, e1: real, e2: real, e3: real)
    requires d1 == Term(1, x, t) && d2 == Term(2, x, t) && d3 == Term(3, x, t)
    requires e1 == Term(1, x, t + 1) && e2 == Term(2, x, t + 1) && e3 == Term(3, x, t + 1)
    ensures e1 == d1 + x && e2 == d2 + x * d1 && e3 == d3 + x * d2
  {
    TermStep(0, x, t);
    TermStep(1, x, t);
    TermStep(2, x, t);
  }

  lemma TermStep(k: nat, x: real, t: nat)
    ensures Term(k + 1, x, t + 1) == Term(k + 1, x, t) + x * Term(k, x, t)
  {
    PascalTimes(Choose(k + 1, t + 1) as real, Choose(k + 1, t) as real, Choose(k, t) as real, x, Power(x, k),
                Power(x, k + 1));
  }

  lemma TermNonNegative(k: nat, x: real, t: nat)
    requires x >= 0.0
    ensures Term(k, x, t) >= 0.0
  {
    PowerNonNegative(x, k);
    MulLeReal(0.0, Power(x, k), Choose(k, t) as real);
  }

  lemma {:induction false} PowerNonNegative(x: real, k: nat)
    requires x >= 0.0
    ensures Power(x, k) >= 0.0
  {
    if k > 0 { PowerNonNegative(x, k - 1); }
  }

  lemma PascalTimes(c: real, a: real, b: real, x: real, p: real, q: real)
    requires c == a + b && q == x * p
    ensures c * q == a * q + x * (b * p)
  {
    assert x * (b * p) == b * q;
  }

  lemma CubicGrows(x: real, d1: real, d2: real, d3: real, e1: real, e2: real, e3: real, p: real)
    requires x >= 0.0 && d3 >= 0.0
    requires e1 == d1 + x && e2 == d2 + x * d1 && e3 == d3 + x * d2
    requires 1.0 + d1 + d2 + d3 <= p
    ensures 1.0 + e1 + e2 + e3 <= (1.0 + x) * p
  {
    var s := 1.0 + d1 + d2 + d3;
    assert x * s == x + x * d1 + x * d2 + x * d3;
    assert x * s <= x * p by { MulLeReal(s, p, x); }
    assert x * d3 >= 0.0;
  }

  // ---------- Products of reals ----------

  lemma IntRealMul(a: int, b: int)
    ensures (a * b) as real == a as real * b as real
  {
  }

  lemma Reassociate(a: real, b: real, c: real)
    ensures a * b * c == a * (b * c)
  {
  }

  lemma MulLeReal(x: real, y: real, k: real)
    requires x <= y && k >= 0.0
    ensures k * x <= k * y
  {
    assert k * (y - x) >= 0.0;
  }
}
