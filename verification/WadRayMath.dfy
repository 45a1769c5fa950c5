/** Fixed-point arithmetic on unbounded signed integers: rays (27 decimals), wads (18 decimals) and
    basis points, every operation rounding half up through a truncating division. */
module WadRayMath {

  const WAD := 1_000_000_000_000_000_000
  const RAY := 1_000_000_000_000_000_000_000_000_000
  const HALF_RAY := 500_000_000_000_000_000_000_000_000
  const WAD_RAY_RATIO := 1_000_000_000
  const PERCENTAGE_FACTOR := 10_000
  const HALF_PERCENTAGE := 5_000

  function Abs(x: int): (r: nat)
    ensures r == x || r == -x
  {
    if x < 0 then -x else x
  }

  function Max(x: int, y: int): int {
    if x >= y then x else y
  }

  /** Division of the source's big integers: truncates toward zero. */
  function Div(a: int, b: int): (q: int)
    requires b != 0
    ensures a >= 0 && b > 0 ==> q == a / b
  {
    if (a >= 0) == (b > 0) then Abs(a) / Abs(b) else -(Abs(a) / Abs(b))
  }

  function RayMul(a: int, b: int): int {
    Div(HALF_RAY + a * b, RAY)
  }

  function RayDiv(a: int, b: int): int
    requires b != 0
  {
    Div(Div(b, 2) + a * RAY, b)
  }

  function PercentMul(a: int, bps: int): int {
    Div(HALF_PERCENTAGE + a * bps, PERCENTAGE_FACTOR)
  }

  function WadToRay(a: int): int {
    a * WAD_RAY_RATIO
  }

  function Negated(a: int): int {
    a * -1
  }

  // ---------- What truncation computes ----------

  /** `Div` is the one integer of the quotient's sign that leaves a remainder smaller than the divisor. */
  lemma DivTruncates(a: int, b: int)
    requires b != 0
    ensures Abs(a - b * Div(a, b)) < Abs(b)
    ensures a >= 0 ==> a - b * Div(a, b) >= 0
    ensures a <= 0 ==> a - b * Div(a, b) <= 0
  {
    var n, d := Abs(a), Abs(b);
    assert n == d * (n / d) + n % d;
  }

  // ---------- Rounding to nearest ----------

  /** q is the integer nearest to n/d, an exact half going up. */
  ghost predicate Nearest(q: int, n: int, d: int) {
    d > 0 && 2 * (d * q) <= 2 * n + d < 2 * (d * q) + 2 * d
  }

  lemma HalfUpIsNearest(n: int, d: int)
    requires n >= 0 && d > 0
    ensures Nearest((d / 2 + n) / d, n, d)
  {
    var m := d / 2 + n;
    assert m == d * (m / d) + m % d;
  }

  lemma RayMulNearest(a: int, b: int)
    requires a * b >= 0
    ensures Nearest(RayMul(a, b), a * b, RAY)
  {
    HalfUpIsNearest(a * b, RAY);
  }

  lemma RayDivNearest(a: int, b: int)
    requires a >= 0 && b > 0
    ensures Nearest(RayDiv(a, b), a * RAY, b)
  {
    HalfUpIsNearest(a * RAY, b);
  }

  lemma PercentMulNearest(a: int, bps: int)
    requires a * bps >= 0
    ensures Nearest(PercentMul(a, bps), a * bps, PERCENTAGE_FACTOR)
  {
    HalfUpIsNearest(a * bps, PERCENTAGE_FACTOR);
  }

  /** Rounding keeps the order of the ratios. */
  lemma NearestOrder(q1: int, n1: int, d1: int, q2: int, n2: int, d2: int)
    requires Nearest(q1, n1, d1) && Nearest(q2, n2, d2)
    requires n1 * d2 <= n2 * d1
    ensures q1 <= q2
  {
    var k := 2 * (d1 * d2);
    MulLe(2 * (d1 * q1), 2 * n1 + d1, d2);
    MulLt(2 * n2 + d2, 2 * (d2 * q2) + 2 * d2, d1);
    assert 2 * (d1 * q1) * d2 == q1 * k;
    assert (2 * (d2 * q2) + 2 * d2) * d1 == (q2 + 1) * k;
    assert (2 * n1 + d1) * d2 == 2 * (n1 * d2) + d1 * d2;
    assert (2 * n2 + d2) * d1 == 2 * (n2 * d1) + d1 * d2;
    MulLtCancel(q1, q2 + 1, k);
  }

  /** Equal ratios round equally; in particular rounding is unique and a common factor cancels. */
  lemma NearestSameRatio(q1: int, n1: int, d1: int, q2: int, n2: int, d2: int)
    requires Nearest(q1, n1, d1) && Nearest(q2, n2, d2)
    requires n1 * d2 == n2 * d1
    ensures q1 == q2
  {
    NearestOrder(q1, n1, d1, q2, n2, d2);
    NearestOrder(q2, n2, d2, q1, n1, d1);
  }

  // ---------- Order ----------

  lemma RayMulMonotone(a: int, b: int, c: int, d: int)
    requires 0 <= a <= c && 0 <= b <= d
    ensures 0 <= RayMul(a, b) <= RayMul(c, d)
  {
    MulLe(a, c, b);
    MulLe(b, d, c);
    RayMulNearest(a, b);
    RayMulNearest(c, d);
  }

  /** A quotient grows with its dividend and falls with its divisor. */
  lemma RayDivMonotone(a: int, b: int, c: int, d: int)
    requires 0 <= a <= c && 0 < d <= b
    ensures 0 <= RayDiv(a, b) <= RayDiv(c, d)
  {
    RayDivOrder(a, b, c, d) by { MulLe(a, c, d); MulLe(d, b, c); }
    RayDivOrder(0, b, a, b) by { MulLe(0, a, b); }
    RayDivNearest(0, b);
    RayDivNearest(a, b);
    NearestSameRatio(RayDiv(0, b), 0, b, 0, 0, b);
  }

  lemma RayDivOrder(a: int, b: int, c: int, d: int)
    requires a >= 0 && b > 0 && c >= 0 && d > 0
    requires a * d <= c * b
    ensures RayDiv(a, b) <= RayDiv(c, d)
  {
    RayDivNearest(a, b);
    RayDivNearest(c, d);
    MulLe(a * d, c * b, RAY);
    assert a * RAY * d == (a * d) * RAY;
    assert c * RAY * b == (c * b) * RAY;
    NearestOrder(RayDiv(a, b), a * RAY, b, RayDiv(c, d), c * RAY, d);
  }

  lemma RayDivScaleInvariant(k: int, a: int, b: int)
    requires k > 0 && a >= 0 && b > 0
    ensures k * b > 0 && RayDiv(k * a, k * b) == RayDiv(a, b)
  {
    MulLt(0, b, k);
    MulLe(0, a, k);
    assert (k * a) * b == a * (k * b);
    RayDivOrder(k * a, k * b, a, b);
    RayDivOrder(a, b, k * a, k * b);
  }

  /** A share of the whole is at most one ray, and the whole is exactly one. */
  lemma RayDivShare(a: int, b: int)
    requires 0 <= a <= b && b > 0
    ensures 0 <= RayDiv(a, b) <= RAY
    ensures a == b ==> RayDiv(a, b) == RAY
  {
    RayDivMonotone(a, b, b, b);
    RayDivNearest(b, b);
    NearestSameRatio(RayDiv(b, b), b * RAY, b, RAY, RAY * RAY, RAY);
  }

  lemma RayMulByRay(a: int)
    requires a >= 0
    ensures RayMul(a, RAY) == a && RayMul(RAY, a) == a
  {
    RayMulNearest(a, RAY);
    RayMulNearest(RAY, a);
  }

  lemma RayMulByFraction(a: int, b: int)
    requires a >= 0 && 0 <= b <= RAY
    ensures 0 <= RayMul(a, b) <= a
  {
    RayMulMonotone(a, b, a, RAY);
    RayMulByRay(a);
  }

  lemma RayMulByIndex(a: int, b: int)
    requires a >= 0 && b >= RAY
    ensures RayMul(a, b) >= a && RayMul(b, a) >= a
  {
    RayMulMonotone(a, RAY, a, b);
    RayMulMonotone(RAY, a, b, a);
    RayMulByRay(a);
  }

  // ---------- Round trips between an amount and its scaled form ----------

  /** Scaling up by an index of at least one ray and back down loses nothing. */
  lemma ScaledRoundTrip(s: int, i: int)
    requires s >= 0 && i >= RAY
    ensures RayDiv(RayMul(s, i), i) == s
  {
    var m := RayMul(s, i);
    MulLe(0, i, s);
    RayMulNearest(s, i);
    RayMulByIndex(s, i);
    RayDivNearest(m, i);
    if i == RAY { RayMulByRay(s); }
    assert i * s == s * i;
    assert Nearest(s, m * RAY, i);
    NearestSameRatio(RayDiv(m, i), m * RAY, i, s, m * RAY, i);
  }

  /** One ray is exactly the threshold: a smaller index maps two scaled balances to the same amount. */
  lemma ScaledRoundTripExactlyFromOneRay(i: int)
    requires i > 0
    ensures (forall s: nat :: RayDiv(RayMul(s, i), i) == s) <==> i >= RAY
  {
    if i >= RAY {
      forall s: nat ensures RayDiv(RayMul(s, i), i) == s { ScaledRoundTrip(s, i); }
    } else if forall s: nat :: RayDiv(RayMul(s, i), i) == s {
      InjectiveGrows(RAY, i);
      RayMulByRay(i);
    }
  }

  lemma {:induction false} InjectiveGrows(n: nat, i: int)
    requires i > 0
    requires forall s: nat :: RayDiv(RayMul(s, i), i) == s
    ensures RayMul(n, i) >= n
  {
    if n == 0 {
      RayMulMonotone(0, i, 0, i);
    } else {
      InjectiveGrows(n - 1, i);
      RayMulMonotone(n - 1, i, n, i);
      assert RayDiv(RayMul(n - 1, i), i) != RayDiv(RayMul(n, i), i);
    }
  }

  /** The other order moves an amount by at most half a unit plus half the index. */
  lemma AmountRoundTrip(x: int, i: int)
    requires x >= 0 && i > 0
    ensures 2 * RAY * Abs(RayMul(RayDiv(x, i), i) - x) <= RAY + i
  {
    RayDivMonotone(x, i, x, i);
    RayDivNearest(x, i);
    var q := RayDiv(x, i);
    MulLe(0, i, q);
    RayMulNearest(q, i);
    assert q * i == i * q;
  }

  // ---------- Products ----------

  lemma MulLe(x: int, y: int, k: int)
    requires x <= y && k >= 0
    ensures x * k <= y * k
    ensures k * x <= k * y
  {
    assert (y - x) * k >= 0;
  }

  lemma MulLt(x: int, y: int, k: int)
    requires x < y && k > 0
    ensures x * k < y * k
    ensures k * x < k * y
  {
    assert (y - x) * k > 0;
  }

  lemma MulLtCancel(x: int, y: int, k: int)
    requires x * k < y * k && k > 0
    ensures x < y
  {
    if y <= x { MulLe(y, x, k); }
  }
}
