/** How JavaScript's `>` orders two ethers big numbers. They have no numeric primitive value, so both
    operands turn into decimal strings and the strings are compared code unit by code unit. */
module DecimalOrder {

  function DigitChar(d: int): char
    requires 0 <= d < 10
  {
    '0' + d as char
  }

  function Decimal(n: nat): (s: string)
    ensures |s| > 0
  {
    if n < 10 then [DigitChar(n)] else Decimal(n / 10) + [DigitChar(n % 10)]
  }

  function ToString(n: int): string {
    if n < 0 then "-" + Decimal(-n) else Decimal(n)
  }

  predicate StringGreater(a: string, b: string) {
    if a == "" then false
    else if b == "" then true
    else if a[0] != b[0] then a[0] > b[0]
    else StringGreater(a[1..], b[1..])
  }

  /** The operator `a > b` of the source on two big numbers. */
  predicate JsGreater(a: int, b: int) {
    StringGreater(ToString(a), ToString(b))
  }

  /** n without its last k decimal digits. */
  function DropDigits(n: nat, k: nat): nat {
    if k == 0 then n else DropDigits(n / 10, k - 1)
  }

  /** The digit d followed by k zeros. */
  function WithZeros(d: nat, k: nat): nat {
    if k == 0 then d else 10 * WithZeros(d, k - 1)
  }

  lemma {:induction false} ZerosCount(d: nat, k: nat)
    requires 1 <= d <= 9
    ensures WithZeros(d, k) >= 1 && |Decimal(WithZeros(d, k))| == k + 1
  {
    if k > 0 { ZerosCount(d, k - 1); }
  }

  /** The numeric meaning of the comparison for 0 <= a <= b: with b cut to as many leading digits as a
      has, the comparison is numeric. So it says "greater" of a smaller number exactly when that number
      beats the other one's leading digits, and never when both have the same number of digits. */
  lemma JsGreaterMeaning(a: nat, b: nat)
    requires a <= b
    ensures |Decimal(a)| <= |Decimal(b)|
    ensures JsGreater(a, b) <==> a > DropDigits(b, |Decimal(b)| - |Decimal(a)|)
  {
    LengthMonotone(a, b);
    var n := |Decimal(a)|;
    var k := |Decimal(b)| - n;
    LeadingDigits(b, k);
    GreaterIgnoresTail(Decimal(a), Decimal(b)[..n], Decimal(b)[n..]);
    assert Decimal(b) == Decimal(b)[..n] + Decimal(b)[n..];
    SameLengthIsNumeric(a, DropDigits(b, k));
  }

  lemma JsGreaterSameLength(a: nat, b: nat)
    requires |Decimal(a)| == |Decimal(b)|
    ensures JsGreater(a, b) <==> a > b
  {
    SameLengthIsNumeric(a, b);
  }

  lemma {:induction false} LengthMonotone(a: nat, b: nat)
    requires a <= b
    ensures |Decimal(a)| <= |Decimal(b)|
  {
    if b >= 10 && a >= 10 { LengthMonotone(a / 10, b / 10); }
  }

  lemma {:induction false} LeadingDigits(b: nat, k: nat)
    requires k < |Decimal(b)|
    ensures Decimal(DropDigits(b, k)) == Decimal(b)[..|Decimal(b)| - k]
  {
    if k > 0 {
      var top := Decimal(b / 10);
      LeadingDigits(b / 10, k - 1);
      assert Decimal(b) == top + [DigitChar(b % 10)];
      assert Decimal(b)[..|Decimal(b)| - k] == top[..|top| - (k - 1)];
    }
  }

  lemma {:induction false} GreaterIgnoresTail(x: string, y: string, z: string)
    requires |x| == |y|
    ensures StringGreater(x, y + z) <==> StringGreater(x, y)
  {
    if x != "" {
      assert (y + z)[1..] == y[1..] + z;
      GreaterIgnoresTail(x[1..], y[1..], z);
    }
  }

  lemma {:induction false} GreaterSnoc(x: string, c: char, y: string, d: char)
    requires |x| == |y|
    ensures StringGreater(x + [c], y + [d]) <==> StringGreater(x, y) || (x == y && c > d)
  {
    if x == "" {
      assert x + [c] == [c] && y + [d] == [d];
      assert [c][1..] == "" && [d][1..] == "";
    } else {
      assert (x + [c])[1..] == x[1..] + [c] && (y + [d])[1..] == y[1..] + [d];
      GreaterSnoc(x[1..], c, y[1..], d);
      assert x == [x[0]] + x[1..] && y == [y[0]] + y[1..];
    }
  }

  lemma {:induction false} SameLengthIsNumeric(a: nat, b: nat)
    requires |Decimal(a)| == |Decimal(b)|
    ensures StringGreater(Decimal(a), Decimal(b)) <==> a > b
    ensures Decimal(a) == Decimal(b) <==> a == b
  {
    if a < 10 {
      assert b < 10;
      assert [DigitChar(a)][1..] == "" && [DigitChar(b)][1..] == "";
    } else {
      assert b >= 10;
      var x, y := Decimal(a / 10), Decimal(b / 10);
      SameLengthIsNumeric(a / 10, b / 10);
      GreaterSnoc(x, DigitChar(a % 10), y, DigitChar(b % 10));
      assert Decimal(a)[..|x|] == x && Decimal(b)[..|y|] == y;
      assert Decimal(a)[|x|] == DigitChar(a % 10) && Decimal(b)[|y|] == DigitChar(b % 10);
    }
  }
}
