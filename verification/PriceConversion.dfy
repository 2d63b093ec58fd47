/**
 The two price conversions (packages/shared/src/functions.ts, `getPriceX128FromPrice` and
 `getPriceFromPriceX128`). Multiplication and `shiftedBy` are exact; `dividedBy` keeps 20 decimal places and
 `toFixed(0)` none, both rounding half away from zero, which are the defaults of BigNumber.
 */
module PriceConversion {
  import opened Prelude

  /** mantissa times ten to the power exponent. */
  datatype Decimal = Decimal(mantissa: int, exponent: int)

  const TWO_128 := 0x1_0000_0000_0000_0000_0000_0000_0000_0000
  const TEN_20 := 100_000_000_000_000_000_000
  const DECIMAL_PLACES := 20

  function Pow10(n: nat): nat { if n == 0 then 1 else 10 * Pow10(n - 1) }

  /** n / d rounded to an integer, halves away from zero. */
  function RoundDiv(n: int, d: nat): int
    requires d > 0
  {
    if n >= 0 then (2 * n + d) / (2 * d) else -((2 * -n + d) / (2 * d))
  }

  function Shift(x: Decimal, places: int): Decimal { x.(exponent := x.exponent + places) }

  /** x * 2^128 and n / 2^128. */
  function Times(x: Decimal): Decimal { x.(mantissa := x.mantissa * TWO_128) }

  function DividedBy(n: int): Decimal { Decimal(RoundDiv(n * TEN_20, TWO_128), -DECIMAL_PLACES) }

  function Numerator(x: Decimal): int { x.mantissa * Pow10(Max(0, x.exponent)) }

  function Denominator(x: Decimal): nat { Pow10(Max(0, -x.exponent)) }

  /** `toFixed(0)`. */
  function ToInteger(x: Decimal): int {
    PowPositive(Max(0, -x.exponent));
    RoundDiv(Numerator(x), Denominator(x))
  }

  /** The arguments src and dest are the numbers of decimals of the two assets. */
  function PriceX128(price: Decimal, src: nat, dest: nat): int { ToInteger(Shift(Times(price), dest - src)) }

  function Price(x128: int, src: nat, dest: nat): Decimal { Shift(DividedBy(x128), src - dest) }

  /** The order and the equality of the numbers that decimals stand for. */
  predicate AtMost(x: Decimal, y: Decimal) {
    x.mantissa * Pow10(Max(0, x.exponent - y.exponent)) <= y.mantissa * Pow10(Max(0, y.exponent - x.exponent))
  }

  predicate SameNumber(x: Decimal, y: Decimal) { AtMost(x, y) && AtMost(y, x) }

  // ---------- Arithmetic ----------

  lemma {:induction false} PowPositive(n: nat)
    ensures Pow10(n) > 0
  {
    if n > 0 { PowPositive(n - 1); }
  }

  lemma {:induction false} PowAdds(m: nat, n: nat)
    ensures Pow10(m + n) == Pow10(m) * Pow10(n)
  {
    if m > 0 {
      PowAdds(m - 1, n);
      assert m + n - 1 == (m - 1) + n;
      Associate(10, Pow10(m - 1), Pow10(n));
    }
  }

  lemma CancelLe(a: int, b: int, c: nat)
    requires c > 0 && a * c <= b * c
    ensures a <= b
  {
    if a > b { MultiplyLe(b + 1, a, c); }
  }

  lemma CancelLt(a: int, b: int, c: nat)
    requires c > 0 && a * c < b * c
    ensures a < b
  {
    if a >= b { MultiplyLe(b, a, c); }
  }

  lemma Quotient(n: nat, d: nat)
    requires d > 0
    ensures (n / d) * d <= n < (n / d) * d + d
  {
  }

  lemma HalfUp(m: nat, d: nat)
    requires d > 0
    ensures var q := (2 * m + d) / (2 * d); 2 * (q * d) <= 2 * m + d < 2 * (q * d) + 2 * d
  {
    var q := (2 * m + d) / (2 * d);
    Quotient(2 * m + d, 2 * d);
    assert q * (2 * d) == 2 * (q * d);
  }

  /** The rounded quotient is within one half of the exact one. */
  lemma RoundDivIsNear(n: int, d: nat)
    requires d > 0
    ensures 2 * (RoundDiv(n, d) * d) - d <= 2 * n <= 2 * (RoundDiv(n, d) * d) + d
    ensures n >= 0 ==> RoundDiv(n, d) >= 0 && 2 * n < 2 * (RoundDiv(n, d) * d) + d
    ensures n <= 0 ==> RoundDiv(n, d) <= 0 && 2 * (RoundDiv(n, d) * d) - d < 2 * n
  {
    if n >= 0 {
      HalfUp(n, d);
      if n == 0 { CancelLt(RoundDiv(n, d), 1, 2 * d); }
    } else {
      HalfUp(-n, d);
      var q := (2 * -n + d) / (2 * d);
      assert (-q) * d == -(q * d);
    }
  }

  /** And it is the only integer strictly within one half. */
  lemma RoundDivIs(n: int, d: nat, q: int)
    requires d > 0 && 2 * (q * d) - d < 2 * n < 2 * (q * d) + d
    ensures RoundDiv(n, d) == q
  {
    RoundDivIsNear(n, d);
    NearestIsUnique(RoundDiv(n, d), q, d, 2 * n);
  }

  lemma NearestIsUnique(r: int, q: int, d: nat, twice: int)
    requires d > 0 && 2 * (q * d) - d < twice < 2 * (q * d) + d && 2 * (r * d) - d <= twice <= 2 * (r * d) + d
    ensures r == q
  {
    var c := r - q;
    assert c * d == r * d - q * d;
    if c >= 1 { MultiplyLe(1, c, d); }
    if c <= -1 { MultiplyLe(c, -1, d); }
  }

  lemma RoundDivIsMonotone(n: int, d: nat, m: int, e: nat)
    requires d > 0 && e > 0 && n * e <= m * d
    ensures RoundDiv(n, d) <= RoundDiv(m, e)
  {
    var q, r := RoundDiv(n, d), RoundDiv(m, e);
    RoundDivIsNear(n, d);
    RoundDivIsNear(m, e);
    if n <= 0 <= m {
    } else {
      if n > 0 { CancelLe(0, m, d) by { assert n * e >= 0; } }
      if m < 0 { if n >= 0 { assert n * e >= 0; MultiplyLe(m, -1, d); } }
      if q >= r + 1 { RoundDivOrder(n, d, m, e, q, r); }
    }
  }

  lemma RoundDivOrder(n: int, d: nat, m: int, e: nat, q: int, r: int)
    requires d > 0 && e > 0 && n * e <= m * d && q >= r + 1
    requires 2 * (q * d) - d <= 2 * n && 2 * m <= 2 * (r * e) + e
    ensures 2 * (q * d) - d == 2 * n && 2 * m == 2 * (r * e) + e
  {
    Ends(q, r, d, e);
    Squeeze(2 * (q * d) - d, 2 * n, 2 * m, 2 * (r * e) + e, d, e) by {
      assert 2 * n * e == 2 * (n * e) && 2 * m * d == 2 * (m * d);
    }
  }

  lemma Ends(q: int, r: int, d: nat, e: nat)
    requires q >= r + 1
    ensures (2 * (q * d) - d) * e >= (2 * (r * e) + e) * d
  {
    var k := d * e;
    assert (2 * (q * d) - d) * e == (2 * q - 1) * k by { Associate(2 * q - 1, d, e); }
    assert (2 * (r * e) + e) * d == (2 * r + 1) * k by { Associate(2 * r + 1, e, d); }
    MultiplyLe(2 * r + 1, 2 * q - 1, k);
  }

  lemma Squeeze(a: int, n: int, m: int, b: int, d: nat, e: nat)
    requires d > 0 && e > 0 && a <= n && m <= b && n * e <= m * d && a * e >= b * d
    ensures a == n && m == b
  {
    MultiplyLe(a, n, e);
    MultiplyLe(m, b, d);
    if a < n { MultiplyLe(a + 1, n, e); }
    if m < b { MultiplyLe(m + 1, b, d); }
  }

  // ---------- Both conversions without exponents ----------

  /** The price as a fraction of the smallest units of the two assets. */
  function UnitPrice(price: Decimal, src: nat, dest: nat): Decimal { Shift(price, dest - src) }

  lemma X128OfUnits(price: Decimal, src: nat, dest: nat)
    ensures var u := UnitPrice(price, src, dest);
            Denominator(u) > 0 && PriceX128(price, src, dest) == RoundDiv(Numerator(u) * TWO_128, Denominator(u))
  {
    var u := UnitPrice(price, src, dest);
    PowPositive(Max(0, -u.exponent));
    assert Numerator(Shift(Times(price), dest - src)) == Numerator(u) * TWO_128;
  }

  /** Rounding q * p / t and multiplying back loses nothing when t < p. */
  lemma InnerRoundingIsAbsorbed(q: int, x: int)
    requires x == RoundDiv(q * TWO_128, TEN_20)
    ensures RoundDiv(x * TEN_20, TWO_128) == q
  {
    RoundDivIsNear(q * TWO_128, TEN_20);
    RoundDivIs(x * TEN_20, TWO_128, q);
  }

  // ---------- What the conversions compute ----------

  function Power(b: nat, n: nat): nat { if n == 0 then 1 else b * Power(b, n - 1) }

  lemma {:induction false} PowerAdds(b: nat, m: nat, n: nat)
    ensures Power(b, m + n) == Power(b, m) * Power(b, n)
  {
    if m > 0 {
      PowerAdds(b, m - 1, n);
      Associate(b, Power(b, m - 1), Power(b, n));
    }
  }

  lemma {:induction false} Pow10IsPower(n: nat)
    ensures Pow10(n) == Power(10, n)
  {
    if n > 0 { Pow10IsPower(n - 1); }
  }

  lemma PowerOfTwo()
    ensures Power(2, 128) == TWO_128
  {
    assert Power(2, 4) == 16;
    PowerAdds(2, 4, 4);
    PowerAdds(2, 8, 8);
    PowerAdds(2, 16, 16);
    PowerAdds(2, 32, 32);
    PowerAdds(2, 64, 64);
  }

  lemma PowerOfTen()
    ensures Power(10, 20) == TEN_20
  {
    PowTwenty();
    Pow10IsPower(20);
  }

  /**
   MAIN RESULT. The X128 value is the integer nearest to the price times 2^128 times ten to the difference of the
   decimals: exactly that if it is whole, and a half rounds away from zero.
   */
  lemma X128IsNearest(price: Decimal, src: nat, dest: nat)
    ensures var e, x := price.exponent + dest - src, PriceX128(price, src, dest);
            if e >= 0 then x == price.mantissa * Power(10, e) * Power(2, 128)
            else
              var d: int := Power(10, -e);
              var twice := 2 * (x * d - price.mantissa * Power(2, 128));
              -d <= twice <= d && (price.mantissa >= 0 ==> -d < twice) && (price.mantissa <= 0 ==> twice < d)
  {
    var u := UnitPrice(price, src, dest);
    X128OfUnits(price, src, dest);
    PowerOfTwo();
    assert Pow10(0) == 1;
    if u.exponent >= 0 {
      Pow10IsPower(u.exponent);
      RoundDivIs(Numerator(u) * TWO_128, 1, Numerator(u) * TWO_128);
    } else {
      Pow10IsPower(-u.exponent);
      RoundDivIsNear(Numerator(u) * TWO_128, Denominator(u));
    }
  }

  /** MAIN RESULT. The price has twenty decimals more or less the difference of the assets', and is the nearest such. */
  lemma PriceIsNearest(x128: int, src: nat, dest: nat)
    ensures var price, unit: int := Price(x128, src, dest), Power(2, 128);
            price.exponent == src - dest - 20 && -unit <= 2 * (price.mantissa * unit - x128 * Power(10, 20)) <= unit
  {
    PowerOfTwo();
    PowerOfTen();
    RoundDivIsNear(x128 * TEN_20, TWO_128);
  }

  // ---------- The results ----------

  /**
   MAIN RESULT. Converting a price to X128 and back gives the same price, for every price that came
   from an X128 value.
   */
  lemma PriceSurvivesRoundTrip(x128: int, src: nat, dest: nat)
    ensures Price(PriceX128(Price(x128, src, dest), src, dest), src, dest) == Price(x128, src, dest)
  {
    var q := RoundDiv(x128 * TEN_20, TWO_128);
    var price := Price(x128, src, dest);
    X128OfUnits(price, src, dest);
    assert UnitPrice(price, src, dest) == Decimal(q, -DECIMAL_PLACES);
    PowTwenty();
    InnerRoundingIsAbsorbed(q, PriceX128(price, src, dest));
  }

  lemma PowTwenty()
    ensures Pow10(DECIMAL_PLACES) == TEN_20 && Pow10(0) == 1
  {
    PowAdds(10, 10);
    PowAdds(5, 5);
    assert Pow10(5) == 100_000;
  }

  /** The number times ten to the twentieth is the integer q. */
  predicate IsTwentieths(x: Decimal, q: int) { Numerator(x) * TEN_20 == q * Denominator(x) }

  /**
   MAIN RESULT. A price comes back exactly if and only if, in smallest units, it has at most twenty decimal
   places; for the others the error is at most half of (2^-128 + 10^-20) in those units.
   */
  lemma ExactExactlyAtTwentyPlaces(price: Decimal, src: nat, dest: nat)
    ensures var back := Price(PriceX128(price, src, dest), src, dest);
            SameNumber(back, price) <==> exists q :: IsTwentieths(UnitPrice(price, src, dest), q)
  {
    var u := UnitPrice(price, src, dest);
    var x := PriceX128(price, src, dest);
    var back := Price(x, src, dest);
    var n := RoundDiv(x * TEN_20, TWO_128);
    X128OfUnits(price, src, dest);
    assert Shift(back, dest - src) == Decimal(n, -DECIMAL_PLACES);
    ShiftKeepsOrder(back, price, dest - src);
    ShiftKeepsOrder(price, back, dest - src);
    TwentiethsAreTheseNumbers(u, n);
    if exists q :: IsTwentieths(u, q) {
      var q :| IsTwentieths(u, q);
      SameQuotient(Numerator(u), Denominator(u), q);
      InnerRoundingIsAbsorbed(q, x);
    }
  }

  lemma ShiftKeepsOrder(x: Decimal, y: Decimal, places: int)
    ensures AtMost(Shift(x, places), Shift(y, places)) <==> AtMost(x, y)
  {
  }

  /** a / b == q / t gives the same X128 value. */
  lemma SameQuotient(a: int, b: nat, q: int)
    requires b > 0 && a * TEN_20 == q * b
    ensures RoundDiv(a * TWO_128, b) == RoundDiv(q * TWO_128, TEN_20)
  {
    assert (a * TWO_128) * TEN_20 == (q * TWO_128) * b by {
      assert (a * TWO_128) * TEN_20 == (a * TEN_20) * TWO_128;
      assert (q * TWO_128) * b == (q * b) * TWO_128;
    }
    RoundDivIsMonotone(a * TWO_128, b, q * TWO_128, TEN_20);
    RoundDivIsMonotone(q * TWO_128, TEN_20, a * TWO_128, b);
  }

  /** Comparing decimals is comparing their fractions. */
  lemma AtMostIsCrosswise(x: Decimal, y: Decimal)
    ensures AtMost(x, y) <==> Numerator(x) * Denominator(y) <= Numerator(y) * Denominator(x)
  {
    assert Pow10(0) == 1;
    if x.exponent >= y.exponent {
      var c := CommonScale(x, y);
      SameOrder(x.mantissa * Pow10(x.exponent - y.exponent), y.mantissa, c);
    } else {
      var c := CommonScale(y, x);
      SameOrder(x.mantissa, y.mantissa * Pow10(y.exponent - x.exponent), c);
    }
  }

  lemma CommonScale(x: Decimal, y: Decimal) returns (c: nat)
    requires x.exponent >= y.exponent
    ensures c > 0 && Numerator(y) * Denominator(x) == y.mantissa * c
    ensures Numerator(x) * Denominator(y) == x.mantissa * Pow10(x.exponent - y.exponent) * c
  {
    assert Pow10(0) == 1;
    var gap := Pow10(x.exponent - y.exponent);
    if y.exponent >= 0 {
      c := Pow10(y.exponent);
      PowPositive(y.exponent);
      PowAdds(x.exponent - y.exponent, y.exponent);
      Associate(x.mantissa, gap, c);
    } else if x.exponent >= 0 {
      c := 1;
      PowAdds(x.exponent, -y.exponent);
      Associate(x.mantissa, Pow10(x.exponent), Pow10(-y.exponent));
    } else {
      c := Pow10(-x.exponent);
      PowPositive(-x.exponent);
      PowAdds(x.exponent - y.exponent, -x.exponent);
      Associate(x.mantissa, gap, c);
    }
  }

  lemma SameOrder(a: int, b: int, c: nat)
    requires c > 0
    ensures a * c <= b * c <==> a <= b
  {
    if a <= b { MultiplyLe(a, b, c); } else { MultiplyLe(b + 1, a, c); }
  }

  lemma TwentiethsAreTheseNumbers(u: Decimal, n: int)
    ensures SameNumber(Decimal(n, -DECIMAL_PLACES), u) <==> IsTwentieths(u, n)
  {
    var x := Decimal(n, -DECIMAL_PLACES);
    PowTwenty();
    AtMostIsCrosswise(x, u);
    AtMostIsCrosswise(u, x);
  }

  /** MAIN RESULT. How far any price can move: n / 10^20 and a / b differ by at most half of 2^-128 + 10^-20. */
  lemma ErrorIsBounded(price: Decimal, src: nat, dest: nat)
    ensures var u := UnitPrice(price, src, dest);
            var n := UnitPrice(Price(PriceX128(price, src, dest), src, dest), src, dest).mantissa;
            var error := 2 * TWO_128 * (n * Denominator(u) - Numerator(u) * TEN_20);
            -(Denominator(u) * (TEN_20 + TWO_128)) <= error <= Denominator(u) * (TEN_20 + TWO_128)
  {
    var u := UnitPrice(price, src, dest);
    var x := PriceX128(price, src, dest);
    X128OfUnits(price, src, dest);
    RoundDivIsNear(Numerator(u) * TWO_128, Denominator(u));
    RoundDivIsNear(x * TEN_20, TWO_128);
    ErrorsAddUp(Numerator(u), Denominator(u), x, RoundDiv(x * TEN_20, TWO_128), TWO_128, TEN_20);
  }

  lemma ErrorsAddUp(a: int, b: int, x: int, n: int, p: int, t: int)
    requires b >= 0 && p >= 0 && t >= 0
    requires -b <= 2 * (x * b) - 2 * (a * p) <= b && -p <= 2 * (n * p) - 2 * (x * t) <= p
    ensures -(b * (t + p)) <= 2 * p * (n * b - a * t) <= b * (t + p)
  {
    var inner, outer := 2 * (x * b) - 2 * (a * p), 2 * (n * p) - 2 * (x * t);
    MultiplyLe(outer, p, b);
    MultiplyLe(-p, outer, b);
    MultiplyLe(inner, b, t);
    MultiplyLe(-b, inner, t);
    Spread(n * p, x * t, b);
    Spread(x * b, a * p, t);
    Associate(x, t, b);
    Associate(x, b, t);
    Associate(n, p, b);
    Associate(n, b, p);
    Associate(a, p, t);
    Associate(a, t, p);
    Spread(n * b, a * t, p);
  }

  lemma Spread(u: int, v: int, c: int)
    ensures (2 * u - 2 * v) * c == 2 * (u * c) - 2 * (v * c) && 2 * c * (u - v) == 2 * (u * c) - 2 * (v * c)
  {
  }

  /** MAIN RESULT. Both conversions keep the order of their arguments. */
  lemma X128IsMonotone(p: Decimal, q: Decimal, src: nat, dest: nat)
    requires AtMost(p, q)
    ensures PriceX128(p, src, dest) <= PriceX128(q, src, dest)
  {
    var u, v := UnitPrice(p, src, dest), UnitPrice(q, src, dest);
    X128OfUnits(p, src, dest);
    X128OfUnits(q, src, dest);
    ShiftKeepsOrder(p, q, dest - src);
    AtMostIsCrosswise(u, v);
    QuotientOrder(Numerator(u), Denominator(u), Numerator(v), Denominator(v));
  }

  lemma QuotientOrder(a: int, b: nat, c: int, d: nat)
    requires b > 0 && d > 0 && a * d <= c * b
    ensures RoundDiv(a * TWO_128, b) <= RoundDiv(c * TWO_128, d)
  {
    assert a * TWO_128 * d == (a * d) * TWO_128;
    assert c * TWO_128 * b == (c * b) * TWO_128;
    RoundDivIsMonotone(a * TWO_128, b, c * TWO_128, d);
  }

  lemma PriceIsMonotone(x: int, y: int, src: nat, dest: nat)
    requires x <= y
    ensures AtMost(Price(x, src, dest), Price(y, src, dest))
  {
    RoundDivIsMonotone(x * TEN_20, TWO_128, y * TEN_20, TWO_128);
    assert Pow10(0) == 1;
  }
}
