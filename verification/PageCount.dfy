/** The number of pages, computed through binary64 division and Ceil. */
module PageCount {

  function Pow2(n: nat): (p: nat)
    ensures p > 0
  {
    if n == 0 then 1 else 2 * Pow2(n - 1)
  }

  const LIMIT: nat := 0x20_0000_0000_0000 // two to the 53rd

  lemma MoveTwo(p: nat, b: nat)
    ensures p * (2 * b) == (2 * p) * b == 2 * (p * b)
  {
  }

  lemma {:induction false} Pow2Adds(m: nat, n: nat)
    ensures Pow2(m + n) == Pow2(m) * Pow2(n)
  {
    if m > 0 {
      Pow2Adds(m - 1, n);
      MoveTwo(Pow2(m - 1), Pow2(n));
    }
  }

  lemma Pow2OfMantissa()
    ensures Pow2(53) == LIMIT && Pow2(52) == LIMIT / 2
  {
    assert Pow2(8) == 256;
    Pow2Adds(8, 8);
    Pow2Adds(16, 16);
    Pow2Adds(32, 16);
    assert Pow2(4) == 16;
    Pow2Adds(48, 4);
    assert Pow2(53) == 2 * Pow2(52);
  }

  // ---- binary64 ----

  /** A finite non-negative binary64 value: mantissa / 2^shift. */
  datatype Binary64 = Binary64(mantissa: nat, shift: int)

  /** The integer nearest to a / b; of two nearest the even one. */
  function RoundHalfEven(a: nat, b: nat): nat
    requires b > 0
  {
    var q, r := a / b, a % b;
    if 2 * r < b || (2 * r == b && q % 2 == 0) then q else q + 1
  }


  /** The exponent e of a quotient that is at least one: 2^e <= a / b < 2^(e + 1). */
  function ExponentUp(a: nat, b: nat): (e: nat)
    requires 0 < b <= a
    ensures Pow2(e) * b <= a < 2 * (Pow2(e) * b)
    decreases a - b
  {
    if a < 2 * b then
      assert Pow2(0) * b == b;
      0
    else
      var e := ExponentUp(a, 2 * b);
      MoveTwo(Pow2(e), b);
      e + 1
  }

  /** The exponent -k of a quotient below one: 2^-k <= a / b < 2^(1 - k). */
  function ExponentDown(a: nat, b: nat): (k: nat)
    requires 0 < a < b
    ensures k > 0 && Pow2(k) * a >= b > Pow2(k - 1) * a
    decreases b - a
  {
    if 2 * a >= b then
      assert Pow2(0) * a == a && Pow2(1) * a == 2 * a;
      1
    else
      var k := ExponentDown(2 * a, b);
      MoveTwo(Pow2(k), a);
      MoveTwo(Pow2(k - 1), a);
      k + 1
  }

  /** Correctly rounded a / b: 53 significant bits, ties to even. */
  function Quotient(a: nat, b: nat): Binary64
    requires b > 0
  {
    if a == 0 then Binary64(0, 0)
    else
      var shift: int := if a >= b then 52 - ExponentUp(a, b) else 52 + ExponentDown(a, b);
      if shift >= 0 then Binary64(RoundHalfEven(a * Pow2(shift), b), shift)
      else Binary64(RoundHalfEven(a, b * Pow2(-shift)), shift)
  }

  function Ceil(x: Binary64): nat {
    if x.shift >= 0 then (x.mantissa + Pow2(x.shift) - 1) / Pow2(x.shift)
    else x.mantissa * Pow2(-x.shift)
  }

  /** float64(n); every value of that size is an integer. */
  function FloatOfInt(n: nat): nat {
    Ceil(Quotient(n, 1))
  }

  /** int(math.Ceil(float64(total) / float64(perPage))) */
  function TotalPages(total: nat, perPage: nat): nat
    requires 1 <= perPage <= 100
  {
    FloatOfSmallInt(perPage);
    Ceil(Quotient(FloatOfInt(total), FloatOfInt(perPage)))
  }

  function CeilDiv(a: nat, b: nat): nat
    requires b > 0
  {
    (a + b - 1) / b
  }

  // ---- the quotient is correctly rounded ----

  /** No integer is nearer to a / b, and of two that are as near the even one is taken. */
  lemma RoundIsNearestEven(a: nat, b: nat)
    requires b > 0
    ensures var r := RoundHalfEven(a, b);
      && 2 * (r * b) <= 2 * a + b && 2 * a <= 2 * (r * b) + b
      && (2 * (r * b) == 2 * a + b || 2 * a == 2 * (r * b) + b ==> r % 2 == 0)
  {
    var q := a / b;
    DivMod(a, b);
    assert (q + 1) * b == q * b + b;
  }

  /** The quotient is a / b scaled to a mantissa of 53 bits and rounded (section 5.4.1 of
      IEEE 754-2019). */
  lemma QuotientIsRounded(a: nat, b: nat)
    requires a > 0 && b > 0
    ensures var x := Quotient(a, b);
      && LIMIT / 2 <= x.mantissa <= LIMIT
      && (x.shift >= 0 ==> x.mantissa == RoundHalfEven(a * Pow2(x.shift), b))
      && (x.shift < 0 ==> x.mantissa == RoundHalfEven(a, b * Pow2(-x.shift)))
  {
    hide RoundHalfEven, Pow2;
    if a < b {
      MantissaBelowOne(a, b);
    } else {
      MantissaAbove(a, b);
    }
  }

  lemma MantissaBelowOne(a: nat, b: nat)
    requires 0 < a < b
    ensures LIMIT / 2 <= RoundHalfEven(a * Pow2(52 + ExponentDown(a, b)), b) <= LIMIT
  {
    hide RoundHalfEven, Pow2;
    var k := ExponentDown(a, b);
    ScaledBelowOne(a, b, k);
    InMantissa(a * Pow2(52 + k), b);
  }

  lemma MantissaAbove(a: nat, b: nat)
    requires 0 < b <= a
    ensures var e := ExponentUp(a, b);
      if e <= 52 then LIMIT / 2 <= RoundHalfEven(a * Pow2(52 - e), b) <= LIMIT
      else LIMIT / 2 <= RoundHalfEven(a, b * Pow2(e - 52)) <= LIMIT
  {
    hide RoundHalfEven, Pow2;
    var e := ExponentUp(a, b);
    if e <= 52 {
      ScaledUp(a, b, e);
      InMantissa(a * Pow2(52 - e), b);
    } else {
      ScaledDown(a, b, e);
      InMantissa(a, b * Pow2(e - 52));
    }
  }

  lemma InMantissa(x: nat, d: nat)
    requires d > 0 && Pow2(52) * d <= x < Pow2(53) * d
    ensures LIMIT / 2 <= RoundHalfEven(x, d) <= LIMIT
  {
    Pow2OfMantissa();
    DivAtLeast(x, d, Pow2(52));
    RoundAtMost(x, d, Pow2(53));
  }

  lemma Swap(a: nat, p: nat, q: nat)
    ensures a * (p * q) == p * (q * a)
  {
  }

  lemma MulLess(a: nat, b: nat, c: nat)
    requires a < b && c > 0
    ensures c * a < c * b
  {
    MulLe(a + 1, b, c);
    assert (a + 1) * c == a * c + c;
  }

  lemma ScaledBelowOne(a: nat, b: nat, k: nat)
    requires k > 0 && Pow2(k) * a >= b > Pow2(k - 1) * a
    ensures Pow2(52) * b <= a * Pow2(52 + k) < Pow2(53) * b
  {
    Pow2Adds(52, k);
    Pow2Adds(53, k - 1);
    ScaleBelow(a, b, Pow2(k), Pow2(k - 1), Pow2(52), Pow2(53), Pow2(52 + k));
  }

  lemma ScaleBelow(a: nat, b: nat, p: nat, q: nat, h: nat, d: nat, s: nat)
    requires p * a >= b > q * a && s == h * p == d * q && d > 0
    ensures h * b <= a * s < d * b
  {
    Swap(a, h, p);
    Swap(a, d, q);
    MulLe(b, p * a, h);
    MulLess(q * a, b, d);
  }

  lemma ScaledUp(a: nat, b: nat, e: nat)
    requires e <= 52 && Pow2(e) * b <= a < 2 * (Pow2(e) * b)
    ensures Pow2(52) * b <= a * Pow2(52 - e) < Pow2(53) * b
  {
    Pow2Adds(52 - e, e);
    MoveTwo(Pow2(52), b);
    ScaleAbove(a, b, Pow2(e), Pow2(52 - e), Pow2(52));
  }

  lemma ScaleAbove(a: nat, b: nat, p: nat, s: nat, h: nat)
    requires p * b <= a < 2 * (p * b) && s * p == h && s > 0
    ensures h * b <= a * s < 2 * (h * b)
  {
    Swap(b, s, p);
    MulLe(p * b, a, s);
    MulLess(a, 2 * (p * b), s);
    MoveTwo(s, p * b);
  }

  lemma ScaledDown(a: nat, b: nat, e: nat)
    requires e > 52 && Pow2(e) * b <= a < 2 * (Pow2(e) * b)
    ensures Pow2(52) * (b * Pow2(e - 52)) <= a < Pow2(53) * (b * Pow2(e - 52))
  {
    Pow2Adds(52, e - 52);
    ScaleWhole(a, b, Pow2(e), Pow2(52), Pow2(e - 52));
    MoveTwo(Pow2(52), b * Pow2(e - 52));
  }

  lemma ScaleWhole(a: nat, b: nat, p: nat, h: nat, s: nat)
    requires p * b <= a < 2 * (p * b) && p == h * s
    ensures h * (b * s) <= a < 2 * (h * (b * s))
  {
    Swap(b, h, s);
    assert b * s == s * b;
  }

  // ---- rounding cannot cross an integer ----

  lemma DivMod(a: nat, b: nat)
    requires b > 0
    ensures a == (a / b) * b + a % b && a % b < b
  {
  }

  lemma MulLe(a: nat, b: nat, c: nat)
    requires a <= b
    ensures a * c <= b * c
  {
  }

  lemma MulCancel(a: nat, b: nat, c: nat)
    ensures a * c < b * c ==> a < b
  {
    if b <= a {
      MulLe(b, a, c);
    }
  }

  lemma DivBelow(x: nat, b: nat, k: nat)
    requires b > 0 && x < k * b
    ensures x / b < k
  {
    DivMod(x, b);
    MulCancel(x / b, k, b);
  }

  lemma DivAtLeast(x: nat, b: nat, k: nat)
    requires b > 0 && x >= k * b
    ensures x / b >= k
  {
    DivMod(x, b);
    assert (x / b + 1) * b == (x / b) * b + b;
    MulCancel(k, x / b + 1, b);
  }

  lemma RoundAtMost(x: nat, b: nat, k: nat)
    requires b > 0 && x <= k * b
    ensures RoundHalfEven(x, b) <= k
  {
    if x < k * b {
      DivBelow(x, b, k);
    } else {
      RoundExact(k, b);
    }
  }

  lemma RoundExact(k: nat, b: nat)
    requires b > 0
    ensures RoundHalfEven(k * b, b) == k
  {
    DivAtLeast(k * b, b, k);
    assert k * b < (k + 1) * b;
    DivBelow(k * b, b, k + 1);
    DivMod(k * b, b);
  }

  lemma RoundAbove(x: nat, b: nat, k: nat)
    requires b > 0 && 2 * x > 2 * (k * b) + b
    ensures RoundHalfEven(x, b) > k
  {
    DivAtLeast(x, b, k);
    DivMod(x, b);
    if x / b == k {
      assert x % b == x - k * b;
    }
  }

  lemma CeilBetween(m: nat, s: nat, c: nat)
    requires s > 0 && c > 0 && (c - 1) * s < m <= c * s
    ensures (m + s - 1) / s == c
  {
    assert (c - 1) * s == c * s - s && (c + 1) * s == c * s + s;
    DivAtLeast(m + s - 1, s, c);
    DivBelow(m + s - 1, s, c + 1);
  }

  lemma CeilDivBounds(a: nat, b: nat)
    requires a > 0 && b > 0
    ensures CeilDiv(a, b) > 0 && (CeilDiv(a, b) - 1) * b < a <= CeilDiv(a, b) * b
  {
    var c := CeilDiv(a, b);
    DivAtLeast(a + b - 1, b, 1);
    DivMod(a + b - 1, b);
    assert (c - 1) * b == c * b - b;
  }

  /** Scaled by s, the quotient lies at least one s-th above the integer below its
      ceiling, which is more than half of b / s wide: rounding stays above it. */
  lemma ScaledCeil(a: nat, b: nat, s: nat)
    requires a > 0 && b > 0 && 2 * s > b
    ensures (RoundHalfEven(a * s, b) + s - 1) / s == CeilDiv(a, b)
  {
    hide RoundHalfEven, CeilDiv;
    CeilDivBounds(a, b);
    var c := CeilDiv(a, b);
    Scale(a, b, s, c);
    RoundAtMost(a * s, b, c * s);
    RoundAbove(a * s, b, (c - 1) * s);
    CeilBetween(RoundHalfEven(a * s, b), s, c);
  }

  lemma Scale(a: nat, b: nat, s: nat, c: nat)
    requires c > 0 && (c - 1) * b < a <= c * b
    ensures ((c - 1) * s) * b + s <= a * s <= (c * s) * b
  {
    MulLe(a, c * b, s);
    MulLe((c - 1) * b + 1, a, s);
    assert (c * b) * s == (c * s) * b;
    assert ((c - 1) * b + 1) * s == ((c - 1) * b) * s + s;
    assert ((c - 1) * b) * s == ((c - 1) * s) * b;
  }

  lemma {:induction false} Pow2Grows(m: nat, n: nat)
    requires m <= n
    ensures Pow2(m) <= Pow2(n)
  {
    Pow2Adds(m, n - m);
    assert Pow2(m) * Pow2(n - m) >= Pow2(m);
  }

  /** Below the limit the Ceil of the rounded quotient is the Ceil of the quotient. */
  lemma QuotientCeil(a: nat, b: nat)
    requires a <= LIMIT && 1 <= b <= 100
    ensures Ceil(Quotient(a, b)) == CeilDiv(a, b)
  {
    Pow2OfMantissa();
    if a == 0 {
      assert CeilDiv(0, b) == 0;
      assert Ceil(Binary64(0, 0)) == 0;
    } else if a < b {
      var k := ExponentDown(a, b);
      Pow2Grows(52, 52 + k);
      ScaledCeil(a, b, Pow2(52 + k));
    } else {
      QuotientCeilUp(a, b);
    }
  }

  lemma QuotientCeilUp(a: nat, b: nat)
    requires 0 < b <= a <= LIMIT
    ensures Ceil(Quotient(a, b)) == CeilDiv(a, b)
  {
    hide CeilDiv, RoundHalfEven;
    Pow2OfMantissa();
    var e := ExponentUp(a, b);
    ExponentFits(a, b, e);
    if e == 53 {
      WholeLimit(a, b);
    } else {
      ScaleFits(a, b, e);
      if b == 2 * Pow2(52 - e) {
        ExactCeil(a, b, Pow2(52 - e), Pow2(e));
      } else {
        ScaledCeil(a, b, Pow2(52 - e));
      }
    }
  }

  lemma ExponentFits(a: nat, b: nat, e: nat)
    requires 0 < b <= a <= LIMIT && Pow2(e) * b <= a
    ensures e <= 53
    ensures e == 53 ==> b == 1 && a == LIMIT
  {
    Pow2OfMantissa();
    MulLe(1, b, Pow2(e));
    if e >= 54 {
      Pow2Grows(54, e);
    } else if e == 53 {
      assert Pow2(53) * b == LIMIT * b;
    }
  }

  /** The mantissa has room for the quotient: b <= 2^(53 - e). */
  lemma ScaleFits(a: nat, b: nat, e: nat)
    requires 0 < b <= a <= LIMIT && Pow2(e) * b <= a && e <= 52
    ensures b <= 2 * Pow2(52 - e)
    ensures b == 2 * Pow2(52 - e) ==> a == Pow2(e) * b
  {
    var s := Pow2(52 - e);
    MantissaSplit(e);
    MulFits(b, 2 * s, Pow2(e));
  }

  lemma MantissaSplit(e: nat)
    requires e <= 52
    ensures (2 * Pow2(52 - e)) * Pow2(e) == LIMIT
  {
    Pow2OfMantissa();
    Pow2Adds(52 - e, e);
    MoveTwo(Pow2(52 - e), Pow2(e));
  }

  lemma MulFits(b: nat, u: nat, t: nat)
    requires t > 0
    ensures t * b <= u * t ==> b <= u
    ensures b == u ==> t * b == u * t
  {
    if u < b {
      MulLe(u + 1, b, t);
      assert (u + 1) * t == u * t + t;
      assert t * b == b * t;
    }
  }

  /** An exact quotient is not rounded. */
  lemma ExactCeil(a: nat, b: nat, s: nat, q: nat)
    requires b > 0 && s > 0 && a == q * b && q > 0
    ensures (RoundHalfEven(a * s, b) + s - 1) / s == CeilDiv(a, b)
  {
    assert a * s == (q * s) * b;
    RoundExact(q * s, b);
    assert (q - 1) * s == q * s - s;
    CeilBetween(q * s, s, q);
    assert (q - 1) * b == q * b - b;
    CeilBetween(a, b, q);
  }

  lemma WholeLimit(a: nat, b: nat)
    requires b == 1 && a == LIMIT && ExponentUp(a, b) == 53
    ensures Ceil(Quotient(a, b)) == CeilDiv(a, b)
  {
    assert Pow2(1) == 2;
    RoundExact(LIMIT / 2, 2);
  }

  lemma FloatOfSmallInt(n: nat)
    requires n <= LIMIT
    ensures FloatOfInt(n) == n
  {
    QuotientCeil(n, 1);
  }

  lemma PageCountExact(total: nat, perPage: nat)
    requires total <= LIMIT && 1 <= perPage <= 100
    ensures TotalPages(total, perPage) == CeilDiv(total, perPage)
  {
    FloatOfSmallInt(total);
    FloatOfSmallInt(perPage);
    QuotientCeil(total, perPage);
  }

  lemma ExponentPastLimit()
    ensures ExponentUp(LIMIT + 1, 1) == 53
  {
    Pow2OfMantissa();
    var e := ExponentUp(LIMIT + 1, 1);
    if e <= 52 {
      Pow2Grows(e, 52);
    } else if e >= 54 {
      Pow2Grows(54, e);
    }
  }

  /** One user more than the limit, one per page: a page is lost. */
  lemma PageLost()
    ensures TotalPages(LIMIT + 1, 1) == LIMIT
  {
    ExponentPastLimit();
    assert Pow2(1) == 2;
    assert RoundHalfEven(LIMIT + 1, 2) == LIMIT / 2;
    assert FloatOfInt(LIMIT + 1) == LIMIT;
    FloatOfSmallInt(1);
    QuotientCeil(LIMIT, 1);
  }

  /** The page count is right for all totals up to a bound exactly when the bound is at
      most 2^53, whatever the page size. */
  lemma PageCountRightIff(bound: nat)
    ensures (forall total: nat, perPage: nat :: total <= bound && 1 <= perPage <= 100 ==>
               TotalPages(total, perPage) == CeilDiv(total, perPage))
            <==> bound <= LIMIT
  {
    if bound <= LIMIT {
      forall total: nat, perPage: nat | total <= bound && 1 <= perPage <= 100
        ensures TotalPages(total, perPage) == CeilDiv(total, perPage)
      {
        PageCountExact(total, perPage);
      }
    } else {
      PageLost();
      assert TotalPages(LIMIT + 1, 1) != CeilDiv(LIMIT + 1, 1);
    }
  }
}
