/**
 Exact decimal money and the one rounding step every deduction uses.

 Python's `Decimal` values are exact finite decimals, so sums, differences,
 products, `min`, `max` and comparisons of amounts agree with arithmetic on
 Dafny's `real`. `quantize(Decimal('0.01'))` under the default decimal context
 rounds to the nearest cent and breaks ties towards the even cent
 (ROUND_HALF_EVEN); `Round2` models exactly that.
 */
module Money {

  /** An amount that is a whole number of cents. */
  predicate WholeCents(x: real) {
    (x * 100.0).Floor as real == x * 100.0
  }

  function Min(a: real, b: real): real {
    if a <= b then a else b
  }

  function Max(a: real, b: real): real {
    if a >= b then a else b
  }

  /** The distance between two reals. */
  function Dist(a: real, b: real): real {
    if a >= b then a - b else b - a
  }

  /** Nearest integer to `x`; a value exactly half-way between two integers
      goes to the even one. */
  function RoundHalfEven(x: real): (n: int)
    ensures Dist(x, n as real) <= 0.5
    ensures Dist(x, n as real) == 0.5 ==> n % 2 == 0
  {
    var f := x.Floor;
    var d := x - f as real;
    if d < 0.5 then f
    else if d > 0.5 then f + 1
    else if f % 2 == 0 then f
    else f + 1
  }

  /** A whole-cent amount whose number of cents is even. */
  predicate EvenCents(r: real) {
    (r * 100.0).Floor % 2 == 0
  }

  /** `r` is a cent nearest to `x`, and the even one when `x` lies exactly
      half-way between two cents. */
  predicate NearestEvenCent(x: real, r: real) {
    && WholeCents(r)
    && Dist(x, r) <= 0.005
    && (Dist(x, r) == 0.005 ==> EvenCents(r))
  }

  /** `Decimal.quantize(Decimal('0.01'))` with the default (half-even) context. */
  function Round2(x: real): (r: real)
    ensures WholeCents(r)
    ensures Dist(x, r) <= 0.005
    ensures Dist(x, r) == 0.005 ==> EvenCents(r)
  {
    var n := RoundHalfEven(x * 100.0);
    assert (n as real / 100.0) * 100.0 == n as real;
    n as real / 100.0
  }

  /** The half-even rounding is the only integer that is nearest and, on a tie, even. */
  lemma RoundHalfEvenUnique(x: real, m: int)
    requires Dist(x, m as real) <= 0.5
    requires Dist(x, m as real) == 0.5 ==> m % 2 == 0
    ensures m == RoundHalfEven(x)
  {
    // Two distinct integers within 1/2 of x would be exactly 1 apart with x as their
    // midpoint, and they cannot both be even.
  }

  /** Rounding to an integer is monotone. */
  lemma RoundHalfEvenMonotone(x: real, y: real)
    requires x <= y
    ensures RoundHalfEven(x) <= RoundHalfEven(y)
  {
    var a := RoundHalfEven(x);
    var b := RoundHalfEven(y);
    if a > b {
      // Then a == b + 1 and x == y, so b is a second half-even rounding of x.
      RoundHalfEvenUnique(x, b);
    }
  }

  /** `Round2` is the one nearest cent that breaks ties to the even cent. */
  lemma Round2Characterised(x: real, r: real)
    ensures NearestEvenCent(x, r) <==> r == Round2(x)
  {
    if NearestEvenCent(x, r) {
      var k := (r * 100.0).Floor;
      assert r * 100.0 == k as real;
      assert Dist(x * 100.0, k as real) == 100.0 * Dist(x, r);
      RoundHalfEvenUnique(x * 100.0, k);
    }
  }

  /** `Round2` is monotone. */
  lemma Round2Monotone(x: real, y: real)
    requires x <= y
    ensures Round2(x) <= Round2(y)
  {
    RoundHalfEvenMonotone(x * 100.0, y * 100.0);
  }

  /** `Round2` leaves an amount that is already in whole cents unchanged. */
  lemma Round2OfWholeCents(x: real)
    requires WholeCents(x)
    ensures Round2(x) == x
  {
    var k := (x * 100.0).Floor;
    RoundHalfEvenUnique(x * 100.0, k);
  }

  /** `Round2` returns its argument exactly when the argument is in whole cents. */
  lemma Round2FixedIff(x: real)
    ensures Round2(x) == x <==> WholeCents(x)
  {
    if WholeCents(x) {
      Round2OfWholeCents(x);
    }
  }

  lemma FloorOfInteger(n: int)
    ensures (n as real).Floor == n
  {
  }

  /** The sum and difference of whole-cent amounts are whole-cent amounts. */
  lemma WholeCentsClosed(a: real, b: real)
    requires WholeCents(a) && WholeCents(b)
    ensures WholeCents(a + b) && WholeCents(a - b)
  {
    var i := (a * 100.0).Floor;
    var j := (b * 100.0).Floor;
    assert (a + b) * 100.0 == (i + j) as real;
    assert (a - b) * 100.0 == (i - j) as real;
    FloorOfInteger(i + j);
    FloorOfInteger(i - j);
  }

  /** Every integer amount is a whole-cent amount. */
  lemma IntegerIsWholeCents(n: int)
    ensures WholeCents(n as real)
  {
    assert (n as real) * 100.0 == (n * 100) as real;
  }

  /** Rounding a non-negative amount never more than doubles it. */
  lemma Round2AtMostDouble(x: real)
    requires x >= 0.0
    ensures 0.0 <= Round2(x) <= 2.0 * x
  {
    Round2Monotone(0.0, x);
    Round2OfWholeCents(0.0);
    if x < 0.005 {
      assert RoundHalfEven(x * 100.0) == 0;
    }
  }

  /** Where the rounding mode matters: 0.025 rounds down to 0.02 (half-up would give 0.03),
      and 0.015 rounds up to 0.02. */
  lemma Round2TiesToEven()
    ensures Round2(0.025) == 0.02
    ensures Round2(0.015) == 0.02
    ensures Round2(0.005) == 0.0
  {
    RoundHalfEvenUnique(2.5, 2);
    RoundHalfEvenUnique(1.5, 2);
    RoundHalfEvenUnique(0.5, 0);
  }
}
