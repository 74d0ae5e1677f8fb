/** Money as whole ticks of 1/10000 dollar, and the one rounding the program performs:
    `Decimal.quantize` to four places, whose default mode is round-half-even. */
module Ticks {
  const DOLLAR: int := 10000

  function Abs(x: int): nat {
    if x < 0 then -x else x
  }

  function Min(a: int, b: int): int {
    if a <= b then a else b
  }

  function Max(a: int, b: int): int {
    if a <= b then b else a
  }

  /** `q` is the rounding of num/den that quantize is documented to return: a nearest
      integer, and the even one of the two when num/den lies half way between them. */
  ghost predicate IsHalfEven(num: int, den: int, q: int) {
    && -den <= 2 * (q * den - num) <= den
    && (Abs(2 * (q * den - num)) == den ==> q % 2 == 0)
  }

  function DivHalfEven(num: int, den: int): (q: int)
    requires den > 0
    ensures IsHalfEven(num, den, q)
  {
    var f := num / den;
    var r := num % den;
    assert num == f * den + r;
    assert (f + 1) * den == f * den + den;
    if 2 * r < den then f
    else if 2 * r > den then f + 1
    else if f % 2 == 0 then f
    else f + 1
  }

  function RealMin(a: real, b: real): real {
    if a <= b then a else b
  }

  lemma ProductNonNegative(a: int, b: int)
    requires a >= 0 && b >= 0
    ensures a * b == b * a >= 0
  {
  }

  /** a * (x - y), multiplied out. */
  lemma Times(a: int, x: int, y: int)
    ensures a * (x - y) == a * x - a * y
  {
  }

  /** (a - b) * x, multiplied out. */
  lemma TimesSum(a: int, b: int, x: int)
    ensures (a - b) * x == a * x - b * x
  {
  }

  lemma ScaleMonotone(a: int, b: int, den: int)
    requires a <= b && den >= 0
    ensures a * den <= b * den
  {
  }

  lemma HalfEvenNotBelow(num: int, den: int, a: int, b: int)
    requires den > 0 && IsHalfEven(num, den, a) && IsHalfEven(num, den, b)
    ensures a >= b
  {
    assert (a + 1) * den == a * den + den && (a + 2) * den == a * den + 2 * den;
    if a + 1 < b {
      ScaleMonotone(a + 2, b, den);
    } else if a + 1 == b {
    }
  }

  /** The two clauses of IsHalfEven leave no choice. */
  lemma HalfEvenUnique(num: int, den: int, q: int)
    requires den > 0
    ensures IsHalfEven(num, den, q) <==> q == DivHalfEven(num, den)
  {
    if IsHalfEven(num, den, q) {
      HalfEvenNotBelow(num, den, q, DivHalfEven(num, den));
      HalfEvenNotBelow(num, den, DivHalfEven(num, den), q);
    }
  }

  /** A whole number of ticks is stored as it is. */
  lemma HalfEvenExact(q: int, den: int)
    requires den > 0
    ensures DivHalfEven(q * den, den) == q
  {
    HalfEvenUnique(q * den, den, q);
  }

  /** Rounding never leaves an integer interval that holds the exact quotient. */
  lemma HalfEvenInHull(num: int, den: int, lo: int, hi: int)
    requires den > 0
    requires lo * den <= num <= hi * den
    ensures lo <= DivHalfEven(num, den) <= hi
  {
    var q := DivHalfEven(num, den);
    assert (q + 1) * den == q * den + den && (q - 1) * den == q * den - den;
    if q < lo { ScaleMonotone(q + 1, lo, den); }
    if q > hi { ScaleMonotone(hi, q - 1, den); }
  }
}
