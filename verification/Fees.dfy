/** The exchange's parabolic fee: per contract, rate * P * (1 - P) rounded up to a whole
    cent for a taker, and a quarter of that for a maker. */
module Fees {
  import opened Ticks

  function Ceil(x: real): (c: int)
    ensures (c - 1) as real < x <= c as real
  {
    -((-x).Floor)
  }

  /** P * (1 - P), in squared ticks. */
  function Parabola(price: int): int {
    price * (DOLLAR - price)
  }

  function Cents(rate: real, parabola: int): real {
    rate * parabola as real / 1000000.0
  }

  /** The unrounded fee of one contract, in cents. */
  function RawCents(price: int, rate: real): real {
    Cents(rate, Parabola(price))
  }

  function TakerFee(price: int, rate: real): int {
    100 * Ceil(RawCents(price, rate))
  }

  function MakerFee(price: int, rate: real): int {
    25 * Ceil(RawCents(price, rate))
  }

  function FeePerContract(price: int, isTaker: bool, rate: real): int {
    if isTaker then TakerFee(price, rate) else MakerFee(price, rate)
  }

  function TotalFee(contracts: int, price: int, isTaker: bool, rate: real): int {
    FeePerContract(price, isTaker, rate) * contracts
  }

  lemma CeilMonotone(x: real, y: real)
    requires x <= y
    ensures Ceil(x) <= Ceil(y)
  {
  }

  /** Rounded up to whole units. */
  lemma CeilUnits(x: real, unit: nat)
    requires x >= 0.0 && (unit == 25 || unit == 100)
    ensures (unit * Ceil(x)) % unit == 0 && 0 <= unit * Ceil(x)
    ensures x * unit as real <= (unit * Ceil(x)) as real < x * unit as real + unit as real
  {
  }

  lemma Square(d: int)
    ensures d * d >= 0
  {
  }

  lemma ParabolaShape(price: int)
    requires 0 <= price <= DOLLAR
    ensures 0 <= Parabola(price) <= Parabola(DOLLAR / 2)
    ensures Parabola(DOLLAR - price) == Parabola(price)
  {
    var d := price - 5000;
    assert price * (DOLLAR - price) == (5000 + d) * (5000 - d) == 25000000 - d * d;
    Square(d);
    ProductNonNegative(price, DOLLAR - price);
  }

  lemma CentsMonotone(rate: real, x: int, y: int)
    requires rate >= 0.0 && 0 <= x <= y
    ensures 0.0 <= Cents(rate, x) <= Cents(rate, y)
  {
    assert rate * x as real <= rate * y as real;
    assert 0.0 <= rate * x as real;
  }

  /** The fee is a whole number of cents (a quarter of one for makers), covers the exact
      parabola, exceeds it by less than one cent (a quarter for makers), is the same for
      both sides of a market, and is largest at even odds. */
  lemma FeeShape(price: int, isTaker: bool, rate: real)
    requires rate >= 0.0 && 0 <= price <= DOLLAR
    ensures var unit := if isTaker then 100 else 25;
            var fee := FeePerContract(price, isTaker, rate);
            var raw := RawCents(price, rate) * unit as real;
            && fee % unit == 0
            && 0 <= fee
            && raw <= fee as real < raw + unit as real
            && FeePerContract(DOLLAR - price, isTaker, rate) == fee
            && fee <= FeePerContract(DOLLAR / 2, isTaker, rate)
  {
    hide Cents, Parabola, Ceil;
    ParabolaShape(price);
    CentsMonotone(rate, Parabola(price), Parabola(DOLLAR / 2));
    CeilMonotone(RawCents(price, rate), RawCents(DOLLAR / 2, rate));
    CeilUnits(RawCents(price, rate), 100);
    CeilUnits(RawCents(price, rate), 25);
  }

  /** Splitting an order never changes its fee. */
  lemma FeeLinear(a: int, b: int, price: int, isTaker: bool, rate: real)
    ensures TotalFee(a + b, price, isTaker, rate) == TotalFee(a, price, isTaker, rate) + TotalFee(b, price, isTaker, rate)
  {
  }

  lemma CeilIs(x: real, c: int)
    requires (c - 1) as real < x <= c as real
    ensures Ceil(x) == c
  {
  }

  lemma SquareMonotone(a: int, b: int)
    requires 0 <= a <= b
    ensures a * a <= b * b
  {
    ScaleMonotone(a, b, a);
    ScaleMonotone(a, b, b);
  }

  lemma SquareOfAbs(d: int)
    ensures d * d == Abs(d) * Abs(d)
  {
  }

  /** At the default rate a taker pays two cents exactly from 0.1727 to 0.8273, even odds
      included: the peak is two whole cents, not the 1.75 of the raw parabola. */
  lemma TwoCentFees(price: int)
    requires 0 <= price <= DOLLAR
    ensures TakerFee(price, 0.07) == 200 <==> 1727 <= price <= 8273
  {
    var d := price - 5000;
    assert Parabola(price) == 25000000 - d * d by {
      assert price * (DOLLAR - price) == (5000 + d) * (5000 - d);
    }
    Square(d);
    SquareOfAbs(d);
    if Abs(d) <= 3273 {
      SquareMonotone(Abs(d), 3273);
      CeilIs(RawCents(price, 0.07), 2);
    } else {
      SquareMonotone(3274, Abs(d));
      assert RawCents(price, 0.07) <= 1.0;
      CeilMonotone(RawCents(price, 0.07), 1.0);
      CeilIs(1.0, 1);
    }
  }

  /** Strictly inside the price range no fee vanishes: where the parabola is below a cent the
      taker pays a whole one, up to the extremes. */
  lemma NoFreePrice(price: int, rate: real)
    requires rate > 0.0 && 0 < price < DOLLAR
    ensures TakerFee(price, rate) >= 100
    ensures TakerFee(price, rate) == 100 <==> RawCents(price, rate) <= 1.0
  {
    ParabolaPositive(price);
    hide Cents, Parabola, Ceil;
    RatePositive(rate, Parabola(price));
    CeilOfPositive(RawCents(price, rate));
  }

  lemma CeilOfPositive(x: real)
    requires x > 0.0
    ensures Ceil(x) >= 1 && (Ceil(x) == 1 <==> x <= 1.0)
  {
  }

  lemma ParabolaPositive(price: int)
    requires 0 < price < DOLLAR
    ensures Parabola(price) > 0
  {
    ScaleMonotone(1, price, DOLLAR - price);
  }

  lemma RatePositive(rate: real, parabola: int)
    requires rate > 0.0 && parabola > 0
    ensures Cents(rate, parabola) > 0.0
  {
  }
}
