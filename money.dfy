/**
 * Money arithmetic of an exchange. Prices are whole cents; the tax rate is an
 * exact rational. Amounts are rounded with Python's `round(x, 2)` on a
 * `Decimal` (ties go to the even neighbour) and sent to the gateway after
 * `int(...)`, which drops the fraction.
 */
module Money {

  /** The nearest integer to `x`; a tie goes to the even neighbour. */
  function RoundHalfEven(x: real): (n: int)
    ensures x - 0.5 <= n as real <= x + 0.5
    ensures x == x.Floor as real ==> n == x.Floor
    ensures x - x.Floor as real == 0.5 ==> n % 2 == 0
  {
    var f := x.Floor;
    var frac := x - f as real;
    if frac < 0.5 then f
    else if frac > 0.5 then f + 1
    else if f % 2 == 0 then f else f + 1
  }

  /** `round(x, 2)`: the nearest whole number of hundredths. */
  function Round2(x: real): (y: real)
    ensures x - 0.005 <= y <= x + 0.005
    ensures (y * 100.0).Floor as real == y * 100.0
    ensures (x * 100.0).Floor as real == x * 100.0 ==> y == x
    ensures x * 100.0 - (x * 100.0).Floor as real == 0.5 ==> (y * 100.0).Floor % 2 == 0
  {
    var n := RoundHalfEven(x * 100.0);
    var y := n as real / 100.0;
    assert y * 100.0 == n as real;
    assert x * 100.0 - 0.5 <= y * 100.0 <= x * 100.0 + 0.5;
    y
  }

  /** `int(x)`: drops the fraction, rounding toward zero. */
  function Truncate(x: real): (n: int)
    ensures 0.0 <= x ==> 0 <= n && n as real <= x < n as real + 1.0
    ensures x < 0.0 ==> n <= 0 && n as real - 1.0 < x <= n as real
  {
    if x >= 0.0 then x.Floor else -((-x).Floor)
  }

  /**
   * The amount, in cents, that an exchange charges or refunds for a price
   * difference of `delta` cents: the difference with tax, rounded to two
   * decimals.
   */
  function ExchangeCents(delta: nat, tax: real): (c: real)
    ensures delta as real * (1.0 + tax) - 0.005 <= c <= delta as real * (1.0 + tax) + 0.005
    ensures (c * 100.0).Floor as real == c * 100.0
    ensures var exact := delta as real * (1.0 + tax) * 100.0;
      exact - exact.Floor as real == 0.5 ==> (c * 100.0).Floor % 2 == 0
  {
    Round2(delta as real * (1.0 + tax))
  }

  /**
   * With a non-negative tax rate a price difference of at least one cent is
   * charged at least one whole cent, so the branch that calls the gateway is
   * always taken.
   */
  lemma ChargeNeverRoundsToZero(delta: nat, tax: real)
    ensures delta >= 1 && tax >= 0.0 ==> Truncate(ExchangeCents(delta, tax)) >= 1
  {
    if delta >= 1 && tax >= 0.0 {
      var exact := delta as real * (1.0 + tax);
      assert exact == delta as real + delta as real * tax;
      assert delta as real * tax >= 0.0;
      var n := RoundHalfEven(exact * 100.0);
      assert n as real >= 99.5;
      assert ExchangeCents(delta, tax) == n as real / 100.0;
    }
  }
}
