/**
 * Money rounding: half away from zero, to storage precision (ten-thousandths) or
 * to a currency's smallest unit. Stored money is an `int` count of ten-thousandths.
 */
module Money {

  /** The nearest whole number; of two at an exact half, the one further from zero. */
  function RoundHalfAway(x: real): (n: int)
    ensures -0.5 <= n as real - x <= 0.5
    ensures x >= 0.0 ==> n >= 0
    ensures x <= 0.0 ==> n <= 0
    ensures x >= 0.0 ==> n as real - x > -0.5
    ensures x <= 0.0 ==> n as real - x < 0.5
  {
    if x >= 0.0 then (x + 0.5).Floor else -((-x + 0.5).Floor)
  }

  lemma RoundMonotone(x: real, y: real)
    requires x <= y
    ensures RoundHalfAway(x) <= RoundHalfAway(y)
  {
    if x < 0.0 <= y {
    } else if x >= 0.0 {
      assert (x + 0.5).Floor <= (y + 0.5).Floor;
    } else {
      assert (-y + 0.5).Floor <= (-x + 0.5).Floor;
    }
  }

  /** `roundMoney` on an amount in currency units. */
  function RoundMoney(x: real): (y: real)
    ensures -0.00005 <= y - x <= 0.00005
    ensures x >= 0.0 ==> y >= 0.0 && y - x > -0.00005
    ensures x <= 0.0 ==> y <= 0.0 && y - x < 0.00005
    ensures y * 10000.0 == (y * 10000.0).Floor as real
  {
    RoundHalfAway(x * 10000.0) as real / 10000.0
  }

  lemma RoundMoneyMonotone(x: real, y: real)
    requires x <= y
    ensures RoundMoney(x) <= RoundMoney(y)
  {
    RoundMonotone(x * 10000.0, y * 10000.0);
  }

  function Ceil(x: real): (n: int)
    ensures (n - 1) as real < x <= n as real
  {
    -((-x).Floor)
  }

  // Small facts about products and quotients of reals, each over named products
  // so that the solver need not search for them.

  lemma Scale(x: real, y: real, c: real, xc: real, yc: real)
    requires c > 0.0 && xc == x * c && yc == y * c
    ensures x < y <==> xc < yc
    ensures x <= y <==> xc <= yc
  {
    if x < y { assert (y - x) * c > 0.0; }
    if x > y { assert (x - y) * c > 0.0; }
  }

  lemma DivTimes(x: real, c: real)
    requires c != 0.0
    ensures x / c * c == x
  {}
}
