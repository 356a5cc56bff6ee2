/**
 * How many payments clear a balance.
 *
 * `PaymentsToClear` answers from a logarithm. The schedule it talks about is the
 * recurrence b := b * (1 + r) - A from b = P; the count is right when it is the
 * first period at which that balance is zero or below. The logarithm is modelled
 * by its meaning, the least n with (1 + r)^n >= A / (A - P * r).
 */
module PaymentCount {
  import opened Money

  datatype Count = Finite(n: int) | Infinite

  function Power(x: real, n: nat): real {
    if n == 0 then 1.0 else x * Power(x, n - 1)
  }

  /** The debt after `n` whole installments. */
  function Balance(principal: real, rate: real, payment: real, n: nat): real {
    if n == 0 then principal
    else Balance(principal, rate, payment, n - 1) * (1.0 + rate) - payment
  }

  // ----- The growth of (1 + r)^n -----

  lemma {:induction false} PowerAboveOne(r: real, n: nat)
    requires r >= 0.0
    ensures Power(1.0 + r, n) >= 1.0
  {
    if n == 0 {
    } else {
      PowerAboveOne(r, n - 1);
    }
  }

  /** Bernoulli's inequality: the growth is at least linear, so the search ends. */
  lemma {:induction false} Bernoulli(r: real, n: nat)
    requires r >= 0.0
    ensures Power(1.0 + r, n) >= 1.0 + n as real * r
  {
    if n == 0 {
    } else {
      Bernoulli(r, n - 1);
      PowerAboveOne(r, n - 1);
      assert r * Power(1.0 + r, n - 1) >= r * 1.0;
    }
  }

  /** The least `n >= from` whose power reaches `target`, given that `bound` does. */
  function LeastPower(base: real, target: real, from: nat, bound: nat): (n: nat)
    requires from <= bound && Power(base, bound) >= target
    ensures from <= n && Power(base, n) >= target
    ensures forall m: nat :: from <= m < n ==> Power(base, m) < target
    decreases bound - from
  {
    if Power(base, from) >= target then from else LeastPower(base, target, from + 1, bound)
  }

  /** ceil(log(target) / log(base)) for target and base above one. */
  function CeilLog(base: real, target: real): (n: nat)
    requires base > 1.0 && target > 1.0
    ensures Power(base, n) >= target
    ensures forall m: nat :: m < n ==> Power(base, m) < target
  {
    var rate := base - 1.0;
    var bound := Ceil((target - 1.0) / rate);
    assert bound >= 0 && Power(base, bound) >= target by {
      var ratio := (target - 1.0) / rate;
      DivTimes(target - 1.0, rate);
      Scale(0.0, ratio, rate, 0.0, target - 1.0);
      Scale(ratio, bound as real, rate, target - 1.0, bound as real * rate);
      Bernoulli(rate, bound);
    }
    LeastPower(base, target, 0, bound)
  }

  /** A / (A - P * r): the installment over what it retires at first. */
  function Target(payment: real, retired: real): (target: real)
    requires 0.0 < retired < payment
    ensures target > 1.0 && target * retired == payment
  {
    DivTimes(payment, retired);
    Scale(1.0, payment / retired, retired, retired, payment);
    payment / retired
  }

  function PaymentsToClear(principal: real, rate: real, payment: real): (count: Count)
    requires rate >= 0.0
    ensures count.Finite? ==> count.n >= 0
  {
    if principal <= 0.0 then Finite(0)
    else if payment <= 0.0 then Infinite
    else if rate == 0.0 then
      DivTimes(principal, payment);
      Scale(0.0, principal / payment, payment, 0.0, principal);
      Finite(Ceil(principal / payment))
    else if payment <= principal * rate then Infinite
    else
      assert principal * rate > 0.0;
      Finite(CeilLog(1.0 + rate, Target(payment, payment - principal * rate)))
  }

  // ----- The count against the schedule -----

  /** r * b_n == A - (A - P * r) * (1 + r)^n, the closed form without its division. */
  lemma {:induction false} ScaledClosedForm(p: real, r: real, a: real, q: real, n: nat)
    requires q == a - p * r
    ensures r * Balance(p, r, a, n) == a - q * Power(1.0 + r, n)
  {
    if n == 0 {
    } else {
      var b, g := Balance(p, r, a, n - 1), Power(1.0 + r, n - 1);
      ScaledClosedForm(p, r, a, q, n - 1);
      ScaledStep(b, r, a, q, g);
    }
  }

  lemma ScaledStep(b: real, r: real, a: real, q: real, g: real)
    requires r * b == a - q * g
    ensures r * (b * (1.0 + r) - a) == a - q * ((1.0 + r) * g)
  {
    assert r * (b * (1.0 + r) - a) == (1.0 + r) * (r * b) - r * a;
    assert q * ((1.0 + r) * g) == (1.0 + r) * (q * g);
  }

  lemma {:induction false} NoRateBalance(p: real, a: real, n: nat)
    ensures Balance(p, 0.0, a, n) == p - a * n as real
  {
    if n == 0 {
    } else {
      NoRateBalance(p, a, n - 1);
    }
  }

  /** An installment that does not beat the first interest never lowers the debt. */
  lemma {:induction false} NeverBelowStart(p: real, r: real, a: real, n: nat)
    requires p > 0.0 && r >= 0.0 && a <= p * r
    ensures Balance(p, r, a, n) >= p
  {
    if n == 0 {
    } else {
      NeverBelowStart(p, r, a, n - 1);
      assert Balance(p, r, a, n - 1) * r >= p * r;
    }
  }

  lemma SameSign(b: real, r: real, a: real, q: real, g: real, t: real)
    requires r > 0.0 && q > 0.0 && r * b == a - q * g && t * q == a
    ensures b > 0.0 <==> g < t
  {
    Scale(0.0, b, r, 0.0, r * b);
    Scale(g, t, q, q * g, a);
  }

  /** With a positive rate, the balance is positive exactly while the power is short of the target. */
  lemma PositiveWhile(p: real, r: real, a: real, q: real, t: real, n: nat)
    requires r > 0.0 && q == a - p * r && q > 0.0 && t * q == a
    ensures Balance(p, r, a, n) > 0.0 <==> Power(1.0 + r, n) < t
  {
    ScaledClosedForm(p, r, a, q, n);
    SameSign(Balance(p, r, a, n), r, a, q, Power(1.0 + r, n), t);
  }

  lemma NoRateCount(p: real, a: real)
    requires p > 0.0 && a > 0.0
    ensures Ceil(p / a) >= 0 && Balance(p, 0.0, a, Ceil(p / a)) <= 0.0
    ensures forall m: nat :: m < Ceil(p / a) ==> Balance(p, 0.0, a, m) > 0.0
  {
    var n := Ceil(p / a);
    DivTimes(p, a);
    Scale(0.0, p / a, a, 0.0, p);
    Scale(p / a, n as real, a, p, a * n as real);
    NoRateBalance(p, a, n);
    forall m: nat | m < n ensures Balance(p, 0.0, a, m) > 0.0 {
      NoRateBalance(p, a, m);
      Scale(m as real, p / a, a, a * m as real, p);
    }
  }

  /**
   * The count is the first period at which the schedule's balance reaches zero or
   * below, and `Infinite` says there is none.
   */
  lemma CountIsFirstClearing(p: real, r: real, a: real)
    requires r >= 0.0
    ensures match PaymentsToClear(p, r, a)
            case Finite(n) => Balance(p, r, a, n) <= 0.0 && forall m: nat :: m < n ==> Balance(p, r, a, m) > 0.0
            case Infinite => forall m: nat :: Balance(p, r, a, m) > 0.0
  {
    if p > 0.0 {
      if r == 0.0 && a > 0.0 {
        NoRateCount(p, a);
      } else if r > 0.0 && a > p * r {
        assert p * r > 0.0;
        forall m: nat ensures Balance(p, r, a, m) > 0.0 <==> Power(1.0 + r, m) < Target(a, a - p * r) {
          PositiveWhile(p, r, a, a - p * r, Target(a, a - p * r), m);
        }
      } else {
        assert p * r >= 0.0;
        forall m: nat ensures Balance(p, r, a, m) > 0.0 { NeverBelowStart(p, r, a, m); }
      }
    }
  }

  /** A loan never amortizes exactly when no number of installments clears it. */
  lemma InfiniteExactly(p: real, r: real, a: real)
    requires r >= 0.0
    ensures PaymentsToClear(p, r, a).Infinite? <==> forall n: nat :: Balance(p, r, a, n) > 0.0
    ensures PaymentsToClear(p, r, a).Infinite? <==> p > 0.0 && (a <= 0.0 || a <= p * r)
  {
    CountIsFirstClearing(p, r, a);
  }
}
