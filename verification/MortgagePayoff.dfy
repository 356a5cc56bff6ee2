/**
 * The last payment and the lifetime interest of a mortgage, against its schedule.
 *
 * The preview answers from closed forms. The schedule is the period-by-period one:
 * each period charges interest on the balance, and the last pays off what is left.
 */
module MortgagePayoff {
  import opened Integers
  import opened Money
  import opened PaymentCount

  /** `residualPayoffAmount`, `effectivePayments`, `totalInterest`; all -1 when unknowable. */
  datatype Payoff = Payoff(residual: real, payments: int, interest: real)

  const UNKNOWN := Payoff(-1.0, -1, -1.0)

  function BalanceAfterPayments(principal: real, rate: real, payment: real, payments: nat): real {
    if rate == 0.0 then principal - payment * payments as real
    else Grown(principal, rate, payment, Power(1.0 + rate, payments))
  }

  function Grown(principal: real, rate: real, payment: real, growth: real): real
    requires rate != 0.0
  {
    principal * growth - payment * (growth - 1.0) / rate
  }

  function RMax(a: real, b: real): real { if a >= b then a else b }

  function CalculateResidualPayoff(principal: real, rate: real, payment: real, total: Count): Payoff
    requires rate >= 0.0
  {
    if principal == 0.0 then Payoff(0.0, 0, 0.0)
    else if total.Infinite? || total.n < 1 || principal < 0.0 then UNKNOWN
    else
      var clearing := PaymentsToClear(principal, rate, payment);
      if clearing.Infinite? then UNKNOWN
      else
        var effective := Max(1, Min(total.n, clearing.n));
        CloseOut(principal, rate, payment, effective,
                 BalanceAfterPayments(principal, rate, payment, effective - 1))
  }

  /** The last of `payments` periods, entered with balance `before`. */
  function CloseOut(principal: real, rate: real, payment: real, payments: int, before: real): Payoff {
    var residual := RoundMoney(RMax(0.0, before * (1.0 + rate)));
    var paid := payment * (payments - 1) as real + residual;
    Payoff(residual, payments, RoundMoney(paid - principal))
  }

  // ----- The schedule -----

  /** Interest charged over the first `n` periods. */
  function InterestOver(principal: real, rate: real, payment: real, n: nat): real {
    if n == 0 then 0.0
    else InterestOver(principal, rate, payment, n - 1) + Balance(principal, rate, payment, n - 1) * rate
  }

  lemma Unscale(p: real, r: real, a: real, q: real, g: real, b: real)
    requires r != 0.0 && q == a - p * r && r * b == a - q * g
    ensures Grown(p, r, a, g) == b
  {
    var x := a * (g - 1.0) / r;
    DivTimes(a * (g - 1.0), r);
    assert x * r == a * g - a;
    assert q * g == a * g - p * r * g;
    assert r * (p * g - x - b) == p * r * g - x * r - r * b;
  }

  /** The closed form is the recurrence, period by period. */
  lemma ClosedFormIsSchedule(p: real, r: real, a: real, n: nat)
    ensures BalanceAfterPayments(p, r, a, n) == Balance(p, r, a, n)
  {
    if r == 0.0 {
      NoRateBalance(p, a, n);
    } else {
      var q := a - p * r;
      ScaledClosedForm(p, r, a, q, n);
      Unscale(p, r, a, q, Power(1.0 + r, n), Balance(p, r, a, n));
    }
  }

  /** Money is conserved: what was paid is the principal retired plus the interest. */
  lemma {:induction false} InterestAccounts(p: real, r: real, a: real, n: nat)
    ensures Balance(p, r, a, n) == p + InterestOver(p, r, a, n) - a * n as real
  {
    if n == 0 {
    } else {
      InterestAccounts(p, r, a, n - 1);
    }
  }

  /** A mortgage paid off has an answer, three zeros, whatever its terms; -1 three times says there is none. */
  lemma PaidOff(r: real, a: real, total: Count)
    requires r >= 0.0
    ensures CalculateResidualPayoff(0.0, r, a, total) == Payoff(0.0, 0, 0.0)
    ensures UNKNOWN == Payoff(-1.0, -1, -1.0)
  {}

  /** Which inputs have no answer: nothing owed is a known zero, the rest must amortize. */
  lemma UnknownExactly(p: real, r: real, a: real, total: Count)
    requires r >= 0.0
    ensures CalculateResidualPayoff(p, r, a, total) == UNKNOWN <==>
            p < 0.0 || (p > 0.0 && (total.Infinite? || total.n < 1 || forall n: nat :: Balance(p, r, a, n) > 0.0))
  {
    CountIsFirstClearing(p, r, a);
  }

  /** The last period takes a balance `b` to `next`; over all `n` the interest is `interest`. */
  lemma LastPeriod(p: real, r: real, a: real, n: nat, b: real, next: real, interest: real)
    requires r >= 0.0 && b > 0.0 && n >= 1
    requires next == b * (1.0 + r) - a && next == p + interest - a * n as real
    ensures var got := CloseOut(p, r, a, n, b);
            && got.residual == RoundMoney(next + a)
            && got.interest == RoundMoney(interest + got.residual - (next + a))
            && -0.0001 <= got.interest - interest <= 0.0001
            && (next <= 0.0 ==> got.residual <= RoundMoney(a))
  {
    LastResidual(r, a, b, next);
    LastInterest(p, a, n, CloseOut(p, r, a, n, b).residual, next, interest);
  }

  lemma LastResidual(r: real, a: real, b: real, next: real)
    requires r >= 0.0 && b > 0.0 && next == b * (1.0 + r) - a
    ensures var residual := RoundMoney(RMax(0.0, b * (1.0 + r)));
            residual == RoundMoney(next + a) && (next <= 0.0 ==> residual <= RoundMoney(a))
  {
    var due := b * (1.0 + r);
    assert due > 0.0 by { assert b * r >= 0.0; assert due == b + b * r; }
    if due <= a { RoundMoneyMonotone(due, a); }
  }

  lemma LastInterest(p: real, a: real, n: nat, residual: real, next: real, interest: real)
    requires n >= 1 && -0.00005 <= residual - (next + a) <= 0.00005 && next == p + interest - a * n as real
    ensures var rounded := RoundMoney(a * (n - 1) as real + residual - p);
            rounded == RoundMoney(interest + residual - (next + a)) && -0.0001 <= rounded - interest <= 0.0001
  {
    assert a * (n - 1) as real == a * n as real - a;
    assert a * (n - 1) as real + residual - p == interest + residual - (next + a);
  }

  /** The effective count is the first of the caller's and the clearing one. */
  lemma EffectiveCount(p: real, r: real, a: real, total: nat)
    requires r >= 0.0 && p > 0.0 && total >= 1 && PaymentsToClear(p, r, a).Finite?
    ensures var n := Max(1, Min(total, PaymentsToClear(p, r, a).n));
            && 1 <= n <= total
            && (forall k: nat :: k < n ==> Balance(p, r, a, k) > 0.0)
            && (n == total || Balance(p, r, a, n) <= 0.0)
  {
    CountIsFirstClearing(p, r, a);
  }

  /**
   * What the schedule itself says of an answer. Every billed period is reached with
   * debt outstanding; the count is the caller's or the clearing one, whichever is
   * first; the residual is the last balance with its interest, Balance(n) + a, rounded;
   * the interest is the sum of every period's interest, with what rounding the residual
   * added, rounded, and so within one ten-thousandth of it; and when the debt is cleared
   * in the last period, its payment is no more than a whole installment.
   */
  ghost predicate Describes(p: real, r: real, a: real, total: int, got: Payoff) {
    var n := got.payments;
    && 1 <= n <= total
    && (forall k: nat :: k < n ==> Balance(p, r, a, k) > 0.0)
    && (n == total || Balance(p, r, a, n) <= 0.0)
    && got.residual == RoundMoney(Balance(p, r, a, n) + a)
    && got.interest == RoundMoney(InterestOver(p, r, a, n) + got.residual - (Balance(p, r, a, n) + a))
    && -0.0001 <= got.interest - InterestOver(p, r, a, n) <= 0.0001
    && (Balance(p, r, a, n) <= 0.0 ==> got.residual <= RoundMoney(a))
  }

  lemma CloseOutDescribes(p: real, r: real, a: real, total: nat, n: nat)
    requires r >= 0.0 && 1 <= n <= total
    requires forall k: nat :: k < n ==> Balance(p, r, a, k) > 0.0
    requires n == total || Balance(p, r, a, n) <= 0.0
    ensures Describes(p, r, a, total, CloseOut(p, r, a, n, Balance(p, r, a, n - 1)))
  {
    InterestAccounts(p, r, a, n);
    LastPeriod(p, r, a, n, Balance(p, r, a, n - 1), Balance(p, r, a, n), InterestOver(p, r, a, n));
  }

  lemma AnswerIsCloseOut(p: real, r: real, a: real, total: Count)
    requires r >= 0.0 && p > 0.0 && CalculateResidualPayoff(p, r, a, total) != UNKNOWN
    ensures total.Finite? && total.n >= 1 && PaymentsToClear(p, r, a).Finite?
    ensures var n := Max(1, Min(total.n, PaymentsToClear(p, r, a).n));
            CalculateResidualPayoff(p, r, a, total) == CloseOut(p, r, a, n, BalanceAfterPayments(p, r, a, n - 1))
  {}

  /** A known answer describes the real schedule. */
  lemma ResidualPayoffIsSchedule(p: real, r: real, a: real, total: Count)
    requires r >= 0.0 && p > 0.0 && CalculateResidualPayoff(p, r, a, total) != UNKNOWN
    ensures total.Finite? && Describes(p, r, a, total.n, CalculateResidualPayoff(p, r, a, total))
  {
    AnswerIsCloseOut(p, r, a, total);
    EffectiveCount(p, r, a, total.n);
    var n := Max(1, Min(total.n, PaymentsToClear(p, r, a).n));
    ClosedFormIsSchedule(p, r, a, n - 1);
    CloseOutDescribes(p, r, a, total.n, n);
  }

  // ----- LINEAR and INTEREST_ONLY -----

  /** Interest over `n` periods while the debt falls by `c` a period. */
  function LinearInterest(p: real, r: real, c: real, n: nat): real {
    if n == 0 then 0.0 else LinearInterest(p, r, c, n - 1) + (p - c * (n - 1) as real) * r
  }

  lemma {:induction false} LinearInterestSum(p: real, r: real, c: real, n: nat)
    ensures LinearInterest(p, r, c, n) == r * (p * n as real - c * (n * (n - 1)) as real / 2.0)
  {
    if n == 0 {
    } else {
      LinearInterestSum(p, r, c, n - 1);
      assert n * (n - 1) == (n - 1) * (n - 2) + 2 * (n - 1);
      assert c * (n * (n - 1)) as real == c * ((n - 1) * (n - 2)) as real + 2.0 * (c * (n - 1) as real);
    }
  }

  /** LINEAR: P * r * (N + 1) / 2 is the sum of the interest of its N periods. */
  lemma LinearClosedForm(p: real, r: real, n: nat)
    requires n > 0
    ensures LinearInterest(p, r, p / n as real, n) == p * r * (n + 1) as real / 2.0
  {
    var c := p / n as real;
    LinearInterestSum(p, r, c, n);
    assert c * n as real == p by { DivTimes(p, n as real); }
    assert c * (n * (n - 1)) as real == (c * n as real) * (n - 1) as real == p * (n - 1) as real;
    assert p * n as real - p * (n - 1) as real / 2.0 == p * (n + 1) as real / 2.0;
    assert r * (p * (n + 1) as real / 2.0) == p * r * (n + 1) as real / 2.0;
  }

  /** INTEREST_ONLY: P * r * N, the debt never falling before the bullet. */
  lemma InterestOnlyClosedForm(p: real, r: real, n: nat)
    ensures LinearInterest(p, r, 0.0, n) == p * r * n as real
  {
    LinearInterestSum(p, r, 0.0, n);
    assert r * (p * n as real) == p * r * n as real;
  }

  /** The constant principal of a LINEAR mortgage: P / N at storage precision. */
  function ConstantPrincipal(principal: int, payments: nat): int
    requires payments > 0
  {
    RoundHalfAway(principal as real / payments as real)
  }

  /** The principal left for the last LINEAR payment, clamped at zero. */
  function LastPrincipal(principal: int, payments: nat): int
    requires payments > 0
  {
    Max(0, principal - (payments - 1) * ConstantPrincipal(principal, payments))
  }

  /** It is the share to the nearest ten-thousandth, and the last principal is what the others leave, if anything. */
  lemma SharesExactly(p: nat, n: nat)
    requires n > 0
    ensures -0.5 < ConstantPrincipal(p, n) as real - p as real / n as real <= 0.5
    ensures var left := p - (n - 1) * ConstantPrincipal(p, n);
            LastPrincipal(p, n) == if left < 0 then 0 else left
  {
    DivTimes(p as real, n as real);
    Scale(0.0, p as real / n as real, n as real, 0.0, p as real);
  }

  /**
   * N - 1 payments of the rounded principal and the last one retire exactly P when,
   * and only when, the first N - 1 do not overshoot it.
   */
  lemma LinearRetiresExactly(p: nat, n: nat)
    requires n > 0
    ensures (n - 1) * ConstantPrincipal(p, n) + LastPrincipal(p, n) == p <==>
            (n - 1) * ConstantPrincipal(p, n) <= p
  {}

  lemma RoundedShare(c: real, x: real, k: real, p: real)
    requires k > 0.0 && x * k == p && -0.5 <= c - x <= 0.5
    ensures -k <= 2.0 * (p - c * k) <= k
  {
    assert (c - x) * k == c * k - p;
    Scale(c - x, 0.5, k, c * k - p, 0.5 * k);
    Scale(-0.5, c - x, k, -0.5 * k, c * k - p);
  }

  lemma WholeProduct(c: int, n: nat)
    ensures c as real * n as real == (c * n) as real
  {}

  /** N rounded shares of a debt miss it by at most N half-units. */
  lemma SharesAreNear(p: nat, n: nat, c: int, cn: int)
    requires n > 0 && c == ConstantPrincipal(p, n) && cn == c * n
    ensures -(n as int) <= 2 * (p - cn) <= n
  {
    var x, k := p as real / n as real, n as real;
    DivTimes(p as real, k);
    WholeProduct(c, n);
    RoundedShare(c as real, x, k, p as real);
  }

  /** The last principal then differs from the constant one by at most N half-units. */
  lemma LinearLastPrincipal(p: nat, n: nat)
    requires n > 0 && (n - 1) * ConstantPrincipal(p, n) <= p
    ensures 2 * Abs(LastPrincipal(p, n) - ConstantPrincipal(p, n)) <= n
  {
    var c := ConstantPrincipal(p, n);
    SharesAreNear(p, n, c, c * n);
    assert (n - 1) * c == c * n - c;
  }

  /** A loan of one ten-thousandth per two payments overshoots: three units over five payments. */
  lemma LinearOvershoots()
    ensures (5 - 1) * ConstantPrincipal(3, 5) + LastPrincipal(3, 5) == 4
  {
    assert 3.0 / 5.0 == 0.6;
    assert (0.6 + 0.5).Floor == 1;
  }
}
