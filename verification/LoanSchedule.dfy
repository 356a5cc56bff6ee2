/**
 * The loan schedule that iterating `calculatePaymentSplit` produces, with every
 * interest line rounded to storage precision. Amounts are in ten-thousandths.
 */
module LoanSchedule {
  import opened Integers
  import opened Money

  datatype Split = Split(principal: int, interest: int)

  function Interest(balance: int, rate: real): int {
    RoundHalfAway(balance as real * rate)
  }

  /** Interest first; principal is what is left of the payment, within zero and the balance. */
  function PaymentSplit(balance: int, rate: real, payment: int): Split {
    var interest := Interest(balance, rate);
    Split(Min(balance, Max(0, payment - interest)), interest)
  }

  /**
   * The interest of a period is the balance times the rate, to the nearest ten-thousandth and
   * away from zero at a half; principal is the rest of the payment, but no less than zero and
   * no more than the balance.
   */
  ghost predicate IsSplit(balance: int, rate: real, payment: int, split: Split) {
    var charged, left := balance as real * rate, payment - split.interest;
    && -0.5 <= split.interest as real - charged <= 0.5
    && (charged >= 0.0 ==> split.interest as real - charged > -0.5)
    && (charged <= 0.0 ==> split.interest as real - charged < 0.5)
    && split.principal == if left >= 0 then (if left <= balance then left else balance)
                          else if balance >= 0 then 0 else balance
  }

  method CalculatePaymentSplit(balance: int, rate: real, payment: int) returns (split: Split)
    ensures split == PaymentSplit(balance, rate, payment)
    ensures IsSplit(balance, rate, payment, split)
  {
    var interest := Interest(balance, rate);
    var principal := payment - interest;
    if principal < 0 {
      principal := 0;
    }
    if principal > balance {
      principal := balance;
    }
    return Split(principal, interest);
  }

  /** Every period of the schedule is such a split. */
  lemma PaymentSplitIsSplit(balance: int, rate: real, payment: int)
    ensures IsSplit(balance, rate, payment, PaymentSplit(balance, rate, payment))
  {}

  /** The debt after `n` periods of the fixed payment. */
  function Debt(p: int, rate: real, payment: int, n: nat): int {
    if n == 0 then p
    else
      var debt := Debt(p, rate, payment, n - 1);
      debt - PaymentSplit(debt, rate, payment).principal
  }

  /** The split of period `n`, counted from zero. */
  function Period(p: int, rate: real, payment: int, n: nat): Split {
    PaymentSplit(Debt(p, rate, payment, n), rate, payment)
  }

  function PrincipalPaid(p: int, rate: real, payment: int, n: nat): int {
    if n == 0 then 0 else PrincipalPaid(p, rate, payment, n - 1) + Period(p, rate, payment, n - 1).principal
  }

  lemma InterestMonotone(b: int, c: int, rate: real)
    requires 0 <= b <= c && rate >= 0.0
    ensures 0 <= Interest(b, rate) <= Interest(c, rate)
  {
    assert 0.0 <= b as real * rate <= c as real * rate by {
      assert (c - b) as real * rate >= 0.0 && b as real * rate >= 0.0;
      assert (c - b) as real == c as real - b as real;
    }
    RoundMonotone(b as real * rate, c as real * rate);
  }

  lemma {:induction false} DebtWithin(p: nat, rate: real, payment: int, n: nat)
    requires rate >= 0.0
    ensures 0 <= Debt(p, rate, payment, n) <= p
    ensures Interest(Debt(p, rate, payment, n), rate) <= Interest(p, rate)
  {
    if n == 0 {
    } else {
      DebtWithin(p, rate, payment, n - 1);
    }
    InterestMonotone(Debt(p, rate, payment, n), p, rate);
  }

  /** Every period retires the first principal or all that is left. */
  lemma {:induction false} DebtFalls(p: nat, rate: real, payment: int, first: nat, n: nat)
    requires rate >= 0.0 && first == Period(p, rate, payment, 0).principal
    ensures Debt(p, rate, payment, n) <= Max(0, p - n * first)
  {
    if n == 0 {
    } else {
      DebtFalls(p, rate, payment, first, n - 1);
      DebtWithin(p, rate, payment, n - 1);
      assert n * first == (n - 1) * first + first;
    }
  }

  /** Interest never rises, and principal never falls except in the period that clears the debt. */
  lemma ScheduleIsOrdered(p: nat, rate: real, payment: int, n: nat)
    requires rate >= 0.0
    ensures var now, next := Period(p, rate, payment, n), Period(p, rate, payment, n + 1);
            && next.interest <= now.interest
            && (now.principal <= next.principal || Debt(p, rate, payment, n + 2) == 0)
  {
    DebtWithin(p, rate, payment, n);
    DebtWithin(p, rate, payment, n + 1);
    InterestMonotone(Debt(p, rate, payment, n + 1), Debt(p, rate, payment, n), rate);
  }

  /** An installment beats the rounded interest exactly when it is more than half a unit above the exact one. */
  lemma BeatsExactly(p: nat, rate: real, payment: int)
    requires rate >= 0.0
    ensures payment > Interest(p, rate) <==> payment as real > p as real * rate + 0.5
  {
    assert p as real * rate >= 0.0;
    var interest := Interest(p, rate);
    if payment > interest { assert payment as real >= interest as real + 1.0; }
    if payment <= interest { assert payment as real <= interest as real; }
  }

  /** A period that does not clear the debt pays exactly the installment. */
  lemma FullInstallment(p: nat, rate: real, payment: int, n: nat)
    requires rate >= 0.0 && payment as real > p as real * rate + 0.5 && Debt(p, rate, payment, n + 1) > 0
    ensures Period(p, rate, payment, n).principal + Period(p, rate, payment, n).interest == payment
  {
    BeatsExactly(p, rate, payment);
    DebtWithin(p, rate, payment, n);
  }

  lemma {:induction false} PrincipalAccounts(p: int, rate: real, payment: int, n: nat)
    ensures PrincipalPaid(p, rate, payment, n) == p - Debt(p, rate, payment, n)
  {
    if n == 0 {
    } else {
      PrincipalAccounts(p, rate, payment, n - 1);
    }
  }

  lemma CeilingIsEnough(p: nat, first: nat, n: nat)
    requires first > 0 && n >= Ceil(p as real / first as real)
    ensures n * first >= p
  {
    DivTimes(p as real, first as real);
    Scale(p as real / first as real, n as real, first as real, p as real, (n * first) as real);
  }

  /**
   * With a positive first principal the debt is exactly zero within
   * ceil(P / first principal) periods, and the principal portions sum to exactly P.
   */
  lemma ScheduleClears(p: nat, rate: real, payment: int, n: nat)
    requires rate >= 0.0 && Period(p, rate, payment, 0).principal > 0
    requires n >= Ceil(p as real / Period(p, rate, payment, 0).principal as real)
    ensures Debt(p, rate, payment, n) == 0 && PrincipalPaid(p, rate, payment, n) == p
  {
    var first := Period(p, rate, payment, 0).principal;
    CeilingIsEnough(p, first, n);
    DebtWithin(p, rate, payment, n);
    DebtFalls(p, rate, payment, first, n);
    PrincipalAccounts(p, rate, payment, n);
  }

  lemma {:induction false} DebtStuck(p: nat, rate: real, payment: int, n: nat)
    requires Period(p, rate, payment, 0).principal <= 0
    ensures Debt(p, rate, payment, n) == p
  {
    if n == 0 {
    } else {
      DebtStuck(p, rate, payment, n - 1);
    }
  }

  /** A debt is ever cleared exactly when the installment is more than half a unit above its first interest. */
  lemma ClearsExactly(p: nat, rate: real, payment: int)
    requires rate >= 0.0 && p > 0
    ensures (exists n: nat :: Debt(p, rate, payment, n) == 0) <==> payment as real > p as real * rate + 0.5
  {
    BeatsExactly(p, rate, payment);
    var first := Period(p, rate, payment, 0).principal;
    if payment > Interest(p, rate) {
      ScheduleClears(p, rate, payment, Max(0, Ceil(p as real / first as real)));
    } else {
      forall n: nat ensures Debt(p, rate, payment, n) != 0 { DebtStuck(p, rate, payment, n); }
    }
  }
}
