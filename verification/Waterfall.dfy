/**
 * Dividing a loan installment between interest, principal and extra principal, and
 * booking the parts in the currency's smallest unit. Amounts are in ten-thousandths,
 * so `roundMoney` is the identity here.
 */
module Waterfall {
  import opened Options
  import opened Integers
  import opened Money

  datatype Input = Input(
    payment: int, extra: int, interest: int, principal: int,
    balance: Option<int>, capitalize: bool)

  datatype Allocation = Allocation(
    principal: int, interest: int, extra: int, total: int, unpaidInterest: int)

  /** The debt after an allocation is posted. */
  function DebtAfter(debt: int, paid: Allocation): int {
    debt - paid.principal - paid.extra
  }

  /** The waterfall, stated by cases on how far the installment reaches. */
  function Allocate(i: Input): Allocation {
    var interest, wanted, extra := Max(0, i.interest), Max(0, i.principal), Max(0, i.extra);
    var bound := (x: int) => if i.balance.Some? then Min(x, i.balance.value) else x;
    if interest > i.payment && i.capitalize && i.payment > 0 then
      Allocation(i.payment - interest, interest, 0, i.payment, interest - i.payment)
    else if interest > i.payment - extra then
      var booked, principal := Min(interest, i.payment), bound(0);
      var left := Max(0, i.payment - booked);
      var spare := Shed(Min(extra, Max(0, left - principal)), principal, i.balance);
      Allocation(principal, booked, spare, principal + booked + spare, Max(0, interest - i.payment))
    else
      var principal := bound(wanted);
      var left := Max(0, i.payment - interest);
      var spare := Shed(Min(extra, Max(0, left - principal)), principal, i.balance);
      Allocation(principal, interest, spare, principal + interest + spare, 0)
  }

  /** The extra sheds what the debt cannot take. */
  function Shed(extra: int, principal: int, balance: Option<int>): int {
    if balance.Some? && principal + extra > balance.value then Max(0, balance.value - principal) else extra
  }

  method AllocateLoanPayment(i: Input) returns (paid: Allocation)
    ensures paid == Allocate(i)
  {
    var configuredExtra := Max(0, i.extra);
    var basePayment := i.payment - configuredExtra;
    var interest := Max(0, i.interest);
    var principal := Max(0, i.principal);
    var unpaidInterest := 0;
    if interest > basePayment {
      if interest > i.payment {
        unpaidInterest := interest - i.payment;
        if i.capitalize && i.payment > 0 {
          return Allocation(i.payment - interest, interest, 0, i.payment, unpaidInterest);
        }
      }
      interest := Min(interest, i.payment);
      principal := 0;
    }
    if i.balance.Some? && principal > i.balance.value {
      principal := i.balance.value;
    }
    var available := Max(0, i.payment - interest);
    var extra := Min(configuredExtra, Max(0, available - principal));
    if i.balance.Some? && principal + extra > i.balance.value {
      extra := Max(0, i.balance.value - principal);
    }
    return Allocation(principal, interest, extra, principal + interest + extra, unpaidInterest);
  }

  // ----- One installment -----

  /**
   * Line by line, over a debt that is not negative. A shortfall is capitalized when that is
   * asked for and something is paid; then it is booked as negative principal and no extra is
   * paid. Else interest is paid as far as the installment goes; principal waits where the
   * installment without its extra does not cover the interest, and stops at the debt; and the
   * extra is what the others leave of the installment and of the debt.
   */
  lemma AllocationExactly(i: Input)
    requires i.balance.Some? ==> i.balance.value >= 0
    ensures var paid := Allocate(i);
            var interest, wanted, extra := Max(0, i.interest), Max(0, i.principal), Max(0, i.extra);
            var capitalized := i.capitalize && 0 < i.payment < interest;
            && paid.interest == (if capitalized || interest <= i.payment then interest else i.payment)
            && paid.principal == (if capitalized then i.payment - interest
                                  else if interest + extra > i.payment then 0
                                  else if i.balance.Some? && wanted > i.balance.value then i.balance.value
                                  else wanted)
            && (capitalized ==> paid.extra == 0 && paid.total == i.payment)
            && (!capitalized ==>
                  var room := Max(0, i.payment - paid.interest - paid.principal);
                  paid.extra == Min(extra, if i.balance.Some? then Min(room, i.balance.value - paid.principal)
                                           else room))
            && paid.total == paid.principal + paid.interest + paid.extra
            && paid.unpaidInterest == (if interest > i.payment then interest - i.payment else 0)
  {}

  /** What one installment promises of a debt it was bounded by. */
  lemma InstallmentIsSound(i: Input)
    requires i.balance.Some? && i.balance.value >= 0 && i.payment >= 0
    ensures var paid, debt := Allocate(i), i.balance.value;
            && paid.total == paid.principal + paid.interest + paid.extra
            && paid.interest >= 0 && paid.extra >= 0
            && DebtAfter(debt, paid) >= 0
            && DebtAfter(debt, paid) == debt + paid.interest - paid.total
            && (paid.principal > 0 || paid.extra > 0 ==> paid.interest == Max(0, i.interest))
            && (DebtAfter(debt, paid) > debt ==>
                  i.capitalize && DebtAfter(debt, paid) - debt == paid.unpaidInterest == -paid.principal)
  {}

  /**
   * Nothing is left idle: an installment is paid out whole unless the debt is retired, or
   * everything that was priced and configured is paid.
   */
  lemma ShortOnlyWhenAllIsPaid(i: Input)
    requires (i.balance.Some? ==> i.balance.value >= 0) && i.payment >= 0
    ensures var paid := Allocate(i);
            paid.total < i.payment ==>
              || (i.balance.Some? && DebtAfter(i.balance.value, paid) == 0)
              || (paid.interest == Max(0, i.interest) && paid.principal == Max(0, i.principal) &&
                  paid.extra == Max(0, i.extra))
  {}

  /**
   * Interest comes first, then principal, then extra: extra is paid only once all priced
   * principal is, or where the base payment does not even cover the interest.
   */
  lemma PaidInOrder(i: Input)
    requires (i.balance.Some? ==> i.balance.value >= 0) && i.payment >= 0
    ensures var paid := Allocate(i);
            && paid.total == paid.principal + paid.interest + paid.extra
            && 0 <= paid.interest <= Max(0, i.interest) && 0 <= paid.extra <= Max(0, i.extra)
            && paid.principal <= Max(0, i.principal)
            && (paid.interest < Max(0, i.interest) ==>
                  paid.interest == i.payment && paid.principal == 0 && paid.extra == 0)
            && (paid.extra > 0 ==>
                  || paid.principal == Max(0, i.principal) || Some(paid.principal) == i.balance
                  || (paid.principal == 0 && Max(0, i.interest) > i.payment - Max(0, i.extra)))
            && paid.unpaidInterest == Max(0, Max(0, i.interest) - i.payment)
  {}

  /** The parts exceed the installment only when more principal was priced than it leaves. */
  lemma OverdrawsExactly(i: Input)
    requires i.payment >= 0 && (i.balance.Some? ==> i.balance.value >= 0)
    ensures Allocate(i).total > i.payment <==>
            Max(0, i.interest) <= i.payment - Max(0, i.extra) &&
            Max(0, i.interest) + Max(0, i.principal) > i.payment &&
            (i.balance.Some? ==> Max(0, i.interest) + i.balance.value > i.payment)
  {}

  // ----- Any run of installments -----

  /** The debt after a run, each installment bounded by the debt before it. */
  function DebtOver(debt: int, inputs: seq<Input>): int
    decreases |inputs|
  {
    if inputs == [] then debt
    else DebtOver(DebtAfter(debt, Allocate(inputs[0].(balance := Some(debt)))), inputs[1..])
  }

  function InterestBooked(debt: int, inputs: seq<Input>): int
    decreases |inputs|
  {
    if inputs == [] then 0
    else
      var paid := Allocate(inputs[0].(balance := Some(debt)));
      paid.interest + InterestBooked(DebtAfter(debt, paid), inputs[1..])
  }

  function TotalPaid(debt: int, inputs: seq<Input>): int
    decreases |inputs|
  {
    if inputs == [] then 0
    else
      var paid := Allocate(inputs[0].(balance := Some(debt)));
      paid.total + TotalPaid(DebtAfter(debt, paid), inputs[1..])
  }

  /** Money is conserved over any run, and the debt is never overpaid. */
  lemma {:induction false} RunConserves(debt: int, inputs: seq<Input>)
    requires debt >= 0 && forall k :: 0 <= k < |inputs| ==> inputs[k].payment >= 0
    ensures DebtOver(debt, inputs) == debt + InterestBooked(debt, inputs) - TotalPaid(debt, inputs)
    ensures DebtOver(debt, inputs) >= 0
    decreases |inputs|
  {
    if inputs == [] {
    } else {
      var i := inputs[0].(balance := Some(debt));
      InstallmentIsSound(i);
      RunConserves(DebtAfter(debt, Allocate(i)), inputs[1..]);
    }
  }

  // ----- Booking in the smallest unit -----

  function Times(k: int, unit: int): int { k * unit }

  ghost predicate IsWhole(v: int, unit: int) {
    exists k :: Times(k, unit) == v
  }

  /** Round half away from zero to a multiple of `unit`. */
  function RoundToUnit(v: int, unit: int): int
    requires unit > 0
  {
    if v >= 0 then Times((2 * v + unit) / (2 * unit), unit) else Times(-((-2 * v + unit) / (2 * unit)), unit)
  }

  datatype Booked = Booked(principal: int, interest: int, extra: int, total: int)

  datatype Absorber = OnPrincipal | OnExtra

  /**
   * `bookSplitsAtMinorUnit` on a loan's three lines: the total and every line are
   * rounded, and when the lines summed to the total the absorber takes the rest.
   */
  function BookSplits(a: Allocation, unit: int, absorber: Absorber): Booked
    requires unit > 0
  {
    var p, i, e, t :=
      RoundToUnit(a.principal, unit), RoundToUnit(a.interest, unit),
      RoundToUnit(a.extra, unit), RoundToUnit(a.total, unit);
    var residual := if a.principal + a.interest + a.extra == a.total then t - (p + i + e) else 0;
    if absorber.OnPrincipal? then Booked(p + residual, i, e, t) else Booked(p, i, e + residual, t)
  }

  /** A non-negative amount cut down to the unit. */
  function TowardZeroInUnit(v: int, unit: int): int
    requires unit > 0
  {
    Times(Max(0, v) / unit, unit)
  }

  /** The lines before the debt is looked at. */
  function Lines(a: Allocation, unit: int): Booked
    requires unit > 0
  {
    var first := BookSplits(a, unit, OnPrincipal);
    if a.principal >= 0 && first.principal < 0 then BookSplits(a, unit, OnExtra) else first
  }

  function BookAllocation(a: Allocation, unit: int, debt: Option<int>): Allocation
    requires unit > 0
  {
    var lines := Lines(a, unit);
    var unpaid := if a.principal < 0 && lines.principal < 0 then -lines.principal else a.unpaidInterest;
    if debt.Some? && lines.principal + lines.extra > debt.value then
      var retired := TowardZeroInUnit(Min(a.principal + a.extra, debt.value), unit);
      var extra := Min(TowardZeroInUnit(a.extra, unit), retired);
      Allocation(retired - extra, lines.interest, extra, retired + lines.interest, unpaid)
    else Allocation(lines.principal, lines.interest, lines.extra, lines.total, unpaid)
  }

  // ----- Whole amounts -----

  lemma WholeSum(v: int, w: int, unit: int)
    requires IsWhole(v, unit) && IsWhole(w, unit)
    ensures IsWhole(v + w, unit) && IsWhole(v - w, unit)
  {
    var j, k :| Times(j, unit) == v && Times(k, unit) == w;
    assert Times(j + k, unit) == v + w && Times(j - k, unit) == v - w;
  }

  /** A whole amount between minus one unit and one unit is zero. */
  lemma WholeApart(v: int, unit: int)
    requires unit > 0 && IsWhole(v, unit) && -unit < v < unit
    ensures v == 0
  {
    var k :| Times(k, unit) == v;
    TimesApart(k, unit);
  }

  lemma TimesApart(k: int, unit: int)
    requires unit > 0
    ensures k >= 1 ==> Times(k, unit) >= unit
    ensures k <= -1 ==> Times(k, unit) <= -unit
  {
    if k >= 1 { assert (k - 1) * unit >= 0; }
    if k <= -1 { assert (-1 - k) * unit >= 0; }
  }

  lemma DivBounds(x: int, unit: int)
    requires unit > 0
    ensures x - 2 * unit < 2 * Times(x / (2 * unit), unit) <= x
  {
    assert 2 * (x / (2 * unit) * unit) == x / (2 * unit) * (2 * unit);
  }

  lemma Rounds(v: int, unit: int)
    requires unit > 0
    ensures IsWhole(RoundToUnit(v, unit), unit)
    ensures v - unit <= 2 * RoundToUnit(v, unit) - v <= v + unit
    ensures v >= 0 ==> RoundToUnit(v, unit) >= 0 && v - unit < 2 * RoundToUnit(v, unit) - v
    ensures v <= 0 ==> RoundToUnit(v, unit) <= 0 && 2 * RoundToUnit(v, unit) - v < v + unit
  {
    RoundsSize(if v >= 0 then v else -v, unit);
    TimesSigns((if v >= 0 then 2 * v + unit else -2 * v + unit) / (2 * unit), unit);
    if v < 0 { assert 2 * -v + unit == -2 * v + unit; }
  }

  /** Rounding a size, which is not negative. */
  lemma RoundsSize(v: nat, unit: int)
    requires unit > 0
    ensures var w := Times((2 * v + unit) / (2 * unit), unit);
            IsWhole(w, unit) && w >= 0 && -unit < 2 * (w - v) <= unit
  {
    var q := (2 * v + unit) / (2 * unit);
    DivBounds(2 * v + unit, unit);
    assert q >= 0;
    TimesSigns(q, unit);
  }

  lemma TimesSigns(q: int, unit: int)
    requires unit > 0
    ensures q >= 0 ==> Times(q, unit) >= 0
    ensures Times(-q, unit) == -Times(q, unit)
  {}

  lemma RoundsMonotone(v: int, w: int, unit: int)
    requires unit > 0 && 0 <= v <= w
    ensures RoundToUnit(v, unit) <= RoundToUnit(w, unit)
  {
    Rounds(v, unit);
    Rounds(w, unit);
    WholeSum(RoundToUnit(v, unit), RoundToUnit(w, unit), unit);
    if RoundToUnit(v, unit) > RoundToUnit(w, unit) {
      WholeApart(RoundToUnit(v, unit) - RoundToUnit(w, unit), unit);
    }
  }

  lemma CutDown(v: int, unit: int)
    requires unit > 0
    ensures IsWhole(TowardZeroInUnit(v, unit), unit)
    ensures Max(0, v) - unit < TowardZeroInUnit(v, unit) <= Max(0, v) && TowardZeroInUnit(v, unit) >= 0
  {
    var m := Max(0, v);
    assert m / unit >= 0;
    assert m - unit < m / unit * unit <= m;
  }

  // ----- What booking promises -----

  predicate Sums(a: Allocation) { a.total == a.principal + a.interest + a.extra }

  predicate NonNegative(a: Allocation) { a.principal >= 0 && a.interest >= 0 && a.extra >= 0 }

  ghost predicate AllWhole(a: Allocation, unit: int) {
    IsWhole(a.principal, unit) && IsWhole(a.interest, unit) && IsWhole(a.extra, unit) && IsWhole(a.total, unit)
  }

  lemma SplitsAreWhole(a: Allocation, unit: int, absorber: Absorber)
    requires unit > 0 && Sums(a)
    ensures var b := BookSplits(a, unit, absorber);
            && IsWhole(b.principal, unit) && IsWhole(b.interest, unit)
            && IsWhole(b.extra, unit) && IsWhole(b.total, unit)
            && b.total == b.principal + b.interest + b.extra
  {
    Rounds(a.principal, unit);
    Rounds(a.interest, unit);
    Rounds(a.extra, unit);
    Rounds(a.total, unit);
    var p, i, e, t :=
      RoundToUnit(a.principal, unit), RoundToUnit(a.interest, unit),
      RoundToUnit(a.extra, unit), RoundToUnit(a.total, unit);
    WholeSum(t, i, unit);
    WholeSum(t - i, e, unit);
    WholeSum(t - i, p, unit);
  }

  /** Every line is whole and the lines sum to the total exactly, whatever the allocation. */
  lemma BookingIsWhole(a: Allocation, unit: int, debt: Option<int>)
    requires unit > 0 && Sums(a)
    ensures AllWhole(BookAllocation(a, unit, debt), unit) && Sums(BookAllocation(a, unit, debt))
  {
    SplitsAreWhole(a, unit, OnPrincipal);
    SplitsAreWhole(a, unit, OnExtra);
    if debt.Some? {
      var retired := TowardZeroInUnit(Min(a.principal + a.extra, debt.value), unit);
      var extra := Min(TowardZeroInUnit(a.extra, unit), retired);
      CutDown(Min(a.principal + a.extra, debt.value), unit);
      CutDown(a.extra, unit);
      WholeSum(retired, extra, unit);
      WholeSum(retired, Lines(a, unit).interest, unit);
    }
  }

  /**
   * When rounding would turn the principal negative the extra absorbs it instead,
   * and then no line is negative: the principal was less than half a unit.
   */
  lemma LinesNonNegative(a: Allocation, unit: int)
    requires unit > 0 && Sums(a) && NonNegative(a)
    ensures var b := Lines(a, unit); b.principal >= 0 && b.interest >= 0 && b.extra >= 0
  {
    Rounds(a.principal, unit);
    Rounds(a.interest, unit);
    Rounds(a.extra, unit);
    Rounds(a.total, unit);
    SplitsAreWhole(a, unit, OnPrincipal);
    var first := BookSplits(a, unit, OnPrincipal);
    if first.principal < 0 {
      if first.principal > -unit { WholeApart(first.principal, unit); }
      WholeApart(RoundToUnit(a.principal, unit), unit);
      RoundsMonotone(a.interest, a.total, unit);
    }
  }

  /** No line of a non-negative allocation is booked negative, and no more than the debt is retired. */
  lemma BookingNeverOvershoots(a: Allocation, unit: int, debt: Option<int>)
    requires unit > 0 && Sums(a) && NonNegative(a) && (debt.Some? ==> debt.value >= 0)
    ensures NonNegative(BookAllocation(a, unit, debt))
    ensures debt.Some? ==> DebtAfter(debt.value, BookAllocation(a, unit, debt)) >= 0
  {
    LinesNonNegative(a, unit);
    CutDown(a.extra, unit);
    if debt.Some? { CutDown(Min(a.principal + a.extra, debt.value), unit); }
  }

  predicate IsCut(a: Allocation, unit: int, debt: Option<int>)
    requires unit > 0
  {
    debt.Some? && Lines(a, unit).principal + Lines(a, unit).extra > debt.value
  }

  /**
   * Booking stays near the price: interest is the nearest whole amount, and so is the total
   * unless the debt cuts it. Then less than one unit of what could be retired is left.
   */
  lemma BookingStaysNear(a: Allocation, unit: int, debt: Option<int>)
    requires unit > 0 && Sums(a) && NonNegative(a) && (debt.Some? ==> debt.value >= 0)
    ensures var b := BookAllocation(a, unit, debt);
            && a.interest - unit <= 2 * b.interest - a.interest <= a.interest + unit
            && (!IsCut(a, unit, debt) ==> a.total - unit <= 2 * b.total - a.total <= a.total + unit)
            && (IsCut(a, unit, debt) ==>
                  0 <= Min(a.principal + a.extra, debt.value) - (b.principal + b.extra) < unit)
  {
    Rounds(a.interest, unit);
    Rounds(a.total, unit);
    if IsCut(a, unit, debt) { CutDown(Min(a.principal + a.extra, debt.value), unit); }
  }

  // ----- The lines against what was priced -----

  /** `w` is the whole amount nearest to `v`, away from zero at a half. */
  ghost predicate Nearest(v: int, w: int, unit: int) {
    && IsWhole(w, unit) && -unit <= 2 * (w - v) <= unit
    && (v >= 0 ==> 2 * (w - v) > -unit)
    && (v <= 0 ==> 2 * (w - v) < unit)
  }

  /** `w` is `v` cut down to a whole amount, and nothing is less than zero. */
  ghost predicate CutTo(v: int, w: int, unit: int) {
    IsWhole(w, unit) && w >= 0 && (if v < 0 then w == 0 else v - unit < w <= v)
  }

  lemma RoundsToNearest(v: int, w: int, unit: int)
    requires unit > 0
    ensures Nearest(v, RoundToUnit(v, unit), unit)
    ensures Nearest(v, w, unit) <==> w == RoundToUnit(v, unit)
  {
    Rounds(v, unit);
    if Nearest(v, w, unit) {
      WholeSum(w, RoundToUnit(v, unit), unit);
      WholeApart(w - RoundToUnit(v, unit), unit);
    }
  }

  lemma CutsDown(v: int, w: int, unit: int)
    requires unit > 0
    ensures CutTo(v, TowardZeroInUnit(v, unit), unit)
    ensures CutTo(v, w, unit) <==> w == TowardZeroInUnit(v, unit)
  {
    CutDown(v, unit);
    if CutTo(v, w, unit) {
      WholeSum(w, TowardZeroInUnit(v, unit), unit);
      WholeApart(w - TowardZeroInUnit(v, unit), unit);
    }
  }

  /**
   * How `a`, whose lines sum to its total, is booked, given the nearest whole total and extra
   * and the extra cut down. Interest is the nearest whole amount. Of what the total leaves
   * beside it, the extra is the nearest whole amount and principal takes the rest; where that
   * would turn a priced principal negative, principal is the nearest and the extra takes the
   * rest. If it is more than the debt, no more is retired than was priced or is owed, cut down
   * to the unit: the extra as far as it goes, then principal.
   */
  ghost predicate BooksLines(a: Allocation, unit: int, debt: Option<int>, b: Allocation, total: int, extra: int,
      cut: int) {
    var left := total - b.interest;
    && Nearest(a.interest, b.interest, unit) && b.total == b.principal + b.interest + b.extra
    && (a.principal >= 0 ==> b.unpaidInterest == a.unpaidInterest)
    && if debt.Some? && left > debt.value then
         && CutTo(Min(a.principal + a.extra, debt.value), b.principal + b.extra, unit)
         && b.extra == Min(cut, b.principal + b.extra)
       else
         && b.total == total
         && if a.principal >= 0 && extra > left then Nearest(a.principal, b.principal, unit) else b.extra == extra
  }

  ghost predicate IsBooked(a: Allocation, unit: int, debt: Option<int>, b: Allocation) {
    forall total, extra, cut ::
      Nearest(a.total, total, unit) && Nearest(a.extra, extra, unit) && CutTo(a.extra, cut, unit) ==>
        BooksLines(a, unit, debt, b, total, extra, cut)
  }

  lemma LinesOfRounded(a: Allocation, unit: int, debt: Option<int>)
    requires unit > 0 && Sums(a)
    ensures BooksLines(a, unit, debt, BookAllocation(a, unit, debt),
                       RoundToUnit(a.total, unit), RoundToUnit(a.extra, unit), TowardZeroInUnit(a.extra, unit))
  {
    RoundsToNearest(a.interest, 0, unit);
    RoundsToNearest(a.principal, 0, unit);
    if debt.Some? { CutsDown(Min(a.principal + a.extra, debt.value), 0, unit); }
  }

  lemma LinesAsPriced(a: Allocation, unit: int, debt: Option<int>)
    requires unit > 0 && Sums(a)
    ensures IsBooked(a, unit, debt, BookAllocation(a, unit, debt))
  {
    var b := BookAllocation(a, unit, debt);
    LinesOfRounded(a, unit, debt);
    forall total, extra, cut | Nearest(a.total, total, unit) && Nearest(a.extra, extra, unit) &&
                               CutTo(a.extra, cut, unit)
      ensures BooksLines(a, unit, debt, b, total, extra, cut)
    {
      RoundsToNearest(a.total, total, unit);
      RoundsToNearest(a.extra, extra, unit);
      CutsDown(a.extra, cut, unit);
    }
  }

  /** Lines that do not sum to their total are each rounded, and nothing is made up. */
  lemma UnbalancedLines(a: Allocation, unit: int)
    requires unit > 0 && !Sums(a)
    ensures var b := BookAllocation(a, unit, None);
            && Nearest(a.principal, b.principal, unit) && Nearest(a.interest, b.interest, unit)
            && Nearest(a.extra, b.extra, unit) && Nearest(a.total, b.total, unit)
  {
    RoundsToNearest(a.principal, 0, unit);
    RoundsToNearest(a.interest, 0, unit);
    RoundsToNearest(a.extra, 0, unit);
    RoundsToNearest(a.total, 0, unit);
  }

  /** 800.00 of principal, 300.00 of interest and 100.00 of extra, in cents, are booked as they are. */
  lemma WholeLinesAreKept(a: Allocation)
    requires a == Allocation(8000000, 3000000, 1000000, 12000000, 0)
    ensures BookAllocation(a, 100, Some(500000000)) == a
  {
    assert Times(30000, 100) == 3000000 && Times(10000, 100) == 1000000 && Times(120000, 100) == 12000000;
    LinesAsPriced(a, 100, Some(500000000));
    RoundsToNearest(3000000, 3000000, 100);
    assert Nearest(a.total, 12000000, 100) && Nearest(a.extra, 1000000, 100) && CutTo(a.extra, 1000000, 100);
  }

  /** A debt booked in the unit is retired exactly by the installment that retires it all. */
  lemma FinalInstallmentIsExact(a: Allocation, unit: int, debt: int)
    requires unit > 0 && Sums(a) && NonNegative(a) && IsWhole(debt, unit) && a.principal + a.extra == debt
    ensures DebtAfter(debt, BookAllocation(a, unit, Some(debt))) == 0
  {
    Rounds(a.interest, unit);
    Rounds(a.total, unit);
    var i, t := RoundToUnit(a.interest, unit), RoundToUnit(a.total, unit);
    LinesNonNegative(a, unit);
    SplitsAreWhole(a, unit, OnPrincipal);
    SplitsAreWhole(a, unit, OnExtra);
    WholeSum(t, i, unit);
    WholeSum(t - i, debt, unit);
    ShiftedRounding(a.interest, debt, unit);
  }

  /** Adding a whole amount shifts the rounding by exactly it. */
  lemma ShiftedRounding(v: int, whole: int, unit: int)
    requires unit > 0 && v >= 0 && whole >= 0 && IsWhole(whole, unit)
    ensures RoundToUnit(v + whole, unit) == RoundToUnit(v, unit) + whole
  {
    Rounds(v, unit);
    Rounds(v + whole, unit);
    WholeSum(RoundToUnit(v + whole, unit), RoundToUnit(v, unit), unit);
    WholeSum(RoundToUnit(v + whole, unit) - RoundToUnit(v, unit), whole, unit);
    WholeApart(RoundToUnit(v + whole, unit) - RoundToUnit(v, unit) - whole, unit);
  }

  /**
   * A capitalized shortfall as booked: the debt rises by the interest less the installment,
   * each rounded, and that is what `unpaidInterest` reports exactly while the two round apart.
   * Where the shortfall rounds away the debt stays, and the unrounded shortfall is reported.
   */
  lemma ShortfallAsBooked(i: Input, unit: int)
    requires unit > 0 && i.balance.Some? && i.balance.value >= 0 && Allocate(i).principal < 0
    ensures var booked := BookAllocation(Allocate(i), unit, i.balance);
            var rise := DebtAfter(i.balance.value, booked) - i.balance.value;
            && rise == RoundToUnit(i.interest, unit) - RoundToUnit(i.payment, unit) >= 0
            && (rise == booked.unpaidInterest <==> RoundToUnit(i.interest, unit) > RoundToUnit(i.payment, unit))
            && (rise == 0 ==> booked.unpaidInterest == i.interest - i.payment > 0)
  {
    RoundsMonotone(i.payment, i.interest, unit);
    assert RoundToUnit(0, unit) == 0 by { Rounds(0, unit); WholeApart(RoundToUnit(0, unit), unit); }
  }

  /** 1.0049 of interest on an installment of 1.0001: in cents nothing is short, and 0.0048 is reported. */
  lemma ShortfallRoundsAway(i: Input)
    requires i == Input(10001, 0, 10049, 0, Some(50000), true)
    ensures var booked := BookAllocation(Allocate(i), 100, i.balance);
            DebtAfter(50000, booked) == 50000 && booked.unpaidInterest == 48
  {
    assert RoundToUnit(10001, 100) == 10000 && RoundToUnit(10049, 100) == 10000;
    ShortfallAsBooked(i, 100);
  }

  /** Everything that can be booked honestly: whole lines, an exact sum, nothing negative and no overpaid debt. */
  ghost predicate IsHonest(a: Allocation, unit: int, debt: Option<int>, booked: Allocation) {
    && AllWhole(booked, unit) && Sums(booked)
    && (NonNegative(a) && (debt.Some? ==> debt.value >= 0) ==>
          NonNegative(booked) && (debt.Some? ==> DebtAfter(debt.value, booked) >= 0))
    && (NonNegative(a) && debt.Some? && IsWhole(debt.value, unit) && a.principal + a.extra == debt.value ==>
          DebtAfter(debt.value, booked) == 0)
  }

  lemma BookingIsHonest(a: Allocation, unit: int, debt: Option<int>)
    requires unit > 0 && Sums(a)
    ensures IsHonest(a, unit, debt, BookAllocation(a, unit, debt))
  {
    BookingIsWhole(a, unit, debt);
    if NonNegative(a) && (debt.Some? ==> debt.value >= 0) {
      BookingNeverOvershoots(a, unit, debt);
      if debt.Some? && IsWhole(debt.value, unit) && a.principal + a.extra == debt.value {
        FinalInstallmentIsExact(a, unit, debt.value);
      }
    }
  }

  method BookLoanAllocation(a: Allocation, unit: int, debt: Option<int>) returns (booked: Allocation)
    requires unit > 0
    ensures booked == BookAllocation(a, unit, debt)
    ensures Sums(a) ==> IsBooked(a, unit, debt, booked) && IsHonest(a, unit, debt, booked)
  {
    var lines := BookSplits(a, unit, OnPrincipal);
    if a.principal >= 0 && lines.principal < 0 {
      lines := BookSplits(a, unit, OnExtra);
    }
    var unpaid := if a.principal < 0 && lines.principal < 0 then -lines.principal else a.unpaidInterest;
    if debt.Some? && lines.principal + lines.extra > debt.value {
      var retired := TowardZeroInUnit(Min(a.principal + a.extra, debt.value), unit);
      var extra := Min(TowardZeroInUnit(a.extra, unit), retired);
      var principal := retired - extra;
      booked := Allocation(principal, lines.interest, extra, principal + lines.interest + extra, unpaid);
    } else {
      booked := Allocation(lines.principal, lines.interest, lines.extra, lines.total, unpaid);
    }
    assert booked == BookAllocation(a, unit, debt);
    if Sums(a) {
      LinesAsPriced(a, unit, debt);
      BookingIsHonest(a, unit, debt);
    }
  }

  // ----- Pricing and booking, installment after installment -----

  function BookedInstallment(debt: int, input: Input, unit: int): Allocation
    requires unit > 0
  {
    BookAllocation(Allocate(input.(balance := Some(debt))), unit, Some(debt))
  }

  function BookedDebtOver(debt: int, inputs: seq<Input>, unit: int): int
    requires unit > 0
    decreases |inputs|
  {
    if inputs == [] then debt
    else BookedDebtOver(DebtAfter(debt, BookedInstallment(debt, inputs[0], unit)), inputs[1..], unit)
  }

  lemma BookedStep(debt: int, input: Input, unit: int)
    requires unit > 0 && debt >= 0 && IsWhole(debt, unit) && input.payment >= 0
    ensures var debt' := DebtAfter(debt, BookedInstallment(debt, input, unit));
            debt' >= 0 && IsWhole(debt', unit)
  {
    var a := Allocate(input.(balance := Some(debt)));
    var b := BookedInstallment(debt, input, unit);
    InstallmentIsSound(input.(balance := Some(debt)));
    BookingIsWhole(a, unit, Some(debt));
    WholeSum(b.principal, b.extra, unit);
    WholeSum(debt, b.principal + b.extra, unit);
    if a.principal >= 0 {
      BookingNeverOvershoots(a, unit, Some(debt));
    } else {
      CutDown(Min(a.principal + a.extra, debt), unit);
    }
  }

  /** A ledger kept in whole units stays in whole units and never goes into credit. */
  lemma {:induction false} BookedRun(debt: int, inputs: seq<Input>, unit: int)
    requires unit > 0 && debt >= 0 && IsWhole(debt, unit)
    requires forall k :: 0 <= k < |inputs| ==> inputs[k].payment >= 0
    ensures BookedDebtOver(debt, inputs, unit) >= 0 && IsWhole(BookedDebtOver(debt, inputs, unit), unit)
    decreases |inputs|
  {
    if inputs == [] {
    } else {
      BookedStep(debt, inputs[0], unit);
      BookedRun(DebtAfter(debt, BookedInstallment(debt, inputs[0], unit)), inputs[1..], unit);
    }
  }
}
