/**
 * The balance forecast: scheduled occurrences and future-dated rows become per-day
 * deltas, the deltas a sparse running series, and the series a value for every day.
 * A date is a day number and money is in ten-thousandths.
 */
module Forecast {
  import opened Options
  import opened Integers

  datatype Reason = UnresolvedSettlementRate | CrossCurrencyTransfer

  /** `amount` is `None` when the occurrence cannot be priced. */
  datatype Occurrence = Occurrence(
    schedule: nat, account: nat, transfer: Option<nat>,
    due: int, overdue: bool, amount: Option<int>, reason: Option<Reason>)

  datatype Gap = Gap(schedule: nat, reason: Reason)

  datatype Point = Point(date: int, balance: int)

  datatype Landing = Landing(date: int, overdue: bool)

  /** An occurrence due on or before today lands on the first projected day. */
  function ForecastLanding(due: int, today: int): Landing {
    if due > today then Landing(due, false) else Landing(today + 1, due < today)
  }

  /** What is due by today lands tomorrow, the rest on its day; only what was due before today is overdue. */
  lemma LandingExactly(due: int, today: int)
    ensures ForecastLanding(due, today).date == Max(due, today + 1)
    ensures ForecastLanding(due, today).overdue <==> due < today
  {}

  predicate Touches(o: Occurrence, account: nat) {
    o.account == account || o.transfer == Some(account)
  }

  method DeltaFor(o: Occurrence, account: nat, amount: int) returns (delta: int)
    ensures delta == Delta(o, account, amount)
    ensures !Touches(o, account) ==> delta == 0
    ensures o.account != account ==> delta >= 0
    ensures o.account == account && o.transfer == Some(account) ==> (delta == 0 <==> amount <= 0)
  {
    delta := 0;
    if o.account == account { delta := delta + amount; }
    if o.transfer == Some(account) { delta := delta + Abs(amount); }
  }

  /** The source side moves by the amount, the destination receives its magnitude. */
  function Delta(o: Occurrence, account: nat, amount: int): int {
    (if o.account == account then amount else 0) + (if o.transfer == Some(account) then Abs(amount) else 0)
  }

  /** A priced transfer nets to zero across its two accounts exactly when it is an outflow. */
  lemma TransferNetsToZero(o: Occurrence, source: nat, target: nat, amount: int)
    requires source != target && o.account == source && o.transfer == Some(target)
    ensures Delta(o, source, amount) + Delta(o, target, amount) == 0 <==> amount <= 0
  {}

  /** The net over several accounts. */
  function DeltaOver(o: Occurrence, accounts: seq<nat>, amount: int): int {
    if accounts == [] then 0
    else DeltaOver(o, accounts[..|accounts| - 1], amount) + Delta(o, accounts[|accounts| - 1], amount)
  }

  /**
   * Over any accounts, each counted once, the source moves by the amount and the destination by its
   * magnitude, once.
   */
  lemma {:induction false} DeltaOverAccounts(o: Occurrence, accounts: seq<nat>, amount: int)
    requires forall i, j :: 0 <= i < j < |accounts| ==> accounts[i] != accounts[j]
    ensures DeltaOver(o, accounts, amount) ==
            (if o.account in accounts then amount else 0) +
            (if o.transfer.Some? && o.transfer.value in accounts then Abs(amount) else 0)
  {
    if accounts == [] {
    } else {
      var init, last := accounts[..|accounts| - 1], accounts[|accounts| - 1];
      DeltaOverAccounts(o, init, amount);
      assert accounts == init + [last];
      assert last !in init;
    }
  }

  /** Over all accounts, then, an outflow to outside costs its amount and one to another account nothing. */
  lemma OutflowIsConserved(o: Occurrence, accounts: seq<nat>, amount: int)
    requires forall i, j :: 0 <= i < j < |accounts| ==> accounts[i] != accounts[j]
    requires o.account in accounts && (o.transfer.Some? ==> o.transfer.value in accounts)
    ensures DeltaOver(o, accounts, amount) == (if o.transfer.Some? then 0 else amount) <==>
            o.transfer.None? || amount <= 0
  {
    DeltaOverAccounts(o, accounts, amount);
  }

  // ----- The simple specification -----

  function Get(m: map<int, int>, day: int): int { if day in m then m[day] else 0 }

  /** What one occurrence moves the account by, nothing when it is not priced. */
  function Move(o: Occurrence, account: nat): int {
    if o.amount.Some? then Delta(o, account, o.amount.value) else 0
  }

  /** The net of the occurrences applied on days in (from, through]. */
  function Landed(os: seq<Occurrence>, account: nat, from: int, through: int): int {
    if os == [] then 0
    else Landed(os[..|os| - 1], account, from, through) +
         if from < os[|os| - 1].due <= through then Move(os[|os| - 1], account) else 0
  }

  function LandedOn(os: seq<Occurrence>, account: nat, day: int): int {
    Landed(os, account, day - 1, day)
  }

  /** The sum of a day map over (from, through]. */
  function Summed(m: map<int, int>, from: int, through: int): int
    decreases through - from
  {
    if through <= from then 0 else Summed(m, from, through - 1) + Get(m, through)
  }

  // ----- Accumulating the deltas -----

  predicate Unpriced(o: Occurrence, account: nat) { Touches(o, account) && o.amount.None? }

  /** The overdue record: how many overdue occurrences touch the account, and their priced net. */
  function OverdueCount(os: seq<Occurrence>, account: nat): nat {
    if os == [] then 0
    else OverdueCount(os[..|os| - 1], account) +
         if Touches(os[|os| - 1], account) && os[|os| - 1].overdue then 1 else 0
  }

  function OverdueAmount(os: seq<Occurrence>, account: nat): int {
    if os == [] then 0
    else OverdueAmount(os[..|os| - 1], account) +
         if os[|os| - 1].overdue then Move(os[|os| - 1], account) else 0
  }

  predicate Reported(gaps: seq<Gap>, schedule: nat) {
    exists i :: 0 <= i < |gaps| && gaps[i].schedule == schedule
  }

  /** A schedule is reported once, however many of its occurrences cannot be priced. */
  function WithGap(gaps: seq<Gap>, o: Occurrence): seq<Gap> {
    if Reported(gaps, o.schedule) then gaps
    else gaps + [Gap(o.schedule, if o.reason.Some? then o.reason.value else UnresolvedSettlementRate)]
  }

  function Gaps(os: seq<Occurrence>, account: nat): seq<Gap> {
    if os == [] then []
    else
      var before := Gaps(os[..|os| - 1], account);
      if Unpriced(os[|os| - 1], account) then WithGap(before, os[|os| - 1]) else before
  }

  /** The gap list names exactly the schedules with an unpriced occurrence, each once. */
  lemma {:induction false} GapsAreExact(os: seq<Occurrence>, account: nat)
    ensures forall i, j :: 0 <= i < j < |Gaps(os, account)| ==>
            Gaps(os, account)[i].schedule != Gaps(os, account)[j].schedule
    ensures forall schedule ::
              Reported(Gaps(os, account), schedule) <==>
              exists k :: 0 <= k < |os| && Unpriced(os[k], account) && os[k].schedule == schedule
  {
    if os == [] {
    } else {
      var init, last := os[..|os| - 1], os[|os| - 1];
      GapsAreExact(init, account);
      var before, gaps := Gaps(init, account), Gaps(os, account);
      forall schedule
        ensures Reported(gaps, schedule) <==>
                exists k :: 0 <= k < |os| && Unpriced(os[k], account) && os[k].schedule == schedule
      {
        if k :| 0 <= k < |os| && Unpriced(os[k], account) && os[k].schedule == schedule {
          if k < |os| - 1 {
            assert Unpriced(init[k], account) && init[k].schedule == schedule;
            assert Reported(before, schedule);
            var i :| 0 <= i < |before| && before[i].schedule == schedule;
            assert gaps[i] == before[i];
          } else if !Reported(before, schedule) {
            assert gaps[|before|].schedule == schedule;
          }
        }
        if i :| 0 <= i < |gaps| && gaps[i].schedule == schedule {
          if i < |before| {
            assert Reported(before, schedule);
            var k :| 0 <= k < |init| && Unpriced(init[k], account) && init[k].schedule == schedule;
            assert os[k] == init[k];
          }
        }
      }
    }
  }

  /** A gap gives the reason of the first occurrence of its schedule without a price, or the rate if that gives none. */
  lemma {:induction false} GapReason(os: seq<Occurrence>, account: nat, gap: Gap)
    requires gap in Gaps(os, account)
    ensures exists k :: 0 <= k < |os| && IsGapOf(os, account, gap, k)
  {
    var init, last := os[..|os| - 1], os[|os| - 1];
    GapsAreExact(init, account);
    if gap in Gaps(init, account) {
      GapReason(init, account, gap);
      var k :| 0 <= k < |init| && IsGapOf(init, account, gap, k);
      assert forall j :: 0 <= j < |init| ==> init[j] == os[j];
      assert IsGapOf(os, account, gap, k);
    } else {
      assert !Reported(Gaps(init, account), last.schedule);
      assert IsGapOf(os, account, gap, |os| - 1);
    }
  }

  ghost predicate IsGapOf(os: seq<Occurrence>, account: nat, gap: Gap, k: int) {
    && 0 <= k < |os| && os[k].amount.None? && (os[k].account == account || os[k].transfer == Some(account))
    && gap.schedule == os[k].schedule
    && gap.reason == (if os[k].reason.Some? then os[k].reason.value else UnresolvedSettlementRate)
    && forall j :: 0 <= j < k && os[j].schedule == gap.schedule ==> !Unpriced(os[j], account)
  }

  lemma CompleteExactly(os: seq<Occurrence>, account: nat)
    ensures Gaps(os, account) == [] <==> forall k :: 0 <= k < |os| ==> !Unpriced(os[k], account)
  {
    GapsAreExact(os, account);
    var gaps := Gaps(os, account);
    if gaps != [] {
      assert Reported(gaps, gaps[0].schedule);
    } else {
      forall k | 0 <= k < |os| ensures !Unpriced(os[k], account) {
        assert !Reported(gaps, os[k].schedule);
      }
    }
  }

  method AccumulateForecastDeltas(os: seq<Occurrence>, account: nat, actual: map<int, int>)
    returns (byDate: map<int, int>, gaps: seq<Gap>, count: nat, amount: int)
    ensures forall d :: Get(byDate, d) == Get(actual, d) + LandedOn(os, account, d)
    ensures gaps == Gaps(os, account)
    ensures count == OverdueCount(os, account) && amount == OverdueAmount(os, account)
  {
    byDate, gaps, count, amount := actual, [], 0, 0;
    forall d ensures LandedOn(os[..0], account, d) == 0 {}
    for i := 0 to |os|
      invariant forall d :: Get(byDate, d) == Get(actual, d) + LandedOn(os[..i], account, d)
      invariant gaps == Gaps(os[..i], account)
      invariant count == OverdueCount(os[..i], account) && amount == OverdueAmount(os[..i], account)
    {
      var o := os[i];
      assert os[..i + 1][..i] == os[..i] && os[..i + 1][i] == o;
      if Touches(o, account) {
        if o.overdue { count := count + 1; }
        if o.amount.None? {
          gaps := WithGap(gaps, o);
        } else {
          var delta := DeltaFor(o, account, o.amount.value);
          if o.overdue { amount := amount + delta; }
          if delta != 0 {
            byDate := byDate[o.due := Get(byDate, o.due) + delta];
          }
        }
      }
    }
    assert os[..|os|] == os;
  }

  // ----- The sparse series -----

  ghost predicate Ascending(dates: seq<int>) {
    forall i, j :: 0 <= i < j < |dates| ==> dates[i] < dates[j]
  }

  ghost predicate InOrder(points: seq<Point>) {
    forall i, j :: 0 <= i < j < |points| ==> points[i].date < points[j].date
  }

  /** The map's keys in (from, through], filtered and sorted. */
  function SortedKeys(m: map<int, int>, from: int, through: int): (dates: seq<int>)
    ensures Ascending(dates)
    ensures forall d :: d in dates <==> d in m && from < d <= through
    decreases through - from
  {
    if through <= from then []
    else
      var before := SortedKeys(m, from, through - 1);
      assert forall i :: 0 <= i < |before| ==> before[i] in before;
      if through in m then before + [through] else before
  }

  /** The most recent point on or before `day`. */
  function ValueAt(points: seq<Point>, day: int): Option<int> {
    if points == [] then None
    else if points[|points| - 1].date <= day then Some(points[|points| - 1].balance)
    else ValueAt(points[..|points| - 1], day)
  }

  method BuildForecastSeries(start: int, today: int, horizon: int, deltas: map<int, int>)
    returns (series: seq<Point>)
    ensures series != [] && InOrder(series) && series[0].date == today
    ensures forall d :: today <= d <= horizon ==> ValueAt(series, d) == Some(start + Summed(deltas, today, d))
  {
    var dates := SortedKeys(deltas, today, horizon);
    var balance := start;
    series := [Point(today, balance)];
    ghost var reached := today;
    for i := 0 to |dates|
      invariant |series| == i + 1 && series[0].date == today && InOrder(series) && series[i] == Point(reached, balance)
      invariant reached == (if i == 0 then today else dates[i - 1])
      invariant today <= reached && balance == start + Summed(deltas, today, reached)
      invariant forall d :: today <= d <= reached ==> ValueAt(series, d) == Some(start + Summed(deltas, today, d))
    {
      var d := dates[i];
      assert d in dates;
      forall k | reached < k < d ensures k !in deltas {
        if k in deltas { BetweenKeys(dates, i, k); }
      }
      forall e | reached <= e < d ensures Summed(deltas, today, e) == Summed(deltas, today, reached) {
        QuietDays(deltas, today, reached, e);
      }
      balance := balance + Get(deltas, d);
      var longer := series + [Point(d, balance)];
      forall e | today <= e <= d ensures ValueAt(longer, e) == Some(start + Summed(deltas, today, e)) {
        assert longer[..i + 1] == series;
      }
      series := longer;
      reached := d;
    }
    forall e | reached <= e <= horizon ensures Summed(deltas, today, e) == Summed(deltas, today, reached) {
      forall k | reached < k <= e ensures k !in deltas {
        assert k in deltas ==> k in dates;
      }
      QuietDays(deltas, today, reached, e);
    }
  }

  /** No date of an ascending list lies strictly between two neighbours. */
  lemma BetweenKeys(dates: seq<int>, i: nat, k: int)
    requires Ascending(dates) && i < |dates| && k < dates[i] && (i > 0 ==> dates[i - 1] < k)
    ensures k !in dates
  {}

  lemma {:induction false} QuietDays(m: map<int, int>, today: int, from: int, through: int)
    requires today <= from <= through && forall k :: from < k <= through ==> k !in m
    ensures Summed(m, today, through) == Summed(m, today, from)
    decreases through - from
  {
    if from == through {
    } else {
      QuietDays(m, today, from, through - 1);
    }
  }

  // ----- The forward fill -----

  method ForwardFill(points: seq<Point>, dates: seq<int>) returns (filled: map<int, int>)
    requires InOrder(points) && Ascending(dates)
    ensures forall d :: d in filled <==> d in dates && ValueAt(points, d).Some?
    ensures forall d :: d in filled ==> ValueAt(points, d) == Some(filled[d])
  {
    filled := map[];
    var index := 0;
    var current: Option<int> := None;
    for i := 0 to |dates|
      invariant index <= |points| && (i > 0 ==> forall k :: 0 <= k < index ==> points[k].date <= dates[i - 1])
      invariant i == 0 ==> index == 0
      invariant current == if index == 0 then None else Some(points[index - 1].balance)
      invariant forall d :: d in filled <==> d in dates[..i] && ValueAt(points, d).Some?
      invariant forall d :: d in filled ==> ValueAt(points, d) == Some(filled[d])
    {
      var date := dates[i];
      while index < |points| && points[index].date <= date
        invariant index <= |points| && forall k :: 0 <= k < index ==> points[k].date <= date
        invariant current == if index == 0 then None else Some(points[index - 1].balance)
      {
        current := Some(points[index].balance);
        index := index + 1;
      }
      LastNotAfter(points, date, index);
      assert dates[..i + 1] == dates[..i] + [date];
      if current.Some? {
        filled := filled[date := current.value];
      }
    }
    assert dates[..|dates|] == dates;
  }

  lemma {:induction false} LastNotAfter(points: seq<Point>, day: int, index: nat)
    requires index <= |points| && forall k :: 0 <= k < index ==> points[k].date <= day
    requires forall k :: index <= k < |points| ==> points[k].date > day
    ensures ValueAt(points, day) == if index == 0 then None else Some(points[index - 1].balance)
    decreases |points|
  {
    if index == |points| {
    } else {
      LastNotAfter(points[..|points| - 1], day, index);
    }
  }

  // ----- The pipeline -----

  lemma {:induction false} LandedSplits(os: seq<Occurrence>, account: nat, from: int, middle: int, through: int)
    requires from <= middle <= through
    ensures Landed(os, account, from, through) ==
            Landed(os, account, from, middle) + Landed(os, account, middle, through)
  {
    if os == [] {
    } else {
      LandedSplits(os[..|os| - 1], account, from, middle, through);
    }
  }

  lemma {:induction false} NothingLands(os: seq<Occurrence>, account: nat, day: int)
    ensures Landed(os, account, day, day) == 0
  {
    if os == [] {
    } else {
      NothingLands(os[..|os| - 1], account, day);
    }
  }

  /** Summing the accumulated map day by day sums the occurrences themselves. */
  lemma {:induction false} DaysSumOccurrences(
      byDate: map<int, int>, actual: map<int, int>, os: seq<Occurrence>, account: nat, from: int, through: int)
    requires from <= through
    requires forall d :: Get(byDate, d) == Get(actual, d) + LandedOn(os, account, d)
    ensures Summed(byDate, from, through) == Summed(actual, from, through) + Landed(os, account, from, through)
    decreases through - from
  {
    if from == through {
      NothingLands(os, account, from);
    } else {
      DaysSumOccurrences(byDate, actual, os, account, from, through - 1);
      LandedSplits(os, account, from, through - 1, through);
    }
  }

  // ----- Order and overdue items -----

  function Without(os: seq<Occurrence>, i: nat): seq<Occurrence>
    requires i < |os|
  {
    os[..i] + os[i + 1..]
  }

  lemma WithoutCounts(os: seq<Occurrence>, i: nat)
    requires i < |os|
    ensures multiset(Without(os, i)) == multiset(os) - multiset{os[i]}
  {
    assert os == os[..i] + [os[i]] + os[i + 1..];
  }

  lemma {:induction false} TakeOut(os: seq<Occurrence>, i: nat, account: nat, from: int, through: int)
    requires i < |os|
    ensures Landed(os, account, from, through) == Landed(Without(os, i), account, from, through) +
            if from < os[i].due <= through then Move(os[i], account) else 0
    decreases |os|
  {
    var last := |os| - 1;
    if i == last {
      assert Without(os, i) == os[..last];
    } else {
      TakeOut(os[..last], i, account, from, through);
      assert Without(os, i)[..last - 1] == Without(os[..last], i);
      assert Without(os, i)[last - 1] == os[last];
    }
  }

  /** What lands does not depend on the order of the occurrences. */
  lemma {:induction false} AnyOrder(os: seq<Occurrence>, qs: seq<Occurrence>, account: nat, from: int, through: int)
    requires multiset(os) == multiset(qs)
    ensures Landed(os, account, from, through) == Landed(qs, account, from, through)
    decreases |os|
  {
    if os == [] {
      assert |multiset(qs)| == 0;
    } else {
      var last := os[|os| - 1];
      assert os == os[..|os| - 1] + [last];
      assert last in multiset(qs);
      var i :| 0 <= i < |qs| && qs[i] == last;
      WithoutCounts(qs, i);
      assert multiset(os[..|os| - 1]) == multiset(os) - multiset{last};
      TakeOut(qs, i, account, from, through);
      AnyOrder(os[..|os| - 1], Without(qs, i), account, from, through);
    }
  }

  // ----- What is carried -----

  /** How far back an unposted occurrence is still owed; an older one is read as forgotten. */
  const OVERDUE_CARRY_DAYS := 31

  function CarryFrom(today: int): int { today - OVERDUE_CARRY_DAYS }

  /** The occurrence is expanded, and its money moves through the account. */
  predicate Carried(o: Occurrence, account: nat, today: int, horizon: int) {
    CarryFrom(today) <= o.due <= horizon && Touches(o, account)
  }

  /** The occurrences as the projection receives them, each on the day it lands. */
  function Inputs(os: seq<Occurrence>, account: nat, today: int, horizon: int): seq<Occurrence> {
    if os == [] then []
    else
      var o := os[|os| - 1];
      var at := ForecastLanding(o.due, today);
      Inputs(os[..|os| - 1], account, today, horizon) +
      if Carried(o, account, today, horizon) then [o.(due := at.date, overdue := at.overdue)] else []
  }

  lemma OneMoreLanded(os: seq<Occurrence>, o: Occurrence, account: nat, from: int, through: int)
    ensures Landed(os + [o], account, from, through) ==
            Landed(os, account, from, through) + if from < o.due <= through then Move(o, account) else 0
  {
    assert (os + [o])[..|os|] == os;
  }

  /**
   * Overdue items within the carry window are never dropped: what lands in the days after
   * today is everything due from its first day on.
   */
  lemma {:induction false} OverdueIsCarried(os: seq<Occurrence>, account: nat, today: int, horizon: int, day: int)
    requires today < day <= horizon
    ensures Landed(Inputs(os, account, today, horizon), account, today, day) ==
            Landed(os, account, today - 32, day)
  {
    if os == [] {
    } else {
      var init, o := os[..|os| - 1], os[|os| - 1];
      var at := ForecastLanding(o.due, today);
      OverdueIsCarried(init, account, today, horizon, day);
      if Carried(o, account, today, horizon) {
        OneMoreLanded(Inputs(init, account, today, horizon), o.(due := at.date, overdue := at.overdue), account,
            today, day);
      } else {
        assert Inputs(os, account, today, horizon) == Inputs(init, account, today, horizon);
      }
    }
  }

  /** The net of everything due by a day and still unposted, however long ago it fell due. */
  function DueBy(os: seq<Occurrence>, account: nat, through: int): int {
    if os == [] then 0
    else DueBy(os[..|os| - 1], account, through) +
         if os[|os| - 1].due <= through then Move(os[|os| - 1], account) else 0
  }

  /** What is forgotten: the forecast is short of all that is due by exactly what is older than the carry window. */
  lemma {:induction false} OlderIsForgotten(os: seq<Occurrence>, account: nat, today: int, day: int)
    requires today < day
    ensures DueBy(os, account, day) - Landed(os, account, today - 32, day) == DueBy(os, account, today - 32)
  {
    if os == [] {
    } else {
      OlderIsForgotten(os[..|os| - 1], account, today, day);
    }
  }

  predicate HasUnpriced(os: seq<Occurrence>, account: nat) {
    exists k :: 0 <= k < |os| && Unpriced(os[k], account)
  }

  predicate HasUnpricedCarried(os: seq<Occurrence>, account: nat, today: int, horizon: int) {
    exists k :: 0 <= k < |os| && Carried(os[k], account, today, horizon) && os[k].amount.None?
  }

  lemma OneMoreInput(os: seq<Occurrence>, o: Occurrence, account: nat)
    ensures HasUnpriced(os + [o], account) <==> HasUnpriced(os, account) || Unpriced(o, account)
  {
    var all := os + [o];
    assert all[|os|] == o && forall k :: 0 <= k < |os| ==> all[k] == os[k];
  }

  lemma OneMoreCarried(os: seq<Occurrence>, o: Occurrence, account: nat, today: int, horizon: int)
    ensures HasUnpricedCarried(os + [o], account, today, horizon) <==>
            HasUnpricedCarried(os, account, today, horizon) || (Carried(o, account, today, horizon) && o.amount.None?)
  {
    var all := os + [o];
    assert all[|os|] == o && forall k :: 0 <= k < |os| ==> all[k] == os[k];
  }

  /** The projection meets an unpriced input exactly when an occurrence that is carried has no price. */
  lemma {:induction false} UnpricedInputs(os: seq<Occurrence>, account: nat, today: int, horizon: int)
    ensures HasUnpriced(Inputs(os, account, today, horizon), account) <==>
            HasUnpricedCarried(os, account, today, horizon)
  {
    if os == [] {
    } else {
      var init, o := os[..|os| - 1], os[|os| - 1];
      var at := ForecastLanding(o.due, today);
      UnpricedInputs(init, account, today, horizon);
      assert os == init + [o];
      OneMoreCarried(init, o, account, today, horizon);
      OneMoreInput(Inputs(init, account, today, horizon), o.(due := at.date, overdue := at.overdue), account);
      assert Inputs(init, account, today, horizon) + [] == Inputs(init, account, today, horizon);
    }
  }

  // ----- What is overdue -----

  /** Unposted, of the account, due before today but no more than 31 days before. */
  predicate IsLate(o: Occurrence, account: nat, today: int, horizon: int) {
    today - 31 <= o.due < today && o.due <= horizon && (o.account == account || o.transfer == Some(account))
  }

  function Late(os: seq<Occurrence>, account: nat, today: int, horizon: int): set<int> {
    set k | 0 <= k < |os| && IsLate(os[k], account, today, horizon)
  }

  lemma OneMoreOverdue(os: seq<Occurrence>, o: Occurrence, account: nat)
    ensures OverdueCount(os + [o], account) ==
            OverdueCount(os, account) + if Touches(o, account) && o.overdue then 1 else 0
    ensures OverdueAmount(os + [o], account) == OverdueAmount(os, account) + if o.overdue then Move(o, account) else 0
  {
    assert (os + [o])[..|os|] == os;
  }

  lemma OneMoreLate(os: seq<Occurrence>, account: nat, today: int, horizon: int)
    requires os != []
    ensures var last := |os| - 1;
            |Late(os, account, today, horizon)| ==
            |Late(os[..last], account, today, horizon)| + if IsLate(os[last], account, today, horizon) then 1 else 0
  {
    var last: int := |os| - 1;
    assert Late(os, account, today, horizon) ==
           Late(os[..last], account, today, horizon) + if IsLate(os[last], account, today, horizon) then {last} else {};
  }

  /** The overdue record counts those, each once, and nets what they move the account by. */
  lemma {:induction false} OverdueExactly(os: seq<Occurrence>, account: nat, today: int, horizon: int)
    ensures OverdueCount(Inputs(os, account, today, horizon), account) == |Late(os, account, today, horizon)|
    ensures OverdueAmount(Inputs(os, account, today, horizon), account) ==
            Landed(os, account, today - 32, Min(today - 1, horizon))
  {
    if os == [] {
    } else {
      var init, o := os[..|os| - 1], os[|os| - 1];
      var at := ForecastLanding(o.due, today);
      OverdueExactly(init, account, today, horizon);
      OneMoreLate(os, account, today, horizon);
      if Carried(o, account, today, horizon) {
        OneMoreOverdue(Inputs(init, account, today, horizon), o.(due := at.date, overdue := at.overdue), account);
      } else {
        assert Inputs(os, account, today, horizon) == Inputs(init, account, today, horizon);
      }
    }
  }

  // ----- The whole pipeline -----

  /** Applied on the first projected day, so that a reader can tell why it drops. */
  datatype Overdue = Overdue(date: int, count: nat, amount: int)

  /** An occurrence of the account, due in the window, that cannot be priced. */
  ghost predicate Withholds(os: seq<Occurrence>, account: nat, today: int, horizon: int) {
    exists k :: 0 <= k < |os| && today - 31 <= os[k].due <= horizon && os[k].amount.None? &&
                (os[k].account == account || os[k].transfer == Some(account))
  }

  lemma WithholdsExactly(os: seq<Occurrence>, account: nat, today: int, horizon: int)
    ensures HasUnpriced(Inputs(os, account, today, horizon), account) <==> Withholds(os, account, today, horizon)
  {
    UnpricedInputs(os, account, today, horizon);
    if Withholds(os, account, today, horizon) {
      var k :| 0 <= k < |os| && today - 31 <= os[k].due <= horizon && os[k].amount.None? &&
               (os[k].account == account || os[k].transfer == Some(account));
      assert Carried(os[k], account, today, horizon);
    }
  }

  /** Expand the schedules' occurrences over the window and keep those of the account, each on its day. */
  method LandAll(os: seq<Occurrence>, account: nat, today: int, horizon: int) returns (inputs: seq<Occurrence>)
    ensures inputs == Inputs(os, account, today, horizon)
  {
    inputs := [];
    for i := 0 to |os|
      invariant inputs == Inputs(os[..i], account, today, horizon)
    {
      assert os[..i + 1][..i] == os[..i];
      if CarryFrom(today) <= os[i].due <= horizon && Touches(os[i], account) {
        var landing := ForecastLanding(os[i].due, today);
        inputs := inputs + [os[i].(due := landing.date, overdue := landing.overdue)];
      }
    }
    assert os[..|os|] == os;
  }

  /**
   * A complete forecast gives every requested day after today, up to the horizon, the start
   * balance plus every future row by then and every occurrence due by then that is no more
   * than 31 days overdue; such an occurrence without a price, and nothing else, withholds
   * the account. What was overdue is reported beside it.
   */
  method Project(start: int, today: int, horizon: int, os: seq<Occurrence>, account: nat,
                 actual: map<int, int>, dates: seq<int>)
    returns (projected: Option<map<int, int>>, overdue: Option<Overdue>)
    requires Ascending(dates)
    ensures projected.None? <==> Withholds(os, account, today, horizon)
    ensures overdue.Some? <==> projected.Some? && Late(os, account, today, horizon) != {}
    ensures overdue.Some? ==>
              overdue.value == Overdue(today + 1, |Late(os, account, today, horizon)|,
                                       Landed(os, account, today - 32, Min(today - 1, horizon)))
    ensures projected.Some? ==>
              forall d :: d in dates && today < d <= horizon ==>
                            d in projected.value &&
                            projected.value[d] ==
                            start + Summed(actual, today, d) + Landed(os, account, today - 32, d)
    ensures projected.Some? ==> forall d :: d in projected.value ==> d in dates && d >= today
  {
    var inputs := LandAll(os, account, today, horizon);
    WithholdsExactly(os, account, today, horizon);
    OverdueExactly(os, account, today, horizon);
    var byDate, gaps, count, amount := AccumulateForecastDeltas(inputs, account, actual);
    CompleteExactly(inputs, account);
    assert gaps == [] <==> !HasUnpriced(inputs, account);
    if gaps != [] { return None, None; }
    overdue := if count > 0 then Some(Overdue(today + 1, count, amount)) else None;
    var series := BuildForecastSeries(start, today, horizon, byDate);
    var filled := ForwardFill(series, dates);
    forall d | d in dates && today < d <= horizon
      ensures d in filled
      ensures filled[d] == start + Summed(actual, today, d) + Landed(os, account, today - 32, d)
    {
      assert ValueAt(series, d) == Some(start + Summed(byDate, today, d));
      DaysSumOccurrences(byDate, actual, inputs, account, today, d);
      OverdueIsCarried(os, account, today, horizon, d);
    }
    forall d | d in filled ensures d >= today { NothingBefore(series, d); }
    projected := Some(filled);
  }

  lemma {:induction false} NothingBefore(points: seq<Point>, day: int)
    requires points != [] && InOrder(points) && ValueAt(points, day).Some?
    ensures points[0].date <= day
    decreases |points|
  {
    var last := |points| - 1;
    if points[last].date <= day {
    } else if last > 0 {
      NothingBefore(points[..last], day);
    }
  }
}
