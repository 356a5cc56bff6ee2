/**
 * The debt before each payment date of a loan, rebuilt backwards from the stored balance
 * over the account's rows, against a forward replay from the opening balance.
 *
 * The walk is over every row of the account. The stored balance counts some of them: a
 * void row, or one dated after today, is not in it.
 */
module RunningBalance {
  import opened Integers

  datatype Row = Row(date: int, amount: int, counted: bool)

  function SumAll(rows: seq<Row>): int {
    if rows == [] then 0 else rows[0].amount + SumAll(rows[1..])
  }

  function SumCounted(rows: seq<Row>): int {
    if rows == [] then 0 else (if rows[0].counted then rows[0].amount else 0) + SumCounted(rows[1..])
  }

  function SumUncounted(rows: seq<Row>): int {
    if rows == [] then 0 else (if rows[0].counted then 0 else rows[0].amount) + SumUncounted(rows[1..])
  }

  /** What is owed after a forward replay of the counted rows. */
  function Owed(opening: int, rows: seq<Row>): int { -(opening + SumCounted(rows)) }

  /** The stored balance, when it is current. */
  function Stored(opening: int, rows: seq<Row>): int { opening + SumCounted(rows) }

  predicate IsFirst(rows: seq<Row>, i: int) {
    0 <= i < |rows| && forall j :: 0 <= j < i ==> rows[j].date != rows[i].date
  }

  predicate HasDate(rows: seq<Row>, date: int) { exists i :: 0 <= i < |rows| && rows[i].date == date }

  /** What the walk has reached at row `i`. */
  function Walked(currentBalance: int, rows: seq<Row>, i: nat): int
    requires i <= |rows|
  {
    Abs(currentBalance) + SumAll(rows[i..])
  }

  /** For every date with a row, and no other, what the walk has reached at the date's first row. */
  ghost predicate IsBackwardMap(currentBalance: int, rows: seq<Row>, balances: map<int, int>) {
    (forall date :: date in balances <==> HasDate(rows, date)) &&
    (forall i :: IsFirst(rows, i) ==>
                   rows[i].date in balances && balances[rows[i].date] == Walked(currentBalance, rows, i))
  }

  method BuildRunningBalanceMap(currentBalance: int, rows: seq<Row>) returns (balances: map<int, int>)
    ensures IsBackwardMap(currentBalance, rows, balances)
  {
    balances := map[];
    var balance: int := Abs(currentBalance);
    var i := |rows|;
    while i > 0
      invariant 0 <= i <= |rows|
      invariant balance == Abs(currentBalance) + SumAll(rows[i..])
      invariant forall date :: date in balances <==> HasDate(rows[i..], date)
      invariant forall k :: i <= k < |rows| && IsFirst(rows[i..], k - i) ==>
                              rows[k].date in balances &&
                              balances[rows[k].date] == Abs(currentBalance) + SumAll(rows[k..])
    {
      i := i - 1;
      var row := rows[i];
      assert rows[i..] == [row] + rows[i + 1..];
      balance := balance + row.amount;
      balances := balances[row.date := balance];
      FirstInTail(rows, i);
      DatesOfTail(rows, i);
    }
    assert rows[0..] == rows;
  }

  lemma FirstInTail(rows: seq<Row>, i: nat)
    requires i < |rows|
    ensures forall k :: i < k < |rows| && IsFirst(rows[i..], k - i) ==>
                          rows[k].date != rows[i].date && IsFirst(rows[i + 1..], k - (i + 1))
  {
    forall k | i < k < |rows| && IsFirst(rows[i..], k - i)
      ensures rows[k].date != rows[i].date && IsFirst(rows[i + 1..], k - (i + 1))
    {
      assert rows[i..][0].date != rows[i..][k - i].date;
      var tail := rows[i + 1..];
      forall j | 0 <= j < k - (i + 1) ensures tail[j].date != tail[k - (i + 1)].date {
        assert rows[i..][j + 1].date != rows[i..][k - i].date;
      }
    }
  }

  lemma DatesOfTail(rows: seq<Row>, i: nat)
    requires i < |rows|
    ensures forall date :: HasDate(rows[i..], date) <==> date == rows[i].date || HasDate(rows[i + 1..], date)
  {
    forall date ensures HasDate(rows[i..], date) <==> date == rows[i].date || HasDate(rows[i + 1..], date) {
      assert rows[i..][0] == rows[i];
      if HasDate(rows[i + 1..], date) {
        var j :| 0 <= j < |rows[i + 1..]| && rows[i + 1..][j].date == date;
        assert rows[i..][j + 1].date == date;
      }
      if HasDate(rows[i..], date) {
        var j :| 0 <= j < |rows[i..]| && rows[i..][j].date == date;
        assert j > 0 ==> rows[i + 1..][j - 1].date == date;
      }
    }
  }

  lemma {:induction false} CountedSplits(rows: seq<Row>, i: nat)
    requires i <= |rows|
    ensures SumCounted(rows) == SumCounted(rows[..i]) + SumCounted(rows[i..])
  {
    if i > 0 {
      assert rows[1..][..i - 1] == rows[..i][1..] && rows[1..][i - 1..] == rows[i..];
      CountedSplits(rows[1..], i - 1);
    } else {
      assert rows[0..] == rows;
    }
  }

  lemma {:induction false} AllSplits(rows: seq<Row>)
    ensures SumAll(rows) == SumCounted(rows) + SumUncounted(rows)
  {
    if rows == [] {
    } else {
      AllSplits(rows[1..]);
    }
  }

  /**
   * With a stored balance that is current, the walk reaches the replayed debt at a row
   * exactly when the rows from there on that the balance does not count cancel out, or,
   * for an account in credit, make up for twice the credit.
   */
  lemma WalkMeetsReplayExactly(opening: int, rows: seq<Row>, i: nat)
    requires i <= |rows|
    ensures var current := Stored(opening, rows);
            Walked(current, rows, i) == Owed(opening, rows[..i]) <==>
            SumUncounted(rows[i..]) == if current > 0 then -2 * current else 0
  {
    CountedSplits(rows, i);
    AllSplits(rows[i..]);
  }

  /** A row dated ahead, in the ledger and not in the balance: the walk is 40 too high at the first row. */
  lemma UncountedRowMisleads(rows: seq<Row>)
    requires rows == [Row(1, -100, true), Row(2, 40, false)]
    ensures Stored(0, rows) == -100
    ensures Owed(0, rows[..0]) == 0 && Walked(Stored(0, rows), rows, 0) == 40
  {
    var ahead := [Row(2, 40, false)];
    assert ahead[1..] == [] && SumCounted(ahead) == 0 && SumAll(ahead) == 40;
    assert rows[1..] == ahead && rows[0..] == rows;
    assert SumCounted(rows) == -100 && SumAll(rows) == -60;
  }

  /** An account overpaid to a credit of 50: the walk takes it for a debt of 50 and reports twice that too much. */
  lemma CreditMisleads(rows: seq<Row>)
    requires rows == [Row(1, 150, true)]
    ensures Stored(-100, rows) == 50
    ensures Owed(-100, rows[..0]) == 100 && Walked(Stored(-100, rows), rows, 0) == 200
  {
    assert rows[1..] == [] && rows[0..] == rows;
    assert SumCounted(rows) == 150 && SumAll(rows) == 150;
  }

  predicate AllCounted(rows: seq<Row>) { forall i :: 0 <= i < |rows| ==> rows[i].counted }

  lemma {:induction false} NoneUncounted(rows: seq<Row>)
    requires AllCounted(rows)
    ensures SumUncounted(rows) == 0
  {
    if rows == [] {
    } else {
      NoneUncounted(rows[1..]);
    }
  }

  /** For rows the balance counts, every entry is right when the account owes, and none is when it is in credit. */
  lemma RightExactlyInDebt(opening: int, rows: seq<Row>, i: nat)
    requires i <= |rows| && AllCounted(rows)
    ensures Walked(Stored(opening, rows), rows, i) == Owed(opening, rows[..i]) <==> Stored(opening, rows) <= 0
  {
    NoneUncounted(rows[i..]);
    WalkMeetsReplayExactly(opening, rows, i);
  }

  predicate InDateOrder(rows: seq<Row>) { forall i, j :: 0 <= i < j < |rows| ==> rows[i].date <= rows[j].date }

  /** Everything dated before a day. */
  function Before(rows: seq<Row>, date: int): seq<Row> {
    if rows == [] then [] else (if rows[0].date < date then [rows[0]] else []) + Before(rows[1..], date)
  }

  /** In a dated ledger the rows above a date's first row are the rows of earlier dates. */
  lemma {:induction false} RowsAboveAreEarlier(rows: seq<Row>, i: nat)
    requires InDateOrder(rows) && IsFirst(rows, i)
    ensures rows[..i] == Before(rows, rows[i].date)
  {
    if i == 0 {
      NoneBefore(rows, rows[0].date);
    } else {
      var rest := rows[1..];
      assert rows[0].date != rows[i].date;
      forall j | 0 <= j < i - 1 ensures rest[j].date != rest[i - 1].date { assert rows[j + 1].date != rows[i].date; }
      RowsAboveAreEarlier(rest, i - 1);
      assert rows[..i] == [rows[0]] + rest[..i - 1];
    }
  }

  lemma {:induction false} NoneBefore(rows: seq<Row>, date: int)
    requires forall k :: 0 <= k < |rows| ==> rows[k].date >= date
    ensures Before(rows, date) == []
  {
    if rows == [] {
    } else {
      NoneBefore(rows[1..], date);
    }
  }

  /**
   * On a dated ledger, counted row by row, the map gives for each date with a row the
   * debt left by every row of an earlier date, exactly when the account is not in credit.
   */
  lemma DebtBeforeEachDate(opening: int, rows: seq<Row>, balances: map<int, int>)
    requires InDateOrder(rows) && AllCounted(rows) && rows != []
    requires IsBackwardMap(Stored(opening, rows), rows, balances)
    ensures (forall date :: date in balances ==> balances[date] == Owed(opening, Before(rows, date))) <==>
            Stored(opening, rows) <= 0
  {
    forall date | date in balances
      ensures balances[date] == Owed(opening, Before(rows, date)) <==> Stored(opening, rows) <= 0
    {
      var i := FirstOf(rows, date, 0);
      RowsAboveAreEarlier(rows, i);
      RightExactlyInDebt(opening, rows, i);
    }
    assert HasDate(rows, rows[0].date);
  }

  /** The first row of a date. */
  ghost function FirstOf(rows: seq<Row>, date: int, k: nat): (i: nat)
    requires HasDate(rows, date) && k <= |rows| && forall j :: 0 <= j < k ==> rows[j].date != date
    ensures IsFirst(rows, i) && rows[i].date == date
    decreases |rows| - k
  {
    if k < |rows| && rows[k].date == date then k else FirstOf(rows, date, k + 1)
  }
}
