/**
 * What every interleaving of the balance protocol keeps.
 *
 * The stored balance of an account drifts from its ledger only with the calendar: on a
 * new day, or when a transaction begun on an earlier one commits (`DriftAfter`). Every
 * other event either leaves the drift alone or, when it commits an absolute
 * recomputation, removes it. On a fixed day the cached figure therefore always equals the
 * sum it replaces.
 */
module BalanceInvariant {
  import opened Options
  import opened BalanceProtocol

  // ----- Sums -----

  lemma {:induction false} SumToUpdate(l: Ledger, r: nat, row: Option<Row>, a: nat, day: int, n: nat)
    requires r < |l| && n <= |l|
    ensures SumTo(l[r := row], a, day, n) ==
            SumTo(l, a, day, n) + if r < n then Moves(row, a, day) - Moves(l[r], a, day) else 0
  {
    if n == 0 {
    } else {
      SumToUpdate(l, r, row, a, day, n - 1);
    }
  }

  /** A transaction's changes weigh the same over any ledger that agrees on its rows. */
  lemma {:induction false} SameWeight(l: Ledger, k: Ledger, rows: map<nat, Option<Row>>, a: nat, day: int, n: nat)
    requires |l| == |k| && n <= |l|
    requires forall r :: r in rows && r < |l| ==> l[r] == k[r]
    ensures SumTo(Seen(l, rows), a, day, n) - SumTo(l, a, day, n) ==
            SumTo(Seen(k, rows), a, day, n) - SumTo(k, a, day, n)
  {
    if n == 0 {
    } else {
      SameWeight(l, k, rows, a, day, n - 1);
    }
  }

  // ----- The invariant -----

  /** What the transaction's own row changes move account `a` by, through a day. */
  function GapAt(s: State, tx: Session, a: nat, day: int): int
    requires tx.Tx?
  {
    LedgerSum(Seen(s.ledger, tx.rows), a, day) - LedgerSum(s.ledger, a, day)
  }

  /** The same by the transaction's own date. */
  function Gap(s: State, tx: Session, a: nat): int
    requires tx.Tx?
  {
    GapAt(s, tx, a, tx.day)
  }

  /**
   * The transaction's version of `a`, plus what it still owes, accounts for its rows. (What
   * it has recomputed absolutely is the subject of `Missed`.)
   */
  ghost predicate Balanced(s: State, tx: Session, a: nat)
    requires tx.Tx? && a < |s.accounts| && |tx.owed| == |s.accounts|
  {
    if a !in tx.held then tx.owed[a] == Gap(s, tx, a)
    else
      a !in tx.rebuilt ==>
        tx.held[a].current - s.accounts[a].current + tx.owed[a] ==
        tx.held[a].opening - s.accounts[a].opening + Gap(s, tx, a)
  }

  /** A lock keeps the committed version in hand: what close checks is what stands. */
  ghost predicate HoldsCommitted(s: State, tx: Session)
    requires tx.Tx?
  {
    forall a: nat :: a in tx.held && a < |s.accounts| ==> tx.held[a] == s.accounts[a]
  }

  ghost predicate PhaseOk(s: State, tx: Session)
    requires tx.Tx? && TxShape(s, tx)
  {
    match tx.phase
    case OpeningWrite(a, _, was) => tx.held[a].opening == was
    case CloseLinking(_) => HoldsCommitted(s, tx)
    case CloseChecking(_, _) => HoldsCommitted(s, tx)
    case CloseMarking(_) => HoldsCommitted(s, tx)
    case _ => true
  }

  ghost predicate TxOk(s: State, tx: Session) {
    tx.Tx? ==>
      TxShape(s, tx) && PhaseOk(s, tx) && forall a: nat :: a < |s.accounts| ==> Balanced(s, tx, a)
  }

  /** Row locks exclude: no account and no ledger row is held by two sessions. */
  ghost predicate Apart(s: State) {
    forall t, u :: 0 <= t < u < |s.sessions| && s.sessions[t].Tx? && s.sessions[u].Tx? ==>
                     s.sessions[t].held.Keys !! s.sessions[u].held.Keys &&
                     s.sessions[t].rows.Keys !! s.sessions[u].rows.Keys
  }

  ghost predicate Inv(s: State) {
    Apart(s) && forall t :: 0 <= t < |s.sessions| ==> TxOk(s, s.sessions[t])
  }

  /** Every session idle: the protocol holds with nothing in flight. */
  lemma IdleInv(s: State)
    requires forall t :: 0 <= t < |s.sessions| ==> s.sessions[t].Idle?
    ensures Inv(s)
  {}

  // ----- One statement of one transaction -----

  lemma WriteRowOk(s: State, tx: Session, r: nat, row: Option<Row>)
    requires tx.Tx? && TxOk(s, tx) && tx.phase.Ready? && r < |s.ledger|
    ensures TxOk(s, AfterWriteRow(s, tx, r, row))
  {
    var tx' := AfterWriteRow(s, tx, r, row);
    var seen := Seen(s.ledger, tx.rows);
    assert Seen(s.ledger, tx'.rows) == seen[r := row];
    forall a: nat | a < |s.accounts| ensures Balanced(s, tx', a) {
      assert Balanced(s, tx, a);
      SumToUpdate(seen, r, row, a, tx.day, |seen|);
    }
  }

  lemma WriteTotalsOk(s: State, tx: Session)
    requires tx.Tx? && TxOk(s, tx) && tx.phase.Writing?
    ensures TxOk(s, AfterWriteTotals(s, tx))
  {
    var tx' := AfterWriteTotals(s, tx);
    forall a: nat | a < |s.accounts| ensures Balanced(s, tx', a) {
      assert Balanced(s, tx, a);
    }
  }

  lemma BeginOk(s: State, phase: Phase)
    requires phase.Ready? || phase.FindingDue?
    ensures TxOk(s, NewTx(s, phase))
  {
    assert Seen(s.ledger, map[]) == s.ledger;
  }

  /** Only the phase changes. */
  lemma RephaseOk(s: State, tx: Session, phase: Phase)
    requires tx.Tx? && TxOk(s, tx)
    requires TxShape(s, tx.(phase := phase)) && PhaseOk(s, tx.(phase := phase))
    ensures TxOk(s, tx.(phase := phase))
  {
    forall a: nat | a < |s.accounts| ensures Balanced(s, tx.(phase := phase), a) {
      assert Balanced(s, tx, a);
    }
  }

  /**
   * Held versions are replaced without moving `current - opening`: a lock taken, a
   * closed flag set or cleared, an opening balance changed with the current one.
   */
  lemma HeldOk(s: State, tx: Session, tx': Session)
    requires tx.Tx? && tx'.Tx? && TxOk(s, tx) && tx' == tx.(held := tx'.held, phase := tx'.phase)
    requires TxShape(s, tx') && PhaseOk(s, tx') && tx.held.Keys <= tx'.held.Keys
    requires forall a :: a in tx'.held ==> a < |s.accounts|
    requires forall a :: a in tx'.held ==>
                           var mine := Mine(s, tx, a);
                           tx'.held[a].current - tx'.held[a].opening == mine.current - mine.opening
    ensures TxOk(s, tx')
  {
    forall a: nat | a < |s.accounts| ensures Balanced(s, tx', a) {
      assert Balanced(s, tx, a);
    }
  }

  lemma DeltaOk(s: State, tx: Session, a: nat, amount: int)
    requires tx.Tx? && TxOk(s, tx) && tx.phase.Ready? && a < |s.accounts|
    ensures TxOk(s, AfterDelta(s, tx, a, amount))
  {
    var tx' := AfterDelta(s, tx, a, amount);
    forall b: nat | b < |s.accounts| ensures Balanced(s, tx', b) {
      assert Balanced(s, tx, b);
    }
  }

  // Closing and reopening move no money.

  lemma CloseOk(s: State, t: nat, a: nat)
    requires Enabled(s, Close(t, a)) && TxOk(s, s.sessions[t])
    ensures TxOk(s, Statement(s, Close(t, a)))
  {
    var tx' := Statement(s, Close(t, a));
    if tx'.Tx? { HeldOk(s, s.sessions[t], tx'); }
  }

  lemma CloseLinkedOk(s: State, t: nat)
    requires Enabled(s, CloseLinked(t)) && TxOk(s, s.sessions[t])
    ensures TxOk(s, Statement(s, CloseLinked(t)))
  {
    HeldOk(s, s.sessions[t], Statement(s, CloseLinked(t)));
  }

  lemma CheckCloseOk(s: State, t: nat)
    requires Enabled(s, CheckClose(t)) && TxOk(s, s.sessions[t])
    ensures TxOk(s, Statement(s, CheckClose(t)))
  {
    var tx' := Statement(s, CheckClose(t));
    if tx'.Tx? { RephaseOk(s, s.sessions[t], tx'.phase); }
  }

  lemma MarkClosedOk(s: State, t: nat)
    requires Enabled(s, MarkClosed(t)) && TxOk(s, s.sessions[t])
    ensures TxOk(s, Statement(s, MarkClosed(t)))
  {
    HeldOk(s, s.sessions[t], Statement(s, MarkClosed(t)));
  }

  lemma ReopenOk(s: State, t: nat, a: nat)
    requires Enabled(s, Reopen(t, a)) && TxOk(s, s.sessions[t])
    ensures TxOk(s, Statement(s, Reopen(t, a)))
  {
    HeldOk(s, s.sessions[t], Statement(s, Reopen(t, a)));
  }

  lemma RecomputeOk(s: State, e: Event)
    requires Enabled(s, e) && (e.Recompute? || e.TakeLock? || e.ReadTotals? || e.WriteTotals?)
    requires TxOk(s, s.sessions[e.t])
    ensures TxOk(s, Statement(s, e))
  {
    var tx, tx' := s.sessions[e.t], Statement(s, e);
    match e
    case WriteTotals(_) => WriteTotalsOk(s, tx);
    case TakeLock(_, _) => HeldOk(s, tx, tx');
    case Recompute(_, _) => RephaseOk(s, tx, tx'.phase);
    case ReadTotals(_) => RephaseOk(s, tx, tx'.phase);
  }

  lemma OpeningOk(s: State, e: Event)
    requires Enabled(s, e) && (e.SetOpening? || e.ReadOpening? || e.WriteOpening?)
    requires TxOk(s, s.sessions[e.t])
    ensures TxOk(s, Statement(s, e))
  {
    var tx, tx' := s.sessions[e.t], Statement(s, e);
    match e
    case SetOpening(_, _, _) => HeldOk(s, tx, tx');
    case WriteOpening(_) => HeldOk(s, tx, tx');
    case ReadOpening(_) => RephaseOk(s, tx, tx'.phase);
  }

  lemma PassOk(s: State, e: Event)
    requires Enabled(s, e) && (e.BeginPass? || e.FindDue? || e.CompareDue?)
    requires TxOk(s, s.sessions[e.t])
    ensures TxOk(s, Statement(s, e))
  {
    var tx, tx' := s.sessions[e.t], Statement(s, e);
    match e
    case BeginPass(_) => BeginOk(s, FindingDue);
    case FindDue(_) => RephaseOk(s, tx, tx'.phase);
    case CompareDue(_) => RephaseOk(s, tx, tx'.phase);
  }

  /** The statement's own session still balances after it. */
  lemma StatementOk(s: State, e: Event)
    requires Enabled(s, e) && !e.Commit? && !e.Tick? && TxOk(s, s.sessions[e.t])
    ensures TxOk(s, Statement(s, e))
  {
    match e
    case Begin(_) => BeginOk(s, Ready);
    case WriteRow(t, r, row) => WriteRowOk(s, s.sessions[t], r, row);
    case ApplyDelta(t, a, amount, _) => DeltaOk(s, s.sessions[t], a, amount);
    case Recompute(_, _) => RecomputeOk(s, e);
    case TakeLock(_, _) => RecomputeOk(s, e);
    case ReadTotals(_) => RecomputeOk(s, e);
    case WriteTotals(_) => RecomputeOk(s, e);
    case SetOpening(_, _, _) => OpeningOk(s, e);
    case ReadOpening(_) => OpeningOk(s, e);
    case WriteOpening(_) => OpeningOk(s, e);
    case BeginPass(_) => PassOk(s, e);
    case FindDue(_) => PassOk(s, e);
    case CompareDue(_) => PassOk(s, e);
    case Close(t, a) => CloseOk(s, t, a);
    case CloseLinked(t) => CloseLinkedOk(s, t);
    case CheckClose(t) => CheckCloseOk(s, t);
    case MarkClosed(t) => MarkClosedOk(s, t);
    case Reopen(t, a) => ReopenOk(s, t, a);
    case Abort(_) =>
  }

  lemma ShapeOfInv(s: State)
    requires Inv(s)
    ensures Shape(s)
  {
    forall t | 0 <= t < |s.sessions| ensures TxShape(s, s.sessions[t]) {
      assert TxOk(s, s.sessions[t]);
    }
  }

  /** A statement comes to hold only what it held and what was free. */
  lemma GrabsOnlyFree(s: State, e: Event, u: nat)
    requires Enabled(s, e) && !e.Commit? && !e.Tick? && TxShape(s, s.sessions[e.t])
    requires u < |s.sessions| && u != e.t && s.sessions[u].Tx?
    requires s.sessions[e.t].Tx? ==> s.sessions[e.t].held.Keys !! s.sessions[u].held.Keys
    requires s.sessions[e.t].Tx? ==> s.sessions[e.t].rows.Keys !! s.sessions[u].rows.Keys
    ensures Statement(s, e).Tx? ==> Statement(s, e).held.Keys !! s.sessions[u].held.Keys
    ensures Statement(s, e).Tx? ==> Statement(s, e).rows.Keys !! s.sessions[u].rows.Keys
  {}

  /** Replacing one session by one whose books balance keeps the whole invariant. */
  lemma PutKeeps(s: State, t: nat, tx: Session)
    requires Inv(s) && t < |s.sessions| && TxOk(s, tx)
    requires forall u: nat | u < |s.sessions| && u != t && s.sessions[u].Tx? && tx.Tx? ::
               tx.held.Keys !! s.sessions[u].held.Keys && tx.rows.Keys !! s.sessions[u].rows.Keys
    ensures Inv(Put(s, t, tx))
  {
    var s' := Put(s, t, tx);
    forall u | 0 <= u < |s'.sessions| ensures TxOk(s', s'.sessions[u]) {
      assert TxOk(s, s'.sessions[u]);
      SameTables(s, s', s'.sessions[u]);
    }
  }

  lemma StatementKeeps(s: State, e: Event)
    requires Inv(s) && Enabled(s, e) && Shape(s) && !e.Commit? && !e.Tick?
    ensures Inv(Put(s, e.t, Statement(s, e)))
  {
    assert TxOk(s, s.sessions[e.t]);
    StatementOk(s, e);
    forall u: nat | u < |s.sessions| && u != e.t && s.sessions[u].Tx? && Statement(s, e).Tx?
      ensures Statement(s, e).held.Keys !! s.sessions[u].held.Keys
      ensures Statement(s, e).rows.Keys !! s.sessions[u].rows.Keys
    {
      GrabsOnlyFree(s, e, u);
    }
    PutKeeps(s, e.t, Statement(s, e));
  }

  lemma SameTables(s: State, s': State, tx: Session)
    requires s'.accounts == s.accounts && s'.ledger == s.ledger && s'.today >= s.today
    requires TxOk(s, tx)
    ensures TxOk(s', tx)
  {
    if tx.Tx? {
      forall a: nat | a < |s'.accounts| ensures Balanced(s', tx, a) {
        assert Balanced(s, tx, a);
      }
    }
  }

  // ----- Commit -----

  /** Another session's books still balance over the tables a commit leaves. */
  lemma CommitOther(s: State, t: nat, u: nat)
    requires Inv(s) && Shape(s) && Enabled(s, Commit(t)) && u < |s.sessions| && u != t
    ensures TxOk(AfterCommit(s, t), s.sessions[u])
  {
    var s', mine, tx := AfterCommit(s, t), s.sessions[t], s.sessions[u];
    assert TxOk(s, tx);
    if tx.Tx? {
      assert mine.rows.Keys !! tx.rows.Keys && mine.held.Keys !! tx.held.Keys;
      forall a: nat | a < |s.accounts| ensures Balanced(s', tx, a) {
        assert Balanced(s, tx, a);
        SameWeight(s.ledger, s'.ledger, tx.rows, a, tx.day, |s.ledger|);
      }
    }
  }

  lemma CommitKeeps(s: State, t: nat)
    requires Inv(s) && Shape(s) && Enabled(s, Commit(t))
    ensures Inv(AfterCommit(s, t))
  {
    var s' := AfterCommit(s, t);
    forall u | 0 <= u < |s'.sessions| ensures TxOk(s', s'.sessions[u]) {
      if u != t { CommitOther(s, t, u); }
    }
  }

  // ----- Every event -----

  /** A new day changes no books: each session keeps the date it began on. */
  lemma TickKeeps(s: State)
    requires Inv(s)
    ensures Inv(s.(today := s.today + 1))
  {
    var s' := s.(today := s.today + 1);
    forall u | 0 <= u < |s'.sessions| ensures TxOk(s', s'.sessions[u]) {
      assert TxOk(s, s.sessions[u]);
      SameTables(s, s', s.sessions[u]);
    }
  }

  lemma Keeps(s: State, e: Event)
    requires Inv(s) && Shape(s) && Enabled(s, e)
    ensures Inv(Do(s, e)) && Shape(Do(s, e))
    ensures |Do(s, e).accounts| == |s.accounts| && |Do(s, e).ledger| == |s.ledger|
  {
    if e.Commit? {
      CommitKeeps(s, e.t);
    } else if e.Tick? {
      TickKeeps(s);
    } else {
      StatementKeeps(s, e);
    }
    ShapeOfInv(Do(s, e));
  }

  // ----- The window -----

  /** The pass finds an account through a counted row dated from seven days before its date to its date. */
  lemma WindowInFigures(s: State, a: nat, day: int)
    ensures a in Candidates(s, day) <==>
            a < |s.accounts| &&
            exists r: nat :: r < |s.ledger| && s.ledger[r].Some? && s.ledger[r].value.counted &&
                             s.ledger[r].value.account == a && day - 7 <= s.ledger[r].value.date <= day
  {
    assert forall r: nat :: r < |s.ledger| ==>
                              (InWindow(s.ledger[r], a, day) <==>
                               s.ledger[r].Some? && s.ledger[r].value.counted && s.ledger[r].value.account == a &&
                               day - 7 <= s.ledger[r].value.date <= day);
  }

  /** Through one of seven days before it still does, through one of eight no longer. */
  lemma EightDaysIsTooOld(s: State, row: Row, day: int)
    requires s.ledger == [Some(row)] && row.counted && row.account < |s.accounts|
    ensures row.date == day - 7 ==> Candidates(s, day) == {row.account}
    ensures row.date == day - 8 ==> Candidates(s, day) == {}
  {
    forall a: nat ensures a in Candidates(s, day) <==> a == row.account && day - 7 <= row.date <= day {
      WindowInFigures(s, a, day);
      assert s.ledger[0].value == row;
    }
  }

  // ----- Totals -----

  /** The transaction has read a total of `a`, and is to write it or has. */
  predicate Totalled(tx: Session, a: nat)
    requires tx.Tx?
  {
    a in tx.held && (a in tx.rebuilt || (tx.phase.Writing? && a in tx.phase.totals))
  }

  /**
   * How far the transaction's total of `a`, with its own later changes, is behind the ledger
   * as it sees it by its date. Read under the lock it is right; since then other sessions'
   * commits may have changed the sum, but only with rows for which they did not need the
   * lock: such as weigh nothing by their own date.
   */
  function Missed(s: State, tx: Session, a: nat): int
    requires tx.Tx? && TxShape(s, tx) && a < |s.accounts|
  {
    if !Totalled(tx, a) then 0
    else
      tx.held[a].opening + LedgerSum(Seen(s.ledger, tx.rows), a, tx.day) -
      if tx.phase.Writing? && a in tx.phase.totals then tx.phase.totals[a] else tx.held[a].current + tx.owed[a]
  }

  /** A total is right when it is read; no later statement of its own session puts it out. */
  lemma MissedByStatement(s: State, e: Event, a: nat)
    requires Shape(s) && Enabled(s, e) && !e.Commit? && !e.Tick? && TxOk(s, s.sessions[e.t]) && a < |s.accounts|
    ensures Statement(s, e).Tx? ==>
              TxShape(s, Statement(s, e)) &&
              Missed(s, Statement(s, e), a) ==
              if !s.sessions[e.t].Tx? || (e.ReadTotals? && a in s.sessions[e.t].phase.ids) then 0
              else Missed(s, s.sessions[e.t], a)
  {
    StatementOk(s, e);
    if e.WriteRow? {
      var tx := s.sessions[e.t];
      var seen := Seen(s.ledger, tx.rows);
      assert Seen(s.ledger, Statement(s, e).rows) == seen[e.slot := e.row];
      SumToUpdate(seen, e.slot, e.row, a, tx.day, |seen|);
    }
  }

  /** Another session's commit puts a total out by what its rows weigh by the total's date. */
  lemma MissedByCommit(s: State, t: nat, u: nat, a: nat)
    requires Inv(s) && Shape(s) && Enabled(s, Commit(t)) && u < |s.sessions| && u != t && s.sessions[u].Tx?
    requires a < |s.accounts|
    ensures TxShape(AfterCommit(s, t), s.sessions[u]) && TxShape(s, s.sessions[u])
    ensures Missed(AfterCommit(s, t), s.sessions[u], a) ==
            Missed(s, s.sessions[u], a) +
            if Totalled(s.sessions[u], a) then GapAt(s, s.sessions[t], a, s.sessions[u].day) else 0
  {
    var s', tx := AfterCommit(s, t), s.sessions[u];
    assert TxOk(s, tx) && s.sessions[t].rows.Keys !! tx.rows.Keys;
    SameWeight(s.ledger, s'.ledger, tx.rows, a, tx.day, |s.ledger|);
  }

  /** Every total of `a` in flight is right. */
  ghost predicate TotalsRight(s: State, a: nat)
    requires Shape(s) && a < |s.accounts|
  {
    forall t :: 0 <= t < |s.sessions| && s.sessions[t].Tx? ==> Missed(s, s.sessions[t], a) == 0
  }

  /** The commit changes no sum of `a` that another session has totalled, by that session's date. */
  ghost predicate LeavesTotals(s: State, t: nat, a: nat)
    requires IsTx(s, t)
  {
    forall u: nat :: u < |s.sessions| && u != t && s.sessions[u].Tx? && Totalled(s.sessions[u], a) ==>
                       GapAt(s, s.sessions[t], a, s.sessions[u].day) == 0
  }

  /** A commit keeps the totals of `a` right exactly when it leaves them. */
  lemma TotalsRightExactly(s: State, t: nat, a: nat)
    requires Inv(s) && Shape(s) && Enabled(s, Commit(t)) && a < |s.accounts| && TotalsRight(s, a)
    ensures Shape(Do(s, Commit(t))) && |Do(s, Commit(t)).accounts| == |s.accounts|
    ensures TotalsRight(Do(s, Commit(t)), a) <==> LeavesTotals(s, t, a)
  {
    var s' := Do(s, Commit(t));
    Keeps(s, Commit(t));
    forall u: nat | u < |s.sessions| && u != t && s.sessions[u].Tx?
      ensures TxShape(s', s.sessions[u])
      ensures Missed(s', s.sessions[u], a) == 0 <==>
              (Totalled(s.sessions[u], a) ==> GapAt(s, s.sessions[t], a, s.sessions[u].day) == 0)
    {
      MissedByCommit(s, t, u, a);
      assert Missed(s, s.sessions[u], a) == 0;
    }
    if TotalsRight(s', a) {
      forall u: nat | u < |s.sessions| && u != t && s.sessions[u].Tx? && Totalled(s.sessions[u], a)
        ensures GapAt(s, s.sessions[t], a, s.sessions[u].day) == 0
      {
        assert Missed(s', s'.sessions[u], a) == 0;
      }
    }
  }

  /** By its own date a commit changes no sum of an account it does not hold. */
  lemma UnheldGap(s: State, t: nat, a: nat)
    requires Inv(s) && Shape(s) && Enabled(s, Commit(t)) && a < |s.accounts| && a !in s.sessions[t].held
    ensures Gap(s, s.sessions[t], a) == 0
  {
    assert TxOk(s, s.sessions[t]) && Balanced(s, s.sessions[t], a);
  }

  /** So it leaves the totals of sessions of its own date: those accounts they hold. */
  lemma SameDateLeavesTotals(s: State, t: nat, a: nat)
    requires Inv(s) && Shape(s) && Enabled(s, Commit(t)) && a < |s.accounts|
    requires forall u :: 0 <= u < |s.sessions| && s.sessions[u].Tx? ==> s.sessions[u].day == s.sessions[t].day
    ensures LeavesTotals(s, t, a)
  {
    forall u: nat | u < |s.sessions| && u != t && s.sessions[u].Tx? && Totalled(s.sessions[u], a)
      ensures GapAt(s, s.sessions[t], a, s.sessions[u].day) == 0
    {
      assert s.sessions[t].held.Keys !! s.sessions[u].held.Keys;
      UnheldGap(s, t, a);
    }
  }

  lemma StatementKeepsTotals(s: State, e: Event, a: nat)
    requires Inv(s) && Shape(s) && Enabled(s, e) && !e.Commit? && a < |s.accounts| && TotalsRight(s, a)
    ensures Shape(Do(s, e)) && |Do(s, e).accounts| == |s.accounts| && TotalsRight(Do(s, e), a)
  {
    var s' := Do(s, e);
    Keeps(s, e);
    forall u | 0 <= u < |s'.sessions| && s'.sessions[u].Tx? ensures Missed(s', s'.sessions[u], a) == 0 {
      if e.Tick? || u != e.t {
        assert Missed(s, s.sessions[u], a) == 0;
      } else {
        assert TxOk(s, s.sessions[u]);
        MissedByStatement(s, e, a);
      }
    }
  }

  // ----- Drift -----

  /** How far `a` is from its ledger once the transaction has committed. */
  function DriftAfter(s: State, tx: Session, a: nat): int
    requires tx.Tx? && TxShape(s, tx) && a < |s.accounts|
  {
    if a in tx.rebuilt then
      Missed(s, tx, a) +
      LedgerSum(Seen(s.ledger, tx.rows), a, s.today) - LedgerSum(Seen(s.ledger, tx.rows), a, tx.day)
    else Drift(s, a) + GapAt(s, tx, a, s.today) - Gap(s, tx, a)
  }

  /**
   * At commit nothing is owed, so the stored balance moves with the ledger by the
   * transaction's date. What it says of a later day, and what its totals have missed, shows
   * as drift.
   */
  lemma CommitDrift(s: State, t: nat, a: nat)
    requires Inv(s) && Shape(s) && Enabled(s, Commit(t)) && a < |s.accounts|
    ensures TxShape(s, s.sessions[t])
    ensures Drift(AfterCommit(s, t), a) == DriftAfter(s, s.sessions[t], a)
  {
    assert TxOk(s, s.sessions[t]);
    assert Balanced(s, s.sessions[t], a);
  }

  /**
   * The drift of an account after any event but the calendar's: only a commit changes it,
   * to what `DriftAfter` says. On the transaction's own date that is gone for an account
   * it recomputed, but for what its total missed, and unchanged for any other.
   */
  lemma DriftStep(s: State, e: Event, a: nat)
    requires Inv(s) && Shape(s) && Enabled(s, e) && !e.Tick? && a < |s.accounts|
    ensures |Do(s, e).accounts| == |s.accounts| && (e.Commit? ==> TxShape(s, s.sessions[e.t]))
    ensures Drift(Do(s, e), a) == if e.Commit? then DriftAfter(s, s.sessions[e.t], a) else Drift(s, a)
    ensures e.Commit? && s.sessions[e.t].day == s.today ==>
              Drift(Do(s, e), a) ==
              if a in s.sessions[e.t].rebuilt then Missed(s, s.sessions[e.t], a) else Drift(s, a)
  {
    if e.Commit? { CommitDrift(s, e.t, a); }
  }

  // ----- Runs -----

  /** `es` can happen from `s`, one event after the other. */
  ghost predicate Possible(s: State, es: seq<Event>)
    decreases |es|
  {
    es == [] || (Shape(s) && Enabled(s, es[0]) && Possible(Do(s, es[0]), es[1..]))
  }

  ghost function After(s: State, es: seq<Event>): State
    requires Possible(s, es)
    decreases |es|
  {
    if es == [] then s else After(Do(s, es[0]), es[1..])
  }

  ghost predicate AllAgree(s: State) {
    forall a: nat :: a < |s.accounts| ==> Drift(s, a) == 0
  }

  /** Sessions take the date on which they begin. */
  lemma OneDayKeeps(s: State, e: Event)
    requires Shape(s) && Enabled(s, e) && !e.Tick? && OneDay(s)
    ensures OneDay(Do(s, e))
  {}

  /** On one day every commit leaves every total. */
  lemma OneDayTotals(s: State, e: Event, a: nat)
    requires Inv(s) && Shape(s) && Enabled(s, e) && !e.Tick? && OneDay(s) && a < |s.accounts| && TotalsRight(s, a)
    ensures Shape(Do(s, e)) && |Do(s, e).accounts| == |s.accounts| && TotalsRight(Do(s, e), a)
  {
    if e.Commit? {
      SameDateLeavesTotals(s, e.t, a);
      TotalsRightExactly(s, e.t, a);
    } else {
      StatementKeepsTotals(s, e, a);
    }
  }

  /** A day under way: every session is of today, every balance and every total in flight is right. */
  ghost predicate DayUnderWay(s: State) {
    Inv(s) && Shape(s) && OneDay(s) && AllAgree(s) && forall a: nat :: a < |s.accounts| ==> TotalsRight(s, a)
  }

  /** With nobody at work, that is only that every balance is right. */
  lemma IdleDay(s: State)
    requires AllAgree(s) && forall t :: 0 <= t < |s.sessions| ==> s.sessions[t].Idle?
    ensures DayUnderWay(s)
  {
    IdleInv(s);
  }

  lemma DayGoesOn(s: State, e: Event)
    requires DayUnderWay(s) && Enabled(s, e) && !e.Tick?
    ensures DayUnderWay(Do(s, e))
  {
    var s' := Do(s, e);
    Keeps(s, e);
    OneDayKeeps(s, e);
    forall a: nat | a < |s'.accounts| ensures Drift(s', a) == 0 && TotalsRight(s', a) {
      DriftStep(s, e, a);
      OneDayTotals(s, e, a);
      if e.Commit? { assert Missed(s, s.sessions[e.t], a) == 0; }
    }
  }

  /**
   * On a fixed day, every interleaving of postings, recomputations, due passes,
   * opening-balance changes, closes and reopens keeps, in every committed state,
   * current_balance == opening_balance + the sum of counted rows dated through today.
   */
  lemma {:induction false} FixedDayAgreement(s: State, es: seq<Event>)
    requires DayUnderWay(s) && Possible(s, es)
    requires forall i :: 0 <= i < |es| ==> !es[i].Tick?
    ensures DayUnderWay(After(s, es))
    ensures forall a: nat :: a < |After(s, es).accounts| ==> Drift(After(s, es), a) == 0
    decreases |es|
  {
    if es == [] {
    } else {
      DayGoesOn(s, es[0]);
      FixedDayAgreement(Do(s, es[0]), es[1..]);
    }
  }
}
