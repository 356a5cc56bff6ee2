/**
 * What closing an account promises for the rest of its life.
 *
 * Close refuses unless both halves read zero and neither ledger holds a row dated
 * after today. Taken on an account whose stored balance is current, that is enough
 * against deltas, which are refused together with their ledger rows, against due passes
 * and new days, and against recomputations that find the ledger as it was. A posting that
 * recomputes the account over its own row changes is not refused: the account stays at
 * zero exactly when those changes cancel on it (`LeavesZero`), and when no commit puts out
 * a total that another session has read (`LeavesTotals`).
 */
module CloseGuarantee {
  import opened Options
  import opened BalanceProtocol
  import opened BalanceInvariant
  import DuePass

  predicate IsFuture(s: State, row: Option<Row>, a: nat) {
    row.Some? && row.value.counted && row.value.account == a && row.value.date > s.today
  }

  /** The tables say zero for `a`, today and on every later day. */
  ghost predicate ZeroForGood(s: State, a: nat) {
    && a < |s.accounts|
    && s.accounts[a].current == 0
    && s.accounts[a].opening + LedgerSum(s.ledger, a, s.today) == 0
    && forall r: nat :: r < |s.ledger| ==> !IsFuture(s, s.ledger[r], a)
  }

  /** A transaction that got hold of the closed row holds it at zero, but for what it recomputed. */
  ghost predicate HoldsZero(s: State, tx: Session, a: nat)
    requires a < |s.accounts|
  {
    tx.Tx? && a in tx.held ==>
      && tx.held[a].closed && tx.held[a].opening == s.accounts[a].opening
      && (a !in tx.rebuilt ==> tx.held[a].current == 0)
      && (tx.phase.OpeningRead? ==> tx.phase.account != a)
      && (tx.phase.OpeningWrite? ==> tx.phase.account != a)
  }

  ghost predicate Closed(s: State, a: nat) {
    && Inv(s) && Shape(s) && ZeroForGood(s, a) && s.accounts[a].closed && TotalsRight(s, a)
    && forall t :: 0 <= t < |s.sessions| ==> HoldsZero(s, s.sessions[t], a)
  }

  /**
   * What a commit does to a closed account: its row changes cancel on it through today, what
   * it recomputed by its own date came out at zero, and none of its rows is dated ahead.
   */
  ghost predicate LeavesZero(s: State, tx: Session, a: nat)
    requires tx.Tx? && a < |s.accounts|
  {
    && GapAt(s, tx, a, s.today) == 0
    && (a in tx.rebuilt ==> s.accounts[a].opening + LedgerSum(Seen(s.ledger, tx.rows), a, tx.day) == 0)
    && forall r: nat :: r in tx.rows ==> !IsFuture(s, tx.rows[r], a)
  }

  /**
   * Everything but a reopen: `a` keeps its opening balance, deltas are open-only, and commits
   * leave it at zero and its totals right.
   */
  ghost predicate Ordinary(s: State, e: Event, a: nat)
    requires Enabled(s, e) && a < |s.accounts|
  {
    match e
    case Reopen(_, b) => b != a
    case SetOpening(_, b, _) => b != a
    case ApplyDelta(_, b, _, openOnly) => b == a ==> openOnly
    case Commit(t) => LeavesZero(s, s.sessions[t], a) && LeavesTotals(s, t, a)
    case _ => true
  }

  // ----- Statements -----

  /** A delta on a closed account is refused, and takes its ledger rows with it. */
  lemma DeltaRefused(s: State, t: nat, a: nat, amount: int)
    requires Closed(s, a) && Enabled(s, ApplyDelta(t, a, amount, true))
    ensures Do(s, ApplyDelta(t, a, amount, true)) == Put(s, t, Idle)
    ensures Put(s, t, Idle).ledger == s.ledger && Put(s, t, Idle).accounts == s.accounts
  {
    assert HoldsZero(s, s.sessions[t], a);
  }

  predicate Locks(e: Event) { e.TakeLock? || e.SetOpening? || e.Close? || e.CloseLinked? || e.Reopen? }

  /** Whoever gets hold of the closed row gets it at zero. */
  lemma LockHoldsZero(s: State, e: Event, a: nat)
    requires Closed(s, a) && Enabled(s, e) && Ordinary(s, e, a) && Locks(e)
    ensures HoldsZero(s, Statement(s, e), a)
  {
    assert HoldsZero(s, s.sessions[e.t], a) && TxShape(s, s.sessions[e.t]);
  }

  lemma StatementHoldsZero(s: State, e: Event, a: nat)
    requires Closed(s, a) && Enabled(s, e) && Ordinary(s, e, a) && !e.Commit? && !e.Tick?
    ensures HoldsZero(s, Statement(s, e), a)
  {
    if Locks(e) {
      LockHoldsZero(s, e, a);
    } else {
      assert HoldsZero(s, s.sessions[e.t], a) && TxShape(s, s.sessions[e.t]);
    }
  }

  /** Replacing one session by one that holds `a` at zero keeps `a` closed for good. */
  lemma PutStaysClosed(s: State, t: nat, tx: Session, a: nat)
    requires Closed(s, a) && t < |s.sessions| && Inv(Put(s, t, tx)) && Shape(Put(s, t, tx)) && HoldsZero(s, tx, a)
    requires TotalsRight(Put(s, t, tx), a)
    ensures Closed(Put(s, t, tx), a)
  {
    var s' := Put(s, t, tx);
    forall u | 0 <= u < |s'.sessions| ensures HoldsZero(s', s'.sessions[u], a) {
      assert HoldsZero(s, s'.sessions[u], a);
    }
    assert forall r: nat :: r < |s.ledger| ==> IsFuture(s', s'.ledger[r], a) == IsFuture(s, s.ledger[r], a);
  }

  lemma StatementStaysClosed(s: State, e: Event, a: nat)
    requires Closed(s, a) && Enabled(s, e) && Ordinary(s, e, a) && !e.Commit? && !e.Tick?
    ensures Closed(Do(s, e), a)
  {
    Keeps(s, e);
    StatementHoldsZero(s, e, a);
    StatementKeepsTotals(s, e, a);
    PutStaysClosed(s, e.t, Statement(s, e), a);
  }

  // ----- Commits -----

  /** What a commit does to the sums and the rows of `a`. */
  lemma CommitRows(s: State, t: nat, a: nat)
    requires Inv(s) && Shape(s) && Enabled(s, Commit(t)) && ZeroForGood(s, a)
    ensures var s', tx := AfterCommit(s, t), s.sessions[t];
            && s'.today == s.today
            && LedgerSum(s'.ledger, a, s.today) == LedgerSum(s.ledger, a, s.today) + GapAt(s, tx, a, s.today)
            && ((forall r: nat :: r < |s'.ledger| ==> !IsFuture(s', s'.ledger[r], a)) <==>
                (forall r: nat :: r in tx.rows ==> !IsFuture(s, tx.rows[r], a)))
  {
    var s', tx := AfterCommit(s, t), s.sessions[t];
    assert TxShape(s, tx);
    assert forall r: nat :: r < |s.ledger| ==>
                              IsFuture(s', s'.ledger[r], a) == (r in tx.rows && IsFuture(s, tx.rows[r], a));
    assert forall r: nat :: r in tx.rows ==> IsFuture(s', s'.ledger[r], a) == IsFuture(s, tx.rows[r], a);
  }

  /** The stored balance a commit leaves: the recomputed total, or the zero it was. */
  lemma CommitCurrent(s: State, t: nat, a: nat)
    requires Closed(s, a) && Enabled(s, Commit(t))
    ensures var account, tx := AfterCommit(s, t).accounts[a], s.sessions[t];
            && account.closed && account.opening == s.accounts[a].opening
            && account.current ==
               if a in tx.rebuilt then s.accounts[a].opening + LedgerSum(Seen(s.ledger, tx.rows), a, tx.day) else 0
  {
    var tx := s.sessions[t];
    assert TxOk(s, tx) && TxShape(s, tx) && Balanced(s, tx, a) && HoldsZero(s, tx, a) && Missed(s, tx, a) == 0;
  }

  /** A commit keeps the account at zero for good exactly when it leaves it there, and its totals right. */
  lemma CommitClosedExactly(s: State, t: nat, a: nat)
    requires Closed(s, a) && Enabled(s, Commit(t))
    ensures Closed(Do(s, Commit(t)), a) <==> LeavesZero(s, s.sessions[t], a) && LeavesTotals(s, t, a)
  {
    var s' := Do(s, Commit(t));
    Keeps(s, Commit(t));
    CommitRows(s, t, a);
    CommitCurrent(s, t, a);
    TotalsRightExactly(s, t, a);
    forall u | 0 <= u < |s'.sessions| ensures HoldsZero(s', s'.sessions[u], a) {
      assert HoldsZero(s, s.sessions[u], a);
      if u != t && s.sessions[u].Tx? {
        assert s.sessions[t].held.Keys !! s.sessions[u].held.Keys;
      }
    }
  }

  /** A recomputation on its own date leaves the closed account at zero exactly when its row changes cancel there. */
  lemma RecomputedStaysZeroExactly(s: State, t: nat, a: nat)
    requires Closed(s, a) && Enabled(s, Commit(t)) && a in s.sessions[t].rebuilt && s.sessions[t].day == s.today
    ensures Do(s, Commit(t)).accounts[a].current == 0 <==> Gap(s, s.sessions[t], a) == 0
  {
    CommitCurrent(s, t, a);
  }

  /** A posting that does not recompute the account changes nothing on it by its date: its deltas were refused. */
  lemma DeltasAloneLeaveZero(s: State, t: nat, a: nat)
    requires Closed(s, a) && Enabled(s, Commit(t)) && a !in s.sessions[t].rebuilt && s.sessions[t].day == s.today
    ensures LeavesZero(s, s.sessions[t], a) <==>
            forall r: nat :: r in s.sessions[t].rows ==> !IsFuture(s, s.sessions[t].rows[r], a)
  {
    var tx := s.sessions[t];
    assert TxOk(s, tx) && Balanced(s, tx, a) && HoldsZero(s, tx, a);
  }

  // ----- Days and runs -----

  lemma TickStaysZero(s: State, a: nat)
    requires ZeroForGood(s, a)
    ensures ZeroForGood(s.(today := s.today + 1), a)
  {
    var s' := s.(today := s.today + 1);
    forall r: nat | r < |s.ledger| ensures !IsFuture(s', s'.ledger[r], a) &&
        !DuePass.IsDue(s', s'.ledger[r], a, s.today) {
      assert !IsFuture(s, s.ledger[r], a);
    }
    DuePass.SumMovesByRows(s', a, s.today);
  }

  lemma TickStaysClosed(s: State, a: nat)
    requires Closed(s, a)
    ensures Closed(Do(s, Tick), a)
  {
    var s' := Do(s, Tick);
    Keeps(s, Tick);
    TickStaysZero(s, a);
    StatementKeepsTotals(s, Tick, a);
    forall u | 0 <= u < |s'.sessions| ensures HoldsZero(s', s'.sessions[u], a) {
      assert HoldsZero(s, s.sessions[u], a);
    }
  }

  lemma StaysClosed(s: State, e: Event, a: nat)
    requires Closed(s, a) && Enabled(s, e) && Ordinary(s, e, a)
    ensures Closed(Do(s, e), a)
  {
    if e.Commit? {
      CommitClosedExactly(s, e.t, a);
    } else if e.Tick? {
      TickStaysClosed(s, a);
    } else {
      StatementStaysClosed(s, e, a);
    }
  }

  ghost predicate OrdinaryRun(s: State, es: seq<Event>, a: nat)
    requires Possible(s, es)
    decreases |es|
  {
    es == [] || (a < |s.accounts| && Ordinary(s, es[0], a) && OrdinaryRun(Do(s, es[0]), es[1..], a))
  }

  /** Over every later run without a reopen, in which each commit leaves it there, the closed account stays at zero. */
  lemma {:induction false} ClosedForGood(s: State, es: seq<Event>, a: nat)
    requires Closed(s, a) && Possible(s, es) && OrdinaryRun(s, es, a)
    ensures Closed(After(s, es), a)
    decreases |es|
  {
    if es == [] {
    } else {
      StaysClosed(s, es[0], a);
      ClosedForGood(Do(s, es[0]), es[1..], a);
    }
  }

  // ----- From the check to the commit -----

  /** Close has checked `a` and holds it; it has only to mark it and commit. */
  ghost predicate AboutToClose(s: State, t: nat, a: nat) {
    && Inv(s) && Shape(s) && ZeroForGood(s, a) && IsTx(s, t)
    && a in s.sessions[t].held && s.sessions[t].rows == map[] && s.sessions[t].rebuilt == {}
    && s.sessions[t].held[a].(closed := true) == s.accounts[a].(closed := true)
    && (match s.sessions[t].phase
        case CloseMarking(halves) => a in halves
        case Ready => s.sessions[t].held[a].closed
        case _ => false)
  }

  /** The check passes on a balance that is current through today. */
  lemma CheckAccepts(s: State, t: nat, a: nat)
    requires Inv(s) && Shape(s) && Enabled(s, CheckClose(t)) && a < |s.accounts|
    requires a in s.sessions[t].phase.halves && Drift(s, a) == 0
    requires Do(s, CheckClose(t)).sessions[t].Tx?
    ensures AboutToClose(Do(s, CheckClose(t)), t, a)
  {
    var tx := s.sessions[t];
    Keeps(s, CheckClose(t));
    assert TxOk(s, tx) && TxShape(s, tx);
    assert tx.rows == map[] && Seen(s.ledger, tx.rows) == s.ledger;
  }

  /** Another session's commit, while close holds the lock on `a`. */
  lemma ClosingBesideCommit(s: State, u: nat, t: nat, a: nat)
    requires AboutToClose(s, t, a) && Enabled(s, Commit(u)) && u != t && LeavesZero(s, s.sessions[u], a)
    ensures AboutToClose(Do(s, Commit(u)), t, a)
  {
    Keeps(s, Commit(u));
    assert TxShape(s, s.sessions[t]) && s.sessions[u].held.Keys !! s.sessions[t].held.Keys;
    CommitRows(s, u, a);
  }

  lemma ClosingBeside(s: State, u: nat, tx: Session, t: nat, a: nat)
    requires AboutToClose(s, t, a) && u < |s.sessions| && u != t
    requires Inv(Put(s, u, tx)) && Shape(Put(s, u, tx))
    ensures AboutToClose(Put(s, u, tx), t, a)
  {
    var s' := Put(s, u, tx);
    assert forall r: nat :: r < |s.ledger| ==> IsFuture(s', s'.ledger[r], a) == IsFuture(s, s.ledger[r], a);
  }

  lemma ClosingMarks(s: State, t: nat, a: nat)
    requires AboutToClose(s, t, a) && Enabled(s, MarkClosed(t))
    ensures AboutToClose(Do(s, MarkClosed(t)), t, a)
  {
    var s' := Do(s, MarkClosed(t));
    Keeps(s, MarkClosed(t));
    assert forall r: nat :: r < |s.ledger| ==> IsFuture(s', s'.ledger[r], a) == IsFuture(s, s.ledger[r], a);
  }

  /** Until close commits, other sessions wait for its lock and cannot move the zero. */
  lemma ClosingStep(s: State, e: Event, t: nat, a: nat)
    requires AboutToClose(s, t, a) && Enabled(s, e) && Ordinary(s, e, a)
    requires e.Tick? || e.t != t || e.MarkClosed?
    ensures AboutToClose(Do(s, e), t, a)
  {
    if e.Tick? {
      Keeps(s, e);
      TickStaysZero(s, a);
    } else if e.Commit? {
      ClosingBesideCommit(s, e.t, t, a);
    } else if e.t == t {
      ClosingMarks(s, t, a);
    } else {
      Keeps(s, e);
      ClosingBeside(s, e.t, Statement(s, e), t, a);
    }
  }

  lemma CloseCommits(s: State, t: nat, a: nat)
    requires AboutToClose(s, t, a) && Enabled(s, Commit(t))
    ensures Closed(Do(s, Commit(t)), a)
  {
    var s' := Do(s, Commit(t));
    Keeps(s, Commit(t));
    assert Seen(s.ledger, map[]) == s.ledger;
    assert forall r: nat :: r < |s.ledger| ==> IsFuture(s', s'.ledger[r], a) == IsFuture(s, s.ledger[r], a);
    forall u | 0 <= u < |s'.sessions|
      ensures HoldsZero(s', s'.sessions[u], a) && (s'.sessions[u].Tx? ==> Missed(s', s'.sessions[u], a) == 0)
    {
      assert TxShape(s', s'.sessions[u]);
      if u != t && s.sessions[u].Tx? {
        assert s.sessions[t].held.Keys !! s.sessions[u].held.Keys;
      }
    }
  }

  ghost predicate ClosingRun(s: State, es: seq<Event>, t: nat, a: nat)
    requires Possible(s, es)
    decreases |es|
  {
    es == [] ||
    (a < |s.accounts| && Ordinary(s, es[0], a) && (es[0].Tick? || es[0].t != t || es[0].MarkClosed?) &&
     ClosingRun(Do(s, es[0]), es[1..], t, a))
  }

  lemma {:induction false} ClosingKeeps(s: State, es: seq<Event>, t: nat, a: nat)
    requires AboutToClose(s, t, a) && Possible(s, es) && ClosingRun(s, es, t, a)
    ensures AboutToClose(After(s, es), t, a)
    decreases |es|
  {
    if es == [] {
    } else {
      ClosingStep(s, es[0], t, a);
      ClosingKeeps(Do(s, es[0]), es[1..], t, a);
    }
  }

  /** Close checks, commits with `beside` running beside it, and `later` runs after it. */
  ghost predicate ClosesAndRuns(s: State, t: nat, beside: seq<Event>, later: seq<Event>, a: nat)
    requires Inv(s) && Shape(s) && Enabled(s, CheckClose(t))
  {
    var s1 := Do(s, CheckClose(t));
    s1.sessions[t].Tx? && Possible(s1, beside) && ClosingRun(s1, beside, t, a) &&
    var s2 := After(s1, beside);
    Shape(s2) && Enabled(s2, Commit(t)) &&
    var s3 := Do(s2, Commit(t));
    Possible(s3, later) && OrdinaryRun(s3, later, a)
  }

  /**
   * The guarantee, from the check to the end of any run. Close has locked an account (and
   * its linked half) whose stored balance is current. If the check accepts and close
   * commits, then each half stays closed at balance zero, whatever runs beside the close
   * and after it, as long as each other commit leaves it there.
   */
  lemma CloseHolds(s: State, t: nat, beside: seq<Event>, later: seq<Event>, a: nat)
    requires Inv(s) && Shape(s) && Enabled(s, CheckClose(t)) && a < |s.accounts|
    requires a in s.sessions[t].phase.halves && Drift(s, a) == 0
    requires ClosesAndRuns(s, t, beside, later, a)
    ensures var end := After(Do(After(Do(s, CheckClose(t)), beside), Commit(t)), later);
            a < |end.accounts| && end.accounts[a].closed && end.accounts[a].current == 0 && Drift(end, a) == 0
  {
    var s1 := Do(s, CheckClose(t));
    CheckAccepts(s, t, a);
    ClosingKeeps(s1, beside, t, a);
    CloseCommits(After(s1, beside), t, a);
    ClosedForGood(Do(After(s1, beside), Commit(t)), later, a);
  }

  /**
   * Close reads the stored balance. Taken at a stored zero, the account survives its next
   * recomputation at zero exactly when that zero was current, or as far from it as what the
   * total has missed.
   */
  lemma RecomputeRevealsDrift(s: State, u: nat, a: nat)
    requires Inv(s) && Shape(s) && Enabled(s, Commit(u)) && a in s.sessions[u].rebuilt && a < |s.accounts|
    requires s.sessions[u].rows == map[] && s.sessions[u].held[a].opening == s.accounts[a].opening
    requires s.sessions[u].day == s.today && s.accounts[a].current == 0
    ensures TxShape(s, s.sessions[u])
    ensures Do(s, Commit(u)).accounts[a].current == 0 <==> Drift(s, a) == Missed(s, s.sessions[u], a)
  {
    assert TxShape(s, s.sessions[u]);
    assert Seen(s.ledger, map[]) == s.ledger;
    CommitDrift(s, u, a);
  }
}
