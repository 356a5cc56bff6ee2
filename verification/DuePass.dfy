/**
 * The hourly due pass while the calendar advances.
 *
 * A row dated in the future joins the stored balance when its day comes, through
 * a pass that looks for candidates unlocked, compares them unlocked, and locks and
 * rewrites only those that differ. Postings, recomputations and further passes run
 * beside it, and any of them may be overtaken by midnight. If no more than eight days
 * separate completed passes, each completed pass leaves every account, candidate or not,
 * equal to its ledger sum.
 *
 * The catch-up window is found through the rows themselves, so an account out of step is
 * only found while some row dated since the last pass explains it. `Spares` says what a
 * commit must not do for that: take away the last such row from an account it leaves out
 * of step, or, begun on another date, put one out of step behind the back of a pass that
 * has looked at it already or read its total.
 */
module DuePass {
  import opened Options
  import opened BalanceProtocol
  import opened BalanceInvariant

  /** One more than the window is wide, so that no day falls between two windows. */
  const MAX_GAP_DAYS := CATCH_UP_DAYS + 1

  // ----- Rows that explain a drift -----

  /** Row `row` of `a` fell due after day `since`. */
  predicate IsDue(s: State, row: Option<Row>, a: nat, since: int) {
    row.Some? && row.value.counted && row.value.account == a && since < row.value.date <= s.today
  }

  ghost predicate HasDueRow(s: State, a: nat, since: int) {
    exists r: nat | r < |s.ledger| :: IsDue(s, s.ledger[r], a, since)
  }

  /** If `a` is out of step, a row that has fallen due after `since` explains it. */
  ghost predicate Explained(s: State, a: nat, since: int)
    requires a < |s.accounts|
  {
    Drift(s, a) != 0 ==> HasDueRow(s, a, since)
  }

  /** The next pass will find `a` if it is out of step. */
  ghost predicate Covered(s: State, a: nat)
    requires a < |s.accounts|
  {
    Explained(s, a, s.lastPass)
  }

  lemma {:induction false} NoRowNoMove(l: Ledger, a: nat, from: int, to: int, n: nat)
    requires n <= |l|
    requires forall r: nat :: r < n ==> Moves(l[r], a, to) == Moves(l[r], a, from)
    ensures SumTo(l, a, to, n) == SumTo(l, a, from, n)
  {
    if n == 0 {
    } else {
      NoRowNoMove(l, a, from, to, n - 1);
    }
  }

  /** Between two days the ledger sum of an account moves only through a row dated between them. */
  lemma SumMovesByRows(s: State, a: nat, from: int)
    requires a < |s.accounts| && from <= s.today && !HasDueRow(s, a, from)
    ensures LedgerSum(s.ledger, a, s.today) == LedgerSum(s.ledger, a, from)
  {
    forall r: nat | r < |s.ledger| ensures Moves(s.ledger[r], a, s.today) == Moves(s.ledger[r], a, from) {
      assert !IsDue(s, s.ledger[r], a, from);
    }
    NoRowNoMove(s.ledger, a, from, s.today, |s.ledger|);
  }

  /** An account in agreement through a day is explained from there on. */
  lemma AgreedIsExplained(s: State, a: nat, day: int)
    requires a < |s.accounts| && day <= s.today && DriftAt(s, a, day) == 0
    ensures Explained(s, a, day)
  {
    if !HasDueRow(s, a, day) { SumMovesByRows(s, a, day); }
  }

  /** A new day puts an account out of step only through a row dated on it. */
  lemma NewDayExplained(s: State, a: nat, since: int)
    requires a < |s.accounts| && since <= s.today && Explained(s, a, since)
    ensures Explained(s.(today := s.today + 1), a, since)
  {
    var s' := s.(today := s.today + 1);
    assert forall r: nat :: r < |s.ledger| && IsDue(s, s.ledger[r], a, since) ==> IsDue(s', s'.ledger[r], a, since);
    if !HasDueRow(s', a, since) {
      assert !HasDueRow(s', a, s.today) by {
        assert forall r: nat :: r < |s.ledger| && IsDue(s', s'.ledger[r], a, s.today) ==>
               IsDue(s', s'.ledger[r], a, since);
      }
      SumMovesByRows(s', a, s.today);
    }
  }

  // ----- A pass in progress -----

  /** A pass that has got this far has still to read the total of `a`. */
  predicate WillFold(tx: Session, a: nat)
    requires tx.Tx?
  {
    match tx.phase
    case ComparingDue(found) => a in found
    case Locking(ids, pass) => pass ==> a in ids
    case Writing(_, pass) => !pass
    case PassDone => false
    case _ => true
  }

  /** How far `a` is from its ledger if the pass writes the total it has read, or does not touch it. */
  function Leaves(s: State, tx: Session, a: nat): int
    requires tx.Tx? && TxShape(s, tx) && a < |s.accounts|
  {
    if Totalled(tx, a) then Missed(s, tx, a) + LedgerSum(s.ledger, a, s.today) - LedgerSum(s.ledger, a, tx.day)
    else Drift(s, a)
  }

  /** What the pass leaves of `a` is explained by a row fallen due since its date. */
  ghost predicate LeftExplained(s: State, tx: Session, a: nat)
    requires tx.Tx? && TxShape(s, tx) && a < |s.accounts|
  {
    Leaves(s, tx, a) != 0 ==> HasDueRow(s, a, tx.day)
  }

  /** What a pass in progress has done with is explained after its date. */
  ghost predicate Catches(s: State, tx: Session)
    requires TxShape(s, tx)
  {
    tx.Tx? ==> forall a: nat :: a < |s.accounts| ==> WillFold(tx, a) || LeftExplained(s, tx, a)
  }

  ghost predicate DayInv(s: State) {
    && Inv(s) && Shape(s)
    && s.lastPass <= s.today <= s.lastPass + MAX_GAP_DAYS
    && (forall a: nat :: a < |s.accounts| ==> Covered(s, a))
    && forall t :: 0 <= t < |s.sessions| ==> Catches(s, s.sessions[t])
  }

  /** Where a run begins: nobody is at work, and every account agrees with its ledger. */
  lemma DayInvBegins(s: State)
    requires forall t :: 0 <= t < |s.sessions| ==> s.sessions[t].Idle?
    requires AllAgree(s) && s.lastPass <= s.today <= s.lastPass + 8
    ensures DayInv(s)
  {
    IdleInv(s);
  }

  // ----- Statements -----

  /** The window shows the pass every account that a row by its date explains. */
  lemma FindDueCatches(s: State, t: nat)
    requires DayInv(s) && Enabled(s, FindDue(t))
    ensures TxShape(s, s.sessions[t])
    ensures forall a: nat :: a < |s.accounts| ==>
                               a in Candidates(s, s.sessions[t].day) || Explained(s, a, s.sessions[t].day)
  {
    var tx := s.sessions[t];
    assert TxShape(s, tx);
    forall a: nat | a < |s.accounts| ensures a in Candidates(s, tx.day) || Explained(s, a, tx.day) {
      assert Covered(s, a);
      if Drift(s, a) != 0 {
        var r: nat :| r < |s.ledger| && IsDue(s, s.ledger[r], a, s.lastPass);
        assert InWindow(s.ledger[r], a, tx.day) || IsDue(s, s.ledger[r], a, tx.day);
      }
    }
  }

  /** A candidate that does not differ by the pass's date is explained after it. */
  lemma CompareDueCatches(s: State, t: nat)
    requires DayInv(s) && Enabled(s, CompareDue(t))
    ensures TxShape(s, s.sessions[t])
    ensures forall a: nat :: a < |s.accounts| ==>
                               a in Differing(s, s.sessions[t].phase.found, s.sessions[t].day) ||
                               Explained(s, a, s.sessions[t].day)
  {
    var tx := s.sessions[t];
    assert TxShape(s, tx) && Catches(s, tx);
    forall a: nat | a < |s.accounts|
      ensures a in Differing(s, tx.phase.found, tx.day) || Explained(s, a, tx.day)
    {
      assert WillFold(tx, a) || LeftExplained(s, tx, a);
      if a in tx.phase.found && a !in Differing(s, tx.phase.found, tx.day) { AgreedIsExplained(s, a, tx.day); }
    }
  }

  /** A total just read is right by the pass's date, and so explained after it. */
  lemma ReadTotalsCatches(s: State, t: nat, a: nat)
    requires DayInv(s) && Enabled(s, ReadTotals(t)) && a < |s.accounts|
    ensures TxShape(s, s.sessions[t]) && TxShape(s, Statement(s, ReadTotals(t)))
    ensures WillFold(Statement(s, ReadTotals(t)), a) || LeftExplained(s, Statement(s, ReadTotals(t)), a)
  {
    var tx := s.sessions[t];
    assert TxOk(s, tx) && TxShape(s, tx) && Catches(s, tx);
    StatementOk(s, ReadTotals(t));
    MissedByStatement(s, ReadTotals(t), a);
    assert WillFold(tx, a) || LeftExplained(s, tx, a);
    if !HasDueRow(s, a, tx.day) { SumMovesByRows(s, a, tx.day); }
  }

  /** Any other statement of a pass leaves what it has done with as it was. */
  lemma OtherCatches(s: State, e: Event, a: nat)
    requires DayInv(s) && Enabled(s, e) && !e.Commit? && !e.Tick? && a < |s.accounts|
    requires !e.FindDue? && !e.CompareDue? && !e.ReadTotals? && Statement(s, e).Tx?
    ensures TxShape(s, Statement(s, e))
    ensures WillFold(Statement(s, e), a) || LeftExplained(s, Statement(s, e), a)
  {
    var tx := s.sessions[e.t];
    assert TxOk(s, tx) && TxShape(s, tx) && Catches(s, tx);
    MissedByStatement(s, e, a);
    if tx.Tx? { assert WillFold(tx, a) || LeftExplained(s, tx, a); }
  }

  lemma StatementCatches(s: State, e: Event)
    requires DayInv(s) && Enabled(s, e) && !e.Commit? && !e.Tick?
    ensures TxShape(s, Statement(s, e)) && Catches(s, Statement(s, e))
  {
    assert TxOk(s, s.sessions[e.t]);
    StatementOk(s, e);
    if e.FindDue? {
      FindDueCatches(s, e.t);
    } else if e.CompareDue? {
      CompareDueCatches(s, e.t);
    } else if Statement(s, e).Tx? {
      forall a: nat | a < |s.accounts|
        ensures WillFold(Statement(s, e), a) || LeftExplained(s, Statement(s, e), a)
      {
        if e.ReadTotals? { ReadTotalsCatches(s, e.t, a); } else { OtherCatches(s, e, a); }
      }
    }
  }

  lemma SameDueRows(s: State, s': State, a: nat, since: int)
    requires s'.ledger == s.ledger && s'.today == s.today
    ensures HasDueRow(s', a, since) == HasDueRow(s, a, since)
  {
    assert forall r: nat :: r < |s.ledger| ==> IsDue(s', s'.ledger[r], a, since) == IsDue(s, s.ledger[r], a, since);
  }

  lemma PutKeepsDays(s: State, t: nat, tx: Session)
    requires DayInv(s) && t < |s.sessions| && Inv(Put(s, t, tx)) && Shape(Put(s, t, tx))
    requires TxShape(s, tx) && Catches(s, tx)
    ensures DayInv(Put(s, t, tx))
  {
    var s' := Put(s, t, tx);
    forall a: nat | a < |s'.accounts| ensures Covered(s', a) {
      assert Covered(s, a);
      SameDueRows(s, s', a, s.lastPass);
    }
    forall u | 0 <= u < |s'.sessions| ensures Catches(s', s'.sessions[u]) {
      var q := s'.sessions[u];
      assert TxShape(s, q) && Catches(s, q);
      if q.Tx? {
        forall a: nat | a < |s'.accounts| ensures WillFold(q, a) || LeftExplained(s', q, a) {
          assert WillFold(q, a) || LeftExplained(s, q, a);
          SameDueRows(s, s', a, q.day);
        }
      }
    }
  }

  lemma StatementKeepsDays(s: State, e: Event)
    requires DayInv(s) && Enabled(s, e) && !e.Commit? && !e.Tick?
    ensures DayInv(Do(s, e))
  {
    Keeps(s, e);
    StatementCatches(s, e);
    PutKeepsDays(s, e.t, Statement(s, e));
  }

  // ----- Commits -----

  /** Among the rows the transaction leaves, one of `a` has fallen due after `since`. */
  ghost predicate LeavesDueRow(s: State, tx: Session, a: nat, since: int)
    requires tx.Tx?
  {
    exists r: nat | r < |s.ledger| :: IsDue(s, Seen(s.ledger, tx.rows)[r], a, since)
  }

  /** The commit settles `a`, or leaves it a row fallen due after `since`. */
  ghost predicate LeavesExplained(s: State, tx: Session, a: nat, since: int)
    requires tx.Tx? && TxShape(s, tx) && a < |s.accounts|
  {
    DriftAfter(s, tx, a) != 0 ==> LeavesDueRow(s, tx, a, since)
  }

  /**
   * And it leaves `a` so to session `u`: with the total `u` has read, which the commit's rows
   * put out by what they weigh today, or with what the commit makes of `a` itself.
   */
  ghost predicate LeavesExplainedTo(s: State, t: nat, u: nat, a: nat)
    requires Shape(s) && IsTx(s, t) && IsTx(s, u) && a < |s.accounts|
  {
    var tx, q := s.sessions[t], s.sessions[u];
    assert TxShape(s, tx) && TxShape(s, q);
    (if Totalled(q, a) then Leaves(s, q, a) + GapAt(s, tx, a, s.today) else DriftAfter(s, tx, a)) != 0 ==>
      LeavesDueRow(s, tx, a, q.day)
  }

  /**
   * What a commit owes the passes: an account it leaves out of step keeps a row since the
   * last completed pass, for the next one to find it by, and one since the date of each
   * pass in progress that has done with the account. A pass keeps its date for eight days.
   */
  ghost predicate Spares(s: State, t: nat)
    requires Shape(s) && IsTx(s, t)
  {
    var tx := s.sessions[t];
    assert TxShape(s, tx);
    && (tx.phase.PassDone? ==> s.today <= tx.day + MAX_GAP_DAYS)
    && (!tx.phase.PassDone? ==> forall a: nat :: a < |s.accounts| ==> LeavesExplained(s, tx, a, s.lastPass))
    && forall u: nat, a: nat | u < |s.sessions| && u != t && s.sessions[u].Tx? && a < |s.accounts| ::
         WillFold(s.sessions[u], a) || LeavesExplainedTo(s, t, u, a)
  }

  lemma CommitRowsDue(s: State, t: nat, a: nat, since: int)
    requires Inv(s) && Shape(s) && Enabled(s, Commit(t)) && a < |s.accounts|
    ensures HasDueRow(Do(s, Commit(t)), a, since) <==> LeavesDueRow(s, s.sessions[t], a, since)
  {
    var s', tx := Do(s, Commit(t)), s.sessions[t];
    assert s'.ledger == Seen(s.ledger, tx.rows);
    assert forall r: nat :: r < |s.ledger| ==>
                              IsDue(s', s'.ledger[r], a, since) == IsDue(s, Seen(s.ledger, tx.rows)[r], a, since);
  }

  lemma CommitExplains(s: State, t: nat, a: nat, since: int)
    requires Inv(s) && Shape(s) && Enabled(s, Commit(t)) && a < |s.accounts|
    ensures |Do(s, Commit(t)).accounts| == |s.accounts| && TxShape(s, s.sessions[t])
    ensures Explained(Do(s, Commit(t)), a, since) <==> LeavesExplained(s, s.sessions[t], a, since)
  {
    CommitDrift(s, t, a);
    CommitRowsDue(s, t, a, since);
  }

  /** What another session leaves of `a` after the commit. */
  lemma CommitExplainsTo(s: State, t: nat, u: nat, a: nat)
    requires Inv(s) && Shape(s) && Enabled(s, Commit(t)) && IsTx(s, u) && u != t && a < |s.accounts|
    ensures |Do(s, Commit(t)).accounts| == |s.accounts| && TxShape(Do(s, Commit(t)), s.sessions[u])
    ensures LeftExplained(Do(s, Commit(t)), s.sessions[u], a) <==> LeavesExplainedTo(s, t, u, a)
  {
    var q := s.sessions[u];
    MissedByCommit(s, t, u, a);
    CommitDrift(s, t, a);
    CommitRowsDue(s, t, a, q.day);
  }

  /** By its own date a completed pass leaves every account in step, or explained since. */
  lemma PassExplains(s: State, t: nat, a: nat)
    requires DayInv(s) && Enabled(s, Commit(t)) && s.sessions[t].phase.PassDone? && a < |s.accounts|
    ensures |Do(s, Commit(t)).accounts| == |s.accounts|
    ensures Explained(Do(s, Commit(t)), a, s.sessions[t].day)
  {
    var s', tx := Do(s, Commit(t)), s.sessions[t];
    assert TxShape(s, tx) && Catches(s, tx);
    assert WillFold(tx, a) || LeftExplained(s, tx, a);
    assert tx.rows == map[] && Seen(s.ledger, tx.rows) == s.ledger;
    assert tx.rebuilt <= tx.held.Keys;
    CommitExplains(s, t, a, tx.day);
    assert DriftAfter(s, tx, a) == Leaves(s, tx, a);
    assert LeavesDueRow(s, tx, a, tx.day) <==> HasDueRow(s, a, tx.day);
  }

  /**
   * A pass that commits on its own date leaves every account equal to its ledger sum. One
   * that midnight has overtaken leaves each in agreement or with a row fallen due since its
   * date, and those it recomputed equal to the sum through its date, but for what the totals
   * it read have missed since.
   */
  lemma PassSettles(s: State, t: nat)
    requires DayInv(s) && Enabled(s, Commit(t)) && s.sessions[t].phase.PassDone?
    ensures |Do(s, Commit(t)).accounts| == |s.accounts| && TxShape(s, s.sessions[t])
    ensures forall a: nat :: a < |s.accounts| ==> Explained(Do(s, Commit(t)), a, s.sessions[t].day)
    ensures forall a: nat :: a < |s.accounts| && a in s.sessions[t].rebuilt ==>
                               DriftAt(Do(s, Commit(t)), a, s.sessions[t].day) == Missed(s, s.sessions[t], a)
    ensures s.sessions[t].day == s.today ==> AllAgree(Do(s, Commit(t)))
  {
    var s' := Do(s, Commit(t));
    assert TxShape(s, s.sessions[t]) && Seen(s.ledger, s.sessions[t].rows) == s.ledger;
    forall a: nat | a < |s.accounts|
      ensures |s'.accounts| == |s.accounts| && Explained(s', a, s.sessions[t].day)
      ensures a in s.sessions[t].rebuilt ==> DriftAt(s', a, s.sessions[t].day) == Missed(s, s.sessions[t], a)
      ensures s.sessions[t].day == s.today ==> Drift(s', a) == 0
    {
      PassExplains(s, t, a);
      assert forall r: nat :: r < |s'.ledger| ==> !IsDue(s', s'.ledger[r], a, s.today);
    }
  }

  /** Exactly what a commit must do to keep every account explained to every pass, under way or to come. */
  lemma CommitCoversExactly(s: State, t: nat)
    requires DayInv(s) && Enabled(s, Commit(t))
    ensures DayInv(Do(s, Commit(t))) <==> Spares(s, t)
  {
    var s', tx := Do(s, Commit(t)), s.sessions[t];
    Keeps(s, Commit(t));
    assert TxShape(s, tx);
    if tx.phase.PassDone? { PassSettles(s, t); }
    forall a: nat, since: int | a < |s.accounts|
      ensures Explained(s', a, since) <==> LeavesExplained(s, tx, a, since)
    {
      CommitExplains(s, t, a, since);
    }
    forall u: nat, a: nat | u < |s.sessions| && u != t && s.sessions[u].Tx? && a < |s.accounts|
      ensures TxShape(s', s.sessions[u])
      ensures LeftExplained(s', s.sessions[u], a) <==> LeavesExplainedTo(s, t, u, a)
    {
      CommitExplainsTo(s, t, u, a);
    }
    if Spares(s, t) {
      forall u | 0 <= u < |s'.sessions| ensures Catches(s', s'.sessions[u]) {}
    }
    if DayInv(s') {
      forall u: nat, a: nat | u < |s.sessions| && u != t && s.sessions[u].Tx? && a < |s.accounts|
        ensures WillFold(s.sessions[u], a) || LeavesExplainedTo(s, t, u, a)
      {
        assert Catches(s', s'.sessions[u]);
      }
      forall a: nat | a < |s.accounts| && !tx.phase.PassDone? ensures LeavesExplained(s, tx, a, s.lastPass) {
        assert Covered(s', a);
      }
    }
  }

  /** On one day no other session can tell: its totals stand, and what it let go is in step. */
  lemma SameDayOthers(s: State, t: nat, u: nat, a: nat)
    requires DayInv(s) && Enabled(s, Commit(t)) && OneDay(s) && IsTx(s, u) && u != t && a < |s.accounts|
    requires a in s.sessions[t].rebuilt ==> TxShape(s, s.sessions[t]) && Missed(s, s.sessions[t], a) == 0
    ensures WillFold(s.sessions[u], a) || LeavesExplainedTo(s, t, u, a)
  {
    var tx, q := s.sessions[t], s.sessions[u];
    assert TxShape(s, tx) && TxShape(s, q) && Catches(s, q) && q.day == s.today && tx.day == s.today;
    assert forall r: nat :: r < |s.ledger| ==> !IsDue(s, s.ledger[r], a, q.day);
    assert WillFold(q, a) || LeftExplained(s, q, a);
    if Totalled(q, a) {
      assert tx.held.Keys !! q.held.Keys;
      UnheldGap(s, t, a);
    }
  }

  /**
   * While every session is of today and the commit's totals are right, that is only this: a
   * posting leaves each account out of step that it does not recompute itself some row fallen
   * due since the last pass.
   */
  lemma SameDaySpares(s: State, t: nat)
    requires DayInv(s) && Enabled(s, Commit(t)) && OneDay(s)
    requires forall a: nat :: a < |s.accounts| ==> TotalsRight(s, a)
    ensures Spares(s, t) <==>
            s.sessions[t].phase.PassDone? ||
            forall a: nat :: a < |s.accounts| && Drift(s, a) != 0 && a !in s.sessions[t].rebuilt ==>
                               LeavesDueRow(s, s.sessions[t], a, s.lastPass)
  {
    var tx := s.sessions[t];
    assert tx.day == s.today && TxShape(s, tx);
    forall a: nat | a < |s.accounts|
      ensures LeavesExplained(s, tx, a, s.lastPass) <==>
              (Drift(s, a) != 0 && a !in tx.rebuilt ==> LeavesDueRow(s, tx, a, s.lastPass))
    {
      assert TotalsRight(s, a) && Missed(s, tx, a) == 0;
      assert DriftAfter(s, tx, a) == if a in tx.rebuilt then 0 else Drift(s, a);
    }
    forall u: nat, a: nat | u < |s.sessions| && u != t && s.sessions[u].Tx? && a < |s.accounts|
      ensures WillFold(s.sessions[u], a) || LeavesExplainedTo(s, t, u, a)
    {
      assert TotalsRight(s, a) && Missed(s, tx, a) == 0;
      SameDayOthers(s, t, u, a);
    }
    if forall a: nat :: a < |s.accounts| && Drift(s, a) != 0 && a !in tx.rebuilt ==>
                          LeavesDueRow(s, tx, a, s.lastPass) {
      assert forall a: nat :: a < |s.accounts| ==> LeavesExplained(s, tx, a, s.lastPass);
    }
  }

  // ----- Runs -----

  /** Commits spare what explains an account, and a day begins at most eight days after a pass. */
  ghost predicate Careful(s: State, e: Event)
    requires Shape(s) && Enabled(s, e)
  {
    match e
    case Commit(t) => Spares(s, t)
    case Tick => s.today + 1 <= s.lastPass + MAX_GAP_DAYS
    case _ => true
  }

  /** The ninth day after a pass does not begin before the next is completed; nothing else is asked of the calendar. */
  lemma EightDaysBetweenPasses(s: State)
    requires Shape(s)
    ensures Careful(s, Tick) <==> s.today - s.lastPass < 8
  {}

  /** Nor is what a pass has done with put out by a new day but with a row dated on it. */
  lemma NewDayLeaves(s: State, q: Session, a: nat)
    requires q.Tx? && TxShape(s, q) && a < |s.accounts| && LeftExplained(s, q, a)
    ensures TxShape(s.(today := s.today + 1), q) && LeftExplained(s.(today := s.today + 1), q, a)
  {
    var s' := s.(today := s.today + 1);
    assert forall r: nat :: r < |s.ledger| && IsDue(s, s.ledger[r], a, q.day) ==> IsDue(s', s'.ledger[r], a, q.day);
    if !HasDueRow(s', a, q.day) {
      assert !HasDueRow(s', a, s.today) by {
        assert forall r: nat :: r < |s.ledger| && IsDue(s', s'.ledger[r], a, s.today) ==>
                                  IsDue(s', s'.ledger[r], a, q.day);
      }
      SumMovesByRows(s', a, s.today);
    }
  }

  lemma TickKeepsDays(s: State)
    requires DayInv(s) && Enabled(s, Tick) && Careful(s, Tick)
    ensures DayInv(Do(s, Tick))
  {
    var s' := Do(s, Tick);
    Keeps(s, Tick);
    forall a: nat | a < |s.accounts| ensures Covered(s', a) {
      assert Covered(s, a);
      NewDayExplained(s, a, s.lastPass);
    }
    forall u | 0 <= u < |s'.sessions| ensures Catches(s', s'.sessions[u]) {
      var q := s.sessions[u];
      assert TxShape(s, q) && Catches(s, q);
      if q.Tx? {
        forall a: nat | a < |s.accounts| ensures WillFold(q, a) || LeftExplained(s', q, a) {
          assert WillFold(q, a) || LeftExplained(s, q, a);
          if !WillFold(q, a) { NewDayLeaves(s, q, a); }
        }
      }
    }
  }

  lemma DayStep(s: State, e: Event)
    requires DayInv(s) && Enabled(s, e) && Careful(s, e)
    ensures DayInv(Do(s, e))
  {
    if e.Commit? {
      CommitCoversExactly(s, e.t);
    } else if e.Tick? {
      TickKeepsDays(s);
    } else {
      StatementKeepsDays(s, e);
    }
  }

  ghost predicate CarefulRun(s: State, es: seq<Event>)
    requires Possible(s, es)
    decreases |es|
  {
    es == [] || (Careful(s, es[0]) && CarefulRun(Do(s, es[0]), es[1..]))
  }

  lemma {:induction false} DaysKeep(s: State, es: seq<Event>)
    requires DayInv(s) && Possible(s, es) && CarefulRun(s, es)
    ensures DayInv(After(s, es))
    decreases |es|
  {
    if es == [] {
    } else {
      DayStep(s, es[0]);
      DaysKeep(Do(s, es[0]), es[1..]);
    }
  }

  /**
   * Over any run across days, with postings and recomputations interleaved everywhere and
   * across midnight: whenever a due pass completes on its own date, every account agrees with
   * its ledger. One overtaken by midnight leaves each in agreement or with a row fallen due
   * since its date, for the next pass to find it by.
   */
  lemma EveryPassSettles(s: State, es: seq<Event>, t: nat)
    requires DayInv(s) && Possible(s, es) && CarefulRun(s, es)
    requires Enabled(After(s, es), Commit(t)) && After(s, es).sessions[t].phase.PassDone?
    ensures var end := After(s, es);
            && Shape(end) && |Do(end, Commit(t)).accounts| == |end.accounts|
            && (forall a: nat :: a < |end.accounts| ==> Explained(Do(end, Commit(t)), a, end.sessions[t].day))
            && (end.sessions[t].day == end.today ==> AllAgree(Do(end, Commit(t))))
  {
    DaysKeep(s, es);
    PassSettles(After(s, es), t);
  }

  // ----- Exactly what a pass settles -----

  /** Pass `t` looked at `a` iff `found`; `a` was out of step, and not settled beside it, iff `behind`. */
  ghost predicate Tracks(s: State, t: nat, a: nat, found: bool, behind: bool) {
    && Shape(s) && IsTx(s, t) && s.sessions[t].day == s.today && a < |s.accounts|
    && (if found then !behind ==> Drift(s, a) == 0 else behind <==> Drift(s, a) != 0)
    && TxShape(s, s.sessions[t]) && Missed(s, s.sessions[t], a) == 0
    && match s.sessions[t].phase
       case ComparingDue(ids) => a in ids <==> found
       case Locking(ids, pass) => pass && (a in ids ==> found) && (found && Drift(s, a) != 0 ==> a in ids)
       case Writing(totals, pass) => pass && (a in totals ==> found) && (found && Drift(s, a) != 0 ==> a in totals)
       case PassDone =>
         (a in s.sessions[t].rebuilt ==> found) && (found && Drift(s, a) != 0 ==> a in s.sessions[t].rebuilt)
       case _ => false
  }

  /** The event commits another session's recomputation of `a`. */
  ghost predicate Settles(s: State, e: Event, a: nat) {
    e.Commit? && IsTx(s, e.t) && a in s.sessions[e.t].rebuilt
  }

  /**
   * Events while pass `t` runs: none ends it or moves the calendar. What a commit changes of
   * `a` weighs by today as it does by the commit's own date, and a recomputation of `a` leaves
   * it in step.
   */
  ghost predicate Beside(s: State, e: Event, t: nat, a: nat) {
    && !e.Tick? && e != Abort(t) && e != Commit(t) && Shape(s) && a < |s.accounts|
    && (e.Commit? && IsTx(s, e.t) ==>
          TxShape(s, s.sessions[e.t]) &&
          GapAt(s, s.sessions[e.t], a, s.today) == Gap(s, s.sessions[e.t], a) &&
          (Settles(s, e, a) ==> DriftAfter(s, s.sessions[e.t], a) == 0))
  }

  ghost predicate BesideAll(s: State, es: seq<Event>, t: nat, a: nat)
    requires Possible(s, es)
    decreases |es|
  {
    es == [] || (Beside(s, es[0], t, a) && BesideAll(Do(s, es[0]), es[1..], t, a))
  }

  /** Somebody else recomputed `a` meanwhile. */
  ghost predicate SettledBeside(s: State, es: seq<Event>, a: nat)
    requires Possible(s, es)
    decreases |es|
  {
    es != [] && (Settles(s, es[0], a) || SettledBeside(Do(s, es[0]), es[1..], a))
  }

  /** A statement of the pass itself carries what it found to its next phase. */
  lemma TrackOwn(s: State, e: Event, a: nat, found: bool, behind: bool)
    requires Inv(s) && Enabled(s, e) && !e.Commit? && !e.Tick? && !e.Abort?
    requires Tracks(s, e.t, a, found, behind)
    ensures Tracks(Put(s, e.t, Statement(s, e)), e.t, a, found, behind)
  {
    Keeps(s, e);
    assert TxOk(s, s.sessions[e.t]);
    MissedByStatement(s, e, a);
  }

  /** The pass's own total stands: whoever commits beside it does not hold the account. */
  lemma TrackedTotal(s: State, e: Event, t: nat, a: nat)
    requires Inv(s) && Shape(s) && Enabled(s, e) && Beside(s, e, t, a) && e.t != t && IsTx(s, t)
    requires s.sessions[t].day == s.today && TxShape(s, s.sessions[t]) && Missed(s, s.sessions[t], a) == 0
    ensures TxShape(Do(s, e), s.sessions[t]) && Missed(Do(s, e), s.sessions[t], a) == 0
  {
    Keeps(s, e);
    if e.Commit? {
      MissedByCommit(s, e.t, t, a);
      if Totalled(s.sessions[t], a) {
        assert s.sessions[e.t].held.Keys !! s.sessions[t].held.Keys;
        UnheldGap(s, e.t, a);
      }
    }
  }

  /** What an event beside the pass does to `a`, and to the pass. */
  lemma DriftBeside(s: State, e: Event, t: nat, a: nat)
    requires Inv(s) && Shape(s) && Enabled(s, e) && Beside(s, e, t, a) && e.t != t && t < |s.sessions|
    ensures Shape(Do(s, e)) && |Do(s, e).accounts| == |s.accounts| && Do(s, e).today == s.today
    ensures |Do(s, e).sessions| == |s.sessions| && Do(s, e).sessions[t] == s.sessions[t]
    ensures Drift(Do(s, e), a) == if Settles(s, e, a) then 0 else Drift(s, a)
  {
    Keeps(s, e);
    DriftStep(s, e, a);
  }

  lemma TrackOther(s: State, s': State, t: nat, a: nat, found: bool, behind: bool, settled: bool)
    requires Tracks(s, t, a, found, behind) && Shape(s') && |s'.accounts| == |s.accounts| && s'.today == s.today
    requires t < |s'.sessions| && s'.sessions[t] == s.sessions[t]
    requires TxShape(s', s.sessions[t]) && Missed(s', s.sessions[t], a) == 0
    requires Drift(s', a) == if settled then 0 else Drift(s, a)
    ensures Tracks(s', t, a, found, behind && !settled)
  {}

  lemma TrackStep(s: State, e: Event, t: nat, a: nat, found: bool, behind: bool)
    requires Inv(s) && Shape(s) && Enabled(s, e) && Beside(s, e, t, a) && Tracks(s, t, a, found, behind)
    ensures Tracks(Do(s, e), t, a, found, behind && !Settles(s, e, a))
  {
    if e.t == t {
      TrackOwn(s, e, a, found, behind);
    } else {
      DriftBeside(s, e, t, a);
      TrackedTotal(s, e, t, a);
      TrackOther(s, Do(s, e), t, a, found, behind, Settles(s, e, a));
    }
  }

  lemma {:induction false} Tracked(s: State, es: seq<Event>, t: nat, a: nat, found: bool, behind: bool)
    requires Inv(s) && Shape(s) && Possible(s, es) && BesideAll(s, es, t, a) && Tracks(s, t, a, found, behind)
    ensures Inv(After(s, es)) && Tracks(After(s, es), t, a, found, behind && !SettledBeside(s, es, a))
    decreases |es|
  {
    if es == [] {
    } else {
      Keeps(s, es[0]);
      TrackStep(s, es[0], t, a, found, behind);
      Tracked(Do(s, es[0]), es[1..], t, a, found, behind && !Settles(s, es[0], a));
    }
  }

  /** Pass `t` looks for candidates, `es` runs, its own statements among them, and it is ready to commit. */
  ghost predicate PassRuns(s: State, es: seq<Event>, t: nat, a: nat) {
    && Inv(s) && Shape(s) && a < |s.accounts| && Enabled(s, FindDue(t)) && s.sessions[t].day == s.today
    && Possible(Do(s, FindDue(t)), es) && BesideAll(Do(s, FindDue(t)), es, t, a)
    && var end := After(Do(s, FindDue(t)), es);
       Shape(end) && Enabled(end, Commit(t)) && end.sessions[t].phase.PassDone?
  }

  ghost function AfterPass(s: State, es: seq<Event>, t: nat, a: nat): State
    requires PassRuns(s, es, t, a)
  {
    Do(After(Do(s, FindDue(t)), es), Commit(t))
  }

  /** The pass as it stands once it has looked. */
  lemma TrackBegins(s: State, t: nat, a: nat)
    requires Inv(s) && Shape(s) && a < |s.accounts| && Enabled(s, FindDue(t)) && s.sessions[t].day == s.today
    ensures Inv(Do(s, FindDue(t))) && Tracks(Do(s, FindDue(t)), t, a, HasWindowRow(s, a, s.today), Drift(s, a) != 0)
  {
    Keeps(s, FindDue(t));
    DriftStep(s, FindDue(t), a);
    assert TxShape(s, s.sessions[t]);
  }

  /** And what its commit makes of it. */
  lemma TrackEnds(s: State, t: nat, a: nat, found: bool, behind: bool)
    requires Inv(s) && Tracks(s, t, a, found, behind) && Enabled(s, Commit(t)) && s.sessions[t].phase.PassDone?
    ensures a < |Do(s, Commit(t)).accounts|
    ensures Drift(Do(s, Commit(t)), a) == 0 <==> found || !behind
  {
    DriftStep(s, Commit(t), a);
  }

  /**
   * With anything interleaved between its candidate query and its commit, a pass
   * leaves `a` equal to its ledger exactly when `a` already was when the pass
   * looked, or has a counted row in the eight-day window, or somebody else
   * recomputes it meanwhile.
   */
  lemma PassSettlesExactly(s: State, es: seq<Event>, t: nat, a: nat)
    requires PassRuns(s, es, t, a)
    ensures a < |AfterPass(s, es, t, a).accounts|
    ensures Drift(AfterPass(s, es, t, a), a) == 0 <==>
            Drift(s, a) == 0 || HasWindowRow(s, a, s.today) || SettledBeside(Do(s, FindDue(t)), es, a)
  {
    var s1 := Do(s, FindDue(t));
    TrackBegins(s, t, a);
    Tracked(s1, es, t, a, HasWindowRow(s, a, s.today), Drift(s, a) != 0);
    TrackEnds(After(s1, es), t, a, HasWindowRow(s, a, s.today), Drift(s, a) != 0 && !SettledBeside(s1, es, a));
  }

  /**
   * On the last day a pass may be late to, its window is exactly the days since the last
   * one: it settles `a` exactly when `a` was left explained, or somebody else does. Nothing
   * less would do.
   */
  lemma LatePassSettlesExactly(s: State, es: seq<Event>, t: nat, a: nat)
    requires PassRuns(s, es, t, a) && s.today == s.lastPass + MAX_GAP_DAYS
    ensures a < |AfterPass(s, es, t, a).accounts|
    ensures Drift(AfterPass(s, es, t, a), a) == 0 <==> Covered(s, a) || SettledBeside(Do(s, FindDue(t)), es, a)
  {
    PassSettlesExactly(s, es, t, a);
    assert forall r: nat :: r < |s.ledger| ==>
                              InWindow(s.ledger[r], a, s.today) == IsDue(s, s.ledger[r], a, s.lastPass);
  }

  /**
   * Why the lock comes before the read. A total read while another session's
   * posting is still uncommitted, and written after it commits, is wrong by
   * exactly that posting.
   */
  lemma EarlyReadLosesPosting(s: State, u: nat, a: nat, total: int)
    requires Inv(s) && Shape(s) && Enabled(s, Commit(u)) && a < |s.accounts|
    requires a in s.sessions[u].held ==> s.sessions[u].held[a].opening == s.accounts[a].opening
    requires total == s.accounts[a].opening + LedgerSum(s.ledger, a, s.today)
    ensures var s' := Do(s, Commit(u));
            Drift(s'.(accounts := s'.accounts[a := s'.accounts[a].(current := total)]), a) ==
            GapAt(s, s.sessions[u], a, s.today)
  {}
}
