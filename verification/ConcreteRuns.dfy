/**
 * Runs of the balance protocol that end where its guarantees do not reach, event by event:
 * what each hypothesis of DuePass and CloseGuarantee is there to keep out.
 */
module ConcreteRuns {
  import opened Options
  import opened BalanceProtocol
  import opened BalanceInvariant
  import opened DuePass
  import opened CloseGuarantee

  // ----- Chains of events -----

  ghost predicate Leads(s: State, e: Event, s': State) {
    Shape(s) && Enabled(s, e) && Do(s, e) == s'
  }

  ghost predicate IsTrace(states: seq<State>, es: seq<Event>) {
    |states| == |es| + 1 && forall i :: 0 <= i < |es| ==> Leads(states[i], es[i], states[i + 1])
  }

  /** `es` can happen from `s` and ends in `s'`. */
  ghost predicate Reaches(s: State, es: seq<Event>, s': State) {
    exists states: seq<State> :: IsTrace(states, es) && states[0] == s && states[|es|] == s'
  }

  /** That is what it is to be possible, and to come after. */
  lemma {:induction false} ReachesIsAfter(s: State, es: seq<Event>, s': State)
    ensures Reaches(s, es, s') <==> Possible(s, es) && After(s, es) == s'
    decreases |es|
  {
    if es == [] {
      assert IsTrace([s], es);
    } else {
      if states: seq<State> :| IsTrace(states, es) && states[0] == s && states[|es|] == s' {
        assert Leads(states[0], es[0], states[1]);
        assert IsTrace(states[1..], es[1..]);
        ReachesIsAfter(states[1], es[1..], s');
      }
      if Possible(s, es) && After(s, es) == s' {
        ReachesIsAfter(Do(s, es[0]), es[1..], s');
        One(s, es[0], Do(s, es[0]));
        Join(s, [es[0]], Do(s, es[0]), es[1..], s');
        assert [es[0]] + es[1..] == es;
      }
    }
  }

  lemma One(s: State, e: Event, s': State)
    requires Leads(s, e, s')
    ensures Reaches(s, [e], s')
  {
    assert IsTrace([s, s'], [e]);
  }

  lemma Join(s: State, es: seq<Event>, s': State, fs: seq<Event>, s'': State)
    requires Reaches(s, es, s') && Reaches(s', fs, s'')
    ensures Reaches(s, es + fs, s'')
  {
    var first: seq<State> :| IsTrace(first, es) && first[0] == s && first[|es|] == s';
    var second: seq<State> :| IsTrace(second, fs) && second[0] == s' && second[|fs|] == s'';
    var both := first + second[1..];
    forall i | 0 <= i < |es + fs| ensures Leads(both[i], (es + fs)[i], both[i + 1]) {
      if i >= |es| { assert Leads(second[i - |es|], fs[i - |es|], second[i - |es| + 1]); }
    }
    assert IsTrace(both, es + fs);
  }

  // ----- A small database: one account, one row, two sessions -----

  function World(today: int, lastPass: int, account: Account, row: Option<Row>, x: Session, y: Session): State {
    State(today, lastPass, [account], [row], [x, y])
  }

  /** A transaction of one account, with nothing done yet. */
  function Fresh(day: int, phase: Phase): Session { Tx(day, map[], map[], [0], {}, phase) }

  /** It has replaced the row. */
  function Wrote(day: int, row: Option<Row>, owed: int, phase: Phase): Session {
    Tx(day, map[], map[0 := row], [owed], {}, phase)
  }

  /** It has recomputed the account. */
  function Rebuilt(tx: Session, account: Account, phase: Phase): Session
    requires tx.Tx?
  {
    Tx(tx.day, map[0 := account], tx.rows, [0], {0}, phase)
  }

  ghost predicate Small(s: State, t: nat) { Shape(s) && |s.accounts| == 1 && |s.ledger| == 1 && t < |s.sessions| }

  lemma First(today: int, lastPass: int, account: Account, row: Option<Row>, x: Session, y: Session, z: Session)
    ensures Put(World(today, lastPass, account, row, x, y), 0, z) == World(today, lastPass, account, row, z, y)
  {}

  lemma Second(today: int, lastPass: int, account: Account, row: Option<Row>, x: Session, y: Session, z: Session)
    ensures Put(World(today, lastPass, account, row, x, y), 1, z) == World(today, lastPass, account, row, x, z)
  {}

  lemma OneSum(row: Option<Row>, day: int)
    ensures LedgerSum([row], 0, day) == Moves(row, 0, day)
  {
    assert SumTo([row], 0, day, 0) == 0;
  }

  lemma Ticks(s: State)
    requires Shape(s)
    ensures Reaches(s, [Tick], s.(today := s.today + 1))
  {
    One(s, Tick, s.(today := s.today + 1));
  }

  lemma Begins(s: State, t: nat)
    requires Small(s, t) && s.sessions[t].Idle?
    ensures Reaches(s, [Begin(t)], Put(s, t, Fresh(s.today, Ready)))
  {
    assert NewTx(s, Ready).owed == [0];
    One(s, Begin(t), Put(s, t, Fresh(s.today, Ready)));
  }

  lemma BeginsPass(s: State, t: nat)
    requires Small(s, t) && s.sessions[t].Idle?
    ensures Reaches(s, [BeginPass(t)], Put(s, t, Fresh(s.today, FindingDue)))
  {
    assert NewTx(s, FindingDue).owed == [0];
    One(s, BeginPass(t), Put(s, t, Fresh(s.today, FindingDue)));
  }

  /** A posting replaces the row; what that moves the balance by on its date is owed. */
  lemma Writes(s: State, t: nat, day: int, row: Option<Row>)
    requires Small(s, t) && s.sessions[t] == Fresh(day, Ready) && RowFree(s, t, 0)
    requires row.Some? ==> row.value.account == 0
    ensures Reaches(s, [WriteRow(t, 0, row)], Put(s, t, Wrote(day, row,
            Moves(row, 0, day) - Moves(s.ledger[0], 0, day), Ready)))
  {
    var tx := s.sessions[t];
    assert AfterWriteRow(s, tx, 0, row).owed == [Moves(row, 0, day) - Moves(s.ledger[0], 0, day)];
    One(s, WriteRow(t, 0, row), Put(s, t, Wrote(day, row, Moves(row, 0, day) - Moves(s.ledger[0], 0, day), Ready)));
  }

  /** The delta pays what is owed. */
  lemma Deltas(s: State, t: nat, day: int, row: Option<Row>, amount: int)
    requires Small(s, t) && s.sessions[t] == Wrote(day, row, amount, Ready) && AccountFree(s, t, 0) &&
             !s.accounts[0].closed
    ensures Reaches(s, [ApplyDelta(t, 0, amount, true)],
                    Put(s, t, Tx(day, map[0 := s.accounts[0].(current := s.accounts[0].current + amount)],
                        map[0 := row], [0], {}, Ready)))
  {
    var tx := Tx(day, map[0 := s.accounts[0].(current := s.accounts[0].current + amount)], map[0 := row], [0], {},
        Ready);
    assert AfterDelta(s, s.sessions[t], 0, amount) == tx;
    One(s, ApplyDelta(t, 0, amount, true), Put(s, t, tx));
  }

  lemma Asks(s: State, t: nat)
    requires Small(s, t) && s.sessions[t].Tx? && s.sessions[t].phase == Ready
    ensures Reaches(s, [Recompute(t, {0})], Put(s, t, s.sessions[t].(phase := Locking({0}, false))))
  {
    One(s, Recompute(t, {0}), Put(s, t, s.sessions[t].(phase := Locking({0}, false))));
  }

  lemma TakesLock(s: State, t: nat, pass: bool)
    requires Small(s, t) && s.sessions[t].Tx? && s.sessions[t].held == map[] && AccountFree(s, t, 0)
    requires s.sessions[t].phase == Locking({0}, pass)
    ensures Reaches(s, [TakeLock(t, 0)], Put(s, t, s.sessions[t].(held := map[0 := s.accounts[0]])))
  {
    One(s, TakeLock(t, 0), Put(s, t, s.sessions[t].(held := map[0 := s.accounts[0]])));
  }

  lemma Reads(s: State, t: nat, pass: bool, total: int)
    requires Small(s, t) && s.sessions[t].Tx? && s.sessions[t].held == map[0 := s.accounts[0]]
    requires s.sessions[t].phase == Locking({0}, pass)
    requires total == s.accounts[0].opening + Moves(Seen(s.ledger, s.sessions[t].rows)[0], 0, s.sessions[t].day)
    ensures Reaches(s, [ReadTotals(t)], Put(s, t, s.sessions[t].(phase := Writing(map[0 := total], pass))))
  {
    var tx := s.sessions[t];
    var seen := Seen(s.ledger, tx.rows);
    assert seen == [seen[0]];
    OneSum(seen[0], tx.day);
    assert Totals(s, tx, {0}) == map[0 := total];
    One(s, ReadTotals(t), Put(s, t, tx.(phase := Writing(map[0 := total], pass))));
  }

  lemma WritesTotal(s: State, t: nat, pass: bool, total: int)
    requires Small(s, t) && s.sessions[t].Tx? && s.sessions[t].held == map[0 := s.accounts[0]] &&
             s.sessions[t].rebuilt == {}
    requires s.sessions[t].phase == Writing(map[0 := total], pass)
    ensures Reaches(s, [WriteTotals(t)],
                    Put(s, t, Rebuilt(s.sessions[t], s.accounts[0].(current := total),
                        if pass then PassDone else Ready)))
  {
    var tx := s.sessions[t];
    var done := Rebuilt(tx, s.accounts[0].(current := total), if pass then PassDone else Ready);
    assert TxShape(s, tx);
    assert AfterWriteTotals(s, tx).owed == done.owed && AfterWriteTotals(s, tx).held == done.held;
    assert AfterWriteTotals(s, tx).rebuilt == {0};
    One(s, WriteTotals(t), Put(s, t, done));
  }

  lemma PutTwice(s: State, t: nat, x: Session, y: Session)
    requires t < |s.sessions|
    ensures Put(Put(s, t, x), t, y) == Put(s, t, y)
  {}

  /** From the lock to the write. */
  function Recomputing(t: nat): seq<Event> { [TakeLock(t, 0)] + [ReadTotals(t)] + [WriteTotals(t)] }

  lemma Recomputes(s: State, t: nat, pass: bool, total: int)
    requires Small(s, t) && s.sessions[t].Tx? && s.sessions[t].held == map[] && AccountFree(s, t, 0)
    requires s.sessions[t].phase == Locking({0}, pass) && s.sessions[t].rebuilt == {}
    requires total == s.accounts[0].opening + Moves(Seen(s.ledger, s.sessions[t].rows)[0], 0, s.sessions[t].day)
    ensures Reaches(s, Recomputing(t),
                    Put(s, t, Rebuilt(s.sessions[t], s.accounts[0].(current := total),
                        if pass then PassDone else Ready)))
  {
    var tx := s.sessions[t];
    var held := tx.(held := map[0 := s.accounts[0]]);
    var reading := held.(phase := Writing(map[0 := total], pass));
    var done := Rebuilt(tx, s.accounts[0].(current := total), if pass then PassDone else Ready);
    var s1, s2 := Put(s, t, held), Put(s, t, reading);
    assert TxShape(s, tx) && TxShape(s1, held) && TxShape(s2, reading);
    TakesLock(s, t, pass);
    Reads(s1, t, pass, total);
    PutTwice(s, t, held, reading);
    Join(s, [TakeLock(t, 0)], s1, [ReadTotals(t)], s2);
    WritesTotal(s2, t, pass, total);
    PutTwice(s, t, reading, done);
    Join(s, [TakeLock(t, 0)] + [ReadTotals(t)], s2, [WriteTotals(t)], Put(s, t, done));
  }

  /** COMMIT of a session that holds the account, or nothing. */
  lemma Commits(s: State, t: nat, account: Account, row: Option<Row>, lastPass: int)
    requires Small(s, t) && s.sessions[t].Tx? && s.sessions[t].owed == [0]
    requires s.sessions[t].phase.Ready? || s.sessions[t].phase.PassDone?
    requires account == if 0 in s.sessions[t].held then s.sessions[t].held[0] else s.accounts[0]
    requires row == if 0 in s.sessions[t].rows then s.sessions[t].rows[0] else s.ledger[0]
    requires lastPass == if s.sessions[t].phase.PassDone? then s.sessions[t].day else s.lastPass
    ensures Reaches(s, [Commit(t)], s.(accounts := [account], ledger := [row], sessions := s.sessions[t := Idle],
            lastPass := lastPass))
  {
    assert AfterCommit(s, t).accounts == [account] && AfterCommit(s, t).ledger == [row];
    One(s, Commit(t), s.(accounts := [account], ledger := [row], sessions := s.sessions[t := Idle],
        lastPass := lastPass));
  }

  lemma FirstIdle(s: State, today: int, lastPass: int, account: Account, row: Option<Row>, y: Session)
    requires |s.sessions| == 2 && s.sessions[1] == y && s.today == today
    ensures s.(accounts := [account], ledger := [row], sessions := s.sessions[0 := Idle], lastPass := lastPass) ==
            World(today, lastPass, account, row, Idle, y)
  {}

  lemma SecondIdle(s: State, today: int, lastPass: int, account: Account, row: Option<Row>, x: Session)
    requires |s.sessions| == 2 && s.sessions[0] == x && s.today == today
    ensures s.(accounts := [account], ledger := [row], sessions := s.sessions[1 := Idle], lastPass := lastPass) ==
            World(today, lastPass, account, row, x, Idle)
  {}

  /** A pass looks at its window and compares what it finds. */
  function Looking(t: nat): seq<Event> { [BeginPass(t)] + [FindDue(t)] + [CompareDue(t)] }

  lemma Finds(s: State, t: nat, found: bool)
    requires Small(s, t) && s.sessions[t] == Fresh(s.today, FindingDue) && found == InWindow(s.ledger[0], 0, s.today)
    ensures Reaches(s, [FindDue(t)], Put(s, t, Fresh(s.today, ComparingDue(if found then {0} else {}))))
  {
    assert HasWindowRow(s, 0, s.today) == found;
    assert Candidates(s, s.today) == if found then {0} else {};
    One(s, FindDue(t), Put(s, t, Fresh(s.today, ComparingDue(if found then {0} else {}))));
  }

  lemma Compares(s: State, t: nat, found: set<nat>, differs: set<nat>)
    requires Small(s, t) && s.sessions[t] == Fresh(s.today, ComparingDue(found)) && found <= {0}
    requires differs ==
             if s.accounts[0].opening + Moves(s.ledger[0], 0, s.today) != s.accounts[0].current then found else {}
    ensures Reaches(s, [CompareDue(t)], Put(s, t, Fresh(s.today, Locking(differs, true))))
  {
    OneSum(s.ledger[0], s.today);
    assert s.ledger == [s.ledger[0]];
    assert Differing(s, found, s.today) == differs;
    One(s, CompareDue(t), Put(s, t, Fresh(s.today, Locking(differs, true))));
  }

  lemma Looks(s: State, t: nat, differs: set<nat>)
    requires Small(s, t) && s.sessions[t].Idle?
    requires differs ==
             if InWindow(s.ledger[0], 0, s.today) &&
                s.accounts[0].opening + Moves(s.ledger[0], 0, s.today) != s.accounts[0].current then {0} else {}
    ensures Reaches(s, Looking(t), Put(s, t, Fresh(s.today, Locking(differs, true))))
  {
    var found := InWindow(s.ledger[0], 0, s.today);
    var ids: set<nat> := if found then {0} else {};
    var x, y, z := Fresh(s.today, FindingDue), Fresh(s.today, ComparingDue(ids)),
        Fresh(s.today, Locking(differs, true));
    assert TxShape(Put(s, t, x), x) && TxShape(Put(s, t, y), y);
    BeginsPass(s, t);
    Finds(Put(s, t, x), t, found);
    PutTwice(s, t, x, y);
    Join(s, [BeginPass(t)], Put(s, t, x), [FindDue(t)], Put(s, t, y));
    Compares(Put(s, t, y), t, ids, differs);
    PutTwice(s, t, y, z);
    Join(s, [BeginPass(t)] + [FindDue(t)], Put(s, t, y), [CompareDue(t)], Put(s, t, z));
  }

  /** A pass that found nothing out of step has nothing to write. */
  function Skipping(t: nat): seq<Event> { [ReadTotals(t)] + [WriteTotals(t)] }

  lemma SkipsReading(s: State, t: nat, day: int)
    requires Small(s, t) && s.sessions[t] == Fresh(day, Locking({}, true))
    ensures Reaches(s, [ReadTotals(t)], Put(s, t, Fresh(day, Writing(map[], true))))
  {
    assert Totals(s, s.sessions[t], {}) == map[];
    One(s, ReadTotals(t), Put(s, t, Fresh(day, Writing(map[], true))));
  }

  lemma SkipsWriting(s: State, t: nat, day: int)
    requires Small(s, t) && s.sessions[t] == Fresh(day, Writing(map[], true))
    ensures Reaches(s, [WriteTotals(t)], Put(s, t, Fresh(day, PassDone)))
  {
    var done := AfterWriteTotals(s, s.sessions[t]);
    assert done.held == map[] && done.owed == [0] && done.rebuilt == {};
    One(s, WriteTotals(t), Put(s, t, Fresh(day, PassDone)));
  }

  lemma Skips(s: State, t: nat, day: int)
    requires Small(s, t) && s.sessions[t] == Fresh(day, Locking({}, true))
    ensures Reaches(s, Skipping(t), Put(s, t, Fresh(day, PassDone)))
  {
    var x, y := Fresh(day, Writing(map[], true)), Fresh(day, PassDone);
    assert TxShape(s, s.sessions[t]) && TxShape(Put(s, t, x), x);
    SkipsReading(s, t, day);
    SkipsWriting(Put(s, t, x), t, day);
    PutTwice(s, t, x, y);
    Join(s, [ReadTotals(t)], Put(s, t, x), [WriteTotals(t)], Put(s, t, y));
  }

  const ZERO := Account(0, 0, false, None, false, 0)

  /** 1.0000 dated tomorrow. */
  const TOMORROW: Row := Row(0, 10000, 1, true)

  // ----- A deletion before the pass -----

  const BEFORE := World(0, 0, ZERO, Some(TOMORROW), Idle, Idle)
  const DELETION := [Tick] + [Begin(0)] + [WriteRow(0, 0, None)] + [ApplyDelta(0, 0, -10000, true)] + [Commit(0)]

  /** Its day comes; before the pass the row is deleted, reversing what was never added. */
  const DELETED := World(1, 0, ZERO.(current := -10000), None, Idle, Idle)

  lemma DeletionBegins(s: State)
    requires s == World(1, 0, ZERO, Some(TOMORROW), Wrote(1, None, -10000, Ready), Idle)
    ensures Reaches(BEFORE, [Tick] + [Begin(0)] + [WriteRow(0, 0, None)], s)
  {
    var s1 := World(1, 0, ZERO, Some(TOMORROW), Idle, Idle);
    var s2 := World(1, 0, ZERO, Some(TOMORROW), Fresh(1, Ready), Idle);
    Ticks(BEFORE);
    Begins(s1, 0);
    First(1, 0, ZERO, Some(TOMORROW), Idle, Idle, Fresh(1, Ready));
    Join(BEFORE, [Tick], s1, [Begin(0)], s2);
    Writes(s2, 0, 1, None);
    First(1, 0, ZERO, Some(TOMORROW), Fresh(1, Ready), Idle, Wrote(1, None, -10000, Ready));
    Join(BEFORE, [Tick] + [Begin(0)], s2, [WriteRow(0, 0, None)], s);
  }

  lemma DeletionEnds(s: State)
    requires s == World(1, 0, ZERO, Some(TOMORROW), Wrote(1, None, -10000, Ready), Idle)
    ensures Reaches(s, [ApplyDelta(0, 0, -10000, true)] + [Commit(0)], DELETED)
  {
    var tx := Tx(1, map[0 := ZERO.(current := -10000)], map[0 := None], [0], {}, Ready);
    var s1 := World(1, 0, ZERO, Some(TOMORROW), tx, Idle);
    Deltas(s, 0, 1, None, -10000);
    First(1, 0, ZERO, Some(TOMORROW), Wrote(1, None, -10000, Ready), Idle, tx);
    Commits(s1, 0, ZERO.(current := -10000), None, 0);
    FirstIdle(s1, 1, 0, ZERO.(current := -10000), None, Idle);
    Join(s, [ApplyDelta(0, 0, -10000, true)], s1, [Commit(0)], DELETED);
  }

  lemma DeletionLeads()
    ensures Reaches(BEFORE, DELETION, DELETED)
  {
    var s := World(1, 0, ZERO, Some(TOMORROW), Wrote(1, None, -10000, Ready), Idle);
    DeletionBegins(s);
    DeletionEnds(s);
    Join(BEFORE, [Tick] + [Begin(0)] + [WriteRow(0, 0, None)], s, [ApplyDelta(0, 0, -10000, true)] +
        [Commit(0)], DELETED);
    assert DELETION == [Tick] + [Begin(0)] + [WriteRow(0, 0, None)] + ([ApplyDelta(0, 0, -10000, true)] + [Commit(0)]);
  }

  const BLIND_PASS := Looking(0) + Skipping(0) + [Commit(0)]

  /** With no row in the window the pass does not look at the account. */
  lemma BlindPass(end: State)
    requires end == World(1, 1, ZERO.(current := -10000), None, Idle, Idle)
    ensures Reaches(DELETED, BLIND_PASS, end)
  {
    var account := ZERO.(current := -10000);
    var s1 := World(1, 0, account, None, Fresh(1, Locking({}, true)), Idle);
    var s2 := World(1, 0, account, None, Fresh(1, PassDone), Idle);
    Looks(DELETED, 0, {});
    First(1, 0, account, None, Idle, Idle, Fresh(1, Locking({}, true)));
    Skips(s1, 0, 1);
    First(1, 0, account, None, Fresh(1, Locking({}, true)), Idle, Fresh(1, PassDone));
    Join(DELETED, Looking(0), s1, Skipping(0), s2);
    Commits(s2, 0, account, None, 1);
    FirstIdle(s2, 1, 1, account, None, Idle);
    Join(DELETED, Looking(0) + Skipping(0), s2, [Commit(0)], end);
  }

  /**
   * Why a commit must spare a due row: a row that has just fallen due is deleted before the
   * first pass of its day, its reversal moves a balance that never held it, and the account,
   * left without a row in the window, is never a candidate again. The pass completes and the
   * stored balance stays wrong.
   */
  lemma ForgottenDeletion(end: State)
    requires end == World(1, 1, ZERO.(current := -10000), None, Idle, Idle)
    ensures DayInv(BEFORE) && AllAgree(BEFORE)
    ensures Reaches(BEFORE, DELETION + BLIND_PASS, end)
    ensures end.lastPass == end.today && Drift(end, 0) == 10000
  {
    OneSum(Some(TOMORROW), 0);
    DayInvBegins(BEFORE);
    DeletionLeads();
    BlindPass(end);
    Join(BEFORE, DELETION, DELETED, BLIND_PASS, end);
    OneSum(None, 1);
  }

  // ----- A posting overtaken by midnight -----

  const EMPTY := World(0, 0, ZERO, None, Idle, Idle)
  const CREATION := [Begin(0)] + [WriteRow(0, 0, Some(TOMORROW))]

  const CREATING := World(0, 0, ZERO, None, Wrote(0, Some(TOMORROW), 0, Ready), Idle)

  /** A row dated tomorrow is written; nothing is owed today. */
  lemma CreationLeads()
    ensures Reaches(EMPTY, CREATION, CREATING)
  {
    var s1 := World(0, 0, ZERO, None, Fresh(0, Ready), Idle);
    Begins(EMPTY, 0);
    First(0, 0, ZERO, None, Idle, Idle, Fresh(0, Ready));
    Writes(s1, 0, 0, Some(TOMORROW));
    First(0, 0, ZERO, None, Fresh(0, Ready), Idle, Wrote(0, Some(TOMORROW), 0, Ready));
    Join(EMPTY, [Begin(0)], s1, [WriteRow(0, 0, Some(TOMORROW))], CREATING);
  }

  function Posting(account: Account): Session {
    Tx(0, map[0 := account], map[0 := Some(TOMORROW)], [0], {0}, Ready)
  }

  /** For a row dated ahead the posting recomputes the account, which comes out as it was. */
  const REBUILDING := [Recompute(0, {0})] + Recomputing(0)

  lemma Rebuilds(s: State, account: Account)
    requires s == World(0, 0, account, None, Wrote(0, Some(TOMORROW), 0, Ready), Idle)
    requires account.opening == 0 && account.current == 0
    ensures Reaches(s, REBUILDING, World(0, 0, account, None, Posting(account), Idle))
  {
    var asking := Wrote(0, Some(TOMORROW), 0, Locking({0}, false));
    var s1 := World(0, 0, account, None, asking, Idle);
    Asks(s, 0);
    First(0, 0, account, None, Wrote(0, Some(TOMORROW), 0, Ready), Idle, asking);
    assert Seen(s1.ledger, asking.rows)[0] == Some(TOMORROW);
    Recomputes(s1, 0, false, 0);
    assert account.(current := 0) == account;
    First(0, 0, account, None, asking, Idle, Posting(account));
    Join(s, [Recompute(0, {0})], s1, Recomputing(0), World(0, 0, account, None, Posting(account), Idle));
  }

  const OVERTAKEN := CREATION + REBUILDING + [Tick]

  lemma WaitsOverMidnight(s: State)
    requires s == World(1, 0, ZERO, None, Posting(ZERO), Idle)
    ensures Reaches(EMPTY, OVERTAKEN, s)
  {
    var waiting := World(0, 0, ZERO, None, Posting(ZERO), Idle);
    CreationLeads();
    Rebuilds(CREATING, ZERO);
    Join(EMPTY, CREATION, CREATING, REBUILDING, waiting);
    Ticks(waiting);
    Join(EMPTY, CREATION + REBUILDING, waiting, [Tick], s);
  }

  const LOOKED_TOO_SOON := Looking(1) + Skipping(1)

  lemma LooksTooSoon(s: State, s': State)
    requires s == World(1, 0, ZERO, None, Posting(ZERO), Idle)
    requires s' == World(1, 0, ZERO, None, Posting(ZERO), Fresh(1, PassDone))
    ensures Reaches(s, LOOKED_TOO_SOON, s')
  {
    var s1 := World(1, 0, ZERO, None, Posting(ZERO), Fresh(1, Locking({}, true)));
    Looks(s, 1, {});
    Second(1, 0, ZERO, None, Posting(ZERO), Idle, Fresh(1, Locking({}, true)));
    Skips(s1, 1, 1);
    Second(1, 0, ZERO, None, Posting(ZERO), Fresh(1, Locking({}, true)), Fresh(1, PassDone));
    Join(s, Looking(1), s1, Skipping(1), s');
  }

  lemma BothCommit(s: State, end: State)
    requires s == World(1, 0, ZERO, None, Posting(ZERO), Fresh(1, PassDone))
    requires end == World(1, 1, ZERO, Some(TOMORROW), Idle, Idle)
    ensures Reaches(s, [Commit(0)] + [Commit(1)], end)
  {
    var s1 := World(1, 0, ZERO, Some(TOMORROW), Idle, Fresh(1, PassDone));
    Commits(s, 0, ZERO, Some(TOMORROW), 0);
    FirstIdle(s, 1, 0, ZERO, Some(TOMORROW), Fresh(1, PassDone));
    Commits(s1, 1, ZERO, Some(TOMORROW), 1);
    SecondIdle(s1, 1, 1, ZERO, Some(TOMORROW), Idle);
    Join(s, [Commit(0)], s1, [Commit(1)], end);
  }

  /**
   * Why a commit begun on an earlier date must not go behind a pass: the posting waits, the
   * day of its row comes, and the first pass looks before it commits. The pass completes
   * with the account out of step.
   */
  lemma MidnightPosting(end: State)
    requires end == World(1, 1, ZERO, Some(TOMORROW), Idle, Idle)
    ensures DayInv(EMPTY) && AllAgree(EMPTY)
    ensures Reaches(EMPTY, OVERTAKEN + LOOKED_TOO_SOON + ([Commit(0)] + [Commit(1)]), end)
    ensures end.lastPass == end.today && Drift(end, 0) == 10000
  {
    OneSum(None, 0);
    DayInvBegins(EMPTY);
    var s1 := World(1, 0, ZERO, None, Posting(ZERO), Idle);
    var s2 := World(1, 0, ZERO, None, Posting(ZERO), Fresh(1, PassDone));
    WaitsOverMidnight(s1);
    LooksTooSoon(s1, s2);
    Join(EMPTY, OVERTAKEN, s1, LOOKED_TOO_SOON, s2);
    BothCommit(s2, end);
    Join(EMPTY, OVERTAKEN + LOOKED_TOO_SOON, s2, [Commit(0)] + [Commit(1)], end);
    OneSum(Some(TOMORROW), 1);
  }

  // ----- A bulk void beside a pass -----

  const VOIDED: Row := TOMORROW.(counted := false)
  const VOIDING := [Begin(0)] + [WriteRow(0, 0, Some(VOIDED))] + [Tick]

  /** A row dated ahead is made void: no balance is moved, and no account locked. */
  lemma VoidingLeads(s: State)
    requires s == World(1, 0, ZERO, Some(TOMORROW), Wrote(0, Some(VOIDED), 0, Ready), Idle)
    ensures Reaches(BEFORE, VOIDING, s)
  {
    var s1 := World(0, 0, ZERO, Some(TOMORROW), Fresh(0, Ready), Idle);
    var s2 := World(0, 0, ZERO, Some(TOMORROW), Wrote(0, Some(VOIDED), 0, Ready), Idle);
    Begins(BEFORE, 0);
    First(0, 0, ZERO, Some(TOMORROW), Idle, Idle, Fresh(0, Ready));
    Writes(s1, 0, 0, Some(VOIDED));
    First(0, 0, ZERO, Some(TOMORROW), Fresh(0, Ready), Idle, Wrote(0, Some(VOIDED), 0, Ready));
    Join(BEFORE, [Begin(0)], s1, [WriteRow(0, 0, Some(VOIDED))], s2);
    Ticks(s2);
    Join(BEFORE, [Begin(0)] + [WriteRow(0, 0, Some(VOIDED))], s2, [Tick], s);
  }

  const AT_ROW := ZERO.(current := 10000)
  const TOTALLED := Tx(1, map[0 := AT_ROW], map[], [0], {0}, PassDone)

  /** The pass of the row's day finds it, not void yet, and totals it. */
  lemma PassTotals(s: State, s': State)
    requires s == World(1, 0, ZERO, Some(TOMORROW), Wrote(0, Some(VOIDED), 0, Ready), Idle)
    requires s' == World(1, 0, ZERO, Some(TOMORROW), Wrote(0, Some(VOIDED), 0, Ready), TOTALLED)
    ensures Reaches(s, Looking(1) + Recomputing(1), s')
  {
    var voiding, folding := Wrote(0, Some(VOIDED), 0, Ready), Fresh(1, Locking({0}, true));
    var s1 := World(1, 0, ZERO, Some(TOMORROW), voiding, folding);
    Looks(s, 1, {0});
    Second(1, 0, ZERO, Some(TOMORROW), voiding, Idle, folding);
    assert Seen(s1.ledger, map[])[0] == Some(TOMORROW);
    Recomputes(s1, 1, true, 10000);
    Second(1, 0, ZERO, Some(TOMORROW), voiding, folding, TOTALLED);
    Join(s, Looking(1), s1, Recomputing(1), s');
  }

  lemma VoidThenPassCommit(s: State, end: State)
    requires s == World(1, 0, ZERO, Some(TOMORROW), Wrote(0, Some(VOIDED), 0, Ready), TOTALLED)
    requires end == World(1, 1, AT_ROW, Some(VOIDED), Idle, Idle)
    ensures Reaches(s, [Commit(0)] + [Commit(1)], end)
  {
    var s1 := World(1, 0, ZERO, Some(VOIDED), Idle, TOTALLED);
    Commits(s, 0, ZERO, Some(VOIDED), 0);
    FirstIdle(s, 1, 0, ZERO, Some(VOIDED), TOTALLED);
    Commits(s1, 1, AT_ROW, Some(VOIDED), 1);
    SecondIdle(s1, 1, 1, AT_ROW, Some(VOIDED), Idle);
    Join(s, [Commit(0)], s1, [Commit(1)], end);
  }

  /**
   * Why a commit must not put out a total that a pass has read: a bulk void of a row dated
   * tomorrow moves no balance and so takes no account lock. Midnight passes, the pass totals the
   * account with the row in it, and the void commits. The pass completes with the row in the
   * balance and no longer in the ledger, where no later pass will look for it.
   */
  lemma BulkVoidBesidePass(end: State)
    requires end == World(1, 1, AT_ROW, Some(VOIDED), Idle, Idle)
    ensures DayInv(BEFORE) && AllAgree(BEFORE)
    ensures Reaches(BEFORE, VOIDING + (Looking(1) + Recomputing(1)) + ([Commit(0)] + [Commit(1)]), end)
    ensures end.lastPass == end.today && Drift(end, 0) == -10000 && !HasWindowRow(end, 0, end.today)
  {
    OneSum(Some(TOMORROW), 0);
    DayInvBegins(BEFORE);
    var s1 := World(1, 0, ZERO, Some(TOMORROW), Wrote(0, Some(VOIDED), 0, Ready), Idle);
    var s2 := World(1, 0, ZERO, Some(TOMORROW), Wrote(0, Some(VOIDED), 0, Ready), TOTALLED);
    VoidingLeads(s1);
    PassTotals(s1, s2);
    Join(BEFORE, VOIDING, s1, Looking(1) + Recomputing(1), s2);
    VoidThenPassCommit(s2, end);
    Join(BEFORE, VOIDING + (Looking(1) + Recomputing(1)), s2, [Commit(0)] + [Commit(1)], end);
    OneSum(Some(VOIDED), 1);
  }

  // ----- A row dated ahead, posted while the account closes -----

  const SHUT := ZERO.(closed := true)

  lemma Locks0(s: State, x: Session, tx: Session)
    requires s == World(0, 0, ZERO, None, x, Fresh(0, Ready)) && Shape(s) && AccountFree(s, 1, 0)
    requires tx == Tx(0, map[0 := ZERO], map[], [0], {}, CloseLinking(0))
    ensures Reaches(s, [Close(1, 0)], World(0, 0, ZERO, None, x, tx))
  {
    assert NewTx(s, Ready).owed == [0];
    assert Statement(s, Close(1, 0)) == tx;
    Second(0, 0, ZERO, None, x, Fresh(0, Ready), tx);
    One(s, Close(1, 0), World(0, 0, ZERO, None, x, tx));
  }

  lemma Checks0(s: State, x: Session, tx: Session)
    requires tx == Tx(0, map[0 := ZERO], map[], [0], {}, CloseLinking(0)) && s == World(0, 0, ZERO, None, x, tx) &&
             Shape(s)
    ensures Reaches(s, [CloseLinked(1)] + [CheckClose(1)], World(0, 0, ZERO, None, x, tx.(phase := CloseMarking({0}))))
  {
    var checking := tx.(phase := CloseChecking(0, {0}));
    var s1 := World(0, 0, ZERO, None, x, checking);
    assert Statement(s, CloseLinked(1)) == checking;
    Second(0, 0, ZERO, None, x, tx, checking);
    One(s, CloseLinked(1), s1);
    assert TxShape(s1, checking);
    assert Seen(s1.ledger, map[]) == [None];
    assert Statement(s1, CheckClose(1)) == tx.(phase := CloseMarking({0}));
    Second(0, 0, ZERO, None, x, checking, tx.(phase := CloseMarking({0})));
    One(s1, CheckClose(1), World(0, 0, ZERO, None, x, tx.(phase := CloseMarking({0}))));
    Join(s, [CloseLinked(1)], s1, [CheckClose(1)], World(0, 0, ZERO, None, x, tx.(phase := CloseMarking({0}))));
  }

  lemma Marks0(s: State, x: Session, tx: Session)
    requires tx == Tx(0, map[0 := ZERO], map[], [0], {}, CloseMarking({0})) && s == World(0, 0, ZERO, None, x, tx) &&
             Shape(s)
    ensures Reaches(s, [MarkClosed(1)] + [Commit(1)], World(0, 0, SHUT, None, x, Idle))
  {
    var marked := Tx(0, map[0 := SHUT], map[], [0], {}, Ready);
    var s1 := World(0, 0, ZERO, None, x, marked);
    assert Closing(tx.held, {0}) == map[0 := SHUT];
    assert Statement(s, MarkClosed(1)) == marked;
    Second(0, 0, ZERO, None, x, tx, marked);
    One(s, MarkClosed(1), s1);
    Commits(s1, 1, SHUT, None, 0);
    SecondIdle(s1, 0, 0, SHUT, None, x);
    Join(s, [MarkClosed(1)], s1, [Commit(1)], World(0, 0, SHUT, None, x, Idle));
  }

  const LINKING := Tx(0, map[0 := ZERO], map[], [0], {}, CloseLinking(0))

  lemma ClosingBegins(s': State)
    requires s' == World(0, 0, ZERO, None, Wrote(0, Some(TOMORROW), 0, Ready), LINKING)
    ensures Reaches(CREATING, [Begin(1)] + [Close(1, 0)], s')
  {
    var x := Wrote(0, Some(TOMORROW), 0, Ready);
    var s1 := World(0, 0, ZERO, None, x, Fresh(0, Ready));
    Begins(CREATING, 1);
    Second(0, 0, ZERO, None, x, Idle, Fresh(0, Ready));
    Locks0(s1, x, LINKING);
    Join(CREATING, [Begin(1)], s1, [Close(1, 0)], s');
  }

  lemma ClosingEnds(s: State, s': State)
    requires s == World(0, 0, ZERO, None, Wrote(0, Some(TOMORROW), 0, Ready), LINKING)
    requires s' == World(0, 0, SHUT, None, Wrote(0, Some(TOMORROW), 0, Ready), Idle)
    ensures Reaches(s, [CloseLinked(1)] + [CheckClose(1)] + ([MarkClosed(1)] + [Commit(1)]), s')
  {
    var x, marking := Wrote(0, Some(TOMORROW), 0, Ready), LINKING.(phase := CloseMarking({0}));
    var s1 := World(0, 0, ZERO, None, x, marking);
    Checks0(s, x, LINKING);
    Marks0(s1, x, marking);
    Join(s, [CloseLinked(1)] + [CheckClose(1)], s1, [MarkClosed(1)] + [Commit(1)], s');
  }

  const CLOSING := [Begin(1)] + [Close(1, 0)] + ([CloseLinked(1)] + [CheckClose(1)] + ([MarkClosed(1)] + [Commit(1)]))

  /** Close checks and commits beside a posting that has written its row and not committed. */
  lemma ClosingLeads(s': State)
    requires s' == World(0, 0, SHUT, None, Wrote(0, Some(TOMORROW), 0, Ready), Idle)
    ensures Reaches(CREATING, CLOSING, s')
  {
    var s := World(0, 0, ZERO, None, Wrote(0, Some(TOMORROW), 0, Ready), LINKING);
    ClosingBegins(s);
    ClosingEnds(s, s');
    Join(CREATING, [Begin(1)] + [Close(1, 0)], s, [CloseLinked(1)] + [CheckClose(1)] +
        ([MarkClosed(1)] + [Commit(1)]), s');
  }

  const CREATED_TOO_LATE := CREATION + CLOSING + REBUILDING + [Commit(0)]

  /** Both commit: the account is closed at zero, with a row dated tomorrow. */
  lemma CreatedTooLate(s: State)
    requires s == World(0, 0, SHUT, Some(TOMORROW), Idle, Idle)
    ensures Reaches(EMPTY, CREATED_TOO_LATE, s)
  {
    var s1 := World(0, 0, SHUT, None, Wrote(0, Some(TOMORROW), 0, Ready), Idle);
    var s2 := World(0, 0, SHUT, None, Posting(SHUT), Idle);
    CreationLeads();
    ClosingLeads(s1);
    Join(EMPTY, CREATION, CREATING, CLOSING, s1);
    Rebuilds(s1, SHUT);
    Join(EMPTY, CREATION + CLOSING, s1, REBUILDING, s2);
    Commits(s2, 0, SHUT, Some(TOMORROW), 0);
    FirstIdle(s2, 0, 0, SHUT, Some(TOMORROW), Idle);
    Join(EMPTY, CREATION + CLOSING + REBUILDING, s2, [Commit(0)], s);
  }

  const SHUT_AT_ROW := SHUT.(current := 10000)
  const FOLDING := Fresh(1, Locking({0}, true))
  const FOLDED := Tx(1, map[0 := SHUT_AT_ROW], map[], [0], {0}, PassDone)

  lemma DayBreaks(s: State, s': State)
    requires s == World(0, 0, SHUT, Some(TOMORROW), Idle, Idle)
    requires s' == World(1, 0, SHUT, Some(TOMORROW), FOLDING, Idle)
    ensures Reaches(s, [Tick] + Looking(0), s')
  {
    var s1 := World(1, 0, SHUT, Some(TOMORROW), Idle, Idle);
    Ticks(s);
    Looks(s1, 0, {0});
    First(1, 0, SHUT, Some(TOMORROW), Idle, Idle, FOLDING);
    Join(s, [Tick], s1, Looking(0), s');
  }

  lemma PassFolds(s: State, s': State)
    requires s == World(1, 0, SHUT, Some(TOMORROW), FOLDING, Idle)
    requires s' == World(1, 0, SHUT, Some(TOMORROW), FOLDED, Idle)
    ensures Reaches(s, Recomputing(0), s')
  {
    assert Seen(s.ledger, map[])[0] == Some(TOMORROW);
    Recomputes(s, 0, true, 10000);
    First(1, 0, SHUT, Some(TOMORROW), FOLDING, Idle, FOLDED);
  }

  lemma PassCommits(s: State, end: State)
    requires s == World(1, 0, SHUT, Some(TOMORROW), FOLDED, Idle)
    requires end == World(1, 1, SHUT_AT_ROW, Some(TOMORROW), Idle, Idle)
    ensures Reaches(s, [Commit(0)], end)
  {
    Commits(s, 0, SHUT_AT_ROW, Some(TOMORROW), 1);
    FirstIdle(s, 1, 1, SHUT_AT_ROW, Some(TOMORROW), Idle);
  }

  const NEXT_DAY := [Tick] + Looking(0) + Recomputing(0) + [Commit(0)]

  /** On the row's day the pass moves the closed account. */
  lemma PassMovesClosed(s: State, end: State)
    requires s == World(0, 0, SHUT, Some(TOMORROW), Idle, Idle)
    requires end == World(1, 1, SHUT_AT_ROW, Some(TOMORROW), Idle, Idle)
    ensures Reaches(s, NEXT_DAY, end)
  {
    var s1, s2 := World(1, 0, SHUT, Some(TOMORROW), FOLDING, Idle), World(1, 0, SHUT, Some(TOMORROW), FOLDED, Idle);
    DayBreaks(s, s1);
    PassFolds(s1, s2);
    Join(s, [Tick] + Looking(0), s1, Recomputing(0), s2);
    PassCommits(s2, end);
    Join(s, [Tick] + Looking(0) + Recomputing(0), s2, [Commit(0)], end);
  }

  /**
   * Why no other commit may bring a row dated ahead: a posting that found the account open
   * commits its row after the close. On the row's day a pass moves the closed account.
   */
  lemma CreatedWhileClosing(end: State)
    requires end == World(1, 1, SHUT_AT_ROW, Some(TOMORROW), Idle, Idle)
    ensures AllAgree(EMPTY)
    ensures Reaches(EMPTY, CREATED_TOO_LATE + NEXT_DAY, end)
    ensures end.accounts[0].closed && end.accounts[0].current != 0
  {
    OneSum(None, 0);
    var shut := World(0, 0, SHUT, Some(TOMORROW), Idle, Idle);
    CreatedTooLate(shut);
    PassMovesClosed(shut, end);
    Join(EMPTY, CREATED_TOO_LATE, shut, NEXT_DAY, end);
  }

  // ----- A row moved away from a closed account -----

  const PAID := Row(0, 10000, -1, true)
  const BACK := Row(0, -10000, -1, true)
  const MOVED := Row(1, -10000, 1, true)

  /** Two accounts, the first over two rows. */
  function Pair(first: Account, second: Row, x: Session): State {
    State(0, 0, [first, ZERO], [Some(PAID), Some(second)], [x])
  }

  lemma PairOnly(first: Account, second: Row, x: Session, z: Session)
    ensures Put(Pair(first, second, x), 0, z) == Pair(first, second, z)
  {}

  lemma PairSum(second: Row, day: int)
    requires day >= 0
    ensures LedgerSum([Some(PAID), Some(second)], 0, day) == 10000 + Moves(Some(second), 0, day)
  {
    var l := [Some(PAID), Some(second)];
    assert SumTo(l, 0, day, 0) == 0 && SumTo(l, 0, day, 1) == 10000;
  }

  const MOVING_BEGINS := [Begin(0)] + [WriteRow(0, 1, Some(MOVED))]
  const MOVING_RECOMPUTES := [Recompute(0, {0})] + [TakeLock(0, 0)] + [ReadTotals(0)] + [WriteTotals(0)]

  /** The row leaves the closed account, which owes it back; on the other it is dated ahead. */
  const MOVING := Tx(0, map[], map[1 := Some(MOVED)], [10000, 0], {}, Ready)

  lemma MovingBegins()
    ensures Reaches(Pair(SHUT, BACK, Idle), MOVING_BEGINS, Pair(SHUT, BACK, MOVING))
  {
    var s, x := Pair(SHUT, BACK, Idle), Tx(0, map[], map[], [0, 0], {}, Ready);
    assert NewTx(s, Ready).owed == [0, 0];
    PairOnly(SHUT, BACK, Idle, x);
    One(s, Begin(0), Pair(SHUT, BACK, x));
    MovingWrites(Pair(SHUT, BACK, x), x);
    Join(s, [Begin(0)], Pair(SHUT, BACK, x), [WriteRow(0, 1, Some(MOVED))], Pair(SHUT, BACK, MOVING));
  }

  lemma MovingWrites(s: State, x: Session)
    requires x == Tx(0, map[], map[], [0, 0], {}, Ready) && s == Pair(SHUT, BACK, x)
    ensures Reaches(s, [WriteRow(0, 1, Some(MOVED))], Pair(SHUT, BACK, MOVING))
  {
    assert AfterWriteRow(s, x, 1, Some(MOVED)).owed == MOVING.owed;
    PairOnly(SHUT, BACK, x, MOVING);
    One(s, WriteRow(0, 1, Some(MOVED)), Pair(SHUT, BACK, MOVING));
  }

  lemma MovingLocks(held: Session)
    requires held == MOVING.(phase := Locking({0}, false), held := map[0 := SHUT])
    ensures Reaches(Pair(SHUT, BACK, MOVING), [Recompute(0, {0})] + [TakeLock(0, 0)], Pair(SHUT, BACK, held))
  {
    var locking := MOVING.(phase := Locking({0}, false));
    var s, s1 := Pair(SHUT, BACK, MOVING), Pair(SHUT, BACK, locking);
    PairOnly(SHUT, BACK, MOVING, locking);
    One(s, Recompute(0, {0}), s1);
    assert Lock(s1, locking, 0) == held;
    PairOnly(SHUT, BACK, locking, held);
    One(s1, TakeLock(0, 0), Pair(SHUT, BACK, held));
    Join(s, [Recompute(0, {0})], s1, [TakeLock(0, 0)], Pair(SHUT, BACK, held));
  }

  lemma MovingReads(held: Session)
    requires held == MOVING.(phase := Locking({0}, false), held := map[0 := SHUT])
    ensures Reaches(Pair(SHUT, BACK, held), [ReadTotals(0)],
            Pair(SHUT, BACK, held.(phase := Writing(map[0 := 10000], false))))
  {
    var s, reading := Pair(SHUT, BACK, held), held.(phase := Writing(map[0 := 10000], false));
    assert Seen(s.ledger, held.rows) == [Some(PAID), Some(MOVED)];
    PairSum(MOVED, 0);
    assert Totals(s, held, {0}) == map[0 := 10000];
    PairOnly(SHUT, BACK, held, reading);
    One(s, ReadTotals(0), Pair(SHUT, BACK, reading));
  }

  const MOVING_DONE := Tx(0, map[0 := SHUT.(current := 10000)], map[1 := Some(MOVED)], [0, 0], {0}, Ready)

  lemma MovingWritesTotal(reading: Session)
    requires reading == MOVING.(phase := Writing(map[0 := 10000], false), held := map[0 := SHUT])
    ensures Reaches(Pair(SHUT, BACK, reading), [WriteTotals(0)], Pair(SHUT, BACK, MOVING_DONE))
  {
    var s := Pair(SHUT, BACK, reading);
    var tx := AfterWriteTotals(s, reading);
    assert tx.owed == [0, 0] && tx.held == MOVING_DONE.held && tx.rebuilt == {0};
    PairOnly(SHUT, BACK, reading, MOVING_DONE);
    One(s, WriteTotals(0), Pair(SHUT, BACK, MOVING_DONE));
  }

  lemma MovingCommits()
    ensures Reaches(Pair(SHUT, BACK, MOVING_DONE), [Commit(0)], Pair(SHUT.(current := 10000), MOVED, Idle))
  {
    var s := Pair(SHUT, BACK, MOVING_DONE);
    assert AfterCommit(s, 0).accounts == [SHUT.(current := 10000), ZERO];
    assert AfterCommit(s, 0).ledger == [Some(PAID), Some(MOVED)];
    assert AfterCommit(s, 0).sessions == [Idle];
    One(s, Commit(0), Pair(SHUT.(current := 10000), MOVED, Idle));
  }

  lemma MovingRecomputes()
    ensures Reaches(Pair(SHUT, BACK, MOVING), MOVING_RECOMPUTES, Pair(SHUT, BACK, MOVING_DONE))
  {
    var held := MOVING.(phase := Locking({0}, false), held := map[0 := SHUT]);
    var reading := held.(phase := Writing(map[0 := 10000], false));
    var s, s1, s2 := Pair(SHUT, BACK, MOVING), Pair(SHUT, BACK, held), Pair(SHUT, BACK, reading);
    MovingLocks(held);
    MovingReads(held);
    Join(s, [Recompute(0, {0})] + [TakeLock(0, 0)], s1, [ReadTotals(0)], s2);
    MovingWritesTotal(reading);
    Join(s, [Recompute(0, {0})] + [TakeLock(0, 0)] + [ReadTotals(0)], s2, [WriteTotals(0)],
        Pair(SHUT, BACK, MOVING_DONE));
  }

  lemma PairClosed(s: State)
    requires s == Pair(SHUT, BACK, Idle)
    ensures Closed(s, 0)
  {
    IdleInv(s);
    PairSum(BACK, 0);
  }

  lemma MovedAgrees(end: State)
    requires end == Pair(SHUT.(current := 10000), MOVED, Idle)
    ensures Drift(end, 0) == 0
    ensures forall r: nat :: r < |end.ledger| ==> !IsFuture(end, end.ledger[r], 0)
  {
    PairSum(MOVED, 0);
  }

  /**
   * Why a commit's row changes must cancel on a closed account: of two past rows that cancel
   * there, one is moved to an open account and dated ahead, so that the accounts are
   * recomputed rather than moved by deltas. No delta is refused, no row of the closed account
   * is dated ahead, and it ends at the row that was left.
   */
  lemma MovedFromClosed(end: State)
    requires end == Pair(SHUT.(current := 10000), MOVED, Idle)
    ensures Closed(Pair(SHUT, BACK, Idle), 0)
    ensures Reaches(Pair(SHUT, BACK, Idle), MOVING_BEGINS + MOVING_RECOMPUTES + [Commit(0)], end)
    ensures end.accounts[0].closed && end.accounts[0].current == 10000 && Drift(end, 0) == 0
    ensures forall r: nat :: r < |end.ledger| ==> !IsFuture(end, end.ledger[r], 0)
  {
    var s, s1, s2 := Pair(SHUT, BACK, Idle), Pair(SHUT, BACK, MOVING), Pair(SHUT, BACK, MOVING_DONE);
    PairClosed(s);
    MovingBegins();
    MovingRecomputes();
    Join(s, MOVING_BEGINS, s1, MOVING_RECOMPUTES, s2);
    MovingCommits();
    Join(s, MOVING_BEGINS + MOVING_RECOMPUTES, s2, [Commit(0)], end);
    MovedAgrees(end);
  }

  // ----- Two rows of a closed account deleted beside a recomputation -----

  const IN: Row := Row(0, 10000, 0, true)
  const OUT: Row := Row(0, -10000, 1, true)

  /** One closed account over two rows, on the day of the second. */
  function Shut(account: Account, first: Option<Row>, second: Option<Row>, x: Session, y: Session): State {
    State(1, 1, [account], [first, second], [x, y])
  }

  lemma ShutFirst(account: Account, first: Option<Row>, second: Option<Row>, x: Session, y: Session, z: Session)
    ensures Put(Shut(account, first, second, x, y), 0, z) == Shut(account, first, second, z, y)
  {}

  lemma ShutSecond(account: Account, first: Option<Row>, second: Option<Row>, x: Session, y: Session, z: Session)
    ensures Put(Shut(account, first, second, x, y), 1, z) == Shut(account, first, second, x, z)
  {}

  lemma TwoSums(first: Option<Row>, second: Option<Row>, day: int)
    ensures LedgerSum([first, second], 0, day) == Moves(first, 0, day) + Moves(second, 0, day)
  {
    var l := [first, second];
    assert SumTo(l, 0, day, 0) == 0 && SumTo(l, 0, day, 1) == Moves(first, 0, day);
  }

  /** It began yesterday, and has recomputed nothing yet. */
  const LATE := Fresh(0, Ready)
  const LATE_READING := Tx(0, map[0 := SHUT], map[], [0], {}, Writing(map[0 := 10000], false))
  const LATE_DONE := Tx(0, map[0 := SHUT_AT_ROW], map[], [0], {0}, Ready)

  const TOTALLING := [Recompute(0, {0})] + [TakeLock(0, 0)] + [ReadTotals(0)]

  lemma LateLocks(s: State, s': State)
    requires s == Shut(SHUT, Some(IN), Some(OUT), LATE, Idle)
    requires s' == Shut(SHUT, Some(IN), Some(OUT), Tx(0, map[0 := SHUT], map[], [0], {}, Locking({0}, false)), Idle)
    ensures Reaches(s, [Recompute(0, {0})] + [TakeLock(0, 0)], s')
  {
    var locking := Fresh(0, Locking({0}, false));
    var s1 := Shut(SHUT, Some(IN), Some(OUT), locking, Idle);
    ShutFirst(SHUT, Some(IN), Some(OUT), LATE, Idle, locking);
    One(s, Recompute(0, {0}), s1);
    assert Lock(s1, locking, 0) == s'.sessions[0];
    ShutFirst(SHUT, Some(IN), Some(OUT), locking, Idle, s'.sessions[0]);
    One(s1, TakeLock(0, 0), s');
    Join(s, [Recompute(0, {0})], s1, [TakeLock(0, 0)], s');
  }

  /** By its date the second row has not come. */
  lemma LateTotals(s: State, s': State)
    requires s == Shut(SHUT, Some(IN), Some(OUT), LATE, Idle)
    requires s' == Shut(SHUT, Some(IN), Some(OUT), LATE_READING, Idle)
    ensures Reaches(s, TOTALLING, s')
  {
    var held := Tx(0, map[0 := SHUT], map[], [0], {}, Locking({0}, false));
    var s1 := Shut(SHUT, Some(IN), Some(OUT), held, Idle);
    LateLocks(s, s1);
    assert Seen(s1.ledger, map[]) == [Some(IN), Some(OUT)];
    TwoSums(Some(IN), Some(OUT), 0);
    assert Totals(s1, held, {0}) == map[0 := 10000];
    ShutFirst(SHUT, Some(IN), Some(OUT), held, Idle, LATE_READING);
    One(s1, ReadTotals(0), s');
    Join(s, [Recompute(0, {0})] + [TakeLock(0, 0)], s1, [ReadTotals(0)], s');
  }

  const FIRST_GONE := Tx(1, map[], map[0 := None], [-10000], {}, Ready)

  /** Both rows deleted: the account is owed nothing. */
  const BOTH_GONE := Tx(1, map[], map[0 := None, 1 := None], [0], {}, Ready)

  lemma FirstGoes(s: State, s': State)
    requires s == Shut(SHUT, Some(IN), Some(OUT), LATE_READING, Idle)
    requires s' == Shut(SHUT, Some(IN), Some(OUT), LATE_READING, FIRST_GONE)
    ensures Reaches(s, [Begin(1)] + [WriteRow(1, 0, None)], s')
  {
    var s1 := Shut(SHUT, Some(IN), Some(OUT), LATE_READING, Fresh(1, Ready));
    assert NewTx(s, Ready).owed == [0];
    ShutSecond(SHUT, Some(IN), Some(OUT), LATE_READING, Idle, Fresh(1, Ready));
    One(s, Begin(1), s1);
    assert Moves(Some(IN), 0, 1) == 10000 && Moves(None, 0, 1) == 0;
    assert AfterWriteRow(s1, Fresh(1, Ready), 0, None).owed == [-10000];
    ShutSecond(SHUT, Some(IN), Some(OUT), LATE_READING, Fresh(1, Ready), FIRST_GONE);
    One(s1, WriteRow(1, 0, None), s');
    Join(s, [Begin(1)], s1, [WriteRow(1, 0, None)], s');
  }

  lemma SecondGoes(s: State, s': State)
    requires s == Shut(SHUT, Some(IN), Some(OUT), LATE_READING, FIRST_GONE)
    requires s' == Shut(SHUT, Some(IN), Some(OUT), LATE_READING, BOTH_GONE)
    ensures Reaches(s, [WriteRow(1, 1, None)], s')
  {
    var tx := AfterWriteRow(s, FIRST_GONE, 1, None);
    assert Moves(Some(OUT), 0, 1) == -10000 && Moves(None, 0, 1) == 0;
    assert tx.owed == [0] && tx.rows == BOTH_GONE.rows;
    ShutSecond(SHUT, Some(IN), Some(OUT), LATE_READING, FIRST_GONE, BOTH_GONE);
    One(s, WriteRow(1, 1, None), s');
  }

  lemma DeletionCommits(s: State, s': State)
    requires s == Shut(SHUT, Some(IN), Some(OUT), LATE_READING, BOTH_GONE)
    requires s' == Shut(SHUT, None, None, LATE_READING, Idle)
    ensures Reaches(s, [Commit(1)], s')
  {
    assert AfterCommit(s, 1).accounts == [SHUT] && AfterCommit(s, 1).ledger == [None, None];
    assert AfterCommit(s, 1).sessions == [LATE_READING, Idle];
    One(s, Commit(1), s');
  }

  const BULK_DELETE := [Begin(1)] + [WriteRow(1, 0, None)] + [WriteRow(1, 1, None)] + [Commit(1)]

  lemma BulkDeletes(s: State, s': State)
    requires s == Shut(SHUT, Some(IN), Some(OUT), LATE_READING, Idle)
    requires s' == Shut(SHUT, None, None, LATE_READING, Idle)
    ensures Reaches(s, BULK_DELETE, s')
  {
    var s1 := Shut(SHUT, Some(IN), Some(OUT), LATE_READING, FIRST_GONE);
    var s2 := Shut(SHUT, Some(IN), Some(OUT), LATE_READING, BOTH_GONE);
    FirstGoes(s, s1);
    SecondGoes(s1, s2);
    Join(s, [Begin(1)] + [WriteRow(1, 0, None)], s1, [WriteRow(1, 1, None)], s2);
    DeletionCommits(s2, s');
    Join(s, [Begin(1)] + [WriteRow(1, 0, None)] + [WriteRow(1, 1, None)], s2, [Commit(1)], s');
  }

  lemma LateWrites(s: State, s': State)
    requires s == Shut(SHUT, None, None, LATE_READING, Idle) && s' == Shut(SHUT, None, None, LATE_DONE, Idle)
    ensures Reaches(s, [WriteTotals(0)], s')
  {
    var tx := AfterWriteTotals(s, LATE_READING);
    assert tx.owed == [0] && tx.held == LATE_DONE.held && tx.rebuilt == {0};
    ShutFirst(SHUT, None, None, LATE_READING, Idle, LATE_DONE);
    One(s, WriteTotals(0), s');
  }

  lemma LateCommits(s: State, end: State)
    requires s == Shut(SHUT, None, None, LATE_DONE, Idle) && end == Shut(SHUT_AT_ROW, None, None, Idle, Idle)
    ensures Reaches(s, [Commit(0)], end)
  {
    assert AfterCommit(s, 0).accounts == [SHUT_AT_ROW] && AfterCommit(s, 0).ledger == [None, None];
    assert AfterCommit(s, 0).sessions == [Idle, Idle];
    One(s, Commit(0), end);
  }

  lemma ShutIsClosed(s: State)
    requires s == Shut(SHUT, Some(IN), Some(OUT), LATE, Idle)
    ensures Closed(s, 0)
  {
    TwoSums(Some(IN), Some(OUT), 1);
    forall a: nat | a < |s.accounts| ensures Balanced(s, LATE, a) {
      assert Seen(s.ledger, map[]) == s.ledger;
    }
    assert TxOk(s, LATE) && TxOk(s, Idle);
  }

  lemma OnlyDeletes(s: State, tx: Session)
    requires tx.Tx? && tx.rebuilt == {} && (forall r :: r in tx.rows ==> tx.rows[r].None?) && 0 < |s.accounts|
    requires LedgerSum(Seen(s.ledger, tx.rows), 0, s.today) == LedgerSum(s.ledger, 0, s.today)
    ensures LeavesZero(s, tx, 0)
  {}

  /** The deletion takes nothing away. */
  lemma DeletionLeavesZero(s: State)
    requires s == Shut(SHUT, Some(IN), Some(OUT), LATE_READING, BOTH_GONE)
    ensures LeavesZero(s, BOTH_GONE, 0)
  {
    assert Seen(s.ledger, BOTH_GONE.rows) == [None, None];
    TwoSums(Some(IN), Some(OUT), 1);
    TwoSums(None, None, 1);
    OnlyDeletes(s, BOTH_GONE);
  }

  lemma NothingWritten(s: State, tx: Session)
    requires tx.Tx? && tx.rows == map[] && 0 < |s.accounts|
    requires s.accounts[0].opening + LedgerSum(s.ledger, 0, tx.day) == 0
    ensures LeavesZero(s, tx, 0)
  {
    assert Seen(s.ledger, tx.rows) == s.ledger;
  }

  /** The late total, were it read now, would be zero. */
  lemma TotalLeavesZero(s: State)
    requires s == Shut(SHUT, None, None, LATE_DONE, Idle)
    ensures LeavesZero(s, LATE_DONE, 0)
  {
    TwoSums(None, None, 0);
    NothingWritten(s, LATE_DONE);
  }

  const CANCELLED := TOTALLING + BULK_DELETE + [WriteTotals(0)] + [Commit(0)]

  /**
   * Why no commit may put out a total of a closed account: of two past rows that cancel there,
   * the total of a session that began yesterday has only the first. A bulk delete of both moves
   * nothing, skips the account and takes no lock of it; then the total is written. Both commits
   * meet `LeavesZero` (`DeletionLeavesZero`, `TotalLeavesZero`).
   */
  lemma DeletedBesideRecompute(end: State)
    requires end == Shut(SHUT_AT_ROW, None, None, Idle, Idle)
    ensures Closed(Shut(SHUT, Some(IN), Some(OUT), LATE, Idle), 0)
    ensures Reaches(Shut(SHUT, Some(IN), Some(OUT), LATE, Idle), CANCELLED, end)
    ensures end.accounts[0].closed && end.accounts[0].current == 10000
  {
    var s := Shut(SHUT, Some(IN), Some(OUT), LATE, Idle);
    var s1 := Shut(SHUT, Some(IN), Some(OUT), LATE_READING, Idle);
    var s2, s3 := Shut(SHUT, None, None, LATE_READING, Idle), Shut(SHUT, None, None, LATE_DONE, Idle);
    ShutIsClosed(s);
    LateTotals(s, s1);
    BulkDeletes(s1, s2);
    Join(s, TOTALLING, s1, BULK_DELETE, s2);
    LateWrites(s2, s3);
    Join(s, TOTALLING + BULK_DELETE, s2, [WriteTotals(0)], s3);
    LateCommits(s3, end);
    Join(s, TOTALLING + BULK_DELETE + [WriteTotals(0)], s3, [Commit(0)], end);
  }
}
