/**
 * The account operations as the service runs them: each the statements of one
 * transaction, issued one after another. Other sessions may be in the middle of anything.
 * Where one of them holds an account row the operation has to lock, the operation waits:
 * it has kept what it has locked, other sessions go on, and it continues from there. What
 * any interleaving of the same statements keeps is proved in BalanceInvariant, DuePass and
 * CloseGuarantee.
 */
module AccountOperations {
  import opened Options
  import opened BalanceProtocol
  import opened BalanceInvariant

  datatype Outcome = Done | Refused | Waits

  predicate IsIdle(s: State, t: nat) { t < |s.sessions| && s.sessions[t].Idle? }

  /** No other session holds any of these accounts. */
  predicate Unlocked(s: State, t: nat, ids: set<nat>) { forall a :: a in ids ==> AccountFree(s, t, a) }

  /** The accounts with the stored balance of `ids` rebuilt from the ledger through a day. */
  function Recomputed(s: State, ids: set<nat>, day: int): (accounts: seq<Account>)
    ensures |accounts| == |s.accounts|
  {
    seq(|s.accounts|, a requires 0 <= a < |s.accounts| =>
      if a in ids then s.accounts[a].(current := s.accounts[a].opening + LedgerSum(s.ledger, a, day))
      else s.accounts[a])
  }

  /** The account and, where there is one, its linked half. */
  function Halves(s: State, a: nat): (halves: set<nat>)
    requires a < |s.accounts|
    ensures forall b :: b in halves ==> b < |s.accounts|
  {
    var half := LinkedHalf(s.accounts[a]);
    if half.Some? && half.value < |s.accounts| then {a, half.value} else {a}
  }

  function WithOpening(account: Account, opening: int): Account {
    account.(opening := opening, current := account.current + opening - account.opening)
  }

  predicate HasFutureRow(s: State, halves: set<nat>, day: int) {
    exists r :: 0 <= r < |s.ledger| && s.ledger[r].Some? && s.ledger[r].value.counted &&
                s.ledger[r].value.account in halves && s.ledger[r].value.date > day
  }

  predicate Closeable(s: State, a: nat, day: int)
    requires a < |s.accounts|
  {
    !s.accounts[a].closed &&
    (forall b :: b in Halves(s, a) ==> s.accounts[b].current == 0) &&
    (s.accounts[a].investment ==> forall b :: b in Halves(s, a) ==> s.accounts[b].positions == 0) &&
    !HasFutureRow(s, Halves(s, a), day)
  }

  function Marked(s: State, halves: set<nat>, closed: bool): seq<Account> {
    seq(|s.accounts|, a requires 0 <= a < |s.accounts| =>
      if a in halves then s.accounts[a].(closed := closed) else s.accounts[a])
  }

  /** The database once session `t` has committed these accounts and is idle. */
  function Committed(s: State, t: nat, accounts: seq<Account>): State
    requires t < |s.sessions|
  {
    s.(accounts := accounts, sessions := s.sessions[t := Idle])
  }

  /** The accounts the due pass would find today. */
  function OutOfStep(s: State): set<nat> { Differing(s, Candidates(s, s.today), s.today) }

  // ----- A session on its way -----

  /** A transaction of a day that has locked `ids` and changed nothing. */
  function Locked(s: State, day: int, ids: set<nat>, phase: Phase): (tx: Session)
    ensures tx.Tx?
  {
    Tx(day, map a | a in ids && a < |s.accounts| :: s.accounts[a], map[], seq(|s.accounts|, _ => 0), {}, phase)
  }

  /** Session `t` has got so far, and holds the committed version of `got`. */
  ghost predicate Underway(s: State, t: nat, day: int, got: set<nat>, phase: Phase) {
    t < |s.sessions| && s.sessions[t] == Locked(s, day, got, phase) && forall a :: a in got ==> a < |s.accounts|
  }

  /** From `s0` only session `t` has moved, and it waits holding `got`. */
  ghost predicate WaitsFrom(s0: State, s: State, t: nat, day: int, got: set<nat>, phase: Phase) {
    t < |s0.sessions| == |s.sessions| && s == Put(s0, t, s.sessions[t]) && Underway(s, t, day, got, phase)
  }

  /** From `s0`, where it was idle, session `t` has begun a transaction that waits for its first lock. */
  ghost predicate Started(s0: State, s: State, t: nat, day: int, phase: Phase) {
    && WaitsFrom(s0, s, t, day, {}, phase) && s.accounts == s0.accounts
    && (s0.sessions[t].Idle? ==> Put(s0, t, Idle) == s0)
    && forall a :: AccountFree(s, t, a) == AccountFree(s0, t, a)
  }

  lemma LockedNone(s: State, phase: Phase)
    ensures Locked(s, s.today, {}, phase) == NewTx(s, phase)
  {}

  lemma HeldStays(s: State, u: nat, t: nat, day: int, got: set<nat>, phase: Phase)
    requires Inv(s) && IsTx(s, u) && u != t && Underway(s, t, day, got, phase)
    ensures forall a :: a in got ==> AfterCommit(s, u).accounts[a] == s.accounts[a]
  {
    assert s.sessions[u].held.Keys !! s.sessions[t].held.Keys;
    assert forall a :: a in got ==> a in s.sessions[t].held;
  }

  /** All an operation under way depends on is its session and the accounts it holds. */
  lemma UnderwayIn(s: State, s': State, t: nat, day: int, got: set<nat>, phase: Phase)
    requires Underway(s, t, day, got, phase) && |s'.accounts| == |s.accounts|
    requires t < |s'.sessions| && s'.sessions[t] == s.sessions[t]
    requires forall a :: a in got ==> s'.accounts[a] == s.accounts[a]
    ensures Underway(s', t, day, got, phase)
  {
    assert Locked(s', day, got, phase).held == Locked(s, day, got, phase).held;
  }

  /** Another session's statement touches no table and no session but its own. */
  lemma StatementBeside(s: State, e: Event, t: nat)
    requires Shape(s) && Enabled(s, e) && !e.Tick? && !e.Commit? && e.t != t && t < |s.sessions|
    ensures Do(s, e).accounts == s.accounts
    ensures |Do(s, e).sessions| == |s.sessions| && Do(s, e).sessions[t] == s.sessions[t]
  {
    OfASession(s, e);
    assert Do(s, e) == Put(s, e.t, Statement(s, e));
  }

  /** Whatever other sessions do, an operation that waits can continue from where it is. */
  lemma UnderwayStays(s: State, e: Event, t: nat, day: int, got: set<nat>, phase: Phase)
    requires Inv(s) && Shape(s) && Enabled(s, e) && (e.Tick? || e.t != t) && Underway(s, t, day, got, phase)
    ensures Underway(Do(s, e), t, day, got, phase)
    ensures forall a :: a in got ==> Do(s, e).accounts[a] == s.accounts[a]
  {
    if e.Commit? {
      HeldStays(s, e.t, t, day, got, phase);
    } else if !e.Tick? {
      StatementBeside(s, e, t);
    }
    UnderwayIn(s, Do(s, e), t, day, got, phase);
  }

  predicate Ascending(order: seq<nat>) { forall i, j :: 0 <= i < j < |order| ==> order[i] < order[j] }

  /** The statements that lock accounts one after another. */
  function Locks(t: nat, order: seq<nat>): (events: seq<Event>)
    ensures |events| == |order| && forall i :: 0 <= i < |order| ==> events[i] == TakeLock(t, order[i])
  {
    seq(|order|, i requires 0 <= i < |order| => TakeLock(t, order[i]))
  }

  lemma OneMoreLock(t: nat, order: seq<nat>, a: nat)
    requires Ascending(order) && forall b :: b in order ==> b < a
    ensures Ascending(order + [a]) && Locks(t, order + [a]) == Locks(t, order) + [TakeLock(t, a)]
    ensures forall b :: b in order + [a] <==> b in order || b == a
  {
    assert forall i :: 0 <= i < |order| ==> order[i] in order;
  }

  /** What session `t` does to itself frees and locks nothing for it. */
  lemma SameFree(s: State, s': State, t: nat, a: nat)
    requires t < |s.sessions| == |s'.sessions| && |s'.accounts| == |s.accounts|
    requires forall u :: 0 <= u < |s.sessions| && u != t ==> s'.sessions[u] == s.sessions[u]
    ensures AccountFree(s', t, a) == AccountFree(s, t, a)
  {}

  method Least(ids: set<nat>) returns (a: nat)
    requires ids != {}
    ensures a in ids && forall b :: b in ids ==> a <= b
  {
    a :| a in ids;
    var rest := ids - {a};
    while rest != {}
      invariant rest <= ids && a in ids && forall c :: c in ids && c !in rest ==> a <= c
      decreases rest
    {
      var b :| b in rest;
      if b < a { a := b; }
      rest := rest - {b};
    }
  }

  /** The next of these to lock is held by another session. */
  ghost predicate Blocked(s: State, t: nat, ids: set<nat>) {
    exists a: nat :: a in ids && (forall b :: b in ids ==> a <= b) && !AccountFree(s, t, a)
  }

  /** What is left to lock comes after what is locked. */
  ghost predicate InOrder(got: set<nat>, ids: set<nat>) {
    got <= ids && forall a, b :: a in got && b in ids - got ==> a < b
  }

  lemma LockedOneMore(s0: State, t: nat, day: int, got: set<nat>, phase: Phase, a: nat)
    requires t < |s0.sessions| && phase.Locking? && a in phase.ids && a !in got && AccountFree(s0, t, a)
    requires forall b :: b in phase.ids && b !in got ==> a <= b
    ensures var s := Put(s0, t, Locked(s0, day, got, phase));
            Enabled(s, TakeLock(t, a)) && Lock(s, s.sessions[t], a) == Locked(s0, day, got + {a}, phase)
  {
    var s := Put(s0, t, Locked(s0, day, got, phase));
    assert Lock(s, s.sessions[t], a).held == Locked(s0, day, got + {a}, phase).held;
  }

  lemma RecomputeCommits(s0: State, s: State, t: nat, day: int, phase: Phase)
    requires t < |s0.sessions| && phase.Locking? && forall a :: a in phase.ids ==> a < |s0.accounts|
    requires phase.ids <= Locked(s0, day, phase.ids, phase).held.Keys
    requires var tx := Locked(s0, day, phase.ids, phase);
             var reading := tx.(phase := Writing(Totals(Put(s0, t, tx), tx, phase.ids), phase.pass));
             s == Put(s0, t, AfterWriteTotals(Put(s0, t, reading), reading))
    ensures Enabled(s, Commit(t))
    ensures AfterCommit(s, t) ==
            Committed(s0, t, Recomputed(s0, phase.ids, day)).(lastPass := if phase.pass then day else s0.lastPass)
  {
    assert Seen(s0.ledger, map[]) == s0.ledger;
    assert AfterCommit(s, t).accounts == Recomputed(s0, phase.ids, day);
  }

  /** A recomputation that has just begun finds the database as it was before. */
  lemma RecomputesFromStart(s0: State, s1: State, s: State, t: nat, day: int, phase: Phase, now: set<nat>, done: bool)
    requires Started(s0, s1, t, day, phase) && s0.sessions[t].Idle? && phase.Locking?
    requires done <==> Unlocked(s1, t, phase.ids)
    requires done ==> s == Committed(s1, t, Recomputed(s1, phase.ids, day)).(
                             lastPass := if phase.pass then day else s1.lastPass)
    requires !done ==> WaitsFrom(s1, s, t, day, now, phase) && Blocked(s1, t, phase.ids - now)
    ensures done <==> Unlocked(s0, t, phase.ids)
    ensures done ==> s == s0.(accounts := Recomputed(s0, phase.ids, day),
                              lastPass := if phase.pass then day else s0.lastPass)
    ensures !done ==> WaitsFrom(s0, s, t, day, now, phase) && Blocked(s0, t, phase.ids - now)
  {
    assert Recomputed(s1, phase.ids, day) == Recomputed(s0, phase.ids, day);
  }

  lemma OpeningLocks(s: State, t: nat, day: int, a: nat, opening: int)
    requires Shape(s) && Underway(s, t, day, {}, Ready) && AccountFree(s, t, a)
    ensures Enabled(s, SetOpening(t, a, opening))
    ensures Put(s, t, Statement(s, SetOpening(t, a, opening))) ==
            Put(s, t, Locked(s, day, {a}, OpeningRead(a, opening)))
  {
    assert TxShape(s, s.sessions[t]);
    assert Lock(s, s.sessions[t], a).held == Locked(s, day, {a}, Ready).held;
  }

  lemma OpeningWrites(s0: State, s: State, t: nat, day: int, a: nat, opening: int)
    requires t < |s0.sessions| && a < |s0.accounts| && Shape(s)
    requires s == Put(s0, t, Locked(s0, day, {a}, OpeningWrite(a, opening, s0.accounts[a].opening)))
    ensures Enabled(s, WriteOpening(t)) && TxShape(s, s.sessions[t])
    ensures Put(s, t, Statement(s, WriteOpening(t))) ==
            Put(s0, t, Tx(day, map[a := WithOpening(s0.accounts[a], opening)], map[],
                          seq(|s0.accounts|, _ => 0), {}, Ready))
  {
    assert TxShape(s, s.sessions[t]);
    assert Statement(s, WriteOpening(t)).held == map[a := WithOpening(s0.accounts[a], opening)];
  }

  lemma OpeningCommits(s0: State, s: State, t: nat, day: int, a: nat, opening: int)
    requires t < |s0.sessions| && a < |s0.accounts|
    requires s == Put(s0, t, Tx(day, map[a := WithOpening(s0.accounts[a], opening)], map[],
                                seq(|s0.accounts|, _ => 0), {}, Ready))
    ensures Enabled(s, Commit(t))
    ensures AfterCommit(s, t) == Committed(s0, t, s0.accounts[a := WithOpening(s0.accounts[a], opening)])
  {
    assert Seen(s0.ledger, map[]) == s0.ledger;
    assert AfterCommit(s, t).accounts == s0.accounts[a := WithOpening(s0.accounts[a], opening)];
  }

  lemma ClosingBegins(s: State, t: nat, day: int, a: nat)
    requires Shape(s) && Underway(s, t, day, {}, Ready) && AccountFree(s, t, a)
    ensures Enabled(s, BalanceProtocol.Close(t, a)) && TxShape(s, s.sessions[t])
    ensures Put(s, t, Statement(s, BalanceProtocol.Close(t, a))) ==
            Put(s, t, if s.accounts[a].closed then Idle else Locked(s, day, {a}, CloseLinking(a)))
  {
    var tx := s.sessions[t];
    assert TxShape(s, tx);
    assert NewTx(s, Ready) == Locked(s, s.today, {}, Ready);
    assert Lock(s, tx, a).held == Locked(s, day, {a}, Ready).held;
  }

  lemma ClosingLinks(s: State, t: nat, day: int, a: nat)
    requires Shape(s) && Underway(s, t, day, {a}, CloseLinking(a)) && Unlocked(s, t, Halves(s, a))
    ensures Enabled(s, CloseLinked(t)) && TxShape(s, s.sessions[t])
    ensures Put(s, t, Statement(s, CloseLinked(t))) ==
            Put(s, t, Locked(s, day, Halves(s, a), CloseChecking(a, Halves(s, a))))
  {
    assert TxShape(s, s.sessions[t]);
    assert Statement(s, CloseLinked(t)).held == Locked(s, day, Halves(s, a), Ready).held;
  }

  lemma ClosingChecks(s0: State, s: State, t: nat, day: int, a: nat)
    requires a < |s0.accounts| && t < |s0.sessions| && !s0.accounts[a].closed
    requires s == Put(s0, t, Locked(s0, day, Halves(s0, a), CloseChecking(a, Halves(s0, a))))
    ensures Halves(s0, a) <= s.sessions[t].held.Keys
    ensures MayClose(s, s.sessions[t], a, Halves(s0, a)) <==> Closeable(s0, a, day)
  {
    assert Seen(s.ledger, map[]) == s.ledger;
  }

  lemma ClosingCommits(s0: State, s: State, t: nat, day: int, halves: set<nat>)
    requires t < |s0.sessions| && forall a :: a in halves ==> a < |s0.accounts|
    requires s == Put(s0, t, Tx(day, Closing(Locked(s0, day, halves, Ready).held, halves), map[],
                                seq(|s0.accounts|, _ => 0), {}, Ready))
    ensures Enabled(s, Commit(t))
    ensures AfterCommit(s, t) == Committed(s0, t, Marked(s0, halves, true))
  {
    assert Seen(s0.ledger, map[]) == s0.ledger;
    assert AfterCommit(s, t).accounts == Marked(s0, halves, true);
  }

  /** A transaction that has marked `halves` open. */
  function Opener(s: State, day: int, halves: set<nat>): (tx: Session)
    ensures tx.Tx?
  {
    Tx(day, map a | a in halves && a < |s.accounts| :: s.accounts[a].(closed := false), map[],
       seq(|s.accounts|, _ => 0), {}, Ready)
  }

  lemma OpensOne(s0: State, s: State, t: nat, day: int, halves: set<nat>, a: nat)
    requires t < |s0.sessions| && AccountFree(s0, t, a) && s == Put(s0, t, Opener(s0, day, halves)) && Shape(s)
    ensures Enabled(s, BalanceProtocol.Reopen(t, a)) && TxShape(s, s.sessions[t])
    ensures Put(s, t, Statement(s, BalanceProtocol.Reopen(t, a))) == Put(s0, t, Opener(s0, day, halves + {a}))
  {
    assert TxShape(s, s.sessions[t]);
    assert Statement(s, BalanceProtocol.Reopen(t, a)).held == Opener(s0, day, halves + {a}).held;
  }

  lemma ReopeningCommits(s0: State, s: State, t: nat, day: int, halves: set<nat>)
    requires t < |s0.sessions| && s == Put(s0, t, Opener(s0, day, halves))
    ensures Enabled(s, Commit(t))
    ensures AfterCommit(s, t) == Committed(s0, t, Marked(s0, halves, false))
  {
    assert Seen(s0.ledger, map[]) == s0.ledger;
    assert AfterCommit(s, t).accounts == Marked(s0, halves, false);
  }

  /** What a session holds no other does. */
  lemma HoldsAlone(s: State, t: nat, day: int, a: nat)
    requires Inv(s) && Underway(s, t, day, {a}, CloseLinking(a))
    ensures AccountFree(s, t, a)
  {
    assert a in s.sessions[t].held;
    forall u: nat | u < |s.sessions| && u != t && s.sessions[u].Tx? ensures a !in s.sessions[u].held {
      assert s.sessions[u].held.Keys !! s.sessions[t].held.Keys;
    }
  }

  // ----- What the operations are for -----

  /** Recomputing settles the accounts named, and only those; nothing but a stored balance changes. */
  lemma RecomputedSettles(s: State, ids: set<nat>, a: nat)
    requires a < |s.accounts|
    ensures var s' := s.(accounts := Recomputed(s, ids, s.today));
            && Drift(s', a) == (if a in ids then 0 else Drift(s, a))
            && s'.accounts[a] == s.accounts[a].(current := s'.accounts[a].current)
  {}

  /** What the due pass finds: out of step, with a counted row dated from seven days ago to today. */
  lemma OutOfStepExactly(s: State, a: nat)
    ensures a in OutOfStep(s) <==>
            a < |s.accounts| &&
            s.accounts[a].current != s.accounts[a].opening + LedgerSum(s.ledger, a, s.today) &&
            exists r: nat :: r < |s.ledger| && s.ledger[r].Some? && s.ledger[r].value.counted &&
                             s.ledger[r].value.account == a &&
                             s.today - 7 <= s.ledger[r].value.date <= s.today
  {
    WindowInFigures(s, a, s.today);
  }

  /** An investment account and the account it is linked with are closed and opened together; any other is alone. */
  lemma HalvesExactly(s: State, a: nat, b: nat)
    requires a < |s.accounts|
    ensures b in Halves(s, a) <==>
            b == a || (s.accounts[a].investment && s.accounts[a].linked == Some(b) && b < |s.accounts|)
  {}

  /** When close accepts, in the words of its refusals: closed already, a balance, open holdings, a row dated ahead. */
  lemma CloseableExactly(s: State, a: nat, day: int)
    requires a < |s.accounts|
    ensures Closeable(s, a, day) <==>
            && !s.accounts[a].closed
            && forall b :: b in Halves(s, a) ==>
                             && s.accounts[b].current == 0
                             && (s.accounts[a].investment ==> s.accounts[b].positions == 0)
                             && !exists r :: 0 <= r < |s.ledger| && s.ledger[r].Some? && s.ledger[r].value.counted &&
                                             s.ledger[r].value.account == b && s.ledger[r].value.date > day
  {}

  /** Closing and reopening set the flag of the halves and change nothing else. */
  lemma MarkedExactly(s: State, halves: set<nat>, closed: bool, a: nat)
    requires a < |s.accounts|
    ensures |Marked(s, halves, closed)| == |s.accounts|
    ensures Marked(s, halves, closed)[a] ==
            s.accounts[a].(closed := if a in halves then closed else s.accounts[a].closed)
  {}

  /** An opening change sets the opening balance and leaves the account as far from its ledger as it was. */
  lemma OpeningKeepsDrift(s: State, a: nat, opening: int)
    requires a < |s.accounts|
    ensures var s' := s.(accounts := s.accounts[a := WithOpening(s.accounts[a], opening)]);
            && s'.accounts[a].opening == opening && Drift(s', a) == Drift(s, a)
            && s'.accounts[a] == s.accounts[a].(opening := opening, current := s'.accounts[a].current)
  {}

  /** The due pass rewrites no account it leaves: run alone it settles exactly those it can see. */
  lemma DuePassSettles(s: State, a: nat)
    requires a < |s.accounts|
    ensures var s' := s.(accounts := Recomputed(s, OutOfStep(s), s.today));
            Drift(s', a) == (if HasWindowRow(s, a, s.today) then 0 else Drift(s, a)) &&
            (s'.accounts[a] != s.accounts[a] <==> HasWindowRow(s, a, s.today) && Drift(s, a) != 0)
  {
    RecomputedSettles(s, OutOfStep(s), a);
  }

  // ----- The operations -----

  class Database {
    var s: State

    /** The statements issued so far. */
    ghost var log: seq<Event>

    constructor (start: State)
      requires Inv(start) && Shape(start)
      ensures s == start && log == []
    {
      s, log := start, [];
    }

    ghost predicate Valid()
      reads this
    {
      Inv(s) && Shape(s)
    }

    method Issue(e: Event)
      requires Valid() && Enabled(s, e)
      modifies this
      ensures Valid() && s == Do(old(s), e) && log == old(log) + [e]
    {
      Keeps(s, e);
      s, log := Do(s, e), log + [e];
    }

    method Start(t: nat)
      requires Valid() && IsIdle(s, t)
      modifies this
      ensures Valid() && Started(old(s), s, t, old(s.today), Ready) && log == old(log) + [Begin(t)]
    {
      ghost var s0 := s;
      Issue(Begin(t));
      LockedNone(s, Ready);
      assert Put(s0, t, Idle) == s0;
      forall a ensures AccountFree(s, t, a) == AccountFree(s0, t, a) { SameFree(s0, s, t, a); }
    }

    // Recomputing.

    /**
     * The locking half of a recomputation, from as far as it has got: each account once, in
     * order of id, so that no two sessions wait for each other, up to one that is not free.
     */
    method LockAll(t: nat, ghost day: int, ghost got: set<nat>)
      returns (all: bool, ghost now: set<nat>, ghost order: seq<nat>)
      requires Valid() && IsTx(s, t) && s.sessions[t].phase.Locking? && Underway(s, t, day, got, s.sessions[t].phase)
      requires InOrder(got, s.sessions[t].phase.ids)
      modifies this
      ensures Valid() && var phase := old(s.sessions[t].phase);
                         && got <= now && InOrder(now, phase.ids)
                         && s == Put(old(s), t, Locked(old(s), day, now, phase))
                         && (forall a :: a in now ==> a < |s.accounts|)
                         && (all <==> now == phase.ids) && (all <==> Unlocked(old(s), t, phase.ids - got))
                         && (!all ==> Blocked(old(s), t, phase.ids - now))
      ensures Ascending(order) && (forall a :: a in order <==> a in now - got) && log == old(log) + Locks(t, order)
    {
      ghost var s0, log0 := s, log;
      ghost var phase := s.sessions[t].phase;
      var todo := s.sessions[t].phase.ids - s.sessions[t].held.Keys;
      order, now := [], got;
      assert TxShape(s, s.sessions[t]);
      assert s.sessions[t].held.Keys == got;
      assert Put(s, t, Locked(s, day, now, phase)) == s;
      while todo != {}
        invariant Valid() && got <= now && InOrder(now, phase.ids) && todo == phase.ids - now
        invariant s == Put(s0, t, Locked(s0, day, now, phase)) && log == log0 + Locks(t, order)
        invariant Ascending(order) && forall a :: a in order <==> a in now - got
        invariant Unlocked(s0, t, now - got)
        decreases todo
      {
        var a := Least(todo);
        SameFree(s0, s, t, a);
        if !AccountFree(s, t, a) {
          assert a in phase.ids - got && todo == phase.ids - now;
          return false, now, order;
        }
        assert forall b :: b in phase.ids && b !in now ==> b in todo;
        LockNext(t, s0, day, now, phase, a);
        OneMoreLock(t, order, a);
        order := order + [a];
        now := now + {a};
        todo := todo - {a};
      }
      assert now == phase.ids;
      all := true;
    }

    method LockNext(t: nat, ghost s0: State, ghost day: int, ghost got: set<nat>, ghost phase: Phase, a: nat)
      requires Valid() && t < |s0.sessions| && phase.Locking? && s == Put(s0, t, Locked(s0, day, got, phase))
      requires a in phase.ids && a !in got && AccountFree(s0, t, a)
      requires forall b :: b in phase.ids && b !in got ==> a <= b
      modifies this
      ensures Valid() && s == Put(s0, t, Locked(s0, day, got + {a}, phase)) && log == old(log) + [TakeLock(t, a)]
    {
      LockedOneMore(s0, t, day, got, phase, a);
      Issue(TakeLock(t, a));
    }

    /** Everything is locked: total in one statement, write, commit. */
    method WriteLocked(t: nat, ghost s0: State, ghost day: int, ghost phase: Phase)
      requires Valid() && t < |s0.sessions| && phase.Locking? && s == Put(s0, t, Locked(s0, day, phase.ids, phase))
      requires forall a :: a in phase.ids ==> a < |s0.accounts|
      modifies this
      ensures Valid() && log == old(log) + [ReadTotals(t), WriteTotals(t), Commit(t)]
      ensures s == Committed(s0, t, Recomputed(s0, phase.ids, day)).(
                     lastPass := if phase.pass then day else s0.lastPass)
    {
      WriteTotal(t, s0, day, phase);
      RecomputeCommits(s0, s, t, day, phase);
      Issue(Commit(t));
    }

    method WriteTotal(t: nat, ghost s0: State, ghost day: int, ghost phase: Phase)
      requires Valid() && t < |s0.sessions| && phase.Locking? && s == Put(s0, t, Locked(s0, day, phase.ids, phase))
      requires forall a :: a in phase.ids ==> a < |s0.accounts|
      modifies this
      ensures Valid() && log == old(log) + [ReadTotals(t), WriteTotals(t)]
      ensures phase.ids <= Locked(s0, day, phase.ids, phase).held.Keys
      ensures var tx := Locked(s0, day, phase.ids, phase);
              var reading := tx.(phase := Writing(Totals(Put(s0, t, tx), tx, phase.ids), phase.pass));
              s == Put(s0, t, AfterWriteTotals(Put(s0, t, reading), reading))
    {
      Issue(ReadTotals(t));
      Issue(WriteTotals(t));
    }

    /**
     * A recomputation goes on from as far as it has got. It is done exactly when no other
     * session holds what is left to lock; else it keeps what it could lock, and waits.
     */
    method ContinueRecompute(t: nat, ghost day: int, ghost got: set<nat>)
      returns (done: bool, ghost now: set<nat>, ghost order: seq<nat>)
      requires Valid() && IsTx(s, t) && s.sessions[t].phase.Locking? && Underway(s, t, day, got, s.sessions[t].phase)
      requires InOrder(got, s.sessions[t].phase.ids)
      modifies this
      ensures Valid() && var phase := old(s.sessions[t].phase);
                         && (done <==> Unlocked(old(s), t, phase.ids - got))
                         && (done ==> s == Committed(old(s), t, Recomputed(old(s), phase.ids, day)).(
                                             lastPass := if phase.pass then day else old(s).lastPass))
                         && (!done ==> WaitsFrom(old(s), s, t, day, now, phase) &&
                                       Blocked(old(s), t, phase.ids - now))
                         && got <= now && InOrder(now, phase.ids)
      ensures Ascending(order) && forall a :: a in order <==> a in now - got
      ensures log == old(log) + Locks(t, order) + if done then [ReadTotals(t), WriteTotals(t), Commit(t)] else []
    {
      ghost var s0 := s;
      ghost var phase := s.sessions[t].phase;
      assert TxShape(s, s.sessions[t]);
      done, now, order := LockAll(t, day, got);
      if done { WriteLocked(t, s0, day, phase); }
    }

    /** Rebuild the balances of some accounts absolutely, from a ledger read under all their locks. */
    method Recalculate(t: nat, ids: set<nat>) returns (done: bool, ghost now: set<nat>, ghost order: seq<nat>)
      requires Valid() && IsIdle(s, t) && forall a :: a in ids ==> a < |s.accounts|
      modifies this
      ensures Valid() && (done <==> Unlocked(old(s), t, ids))
      ensures done ==> s == old(s).(accounts := Recomputed(old(s), ids, old(s.today)))
      ensures !done ==> WaitsFrom(old(s), s, t, old(s.today), now, Locking(ids, false)) &&
                        InOrder(now, ids) && Blocked(old(s), t, ids - now)
      ensures Ascending(order) && forall a :: a in order <==> a in now
      ensures log == old(log) + [Begin(t), Recompute(t, ids)] + Locks(t, order) +
                     if done then [ReadTotals(t), WriteTotals(t), Commit(t)] else []
    {
      Ask(t, ids);
      ghost var s1 := s;
      assert ids - {} == ids;
      done, now, order := ContinueRecompute(t, old(s.today), {});
      RecomputesFromStart(old(s), s1, s, t, old(s.today), Locking(ids, false), now, done);
    }

    method Ask(t: nat, ids: set<nat>)
      requires Valid() && IsIdle(s, t) && forall a :: a in ids ==> a < |s.accounts|
      modifies this
      ensures Valid() && Started(old(s), s, t, old(s.today), Locking(ids, false))
      ensures log == old(log) + [Begin(t), Recompute(t, ids)]
    {
      ghost var s0 := s;
      Start(t);
      Issue(Recompute(t, ids));
      forall a ensures AccountFree(s, t, a) == AccountFree(s0, t, a) { SameFree(s0, s, t, a); }
    }

    /** The due pass: the candidates that differ, found without a lock, are recomputed under one. */
    method ApplyDueTransactionBalances(t: nat) returns (done: bool, ghost now: set<nat>)
      requires Valid() && IsIdle(s, t)
      modifies this
      ensures Valid()
      ensures var differing := OutOfStep(old(s));
              && (done <==> Unlocked(old(s), t, differing))
              && InOrder(now, differing)
              && (!done ==> WaitsFrom(old(s), s, t, old(s.today), now, Locking(differing, true)) &&
                            Blocked(old(s), t, differing - now))
              && (done ==> s == old(s).(accounts := Recomputed(old(s), differing, old(s.today)),
                                        lastPass := old(s.today)))
    {
      ghost var differing := OutOfStep(s);
      LookForDue(t);
      ghost var s1, order := s, [];
      assert differing - {} == differing;
      done, now, order := ContinueRecompute(t, old(s.today), {});
      RecomputesFromStart(old(s), s1, s, t, old(s.today), Locking(differing, true), now, done);
    }

    /** The two unlocked reads of the pass. */
    method LookForDue(t: nat)
      requires Valid() && IsIdle(s, t)
      modifies this
      ensures Valid()
      ensures Started(old(s), s, t, old(s.today), Locking(OutOfStep(old(s)), true))
    {
      ghost var s0 := s;
      Issue(BeginPass(t));
      Issue(FindDue(t));
      assert Candidates(s, s0.today) == Candidates(s0, s0.today) by {
        assert forall a: nat :: HasWindowRow(s, a, s0.today) == HasWindowRow(s0, a, s0.today);
      }
      Issue(CompareDue(t));
      ghost var differing := Differing(s0, Candidates(s0, s0.today), s0.today);
      assert Differing(s, Candidates(s0, s0.today), s0.today) == differing;
      LockedNone(s, Locking(differing, true));
      assert s == Put(s0, t, s.sessions[t]) && Put(s0, t, Idle) == s0;
      forall a ensures AccountFree(s, t, a) == AccountFree(s0, t, a) { SameFree(s0, s, t, a); }
    }

    // The opening balance.

    /** Change the opening balance; the stored balance moves by the difference. */
    method ApplyOpeningBalanceChange(t: nat, a: nat, opening: int) returns (done: bool)
      requires Valid() && IsIdle(s, t) && a < |s.accounts|
      modifies this
      ensures Valid() && (done <==> AccountFree(old(s), t, a))
      ensures done ==> s == old(s).(accounts := old(s.accounts)[a := WithOpening(old(s.accounts[a]), opening)])
      ensures !done ==> WaitsFrom(old(s), s, t, old(s.today), {}, Ready)
    {
      Start(t);
      done := ContinueOpening(t, old(s.today), a, opening);
    }

    method ContinueOpening(t: nat, ghost day: int, a: nat, opening: int) returns (done: bool)
      requires Valid() && Underway(s, t, day, {}, Ready) && a < |s.accounts|
      modifies this
      ensures Valid() && (done <==> AccountFree(old(s), t, a))
      ensures s == if done then Committed(old(s), t, old(s.accounts)[a := WithOpening(old(s.accounts[a]), opening)])
                   else old(s)
    {
      if !AccountFree(s, t, a) { return false; }
      ghost var s0 := s;
      ReadOpeningLocked(t, day, a, opening);
      OpeningWrites(s0, s, t, day, a, opening);
      Issue(WriteOpening(t));
      OpeningCommits(s0, s, t, day, a, opening);
      Issue(Commit(t));
      done := true;
    }

    /** The account is locked before its old opening balance is read. */
    method ReadOpeningLocked(t: nat, ghost day: int, a: nat, opening: int)
      requires Valid() && Underway(s, t, day, {}, Ready) && AccountFree(s, t, a)
      modifies this
      ensures Valid()
      ensures s == Put(old(s), t, Locked(old(s), day, {a}, OpeningWrite(a, opening, old(s.accounts[a].opening))))
    {
      OpeningLocks(s, t, day, a, opening);
      Issue(SetOpening(t, a, opening));
      Issue(ReadOpening(t));
    }

    // Closing.

    /**
     * Closed when the account is open, both halves are at zero with nothing dated ahead, and no
     * half of an investment account has an open holding; otherwise refused, with nothing changed.
     */
    method Close(t: nat, a: nat) returns (outcome: Outcome)
      requires Valid() && IsIdle(s, t) && a < |s.accounts|
      modifies this
      ensures Valid()
      ensures outcome.Done? <==> Unlocked(old(s), t, Halves(old(s), a)) && Closeable(old(s), a, old(s.today))
      ensures outcome.Refused? <==>
              AccountFree(old(s), t, a) &&
              (old(s).accounts[a].closed ||
               (Unlocked(old(s), t, Halves(old(s), a)) && !Closeable(old(s), a, old(s.today))))
      ensures outcome.Done? ==> s == old(s).(accounts := Marked(old(s), Halves(old(s), a), true))
      ensures outcome.Refused? ==> s == old(s)
      ensures outcome.Waits? ==> WaitsFrom(old(s), s, t, old(s.today), {}, Ready) ||
                                 (WaitsFrom(old(s), s, t, old(s.today), {a}, CloseLinking(a)) && !s.accounts[a].closed)
    {
      Start(t);
      outcome := CloseFromStart(t, old(s), old(s.today), a);
    }

    /** Close goes on from its first lock. */
    method CloseFromStart(t: nat, ghost s0: State, ghost day: int, a: nat) returns (outcome: Outcome)
      requires Valid() && Started(s0, s, t, day, Ready) && a < |s.accounts|
      modifies this
      ensures Valid()
      ensures outcome.Done? <==> Unlocked(s0, t, Halves(s0, a)) && Closeable(s0, a, day)
      ensures outcome.Refused? <==>
              AccountFree(s0, t, a) &&
              (s0.accounts[a].closed || (Unlocked(s0, t, Halves(s0, a)) && !Closeable(s0, a, day)))
      ensures outcome.Done? ==> s == Committed(s0, t, Marked(s0, Halves(s0, a), true))
      ensures outcome.Refused? ==> s == Put(s0, t, Idle)
      ensures outcome.Waits? ==> WaitsFrom(s0, s, t, day, {}, Ready) ||
                                 (WaitsFrom(s0, s, t, day, {a}, CloseLinking(a)) && !s.accounts[a].closed)
    {
      if !AccountFree(s, t, a) { return Waits; }
      LockForClose(t, day, a);
      if s.sessions[t].Idle? { return Refused; }
      forall b ensures AccountFree(s, t, b) == AccountFree(s0, t, b) { SameFree(s0, s, t, b); }
      outcome := ContinueClose(t, day, a);
    }

    /** An account already closed is refused as soon as it is locked. */
    method LockForClose(t: nat, ghost day: int, a: nat)
      requires Valid() && Underway(s, t, day, {}, Ready) && AccountFree(s, t, a)
      modifies this
      ensures Valid() && |s.sessions| == old(|s.sessions|) && s == Put(old(s), t, s.sessions[t])
      ensures if old(s).accounts[a].closed then s.sessions[t].Idle? else Underway(s, t, day, {a}, CloseLinking(a))
    {
      ghost var s0 := s;
      ClosingBegins(s, t, day, a);
      Issue(BalanceProtocol.Close(t, a));
      assert Locked(s, day, {a}, CloseLinking(a)) == Locked(s0, day, {a}, CloseLinking(a));
    }

    /** Close holds the account and goes on with its linked half. */
    method ContinueClose(t: nat, ghost day: int, a: nat) returns (outcome: Outcome)
      requires Valid() && Underway(s, t, day, {a}, CloseLinking(a)) && !s.accounts[a].closed
      modifies this
      ensures Valid() && (outcome.Waits? <==> !Unlocked(old(s), t, Halves(old(s), a)))
      ensures outcome.Done? <==> Unlocked(old(s), t, Halves(old(s), a)) && Closeable(old(s), a, day)
      ensures match outcome
              case Done => s == Committed(old(s), t, Marked(old(s), Halves(old(s), a), true))
              case Refused => s == Put(old(s), t, Idle)
              case Waits => s == old(s)
    {
      ghost var s0 := s;
      var half := LinkedHalf(s.accounts[a]);
      HoldsAlone(s, t, day, a);
      if half.Some? && half.value < |s.accounts| && !AccountFree(s, t, half.value) { return Waits; }
      var accepted := CheckHalves(t, day, a);
      if !accepted { return Refused; }
      Mark(t, s0, day, Halves(s0, a));
      outcome := Done;
    }

    /** Both halves locked and then checked. */
    method CheckHalves(t: nat, ghost day: int, a: nat) returns (accepted: bool)
      requires Valid() && Underway(s, t, day, {a}, CloseLinking(a)) && !s.accounts[a].closed
      requires Unlocked(s, t, Halves(s, a))
      modifies this
      ensures Valid() && (accepted <==> Closeable(old(s), a, day))
      ensures accepted ==> s == Put(old(s), t, Locked(old(s), day, Halves(old(s), a), CloseMarking(Halves(old(s), a))))
      ensures !accepted ==> s == Put(old(s), t, Idle)
    {
      ghost var s0 := s;
      ClosingLinks(s, t, day, a);
      Issue(CloseLinked(t));
      ClosingChecks(s0, s, t, day, a);
      Issue(CheckClose(t));
      accepted := s.sessions[t].Tx?;
    }

    /** The check accepted both halves: mark them and commit. */
    method Mark(t: nat, ghost s0: State, ghost day: int, ghost halves: set<nat>)
      requires Valid() && t < |s0.sessions| && forall a :: a in halves ==> a < |s0.accounts|
      requires s == Put(s0, t, Locked(s0, day, halves, CloseMarking(halves)))
      modifies this
      ensures Valid() && s == Committed(s0, t, Marked(s0, halves, true))
    {
      Issue(MarkClosed(t));
      ClosingCommits(s0, s, t, day, halves);
      Issue(Commit(t));
    }

    // Reopening.

    /** Opened again when it is closed, together with its linked half; otherwise refused, with nothing changed. */
    method Reopen(t: nat, a: nat) returns (outcome: Outcome)
      requires Valid() && IsIdle(s, t) && a < |s.accounts|
      modifies this
      ensures Valid() && (outcome.Refused? <==> !old(s).accounts[a].closed)
      ensures outcome.Done? <==> old(s).accounts[a].closed && Unlocked(old(s), t, Halves(old(s), a))
      ensures outcome.Done? ==> s == old(s).(accounts := Marked(old(s), Halves(old(s), a), false))
      ensures outcome.Refused? ==> s == old(s)
      ensures outcome.Waits? ==> s == Put(old(s), t, Opener(old(s), old(s.today), {})) ||
                                 s == Put(old(s), t, Opener(old(s), old(s.today), {a}))
    {
      ghost var s0 := s;
      if !s.accounts[a].closed { return Refused; }
      Issue(Begin(t));
      assert NewTx(s0, Ready) == Opener(s0, s0.today, {});
      assert s0.sessions[t := Idle] == s0.sessions;
      SameFree(s0, s, t, a);
      if !AccountFree(s, t, a) { return Waits; }
      OpensOne(s0, s, t, s0.today, {}, a);
      Issue(BalanceProtocol.Reopen(t, a));
      assert {} + {a} == {a};
      outcome := ContinueReopen(t, s0, s0.today, a);
    }

    /** Reopen has marked the account and goes on with its linked half. */
    method ContinueReopen(t: nat, ghost s0: State, ghost day: int, a: nat) returns (outcome: Outcome)
      requires Valid() && t < |s0.sessions| && a < |s0.accounts| && AccountFree(s0, t, a)
      requires s == Put(s0, t, Opener(s0, day, {a}))
      modifies this
      ensures Valid() && !outcome.Refused? && (outcome.Done? <==> Unlocked(s0, t, Halves(s0, a)))
      ensures s == if outcome.Done? then Committed(s0, t, Marked(s0, Halves(s0, a), false)) else old(s)
    {
      var half := LinkedHalf(s.accounts[a]);
      if half.Some? && half.value < |s.accounts| {
        SameFree(s0, s, t, half.value);
        if !AccountFree(s, t, half.value) { return Waits; }
        OpenHalf(t, s0, day, {a}, half.value);
        assert {a} + {half.value} == Halves(s0, a);
      }
      ReopeningCommits(s0, s, t, day, Halves(s0, a));
      Issue(Commit(t));
      outcome := Done;
    }

    method OpenHalf(t: nat, ghost s0: State, ghost day: int, ghost halves: set<nat>, a: nat)
      requires Valid() && t < |s0.sessions| && AccountFree(s0, t, a) && s == Put(s0, t, Opener(s0, day, halves))
      modifies this
      ensures Valid() && s == Put(s0, t, Opener(s0, day, halves + {a}))
    {
      OpensOne(s0, s, t, day, halves, a);
      Issue(BalanceProtocol.Reopen(t, a));
    }
  }
}
