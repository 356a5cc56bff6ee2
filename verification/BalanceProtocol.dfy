/**
 * The account balance protocol at READ COMMITTED.
 *
 * `accounts.current_balance` caches the opening balance plus the ledger. Several
 * sessions maintain it at once: postings that change ledger rows and move the
 * balance by a delta, absolute recomputations, opening-balance changes, the
 * hourly due pass, and closing or reopening an account. One event below is one
 * SQL statement. A statement sees the committed tables and its own transaction's
 * writes; a row written or locked stays locked until the transaction ends. A
 * transaction takes its date when it begins, and midnight may pass while it runs.
 *
 * Money is in ten-thousandths and a date is a day number. A transaction id is a
 * slot of the ledger: `None` is a row that does not exist.
 */
module BalanceProtocol {
  import opened Options

  /** `positions` counts the holdings with a quantity, which an investment account may have. */
  datatype Account = Account(
    opening: int, current: int, closed: bool, linked: Option<nat>, investment: bool, positions: nat)

  /** Only an investment account has another half; of any other the link is not followed. */
  function LinkedHalf(account: Account): Option<nat> { if account.investment then account.linked else None }

  /** `counted` is the ledger predicate: not VOID and not a split child. */
  datatype Row = Row(account: nat, amount: int, date: int, counted: bool)

  type Ledger = seq<Option<Row>>

  const CATCH_UP_DAYS := 7

  datatype Phase =
    | Ready
      // Absolute recomputation of `ids`: lock all of them, read, write.
    | Locking(ids: set<nat>, pass: bool)
    | Writing(totals: map<nat, int>, pass: bool)
      // Opening-balance change: lock, read the old opening balance, write.
    | OpeningRead(account: nat, newOpening: int)
    | OpeningWrite(account: nat, newOpening: int, oldOpening: int)
      // Due pass: find candidates, compare them unlocked, then recompute.
    | FindingDue
    | ComparingDue(found: set<nat>)
    | PassDone
      // Close: lock the account, lock its linked half, check both, mark both.
    | CloseLinking(account: nat)
    | CloseChecking(account: nat, halves: set<nat>)
    | CloseMarking(halves: set<nat>)

  /**
   * A database session. `day` is its date, `held` are the locked accounts with the
   * transaction's own version of them, `rows` the locked ledger rows likewise. `owed[a]` is what the
   * transaction's row changes still have to move the balance of `a` by, and `rebuilt`
   * the accounts it has recomputed absolutely.
   */
  datatype Session =
    | Idle
    | Tx(day: int, held: map<nat, Account>, rows: map<nat, Option<Row>>,
         owed: seq<int>, rebuilt: set<nat>, phase: Phase)

  /** `lastPass` is the day of the last completed due pass. */
  datatype State = State(
    today: int, lastPass: int,
    accounts: seq<Account>, ledger: Ledger, sessions: seq<Session>)

  datatype Event =
    | Begin(t: nat)
    | WriteRow(t: nat, slot: nat, row: Option<Row>)
    | ApplyDelta(t: nat, a: nat, amount: int, openOnly: bool)
    | Recompute(t: nat, accounts: set<nat>)
    | TakeLock(t: nat, a: nat)
    | ReadTotals(t: nat)
    | WriteTotals(t: nat)
    | SetOpening(t: nat, a: nat, opening: int)
    | ReadOpening(t: nat)
    | WriteOpening(t: nat)
    | BeginPass(t: nat)
    | FindDue(t: nat)
    | CompareDue(t: nat)
    | Close(t: nat, a: nat)
    | CloseLinked(t: nat)
    | CheckClose(t: nat)
    | MarkClosed(t: nat)
    | Reopen(t: nat, a: nat)
    | Commit(t: nat)
    | Abort(t: nat)
    | Tick

  // ----- Ledger sums -----

  /** What one row moves account `a` by, through `day`. */
  function Moves(row: Option<Row>, a: nat, day: int): int {
    if row.Some? && row.value.counted && row.value.account == a && row.value.date <= day
    then row.value.amount else 0
  }

  function SumTo(ledger: Ledger, a: nat, day: int, n: nat): int
    requires n <= |ledger|
  {
    if n == 0 then 0 else SumTo(ledger, a, day, n - 1) + Moves(ledger[n - 1], a, day)
  }

  /** The simple sum the stored balance stands for, without the opening balance. */
  function LedgerSum(ledger: Ledger, a: nat, day: int): int {
    SumTo(ledger, a, day, |ledger|)
  }

  /** The ledger as a transaction sees it: committed rows under its own changes. */
  function Seen(ledger: Ledger, rows: map<nat, Option<Row>>): (seen: Ledger)
    ensures |seen| == |ledger|
    ensures forall r :: 0 <= r < |seen| ==> seen[r] == if r in rows then rows[r] else ledger[r]
  {
    seq(|ledger|, r requires 0 <= r < |ledger| => if r in rows then rows[r] else ledger[r])
  }

  predicate InWindow(row: Option<Row>, a: nat, day: int) {
    row.Some? && row.value.counted && row.value.account == a &&
    day - CATCH_UP_DAYS <= row.value.date <= day
  }

  predicate HasWindowRow(s: State, a: nat, day: int) {
    exists r: nat | r < |s.ledger| :: InWindow(s.ledger[r], a, day)
  }

  /** The due pass's candidates: accounts with a counted row in the catch-up window. */
  function Candidates(s: State, day: int): set<nat> {
    set a: nat | a < |s.accounts| && HasWindowRow(s, a, day)
  }

  /** How far the stored balance of `a` is behind opening balance plus ledger through a day. */
  function DriftAt(s: State, a: nat, day: int): int
    requires a < |s.accounts|
  {
    s.accounts[a].opening + LedgerSum(s.ledger, a, day) - s.accounts[a].current
  }

  function Drift(s: State, a: nat): int
    requires a < |s.accounts|
  {
    DriftAt(s, a, s.today)
  }

  /** The candidates whose stored balance differs, read without a lock. */
  function Differing(s: State, found: set<nat>, day: int): set<nat> {
    set a: nat | a in found && a < |s.accounts| && DriftAt(s, a, day) != 0
  }

  // ----- Locks -----

  predicate IsTx(s: State, t: nat) { t < |s.sessions| && s.sessions[t].Tx? }

  predicate InPhase(s: State, t: nat) { IsTx(s, t) && s.sessions[t].phase.Ready? }

  predicate AccountFree(s: State, t: nat, a: nat) {
    a < |s.accounts| &&
    forall u: nat :: u < |s.sessions| && u != t && s.sessions[u].Tx? ==> a !in s.sessions[u].held
  }

  predicate RowFree(s: State, t: nat, r: nat) {
    r < |s.ledger| &&
    forall u: nat :: u < |s.sessions| && u != t && s.sessions[u].Tx? ==> r !in s.sessions[u].rows
  }

  /** The version of `a` a statement of `tx` reads once it holds the row lock. */
  function Mine(s: State, tx: Session, a: nat): Account
    requires tx.Tx? && a < |s.accounts|
  {
    if a in tx.held then tx.held[a] else s.accounts[a]
  }

  function Put(s: State, t: nat, tx: Session): State
    requires t < |s.sessions|
  {
    s.(sessions := s.sessions[t := tx])
  }

  function Lock(s: State, tx: Session, a: nat): Session
    requires tx.Tx? && a < |s.accounts|
  {
    tx.(held := tx.held[a := Mine(s, tx, a)])
  }

  function NewTx(s: State, phase: Phase): Session {
    Tx(s.today, map[], map[], seq(|s.accounts|, _ => 0), {}, phase)
  }

  // ----- Statements of a transaction, as functions of its session -----

  /** The ledger row is locked and replaced; the balance change it implies is owed. */
  function AfterWriteRow(s: State, tx: Session, r: nat, row: Option<Row>): Session
    requires tx.Tx? && r < |s.ledger| && |tx.owed| == |s.accounts|
  {
    var was := if r in tx.rows then tx.rows[r] else s.ledger[r];
    tx.(rows := tx.rows[r := row],
        owed := seq(|tx.owed|, b requires 0 <= b < |tx.owed| =>
        tx.owed[b] + Moves(row, b, tx.day) - Moves(was, b, tx.day)))
  }

  /** `current_balance = current_balance + $1`, evaluated under the row lock. */
  function AfterDelta(s: State, tx: Session, a: nat, amount: int): Session
    requires tx.Tx? && a < |s.accounts| && |tx.owed| == |s.accounts|
  {
    var mine := Mine(s, tx, a);
    tx.(held := tx.held[a := mine.(current := mine.current + amount)],
        owed := tx.owed[a := tx.owed[a] - amount])
  }

  /** One statement, one snapshot: the total of every locked account. */
  function Totals(s: State, tx: Session, ids: set<nat>): map<nat, int>
    requires tx.Tx? && ids <= tx.held.Keys
  {
    map a | a in ids :: tx.held[a].opening + LedgerSum(Seen(s.ledger, tx.rows), a, tx.day)
  }

  function AfterWriteTotals(s: State, tx: Session): Session
    requires tx.Tx? && tx.phase.Writing?
  {
    var totals := tx.phase.totals;
    tx.(held := map a | a in tx.held :: if a in totals then tx.held[a].(current := totals[a]) else tx.held[a],
        owed := seq(|tx.owed|, b requires 0 <= b < |tx.owed| => if b in totals then 0 else tx.owed[b]),
        rebuilt := tx.rebuilt + (totals.Keys * tx.held.Keys),
        phase := if tx.phase.pass then PassDone else Ready)
  }

  function AfterWriteOpening(tx: Session): Session
    requires tx.Tx? && tx.phase.OpeningWrite? && tx.phase.account in tx.held
  {
    var a, delta := tx.phase.account, tx.phase.newOpening - tx.phase.oldOpening;
    tx.(held := tx.held[a := tx.held[a].(opening := tx.phase.newOpening, current := tx.held[a].current + delta)],
        phase := Ready)
  }

  function Closing(held: map<nat, Account>, halves: set<nat>): map<nat, Account> {
    map a | a in held :: if a in halves then held[a].(closed := true) else held[a]
  }

  /**
   * Close refuses a non-zero balance on either half, any row dated after today, and an
   * investment account of which either half still has an open holding.
   */
  predicate MayClose(s: State, tx: Session, account: nat, halves: set<nat>)
    requires tx.Tx? && halves <= tx.held.Keys && account in halves
  {
    (forall a :: a in halves ==> tx.held[a].current == 0) &&
    (tx.held[account].investment ==> forall a :: a in halves ==> tx.held[a].positions == 0) &&
    forall r :: 0 <= r < |s.ledger| ==>
                  var row := Seen(s.ledger, tx.rows)[r];
                  !(row.Some? && row.value.counted && row.value.account in halves && row.value.date > tx.day)
  }

  /** No session in flight has a date other than today's. */
  predicate OneDay(s: State) {
    forall t :: 0 <= t < |s.sessions| && s.sessions[t].Tx? ==> s.sessions[t].day == s.today
  }

  /** COMMIT: the transaction's versions become the tables, and its locks go. */
  function AfterCommit(s: State, t: nat): State
    requires IsTx(s, t)
  {
    var tx := s.sessions[t];
    s.(accounts := seq(|s.accounts|, a requires 0 <= a < |s.accounts| =>
         if a in tx.held then tx.held[a] else s.accounts[a]),
       ledger := Seen(s.ledger, tx.rows),
       sessions := s.sessions[t := Idle],
       lastPass := if tx.phase.PassDone? then tx.day else s.lastPass)
  }

  // ----- The step machine -----

  predicate TxShape(s: State, tx: Session) {
    tx.Tx? ==>
      && (forall a :: a in tx.held ==> a < |s.accounts|)
      && (forall r :: r in tx.rows ==> r < |s.ledger|)
      && |tx.owed| == |s.accounts|
      && tx.rebuilt <= tx.held.Keys
      && tx.day <= s.today
      && match tx.phase {
           case FindingDue => tx.rebuilt == {} && tx.rows == map[]
           case ComparingDue(_) => tx.rebuilt == {} && tx.rows == map[]
           case Locking(ids, pass) => (pass ==> tx.rebuilt == {} && tx.rows == map[]) &&
             forall a :: a in ids ==> a < |s.accounts|
           case Writing(totals, pass) => (pass ==> tx.rebuilt == {} && tx.rows == map[]) && totals.Keys <= tx.held.Keys
           case OpeningRead(a, _) => a in tx.held
           case OpeningWrite(a, _, _) => a in tx.held
           case CloseLinking(a) => a in tx.held && tx.rows == map[] && tx.rebuilt == {}
           case PassDone => tx.rows == map[]
           case CloseChecking(a, halves) => a in halves && halves <= tx.held.Keys &&
             tx.rows == map[] && tx.rebuilt == {}
           case CloseMarking(halves) => halves <= tx.held.Keys && tx.rows == map[] && tx.rebuilt == {}
           case _ => true
         }
  }

  ghost predicate Shape(s: State) {
    forall t :: 0 <= t < |s.sessions| ==> TxShape(s, s.sessions[t])
  }

  predicate Enabled(s: State, e: Event) {
    match e
    case Begin(t) => t < |s.sessions| && s.sessions[t].Idle?
    case WriteRow(t, r, row) =>
      InPhase(s, t) && RowFree(s, t, r) && (row.Some? ==> row.value.account < |s.accounts|)
    case ApplyDelta(t, a, _, _) => InPhase(s, t) && AccountFree(s, t, a)
    case Recompute(t, ids) => InPhase(s, t) && forall a :: a in ids ==> a < |s.accounts|
    case TakeLock(t, a) =>
      IsTx(s, t) && AccountFree(s, t, a) &&
      var tx := s.sessions[t];
      tx.phase.Locking? && a in tx.phase.ids && a !in tx.held &&
      forall b :: b in tx.phase.ids && b !in tx.held ==> a <= b
    case ReadTotals(t) =>
      IsTx(s, t) && s.sessions[t].phase.Locking? && s.sessions[t].phase.ids <= s.sessions[t].held.Keys
    case WriteTotals(t) => IsTx(s, t) && s.sessions[t].phase.Writing?
    case SetOpening(t, a, _) => InPhase(s, t) && AccountFree(s, t, a)
    case ReadOpening(t) => IsTx(s, t) && s.sessions[t].phase.OpeningRead?
    case WriteOpening(t) => IsTx(s, t) && s.sessions[t].phase.OpeningWrite?
    case BeginPass(t) => t < |s.sessions| && s.sessions[t].Idle?
    case FindDue(t) => IsTx(s, t) && s.sessions[t].phase.FindingDue?
    case CompareDue(t) => IsTx(s, t) && s.sessions[t].phase.ComparingDue?
    case Close(t, a) =>
      // close() opens its own transaction, and may wait past midnight for the lock.
      InPhase(s, t) && AccountFree(s, t, a) && s.sessions[t] == NewTx(s, Ready).(day := s.sessions[t].day)
    case CloseLinked(t) =>
      IsTx(s, t) && s.sessions[t].phase.CloseLinking? &&
      var tx := s.sessions[t];
      tx.phase.account < |s.accounts| &&
      var half := LinkedHalf(Mine(s, tx, tx.phase.account));
      half.Some? && half.value < |s.accounts| ==> AccountFree(s, t, half.value)
    case CheckClose(t) => IsTx(s, t) && s.sessions[t].phase.CloseChecking?
    case MarkClosed(t) => IsTx(s, t) && s.sessions[t].phase.CloseMarking?
    case Reopen(t, a) => InPhase(s, t) && AccountFree(s, t, a)
    case Commit(t) =>
      IsTx(s, t) && (s.sessions[t].phase.Ready? || s.sessions[t].phase.PassDone?) &&
      forall a :: 0 <= a < |s.sessions[t].owed| ==> s.sessions[t].owed[a] == 0
    case Abort(t) => IsTx(s, t)
    case Tick => true
  }

  /**
   * What one statement makes of its own session. A refusal raises, which rolls the
   * whole transaction back (`Idle`).
   */
  function Statement(s: State, e: Event): Session
    requires Enabled(s, e) && !e.Commit? && !e.Tick? && TxShape(s, s.sessions[e.t])
  {
    var tx := s.sessions[e.t];
    match e
    case Begin(_) => NewTx(s, Ready)
    case WriteRow(_, r, row) => AfterWriteRow(s, tx, r, row)
    case ApplyDelta(_, a, amount, openOnly) =>
      if openOnly && Mine(s, tx, a).closed then Idle else AfterDelta(s, tx, a, amount)
    case Recompute(_, ids) => tx.(phase := Locking(ids, false))
    case TakeLock(_, a) => Lock(s, tx, a)
    case ReadTotals(_) => tx.(phase := Writing(Totals(s, tx, tx.phase.ids), tx.phase.pass))
    case WriteTotals(_) => AfterWriteTotals(s, tx)
    case SetOpening(_, a, v) => Lock(s, tx, a).(phase := OpeningRead(a, v))
    case ReadOpening(_) =>
      tx.(phase := OpeningWrite(tx.phase.account, tx.phase.newOpening, tx.held[tx.phase.account].opening))
    case WriteOpening(_) => AfterWriteOpening(tx)
    case BeginPass(_) => NewTx(s, FindingDue)
    case FindDue(_) => tx.(phase := ComparingDue(Candidates(s, tx.day)))
    case CompareDue(_) => tx.(phase := Locking(Differing(s, tx.phase.found, tx.day), true))
    case Close(_, a) =>
      if Mine(s, tx, a).closed then Idle else Lock(s, tx, a).(phase := CloseLinking(a))
    case CloseLinked(_) =>
      var a := tx.phase.account;
      var half := LinkedHalf(Mine(s, tx, a));
      if half.None? || half.value >= |s.accounts| then tx.(phase := CloseChecking(a, {a}))
      else Lock(s, tx, half.value).(phase := CloseChecking(a, {a, half.value}))
    case CheckClose(_) =>
      if MayClose(s, tx, tx.phase.account, tx.phase.halves) then tx.(phase := CloseMarking(tx.phase.halves)) else Idle
    case MarkClosed(_) => tx.(held := Closing(tx.held, tx.phase.halves), phase := Ready)
    case Reopen(_, a) => tx.(held := tx.held[a := Mine(s, tx, a).(closed := false)])
    case Abort(_) => Idle
  }

  lemma OfASession(s: State, e: Event)
    requires Enabled(s, e) && Shape(s) && !e.Tick?
    ensures e.t < |s.sessions| && TxShape(s, s.sessions[e.t])
  {}

  function AfterStatement(s: State, e: Event): State
    requires Enabled(s, e) && Shape(s) && !e.Commit? && !e.Tick?
  {
    OfASession(s, e);
    Put(s, e.t, Statement(s, e))
  }

  function Do(s: State, e: Event): State
    requires Enabled(s, e) && Shape(s)
  {
    match e
    case Commit(t) => AfterCommit(s, t)
    case Tick => s.(today := s.today + 1)
    case _ => AfterStatement(s, e)
  }
}
