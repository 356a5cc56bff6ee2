/**
 * The migration runner: a ledger of applied steps that survives crashes, failures
 * and any number of processes starting at once.
 *
 * A runner takes the session lock, reads the applied set, and applies each pending
 * file in order in its own transaction together with its ledger row. A crash or a
 * failure rolls the open transaction back and releases the lock.
 */
module Migrations {

  /** A migration, by file name. */
  type File = nat

  /**
   * A runner process. `applied` is the ledger as it read it, `rest` starts with the file
   * it is at. For the proof, `base` is the committed history when it read the ledger and
   * `done` what it has committed since.
   */
  datatype Runner =
    | Stopped
    | Waiting(files: seq<File>)
    | Locked(files: seq<File>)
    | Looping(files: seq<File>, applied: set<File>, base: seq<File>, done: seq<File>, rest: seq<File>, step: Step)

  /** Where the loop is: between files, or inside a file's transaction. */
  datatype Step = Between | Begun | Applied | Recorded

  /** `effects` is every committed file body in order; `ledger` the committed rows. */
  datatype State = State(effects: seq<File>, ledger: set<File>, runners: seq<Runner>)

  datatype Event =
    | Start(k: nat, files: seq<File>)
    | Acquire(k: nat)
    | ReadLedger(k: nat)
    | Skip(k: nat)
    | Begin(k: nat)
    | ApplySql(k: nat)
    | InsertRow(k: nat)
    | Commit(k: nat)
    | Finish(k: nat)
    | Stop(k: nat)

  ghost predicate Distinct(files: seq<File>) {
    forall i, j :: 0 <= i < j < |files| ==> files[i] != files[j]
  }

  function Elements(files: seq<File>): set<File> { set f | f in files }

  /** The files still to run, in order. */
  function Pending(files: seq<File>, applied: set<File>): seq<File> {
    if files == [] then []
    else (if files[0] in applied then [] else [files[0]]) + Pending(files[1..], applied)
  }

  predicate Holds(r: Runner) { r.Locked? || r.Looping? }

  predicate At(s: State, k: nat, step: Step) {
    k < |s.runners| && s.runners[k].Looping? && s.runners[k].step == step && s.runners[k].rest != []
  }

  ghost predicate Enabled(s: State, e: Event) {
    e.k < |s.runners| &&
    var r := s.runners[e.k];
    match e
    case Start(_, files) => r.Stopped? && Distinct(files)
    case Acquire(_) => r.Waiting? && forall j :: 0 <= j < |s.runners| ==> !Holds(s.runners[j])
    case ReadLedger(_) => r.Locked?
    case Skip(k) => At(s, k, Between) && r.rest[0] in r.applied
    case Begin(k) => At(s, k, Between) && r.rest[0] !in r.applied
    case ApplySql(k) => At(s, k, Begun)
    case InsertRow(k) => At(s, k, Applied) && r.rest[0] !in s.ledger  // the primary key
    case Commit(k) => At(s, k, Recorded)
    case Finish(_) => r.Looping? && r.rest == []
    case Stop(_) => !r.Stopped?  // a failure, a crash or a kill: rollback and unlock
  }

  ghost function Do(s: State, e: Event): State
    requires Enabled(s, e)
  {
    var r := s.runners[e.k];
    match e
    case Start(k, files) => s.(runners := s.runners[k := Waiting(files)])
    case Acquire(k) => s.(runners := s.runners[k := Locked(r.files)])
    case ReadLedger(k) => s.(runners := s.runners[k := Looping(r.files, s.ledger, s.effects, [], r.files, Between)])
    case Skip(k) => s.(runners := s.runners[k := r.(rest := r.rest[1..])])
    case Begin(k) => s.(runners := s.runners[k := r.(step := Begun)])
    case ApplySql(k) => s.(runners := s.runners[k := r.(step := Applied)])
    case InsertRow(k) => s.(runners := s.runners[k := r.(step := Recorded)])
    case Commit(k) =>
      // The effect and its ledger row become visible together.
      State(s.effects + [r.rest[0]], s.ledger + {r.rest[0]},
            s.runners[k := r.(done := r.done + [r.rest[0]], rest := r.rest[1..], step := Between)])
    case Finish(k) => s.(runners := s.runners[k := Stopped])
    case Stop(k) => s.(runners := s.runners[k := Stopped])
  }

  // ----- The invariant -----

  /** What the lock holder knows: nobody else has committed since it read. */
  ghost predicate LoopOk(s: State, r: Runner)
    requires r.Looping?
  {
    && Distinct(r.rest)
    && r.applied == Elements(r.base)
    && s.effects == r.base + r.done
    && Pending(r.files, r.applied) == r.done + Pending(r.rest, r.applied)
    && (forall f :: f in r.rest ==> f !in r.done)
    && (r.step != Between ==> r.rest != [] && r.rest[0] !in r.applied)
  }

  ghost predicate RunnerOk(s: State, r: Runner) {
    (r.Waiting? || r.Locked? ==> Distinct(r.files)) && (r.Looping? ==> LoopOk(s, r))
  }

  ghost predicate Inv(s: State) {
    && Distinct(s.effects) && s.ledger == Elements(s.effects)
    && (forall i, j :: 0 <= i < j < |s.runners| ==> !(Holds(s.runners[i]) && Holds(s.runners[j])))
    && forall k :: 0 <= k < |s.runners| ==> RunnerOk(s, s.runners[k])
  }

  lemma OwnStep(s: State, e: Event)
    requires Inv(s) && Enabled(s, e) && !e.Commit?
    ensures RunnerOk(s, Do(s, e).runners[e.k])
  {
    assert RunnerOk(s, s.runners[e.k]);
  }

  lemma CommitStep(s: State, k: nat)
    requires Inv(s) && Enabled(s, Commit(k))
    ensures var s' := Do(s, Commit(k));
            Distinct(s'.effects) && s'.ledger == Elements(s'.effects) && RunnerOk(s', s'.runners[k])
  {
    var r, s' := s.runners[k], Do(s, Commit(k));
    assert RunnerOk(s, r);
    var f := r.rest[0];
    assert f !in r.base && f !in r.done && f !in s.effects;
    assert s'.effects == r.base + (r.done + [f]);
    assert Pending(r.rest, Elements(r.base)) == [f] + Pending(r.rest[1..], Elements(r.base));
    assert r.done + ([f] + Pending(r.rest[1..], Elements(r.base))) ==
           (r.done + [f]) + Pending(r.rest[1..], Elements(r.base));
  }

  lemma Keeps(s: State, e: Event)
    requires Inv(s) && Enabled(s, e)
    ensures Inv(Do(s, e))
  {
    var s' := Do(s, e);
    if e.Commit? { CommitStep(s, e.k); } else { OwnStep(s, e); }
    forall j | 0 <= j < |s'.runners| ensures RunnerOk(s', s'.runners[j]) {
      assert RunnerOk(s, s.runners[j]);
      if j != e.k && e.Commit? { assert !Holds(s.runners[j]); }
    }
  }

  /** Because the ledger is read under the lock, recording a file never meets its own key. */
  lemma PrimaryKeyNeverCollides(s: State, k: nat)
    requires Inv(s) && At(s, k, Applied)
    ensures Enabled(s, InsertRow(k))
  {
    assert RunnerOk(s, s.runners[k]);
  }

  // ----- Runs -----

  ghost predicate Possible(s: State, es: seq<Event>)
    decreases |es|
  {
    es == [] || (Enabled(s, es[0]) && Possible(Do(s, es[0]), es[1..]))
  }

  ghost function After(s: State, es: seq<Event>): State
    requires Possible(s, es)
    decreases |es|
  {
    if es == [] then s else After(Do(s, es[0]), es[1..])
  }

  /**
   * Whatever starts, crashes, fails and retries: every migration's effect is
   * committed at most once, and an effect is present exactly when its ledger row is.
   */
  lemma {:induction false} AppliedAtMostOnce(s: State, es: seq<Event>)
    requires Inv(s) && Possible(s, es)
    ensures Inv(After(s, es)) && Distinct(After(s, es).effects)
    ensures forall f :: f in After(s, es).effects <==> f in After(s, es).ledger
    decreases |es|
  {
    if es == [] {
    } else {
      Keeps(s, es[0]);
      AppliedAtMostOnce(Do(s, es[0]), es[1..]);
    }
  }

  /**
   * Each run extends the history it found by a prefix of its ordered pending list,
   * and by all of it when the run finishes.
   */
  lemma RunExtendsByPrefix(s: State, es: seq<Event>, k: nat)
    requires Inv(s) && Possible(s, es) && k < |After(s, es).runners| && After(s, es).runners[k].Looping?
    ensures var end, r := After(s, es), After(s, es).runners[k];
            && end.effects == r.base + r.done
            && r.done <= Pending(r.files, r.applied)
            && (Enabled(end, Finish(k)) ==> r.done == Pending(r.files, r.applied))
  {
    AppliedAtMostOnce(s, es);
    assert RunnerOk(After(s, es), After(s, es).runners[k]);
  }

  // ----- One image, many processes -----

  /** All processes run the same ordered directory. */
  ghost predicate SameImage(s: State, files: seq<File>) {
    && s.effects <= files
    && forall k :: 0 <= k < |s.runners| ==>
                     var r := s.runners[k];
                     (r.Stopped? || r.files == files) && (r.Looping? ==> r.base <= files)
  }

  lemma {:induction false} NothingPendingIn(files: seq<File>, n: nat, applied: set<File>)
    requires n <= |files| && forall i :: 0 <= i < n ==> files[i] in applied
    ensures Pending(files, applied) == Pending(files[n..], applied)
    decreases n
  {
    if n == 0 {
    } else {
      assert files[1..][n - 1..] == files[n..];
      NothingPendingIn(files[1..], n - 1, applied);
    }
  }

  lemma {:induction false} AllPending(files: seq<File>, applied: set<File>)
    requires forall f :: f in files ==> f !in applied
    ensures Pending(files, applied) == files
  {
    if files == [] {
    } else {
      AllPending(files[1..], applied);
    }
  }

  /** After a prefix of the directory has been applied, the pending list is its remainder. */
  lemma PendingIsRemainder(files: seq<File>, base: seq<File>)
    requires Distinct(files) && base <= files
    ensures Pending(files, Elements(base)) == files[|base|..]
  {
    NothingPendingIn(files, |base|, Elements(base));
    AllPending(files[|base|..], Elements(base));
  }

  lemma CommitInOrder(s: State, k: nat, files: seq<File>)
    requires Inv(s) && Enabled(s, Commit(k)) && Distinct(files) && SameImage(s, files)
    ensures Do(s, Commit(k)).effects <= files
  {
    CommitStep(s, k);
    var s' := Do(s, Commit(k));
    var r := s'.runners[k];
    PendingIsRemainder(files, r.base);
    assert RunnerOk(s', r);
    assert files == r.base + files[|r.base|..];
  }

  lemma ImageKeeps(s: State, e: Event, files: seq<File>)
    requires Inv(s) && Enabled(s, e) && Distinct(files) && SameImage(s, files)
    requires e.Start? ==> e.files == files
    ensures SameImage(Do(s, e), files)
  {
    if e.Commit? { CommitInOrder(s, e.k, files); }
  }

  /** Then the history is always a prefix of the directory: in order, with no gap. */
  lemma {:induction false} AppliedInOrder(s: State, es: seq<Event>, files: seq<File>)
    requires Inv(s) && Possible(s, es) && Distinct(files) && SameImage(s, files)
    requires forall i :: 0 <= i < |es| && es[i].Start? ==> es[i].files == files
    ensures After(s, es).effects <= files
    decreases |es|
  {
    if es == [] {
    } else {
      Keeps(s, es[0]);
      ImageKeeps(s, es[0], files);
      AppliedInOrder(Do(s, es[0]), es[1..], files);
    }
  }

  // ----- The loop itself -----

  lemma PendingFrom(files: seq<File>, applied: set<File>, i: nat, done: seq<File>)
    requires i < |files|
    ensures done + Pending(files[i..], applied) ==
            (if files[i] in applied then done else done + [files[i]]) + Pending(files[i + 1..], applied)
  {
    assert files[i..][0] == files[i] && files[i..][1..] == files[i + 1..];
  }

  /** The database as one uninterrupted runner finds and leaves it. */
  class Database {
    var effects: seq<File>
    var recorded: set<File>

    constructor ()
      ensures effects == [] && recorded == {}
    {
      effects, recorded := [], {};
    }

    /** `fails` are the files whose SQL raises; `ok` is the exit status. */
    method RunMigrations(files: seq<File>, fails: set<File>) returns (count: nat, ok: bool)
      requires Distinct(files)
      modifies this
      ensures var pending := Pending(files, old(recorded));
              && count <= |pending|
              && effects == old(effects) + pending[..count]
              && recorded == old(recorded) + Elements(pending[..count])
              && (ok <==> count == |pending|)
              && (!ok ==> pending[count] in fails)
              && forall i :: 0 <= i < count ==> pending[i] !in fails
    {
      var applied := recorded;
      ghost var done: seq<File> := [];
      count := 0;
      for i := 0 to |files|
        invariant count == |done| && Pending(files, applied) == done + Pending(files[i..], applied)
        invariant effects == old(effects) + done && recorded == old(recorded) + Elements(done)
        invariant forall j :: 0 <= j < count ==> done[j] !in fails
      {
        var file := files[i];
        PendingFrom(files, applied, i, done);
        if file !in applied {
          if file in fails {
            return count, false;
          }
          effects := effects + [file];
          recorded := recorded + {file};
          done := done + [file];
          count := count + 1;
        }
      }
      return count, true;
    }
  }
}
