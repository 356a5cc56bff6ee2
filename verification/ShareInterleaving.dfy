/**
 * Shares and purges that overlap. The worker answers each share as it comes, so that the
 * purge of one runs beside the writes of another, one cache operation at a time: a purge
 * lists the keys, reads each bundle's index, and deletes the listed keys of a bundle it
 * takes for dead; a share puts its files one by one and its index last.
 */
module ShareInterleaving {
  import opened Options
  import opened ShareStash

  /** A share under way or done: its files and how many of its writes are in. */
  datatype Share = Share(now: int, files: seq<File>, written: nat)

  /** A purge: its time, the keys it found and those it is to delete. */
  datatype Purge = Purge(now: int, listed: set<Key>, dead: set<Key>)

  /**
   * `alive` are the shares still under way. `condemned` are all keys a purge ever took for
   * dead, `deleted` those it did delete.
   */
  datatype State = State(
    cache: Cache, shares: map<Id, Share>, alive: set<Id>, purges: map<nat, Purge>,
    condemned: set<Key>, deleted: set<Key>)

  datatype Event =
    | Open(id: Id, now: int, files: seq<File>)
    | Put(id: Id)
    | Refuse(id: Id)
    | Enumerate(p: nat, now: int)
    | Judge(p: nat, id: Id, readable: bool)
    | Delete(p: nat, key: Key)
    | Die

  const EMPTY := State(map[], map[], {}, map[], {}, {})

  function Writes(id: Id, share: Share): seq<Write> { WritesOf(id, share.now, EntriesFor(id, share.files)) }

  predicate Enabled(s: State, e: Event) {
    match e
    case Open(id, _, _) => id !in s.shares
    case Put(id) => id in s.alive && id in s.shares && s.shares[id].written < |Writes(id, s.shares[id])|
    case Refuse(id) => id in s.alive
    case Enumerate(p, _) => p !in s.purges
    case Judge(p, id, _) => p in s.purges
    case Delete(p, key) => p in s.purges && key in s.purges[p].dead && key in s.cache
    case Die => true
  }

  /** The purge reads the index there is now; one that is not there, not readable or expired is dead. */
  predicate Spares(s: State, p: nat, id: Id, readable: bool)
    requires p in s.purges
  {
    readable && Live(s.cache, id, s.purges[p].now)
  }

  function ListedOf(s: State, p: nat, id: Id): set<Key>
    requires p in s.purges
  {
    set key | key in s.purges[p].listed && key.id == id
  }

  function Do(s: State, e: Event): State
    requires Enabled(s, e)
  {
    match e
    case Open(id, now, files) => s.(shares := s.shares[id := Share(now, files, 0)], alive := s.alive + {id})
    case Put(id) =>
      var share := s.shares[id];
      var write := Writes(id, share)[share.written];
      s.(cache := s.cache[write.key := write.content], shares := s.shares[id := share.(written := share.written + 1)])
    case Refuse(id) => s.(alive := s.alive - {id})
    case Enumerate(p, now) => s.(purges := s.purges[p := Purge(now, s.cache.Keys, {})])
    case Judge(p, id, readable) =>
      if Spares(s, p, id, readable) then s
      else
        s.(purges := s.purges[p := s.purges[p].(dead := s.purges[p].dead + ListedOf(s, p, id))],
           condemned := s.condemned + ListedOf(s, p, id))
    case Delete(p, key) => s.(cache := s.cache - {key}, deleted := s.deleted + {key})
    case Die => s.(alive := {}, purges := map[])
  }

  // ----- What the cache holds -----

  /** The key has been put by its share. */
  ghost predicate IsPut(s: State, key: Key) {
    key.id in s.shares &&
    exists k :: 0 <= k < s.shares[key.id].written <= |Writes(key.id, s.shares[key.id])| &&
                Writes(key.id, s.shares[key.id])[k].key == key
  }

  /** What the key was put with. */
  ghost predicate HoldsPut(s: State, key: Key)
    requires key in s.cache
  {
    key.id in s.shares &&
    exists k :: 0 <= k < s.shares[key.id].written <= |Writes(key.id, s.shares[key.id])| &&
                Writes(key.id, s.shares[key.id])[k] == Write(key, s.cache[key])
  }

  ghost predicate PurgeOk(s: State, purge: Purge) {
    (forall key :: key in purge.listed ==> IsPut(s, key)) && purge.dead <= purge.listed && purge.dead <= s.condemned
  }

  ghost predicate Inv(s: State) {
    && (forall id :: id in s.shares ==> s.shares[id].written <= |Writes(id, s.shares[id])|)
    && (forall key :: key in s.cache ==> HoldsPut(s, key))
    && (forall key :: IsPut(s, key) ==> key in s.cache || key in s.deleted)
    && (forall key :: key in s.deleted ==> key !in s.cache && key in s.condemned)
    && (forall key :: key in s.condemned ==> IsPut(s, key))
    && (forall p :: p in s.purges ==> PurgeOk(s, s.purges[p]))
  }

  /** The writes of a share are of its own keys, and no two of one key. */
  lemma {:induction false} FileWritesApart(id: Id, entries: seq<Entry>)
    requires Sound(id, entries)
    ensures forall k :: 0 <= k < |FileWrites(entries)| ==>
                          FileWrites(entries)[k].key.FileKey? && FileWrites(entries)[k].key.id == id &&
                          FileWrites(entries)[k].key.position < |entries|
    ensures forall j, k :: 0 <= j < k < |FileWrites(entries)| ==>
            FileWrites(entries)[j].key != FileWrites(entries)[k].key
  {
    if entries == [] {
    } else {
      SoundPrefix(id, entries);
      FileWritesApart(id, entries[..|entries| - 1]);
    }
  }

  lemma WritesApart(id: Id, share: Share)
    ensures forall k :: 0 <= k < |Writes(id, share)| ==> Writes(id, share)[k].key.id == id
    ensures forall j, k :: 0 <= j < k < |Writes(id, share)| ==> Writes(id, share)[j].key != Writes(id, share)[k].key
  {
    EveryFileJudged(id, share.files);
    FileWritesApart(id, EntriesFor(id, share.files));
  }

  /** What was put stays put, as long as no share loses a write. */
  lemma PutStays(s: State, s': State, key: Key)
    requires IsPut(s, key) && key.id in s'.shares
    requires s'.shares[key.id] == s.shares[key.id].(written := s'.shares[key.id].written)
    requires s.shares[key.id].written <= s'.shares[key.id].written <= |Writes(key.id, s.shares[key.id])|
    ensures IsPut(s', key)
  {
    assert Writes(key.id, s'.shares[key.id]) == Writes(key.id, s.shares[key.id]);
  }

  /** The next write of a share is of a key not put yet. */
  lemma NotPutYet(s: State, id: Id)
    requires Enabled(s, Put(id))
    ensures !IsPut(s, Writes(id, s.shares[id])[s.shares[id].written].key)
  {
    WritesApart(id, s.shares[id]);
  }

  /** After a write every key still holds what it was put with. */
  lemma WriteHolds(s: State, id: Id, key: Key)
    requires Inv(s) && Enabled(s, Put(id)) && key in Do(s, Put(id)).cache
    ensures HoldsPut(Do(s, Put(id)), key)
  {
    var s', share := Do(s, Put(id)), s.shares[id];
    var write := Writes(id, share)[share.written];
    assert Writes(id, s'.shares[id]) == Writes(id, share);
    WritesApart(id, share);
    if key != write.key {
      assert HoldsPut(s, key);
      var k :| 0 <= k < s.shares[key.id].written <= |Writes(key.id, s.shares[key.id])| &&
          Writes(key.id, s.shares[key.id])[k] == Write(key, s.cache[key]);
      assert Writes(key.id, s'.shares[key.id])[k] == Write(key, s'.cache[key]);
    } else {
      assert Writes(id, s'.shares[id])[share.written] == Write(key, s'.cache[key]);
    }
  }

  /** It puts its own key, and no other. */
  lemma WritePuts(s: State, id: Id, key: Key)
    requires Inv(s) && Enabled(s, Put(id))
    ensures IsPut(Do(s, Put(id)), key) <==> IsPut(s, key) || key == Writes(id, s.shares[id])[s.shares[id].written].key
  {
    var s', share := Do(s, Put(id)), s.shares[id];
    var write := Writes(id, share)[share.written];
    assert Writes(id, s'.shares[id]) == Writes(id, share);
    WritesApart(id, share);
    assert IsPut(s', write.key);
    if IsPut(s, key) { PutStays(s, s', key); }
    if IsPut(s', key) && key != write.key {
      var k :| 0 <= k < s'.shares[key.id].written <= |Writes(key.id, s'.shares[key.id])| &&
          Writes(key.id, s'.shares[key.id])[k].key == key;
      assert key.id == id ==> k != share.written;
      assert Writes(key.id, s.shares[key.id])[k].key == key;
    }
  }

  lemma PutStep(s: State, id: Id)
    requires Inv(s) && Enabled(s, Put(id))
    ensures Inv(Do(s, Put(id)))
  {
    var s', share := Do(s, Put(id)), s.shares[id];
    var write := Writes(id, share)[share.written];
    assert Writes(id, s'.shares[id]) == Writes(id, share);
    forall key | key in s'.cache ensures HoldsPut(s', key) { WriteHolds(s, id, key); }
    forall key ensures IsPut(s', key) <==> IsPut(s, key) || key == write.key { WritePuts(s, id, key); }
    NotPutYet(s, id);
    assert write.key !in s.deleted;
    forall p | p in s'.purges ensures PurgeOk(s', s'.purges[p]) { assert PurgeOk(s, s.purges[p]); }
  }

  /** Every other event leaves the shares' writes alone, or opens one with none. */
  lemma SamePuts(s: State, s': State, key: Key)
    requires forall id :: id in s.shares ==> id in s'.shares && s'.shares[id] == s.shares[id]
    requires forall id :: id in s'.shares && id !in s.shares ==> s'.shares[id].written == 0
    ensures IsPut(s', key) <==> IsPut(s, key)
  {}

  /** A share opened or refused, a purge begun, or the worker's death. */
  lemma QuietStep(s: State, e: Event)
    requires Inv(s) && Enabled(s, e) && !e.Put? && !e.Judge? && !e.Delete?
    ensures Inv(Do(s, e))
  {
    var s' := Do(s, e);
    forall key ensures IsPut(s', key) <==> IsPut(s, key) { SamePuts(s, s', key); }
    forall key | key in s.cache ensures HoldsPut(s', key) && IsPut(s, key) { assert HoldsPut(s, key); }
    forall p | p in s'.purges ensures PurgeOk(s', s'.purges[p]) {
      if p in s.purges { assert PurgeOk(s, s.purges[p]); }
    }
  }

  lemma JudgeStep(s: State, e: Event)
    requires Inv(s) && Enabled(s, e) && e.Judge?
    ensures Inv(Do(s, e))
  {
    var s' := Do(s, e);
    assert PurgeOk(s, s.purges[e.p]);
    forall key ensures IsPut(s', key) <==> IsPut(s, key) { SamePuts(s, s', key); }
    forall key | key in s.cache ensures HoldsPut(s', key) { assert HoldsPut(s, key); }
    forall p | p in s'.purges ensures PurgeOk(s', s'.purges[p]) { assert PurgeOk(s, s.purges[p]); }
  }

  lemma DeleteStep(s: State, e: Event)
    requires Inv(s) && Enabled(s, e) && e.Delete?
    ensures Inv(Do(s, e))
  {
    var s' := Do(s, e);
    assert PurgeOk(s, s.purges[e.p]);
    forall key ensures IsPut(s', key) <==> IsPut(s, key) { SamePuts(s, s', key); }
    forall key | key in s'.cache ensures HoldsPut(s', key) { assert HoldsPut(s, key); }
    forall p | p in s'.purges ensures PurgeOk(s', s'.purges[p]) { assert PurgeOk(s, s.purges[p]); }
  }

  lemma Keeps(s: State, e: Event)
    requires Inv(s) && Enabled(s, e)
    ensures Inv(Do(s, e))
  {
    if e.Put? {
      PutStep(s, e.id);
    } else if e.Judge? {
      JudgeStep(s, e);
    } else if e.Delete? {
      DeleteStep(s, e);
    } else {
      QuietStep(s, e);
    }
  }

  // ----- Runs -----

  ghost predicate IsRun(states: seq<State>, events: seq<Event>) {
    && |states| == |events| + 1 && states[0] == EMPTY
    && forall i :: 0 <= i < |events| ==> Enabled(states[i], events[i]) && Do(states[i], events[i]) == states[i + 1]
  }

  lemma {:induction false} RunKeeps(states: seq<State>, events: seq<Event>, k: nat)
    requires IsRun(states, events) && k < |states|
    ensures Inv(states[k])
  {
    if k == 0 {
    } else {
      RunKeeps(states, events, k - 1);
      Keeps(states[k - 1], events[k - 1]);
    }
  }

  // ----- Whole bundles -----

  /** The index of the bundle is in. */
  ghost predicate Visible(s: State, id: Id) { IndexKey(id) in s.cache }

  function EntriesOf(s: State, id: Id): seq<Entry>
    requires id in s.shares
  {
    EntriesFor(id, s.shares[id].files)
  }

  /** The keys of the accepted files of a share. */
  ghost predicate IsFileOf(s: State, id: Id, key: Key) {
    id in s.shares && exists i :: 0 <= i < |EntriesOf(s, id)| && EntriesOf(s, id)[i].Accepted? && key == FileKey(id, i)
  }

  lemma {:induction false} FileIsWritten(id: Id, entries: seq<Entry>, i: nat)
    requires Sound(id, entries) && i < |entries| && entries[i].Accepted?
    ensures Write(FileKey(id, i), BytesOf(entries[i].file)) in FileWrites(entries)
  {
    SoundPrefix(id, entries);
    if i == |entries| - 1 {
    } else {
      FileIsWritten(id, entries[..|entries| - 1], i);
    }
  }

  /** The index is the last write: with it, every accepted file has been put. */
  lemma VisibleIsWritten(s: State, id: Id)
    requires Inv(s) && Visible(s, id)
    ensures id in s.shares && s.cache[IndexKey(id)] == Index(s.shares[id].now, EntriesOf(s, id))
    ensures s.shares[id].written == |Writes(id, s.shares[id])| && Sound(id, EntriesOf(s, id))
  {
    assert HoldsPut(s, IndexKey(id));
    EveryFileJudged(id, s.shares[id].files);
    FileWritesApart(id, EntriesOf(s, id));
  }

  /** So each of them was put with its bytes. */
  lemma FileIsPut(s: State, id: Id, i: nat)
    requires Inv(s) && Visible(s, id) && id in s.shares && i < |EntriesOf(s, id)| && EntriesOf(s, id)[i].Accepted?
    ensures IsPut(s, FileKey(id, i))
    ensures Write(FileKey(id, i), BytesOf(EntriesOf(s, id)[i].file)) in Writes(id, s.shares[id])
  {
    VisibleIsWritten(s, id);
    var entries, writes := EntriesOf(s, id), Writes(id, s.shares[id]);
    FileIsWritten(id, entries, i);
    var k :| 0 <= k < |FileWrites(entries)| &&
        FileWrites(entries)[k] == Write(FileKey(id, i), BytesOf(entries[i].file));
    assert writes[k] == Write(FileKey(id, i), BytesOf(entries[i].file));
  }

  /** A key is put once, so it holds that. */
  lemma HoldsItsWrite(s: State, key: Key, content: Content)
    requires Inv(s) && key in s.cache && key.id in s.shares
    requires Write(key, content) in Writes(key.id, s.shares[key.id])
    ensures s.cache[key] == content
  {
    assert HoldsPut(s, key);
    WritesApart(key.id, s.shares[key.id]);
  }

  /** The bytes of an accepted file are there, and are its own, unless they were deleted. */
  lemma FileIsThere(s: State, id: Id, i: nat)
    requires Inv(s) && Visible(s, id)
    ensures id in s.shares
    ensures i < |EntriesOf(s, id)| && EntriesOf(s, id)[i].Accepted? ==>
              (FileKey(id, i) in s.cache <==> FileKey(id, i) !in s.deleted) &&
              (FileKey(id, i) in s.cache ==> s.cache[FileKey(id, i)] == BytesOf(EntriesOf(s, id)[i].file))
  {
    VisibleIsWritten(s, id);
    var key := FileKey(id, i);
    if i < |EntriesOf(s, id)| && EntriesOf(s, id)[i].Accepted? {
      FileIsPut(s, id, i);
      if key in s.cache { HoldsItsWrite(s, key, BytesOf(EntriesOf(s, id)[i].file)); }
    }
  }

  lemma UndeletedIsWhole(s: State, id: Id)
    requires Inv(s) && Visible(s, id) && id in s.shares
    requires forall key :: IsFileOf(s, id, key) ==> key !in s.deleted
    ensures AllStored(s.cache, id, EntriesOf(s, id))
  {
    var entries := EntriesOf(s, id);
    forall i | 0 <= i < |entries| && entries[i].Accepted?
      ensures FileKey(id, i) in s.cache && s.cache[FileKey(id, i)] == BytesOf(entries[i].file)
    {
      assert IsFileOf(s, id, FileKey(id, i));
      FileIsThere(s, id, i);
    }
  }

  lemma WholeIsUndeleted(s: State, id: Id, key: Key)
    requires Inv(s) && Visible(s, id) && id in s.shares && AllStored(s.cache, id, EntriesOf(s, id)) &&
             IsFileOf(s, id, key)
    ensures key !in s.deleted
  {
    var i :| 0 <= i < |EntriesOf(s, id)| && EntriesOf(s, id)[i].Accepted? && key == FileKey(id, i);
    FileIsThere(s, id, i);
  }

  /** A visible bundle is whole exactly when no byte of it was deleted. */
  lemma WholeExactly(s: State, id: Id)
    requires Inv(s) && Visible(s, id)
    ensures id in s.shares
    ensures AllStored(s.cache, id, EntriesOf(s, id)) <==> forall key :: IsFileOf(s, id, key) ==> key !in s.deleted
  {
    VisibleIsWritten(s, id);
    if AllStored(s.cache, id, EntriesOf(s, id)) {
      forall key | IsFileOf(s, id, key) ensures key !in s.deleted { WholeIsUndeleted(s, id, key); }
    } else if forall key :: IsFileOf(s, id, key) ==> key !in s.deleted {
      UndeletedIsWhole(s, id);
    }
  }

  /** Once every deletion a purge was to make is made, that is when no purge took a byte of it for dead. */
  lemma SettledWholeExactly(s: State, id: Id)
    requires Inv(s) && Visible(s, id) && s.condemned <= s.deleted
    ensures id in s.shares
    ensures AllStored(s.cache, id, EntriesOf(s, id)) <==> forall key :: IsFileOf(s, id, key) ==> key !in s.condemned
  {
    WholeExactly(s, id);
  }

  // ----- Why a purge takes a byte for dead -----

  /** The event condemns the key: its bundle had no index yet, an expired one, or one that could not be read. */
  ghost predicate Condemns(s: State, e: Event, key: Key) {
    e.Judge? && e.p in s.purges && key.id == e.id && key in s.purges[e.p].listed &&
    (IndexKey(e.id) !in s.cache || !Live(s.cache, e.id, s.purges[e.p].now) || !e.readable)
  }

  lemma CondemnsExactly(s: State, e: Event, key: Key)
    requires Enabled(s, e) && key !in s.condemned
    ensures key in Do(s, e).condemned <==> Condemns(s, e, key)
  {}

  /** Exactly the judgements that condemn a key make it condemned. */
  lemma {:induction false} CondemnedExactly(states: seq<State>, events: seq<Event>, k: nat, key: Key)
    requires IsRun(states, events) && k < |states|
    ensures key in states[k].condemned <==> exists i :: 0 <= i < k && Condemns(states[i], events[i], key)
  {
    if k == 0 {
    } else {
      CondemnedExactly(states, events, k - 1, key);
      var s, e := states[k - 1], events[k - 1];
      assert Do(s, e) == states[k];
      if key !in s.condemned { CondemnsExactly(s, e, key); }
    }
  }

  /**
   * Over any run, shares and purges overlapping and the worker dying at will: a visible
   * bundle lists every file of its share once, within the limits, and all its bytes are
   * stored if no purge judged it, a byte of it listed, before its index was in, after it had
   * expired, or without being able to read it.
   */
  lemma VisibleIsWhole(states: seq<State>, events: seq<Event>, k: nat, id: Id)
    requires IsRun(states, events) && k < |states| && Visible(states[k], id)
    requires forall i, key :: 0 <= i < k && IsFileOf(states[k], id, key) ==> !Condemns(states[i], events[i], key)
    ensures id in states[k].shares && Sound(id, EntriesOf(states[k], id))
    ensures AllStored(states[k].cache, id, EntriesOf(states[k], id))
  {
    RunKeeps(states, events, k);
    VisibleIsWritten(states[k], id);
    forall key | IsFileOf(states[k], id, key) ensures key !in states[k].deleted {
      CondemnedExactly(states, events, k, key);
    }
    WholeExactly(states[k], id);
  }

  /** And once the purges have deleted what they were to delete, only then. */
  lemma VisibleIsWholeExactly(states: seq<State>, events: seq<Event>, k: nat, id: Id)
    requires IsRun(states, events) && k < |states| && Visible(states[k], id) && states[k].condemned <= states[k].deleted
    ensures id in states[k].shares
    ensures AllStored(states[k].cache, id, EntriesOf(states[k], id)) <==>
            forall i, key :: 0 <= i < k && IsFileOf(states[k], id, key) ==> !Condemns(states[i], events[i], key)
  {
    RunKeeps(states, events, k);
    SettledWholeExactly(states[k], id);
    forall key | IsFileOf(states[k], id, key)
      ensures key in states[k].condemned <==> exists i :: 0 <= i < k && Condemns(states[i], events[i], key)
    {
      CondemnedExactly(states, events, k, key);
    }
  }

  /** A share keeps its time and its files. */
  lemma {:induction false} ShareStays(states: seq<State>, events: seq<Event>, i: nat, k: nat, id: Id)
    requires IsRun(states, events) && i <= k < |states| && id in states[i].shares
    ensures id in states[k].shares
    ensures states[k].shares[id].now == states[i].shares[id].now
    ensures states[k].shares[id].files == states[i].shares[id].files
  {
    if i == k {
    } else {
      ShareStays(states, events, i, k - 1, id);
      assert Do(states[k - 1], events[k - 1]) == states[k];
    }
  }

  /** A purge reads the bundle, a key of it listed, while its share has not written the index. */
  ghost predicate CutsIn(s: State, e: Event, id: Id) {
    e.Judge? && e.id == id && e.p in s.purges && ListedOf(s, e.p, id) != {} && IndexKey(id) !in s.cache
  }

  /**
   * Two things can take the bytes of a bundle that has not expired: a purge that cannot read
   * its index, and one that comes between its first write and its index.
   */
  lemma UnexpiredIsWhole(states: seq<State>, events: seq<Event>, k: nat, id: Id, now: int)
    requires IsRun(states, events) && k < |states| && Live(states[k].cache, id, now)
    requires forall i, p :: 0 <= i < k && p in states[i].purges ==> states[i].purges[p].now <= now
    requires forall i :: 0 <= i < k && events[i].Judge? && events[i].id == id ==> events[i].readable
    requires forall i :: 0 <= i < k ==> !CutsIn(states[i], events[i], id)
    ensures id in states[k].shares && AllStored(states[k].cache, id, EntriesOf(states[k], id))
  {
    RunKeeps(states, events, k);
    VisibleIsWritten(states[k], id);
    forall i: int, key | 0 <= i < k && IsFileOf(states[k], id, key) ensures !Condemns(states[i], events[i], key) {
      var s, e := states[i], events[i];
      if e.Judge? && e.id == id && e.p in s.purges && key in s.purges[e.p].listed {
        assert key in ListedOf(s, e.p, id);
        assert !CutsIn(s, e, id);
        RunKeeps(states, events, i);
        VisibleIsWritten(s, id);
        ShareStays(states, events, i, k, id);
        assert Live(s.cache, id, s.purges[e.p].now);
      }
    }
    VisibleIsWhole(states, events, k, id);
  }

  lemma {:induction false} FileWritesAreAccepted(id: Id, entries: seq<Entry>, k: nat)
    requires Sound(id, entries) && k < |FileWrites(entries)|
    ensures exists i :: 0 <= i < |entries| && entries[i].Accepted? && FileWrites(entries)[k].key == FileKey(id, i)
  {
    var last := |entries| - 1;
    var before := FileWrites(entries[..last]);
    SoundPrefix(id, entries);
    if k < |before| {
      FileWritesAreAccepted(id, entries[..last], k);
      var i :| 0 <= i < last && entries[..last][i].Accepted? && before[k].key == FileKey(id, i);
      assert entries[i].Accepted? && FileWrites(entries)[k].key == FileKey(id, i);
    } else {
      assert entries[last].Accepted? && FileWrites(entries)[k].key == FileKey(id, last);
    }
  }

  /** What is put of a bundle is its index or an accepted file. */
  lemma PutIsOfBundle(s: State, key: Key)
    requires IsPut(s, key)
    ensures key == IndexKey(key.id) || IsFileOf(s, key.id, key)
  {
    var id, entries := key.id, EntriesOf(s, key.id);
    var k :| 0 <= k < s.shares[id].written <= |Writes(id, s.shares[id])| && Writes(id, s.shares[id])[k].key == key;
    EveryFileJudged(id, s.shares[id].files);
    if k < |FileWrites(entries)| { FileWritesAreAccepted(id, entries, k); }
  }

  lemma {:induction false} DeletedForGood(states: seq<State>, events: seq<Event>, i: nat, k: nat)
    requires IsRun(states, events) && i <= k < |states|
    ensures states[i].deleted <= states[k].deleted
  {
    if i == k {
    } else {
      DeletedForGood(states, events, i, k - 1);
      assert Do(states[k - 1], events[k - 1]) == states[k];
    }
  }

  /** A purge that cuts in takes a file of the bundle for dead. */
  lemma CuttingInCondemns(states: seq<State>, events: seq<Event>, i: nat, k: nat, id: Id)
    requires IsRun(states, events) && i < k < |states| && Visible(states[k], id) && CutsIn(states[i], events[i], id)
    ensures exists key :: IsFileOf(states[k], id, key) && Condemns(states[i], events[i], key)
  {
    var s, e := states[i], events[i];
    var key :| key in ListedOf(s, e.p, id);
    RunKeeps(states, events, i);
    RunKeeps(states, events, k);
    assert PurgeOk(s, s.purges[e.p]) && IsPut(s, key);
    PutIsOfBundle(s, key);
    DeletedForGood(states, events, i, k);
    assert key != IndexKey(id);
    ShareStays(states, events, i, k, id);
    assert IsFileOf(states[k], id, key) && Condemns(s, e, key);
  }

  /**
   * For an unexpired bundle that every purge could read, once the purges have deleted what
   * they were to delete: it is whole exactly when none came between its first write and its
   * index.
   */
  lemma UnexpiredIsWholeExactly(states: seq<State>, events: seq<Event>, k: nat, id: Id, now: int)
    requires IsRun(states, events) && k < |states| && Live(states[k].cache, id, now)
    requires forall i, p :: 0 <= i < k && p in states[i].purges ==> states[i].purges[p].now <= now
    requires forall i :: 0 <= i < k && events[i].Judge? && events[i].id == id ==> events[i].readable
    requires states[k].condemned <= states[k].deleted
    ensures id in states[k].shares
    ensures AllStored(states[k].cache, id, EntriesOf(states[k], id)) <==>
            forall i :: 0 <= i < k ==> !CutsIn(states[i], events[i], id)
  {
    VisibleIsWholeExactly(states, events, k, id);
    if forall i :: 0 <= i < k ==> !CutsIn(states[i], events[i], id) {
      UnexpiredIsWhole(states, events, k, id, now);
    } else {
      var i :| 0 <= i < k && CutsIn(states[i], events[i], id);
      CuttingInCondemns(states, events, i, k, id);
    }
  }

  // ----- A purge between the bytes and the index -----

  function OverlapEvents(id: Id, file: File): seq<Event> {
    [Open(id, 0, [file]), Put(id), Enumerate(0, 0), Judge(0, id, true), Delete(0, FileKey(id, 0)), Put(id)]
  }

  predicate Leads(s: State, e: Event, s': State) { Enabled(s, e) && Do(s, e) == s' }

  function Overlap(id: Id, file: File, cache: Cache, written: nat, purges: map<nat, Purge>, gone: set<Key>,
      lost: set<Key>): State {
    State(cache, map[id := Share(0, [file], written)], {id}, purges, gone, lost)
  }

  lemma OverlapBegins(id: Id, file: File, bytes: Cache, s: State)
    requires file.kind.Some? && file.size <= MAX_FILE_BYTES && bytes == map[FileKey(id, 0) := BytesOf(file)]
    requires s == Overlap(id, file, bytes, 1, map[], {}, {})
    ensures var s1 := Overlap(id, file, map[], 0, map[], {}, {});
            Leads(EMPTY, Open(id, 0, [file]), s1) && Leads(s1, Put(id), s)
  {
    OneFileWrites(id, file);
    var s1 := Overlap(id, file, map[], 0, map[], {}, {});
    assert Do(EMPTY, Open(id, 0, [file])).alive == {id};
    assert Do(s1, Put(id)).shares == s.shares;
  }

  lemma OverlapPurges(id: Id, file: File, bytes: Cache, key: Key, s1: State, s2: State)
    requires key == FileKey(id, 0) && bytes == map[key := BytesOf(file)]
    requires s1 == Overlap(id, file, bytes, 1, map[0 := Purge(0, {key}, {})], {}, {})
    requires s2 == Overlap(id, file, bytes, 1, map[0 := Purge(0, {key}, {key})], {key}, {})
    ensures Leads(Overlap(id, file, bytes, 1, map[], {}, {}), Enumerate(0, 0), s1)
    ensures Leads(s1, Judge(0, id, true), s2)
    ensures Leads(s2, Delete(0, key), Overlap(id, file, map[], 1, map[0 := Purge(0, {key}, {key})], {key}, {key}))
  {
    assert bytes.Keys == {key};
    assert ListedOf(s1, 0, id) == {key};
    assert !Spares(s1, 0, id, true);
    assert s1.purges[0].dead + ListedOf(s1, 0, id) == {key};
    assert Do(s1, Judge(0, id, true)).purges == s2.purges && Do(s1, Judge(0, id, true)).condemned == {key};
    assert Do(s2, Delete(0, key)).cache == map[] && Do(s2, Delete(0, key)).deleted == {key};
  }

  lemma OverlapEnds(id: Id, file: File, s: State)
    requires file.kind.Some? && file.size <= MAX_FILE_BYTES
    requires s.cache == map[] && s.shares == map[id := Share(0, [file], 1)] && s.alive == {id}
    ensures Enabled(s, Put(id)) && Do(s, Put(id)).cache == HollowOf(id, file)
  {
    OneFileWrites(id, file);
  }

  /**
   * Why no purge may come in between: a second share's purge finds the first's bytes with no
   * index yet and deletes them, and then the index is written. Every index could be read and
   * none has expired.
   */
  lemma OverlapMayBeHollow(id: Id, file: File, now: int)
    requires file.kind.Some? && file.size <= MAX_FILE_BYTES && now < TIME_TO_LIVE
    ensures exists states: seq<State> ::
              IsRun(states, OverlapEvents(id, file)) && states[6].cache == HollowOf(id, file)
    ensures IsHollow(HollowOf(id, file), id) && Live(HollowOf(id, file), id, now)
  {
    var key, bytes := FileKey(id, 0), map[FileKey(id, 0) := BytesOf(file)];
    var s1 := Overlap(id, file, map[], 0, map[], {}, {});
    var s2 := Overlap(id, file, bytes, 1, map[], {}, {});
    var s3 := Overlap(id, file, bytes, 1, map[0 := Purge(0, {key}, {})], {}, {});
    var s4 := Overlap(id, file, bytes, 1, map[0 := Purge(0, {key}, {key})], {key}, {});
    var s5 := Overlap(id, file, map[], 1, map[0 := Purge(0, {key}, {key})], {key}, {key});
    OverlapBegins(id, file, bytes, s2);
    OverlapPurges(id, file, bytes, key, s3, s4);
    OverlapEnds(id, file, s5);
    var states := [EMPTY, s1, s2, s3, s4, s5, Do(s5, Put(id))];
    assert IsRun(states, OverlapEvents(id, file));
    assert [Accepted(file, key)][0].Accepted?;
  }
}
