/**
 * The service worker's stash of shared files: a purge, then file after file within the
 * limits, then the index that makes the bundle visible. The worker may die, and a write
 * may be refused, between any two writes; a purge may fail to read an index, which it then
 * takes for a dead one, and to delete what it wants to.
 */
module ShareStash {
  import opened Options
  import opened Integers

  type Id = string

  datatype Kind = Attachment | Statement

  /** A shared file as classified; `data` stands for its bytes, `size` of them. */
  datatype File = File(name: string, mime: string, size: nat, kind: Option<Kind>, data: int)

  datatype Reason = Unsupported | TooLarge | TooMany | ShareTooLarge

  datatype Key = IndexKey(id: Id) | FileKey(id: Id, position: nat)

  datatype Entry = Accepted(file: File, key: Key) | Refused(file: File, reason: Reason)

  datatype Content = Bytes(size: nat, data: int) | Index(createdAt: int, entries: seq<Entry>)

  type Cache = map<Key, Content>

  const MAX_FILE_BYTES := 10 * 1024 * 1024
  const MAX_FILES := 10
  const MAX_TOTAL_BYTES := 50 * 1024 * 1024
  const TIME_TO_LIVE := 60 * 60 * 1000

  function BytesOf(file: File): Content { Bytes(file.size, file.data) }

  // ----- What is accepted -----

  function AcceptedCount(entries: seq<Entry>): nat {
    if entries == [] then 0
    else AcceptedCount(entries[..|entries| - 1]) + if entries[|entries| - 1].Accepted? then 1 else 0
  }

  function AcceptedBytes(entries: seq<Entry>): nat {
    if entries == [] then 0
    else
      var last := entries[|entries| - 1];
      AcceptedBytes(entries[..|entries| - 1]) + if last.Accepted? then last.file.size else 0
  }

  /** Why a file is refused, after those before it. */
  function ReasonFor(file: File, accepted: nat, totalBytes: nat): Option<Reason> {
    if file.kind == None then Some(Unsupported)
    else if file.size > MAX_FILE_BYTES then Some(TooLarge)
    else if accepted >= MAX_FILES then Some(TooMany)
    else if totalBytes + file.size > MAX_TOTAL_BYTES then Some(ShareTooLarge)
    else None
  }

  function EntryFor(id: Id, file: File, before: seq<Entry>): Entry {
    match ReasonFor(file, AcceptedCount(before), AcceptedBytes(before))
    case Some(reason) => Refused(file, reason)
    case None => Accepted(file, FileKey(id, |before|))
  }

  function EntriesFor(id: Id, files: seq<File>): (entries: seq<Entry>)
    ensures |entries| == |files|
  {
    if files == [] then []
    else
      var before := EntriesFor(id, files[..|files| - 1]);
      before + [EntryFor(id, files[|files| - 1], before)]
  }

  /** A bundle's entries are sound: within the limits, every file's key its own position. */
  predicate Sound(id: Id, entries: seq<Entry>) {
    && AcceptedCount(entries) <= MAX_FILES
    && AcceptedBytes(entries) <= MAX_TOTAL_BYTES
    && forall i :: 0 <= i < |entries| && entries[i].Accepted? ==>
                     entries[i].key == FileKey(id, i) && entries[i].file.kind != None &&
                         entries[i].file.size <= MAX_FILE_BYTES
  }

  lemma OneMoreEntry(entries: seq<Entry>, entry: Entry)
    ensures AcceptedCount(entries + [entry]) == AcceptedCount(entries) + if entry.Accepted? then 1 else 0
    ensures AcceptedBytes(entries + [entry]) == AcceptedBytes(entries) + if entry.Accepted? then entry.file.size else 0
    ensures FileWrites(entries + [entry]) ==
            if entry.Accepted? then FileWrites(entries) +
                [Write(entry.key, BytesOf(entry.file))] else FileWrites(entries)
  {
    assert (entries + [entry])[..|entries|] == entries;
  }

  lemma OneMoreFile(id: Id, files: seq<File>, k: nat)
    requires k < |files|
    ensures EntriesFor(id, files[..k + 1]) ==
            EntriesFor(id, files[..k]) + [EntryFor(id, files[k], EntriesFor(id, files[..k]))]
  {
    assert files[..k + 1][..k] == files[..k];
  }

  /**
   * The file is in the index at its own place, and the reason it is refused for is the first
   * that holds: its kind, more than 10 MiB, ten files accepted before it, more than 50 MiB with
   * them. It is accepted when none does.
   */
  predicate Judged(entries: seq<Entry>, files: seq<File>, i: nat)
    requires i < |files| && i < |entries|
  {
    var count, bytes := AcceptedCount(entries[..i]), AcceptedBytes(entries[..i]);
    && entries[i].file == files[i]
    && match entries[i]
       case Refused(file, Unsupported) => file.kind == None
       case Refused(file, TooLarge) => file.kind != None && file.size > 10_485_760
       case Refused(file, TooMany) => file.kind != None && file.size <= 10_485_760 && count == 10
       case Refused(file, ShareTooLarge) =>
         file.kind != None && file.size <= 10_485_760 && count < 10 && bytes + file.size > 52_428_800
       case Accepted(file, _) =>
         file.kind != None && file.size <= 10_485_760 && count < 10 && bytes + file.size <= 52_428_800
  }

  lemma SoundGrows(id: Id, before: seq<Entry>, file: File)
    requires Sound(id, before)
    ensures Sound(id, before + [EntryFor(id, file, before)])
  {
    OneMoreEntry(before, EntryFor(id, file, before));
  }

  lemma JudgedStays(before: seq<Entry>, entry: Entry, shorter: seq<File>, files: seq<File>, i: nat)
    requires i < |before| == |shorter| && shorter <= files && Judged(before, shorter, i)
    ensures Judged(before + [entry], files, i)
  {
    assert (before + [entry])[..i] == before[..i];
  }

  /**
   * Every shared file is in the index once, in order, accepted or refused, and refused for
   * what it is, or because those accepted before it leave no room.
   */
  lemma {:induction false} EveryFileJudged(id: Id, files: seq<File>)
    ensures Sound(id, EntriesFor(id, files))
    ensures forall i :: 0 <= i < |files| ==> Judged(EntriesFor(id, files), files, i)
  {
    if files == [] {
    } else {
      var last := |files| - 1;
      var before := EntriesFor(id, files[..last]);
      var entry := EntryFor(id, files[last], before);
      EveryFileJudged(id, files[..last]);
      SoundGrows(id, before, files[last]);
      forall i | 0 <= i < |files| ensures Judged(before + [entry], files, i) {
        if i < last {
          JudgedStays(before, entry, files[..last], files, i);
        } else {
          assert (before + [entry])[..last] == before;
        }
      }
    }
  }

  // ----- Writes -----

  datatype Write = Write(key: Key, content: Content)

  function FileWrites(entries: seq<Entry>): seq<Write> {
    if entries == [] then []
    else
      var entry := entries[|entries| - 1];
      FileWrites(entries[..|entries| - 1]) + if entry.Accepted? then [Write(entry.key, BytesOf(entry.file))] else []
  }

  /** All the writes of one share, the index last. */
  function WritesOf(id: Id, now: int, entries: seq<Entry>): seq<Write> {
    FileWrites(entries) + [Write(IndexKey(id), Index(now, entries))]
  }

  function BytesWritten(writes: seq<Write>): int {
    if writes == [] then 0
    else
      var content := writes[|writes| - 1].content;
      BytesWritten(writes[..|writes| - 1]) + if content.Bytes? then content.size else 0
  }

  /** What is counted against the limits is what is written: as many files, and as many bytes. */
  lemma {:induction false} CountedIsWritten(entries: seq<Entry>)
    ensures |FileWrites(entries)| == AcceptedCount(entries)
    ensures BytesWritten(FileWrites(entries)) == AcceptedBytes(entries)
  {
    if entries == [] {
    } else {
      var init, last := entries[..|entries| - 1], entries[|entries| - 1];
      CountedIsWritten(init);
      if last.Accepted? {
        var write := Write(last.key, BytesOf(last.file));
        assert (FileWrites(init) + [write])[..|FileWrites(init)|] == FileWrites(init);
      } else {
        assert FileWrites(entries) == FileWrites(init);
      }
    }
  }

  function PutAll(cache: Cache, writes: seq<Write>): Cache {
    if writes == [] then cache
    else
      var write := writes[|writes| - 1];
      PutAll(cache, writes[..|writes| - 1])[write.key := write.content]
  }

  // ----- Purge -----

  /** The bundle has an index that has not expired. */
  predicate Live(cache: Cache, id: Id, now: int) {
    IndexKey(id) in cache && cache[IndexKey(id)].Index? && now - cache[IndexKey(id)].createdAt < TIME_TO_LIVE
  }

  /** A bundle lives for an hour, in milliseconds, from its index on. */
  lemma LiveExactly(cache: Cache, id: Id, now: int)
    ensures Live(cache, id, now) <==>
            IndexKey(id) in cache && cache[IndexKey(id)].Index? && now < cache[IndexKey(id)].createdAt + 3_600_000
  {}

  /** The bundle is live and the purge could read its index; one it cannot read it takes for dead. */
  predicate Spared(cache: Cache, id: Id, now: int, unread: set<Id>) {
    Live(cache, id, now) && id !in unread
  }

  /** What any purge leaves, complete or not: nothing new, and every live bundle whose index it read. */
  predicate Purged(before: Cache, after: Cache, now: int, unread: set<Id>) {
    && (forall key :: key in after ==> key in before && after[key] == before[key])
    && (forall key :: key in before && Spared(before, key.id, now, unread) ==> key in after)
  }

  /** What a purge leaves that runs to its end with every deletion done. */
  predicate PurgedFully(before: Cache, after: Cache, now: int, unread: set<Id>) {
    Purged(before, after, now, unread) && forall key :: key in after ==> Spared(before, key.id, now, unread)
  }

  /** A live bundle survives a purge that does all it has to exactly when its index could be read. */
  lemma LiveSurvivesExactly(before: Cache, after: Cache, now: int, unread: set<Id>, id: Id)
    requires PurgedFully(before, after, now, unread) && Live(before, id, now)
    ensures (forall key :: key in before && key.id == id ==> key in after) <==> id !in unread
    ensures id in unread ==> forall key :: key in after ==> key.id != id
  {
    assert IndexKey(id) in before && IndexKey(id).id == id;
  }

  /**
   * What one share leaves: a purge, then the writes in order up to where they stop. The
   * whole bundle is in when they all are. `clean` when the purge did all it had to.
   */
  ghost predicate Shared(before: Cache, after: Cache, id: Id, now: int, unread: set<Id>, files: seq<File>,
      written: nat, clean: bool) {
    var writes := WritesOf(id, now, EntriesFor(id, files));
    written <= |writes| &&
    exists mid ::
      Purged(before, mid, now, unread) && (clean ==> PurgedFully(before, mid, now, unread)) && after ==
          PutAll(mid, writes[..written])
  }

  predicate FreshId(cache: Cache, id: Id) { forall key :: key in cache ==> key.id != id }

  // ----- The worker -----

  class Worker {
    var cache: Cache

    constructor ()
      ensures cache == map[]
    {
      cache := map[];
    }

    /**
     * The indexes of `unread` cannot be read, `steps` deletions are reached before the worker
     * dies, and those of `kept` fail. The deletions of all bundles are under way together, so
     * they come in any order.
     */
    method Purge(now: int, unread: set<Id>, steps: nat, kept: set<Key>) returns (finished: bool)
      modifies this
      ensures Purged(old(cache), cache, now, unread)
      ensures finished ==>
                forall key :: key in old(cache) ==>
                                (key in cache <==> Spared(old(cache), key.id, now, unread) || key in kept)
      ensures finished && kept == {} ==> PurgedFully(old(cache), cache, now, unread)
      ensures steps >= |old(cache)| ==> finished
    {
      var ids: set<Id> := set key | key in cache :: key.id;
      var dead: set<Key> := {};
      while ids != {}
        invariant cache == old(cache)
        invariant forall key :: key in dead ==> key in cache && !Spared(cache, key.id, now, unread)
        invariant forall key :: key in cache && !Spared(cache, key.id, now, unread) ==> key.id in ids || key in dead
        decreases |ids|
      {
        var id :| id in ids;
        if id in unread || !Live(cache, id, now) {
          dead := dead + set key | key in cache && key.id == id;
        }
        ids := ids - {id};
      }
      var done := 0;
      DeadFit(cache, dead);
      while dead != {} && done < steps
        invariant Purged(old(cache), cache, now, unread)
        invariant forall key :: key in dead ==> key in old(cache) && !Spared(old(cache), key.id, now, unread)
        invariant forall key :: key in cache && !Spared(old(cache), key.id, now, unread) ==> key in dead || key in kept
        invariant forall key :: key in old(cache) && key in kept ==> key in cache
        invariant |dead| + done <= |old(cache)|
        decreases |dead|
      {
        var key :| key in dead;
        if key !in kept {
          cache := cache - {key};
        }
        dead := dead - {key};
        done := done + 1;
      }
      finished := dead == {};
    }

    /** The files one after another, each decided by what was accepted before it, until a write does not succeed. */
    method StoreFiles(id: Id, files: seq<File>, puts: nat) returns (entries: seq<Entry>, left: nat, stored: bool)
      modifies this
      ensures entries <= EntriesFor(id, files)
      ensures entries == EntriesFor(id, files[..|entries|])
      ensures cache == PutAll(old(cache), FileWrites(entries))
      ensures left + AcceptedCount(entries) == puts
      ensures if stored then |entries| == |files| else left == 0
    {
      ghost var before := cache;
      entries := [];
      left := puts;
      var accepted := 0;
      var totalBytes := 0;
      for position := 0 to |files|
        invariant entries == EntriesFor(id, files[..position])
        invariant accepted == AcceptedCount(entries) && totalBytes == AcceptedBytes(entries)
        invariant cache == PutAll(before, FileWrites(entries))
        invariant left + accepted == puts
      {
        var file := files[position];
        OneMoreFile(id, files, position);
        EntriesBegin(id, files, position);
        OneMoreEntry(entries, EntryFor(id, file, entries));
        var reason := ReasonFor(file, accepted, totalBytes);
        if reason.Some? {
          entries := entries + [Refused(file, reason.value)];
        } else {
          if left == 0 { return entries, left, false; }
          var key := FileKey(id, position);
          PutOne(before, FileWrites(entries), Write(key, BytesOf(file)));
          cache := cache[key := BytesOf(file)];
          left := left - 1;
          entries := entries + [Accepted(file, key)];
          accepted := accepted + 1;
          totalBytes := totalBytes + file.size;
        }
      }
      assert files[..|files|] == files;
      stored := true;
    }

    /** `puts` writes succeed before one is refused or the worker dies. */
    method StashShare(id: Id, now: int, files: seq<File>, unread: set<Id>, steps: nat, kept: set<Key>, puts: nat)
      returns (stashed: bool, ghost written: nat)
      requires FreshId(cache, id)
      modifies this
      ensures Shared(old(cache), cache, id, now, unread, files, written, stashed && kept == {})
      ensures stashed <==> written == |WritesOf(id, now, EntriesFor(id, files))|
      ensures steps >= |old(cache)| ==> written == Min(puts, |WritesOf(id, now, EntriesFor(id, files))|)
    {
      ghost var before := cache;
      var purged := Purge(now, unread, steps, kept);
      ghost var mid := cache;
      if !purged {
        NothingWritten(before, mid, id, now, unread, files);
        return false, 0;
      }
      var entries, left, stored := StoreFiles(id, files, puts);
      if !stored || left == 0 {
        StopsShort(before, mid, id, now, unread, files, entries);
        return false, |FileWrites(entries)|;
      }
      assert files[..|files|] == files;
      AllWritten(before, mid, id, now, unread, files, kept == {});
      cache := cache[IndexKey(id) := Index(now, entries)];
      return true, |WritesOf(id, now, entries)|;
    }
  }

  lemma DeadFit(cache: Cache, dead: set<Key>)
    requires forall key :: key in dead ==> key in cache
    ensures |dead| <= |cache|
  {
    Subset(dead, cache.Keys);
  }

  lemma {:induction false} Subset(a: set<Key>, b: set<Key>)
    requires a <= b
    ensures |a| <= |b|
  {
    if a == {} {
    } else {
      var key :| key in a;
      Subset(a - {key}, b - {key});
    }
  }

  lemma NothingWritten(before: Cache, mid: Cache, id: Id, now: int, unread: set<Id>, files: seq<File>)
    requires Purged(before, mid, now, unread)
    ensures Shared(before, mid, id, now, unread, files, 0, false)
  {
    assert mid == PutAll(mid, WritesOf(id, now, EntriesFor(id, files))[..0]);
  }

  /** The share stops among the files: what is written is a prefix of its writes, short of the index. */
  lemma StopsShort(before: Cache, mid: Cache, id: Id, now: int, unread: set<Id>, files: seq<File>, entries: seq<Entry>)
    requires Purged(before, mid, now, unread)
    requires |entries| <= |files| && entries == EntriesFor(id, files[..|entries|])
    ensures Shared(before, PutAll(mid, FileWrites(entries)), id, now, unread, files, |FileWrites(entries)|, false)
    ensures |FileWrites(entries)| == AcceptedCount(entries) < |WritesOf(id, now, EntriesFor(id, files))|
  {
    WritesBegin(id, now, files, |entries|);
    CountedIsWritten(entries);
    SharedSoFar(before, mid, PutAll(mid, FileWrites(entries)), id, now, unread, files, |FileWrites(entries)|, false);
  }

  lemma AllWritten(before: Cache, mid: Cache, id: Id, now: int, unread: set<Id>, files: seq<File>, clean: bool)
    requires Purged(before, mid, now, unread) && (clean ==> PurgedFully(before, mid, now, unread))
    ensures var entries := EntriesFor(id, files);
            && Shared(before, PutAll(mid, FileWrites(entries))[IndexKey(id) := Index(now, entries)], id, now, unread,
                files,
                      |WritesOf(id, now, entries)|, clean)
            && |WritesOf(id, now, entries)| == AcceptedCount(entries) + 1
  {
    var entries := EntriesFor(id, files);
    var writes := WritesOf(id, now, entries);
    CountedIsWritten(entries);
    PutOne(mid, FileWrites(entries), Write(IndexKey(id), Index(now, entries)));
    assert writes[..|writes|] == writes;
    SharedSoFar(before, mid, PutAll(mid, writes), id, now, unread, files, |writes|, clean);
  }

  lemma SharedSoFar(before: Cache, mid: Cache, after: Cache, id: Id, now: int, unread: set<Id>, files: seq<File>,
                    written: nat, clean: bool)
    requires Purged(before, mid, now, unread) && (clean ==> PurgedFully(before, mid, now, unread))
    requires written <= |WritesOf(id, now, EntriesFor(id, files))|
    requires after == PutAll(mid, WritesOf(id, now, EntriesFor(id, files))[..written])
    ensures Shared(before, after, id, now, unread, files, written, clean)
  {}

  lemma {:induction false} EntriesBegin(id: Id, files: seq<File>, k: nat)
    requires k <= |files|
    ensures EntriesFor(id, files[..k]) <= EntriesFor(id, files)
    decreases |files|
  {
    if k < |files| {
      EntriesBegin(id, files[..|files| - 1], k);
      assert files[..|files| - 1][..k] == files[..k];
    } else {
      assert files[..k] == files;
    }
  }

  lemma PutOne(cache: Cache, writes: seq<Write>, write: Write)
    ensures PutAll(cache, writes + [write]) == PutAll(cache, writes)[write.key := write.content]
  {
    assert (writes + [write])[..|writes|] == writes;
  }

  /** The writes of the first files are how the writes of all of them begin. */
  lemma {:induction false} FileWritesBegin(id: Id, files: seq<File>, k: nat)
    requires k <= |files|
    ensures FileWrites(EntriesFor(id, files[..k])) <= FileWrites(EntriesFor(id, files))
    decreases |files|
  {
    if k < |files| {
      var last := |files| - 1;
      FileWritesBegin(id, files[..last], k);
      assert files[..last][..k] == files[..k] && files[..last + 1] == files;
      OneMoreFile(id, files, last);
      var before := EntriesFor(id, files[..last]);
      OneMoreEntry(before, EntryFor(id, files[last], before));
    } else {
      assert files[..k] == files;
    }
  }

  lemma WritesBegin(id: Id, now: int, files: seq<File>, k: nat)
    requires k <= |files|
    ensures var writes, first := WritesOf(id, now, EntriesFor(id, files)), FileWrites(EntriesFor(id, files[..k]));
            |first| < |writes| && writes[..|first|] == first
  {
    FileWritesBegin(id, files, k);
  }

  // ----- What every run keeps -----

  /** The index was written by a share of some files. */
  ghost predicate FromShare(id: Id, entries: seq<Entry>) { exists files :: entries == EntriesFor(id, files) }

  ghost predicate AllStored(cache: Cache, id: Id, entries: seq<Entry>) {
    forall i :: 0 <= i < |entries| && entries[i].Accepted? ==>
                  FileKey(id, i) in cache &&
                  cache[FileKey(id, i)] == Bytes(entries[i].file.size, entries[i].file.data)
  }

  ghost predicate OnlyAccepted(cache: Cache, id: Id, entries: seq<Entry>) {
    forall p: nat :: FileKey(id, p) in cache ==> p < |entries| && entries[p].Accepted?
  }

  /** A bundle with an index, at a time `at` up to which purges have run; `lost` when one could not read it. */
  ghost predicate BundleOk(cache: Cache, id: Id, at: int, lost: bool)
    requires IndexKey(id) in cache
  {
    && cache[IndexKey(id)].Index?
    && FromShare(id, cache[IndexKey(id)].entries)
    && OnlyAccepted(cache, id, cache[IndexKey(id)].entries)
    && (at - cache[IndexKey(id)].createdAt < TIME_TO_LIVE && !lost ==>
        AllStored(cache, id, cache[IndexKey(id)].entries))
  }

  /** `lost` are the bundles whose index some purge could not read. */
  ghost predicate Inv(cache: Cache, at: int, lost: set<Id>) {
    forall id :: IndexKey(id) in cache ==> BundleOk(cache, id, at, id in lost)
  }

  lemma PurgeKeeps(before: Cache, after: Cache, at: int, now: int, lost: set<Id>, unread: set<Id>)
    requires Inv(before, at, lost) && at <= now && Purged(before, after, now, unread)
    ensures Inv(after, now, lost + unread)
  {
    forall id | IndexKey(id) in after ensures BundleOk(after, id, now, id in lost + unread) {
      assert BundleOk(before, id, at, id in lost);
    }
  }

  /** Writing file bytes of one bundle touches nothing else. */
  lemma {:induction false} PutElsewhere(cache: Cache, writes: seq<Write>, id: Id)
    requires forall w :: w in writes ==> w.key.FileKey? && w.key.id == id
    ensures forall key: Key :: key.IndexKey? || key.id != id ==>
                            (key in PutAll(cache, writes) <==> key in cache) &&
                            (key in cache ==> PutAll(cache, writes)[key] == cache[key])
  {
    if writes == [] {
    } else {
      assert forall w :: w in writes[..|writes| - 1] ==> w in writes;
      PutElsewhere(cache, writes[..|writes| - 1], id);
      assert writes[|writes| - 1] in writes;
    }
  }

  lemma {:induction false} FileWritesAreFiles(id: Id, entries: seq<Entry>)
    requires Sound(id, entries)
    ensures forall w :: w in FileWrites(entries) ==> w.key.FileKey? && w.key.id == id
  {
    if entries == [] {
    } else {
      SoundPrefix(id, entries);
      FileWritesAreFiles(id, entries[..|entries| - 1]);
    }
  }

  lemma SoundPrefix(id: Id, entries: seq<Entry>)
    requires Sound(id, entries) && entries != []
    ensures Sound(id, entries[..|entries| - 1])
  {}

  lemma AcceptedPut(stored: Cache, id: Id, entries: seq<Entry>, entry: Entry)
    requires AllStored(stored, id, entries) && OnlyAccepted(stored, id, entries)
    requires entry.Accepted? && entry.key == FileKey(id, |entries|)
    ensures AllStored(stored[entry.key := BytesOf(entry.file)], id, entries + [entry])
    ensures OnlyAccepted(stored[entry.key := BytesOf(entry.file)], id, entries + [entry])
  {}

  /** All file writes of a share done: exactly the accepted files are there. */
  lemma {:induction false} FilesPut(cache: Cache, id: Id, entries: seq<Entry>)
    requires Sound(id, entries) && FreshId(cache, id)
    ensures AllStored(PutAll(cache, FileWrites(entries)), id, entries)
    ensures OnlyAccepted(PutAll(cache, FileWrites(entries)), id, entries)
  {
    if entries == [] {
    } else {
      var last := |entries| - 1;
      var shorter := entries[..last];
      var entry := entries[last];
      SoundPrefix(id, entries);
      FilesPut(cache, id, shorter);
      assert entries == shorter + [entry];
      OneMoreEntry(shorter, entry);
      if entry.Accepted? {
        PutOne(cache, FileWrites(shorter), Write(entry.key, BytesOf(entry.file)));
        AcceptedPut(PutAll(cache, FileWrites(shorter)), id, shorter, entry);
      }
    }
  }

  /** A share that stops before its index leaves every visible bundle as it was. */
  lemma PartialShareKeeps(mid: Cache, after: Cache, id: Id, entries: seq<Entry>, written: nat, now: int, lost: set<Id>)
    requires Inv(mid, now, lost) && FreshId(mid, id) && Sound(id, entries)
    requires written <= |FileWrites(entries)| && after == PutAll(mid, FileWrites(entries)[..written])
    ensures Inv(after, now, lost)
  {
    FileWritesAreFiles(id, entries);
    PutElsewhere(mid, FileWrites(entries)[..written], id);
    forall other | IndexKey(other) in after ensures BundleOk(after, other, now, other in lost) {
      assert IndexKey(other) in mid && other != id;
      assert BundleOk(mid, other, now, other in lost);
    }
  }

  lemma WholeShareKeeps(mid: Cache, after: Cache, id: Id, entries: seq<Entry>, now: int, lost: set<Id>)
    requires Inv(mid, now, lost) && FreshId(mid, id) && Sound(id, entries) && FromShare(id, entries)
    requires after == PutAll(mid, FileWrites(entries))[IndexKey(id) := Index(now, entries)]
    ensures Inv(after, now, lost) && Live(after, id, now)
  {
    var stored := PutAll(mid, FileWrites(entries));
    FilesPut(mid, id, entries);
    FileWritesAreFiles(id, entries);
    PutElsewhere(mid, FileWrites(entries), id);
    forall other | IndexKey(other) in after ensures BundleOk(after, other, now, other in lost) {
      if other == id {
        assert forall p: nat :: FileKey(id, p) in after <==> FileKey(id, p) in stored;
      } else {
        assert IndexKey(other) in mid;
        assert BundleOk(mid, other, now, other in lost);
      }
    }
  }

  /** A share keeps it wherever it stops, and a share that ran to its end is visible. */
  lemma ShareKeeps(before: Cache, after: Cache, id: Id, at: int, now: int, lost: set<Id>, unread: set<Id>,
                   files: seq<File>, written: nat, clean: bool)
    requires Inv(before, at, lost) && at <= now && FreshId(before, id)
    requires Shared(before, after, id, now, unread, files, written, clean)
    ensures Inv(after, now, lost + unread)
    ensures Live(after, id, now) <==> written == |WritesOf(id, now, EntriesFor(id, files))|
  {
    var entries := EntriesFor(id, files);
    var writes := WritesOf(id, now, entries);
    var mid :| Purged(before, mid, now, unread) && after == PutAll(mid, writes[..written]);
    PurgeKeeps(before, mid, at, now, lost, unread);
    EveryFileJudged(id, files);
    if written < |writes| {
      assert writes[..written] == FileWrites(entries)[..written];
      PartialShareKeeps(mid, after, id, entries, written, now, lost + unread);
      FileWritesAreFiles(id, entries);
      PutElsewhere(mid, FileWrites(entries)[..written], id);
    } else {
      assert writes[..written] == writes;
      PutOne(mid, FileWrites(entries), Write(IndexKey(id), Index(now, entries)));
      assert FromShare(id, entries);
      WholeShareKeeps(mid, after, id, entries, now, lost + unread);
    }
  }

  // ----- Runs -----

  /** `unread` are the bundles whose index the purge of the event cannot read. */
  datatype Event =
    | PurgeAt(now: int, unread: set<Id>)
    | ShareAt(now: int, unread: set<Id>, id: Id, files: seq<File>, written: nat)

  /** One purge or share, complete or cut short. */
  ghost predicate Step(before: Cache, event: Event, after: Cache) {
    match event
    case PurgeAt(now, unread) => Purged(before, after, now, unread)
    case ShareAt(now, unread, id, files, written) =>
      FreshId(before, id) && Shared(before, after, id, now, unread, files, written, false)
  }

  /** The states of a run from an empty stash, under a clock that does not go back. */
  ghost predicate IsRun(states: seq<Cache>, events: seq<Event>) {
    && |states| == |events| + 1 && states[0] == map[]
    && (forall i :: 0 <= i < |events| ==> Step(states[i], events[i], states[i + 1]))
    && (forall i, j :: 0 <= i < j < |events| ==> events[i].now <= events[j].now)
  }

  /** The bundles whose index one of the first `k` events could not read. */
  ghost function Lost(events: seq<Event>, k: nat): (lost: set<Id>)
    requires k <= |events|
    ensures forall id :: id in lost <==> exists i :: 0 <= i < k && id in events[i].unread
  {
    if k == 0 then {} else Lost(events, k - 1) + events[k - 1].unread
  }

  lemma {:induction false} RunKeeps(states: seq<Cache>, events: seq<Event>, k: nat)
    requires IsRun(states, events) && 0 < k < |states|
    ensures Inv(states[k], events[k - 1].now, Lost(events, k))
  {
    var before, event, after := states[k - 1], events[k - 1], states[k];
    assert Step(before, event, after);
    if k == 1 {
    } else {
      RunKeeps(states, events, k - 1);
    }
    var at := if k > 1 then events[k - 2].now else event.now;
    var lost := Lost(events, k - 1);
    assert Inv(before, at, lost);
    match event
    case PurgeAt(now, unread) => PurgeKeeps(before, after, at, now, lost, unread);
    case ShareAt(now, unread, id, files, written) => ShareKeeps(before, after, id, at, now, lost, unread, files,
        written, false);
  }

  /**
   * Over any run, at any later time: an unexpired index that every purge could read lists
   * every file of its share once, within the limits, and the bytes of each accepted file
   * are stored.
   */
  lemma SerialIsWhole(states: seq<Cache>, events: seq<Event>, k: nat, id: Id, now: int)
    requires IsRun(states, events) && k < |states| && (k > 0 ==> events[k - 1].now <= now)
    requires Live(states[k], id, now) && forall i :: 0 <= i < k ==> id !in events[i].unread
    ensures var entries := states[k][IndexKey(id)].entries;
            && FromShare(id, entries) && Sound(id, entries)
            && AllStored(states[k], id, entries) && OnlyAccepted(states[k], id, entries)
  {
    RunKeeps(states, events, k);
    var entries := states[k][IndexKey(id)].entries;
    assert BundleOk(states[k], id, events[k - 1].now, id in Lost(events, k));
    var files :| entries == EntriesFor(id, files);
    EveryFileJudged(id, files);
  }

  /** The keys of a bundle: its index and one for each accepted file. */
  ghost predicate IsBundleKey(cache: Cache, id: Id, key: Key)
    requires IndexKey(id) in cache && cache[IndexKey(id)].Index?
  {
    var entries := cache[IndexKey(id)].entries;
    key == IndexKey(id) || exists i :: 0 <= i < |entries| && entries[i].Accepted? && key == FileKey(id, i)
  }

  /**
   * After a purge that does all it has to, exactly the keys of the unexpired bundles whose
   * index it read are left, but for bytes an earlier purge took from a bundle it could not
   * read.
   */
  lemma PurgeIsExact(before: Cache, after: Cache, at: int, now: int, lost: set<Id>, unread: set<Id>)
    requires Inv(before, at, lost) && at <= now && PurgedFully(before, after, now, unread)
    ensures forall key :: key in after ==> Spared(before, key.id, now, unread) && IsBundleKey(before, key.id, key)
    ensures forall key: Key ::
              key.id !in lost && Spared(before, key.id, now, unread) && IsBundleKey(before, key.id, key) ==>
                key in after
    ensures forall key :: key in after ==> after[key] == before[key]
  {
    forall key: Key
      ensures key in after ==> Spared(before, key.id, now, unread) && IsBundleKey(before, key.id, key)
      ensures key.id !in lost && Spared(before, key.id, now, unread) && IsBundleKey(before, key.id, key) ==>
              key in after
    {
      if Spared(before, key.id, now, unread) {
        assert BundleOk(before, key.id, at, key.id in lost);
      }
    }
  }

  /**
   * Unexpired is needed: a purge that dies on its way through an expired bundle can leave
   * the index behind with the bytes gone.
   */
  lemma ExpiredMayBeHollow(id: Id, file: File)
    requires file.kind.Some? && file.size <= MAX_FILE_BYTES
    ensures IsRun([map[], WholeOf(id, file), HollowOf(id, file)],
            [ShareAt(0, {}, id, [file], 2), PurgeAt(TIME_TO_LIVE, {})])
    ensures IsHollow(HollowOf(id, file), id) && !Live(HollowOf(id, file), id, TIME_TO_LIVE)
  {
    HollowSteps(id, file, TIME_TO_LIVE, {});
    TwoSteps(WholeOf(id, file), HollowOf(id, file), ShareAt(0, {}, id, [file], 2), PurgeAt(TIME_TO_LIVE, {}));
  }

  /**
   * Read is needed: a purge that cannot read the index of a live bundle deletes it, and one
   * that dies, or whose last deletion fails, leaves an unexpired index with the bytes gone.
   */
  lemma UnreadMayBeHollow(id: Id, file: File, now: int)
    requires file.kind.Some? && file.size <= MAX_FILE_BYTES && 0 <= now < TIME_TO_LIVE
    ensures IsRun([map[], WholeOf(id, file), HollowOf(id, file)], [ShareAt(0, {}, id, [file], 2), PurgeAt(now, {id})])
    ensures IsHollow(HollowOf(id, file), id) && Live(HollowOf(id, file), id, now)
  {
    HollowSteps(id, file, now, {id});
    TwoSteps(WholeOf(id, file), HollowOf(id, file), ShareAt(0, {}, id, [file], 2), PurgeAt(now, {id}));
  }

  lemma TwoSteps(middle: Cache, last: Cache, first: Event, second: Event)
    requires Step(map[], first, middle) && Step(middle, second, last) && first.now <= second.now
    ensures IsRun([map[], middle, last], [first, second])
  {}

  function WholeOf(id: Id, file: File): Cache {
    map[FileKey(id, 0) := BytesOf(file)][IndexKey(id) := Index(0, [Accepted(file, FileKey(id, 0))])]
  }

  function HollowOf(id: Id, file: File): Cache { map[IndexKey(id) := Index(0, [Accepted(file, FileKey(id, 0))])] }

  lemma HollowSteps(id: Id, file: File, now: int, unread: set<Id>)
    requires file.kind.Some? && file.size <= MAX_FILE_BYTES
    requires now >= TIME_TO_LIVE || id in unread
    ensures Step(map[], ShareAt(0, {}, id, [file], 2), WholeOf(id, file))
    ensures Step(WholeOf(id, file), PurgeAt(now, unread), HollowOf(id, file))
    ensures IsHollow(HollowOf(id, file), id)
  {
    OneFileWrites(id, file);
    assert Purged(map[], map[], 0, {});
    assert Shared(map[], WholeOf(id, file), id, 0, {}, [file], 2, false);
    var entries := [Accepted(file, FileKey(id, 0))];
    assert entries[0].Accepted?;
  }

  /** An index is there, and bytes it lists are not. */
  ghost predicate IsHollow(cache: Cache, id: Id) {
    IndexKey(id) in cache && cache[IndexKey(id)].Index? && !AllStored(cache, id, cache[IndexKey(id)].entries)
  }

  lemma OneFileWrites(id: Id, file: File)
    requires file.kind.Some? && file.size <= MAX_FILE_BYTES
    ensures EntriesFor(id, [file]) == [Accepted(file, FileKey(id, 0))]
    ensures WritesOf(id, 0, EntriesFor(id, [file])) ==
            [Write(FileKey(id, 0), BytesOf(file)), Write(IndexKey(id), Index(0, EntriesFor(id, [file])))]
    ensures var writes := WritesOf(id, 0, EntriesFor(id, [file]));
            PutAll(map[], writes[..2]) == map[FileKey(id, 0) := BytesOf(file)][IndexKey(id) := Index(0,
                EntriesFor(id, [file]))]
  {
    var entries := EntriesFor(id, [file]);
    assert [file][..0] == [] && entries[..0] == [];
    var first, second := Write(FileKey(id, 0), BytesOf(file)), Write(IndexKey(id), Index(0, entries));
    var writes := WritesOf(id, 0, entries);
    assert entries == [] + [entries[0]];
    OneMoreEntry([], entries[0]);
    assert FileWrites(entries) == [first];
    assert writes == [first, second];
    assert writes[..2] == [first] + [second] && [first] == [] + [first];
    PutOne(map[], [first], second);
    PutOne(map[], [], first);
  }
}
