/** The whole cycle: scan, back up, rotate the tenant key, restore. */
module RoundTrip {
  import opened Base
  import opened Primitives
  import opened Codec
  import opened Encrypt
  import opened Sorting
  import opened Paths
  import opened PackStore
  import opened Merkle
  import opened Graph
  import opened Closure
  import opened Snapshots
  import opened Transfer
  import opened Uploads
  import opened Backup
  import opened Runs
  import opened Download
  import opened Disks
  import opened Restore
  import opened EndToEnd
  import opened Incremental
  import opened OwnKey
  import Rotation

  // ----- One honest server

  /** One region for every hash that is there. */
  function HonestAnswer(store: Store, hs: seq<Str>): Response {
    Response(FlatMap((h: Str) => Answer(store, h).packs, hs), [])
  }

  function HonestAnswers(store: Store): Answers {
    (hs: seq<Str>) => Ok(HonestAnswer(store, hs))
  }

  lemma HonestAnswersHonest(w: World, c: Contents)
    requires Represents(w, c)
    ensures Honest(c.store, HonestAnswers(c.store))
  {
    var answers := HonestAnswers(c.store);
    forall hs
      ensures HonestTo(c.store, answers, hs)
    {
      AnswersAreHonest(w, c, hs);
    }
  }

  lemma AnswersAreHonest(w: World, c: Contents, hs: seq<Str>)
    requires Represents(w, c)
    ensures HonestResponse(c.store, hs, HonestAnswer(c.store, hs))
  {
    var store := c.store;
    var f := (h: Str) => Answer(store, h).packs;
    forall e | e in FlatMap(f, hs)
      ensures HonestEntry(store, hs, e)
    {
      FlatMapHas(f, hs, e);
      var h :| h in hs && e in f(h);
      RegionOfEntry(w, c, h);
      assert e == EntryOf(store, h);
    }
    forall h | h in hs && h in store.index
      ensures h in PackHashes(HonestAnswer(store, hs).packs)
    {
      var e := EntryOf(store, h);
      assert e in f(h);
      FlatMapHas(f, hs, e);
      assert MetaOf(store, h) in e.chunks;
    }
  }

  // ----- Restoring a snapshot

  /** The key to restore a snapshot with: none if it is not encrypted, or else its own, which must unwrap. */
  function LoadKey(w: World, tmk: Option<Bytes>, snapshot: Snapshot): Result<Option<Bytes>, Fault> {
    if snapshot.wrapped == [] then Ok(None)
    else if tmk.None? then Err(Missing)
    else
      match UnwrapDek(w, tmk.value, snapshot.wrapped)
      case Ok(dek) => Ok(Some(dek))
      case Err(e) => Err(e)
  }

  /** Loads the snapshot's key and restores with it, with verification; without its key nothing is touched. */
  method RestoreSnapshot(w: World, f: Format, tmk: Option<Bytes>, snapshot: Snapshot, store: Store, answers: Answers,
                         targetDir: Str, depth: nat, concurrency: int, fs: FileSystem)
    returns (fault: Option<Fault>, ghost a: Attempt)
    requires Honest(store, answers) && IsDisk(fs.Now())
    modifies fs
    ensures IsDisk(fs.Now()) && SnapshotOutcome(w, f, tmk, snapshot, store, answers, a)
    ensures a == Attempt(targetDir, depth, fs.reliable, old(fs.Now()), fs.Now(), fault, a.cache, a.rs)
  {
    var key := LoadKey(w, tmk, snapshot);
    if key.Err? {
      a := Attempt(targetDir, depth, fs.reliable, fs.Now(), fs.Now(), Some(key.error), map[], []);
      return Some(key.error), a;
    }
    var d := Reader(w, f, key.value, true);
    HonestFinite(d, store, answers);
    fault, a := PerformRestore(d, answers, store.index.Keys, snapshot.root, targetDir, depth, concurrency, fs);
  }

  ghost predicate SnapshotOutcome(w: World, f: Format, tmk: Option<Bytes>, snapshot: Snapshot, store: Store,
                                  answers: Answers, a: Attempt)
  {
    match LoadKey(w, tmk, snapshot)
    case Err(e) => a.fault == Some(e) && a.after == a.before
    case Ok(dek) => Outcome(Reader(w, f, dek, true), store, answers, snapshot.root, a)
  }

  /** The outcome of a restore from a server with this store. */
  ghost predicate Outcome(d: Reader, store: Store, answers: Answers, root: Str, a: Attempt) {
    && Finite(TreeFetch(d, answers), store.index.Keys)
    && RestoreOutcome(d, answers, store.index.Keys, root, a)
  }

  // ----- The snapshot of a run

  function LastSnapshot(r: Run): Snapshot
    requires r.after.snapshots != []
  {
    r.after.snapshots[|r.after.snapshots| - 1]
  }

  /** What a run records is the root of its scan, with a wrapping that gives its data key back. */
  lemma OwnKeyLoads(w: World, f: Format, r: Run)
    requires IsRecorded(w, f, r) && Base64Law(w)
    ensures r.after.snapshots != [] && LastSnapshot(r).root == JobRoot(r.j)
    ensures LoadKey(w, r.q.tmk, LastSnapshot(r)) == Ok(r.q.s.dek)
  {
    if r.q.s.dek.Some? {
      assert GoodKey(r.q.tmk.value);
      UnwrapWrap(w, r.q.tmk.value, r.q.nonce, r.q.s.dek.value);
    }
  }

  /** A key that loads is the one that a snapshot is read under as a parent. */
  lemma LoadedIsParentKey(w: World, tmk: Option<Bytes>, snapshot: Snapshot)
    ensures LoadKey(w, tmk, snapshot).Ok? ==> LoadKey(w, tmk, snapshot) == Ok(ParentKey(w, tmk, snapshot))
    ensures LoadKey(w, tmk, snapshot).Err? ==> ParentKey(w, tmk, snapshot) == None
  {
  }

  /** As a parent, what a run has recorded is read under the run's own data key, or none if it has none. */
  lemma OwnParentKey(w: World, f: Format, r: Run)
    requires IsRecorded(w, f, r) && Base64Law(w)
    ensures r.after.snapshots != [] && ParentKey(w, r.q.tmk, LastSnapshot(r)) == r.q.s.dek
  {
    OwnKeyLoads(w, f, r);
    LoadedIsParentKey(w, r.q.tmk, LastSnapshot(r));
  }

  /**
    A run that is as good as a full backup: its filter was right, and so were the index it used and the
    table it made of it.
   */
  ghost predicate WentWell(w: World, f: Format, r: Run)
    requires IsRun(w, f, r)
  {
    && FilterRight(r.j, r.q.bloom, r.before.contents.objects)
    && IndexHere(r.j.prev, r.before.contents.objects) && TableTrue(r.j)
  }

  /** What it has recorded is backed up, then and ever after. */
  lemma WentWellIsBackedUp(w: World, f: Format, r: Run, c: Contents)
    requires IsRecorded(w, f, r) && WentWell(w, f, r)
    requires Represents(w, c) && Extends(r.after.contents.objects, c.objects)
    ensures LawfulReader(OwnReader(r)) && BackedUp(OwnReader(r), JobParams(r.j), r.q.es, c)
    ensures JobRoot(r.j) == ScanRoot(f, JobParams(r.j), r.q.es)
  {
    RecordedExactly(w, f, r);
    ClosedGrows(f, r.after.contents.objects, c.objects, JobRoot(r.j));
  }

  /**
    And every entry of its scan that can have a node is described in full by just one, in the tree that the names of its
    directory lead to from the recorded root.
   */
  lemma RecordedIsDescribed(w: World, f: Format, r: Run, c: Contents, e: FileEntry) returns (edges: seq<Edge>, i: nat)
    requires IsRecorded(w, f, r) && WentWell(w, f, r) && Base64Law(w) && e in r.q.es && Noded(r.q.es, e)
    requires Represents(w, c) && Extends(r.after.contents.objects, c.objects)
    ensures r.after.snapshots != [] && IsChain(FetchFrom(f, c.objects), LastSnapshot(r).root, edges)
    ensures PathTo(edges) == ParentDir(e.rel) && TreeIn(f, c.objects, End(LastSnapshot(r).root, edges)).Ok?
    ensures var nodes := NodesIn(TreeIn(f, c.objects, End(LastSnapshot(r).root, edges)).value);
            && i < |nodes| && Describes(f, r.q.es, JobTable(r.j), e, nodes[i])
            && forall k :: 0 <= k < |nodes| && nodes[k].name == BaseName(e.rel) ==> k == i
  {
    WentWellIsBackedUp(w, f, r, c);
    BackupIsThere(OwnReader(r), JobParams(r.j), r.q.es, c);
    OwnKeyLoads(w, f, r);
    edges, i := EntryInStore(f, r.q.es, JobTable(r.j), c.objects, e);
  }

  /**
    Restoring what a run has recorded, from an honest server that holds at least what there was after the
    run: what gets written is right; and everything is restored exactly if it can be restored from there.
   */
  ghost predicate RestoredExactly(d: Reader, r: Run, c: Contents, a: Attempt)
    requires Fit(r.j) && Proper(r.q.es)
  {
    && (a.fault.None? ==> OnlyRestored(a.targetDir, r.q.es, a.before.files, a.after.files))
    && (a.fault.None? && AllRestored(a.targetDir, r.q.es, a.after.files) <==> Restorable(d, JobParams(r.j), r.q.es, c))
  }

  lemma RunIsRestored(w: World, f: Format, r: Run, c: Contents, answers: Answers, a: Attempt)
    requires IsRecorded(w, f, r) && WentWell(w, f, r)
    requires Represents(w, c) && Extends(r.after.contents.objects, c.objects) && KeysApart(w, f, c, r.q.s.dek)
    requires Honest(c.store, answers) && Fair(a, r.q.es)
    requires Outcome(OwnReader(r), c.store, answers, JobRoot(r.j), a)
    ensures RestoredExactly(OwnReader(r), r, c, a)
  {
    WentWellIsBackedUp(w, f, r, c);
    RestoreOfBackup(OwnReader(r), JobParams(r.j), r.q.es, c, answers, a);
  }

  // ----- The cycle

  /** One backup, by any client, with any parent; then its restore from what the server holds. */
  method BackupAndRestore(q: Request, server: Server, parent: Option<Snapshot>, targetDir: Str, concurrency: int,
                          fs: FileSystem)
    returns (backup: Result<Snapshot, Fault>, fault: Option<Fault>, ghost run: Run, ghost a: Attempt)
    requires FitRequest(q.s.w, q.s.format, q) && Base64Law(q.s.w) && server.Sound(q.s.w) && IsDisk(fs.Now())
    requires parent.Some? ==> parent.value in server.snapshots
    modifies server, fs
    ensures IsRun(q.s.w, q.s.format, run) && run.q == q && run.parent == parent
    ensures run.before == old(StateOf(server)) && run.after == StateOf(server)
    ensures a == Attempt(targetDir, q.depth, fs.reliable, old(fs.Now()), fs.Now(), fault, a.cache, a.rs)
    ensures backup.Ok? ==> IsRecorded(q.s.w, q.s.format, run) && LastSnapshot(run) == backup.value
    ensures backup.Ok? && Fair(a, q.es) && WentWell(q.s.w, q.s.format, run) &&
            KeysApart(q.s.w, q.s.format, server.Now(), q.s.dek) ==>
      RestoredExactly(OwnReader(run), run, server.Now(), a)
    ensures server.reliable && Willing(q) ==>
      && (backup.Ok? <==> q.es != [])
      && run.j.prev == OwnIndex(q, run.before.contents.store, parent)
      && (run.j.prev.Some? ==> run.parentKey == ParentKey(q.s.w, q.tmk, parent.value))
  {
    fault := None;
    a := Attempt(targetDir, q.depth, fs.reliable, fs.Now(), fs.Now(), None, map[], []);
    backup, run := PerformBackup(q, server, parent);
    if backup.Err? {
      return;
    }
    var w, f, answers := q.s.w, q.s.format, HonestAnswers(server.store);
    HonestAnswersHonest(w, server.Now());
    OwnKeyLoads(w, f, run);
    fault, a := RestoreSnapshot(w, f, q.tmk, backup.value, server.store, answers, targetDir, q.depth, concurrency, fs);
    if Fair(a, q.es) && WentWell(w, f, run) && KeysApart(w, f, server.Now(), q.s.dek) {
      RunIsRestored(w, f, run, server.Now(), answers, a);
    }
  }

  /** The first backup to a new server: nothing is there, nothing is claimed, and nothing stands in the way. */
  ghost predicate AtFirst(q: Request, targetDir: Str, fs: FileSystem)
    reads fs
  {
    && Willing(q) && q.es != [] && (forall h :: !q.bloom(h))
    && fs.reliable && Vacant(targetDir, fs.Now()) && Merkle.Longest(q.es) < q.depth
  }

  /** All files are back, and nothing else but what was there. */
  ghost predicate AllIsBack(q: Request, targetDir: Str, before: Disk, after: Disk) {
    AllRestored(targetDir, q.es, after.files) && OnlyRestored(targetDir, q.es, before.files, after.files)
  }

  /** A scan of which a first backup can be restored. */
  ghost predicate FirstRestorable(w: World, f: Format, q: Request)
    requires FitRequest(w, f, q)
  {
    var j := Job(q.s, q.es, None);
    && Portable(q.es) && FileDirsDiffer(f, q.es, JobTable(j)) && ChunksKeep(q.s, JobParams(j), q.es)
    && (q.s.dek.Some? ==> ScanData(w, JobParams(j), q.es) !! JobTrees(j))
  }

  /** What a first backup has recorded, and when it can be restored. */
  lemma FirstIsGood(w: World, f: Format, r: Run)
    requires IsRecorded(w, f, r) && Base64Law(w) && r.before.contents == EMPTY && r.j.prev.None?
    requires forall h :: !r.q.bloom(h)
    ensures WentWell(w, f, r) && LastSnapshot(r).root == ScanRoot(f, JobParams(Job(r.q.s, r.q.es, None)), r.q.es)
    ensures LoadKey(w, r.q.tmk, LastSnapshot(r)) == Ok(r.q.s.dek)
    ensures Closed(f, r.after.contents.objects, LastSnapshot(r).root)
    ensures OwnRestorable(w, f, r) <==> FirstRestorable(w, f, r.q)
  {
    OwnKeyLoads(w, f, r);
    RecordedExactly(w, f, r);
    FirstBackupExactly(w, f, r);
  }

  lemma OwnKeyUnwraps(w: World, tmk: Option<Bytes>, snapshot: Snapshot, dek: Bytes)
    requires LoadKey(w, tmk, snapshot) == Ok(Some(dek))
    ensures tmk.Some? && UnwrapDek(w, tmk.value, snapshot.wrapped) == Ok(dek)
  {
  }

  /**
    Backs a scan up to a new server that answers every request, encrypted or not, and restores it to a reliable disk.
    The backup always succeeds; and the restore succeeds with all files exactly if the scan alone allows it.
   */
  method BackUpFirst(q: Request, targetDir: Str, concurrency: int, fs: FileSystem)
    returns (server: Server, snapshot: Snapshot, fault: Option<Fault>)
    requires FitRequest(q.s.w, q.s.format, q) && Base64Law(q.s.w) && IsDisk(fs.Now()) && AtFirst(q, targetDir, fs)
    modifies fs
    ensures fresh(server) && server.Sound(q.s.w) && server.snapshots == [snapshot]
    ensures q.s.dek.Some? ==> q.tmk.Some? && UnwrapDek(q.s.w, q.tmk.value, snapshot.wrapped) == Ok(q.s.dek.value)
    ensures snapshot.root == ScanRoot(q.s.format, JobParams(Job(q.s, q.es, None)), q.es)
    ensures Closed(q.s.format, server.objects, snapshot.root)
    ensures q.s.dek.None? || KeysApart(q.s.w, q.s.format, server.Now(), q.s.dek) ==>
      (fault.None? && AllIsBack(q, targetDir, old(fs.Now()), fs.Now()) <==> FirstRestorable(q.s.w, q.s.format, q))
  {
    server := new Server(true);
    var backup;
    ghost var run, a;
    backup, fault, run, a := BackupAndRestore(q, server, None, targetDir, concurrency, fs);
    snapshot := backup.value;
    FirstIsGood(q.s.w, q.s.format, run);
    if q.s.dek.None? {
      PlainIsApart(q.s.w, q.s.format, server.Now());
    } else {
      OwnKeyUnwraps(q.s.w, q.tmk, snapshot, q.s.dek.value);
    }
  }

  // ----- In the scan's own terms

  /**
    An encrypted snapshot with a new key, restored with that key: all of it comes back exactly if its scan, its parent's
    index and its filter were such that it is self-contained, and the scan is one that a restore brings back at all.
   */
  lemma OwnKeyIsRestored(w: World, f: Format, r: Run, answers: Answers, a: Attempt)
    requires IsRecorded(w, f, r) && WentWell(w, f, r) && r.q.s.dek.Some? && FreshKey(r)
    requires KeysApart(w, f, r.after.contents, r.q.s.dek)
    requires Honest(r.after.contents.store, answers) && Fair(a, r.q.es)
    requires Outcome(OwnReader(r), r.after.contents.store, answers, JobRoot(r.j), a)
    ensures a.fault.None? && AllRestored(a.targetDir, r.q.es, a.after.files) <==>
      && Portable(r.q.es) && FileDirsDiffer(f, r.q.es, JobTable(r.j)) && ChunksKeep(r.q.s, JobParams(r.j), r.q.es)
      && SelfContained(r.j, r.q.bloom)
  {
    RunIsRestored(w, f, r, r.after.contents, answers, a);
    OwnKeyExactly(w, f, r);
  }

  /** The first backup to a server: what is restored of it is decided by the scan alone. */
  lemma FirstIsRestored(w: World, f: Format, r: Run, answers: Answers, a: Attempt)
    requires IsRecorded(w, f, r) && r.before.contents == EMPTY && r.j.prev.None? && FilterRight(r.j, r.q.bloom, map[])
    requires r.q.s.dek.Some? ==> KeysApart(w, f, r.after.contents, r.q.s.dek)
    requires Honest(r.after.contents.store, answers) && Fair(a, r.q.es)
    requires Outcome(OwnReader(r), r.after.contents.store, answers, JobRoot(r.j), a)
    ensures a.fault.None? ==> OnlyRestored(a.targetDir, r.q.es, a.before.files, a.after.files)
    ensures a.fault.None? && AllRestored(a.targetDir, r.q.es, a.after.files) <==>
      && Portable(r.q.es) && FileDirsDiffer(f, r.q.es, JobTable(r.j)) && ChunksKeep(r.q.s, JobParams(r.j), r.q.es)
      && (r.q.s.dek.Some? ==> ScanData(w, JobParams(r.j), r.q.es) !! JobTrees(r.j))
  {
    if r.q.s.dek.None? {
      PlainIsApart(w, f, r.after.contents);
    }
    RunIsRestored(w, f, r, r.after.contents, answers, a);
    FirstBackupExactly(w, f, r);
  }

  /**
    If the filter claims a tree of an encrypted backup, with a key that is new, nothing of it is
    restored, though all of it is there.
   */
  lemma ClaimedTreeStops(w: World, f: Format, r: Run, h: Str, answers: Answers, a: Attempt)
    requires IsRecorded(w, f, r) && WentWell(w, f, r) && r.q.s.dek.Some? && FreshKey(r) && h in JobTrees(r.j)
    requires r.q.bloom(h) && KeysApart(w, f, r.after.contents, r.q.s.dek)
    requires Honest(r.after.contents.store, answers)
    requires Outcome(OwnReader(r), r.after.contents.store, answers, JobRoot(r.j), a)
    ensures a.fault.Some? && a.after == a.before
  {
    WentWellIsBackedUp(w, f, r, r.after.contents);
    OwnTreesOpen(w, f, r);
    ShutTreeStops(OwnReader(r), JobParams(r.j), r.q.es, r.after.contents, answers, a);
  }

  // ----- Rotation in between

  /** The snapshot's wrapping is one of those that are rotated. */
  ghost predicate IsRotated(r: Run, keys: Rotation.Keys, deks: map<Rotation.Id, Bytes>,
                            wrappings: map<Rotation.Id, Str>, id: Rotation.Id) {
    && r.q.tmk == Some(keys.before) && r.after.snapshots != [] && id in wrappings
      && wrappings[id] == LastSnapshot(r).wrapped
  }

  /** The snapshot as it is on the server after some events of the rotation. */
  ghost function Rewrapped(w: World, r: Run, keys: Rotation.Keys, wrappings: map<Rotation.Id, Str>,
                           events: seq<Rotation.Event>,
                           id: Rotation.Id): Snapshot
    requires r.after.snapshots != [] && Rotation.Possible(w, keys, Rotation.State(wrappings, []), events)
  {
    var end := Rotation.After(w, keys, Rotation.State(wrappings, []), events).wrappings;
    Snapshot(LastSnapshot(r).root, if id in end then end[id] else [])
  }

  /**
    However the rotation has gone on, one of the two tenant keys loads the data key that the backup was made
    with, and the other none; and once a run has completed for the snapshot, it is the new one that does.
   */
  lemma RotatedKeyLoads(w: World, f: Format, r: Run, keys: Rotation.Keys, deks: map<Rotation.Id, Bytes>,
                        wrappings: map<Rotation.Id, Str>, events: seq<Rotation.Event>, id: Rotation.Id)
    requires IsRecorded(w, f, r) && r.q.s.dek.Some? && IsRotated(r, keys, deks, wrappings, id)
    requires Rotation.Assumptions(w, keys) && Rotation.Ready(w, keys, deks, wrappings)
    requires Rotation.Possible(w, keys, Rotation.State(wrappings, []), events)
    ensures var snapshot := Rewrapped(w, r, keys, wrappings, events, id);
            var underOld, underNew := LoadKey(w, Some(keys.before), snapshot), LoadKey(w, Some(keys.after), snapshot);
            && ((underOld == Ok(r.q.s.dek) && underNew.Err?) || (underOld.Err? && underNew == Ok(r.q.s.dek)))
            && (Rotation.HasCompleted(Rotation.After(w, keys, Rotation.State(wrappings, []), events), id) ==>
              underNew == Ok(r.q.s.dek))
  {
    OwnKeyLoads(w, f, r);
    assert Rotation.Recovers(w, keys, wrappings[id], deks[id]);
    assert deks[id] == r.q.s.dek.value;
    Rotation.DataKeysSurvive(w, keys, deks, wrappings, events);
    var end := Rotation.After(w, keys, Rotation.State(wrappings, []), events);
    assert Rotation.Recovers(w, keys, end.wrappings[id], deks[id]);
    if Rotation.HasCompleted(end, id) {
      Rotation.RotationCompletes(w, keys, deks, wrappings, events, id);
    }
  }

  /** Once it is rotated, a parent is read under its own data key by those who have the new tenant key. */
  lemma RotatedParentKey(w: World, f: Format, r: Run, keys: Rotation.Keys, deks: map<Rotation.Id, Bytes>,
                         wrappings: map<Rotation.Id, Str>, events: seq<Rotation.Event>, id: Rotation.Id)
    requires IsRecorded(w, f, r) && r.q.s.dek.Some? && IsRotated(r, keys, deks, wrappings, id)
    requires Rotation.Assumptions(w, keys) && Rotation.Ready(w, keys, deks, wrappings)
    requires Rotation.Possible(w, keys, Rotation.State(wrappings, []), events)
    requires Rotation.HasCompleted(Rotation.After(w, keys, Rotation.State(wrappings, []), events), id)
    ensures var snapshot := Rewrapped(w, r, keys, wrappings, events, id);
            ParentKey(w, Some(keys.after), snapshot) == r.q.s.dek && ParentKey(w, Some(keys.before), snapshot) == None
  {
    var snapshot := Rewrapped(w, r, keys, wrappings, events, id);
    RotatedKeyLoads(w, f, r, keys, deks, wrappings, events, id);
    LoadedIsParentKey(w, Some(keys.after), snapshot);
    LoadedIsParentKey(w, Some(keys.before), snapshot);
  }

  /**
    Backed up under the old tenant key, rotated in any interleaving until a run has completed for the
    snapshot, and restored under the new tenant key, at any later time: it is restored exactly as ever.
   */
  lemma RotatedIsRestored(w: World, f: Format, r: Run, keys: Rotation.Keys, deks: map<Rotation.Id, Bytes>,
                          wrappings: map<Rotation.Id, Str>, events: seq<Rotation.Event>, id: Rotation.Id,
                          c: Contents, answers: Answers, a: Attempt)
    requires IsRecorded(w, f, r) && WentWell(w, f, r) && r.q.s.dek.Some? && IsRotated(r, keys, deks, wrappings, id)
    requires Rotation.Assumptions(w, keys) && Rotation.Ready(w, keys, deks, wrappings)
    requires Rotation.Possible(w, keys, Rotation.State(wrappings, []), events)
    requires Rotation.HasCompleted(Rotation.After(w, keys, Rotation.State(wrappings, []), events), id)
    requires Represents(w, c) && Extends(r.after.contents.objects, c.objects) && KeysApart(w, f, c, r.q.s.dek)
    requires Honest(c.store, answers) && Fair(a, r.q.es)
    requires SnapshotOutcome(w, f, Some(keys.after), Rewrapped(w, r, keys, wrappings, events, id), c.store, answers, a)
    ensures RestoredExactly(OwnReader(r), r, c, a)
  {
    RotatedKeyLoads(w, f, r, keys, deks, wrappings, events, id);
    OwnKeyLoads(w, f, r);
    RunIsRestored(w, f, r, c, answers, a);
  }
}
