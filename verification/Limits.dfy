/** Concrete inputs on which a backup, as it is, cannot be restored in full. */
module Limits {
  import opened Base
  import opened Primitives
  import opened Codec
  import opened Encrypt
  import opened Chunking
  import opened Sorting
  import opened Paths
  import opened PackStore
  import opened Merkle
  import opened Closure
  import opened Snapshots
  import opened PrevIndex
  import opened Transfer
  import opened Uploads
  import opened Backup
  import opened TreePhase
  import opened Runs
  import opened Download
  import opened Disks
  import opened Restore
  import opened EndToEnd
  import opened OwnKey
  import opened Incremental
  import opened Histories
  import opened RoundTrip
  import opened Parents
  import Utf8

  // ----- Twins

  /** Two directories a and b, and in them the files x and y: the same but for the place. */
  ghost predicate AreTwins(a: FileEntry, x: FileEntry, b: FileEntry, y: FileEntry) {
    && a.kind.Directory? && b.kind.Directory? && x.kind.Regular? && y == x.(rel := y.rel) && x.bytes != []
    && a.rel != [] && b.rel != [] && a.rel != b.rel && ParentDir(a.rel) == ParentDir(b.rel) == []
    && ParentDir(x.rel) == a.rel && ParentDir(y.rel) == b.rel && BaseName(x.rel) == BaseName(y.rel)
    && GoodPath(a.rel) && GoodPath(x.rel) && GoodPath(b.rel) && GoodPath(y.rel)
  }

  lemma TwinPathsDiffer(a: FileEntry, x: FileEntry, b: FileEntry, y: FileEntry)
    requires AreTwins(a, x, b, y)
    ensures DistinctPaths([a, x, b, y])
  {
    assert a.rel != x.rel && a.rel != y.rel && b.rel != x.rel && b.rel != y.rel && x.rel != y.rel;
    AllFourDiffer(a, x, b, y);
  }

  lemma AllFourDiffer(a: FileEntry, x: FileEntry, b: FileEntry, y: FileEntry)
    requires a.rel != x.rel && a.rel != b.rel && a.rel != y.rel && x.rel != b.rel && x.rel != y.rel && b.rel != y.rel
    ensures DistinctPaths([a, x, b, y])
  {
  }

  lemma TwinsWellFormed(a: FileEntry, x: FileEntry, b: FileEntry, y: FileEntry)
    requires AreTwins(a, x, b, y)
    ensures WellFormed([a, x, b, y])
  {
    var es := [a, x, b, y];
    TwinPathsDiffer(a, x, b, y);
    assert a in es && b in es;
    forall e | e in es
      ensures GoodPath(e.rel) && HasParent(es, e)
    {
      assert e == a || e == x || e == b || e == y;
    }
  }

  lemma SecondOfFour<T>(p: T -> bool, w: T, x: T, y: T, z: T)
    requires !p(w) && p(x) && !p(y) && !p(z)
    ensures Filter(p, [w, x, y, z]) == [x]
  {
    assert [w, x, y, z][1..] == [x, y, z] && [x, y, z][1..] == [y, z] && [y, z][1..] == [z];
    assert Filter(p, [z]) == [];
    assert Filter(p, [y, z]) == [];
  }

  lemma LastOfFour<T>(p: T -> bool, w: T, x: T, y: T, z: T)
    requires !p(w) && !p(x) && !p(y) && p(z)
    ensures Filter(p, [w, x, y, z]) == [z]
  {
    assert [w, x, y, z][1..] == [x, y, z] && [x, y, z][1..] == [y, z] && [y, z][1..] == [z] && [z][1..] == [];
    assert Filter(p, [z]) == [z];
    assert Filter(p, [y, z]) == [z];
  }

  /** The nodes of a directory that holds one file. */
  lemma OneFileNodes(f: Format, es: seq<FileEntry>, fh: FileHashes, dir: Str, file: FileEntry)
    requires Proper(es) && Children(es, dir) == [file] && file.kind.Regular?
    ensures NodeList(f, es, fh, dir) == SortedNodes([FileNode(file, Lookup(fh, file.rel))])
  {
    var table: map<Str, Str> := map[];
    var make := NodeMaker(table, fh);
    NodeListFromTable(f, es, fh, dir, table);
    OneElement(make, file);
    assert make(file) == [FileNode(file, Lookup(fh, file.rel))];
  }

  lemma OneElement<T, U>(f: T -> seq<U>, x: T)
    ensures FlatMap(f, [x]) == f(x)
  {
    assert [x][1..] == [];
    assert FlatMap(f, [x]) == f(x) + FlatMap(f, []);
  }

  lemma TwinHashes(f: Format, fh: FileHashes, a: FileEntry, x: FileEntry, b: FileEntry, y: FileEntry)
    requires AreTwins(a, x, b, y) && Proper([a, x, b, y]) && Lookup(fh, x.rel) == Lookup(fh, y.rel)
    ensures Children([a, x, b, y], b.rel) == [y]
    ensures MerkleHash(f, [a, x, b, y], fh, a.rel) == MerkleHash(f, [a, x, b, y], fh, b.rel)
  {
    var es := [a, x, b, y];
    SecondOfFour(InDir(a.rel), a, x, b, y);
    LastOfFour(InDir(b.rel), a, x, b, y);
    OneFileNodes(f, es, fh, a.rel, x);
    OneFileNodes(f, es, fh, b.rel, y);
  }

  /** A scan of two equal directories is well formed, but not one whose directories around files differ. */
  lemma TwinsCollide(f: Format, p: Params, a: FileEntry, x: FileEntry, b: FileEntry, y: FileEntry)
    requires AreTwins(a, x, b, y)
    ensures WellFormed([a, x, b, y])
    ensures !FileDirsDiffer(f, [a, x, b, y], FullTable(f.sha, p, [a, x, b, y]))
  {
    var es := [a, x, b, y];
    var fh := FullTable(f.sha, p, es);
    TwinsWellFormed(a, x, b, y);
    assert x in es && y in es && b in es;
    FilledFiles(f.sha, p, es, x);
    FilledFiles(f.sha, p, es, y);
    TwinHashes(f, fh, a, x, b, y);
    assert OccupiedDir(es, b);
    assert SameTree(f, es, fh, x, b.rel);
  }

  lemma TwinsFilled(a: FileEntry, x: FileEntry, b: FileEntry, y: FileEntry, e: FileEntry)
    requires AreTwins(a, x, b, y) && IsFilled([a, x, b, y], e)
    ensures e == x || e == y
  {
  }

  /** Where directories around files do not differ, a file is not restored. */
  lemma SomethingIsLost(d: Reader, p: Params, es: seq<FileEntry>, c: Contents, answers: Answers, a: Attempt)
    returns (e: FileEntry)
    requires LawfulReader(d) && d.verify && BackedUp(d, p, es, c) && KeysApart(d.w, d.format, c, d.dek)
    requires !FileDirsDiffer(d.format, es, FullTable(d.w.sha, p, es)) && Honest(c.store, answers) && Fair(a, es)
    requires Outcome(d, c.store, answers, ScanRoot(d.format, p, es), a) && a.fault.None?
    ensures IsFilled(es, e) && !IsRestored(a.targetDir, e, a.after.files)
  {
    RestoreOfBackup(d, p, es, c, answers, a);
    e :| IsFilled(es, e) && !IsRestored(a.targetDir, e, a.after.files);
  }

  /**
    However they were backed up and whatever else there is on the server: a restore of two equal directories
    does not bring back both files.
   */
  lemma TwinsAreLost(d: Reader, p: Params, a: FileEntry, x: FileEntry, b: FileEntry, y: FileEntry, es: seq<FileEntry>,
                     c: Contents, answers: Answers, attempt: Attempt)
    requires AreTwins(a, x, b, y) && es == [a, x, b, y]
    requires LawfulReader(d) && d.verify && BackedUp(d, p, es, c) && KeysApart(d.w, d.format, c, d.dek)
    requires Honest(c.store, answers) && Fair(attempt, es)
    requires Outcome(d, c.store, answers, ScanRoot(d.format, p, es), attempt)
    ensures || attempt.fault.Some?
            || !IsRestored(attempt.targetDir, x, attempt.after.files)
            || !IsRestored(attempt.targetDir, y, attempt.after.files)
  {
    TwinsCollide(d.format, p, a, x, b, y);
    if attempt.fault.None? {
      var e := SomethingIsLost(d, p, es, c, answers, attempt);
      TwinsFilled(a, x, b, y, e);
    }
  }

  /** "2024-05-01T10:00:00.000Z" */
  const SOME_TIME: Str :=
    [50, 48, 50, 52, 45, 48, 53, 45, 48, 49, 84, 49, 48, 58, 48, 48, 58, 48, 48, 46, 48, 48, 48, 90]

  /** The scan of the directories "a" and "b", with a file "f" of one byte in each. */
  lemma SomeTwins() returns (a: FileEntry, x: FileEntry, b: FileEntry, y: FileEntry)
    ensures AreTwins(a, x, b, y) && HasTime(a) && HasTime(x) && HasTime(b) && HasTime(y)
  {
    var nameA: Str, nameB: Str, nameF: Str := [97], [98], [102];
    a := FileEntry(nameA, Directory, 493, 0, SOME_TIME, []);
    b := FileEntry(nameB, Directory, 493, 0, SOME_TIME, []);
    x := FileEntry(Join(nameA, nameF), Regular, 420, 1, SOME_TIME, [7]);
    y := x.(rel := Join(nameB, nameF));
    LetterIsName(nameA);
    LetterIsName(nameB);
    LetterIsName(nameF);
    NamesMakePaths(nameA, nameF);
    NamesMakePaths(nameB, nameF);
    SomeTimeIsPlain();
  }

  lemma SomeTimeIsPlain()
    ensures Utf8.Sanitize(SOME_TIME) == SOME_TIME && SOME_TIME != []
  {
    Utf8.AsciiValid(SOME_TIME);
    Utf8.SanitizeFixes(SOME_TIME);
  }

  lemma LetterIsName(name: Str)
    requires |name| == 1 && 97 <= name[0] <= 122
    ensures GoodName(name) && Utf8.Valid(name)
  {
    Utf8.AsciiValid(name);
  }

  lemma NamesMakePaths(dir: Str, name: Str)
    requires GoodName(dir) && Utf8.Valid(dir) && GoodName(name) && Utf8.Valid(name)
    ensures ParentDir(dir) == [] && GoodPath(dir)
    ensures ParentDir(Join(dir, name)) == dir && BaseName(Join(dir, name)) == name && GoodPath(Join(dir, name))
  {
    JoinParts(dir, name);
    JoinParts([], dir);
  }

  // ----- A name with a backslash

  /** One backslash in the name of anything that is backed up, and nothing is restored, though all of it is there. */
  lemma BackslashStops(d: Reader, p: Params, es: seq<FileEntry>, e: FileEntry, c: Contents, answers: Answers,
                       a: Attempt)
    requires LawfulReader(d) && BackedUp(d, p, es, c) && KeysApart(d.w, d.format, c, d.dek) && Honest(c.store, answers)
    requires e in es && Noded(es, e) && BACKSLASH in BaseName(e.rel)
    requires Outcome(d, c.store, answers, ScanRoot(d.format, p, es), a)
    ensures a.fault.Some? && a.after == a.before
  {
    ShutTreeStops(d, p, es, c, answers, a);
  }

  /** The scan of one file, of one byte, with such a name. */
  lemma SomeBackslash() returns (e: FileEntry)
    ensures WellFormed([e]) && HasTime(e) && Noded([e], e) && BACKSLASH in BaseName(e.rel)
  {
    Utf8.AsciiValid([BACKSLASH]);
    e := TopFile([BACKSLASH]);
  }

  lemma TopFile(name: Str) returns (e: FileEntry)
    requires PlainName(name) && Utf8.Valid(name)
    ensures WellFormed([e]) && HasTime(e) && Noded([e], e) && BaseName(e.rel) == name
  {
    e := FileEntry(name, Regular, 420, 1, SOME_TIME, [7]);
    JoinParts([], name);
    SomeTimeIsPlain();
    TopFileIsScan(e);
  }

  lemma TopFileIsScan(e: FileEntry)
    requires GoodPath(e.rel) && ParentDir(e.rel) == []
    ensures WellFormed([e])
  {
    assert HasParent([e], e);
  }

  // ----- A file that is itself a compressed frame

  /**
    Under any compressor: content that is the compressed form of something else, and does not get shorter by
    compressing it again, is stored as it is and read back as that something else.
   */
  lemma FramesAreMisread(w: World, compress: bool, dek: Option<Bytes>, kind: Kind, hash: Str, nonce: Bytes,
                         inner: Bytes)
    requires CodecLaw(w) && CipherLaw(w) && HexDecode(hash).Some? && |nonce| == NONCE_SIZE
    requires LooksLikeFrame(w.compress(inner)) && w.compress(inner) != inner
    requires |w.compress(w.compress(inner))| >= |w.compress(inner)|
    ensures StoreObject(w, compress, dek, kind, hash, nonce, w.compress(inner)).Ok?
    ensures var (stored, compression) := StoreObject(w, compress, dek, kind, hash, nonce, w.compress(inner)).value;
            compression == [] && ReadObject(w, dek, kind, hash, stored, compression) == Ok(inner)
  {
    var raw := w.compress(inner);
    assert w.decompress(raw) == Some(inner);
    StoredHolds(w, compress, dek, kind, hash, nonce, raw);
    var (stored, compression) := StoreObject(w, compress, dek, kind, hash, nonce, raw).value;
    HoldsOpens(w, dek, kind, hash, stored, compression, raw);
  }

  // ----- A file that is the text of a tree

  /** A directory, a file in it, and a file at the top that holds the text of the directory's tree. */
  ghost predicate HoldsTreeText(f: Format, p: Params, es: seq<FileEntry>, t: FileEntry, dir: Str)
    requires Proper(es)
  {
    IsFilled(es, t) && Children(es, dir) != [] && t.bytes == f.encode(NodeList(f, es, FullTable(f.sha, p, es), dir))
  }

  /** If such a file is one chunk, its data and the tree have one hash. */
  lemma TreeTextCollides(w: World, f: Format, p: Params, es: seq<FileEntry>, t: FileEntry, dir: Str)
    requires f.sha == w.sha && WellFormed(es) && HoldsTreeText(f, p, es, t, dir) && ChunkAll(p, t.bytes) == [t.bytes]
    ensures !(ScanData(w, p, es) !! AskedTrees(f, es, FullTable(f.sha, p, es)))
  {
    var h := w.sha(t.bytes);
    assert HashList(w.sha, p, t.bytes)[0] == h;
    ScanDataIs(w, p, es, h);
    DirIsAsked(f, es, FullTable(f.sha, p, es), dir);
  }

  /** Content that is no longer than a chunk must be is one chunk. */
  lemma ShortIsOneChunk(p: Params, s: Bytes)
    requires s != [] && |s| <= p.minSize
    ensures ChunkAll(p, s) == [s]
  {
    ConcatOne(s);
    IsChunkAll(p, s, [s]);
  }

  /** So no encrypted backup of such a scan without a parent can be restored, even if it is the first. */
  lemma TreeTextIsLost(w: World, f: Format, r: Run, t: FileEntry, dir: Str)
    requires IsRecorded(w, f, r) && r.q.s.dek.Some? && FreshKey(r) && r.j.prev.None?
    requires HoldsTreeText(f, JobParams(r.j), r.q.es, t, dir) && |t.bytes| <= JobParams(r.j).minSize
    ensures !OwnRestorable(w, f, r)
  {
    ShortIsOneChunk(JobParams(r.j), t.bytes);
    FullBackupExactly(w, f, r);
    TreeTextCollides(w, f, JobParams(r.j), r.q.es, t, dir);
  }

  /** There are such scans for any way of writing trees: a directory "a", a file "f" in it, and a file "t". */
  lemma SomeTreeText(f: Format, p: Params) returns (a: FileEntry, x: FileEntry, t: FileEntry)
    requires forall ns {:trigger f.encode(ns)} :: f.encode(ns) != []
    ensures WellFormed([a, x, t]) && HoldsTreeText(f, p, [a, x, t], t, a.rel)
  {
    var nameA: Str, nameF: Str, nameT: Str := [97], [102], [116];
    LetterIsName(nameA);
    LetterIsName(nameF);
    LetterIsName(nameT);
    NamesMakePaths(nameA, nameF);
    NamesMakePaths(nameT, nameF);
    a := FileEntry(nameA, Directory, 493, 0, SOME_TIME, []);
    x := FileEntry(Join(nameA, nameF), Regular, 420, 1, SOME_TIME, [7]);
    var node := FileNode(x, Some(HashList(f.sha, p, x.bytes)));
    t := FileEntry(nameT, Regular, 420, 0, SOME_TIME, f.encode(SortedNodes([node])));
    ThreeEntries(a, x, t);
    FilledFiles(f.sha, p, [a, x, t], x);
    SecondOfThree(InDir(a.rel), a, x, t);
    OneFileNodes(f, [a, x, t], FullTable(f.sha, p, [a, x, t]), a.rel, x);
  }

  lemma ThreeEntries(a: FileEntry, x: FileEntry, t: FileEntry)
    requires a.kind.Directory? && x.kind.Regular? && t.kind.Regular? && a.rel != x.rel && a.rel != t.rel
    requires x.rel != t.rel
    requires ParentDir(a.rel) == [] && ParentDir(x.rel) == a.rel && ParentDir(t.rel) == []
    requires GoodPath(a.rel) && GoodPath(x.rel) && GoodPath(t.rel)
    ensures WellFormed([a, x, t]) && x in [a, x, t] && t in [a, x, t]
  {
    var es := [a, x, t];
    AllThreeDiffer(a, x, t);
    assert a in es && x in es && t in es;
    forall e | e in es
      ensures GoodPath(e.rel) && HasParent(es, e)
    {
      assert e == a || e == x || e == t;
    }
  }

  lemma AllThreeDiffer(a: FileEntry, x: FileEntry, t: FileEntry)
    requires a.rel != x.rel && a.rel != t.rel && x.rel != t.rel
    ensures DistinctPaths([a, x, t])
  {
  }

  lemma SecondOfThree<T>(p: T -> bool, x: T, y: T, z: T)
    requires !p(x) && p(y) && !p(z)
    ensures Filter(p, [x, y, z]) == [y]
  {
    assert [x, y, z][1..] == [y, z] && [y, z][1..] == [z];
    assert Filter(p, [z]) == [];
  }

  // ----- A second encrypted backup

  /** What a first backup with a filter that claims nothing has uploaded: all of its trees, the root among them. */
  lemma RootIsUploaded(w: World, f: Format, r: Run)
    requires IsRecorded(w, f, r) && forall h :: !r.q.bloom(h)
    ensures JobRoot(r.j) in JobTrees(r.j) && JobRoot(r.j) in r.after.contents.store.index
  {
    TopOccupied(r.q.es, r.q.es[0]);
    DirIsAsked(f, r.q.es, JobTable(r.j), []);
    UploadedExactly(w, f, r, JobRoot(r.j));
    UploadedIsThere(w, f, r, JobRoot(r.j));
  }

  /** The filter claims just what there is on the server. */
  ghost predicate ExactFilter(r: Run) {
    forall h :: r.q.bloom(h) <==> h in r.before.contents.store.index
  }

  /** A backup of the same scan with another key: its filter is right, and claims the root. */
  lemma SecondIsClaimed(w: World, f: Format, r1: Run, r2: Run)
    requires IsRecorded(w, f, r1) && IsRecorded(w, f, r2) && r1.before.contents == EMPTY && r2.before == r1.after
    requires r1.q.s.dek.Some? && r2.q.s.dek.Some? && r2.q.s.dek != r1.q.s.dek && ExactFilter(r2)
    requires r1.j.prev.None? && r2.j == r1.j.(s := r2.q.s) && r2.q.s == r1.q.s.(dek := r2.q.s.dek)
    requires JobRoot(r1.j) in r1.after.contents.store.index && JobRoot(r1.j) in JobTrees(r1.j)
    ensures RootIsClaimed(w, f, r2)
  {
    SameJob(r1.j, r2.j);
    SecondIsFresh(w, f, r1, r2);
    ExactIsRight(w, f, r2);
  }

  lemma SecondIsFresh(w: World, f: Format, r1: Run, r2: Run)
    requires IsRun(w, f, r1) && r1.before.contents == EMPTY && r2.before == r1.after && r2.q.s.dek != r1.q.s.dek
    ensures FreshKey(r2)
  {
  }

  lemma ExactIsRight(w: World, f: Format, r: Run)
    requires IsRun(w, f, r) && ExactFilter(r)
    ensures FilterRight(r.j, r.q.bloom, r.before.contents.objects)
  {
  }

  /** What a job asks for does not depend on the key. */
  lemma SameJob(j: Job, j': Job)
    requires Fit(j) && Fit(j') && j' == j.(s := j'.s) && j'.s == j.s.(dek := j'.s.dek)
    ensures JobTable(j) == JobTable(j') && JobRoot(j) == JobRoot(j') && JobTrees(j) == JobTrees(j')
  {
  }

  /**
    Backs up a scan twice to a new server, each time with its own key, the second time with a filter that
    claims just what is there; and restores the second snapshot with its own key.  If the keys are kept
    apart, the restore fails and nothing is written.
   */
  method BackUpTwice(q: Request, dek: Bytes, nonce: Bytes, server: Server, targetDir: Str, concurrency: int,
                     fs: FileSystem)
    returns (first: Result<Snapshot, Fault>, second: Result<Snapshot, Fault>, fault: Option<Fault>)
    requires FitRequest(q.s.w, q.s.format, q) && Base64Law(q.s.w) && |nonce| == NONCE_SIZE
    requires q.s.dek.Some? && q.s.dek != Some(dek) && server.Now() == EMPTY && IsDisk(fs.Now())
    modifies server, fs
    ensures server.Sound(q.s.w)
    ensures first.Ok? && second.Ok? && KeysApart(q.s.w, q.s.format, server.Now(), Some(dek)) ==>
      fault.Some? && fs.Now() == old(fs.Now())
    ensures server.reliable && Willing(q) && q.es != [] ==> first.Ok? && second.Ok?
  {
    fault, second := None, Err(Unavailable);
    ghost var run, run';
    first, run := PerformBackup(q.(bloom := (h: Str) => false), server, None);
    if first.Err? {
      return;
    }
    RootIsUploaded(q.s.w, q.s.format, run);
    var index := server.store.index;
    var again := q.(s := q.s.(dek := Some(dek)), nonce := nonce, bloom := (h: Str) => h in index);
    second, fault, run' := BackUpAndTry(again, server, targetDir, concurrency, fs);
    if second.Ok? {
      SecondIsClaimed(q.s.w, q.s.format, run, run');
    }
  }

  /** The filter was right, the key is new, and the root was claimed. */
  ghost predicate RootIsClaimed(w: World, f: Format, r: Run)
    requires IsRun(w, f, r)
  {
    WentWell(w, f, r) && r.q.s.dek.Some? && FreshKey(r) && JobRoot(r.j) in JobTrees(r.j) && r.q.bloom(JobRoot(r.j))
  }

  /** One encrypted backup without a parent, and the attempt to restore it. */
  method BackUpAndTry(q: Request, server: Server, targetDir: Str, concurrency: int, fs: FileSystem)
    returns (backup: Result<Snapshot, Fault>, fault: Option<Fault>, ghost run: Run)
    requires FitRequest(q.s.w, q.s.format, q) && Base64Law(q.s.w) && server.Sound(q.s.w) && IsDisk(fs.Now())
    modifies server, fs
    ensures IsRun(q.s.w, q.s.format, run) && run.q == q && run.j.prev.None?
    ensures run.before == old(StateOf(server)) && run.after == StateOf(server)
    ensures backup.Ok? ==> IsRecorded(q.s.w, q.s.format, run)
    ensures server.reliable && Willing(q) && q.es != [] ==> backup.Ok?
    ensures backup.Ok? && RootIsClaimed(q.s.w, q.s.format, run) &&
            KeysApart(q.s.w, q.s.format, server.Now(), q.s.dek) ==>
      fault.Some? && fs.Now() == old(fs.Now())
  {
    fault := None;
    backup, run := PerformBackup(q, server, None);
    if backup.Err? {
      return;
    }
    fault := TryRestore(q.s.w, q.s.format, q.tmk, backup.value, server.store, targetDir, q.depth, concurrency, fs,
                        run);
  }

  method TryRestore(w: World, f: Format, tmk: Option<Bytes>, snapshot: Snapshot, store: Store, targetDir: Str,
                    depth: nat, concurrency: int, fs: FileSystem, ghost run: Run)
    returns (fault: Option<Fault>)
    requires Base64Law(w) && IsRecorded(w, f, run) && run.q.tmk == tmk && run.after.contents.store == store
    requires LastSnapshot(run) == snapshot && IsDisk(fs.Now())
    modifies fs
    ensures RootIsClaimed(w, f, run) && KeysApart(w, f, run.after.contents, run.q.s.dek) ==>
      fault.Some? && fs.Now() == old(fs.Now())
  {
    var answers := HonestAnswers(store);
    OwnKeyLoads(w, f, run);
    HonestAnswersHonest(w, run.after.contents);
    ghost var a;
    fault, a := RestoreSnapshot(w, f, tmk, snapshot, store, answers, targetDir, depth, concurrency, fs);
    if RootIsClaimed(w, f, run) && KeysApart(w, f, run.after.contents, run.q.s.dek) {
      ClaimedTreeStops(w, f, run, JobRoot(run.j), answers, a);
    }
  }

  // ----- A second encrypted backup, of what has not changed

  /** Only skipped files have it. */
  ghost predicate OnlySkippedHave(j: Job, h: Str)
    requires Fit(j)
  {
    forall e :: e in j.es && e.kind.Regular? && h in HashList(j.s.w.sha, JobParams(j), e.bytes) ==> Skips(j.prev, e)
  }

  lemma OnlySkippedAreNotRead(j: Job, h: Str)
    requires Fit(j) && OnlySkippedHave(j, h)
    ensures !ReadFirst(j, h)
  {
    var hasher, files := HasherFor(JobDigest(j), j.prev), Filter(IsRegular, j.es);
    FilterHas(IsRegular, j.es);
    forall k | 0 <= k < |files| && h in hasher(files[k])
      ensures Skips(j.prev, files[k])
    {
      assert files[k] in files;
    }
  }

  /** Data that only skipped files have is not uploaded, so with a new key it cannot be read. */
  lemma SkippedIsLost(w: World, f: Format, r: Run, e: FileEntry, h: Str)
    requires IsRecorded(w, f, r) && r.q.s.dek.Some? && FreshKey(r) && TableTrue(r.j)
    requires IsFilled(r.q.es, e) && h in HashList(w.sha, JobParams(r.j), e.bytes) && OnlySkippedHave(r.j, h)
    ensures !OwnRestorable(w, f, r)
  {
    OwnKeyExactly(w, f, r);
    ScanDataIs(w, JobParams(r.j), r.q.es, h);
    OnlySkippedAreNotRead(r.j, h);
  }

  /** What looks unchanged between a scan and itself is unchanged. */
  lemma SameScanTrusted(digest: Digest, es: seq<FileEntry>)
    requires DistinctPaths(es)
    ensures Trustworthy(digest, es, es)
  {
    PathsDetermine(es);
  }

  /** With the index of the same scan, every file that is not empty is skipped. */
  lemma SameScanSkips(w: World, p: Params, es: seq<FileEntry>, prev: Option<Index>, e: FileEntry)
    requires DistinctPaths(es) && prev == Some(ScanIndex(Digester(w.sha, p), es)) && IsFilled(es, e)
    ensures Skips(prev, e)
  {
    EmptyHasNoChunks(w.sha, p, e.bytes);
    SkipsMeans(Digester(w.sha, p), es, es, e);
    assert SkippedFor(Digester(w.sha, p), es, es, e, e);
  }

  /** What a first backup records is closed, and is what a full backup of its scan records. */
  lemma FirstIsClosed(w: World, f: Format, r: Run)
    requires IsRecorded(w, f, r) && r.before.contents == EMPTY && r.j.prev.None? && forall h :: !r.q.bloom(h)
    ensures r.after.snapshots != [] && LastSnapshot(r).root == ScanRoot(f, JobParams(r.j), r.q.es)
    ensures Closed(f, r.after.contents.objects, ScanRoot(f, JobParams(r.j), r.q.es))
  {
    RecordedExactly(w, f, r);
  }

  /** A run with an empty filter that has used the index of a full backup of its own scan goes well. */
  lemma UnchangedWentWell(w: World, f: Format, r: Run)
    requires IsRun(w, f, r) && r.j.prev.Some? && ReadRight(w, f, r) && forall h :: !r.q.bloom(h)
    requires r.q.es != [] && Dated(r.q.es) && Merkle.Longest(r.q.es) + 1 < r.q.depth
    requires r.parent.value.root == ScanRoot(f, JobParams(r.j), r.q.es)
    requires Closed(f, r.before.contents.objects, r.parent.value.root)
    ensures WentWell(w, f, r) && r.j.prev == Some(ScanIndex(JobDigest(r.j), r.q.es))
  {
    SameScanTrusted(JobDigest(r.j), r.q.es);
    IncrementalWentWell(w, f, r, r.q.es);
  }

  /** So all that has a chunk is skipped. */
  lemma AllAreSkipped(j: Job, h: Str)
    requires Fit(j) && j.prev == Some(ScanIndex(JobDigest(j), j.es))
    ensures OnlySkippedHave(j, h)
  {
    var p := JobParams(j);
    forall e | e in j.es && e.kind.Regular? && h in HashList(j.s.w.sha, p, e.bytes)
      ensures Skips(j.prev, e)
    {
      EmptyHasNoChunks(j.s.w.sha, p, e.bytes);
      SameScanSkips(j.s.w, p, j.es, j.prev, e);
    }
  }

  lemma UnchangedIsLost(w: World, f: Format, r: Run, e: FileEntry)
    requires IsRecorded(w, f, r) && r.q.s.dek.Some? && FreshKey(r) && TableTrue(r.j) && IsFilled(r.q.es, e)
    requires r.j.prev == Some(ScanIndex(JobDigest(r.j), r.q.es))
    ensures !OwnRestorable(w, f, r)
  {
    var p := JobParams(r.j);
    EmptyHasNoChunks(w.sha, p, e.bytes);
    AllAreSkipped(r.j, HashList(w.sha, p, e.bytes)[0]);
    SkippedIsLost(w, f, r, e, HashList(w.sha, p, e.bytes)[0]);
  }

  /**
    A run with a new key and an empty filter that has used the index of a full backup of its own scan: all of it is
    there, but it cannot be restored in full, unless all files are empty.
   */
  lemma RepeatedIsLost(w: World, f: Format, r: Run, e: FileEntry)
    requires IsRecorded(w, f, r) && r.q.s.dek.Some? && FreshKey(r) && IsFilled(r.q.es, e)
    requires r.j.prev.Some? && ReadRight(w, f, r) && forall h :: !r.q.bloom(h)
    requires Dated(r.q.es) && Merkle.Longest(r.q.es) + 1 < r.q.depth
    requires HasFull(w, f, r.q, r.before, r.parent.value)
    ensures WentWell(w, f, r) && Closed(f, r.after.contents.objects, JobRoot(r.j)) && !OwnRestorable(w, f, r)
  {
    UnchangedWentWell(w, f, r);
    RecordedExactly(w, f, r);
    UnchangedIsLost(w, f, r, e);
  }

  /** A server has the snapshot of a full backup of the scan, and all that can be reached from it. */
  ghost predicate HasFull(w: World, f: Format, q: Request, st: State, snapshot: Snapshot)
    requires FitRequest(w, f, q)
  {
    && snapshot in st.snapshots && snapshot.root == ScanRoot(f, JobParams(Job(q.s, q.es, None)), q.es)
    && Closed(f, st.contents.objects, snapshot.root)
  }

  /** All objects on the server are under this key. */
  ghost predicate AllUnder(dek: Option<Bytes>, c: Contents) {
    forall h :: h in c.keys ==> c.keys[h] == dek
  }

  /** A first backup to a new server, with a filter that claims nothing. */
  method FirstBackUp(q: Request, server: Server) returns (first: Result<Snapshot, Fault>, ghost run: Run)
    requires FitRequest(q.s.w, q.s.format, q) && server.Now() == EMPTY
    modifies server
    ensures server.Sound(q.s.w) && AllUnder(q.s.dek, server.Now())
    ensures first.Ok? ==> q.es != [] && HasFull(q.s.w, q.s.format, q, StateOf(server), first.value)
    ensures first.Ok? ==> ServesAsParent(q, run, StateOf(server), first.value)
    ensures server.reliable && Willing(q) && q.es != [] ==> first.Ok?
  {
    first, run := PerformBackup(q.(bloom := (h: Str) => false), server, None);
    if first.Ok? {
      FirstIsClosed(q.s.w, q.s.format, run);
    }
  }

  /** The snapshot was recorded by such a first backup, of this scan with these options. */
  ghost predicate ServesAsParent(q: Request, start: Run, st: State, first: Snapshot) {
    && IsFirst(q.s.w, q.s.format, start) && start.after == st && LastSnapshot(start) == first
    && start.q == q.(bloom := start.q.bloom)
  }

  /** All of it is there, and yet it is not restored in full. */
  ghost predicate ThereAndLost(w: World, f: Format, r: Run, a: Attempt)
    requires IsRun(w, f, r)
  {
    && Closed(f, r.after.contents.objects, JobRoot(r.j))
    && !(a.fault.None? && AllRestored(a.targetDir, r.q.es, a.after.files))
  }

  lemma UnchangedNotRestored(w: World, f: Format, start: Run, r: Run, e: FileEntry, a: Attempt)
    requires IsFirst(w, f, start) && Base64Law(w) && Matches(start.q, r.q) && r.q.es == start.q.es
    requires IsRecorded(w, f, r) && r.before == start.after && r.parent == Some(LastSnapshot(start)) && HasOwnIndex(r)
    requires r.q.s.dek.Some? && FreshKey(r) && IsFilled(r.q.es, e) && forall h :: !r.q.bloom(h)
    requires AsRestored(w, f, r, a)
    ensures KeysApart(w, f, r.after.contents, r.q.s.dek) && Fair(a, r.q.es) ==> ThereAndLost(w, f, r, a)
  {
    NextReadsFirst(w, f, start, r);
    WellOnParent(w, f, r, start.q.es);
    SameScanTrusted(JobDigest(r.j), r.q.es);
    RecordedExactly(w, f, r);
    UnchangedIsLost(w, f, r, e);
  }

  /** If the run has used its parent's index, all of it is there, and yet it is not restored in full. */
  ghost predicate IsLost(w: World, f: Format, r: Run, a: Attempt)
    requires IsRun(w, f, r)
  {
    r.j.prev.Some? && ReadRight(w, f, r) && KeysApart(w, f, r.after.contents, r.q.s.dek) && Fair(a, r.q.es) ==>
      ThereAndLost(w, f, r, a)
  }

  /** It is so if only keys are kept apart and nothing but the server stands in the way. */
  ghost predicate IsLostAnyway(w: World, f: Format, r: Run, a: Attempt)
    requires IsRun(w, f, r)
  {
    KeysApart(w, f, r.after.contents, r.q.s.dek) && Fair(a, r.q.es) ==> ThereAndLost(w, f, r, a)
  }

  /** It is as BackupAndRestore says. */
  ghost predicate AsRestored(w: World, f: Format, r: Run, a: Attempt)
    requires IsRun(w, f, r)
  {
    Fair(a, r.q.es) && WentWell(w, f, r) && KeysApart(w, f, r.after.contents, r.q.s.dek) ==>
      RestoredExactly(OwnReader(r), r, r.after.contents, a)
  }

  lemma RepeatedNotRestored(w: World, f: Format, r: Run, e: FileEntry, a: Attempt)
    requires IsRecorded(w, f, r) && r.q.s.dek.Some? && FreshKey(r) && IsFilled(r.q.es, e) && forall h :: !r.q.bloom(h)
    requires Dated(r.q.es) && Merkle.Longest(r.q.es) + 1 < r.q.depth
    requires r.j.prev.Some? ==> HasFull(w, f, r.q, r.before, r.parent.value)
    requires AsRestored(w, f, r, a)
    ensures IsLost(w, f, r, a)
  {
    if r.j.prev.Some? && ReadRight(w, f, r) {
      RepeatedIsLost(w, f, r, e);
    }
  }

  /** One more backup of the scan of a full one, with a new key and an empty filter, and then its restore. */
  method BackUpAgain(q: Request, server: Server, parent: Snapshot, targetDir: Str, concurrency: int, fs: FileSystem,
                     ghost start: Run, ghost e: FileEntry)
    returns (backup: Result<Snapshot, Fault>, fault: Option<Fault>, ghost run: Run, ghost a: Attempt)
    requires FitRequest(q.s.w, q.s.format, q) && Base64Law(q.s.w) && server.Sound(q.s.w) && IsDisk(fs.Now())
    requires q.s.dek.Some? && (forall h :: h in server.keys ==> server.keys[h] != q.s.dek) && forall h :: !q.bloom(h)
    requires Dated(q.es) && Merkle.Longest(q.es) + 1 < q.depth && IsFilled(q.es, e)
    requires HasFull(q.s.w, q.s.format, q, StateOf(server), parent)
    requires IsFirst(q.s.w, q.s.format, start) && start.after == StateOf(server) && LastSnapshot(start) == parent
    requires Matches(start.q, q) && start.q.es == q.es
    modifies server, fs
    ensures IsRun(q.s.w, q.s.format, run) && run.q == q && run.after == StateOf(server)
    ensures a == Attempt(targetDir, q.depth, fs.reliable, old(fs.Now()), fs.Now(), fault, a.cache, a.rs)
    ensures backup.Ok? ==> IsRecorded(q.s.w, q.s.format, run) && LastSnapshot(run) == backup.value
    ensures backup.Ok? ==> IsLost(q.s.w, q.s.format, run, a)
    ensures server.reliable && Willing(q) ==> backup.Ok? && IsLostAnyway(q.s.w, q.s.format, run, a)
  {
    backup, fault, run, a := BackupAndRestore(q, server, Some(parent), targetDir, concurrency, fs);
    if backup.Ok? {
      RepeatedNotRestored(q.s.w, q.s.format, run, e, a);
      if server.reliable && Willing(q) {
        UnchangedNotRestored(q.s.w, q.s.format, start, run, e, a);
      }
    }
  }

  /**
    Backs up a scan to a new server, and then again, unchanged, with its own key, with the first snapshot as its parent
    and with a filter that claims nothing; and restores the second snapshot with its own key.  The second backup is
    recorded, and everything reachable from it is there; but if it has used the index of the first, and keys are kept
    apart, it is not restored in full, unless all files are empty.  And so it always is on a server that answers every
    request.
   */
  method BackUpUnchanged(q: Request, dek: Bytes, nonce: Bytes, server: Server, targetDir: Str, concurrency: int,
                         fs: FileSystem, ghost e: FileEntry)
    returns (first: Result<Snapshot, Fault>, second: Result<Snapshot, Fault>, fault: Option<Fault>, ghost run: Run,
             ghost a: Attempt)
    requires FitRequest(q.s.w, q.s.format, q) && Base64Law(q.s.w) && |nonce| == NONCE_SIZE
    requires q.s.dek.Some? && q.s.dek != Some(dek) && server.Now() == EMPTY && IsDisk(fs.Now())
    requires Dated(q.es) && Merkle.Longest(q.es) + 1 < q.depth && IsFilled(q.es, e)
    modifies server, fs
    ensures server.Sound(q.s.w)
    ensures a == Attempt(targetDir, q.depth, fs.reliable, old(fs.Now()), fs.Now(), fault, a.cache, a.rs)
    ensures first.Ok? && second.Ok? ==>
      && IsRecorded(q.s.w, q.s.format, run) && run.q.es == q.es && run.q.s.dek == Some(dek)
      && run.after == StateOf(server) && LastSnapshot(run) == second.value
      && IsLost(q.s.w, q.s.format, run, a)
    ensures server.reliable && Willing(q) ==> first.Ok? && second.Ok? && IsLostAnyway(q.s.w, q.s.format, run, a)
  {
    fault, second := None, Err(Unavailable);
    a := Attempt(targetDir, q.depth, fs.reliable, fs.Now(), fs.Now(), None, map[], []);
    ghost var start;
    first, start := FirstBackUp(q, server);
    run := start;
    if first.Ok? {
      var again := q.(s := q.s.(dek := Some(dek)), nonce := nonce, bloom := (h: Str) => false);
      second, fault, run, a := BackUpAgain(again, server, first.value, targetDir, concurrency, fs, start,
                                             e);
    }
  }
}
