/** A whole restore: find the files, download what they consist of, write them. */
module Restore {
  import opened Base
  import opened Primitives
  import opened Codec
  import opened Paths
  import opened Trees
  import opened Pool
  import opened Graph
  import opened Search
  import opened Transfer
  import opened Download
  import opened Disks
  import opened Metadata
  import opened Descent

  type FileMap = map<Str, seq<Str>>

  // ----- What is needed, and whether it is there

  ghost function DataHashes(files: FileMap): set<Str> {
    set p, h | p in files && h in files[p] :: h
  }

  method CollectDataHashes(files: FileMap) returns (all: set<Str>, hashList: seq<Str>)
    ensures all == DataHashes(files)
    ensures Distinct(hashList) && forall h :: h in hashList <==> h in all
  {
    all := {};
    var paths := InAnyOrder(files.Keys);
    var i := 0;
    while i < |paths|
      invariant i <= |paths|
      invariant forall h :: h in all <==> exists k :: 0 <= k < i && h in files[paths[k]]
    {
      assert paths[i] in paths;
      all := all + set h | h in files[paths[i]];
      i := i + 1;
    }
    forall p, h | p in files && h in files[p]
      ensures h in all
    {
      var k :| 0 <= k < |paths| && paths[k] == p;
    }
    forall h | h in all
      ensures h in DataHashes(files)
    {
      var k :| 0 <= k < |paths| && h in files[paths[k]];
      assert paths[k] in paths;
    }
    hashList := InAnyOrder(all);
  }

  method EnsureAllChunksPresent(all: set<Str>, cache: Cache) returns (fault: Option<Fault>)
    ensures fault == if all <= cache.Keys then None else Some(Missing)
  {
    var missing := [];
    var hashes := InAnyOrder(all);
    var i := 0;
    while i < |hashes|
      invariant i <= |hashes|
      invariant missing == [] <==> forall k :: 0 <= k < i ==> hashes[k] in cache
    {
      if hashes[i] !in cache {
        missing := missing + [hashes[i]];
      }
      i := i + 1;
    }
    if missing != [] {
      var k :| 0 <= k < |hashes| && hashes[k] !in cache;
      assert hashes[k] in hashes;
      return Some(Missing);
    }
    forall h | h in all
      ensures h in cache
    {
      var k :| 0 <= k < |hashes| && hashes[k] == h;
    }
    fault := None;
  }

  // ----- Writing

  function PieceOf(cache: Cache): Str -> Bytes {
    (h: Str) => if h in cache then cache[h] else []
  }

  /** What a file with these hashes is put together from. */
  function Assembled(cache: Cache, hashes: seq<Str>): Bytes {
    Concat(Map(PieceOf(cache), hashes))
  }

  lemma AssembledMore(cache: Cache, hashes: seq<Str>, i: nat)
    requires i < |hashes| && hashes[i] in cache
    ensures Assembled(cache, hashes[..i + 1]) == Assembled(cache, hashes[..i]) + cache[hashes[i]]
  {
    assert Map(PieceOf(cache), hashes[..i + 1]) == Map(PieceOf(cache), hashes[..i]) + [cache[hashes[i]]];
    ConcatAppend(Map(PieceOf(cache), hashes[..i]), [cache[hashes[i]]]);
    ConcatOne(cache[hashes[i]]);
  }

  /** Nothing but the file at that path has changed, and nothing but directories on the way to it has been made. */
  ghost predicate OnlyAt(path: Path, d: Disk, d': Disk) {
    && d'.files.Keys <= d.files.Keys + {path} && d.files.Keys <= d'.files.Keys
    && (forall q :: q in d.files && q != path ==> d'.files[q] == d.files[q])
    && d.dirs <= d'.dirs <= d.dirs + Ancestors(path)
  }

  /** One file, piece by piece. */
  method WriteFile(fs: FileSystem, path: Path, hashes: seq<Str>, cache: Cache) returns (fault: Option<Fault>)
    requires IsDisk(fs.Now())
    modifies fs
    ensures IsDisk(fs.Now()) && OnlyAt(path, old(fs.Now()), fs.Now())
    ensures fault.None? ==> fs.files == old(fs.files)[path := Assembled(cache, hashes)]
    ensures fault.None? ==> forall h :: h in hashes ==> h in cache
    ensures fs.reliable && !Blocked(old(fs.Now()), path) && (forall h :: h in hashes ==> h in cache) ==> fault.None?
  {
    var ok := fs.Create(path);
    if !ok {
      return Some(WriteFailed);
    }
    var i := 0;
    while i < |hashes|
      invariant i <= |hashes| && fs.files == old(fs.files)[path := Assembled(cache, hashes[..i])]
      invariant IsDisk(fs.Now()) && OnlyAt(path, old(fs.Now()), fs.Now())
      invariant forall k :: 0 <= k < i ==> hashes[k] in cache
    {
      if hashes[i] !in cache {
        assert hashes[i] in hashes;
        return Some(Missing);
      }
      AssembledMore(cache, hashes, i);
      ok := fs.Append(path, cache[hashes[i]]);
      if !ok {
        return Some(WriteFailed);
      }
      i := i + 1;
    }
    assert hashes[..i] == hashes;
    fault := None;
  }

  ghost predicate TreePaths(files: FileMap) {
    forall p :: p in files ==> TreePath(p)
  }

  /** The file with that path is in place, in full. */
  ghost predicate InPlace(targetDir: Str, files: FileMap, cache: Cache, p: Str, fs: map<Path, Bytes>)
    requires p in files
  {
    TargetOf(targetDir, p) in fs && fs[TargetOf(targetDir, p)] == Assembled(cache, files[p])
  }

  ghost predicate AllInPlace(targetDir: Str, files: FileMap, cache: Cache, paths: seq<Str>, fs: map<Path, Bytes>) {
    forall p :: p in paths && p in files ==> InPlace(targetDir, files, cache, p, fs)
  }

  ghost predicate IsTarget(targetDir: Str, files: FileMap, q: Path) {
    exists p :: p in files && TargetOf(targetDir, p) == q
  }

  /** What is not the place of one of the files is as it was. */
  ghost predicate FilesUntouched(targetDir: Str, files: FileMap, before: map<Path, Bytes>, after: map<Path, Bytes>) {
    && before.Keys <= after.Keys
    && forall q {:trigger IsTarget(targetDir, files, q)} :: !IsTarget(targetDir, files, q) ==>
         (q in after <==> q in before) && (q in before ==> after[q] == before[q])
  }

  /** Besides, no directories have been made but those on the way to such places. */
  ghost predicate Untouched(targetDir: Str, files: FileMap, before: Disk, after: Disk) {
    && FilesUntouched(targetDir, files, before.files, after.files) && before.dirs <= after.dirs
    && (forall q {:trigger LeadsToTarget(targetDir, files, q)} :: q in after.dirs && q !in before.dirs ==>
          LeadsToTarget(targetDir, files, q))
  }

  ghost predicate LeadsToTarget(targetDir: Str, files: FileMap, q: Path) {
    exists p :: p in files && Above(q, TargetOf(targetDir, p))
  }

  lemma UntouchedMore(targetDir: Str, files: FileMap, p: Str, before: Disk, now: Disk, after: Disk)
    requires p in files && Untouched(targetDir, files, before, now) && OnlyAt(TargetOf(targetDir, p), now, after)
    ensures Untouched(targetDir, files, before, after)
  {
    assert IsTarget(targetDir, files, TargetOf(targetDir, p));
    forall q | q in after.dirs && q !in before.dirs
      ensures LeadsToTarget(targetDir, files, q)
    {
      AncestorsAreAbove(TargetOf(targetDir, p), q);
      assert q in now.dirs ==> LeadsToTarget(targetDir, files, q);
    }
  }

  /** There is room for all the files: no place is a directory or below a file, and none is on the way to another. */
  ghost predicate Roomy(targetDir: Str, files: FileMap, before: Disk) {
    (forall p :: p in files ==> !Blocked(before, TargetOf(targetDir, p))) && TargetsApart(targetDir, files)
  }

  ghost predicate TargetsApart(targetDir: Str, files: FileMap) {
    forall p, p' :: p in files && p' in files ==> !Above(TargetOf(targetDir, p), TargetOf(targetDir, p'))
  }

  lemma RoomRemains(targetDir: Str, files: FileMap, before: Disk, now: Disk, p: Str)
    requires Roomy(targetDir, files, before) && Untouched(targetDir, files, before, now) && p in files
    ensures !Blocked(now, TargetOf(targetDir, p))
  {
    var path := TargetOf(targetDir, p);
    assert !Blocked(before, path) && !LeadsToTarget(targetDir, files, path);
    AboveAll(path);
    assert forall q :: Above(q, path) ==> !IsTarget(targetDir, files, q);
  }

  /** Where all files are in place, there was room for them. */
  lemma RoomWasThere(targetDir: Str, files: FileMap, before: Disk, after: Disk)
    requires IsDisk(after) && Untouched(targetDir, files, before, after)
    requires forall p :: p in files ==> TargetOf(targetDir, p) in after.files
    ensures Roomy(targetDir, files, before)
  {
    forall p | p in files
      ensures !Blocked(before, TargetOf(targetDir, p))
      ensures forall p' :: p' in files ==> !Above(TargetOf(targetDir, p'), TargetOf(targetDir, p))
    {
      AboveAll(TargetOf(targetDir, p));
    }
  }

  lemma InPlaceMore(targetDir: Str, files: FileMap, paths: seq<Str>, i: nat, cache: Cache, now: map<Path, Bytes>)
    requires TreePaths(files) && i < |paths| && paths[i] in files && Distinct(paths)
    requires AllInPlace(targetDir, files, cache, paths[..i], now)
    ensures AllInPlace(targetDir, files, cache, paths[..i + 1],
                       now[TargetOf(targetDir, paths[i]) := Assembled(cache, files[paths[i]])])
  {
    var after := now[TargetOf(targetDir, paths[i]) := Assembled(cache, files[paths[i]])];
    forall p | p in paths[..i + 1] && p in files
      ensures InPlace(targetDir, files, cache, p, after)
    {
      TargetsDiffer(targetDir, p, paths[i]);
      if p != paths[i] {
        assert p in paths[..i];
      }
    }
  }

  /** A file's hashes are needed. */
  lemma NeededOf(files: FileMap, p: Str)
    requires p in files
    ensures forall h :: h in files[p] ==> h in DataHashes(files)
  {
  }

  /**
    Puts every file together from its chunks.  Paths that a search builds are never refused, never
    collide, and nothing but their places is touched.  It succeeds only if there is room for the files,
    and on a reliable disk it does succeed if besides all their chunks are there.
   */
  method WriteRestoredFiles(targetDir: Str, fs: FileSystem, files: FileMap, cache: Cache) returns (fault: Option<Fault>)
    requires IsDisk(fs.Now())
    modifies fs
    ensures IsDisk(fs.Now()) && Untouched(targetDir, files, old(fs.Now()), fs.Now())
    ensures fault.None? && TreePaths(files) ==> forall p :: p in files ==> InPlace(targetDir, files, cache, p, fs.files)
    ensures fault.None? && TreePaths(files) ==> Roomy(targetDir, files, old(fs.Now()))
    ensures fs.reliable && TreePaths(files) && DataHashes(files) <= cache.Keys &&
            Roomy(targetDir, files, old(fs.Now())) ==>
              fault.None?
  {
    ghost var before := fs.Now();
    var paths := InAnyOrder(files.Keys);
    var i := 0;
    while i < |paths|
      invariant i <= |paths| && IsDisk(fs.Now()) && Untouched(targetDir, files, before, fs.Now())
      invariant TreePaths(files) ==> AllInPlace(targetDir, files, cache, paths[..i], fs.files)
    {
      assert paths[i] in paths;
      fault := WriteNext(targetDir, fs, files, cache, paths, i, before);
      if fault.Some? {
        return;
      }
      i := i + 1;
    }
    assert paths[..i] == paths;
    fault := None;
    if TreePaths(files) {
      forall p | p in files
        ensures InPlace(targetDir, files, cache, p, fs.files)
      {
        assert p in paths;
      }
      RoomWasThere(targetDir, files, before, fs.Now());
    }
  }

  method WriteNext(targetDir: Str, fs: FileSystem, files: FileMap, cache: Cache, paths: seq<Str>, i: nat,
                   ghost before: Disk)
    returns (fault: Option<Fault>)
    requires i < |paths| && paths[i] in files && Distinct(paths)
    requires IsDisk(fs.Now()) && Untouched(targetDir, files, before, fs.Now())
    requires TreePaths(files) ==> AllInPlace(targetDir, files, cache, paths[..i], fs.files)
    modifies fs
    ensures IsDisk(fs.Now()) && Untouched(targetDir, files, before, fs.Now())
    ensures fault.None? && TreePaths(files) ==> AllInPlace(targetDir, files, cache, paths[..i + 1], fs.files)
    ensures fs.reliable && TreePaths(files) && DataHashes(files) <= cache.Keys && Roomy(targetDir, files, before) ==>
      fault.None?
  {
    var p := paths[i];
    NeededOf(files, p);
    var target := SafeJoinTarget(targetDir, p);
    if TreePaths(files) {
      TargetsDiffer(targetDir, p, p);
      InPlaceMore(targetDir, files, paths, i, cache, fs.files);
      if Roomy(targetDir, files, before) {
        RoomRemains(targetDir, files, before, fs.Now(), p);
      }
    }
    if target.Err? {
      return Some(target.error);
    }
    ghost var now := fs.Now();
    fault := WriteFile(fs, target.value, files[p], cache);
    UntouchedMore(targetDir, files, p, before, now, fs.Now());
  }

  // ----- The whole of it

  /** Trees are requested one by one. */
  function TreeFetch(d: Reader, answers: Answers): Fetch {
    (h: Str) => TreeFrom(d.w, d.format, d.dek, h, answers([h]))
  }

  lemma SearchedTreePaths(fetch: Fetch, known: set<Str>, root: Str)
    requires Finite(fetch, known) && SearchFrom(fetch, known, root).fault.None?
    ensures TreePaths(SearchFrom(fetch, known, root).col.files)
  {
    var at := SearchCollects(fetch, known, root);
    CollectedTreePaths(fetch, root, at, SearchFrom(fetch, known, root).col);
  }

  lemma CollectedTreePaths(fetch: Fetch, root: Str, at: Visits, col: Collected)
    requires AllDone(fetch, root, at, col)
    ensures TreePaths(col.files)
  {
    forall p | p in col.files
      ensures TreePath(p)
    {
      var h, n :| Stems(fetch, at, p, h, n) && n.content.value == col.files[p];
      OneNameMore(Names(at[h]), n.name);
    }
  }

  /** The server answers any batch of the needed hashes with data for all of them, all decodable. */
  ghost predicate Serves(d: Reader, answers: Answers, needed: set<Str>) {
    forall b {:trigger BatchFine(d, answers, b)} :: b != [] && (forall h :: h in b ==> h in needed) ==>
      BatchFine(d, answers, b) && forall h :: h in b ==> h in Listed(answers(b).value)
  }

  /** The responses answer batches of needed hashes. */
  ghost predicate Answered(answers: Answers, rs: seq<Response>, needed: set<Str>) {
    forall r :: r in rs ==> exists b :: answers(b) == Ok(r) && b != [] && forall h :: h in b ==> h in needed
  }

  lemma {:induction false} BatchesHave(items: seq<Str>, size: nat)
    requires size > 0
    ensures forall b :: b in Batches(items, size) ==> b != [] && forall x :: x in b ==> x in items
    ensures forall x :: x in items ==> exists b :: b in Batches(items, size) && x in b
  {
    if items != [] {
      var n := Lesser(|items|, size);
      BatchesHave(items[n..], size);
      assert items == items[..n] + items[n..];
      assert items[..n] in Batches(items, size);
      forall b | b in Batches(items[n..], size)
        ensures b in Batches(items, size)
      {
        assert Batches(items, size) == [items[..n]] + Batches(items[n..], size);
      }
    }
  }

  lemma BatchesServed(d: Reader, answers: Answers, hashList: seq<Str>, needed: set<Str>)
    requires forall h :: h in hashList ==> h in needed
    requires Serves(d, answers, needed)
    ensures forall b :: b in Batches(hashList, DOWNLOAD_BATCH_SIZE) ==> BatchFine(d, answers, b)
  {
    BatchesHave(hashList, DOWNLOAD_BATCH_SIZE);
  }

  lemma AllServed(d: Reader, answers: Answers, hashList: seq<Str>, needed: set<Str>, rs: seq<Response>)
    requires forall h :: h in hashList <==> h in needed
    requires Serves(d, answers, needed)
    requires |rs| == |Batches(hashList, DOWNLOAD_BATCH_SIZE)|
    requires forall i :: 0 <= i < |rs| ==> answers(Batches(hashList, DOWNLOAD_BATCH_SIZE)[i]) == Ok(rs[i])
    ensures needed <= ListedAll(rs)
  {
    BatchesHave(hashList, DOWNLOAD_BATCH_SIZE);
    var batches := Batches(hashList, DOWNLOAD_BATCH_SIZE);
    forall h | h in needed
      ensures h in ListedAll(rs)
    {
      var b :| b in batches && h in b;
      var i :| 0 <= i < |batches| && batches[i] == b;
      assert BatchFine(d, answers, b);
      assert rs[i] in rs && h in Listed(rs[i]);
    }
  }

  lemma BatchesAnswered(answers: Answers, hashList: seq<Str>, needed: set<Str>, rs: seq<Response>)
    requires forall h :: h in hashList ==> h in needed
    requires |rs| == |Batches(hashList, DOWNLOAD_BATCH_SIZE)|
    requires forall i :: 0 <= i < |rs| ==> answers(Batches(hashList, DOWNLOAD_BATCH_SIZE)[i]) == Ok(rs[i])
    ensures Answered(answers, rs, needed)
  {
    BatchesHave(hashList, DOWNLOAD_BATCH_SIZE);
    forall r | r in rs
      ensures exists b :: answers(b) == Ok(r) && b != [] && forall h :: h in b ==> h in needed
    {
      var i :| 0 <= i < |rs| && rs[i] == r;
      assert Batches(hashList, DOWNLOAD_BATCH_SIZE)[i] in Batches(hashList, DOWNLOAD_BATCH_SIZE);
    }
  }

  /** Downloads everything that the files need, and makes sure that it is all there. */
  method FetchChunks(d: Reader, answers: Answers, files: FileMap, concurrency: int)
    returns (r: Result<Cache, Fault>, ghost rs: seq<Response>)
    ensures r.Ok? ==> DataHashes(files) <= r.value.Keys && CacheFrom(d, rs, r.value)
    ensures r.Ok? ==> Answered(answers, rs, DataHashes(files))
    ensures Serves(d, answers, DataHashes(files)) ==> r.Ok?
  {
    var all, hashList := CollectDataHashes(files);
    r, rs := DownloadChunkData(d, answers, hashList, concurrency);
    if Serves(d, answers, DataHashes(files)) {
      BatchesServed(d, answers, hashList, DataHashes(files));
      AllServed(d, answers, hashList, DataHashes(files), rs);
    }
    if r.Err? {
      return;
    }
    BatchesAnswered(answers, hashList, DataHashes(files), rs);
    var fault := EnsureAllChunksPresent(all, r.value);
    if fault.Some? {
      return Err(fault.value), rs;
    }
  }

  /** data is put together from pieces that have, in order, these hashes. */
  ghost predicate IsMadeOf(w: World, data: Bytes, hashes: seq<Str>) {
    exists pieces: seq<Bytes> :: Map(w.sha, pieces) == hashes && Concat(pieces) == data
  }

  /** From a verified cache, a file is put together from pieces with the right hashes. */
  lemma VerifiedPieces(w: World, cache: Cache, hashes: seq<Str>)
    requires CacheVerified(w, cache) && forall h :: h in hashes ==> h in cache
    ensures IsMadeOf(w, Assembled(cache, hashes), hashes)
  {
    var pieces := Map(PieceOf(cache), hashes);
    forall i | 0 <= i < |hashes|
      ensures Map(w.sha, pieces)[i] == hashes[i]
    {
      assert hashes[i] in hashes;
    }
    assert Map(w.sha, pieces) == hashes;
  }

  /** Each file is in place, and made of what its list says. */
  ghost predicate FaithfullyRestored(w: World, targetDir: Str, files: FileMap, fs: map<Path, Bytes>) {
    forall p :: p in files ==> TargetOf(targetDir, p) in fs && IsMadeOf(w, fs[TargetOf(targetDir, p)], files[p])
  }

  lemma VerifiedRestore(d: Reader, rs: seq<Response>, cache: Cache, targetDir: Str, files: FileMap,
                        fs: map<Path, Bytes>)
    requires d.verify && CacheFrom(d, rs, cache) && DataHashes(files) <= cache.Keys
    requires forall p :: p in files ==> InPlace(targetDir, files, cache, p, fs)
    ensures FaithfullyRestored(d.w, targetDir, files, fs)
  {
    VerifiedCache(d, rs, cache);
    forall p | p in files
      ensures TargetOf(targetDir, p) in fs && IsMadeOf(d.w, fs[TargetOf(targetDir, p)], files[p])
    {
      assert InPlace(targetDir, files, cache, p, fs);
      NeededOf(files, p);
      VerifiedPieces(d.w, cache, files[p]);
    }
  }

  /** What a restore was asked, what it found on the disk and left there, and what came of it. */
  datatype Attempt = Attempt(targetDir: Str, depth: nat, reliable: bool, before: Disk, after: Disk,
                             fault: Option<Fault>, cache: Cache, rs: seq<Response>)

  /** Every directory that was made is one of the snapshot, or on the way to one or to a file that was found. */
  ghost predicate DirsAccounted(fetch: Fetch, root: Str, files: FileMap, a: Attempt) {
    && a.before.dirs <= a.after.dirs
    && forall q {:trigger LeadsToTarget(a.targetDir, files, q)} :: q in a.after.dirs && q !in a.before.dirs ==>
         LeadsToTarget(a.targetDir, files, q) || LeadsToDir(fetch, root, a.targetDir, q)
  }

  /** Every directory of the snapshot is there, unless a file is in its way. */
  ghost predicate DirsThere(fetch: Fetch, root: Str, targetDir: Str, d: Disk) {
    forall edges, n, p :: DirAt(fetch, root, edges, n, p) ==> DirMade(d, TargetOf(targetDir, p))
  }

  /**
    What a restore guarantees, whatever the server answers and however the workers are interleaved.
    If the search fails, nothing is written.  No file is touched but at the places of the files that were found, and
    no directory is made but those of the snapshot and on the way.  A restore that succeeds had room for the files and
    has each of them in place, put together from what was answered for its hashes; with verification, from pieces with
    just those hashes; and on a reliable disk it has made the directories.  And it does succeed if the disk is reliable
    and has room for the files, the server serves what is needed, and the stack is deep enough for the longest path
    through the trees, which it is not if one of them reaches itself.
   */
  ghost predicate RestoreOutcome(d: Reader, answers: Answers, known: set<Str>, root: Str, a: Attempt)
    requires Finite(TreeFetch(d, answers), known)
  {
    var fetch := TreeFetch(d, answers);
    var found := SearchFrom(fetch, known, root);
    var files := found.col.files;
    && (found.fault.Some? ==> a.fault == found.fault && a.after == a.before)
    && FilesUntouched(a.targetDir, files, a.before.files, a.after.files) && DirsAccounted(fetch, root, files, a)
    && (a.fault.None? ==> WentThrough(d, answers, files, a) && Fits(fetch, root, a.depth))
    && (a.fault.None? && d.verify ==> FaithfullyRestored(d.w, a.targetDir, files, a.after.files))
    && (a.fault.None? && a.reliable ==> DirsThere(fetch, root, a.targetDir, a.after))
    && (found.fault.None? && a.reliable && Serves(d, answers, DataHashes(files)) &&
        Roomy(a.targetDir, files, a.before) && Fits(fetch, root, a.depth) ==>
          a.fault.None?)
  }

  /** All that was needed was had, there was room for the files, and they are in place. */
  ghost predicate WentThrough(d: Reader, answers: Answers, files: FileMap, a: Attempt) {
    && CacheFrom(d, a.rs, a.cache) && DataHashes(files) <= a.cache.Keys && Answered(answers, a.rs, DataHashes(files))
    && Roomy(a.targetDir, files, a.before)
    && forall p :: p in files ==> InPlace(a.targetDir, files, a.cache, p, a.after.files)
  }

  /** The last pass, over the trees that a search has found. */
  method RestoreMetadata(d: Reader, answers: Answers, ghost known: set<Str>, root: Str, trees: map<Str, TreeBlob>,
                         targetDir: Str, depth: nat, fs: FileSystem)
    returns (fault: Option<Fault>)
    requires Finite(TreeFetch(d, answers), known) && SearchFrom(TreeFetch(d, answers), known, root).fault.None?
    requires trees == SearchFrom(TreeFetch(d, answers), known, root).col.trees && IsDisk(fs.Now())
    modifies fs`dirs
    ensures IsDisk(fs.Now()) && OnlyDirs(TreeFetch(d, answers), root, targetDir, old(fs.dirs), fs.dirs)
    ensures fault.None? <==> Fits(TreeFetch(d, answers), root, depth)
    ensures fs.reliable && fault.None? ==> DirsThere(TreeFetch(d, answers), root, targetDir, fs.Now())
  {
    ghost var fetch, before := TreeFetch(d, answers), fs.dirs;
    SearchedIsReachable(fetch, known, root);
    FitsTheSame(fetch, root, trees, depth);
    assert IsAt(trees, root, [], root, []);
    fault := RestoreMeta(trees, targetDir, root, [], depth, fs, root, []);
    LeadsTheSame(fetch, root, trees, targetDir, before, fs.dirs);
    if fs.reliable && fault.None? {
      forall edges, n, p | DirAt(fetch, root, edges, n, p)
        ensures DirMade(fs.Now(), TargetOf(targetDir, p))
      {
        FoundIsReachable(fetch, root, trees);
        DirIsMade(Found(trees), targetDir, fs.Now(), root, depth, edges, n, p);
      }
    }
  }

  method PerformRestore(d: Reader, answers: Answers, ghost known: set<Str>, root: Str, targetDir: Str, depth: nat,
                        concurrency: int, fs: FileSystem)
    returns (fault: Option<Fault>, ghost a: Attempt)
    requires Finite(TreeFetch(d, answers), known) && IsDisk(fs.Now())
    modifies fs
    ensures IsDisk(fs.Now()) && RestoreOutcome(d, answers, known, root, a)
    ensures a == Attempt(targetDir, depth, fs.reliable, old(fs.Now()), fs.Now(), fault, a.cache, a.rs)
  {
    a := Attempt(targetDir, depth, fs.reliable, fs.Now(), fs.Now(), None, map[], []);
    var col := new TreeCollections();
    fault := col.ResolveTree(TreeFetch(d, answers), known, root, []);
    if fault.Some? {
      a := a.(fault := fault);
      return;
    }
    SearchedTreePaths(TreeFetch(d, answers), known, root);
    var chunks;
    ghost var rs;
    chunks, rs := FetchChunks(d, answers, col.files, concurrency);
    if chunks.Err? {
      a := a.(fault := Some(chunks.error), rs := rs);
      return Some(chunks.error), a;
    }
    fault := WriteRestoredFiles(targetDir, fs, col.files, chunks.value);
    a := a.(after := fs.Now(), fault := fault, cache := chunks.value, rs := rs);
    if fault.Some? {
      return;
    }
    if d.verify {
      VerifiedRestore(d, rs, chunks.value, targetDir, col.files, fs.files);
    }
    fault := RestoreMetadata(d, answers, known, root, col.trees, targetDir, depth, fs);
    a := a.(after := fs.Now(), fault := fault);
  }
}
