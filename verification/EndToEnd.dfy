/** A backup followed by a restore of it from an honest server. */
module EndToEnd {
  import opened Base
  import opened Primitives
  import opened Encrypt
  import opened Chunking
  import opened Paths
  import opened PackStore
  import opened Trees
  import opened Merkle
  import opened Graph
  import opened Search
  import opened Closure
  import opened Snapshots
  import opened PrevIndex
  import opened Transfer
  import opened Agreement
  import opened Uploads
  import opened Backup
  import opened Runs
  import opened Download
  import opened Disks
  import opened Descent
  import opened Metadata
  import opened Restore
  import Utf8

  // ----- An honest server

  /** An entry gives one pack, and regions in it that were asked for, as the index has them. */
  ghost predicate HonestEntry(store: Store, hs: seq<Str>, e: PackEntry) {
    e.chunks != [] && e.data.Ok? && forall m :: m in e.chunks ==>
      && m.hash in hs && m.hash in store.index && m == MetaOf(store, m.hash)
      && store.index[m.hash].pack < |store.packs| && e.data.value == store.packs[store.index[m.hash].pack]
  }

  ghost predicate HonestResponse(store: Store, hs: seq<Str>, r: Response) {
    && r.standalone == [] && (forall e :: e in r.packs ==> HonestEntry(store, hs, e))
    && (forall h :: h in hs && h in store.index ==> h in PackHashes(r.packs))
  }

  /** However the regions are grouped by packs, they are those of the hashes asked for. */
  ghost predicate Honest(store: Store, answers: Answers) {
    forall hs {:trigger HonestTo(store, answers, hs)} :: HonestTo(store, answers, hs)
  }

  ghost predicate HonestTo(store: Store, answers: Answers, hs: seq<Str>) {
    answers(hs).Ok? && HonestResponse(store, hs, answers(hs).value)
  }

  /** An honest server's tree is the one its index locates. */
  lemma HonestTree(d: Reader, store: Store, answers: Answers, h: Str)
    requires Honest(store, answers)
    ensures TreeFetch(d, answers)(h) == FetchStore(d.w, d.format, d.dek, store)(h)
  {
    assert HonestTo(store, answers, [h]);
    var r := answers([h]).value;
    if r.packs != [] {
      var e := r.packs[0];
      assert HonestEntry(store, [h], e);
      assert e.chunks[0] in e.chunks;
    }
  }

  /** Of an honest server only finitely many trees can be had. */
  lemma HonestFinite(d: Reader, store: Store, answers: Answers)
    requires Honest(store, answers)
    ensures Finite(TreeFetch(d, answers), store.index.Keys)
  {
    forall h {:trigger TreeFetch(d, answers)(h)}
      ensures TreeFetch(d, answers)(h) == FetchStore(d.w, d.format, d.dek, store)(h)
    {
      HonestTree(d, store, answers, h);
    }
  }

  // ----- Searching it

  /** The laws of the primitives and of the reader of trees. */
  ghost predicate LawfulReader(d: Reader) {
    HashLaw(d.w) && CodecLaw(d.w) && CipherLaw(d.w) && FormatLaw(d.w, d.format)
  }

  /** It is there, under this key and for this use. */
  predicate OpenFor(c: Contents, dek: Option<Bytes>, h: Str, kind: Kind) {
    h in c.store.index && h in c.keys && StoredFor(c, dek, h, kind)
  }

  /** Every tree that can be reached was stored under this key, as a tree. */
  ghost predicate ReachableOpen(d: Reader, c: Contents, root: Str) {
    forall edges {:trigger End(root, edges)} :: IsChain(FetchFrom(d.format, c.objects), root, edges) ==>
      OpenFor(c, d.dek, End(root, edges), Tree)
  }

  lemma HonestAgreesOrFails(d: Reader, c: Contents, answers: Answers, root: Str)
    requires LawfulReader(d) && Represents(d.w, c) && Honest(c.store, answers)
    requires Closed(d.format, c.objects, root) && KeysApart(d.w, d.format, c, d.dek)
    ensures AgreesOrFails(FetchFrom(d.format, c.objects), TreeFetch(d, answers), root)
  {
    var fetch := FetchFrom(d.format, c.objects);
    ServerAgreesOrFails(d.w, d.format, d.dek, c, root);
    forall edges | IsChain(fetch, root, edges)
      ensures AgreesAt(fetch, TreeFetch(d, answers), End(root, edges))
    {
      assert AgreesAt(fetch, FetchStore(d.w, d.format, d.dek, c.store), End(root, edges));
      HonestTree(d, c.store, answers, End(root, edges));
    }
  }

  /** A reachable tree is got from an honest server exactly if it was stored under the reader's key, as a tree. */
  lemma TreeIsGot(d: Reader, c: Contents, answers: Answers, root: Str, edges: seq<Edge>)
    requires LawfulReader(d) && Represents(d.w, c) && Honest(c.store, answers)
    requires Closed(d.format, c.objects, root) && KeysApart(d.w, d.format, c, d.dek)
    requires IsChain(FetchFrom(d.format, c.objects), root, edges)
    ensures TreeFetch(d, answers)(End(root, edges)) == FetchFrom(d.format, c.objects)(End(root, edges))
            <==> OpenFor(c, d.dek, End(root, edges), Tree)
  {
    var h := End(root, edges);
    assert TreeHere(d.format, c.objects, h);
    HonestTree(d, c.store, answers, h);
    if StoredFor(c, d.dek, h, Tree) {
      FetchAgrees(d.w, d.format, d.dek, c, h);
    } else {
      assert Shut(d.w, d.format, c, d.dek, h, Tree);
      FetchFails(d.w, d.format, d.dek, c, h);
    }
  }

  /**
    Searching a closed root on an honest server, if it succeeds, finds what there is; and it succeeds
    exactly if every reachable tree was stored under the reader's key.
   */
  lemma HonestSearch(d: Reader, c: Contents, answers: Answers, root: Str)
    requires LawfulReader(d) && Represents(d.w, c) && Honest(c.store, answers)
    requires Closed(d.format, c.objects, root) && KeysApart(d.w, d.format, c, d.dek)
    ensures Finite(TreeFetch(d, answers), c.store.index.Keys) && Finite(FetchFrom(d.format, c.objects), c.objects.Keys)
    ensures var there := SearchFrom(TreeFetch(d, answers), c.store.index.Keys, root);
            var here := SearchFrom(FetchFrom(d.format, c.objects), c.objects.Keys, root);
            && (there.fault.None? ==>
                  there == here && AgreeFrom(FetchFrom(d.format, c.objects), TreeFetch(d, answers), root))
            && (here.fault.None? ==> (there.fault.None? <==> ReachableOpen(d, c, root)))
  {
    var fetch, fetch' := FetchFrom(d.format, c.objects), TreeFetch(d, answers);
    FetchFinite(d.format, c.objects);
    HonestFinite(d, c.store, answers);
    HonestAgreesOrFails(d, c, answers, root);
    if SearchFrom(fetch', c.store.index.Keys, root).fault.None? {
      SearchAgrees(fetch, fetch', c.objects.Keys, c.store.index.Keys, root);
      forall edges | IsChain(fetch, root, edges)
        ensures OpenFor(c, d.dek, End(root, edges), Tree)
      {
        TreeIsGot(d, c, answers, root, edges);
      }
    } else if ReachableOpen(d, c, root) {
      forall edges | IsChain(fetch, root, edges)
        ensures fetch'(End(root, edges)) == fetch(End(root, edges))
      {
        TreeIsGot(d, c, answers, root, edges);
      }
      ResolveAgrees(fetch, fetch', c.objects.Keys, c.store.index.Keys, root, [], [], NOTHING);
    }
  }

  // ----- Content from an honest server

  /** It was stored under the reader's key, as data, and is not taken for a compressed form of something else. */
  ghost predicate Readable(d: Reader, c: Contents, h: Str) {
    h in c.objects && OpenFor(c, d.dek, h, Data) && !MisreadHere(d.w, c, h)
  }

  ghost predicate AllReadable(d: Reader, c: Contents, needed: set<Str>) {
    forall h :: h in needed ==> Readable(d, c, h)
  }

  lemma HonestChunk(d: Reader, c: Contents, e: PackEntry, hs: seq<Str>, m: ChunkMeta)
    requires LawfulReader(d) && Represents(d.w, c) && KeysApart(d.w, d.format, c, d.dek) && d.verify
    requires HonestEntry(c.store, hs, e) && m in e.chunks
    ensures DecodePackChunk(d.w, d.dek, d.verify, e.data.value, m).Ok? <==> Readable(d, c, m.hash)
  {
    assert !StoredFor(c, d.dek, m.hash, Data) ==> Shut(d.w, d.format, c, d.dek, m.hash, Data);
    ChunkFromStore(d.w, d.format, d.dek, d.verify, c, m.hash);
  }

  /** Readable data is served. */
  lemma HonestServes(d: Reader, c: Contents, answers: Answers, needed: set<Str>)
    requires LawfulReader(d) && Represents(d.w, c) && KeysApart(d.w, d.format, c, d.dek) && d.verify
    requires Honest(c.store, answers) && AllReadable(d, c, needed)
    ensures Serves(d, answers, needed)
  {
    forall b | b != [] && (forall h :: h in b ==> h in needed)
      ensures BatchFine(d, answers, b) && forall h :: h in b ==> h in Listed(answers(b).value)
    {
      assert HonestTo(c.store, answers, b);
      var r := answers(b).value;
      forall e | e in r.packs
        ensures PackFine(d, e)
      {
        EntryServed(d, c, needed, b, e);
      }
    }
  }

  lemma EntryServed(d: Reader, c: Contents, needed: set<Str>, hs: seq<Str>, e: PackEntry)
    requires LawfulReader(d) && Represents(d.w, c) && KeysApart(d.w, d.format, c, d.dek) && d.verify
    requires HonestEntry(c.store, hs, e) && AllReadable(d, c, needed) && forall h :: h in hs ==> h in needed
    ensures PackFine(d, e)
  {
    forall m | m in e.chunks
      ensures DecodePackChunk(d.w, d.dek, d.verify, e.data.value, m).Ok?
    {
      HonestChunk(d, c, e, hs, m);
    }
  }

  /** What was cached from an honest server's answers was readable. */
  lemma CachedIsReadable(d: Reader, c: Contents, answers: Answers, needed: set<Str>, rs: seq<Response>, cache: Cache)
    requires LawfulReader(d) && Represents(d.w, c) && KeysApart(d.w, d.format, c, d.dek) && d.verify
    requires Honest(c.store, answers)
    requires Answered(answers, rs, needed) && CacheFrom(d, rs, cache) && needed <= cache.Keys
    ensures AllReadable(d, c, needed)
  {
    forall h | h in needed
      ensures Readable(d, c, h)
    {
      assert FromSome(d, rs, h, cache[h]);
      var r :| r in rs && FromResponse(d, r, h, cache[h]);
      var b :| answers(b) == Ok(r) && b != [] && forall h :: h in b ==> h in needed;
      assert HonestTo(c.store, answers, b);
      assert FromPacks(d, r.packs, h, cache[h]);
      var e, m :| e in r.packs && m in e.chunks && e.data.Ok? && m.hash == h &&
                  DecodePackChunk(d.w, d.dek, d.verify, e.data.value, m) == Ok(cache[h]);
      HonestChunk(d, c, e, b, m);
    }
  }

  // ----- Bytes

  /** The chunks of some content, put together, are that content. */
  lemma AssembledIsContent(w: World, p: Params, cache: Cache, content: Bytes)
    requires HashLaw(w) && CacheVerified(w, cache) && forall h :: h in HashList(w.sha, p, content) ==> h in cache
    ensures Assembled(cache, HashList(w.sha, p, content)) == content
  {
    var chunks, hashes := ChunkAll(p, content), HashList(w.sha, p, content);
    ChunkAllIsChunking(p, content);
    forall i | 0 <= i < |chunks|
      ensures Map(PieceOf(cache), hashes)[i] == chunks[i]
    {
      assert hashes[i] in hashes;
      assert w.sha(cache[hashes[i]]) == hashes[i] == w.sha(chunks[i]);
      NoCollision(w, cache[hashes[i]], chunks[i]);
    }
    assert Map(PieceOf(cache), hashes) == chunks;
  }

  lemma EmptyHasNoChunks(sha: Bytes -> Str, p: Params, content: Bytes)
    ensures HashList(sha, p, content) == [] <==> content == []
  {
    ChunkAllIsChunking(p, content);
    var cs := ChunkAll(p, content);
    if cs != [] {
      assert IsLast(p, cs[|cs| - 1]);
      assert cs == cs[..|cs| - 1] + [cs[|cs| - 1]];
      ConcatAppend(cs[..|cs| - 1], [cs[|cs| - 1]]);
      ConcatOne(cs[|cs| - 1]);
    }
  }

  // ----- What is restored

  ghost predicate IsFilled(es: seq<FileEntry>, e: FileEntry) {
    e in es && e.kind.Regular? && e.bytes != []
  }

  /** The file is where it belongs, with its bytes. */
  ghost predicate IsRestored(targetDir: Str, e: FileEntry, fs: map<Path, Bytes>) {
    TargetOf(targetDir, e.rel) in fs && fs[TargetOf(targetDir, e.rel)] == e.bytes
  }

  /** Every file that is not empty has been restored. */
  ghost predicate AllRestored(targetDir: Str, es: seq<FileEntry>, fs: map<Path, Bytes>) {
    forall e :: IsFilled(es, e) ==> IsRestored(targetDir, e, fs)
  }

  /** Whatever has been written is a file of the scan. */
  ghost predicate OnlyRestored(targetDir: Str, es: seq<FileEntry>, before: map<Path, Bytes>, fs: map<Path, Bytes>) {
    forall q :: q in fs ==>
      || (q in before && fs[q] == before[q])
      || exists e :: IsFilled(es, e) && TargetOf(targetDir, e.rel) == q && fs[q] == e.bytes
  }

  /** The files with content in the full table are those that are not empty. */
  lemma FilledFiles(sha: Bytes -> Str, p: Params, es: seq<FileEntry>, e: FileEntry)
    requires DistinctPaths(es) && e in es
    ensures FilledFile(FullTable(sha, p, es), e) <==> IsFilled(es, e)
    ensures IsFilled(es, e) ==> FullTable(sha, p, es)[e.rel] == HashList(sha, p, e.bytes)
  {
    FileTableHas(Digester(sha, p), None, es);
    EmptyHasNoChunks(sha, p, e.bytes);
  }

  /** The paths of what has a node are built from good names, if there is no backslash in them. */
  lemma {:induction false} EntryTreePath(es: seq<FileEntry>, e: FileEntry)
    requires WellFormed(es) && Portable(es) && e in es && Noded(es, e)
    ensures TreePath(e.rel)
    decreases |e.rel|
  {
    assert HasParent(es, e) && GoodPath(e.rel);
    var name := BaseName(e.rel);
    if ParentDir(e.rel) == [] {
      OneNameMore([], name);
    } else {
      ParentOccupied(es, e);
      var d :| d in es && d.rel == ParentDir(e.rel) && OccupiedDir(es, d);
      EntryTreePath(es, d);
      var names :| GoodNames(names) && names != [] && PathOf(names) == d.rel;
      OneNameMore(names, name);
    }
  }

  /** On the way to an entry of a scan there are only directories. */
  lemma {:induction false} EntryBelow(es: seq<FileEntry>, e: FileEntry, names: seq<Str>, k: nat) returns (d: FileEntry)
    requires WellFormed(es) && e in es && GoodNames(names) && e.rel == PathOf(names) && 0 < k < |names|
    ensures d in es && d.kind.Directory? && d.rel == PathOf(names[..k])
    decreases |names|
  {
    var init := names[..|names| - 1];
    assert HasParent(es, e);
    JoinParts(PathOf(init), names[|names| - 1]);
    SplitPathOf(init);
    d :| d in es && d.rel == ParentDir(e.rel) && d.kind.Directory?;
    if k < |init| {
      assert init[..k] == names[..k];
      d := EntryBelow(es, d, init, k);
    }
  }

  /** So the names of a file do not begin those of another entry. */
  lemma NamesApart(es: seq<FileEntry>, e: FileEntry, e': FileEntry, names: seq<Str>, names': seq<Str>)
    requires WellFormed(es) && e in es && e' in es && e.kind.Regular? && names != []
    requires GoodNames(names') && e.rel == PathOf(names) && e'.rel == PathOf(names')
    ensures !(names < names')
  {
    if names < names' {
      assert names == names'[..|names|];
      var d := EntryBelow(es, e', names', |names|);
      PathsDetermine(es);
    }
  }

  lemma AboveMeansPrefix(targetDir: Str, names: seq<Str>, names': seq<Str>)
    requires GoodNames(names) && names != [] && GoodNames(names') && names' != []
    requires Above(TargetOf(targetDir, PathOf(names)), TargetOf(targetDir, PathOf(names')))
    ensures names < names'
  {
    var t := Clean(targetDir).parts;
    SafeJoinOfNames(targetDir, names);
    SafeJoinOfNames(targetDir, names');
    assert names == (t + names)[|t|..] && (t + names')[|t|..] == names';
  }

  /** And no file of a scan is on the way to another entry. */
  lemma FilesApart(targetDir: Str, es: seq<FileEntry>, e: FileEntry, e': FileEntry)
    requires WellFormed(es) && Portable(es) && e in es && e' in es && e.kind.Regular? && Noded(es, e')
    ensures !Above(TargetOf(targetDir, e.rel), TargetOf(targetDir, e'.rel))
  {
    EntryTreePath(es, e);
    EntryTreePath(es, e');
    var names :| GoodNames(names) && names != [] && PathOf(names) == e.rel;
    var names' :| GoodNames(names') && names' != [] && PathOf(names') == e'.rel;
    NamesApart(es, e, e', names, names');
    if Above(TargetOf(targetDir, e.rel), TargetOf(targetDir, e'.rel)) {
      AboveMeansPrefix(targetDir, names, names');
    }
  }

  // ----- Where it is restored

  /** Nothing lies in the target directory, and no file is at its place or on the way to it. */
  ghost predicate Vacant(targetDir: Str, before: Disk) {
    var t := Clean(targetDir);
    && (forall q {:trigger Above(t, q)} :: q in before.files || q in before.dirs ==> !Above(t, q))
    && (forall q {:trigger Above(q, t)} :: q in before.files ==> q != t && !Above(q, t))
  }

  lemma TargetAbove(targetDir: Str, p: Str)
    requires TreePath(p)
    ensures Above(Clean(targetDir), TargetOf(targetDir, p))
    ensures forall q :: Above(q, TargetOf(targetDir, p)) ==>
              q == Clean(targetDir) || Above(q, Clean(targetDir)) || Above(Clean(targetDir), q)
  {
    var names :| GoodNames(names) && names != [] && PathOf(names) == p;
    var t := Clean(targetDir);
    SafeJoinOfNames(targetDir, names);
    forall q | Above(q, TargetOf(targetDir, p))
      ensures q == t || Above(q, t) || Above(t, q)
    {
      AboveExtended(q, t, names);
    }
  }

  lemma AboveExtended(q: Path, t: Path, names: seq<Str>)
    requires Above(q, Path(t.rooted, t.parts + names))
    ensures q == t || Above(q, t) || Above(t, q)
  {
    var n := |q.parts|;
    assert q.parts == (t.parts + names)[..n];
    if n <= |t.parts| {
      assert q.parts == t.parts[..n];
    } else {
      assert q.parts[..|t.parts|] == t.parts;
    }
  }

  lemma VacantUnblocked(targetDir: Str, p: Str, before: Disk)
    requires TreePath(p) && Vacant(targetDir, before)
    ensures !Blocked(before, TargetOf(targetDir, p))
  {
    var t, path := Clean(targetDir), TargetOf(targetDir, p);
    TargetAbove(targetDir, p);
    assert path !in before.dirs by {
      assert Above(t, path);
    }
    forall q | q in Ancestors(path)
      ensures q !in before.files
    {
      AncestorsAreAbove(path, q);
      assert q == t || Above(q, t) || Above(t, q);
    }
  }

  lemma FoundApart(w: World, p: Params, es: seq<FileEntry>, targetDir: Str, files: FileMap)
    requires WellFormed(es) && Portable(es) && FoundAmong(w, p, es, files)
    ensures TargetsApart(targetDir, files)
  {
    forall rel, rel' | rel in files && rel' in files
      ensures !Above(TargetOf(targetDir, rel), TargetOf(targetDir, rel'))
    {
      var e := FoundEntry(w, p, es, files, rel);
      var e' := FoundEntry(w, p, es, files, rel');
      FilesApart(targetDir, es, e, e');
    }
  }

  /** There is room in a vacant directory for the files of a scan. */
  lemma VacantIsRoomy(w: World, p: Params, es: seq<FileEntry>, targetDir: Str, files: FileMap, before: Disk)
    requires WellFormed(es) && Portable(es) && FoundAmong(w, p, es, files) && Vacant(targetDir, before)
    ensures Roomy(targetDir, files, before)
  {
    FoundApart(w, p, es, targetDir, files);
    forall rel | rel in files
      ensures !Blocked(before, TargetOf(targetDir, rel))
    {
      var e := FoundEntry(w, p, es, files, rel);
      EntryTreePath(es, e);
      VacantUnblocked(targetDir, rel, before);
    }
  }

  // ----- What is restored

  /** What a restore into a vacant directory made of the files it found. */
  ghost predicate Restoration(w: World, targetDir: Str, files: FileMap, cache: Cache, before: Disk, after: Disk) {
    && CacheVerified(w, cache) && DataHashes(files) <= cache.Keys
    && Vacant(targetDir, before) && FilesUntouched(targetDir, files, before.files, after.files)
    && forall p :: p in files ==> InPlace(targetDir, files, cache, p, after.files)
  }

  /** A file that was found is restored. */
  lemma FoundIsRestored(w: World, p: Params, es: seq<FileEntry>, targetDir: Str, files: FileMap, cache: Cache,
                        before: Disk, after: Disk, e: FileEntry)
    requires HashLaw(w) && DistinctPaths(es) && Restoration(w, targetDir, files, cache, before, after)
    requires IsFilled(es, e) && e.rel in files && files[e.rel] == HashList(w.sha, p, e.bytes)
    ensures IsRestored(targetDir, e, after.files)
  {
    NeededOf(files, e.rel);
    AssembledIsContent(w, p, cache, e.bytes);
    assert InPlace(targetDir, files, cache, e.rel, after.files);
  }

  /** The files found are some of those of the scan, with their hashes. */
  ghost predicate FoundAmong(w: World, p: Params, es: seq<FileEntry>, files: FileMap) {
    var all := FilesOf(es, FullTable(w.sha, p, es));
    forall rel :: rel in files ==> rel in all && files[rel] == all[rel]
  }

  lemma FoundEntry(w: World, p: Params, es: seq<FileEntry>, files: FileMap, rel: Str) returns (e: FileEntry)
    requires DistinctPaths(es) && FoundAmong(w, p, es, files) && rel in files
    ensures IsFilled(es, e) && e.rel == rel && files[rel] == HashList(w.sha, p, e.bytes)
  {
    assert rel in FilesOf(es, FullTable(w.sha, p, es));
    e :| e in es && FilledFile(FullTable(w.sha, p, es), e) && e.rel == rel;
    FilledFiles(w.sha, p, es, e);
  }

  /** Whatever is written is right. */
  lemma WhatIsWrittenIsRight(w: World, p: Params, es: seq<FileEntry>, targetDir: Str, files: FileMap, cache: Cache,
                             before: Disk, after: Disk)
    requires HashLaw(w) && DistinctPaths(es) && Restoration(w, targetDir, files, cache, before, after)
    requires FoundAmong(w, p, es, files)
    ensures OnlyRestored(targetDir, es, before.files, after.files)
  {
    forall q | q in after.files && IsTarget(targetDir, files, q)
      ensures exists e :: IsFilled(es, e) && TargetOf(targetDir, e.rel) == q && after.files[q] == e.bytes
    {
      var rel :| rel in files && TargetOf(targetDir, rel) == q;
      var e := FoundEntry(w, p, es, files, rel);
      FoundIsRestored(w, p, es, targetDir, files, cache, before, after, e);
    }
  }

  /** Everything is restored exactly if everything was found. */
  lemma RestoredIfFound(w: World, p: Params, es: seq<FileEntry>, targetDir: Str, files: FileMap, cache: Cache,
                        before: Disk, after: Disk)
    requires HashLaw(w) && WellFormed(es) && Portable(es) && Restoration(w, targetDir, files, cache, before, after)
    requires FoundAmong(w, p, es, files)
    ensures AllRestored(targetDir, es, after.files) <==> files == FilesOf(es, FullTable(w.sha, p, es))
  {
    var all := FilesOf(es, FullTable(w.sha, p, es));
    if files == all {
      forall e | IsFilled(es, e)
        ensures IsRestored(targetDir, e, after.files)
      {
        FilledFiles(w.sha, p, es, e);
        assert e.rel in all;
        var e' := FoundEntry(w, p, es, files, e.rel);
        FoundIsRestored(w, p, es, targetDir, files, cache, before, after, e);
      }
    }
    if AllRestored(targetDir, es, after.files) {
      forall rel | rel in all
        ensures rel in files
      {
        var e := FoundEntry(w, p, es, all, rel);
        RestoredWasFound(w, p, es, targetDir, files, cache, before, after, e);
      }
      SameMap(files, all);
    }
  }

  lemma RestoredWasFound(w: World, p: Params, es: seq<FileEntry>, targetDir: Str, files: FileMap, cache: Cache,
                         before: Disk, after: Disk, e: FileEntry)
    requires WellFormed(es) && Portable(es) && Restoration(w, targetDir, files, cache, before, after)
    requires FoundAmong(w, p, es, files)
    requires IsFilled(es, e) && IsRestored(targetDir, e, after.files)
    ensures e.rel in files
  {
    EntryTreePath(es, e);
    TargetAbove(targetDir, e.rel);
    assert IsTarget(targetDir, files, TargetOf(targetDir, e.rel));
    var rel :| rel in files && TargetOf(targetDir, rel) == TargetOf(targetDir, e.rel);
    var e' := FoundEntry(w, p, es, files, rel);
    EntryTreePath(es, e');
    TargetsDiffer(targetDir, e.rel, rel);
  }

  // ----- Restoring a backup

  /** All data that the files of a scan consist of. */
  ghost function ScanData(w: World, p: Params, es: seq<FileEntry>): set<Str> {
    DataHashes(FilesOf(es, FullTable(w.sha, p, es)))
  }

  /** A scan whose backup is in the store: everything reachable from its root is there. */
  ghost predicate BackedUp(d: Reader, p: Params, es: seq<FileEntry>, c: Contents) {
    && WellFormed(es) && es != [] && Represents(d.w, c) && Closed(d.format, c.objects, ScanRoot(d.format, p, es))
  }

  /** The trees of all directories in which something lies were stored under the reader's key, as trees. */
  ghost predicate TreesOpen(d: Reader, p: Params, es: seq<FileEntry>, c: Contents)
    requires Proper(es)
  {
    forall dir {:trigger TreeOpen(d, p, es, c, dir)} :: Children(es, dir) != [] ==> TreeOpen(d, p, es, c, dir)
  }

  ghost predicate TreeOpen(d: Reader, p: Params, es: seq<FileEntry>, c: Contents, dir: Str)
    requires Proper(es)
  {
    OpenFor(c, d.dek, MerkleHash(d.format, es, FullTable(d.format.sha, p, es), dir), Tree)
  }

  lemma FullTablePlain(w: World, f: Format, p: Params, es: seq<FileEntry>)
    requires HashLaw(w) && f.sha == w.sha && DistinctPaths(es)
    ensures PlainHashes(f, FullTable(w.sha, p, es))
  {
    var fh := FullTable(w.sha, p, es);
    FileTableHas(Digester(w.sha, p), None, es);
    forall rel, h | rel in fh && h in fh[rel]
      ensures Utf8.Sanitize(h) == h
    {
      var e :| e in es && e.kind.Regular? && e.rel == rel;
      HashIsDigest(w, p, None, e, map[], h);
    }
    DigestsArePlain(f, w);
    PlainFrom(f, fh);
  }

  /** The backup is in the store, and all its data with it. */
  lemma BackupIsThere(d: Reader, p: Params, es: seq<FileEntry>, c: Contents)
    requires LawfulReader(d) && BackedUp(d, p, es, c)
    ensures InStore(d.format, es, FullTable(d.w.sha, p, es), c.objects)
    ensures ScanData(d.w, p, es) <= c.objects.Keys
  {
    var fh := FullTable(d.w.sha, p, es);
    SoundIsKeyed(d.w, c);
    FullTablePlain(d.w, d.format, p, es);
    ClosedIsInStore(d.w, d.format, es, fh, c.objects);
    ClosedExactly(d.format, es, fh, c.objects);
    forall h | h in ScanData(d.w, p, es)
      ensures h in c.objects
    {
      var rel :| rel in FilesOf(es, fh) && h in FilesOf(es, fh)[rel];
    }
  }

  /** What can be reached from the root are the trees of the directories in which something lies. */
  lemma ReachableAreDirs(d: Reader, p: Params, es: seq<FileEntry>, c: Contents)
    requires LawfulReader(d) && BackedUp(d, p, es, c)
    ensures ReachableOpen(d, c, ScanRoot(d.format, p, es)) <==> TreesOpen(d, p, es, c)
  {
    var f, fh := d.format, FullTable(d.w.sha, p, es);
    BackupIsThere(d, p, es, c);
    if ReachableOpen(d, c, ScanRoot(f, p, es)) {
      forall dir | Children(es, dir) != []
        ensures TreeOpen(d, p, es, c, dir)
      {
        ChildrenAre(es, dir);
        assert Children(es, dir)[0] in Children(es, dir);
        ParentOccupied(es, Children(es, dir)[0]);
        var edges := DirHasChain(f, es, fh, c.objects, dir);
        assert OpenFor(c, d.dek, End(Root(f, es, fh), edges), Tree);
      }
    }
    if TreesOpen(d, p, es, c) {
      forall edges | IsChain(FetchFrom(f, c.objects), ScanRoot(f, p, es), edges)
        ensures OpenFor(c, d.dek, End(ScanRoot(f, p, es), edges), Tree)
      {
        ChainLeads(f, es, fh, c.objects, edges);
        assert TreeOpen(d, p, es, c, PathTo(edges));
      }
    }
  }

  /**
    The search, if it succeeds, finds some of the files; and it succeeds and finds all of them exactly if all trees can
    be read, there is no backslash in the names, and the directories that hold files differ.
   */
  lemma SearchAmong(d: Reader, p: Params, es: seq<FileEntry>, c: Contents, answers: Answers)
    requires LawfulReader(d) && BackedUp(d, p, es, c) && Honest(c.store, answers) && KeysApart(d.w, d.format, c, d.dek)
    ensures Finite(TreeFetch(d, answers), c.store.index.Keys)
    ensures var found := SearchFrom(TreeFetch(d, answers), c.store.index.Keys, ScanRoot(d.format, p, es));
            && (found.fault.None? ==> FoundAmong(d.w, p, es, found.col.files))
            && (found.fault.None? <==> TreesOpen(d, p, es, c) && Portable(es))
            && (found.fault.None? ==>
                  (found.col.files == FilesOf(es, FullTable(d.w.sha, p, es)) <==>
                    FileDirsDiffer(d.format, es, FullTable(d.w.sha, p, es))))
  {
    var f, fh, root := d.format, FullTable(d.w.sha, p, es), ScanRoot(d.format, p, es);
    HonestSearch(d, c, answers, root);
    ReachableAreDirs(d, p, es, c);
    BackupIsThere(d, p, es, c);
    SearchOfBackup(f, es, fh, c.objects);
    if SearchFrom(TreeFetch(d, answers), c.store.index.Keys, root).fault.None? {
      SearchFindsFiles(FetchFrom(f, c.objects), c.objects.Keys, root);
      GenuineFilesAre(f, es, fh, c.objects, SearchFrom(FetchFrom(f, c.objects), c.objects.Keys, root).col.files);
    }
  }

  // ----- The stack and the directories

  /** Servers that agree on what is reachable have the same chains. */
  lemma {:induction false} AgreeingChains(fetch: Fetch, fetch': Fetch, root: Str, edges: seq<Edge>)
    requires AgreeFrom(fetch, fetch', root)
    ensures IsChain(fetch', root, edges) <==> IsChain(fetch, root, edges)
    decreases |edges|
  {
    if edges != [] {
      AgreeingChains(fetch, fetch', root, edges[..|edges| - 1]);
    }
  }

  /** A stack that is deeper than the longest path of the scan is deep enough. */
  lemma BackupFits(d: Reader, p: Params, es: seq<FileEntry>, c: Contents, answers: Answers, depth: nat)
    requires LawfulReader(d) && BackedUp(d, p, es, c) && Merkle.Longest(es) < depth
    requires AgreeFrom(FetchFrom(d.format, c.objects), TreeFetch(d, answers), ScanRoot(d.format, p, es))
    ensures Fits(TreeFetch(d, answers), ScanRoot(d.format, p, es), depth)
  {
    var f, fh, root := d.format, FullTable(d.w.sha, p, es), ScanRoot(d.format, p, es);
    BackupIsThere(d, p, es, c);
    forall edges | IsChain(TreeFetch(d, answers), root, edges)
      ensures |edges| < depth
    {
      AgreeingChains(FetchFrom(f, c.objects), TreeFetch(d, answers), root, edges);
      ChainIsShort(f, es, fh, c.objects, edges);
    }
    FitsExactly(TreeFetch(d, answers), root, depth);
  }

  /** So no tree of a backup reaches itself. */
  lemma BackupHasNoLoops(f: Format, es: seq<FileEntry>, fh: FileHashes, objects: Objects)
    requires InStore(f, es, fh, objects)
    ensures !Loops(FetchFrom(f, objects), Root(f, es, fh))
  {
    var fetch, root, depth := FetchFrom(f, objects), Root(f, es, fh), Merkle.Longest(es) + 1;
    forall edges | IsChain(fetch, root, edges)
      ensures |edges| < depth
    {
      ChainIsShort(f, es, fh, objects, edges);
    }
    FitsExactly(fetch, root, depth);
    FetchFinite(f, objects);
    EndsExactly(fetch, objects.Keys, root);
  }

  /** Every directory of the scan in which something lies is there. */
  ghost predicate DirsRestored(targetDir: Str, es: seq<FileEntry>, d: Disk) {
    forall e :: e in es && OccupiedDir(es, e) ==> TargetOf(targetDir, e.rel) in d.dirs
  }

  /** An occupied directory has its node at the end of a chain. */
  lemma DirEntryIsAt(f: Format, es: seq<FileEntry>, fh: FileHashes, objects: Objects, e: FileEntry)
    returns (edges: seq<Edge>, n: TreeNode)
    requires InStore(f, es, fh, objects) && e in es && OccupiedDir(es, e)
    ensures DirAt(FetchFrom(f, objects), Root(f, es, fh), edges, n, e.rel)
  {
    edges := ParentHasChain(f, es, fh, objects, e);
    n := EntryInDir(f, es, fh, e);
    DirTree(f, es, fh, objects, ParentDir(e.rel));
  }

  /** Nothing that lay there before is at the place of a path, or on the way to it. */
  lemma NothingBefore(targetDir: Str, p: Str, before: Disk, q: Path)
    requires TreePath(p) && Vacant(targetDir, before)
    requires q == TargetOf(targetDir, p) || Above(q, TargetOf(targetDir, p))
    ensures q !in before.files
  {
    var t := Clean(targetDir);
    TargetAbove(targetDir, p);
    assert q == t || Above(q, t) || Above(t, q);
  }

  /** Nor is any file that has been restored. */
  lemma NothingAfter(w: World, p: Params, es: seq<FileEntry>, targetDir: Str, files: FileMap, e: FileEntry, q: Path)
    requires WellFormed(es) && Portable(es) && FoundAmong(w, p, es, files) && e in es && OccupiedDir(es, e)
    requires q == TargetOf(targetDir, e.rel) || Above(q, TargetOf(targetDir, e.rel))
    ensures !IsTarget(targetDir, files, q)
  {
    forall rel | rel in files
      ensures TargetOf(targetDir, rel) != q
    {
      FileIsElsewhere(w, p, es, targetDir, files, rel, e);
    }
  }

  /** No file is in the way of a directory of the scan. */
  lemma DirUnobstructed(w: World, p: Params, es: seq<FileEntry>, targetDir: Str, files: FileMap, before: Disk,
                        after: Disk, e: FileEntry)
    requires WellFormed(es) && Portable(es) && FoundAmong(w, p, es, files) && Vacant(targetDir, before)
    requires FilesUntouched(targetDir, files, before.files, after.files) && e in es && OccupiedDir(es, e)
    ensures !Obstructed(after.files, TargetOf(targetDir, e.rel))
  {
    var path := TargetOf(targetDir, e.rel);
    EntryTreePath(es, e);
    forall q | q == path || q in Ancestors(path)
      ensures q !in after.files
    {
      AncestorsAreAbove(path, q);
      NothingBefore(targetDir, e.rel, before, q);
      NothingAfter(w, p, es, targetDir, files, e, q);
    }
  }

  lemma FileIsElsewhere(w: World, p: Params, es: seq<FileEntry>, targetDir: Str, files: FileMap, rel: Str, e: FileEntry)
    requires WellFormed(es) && Portable(es) && FoundAmong(w, p, es, files) && rel in files
    requires e in es && OccupiedDir(es, e)
    ensures TargetOf(targetDir, rel) != TargetOf(targetDir, e.rel)
    ensures !Above(TargetOf(targetDir, rel), TargetOf(targetDir, e.rel))
  {
    var e' := FoundEntry(w, p, es, files, rel);
    EntryTreePath(es, e);
    EntryTreePath(es, e');
    TargetsDiffer(targetDir, rel, e.rel);
    PathsDetermine(es);
    FilesApart(targetDir, es, e', e);
  }

  /** A restore that succeeds, on a reliable disk, brings back all directories in which something lies. */
  lemma DirsAreRestored(d: Reader, p: Params, es: seq<FileEntry>, c: Contents, answers: Answers, a: Attempt)
    requires LawfulReader(d) && BackedUp(d, p, es, c) && KeysApart(d.w, d.format, c, d.dek) && Honest(c.store, answers)
    requires Finite(TreeFetch(d, answers), c.store.index.Keys) && Vacant(a.targetDir, a.before)
    requires RestoreOutcome(d, answers, c.store.index.Keys, ScanRoot(d.format, p, es), a)
    requires a.reliable && a.fault.None?
    ensures DirsRestored(a.targetDir, es, a.after)
  {
    var f, fh, root := d.format, FullTable(d.w.sha, p, es), ScanRoot(d.format, p, es);
    var files := SearchFrom(TreeFetch(d, answers), c.store.index.Keys, root).col.files;
    SearchAmong(d, p, es, c, answers);
    HonestSearch(d, c, answers, root);
    BackupIsThere(d, p, es, c);
    forall e | e in es && OccupiedDir(es, e)
      ensures TargetOf(a.targetDir, e.rel) in a.after.dirs
    {
      var edges, n := DirEntryIsAt(f, es, fh, c.objects, e);
      AgreeingChains(FetchFrom(f, c.objects), TreeFetch(d, answers), root, edges);
      assert DirAt(TreeFetch(d, answers), root, edges, n, e.rel);
      DirUnobstructed(d.w, p, es, a.targetDir, files, a.before, a.after, e);
    }
  }

  // ----- Everything together

  /** A backup can be restored under a key: names are accepted, no files hide behind equal trees, all can be read. */
  ghost predicate Restorable(d: Reader, p: Params, es: seq<FileEntry>, c: Contents)
    requires Proper(es)
  {
    && Portable(es) && FileDirsDiffer(d.format, es, FullTable(d.w.sha, p, es))
    && TreesOpen(d, p, es, c) && AllReadable(d, c, ScanData(d.w, p, es))
  }

  /** Nothing but the server stands in the way: a vacant directory, a reliable disk, a stack deeper than any path. */
  ghost predicate Fair(a: Attempt, es: seq<FileEntry>) {
    a.reliable && Vacant(a.targetDir, a.before) && Merkle.Longest(es) < a.depth
  }

  /**
    Restoring a backup from an honest server, with verification, when nothing else stands in the way: whatever gets
    written is right; and everything is restored exactly if there is no backslash in the names, no two directories
    around files with content have the same tree, all trees and chunks were stored under the key they are read with,
    each for its use, and no chunk is misread as a compressed frame.
   */
  lemma RestoreOfBackup(d: Reader, p: Params, es: seq<FileEntry>, c: Contents, answers: Answers, a: Attempt)
    requires LawfulReader(d) && d.verify && BackedUp(d, p, es, c) && KeysApart(d.w, d.format, c, d.dek)
    requires Honest(c.store, answers) && Finite(TreeFetch(d, answers), c.store.index.Keys)
    requires Fair(a, es)
    requires RestoreOutcome(d, answers, c.store.index.Keys, ScanRoot(d.format, p, es), a)
    ensures a.fault.None? ==> OnlyRestored(a.targetDir, es, a.before.files, a.after.files)
    ensures a.fault.None? && AllRestored(a.targetDir, es, a.after.files) <==> Restorable(d, p, es, c)
  {
    SearchAmong(d, p, es, c, answers);
    var found := SearchFrom(TreeFetch(d, answers), c.store.index.Keys, ScanRoot(d.format, p, es));
    var files := found.col.files;
    if a.fault.None? {
      VerifiedCache(d, a.rs, a.cache);
      WhatIsWrittenIsRight(d.w, p, es, a.targetDir, files, a.cache, a.before, a.after);
      RestoredIfFound(d.w, p, es, a.targetDir, files, a.cache, a.before, a.after);
      CachedIsReadable(d, c, answers, DataHashes(files), a.rs, a.cache);
    } else if Restorable(d, p, es, c) {
      HonestServes(d, c, answers, DataHashes(files));
      VacantIsRoomy(d.w, p, es, a.targetDir, files, a.before);
      HonestSearch(d, c, answers, ScanRoot(d.format, p, es));
      BackupFits(d, p, es, c, answers, a.depth);
    }
  }

  /** With a tree that was not stored under the reader's key, or a backslash in a name, nothing is restored at all. */
  lemma ShutTreeStops(d: Reader, p: Params, es: seq<FileEntry>, c: Contents, answers: Answers, a: Attempt)
    requires LawfulReader(d) && BackedUp(d, p, es, c) && KeysApart(d.w, d.format, c, d.dek)
    requires !TreesOpen(d, p, es, c) || !Portable(es)
    requires Honest(c.store, answers) && Finite(TreeFetch(d, answers), c.store.index.Keys)
    requires RestoreOutcome(d, answers, c.store.index.Keys, ScanRoot(d.format, p, es), a)
    ensures a.fault.Some? && a.after == a.before
  {
    SearchAmong(d, p, es, c, answers);
  }
}
