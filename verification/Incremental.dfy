/** An incremental backup against a full one of the same scan. */
module Incremental {
  import opened Base
  import opened Primitives
  import opened Chunking
  import opened Paths
  import opened Trees
  import opened Merkle
  import opened Closure
  import opened Snapshots
  import opened PrevIndex
  import opened Backup
  import opened Runs
  import Utf8

  /** Different contents have different hash lists. */
  lemma HashListInjective(w: World, p: Params, a: Bytes, b: Bytes)
    requires HashLaw(w) && HashList(w.sha, p, a) == HashList(w.sha, p, b)
    ensures a == b
  {
    var cs, ds := ChunkAll(p, a), ChunkAll(p, b);
    assert |cs| == |HashList(w.sha, p, a)| == |ds|;
    forall i | 0 <= i < |cs|
      ensures cs[i] == ds[i]
    {
      assert w.sha(cs[i]) == HashList(w.sha, p, a)[i] == w.sha(ds[i]);
      NoCollision(w, cs[i], ds[i]);
    }
    assert cs == ds;
    ChunkAllIsChunking(p, a);
    ChunkAllIsChunking(p, b);
  }

  /** Different contents are digested differently. */
  ghost predicate Injective(digest: Digest) {
    forall a, b {:trigger digest(a), digest(b)} :: digest(a) == digest(b) ==> a == b
  }

  lemma DigesterInjective(w: World, p: Params)
    requires HashLaw(w)
    ensures Injective(Digester(w.sha, p))
  {
    var digest := Digester(w.sha, p);
    forall a, b {:trigger digest(a), digest(b)} | digest(a) == digest(b)
      ensures a == b
    {
      HashListInjective(w, p, a, b);
    }
  }

  /** The index of a backup that read every file. */
  ghost function ScanIndex(digest: Digest, es0: seq<FileEntry>): Index
    requires DistinctPaths(es0)
  {
    IndexOf(es0, FileTable(digest, None, es0))
  }

  /** e is skipped on account of e0, a file of the parent that had the same path, time and size. */
  ghost predicate SkippedFor(digest: Digest, es0: seq<FileEntry>, es: seq<FileEntry>, e0: FileEntry, e: FileEntry) {
    && e0 in es0 && e in es && e0.kind.Regular? && e.kind.Regular? && digest(e0.bytes) != []
    && e0.rel == e.rel && e0.mtime == e.mtime && e0.size == e.size
  }

  lemma SkipsMeans(digest: Digest, es0: seq<FileEntry>, es: seq<FileEntry>, e: FileEntry)
    requires DistinctPaths(es0) && e in es && e.kind.Regular?
    ensures Skips(Some(ScanIndex(digest, es0)), e) <==> exists e0 :: SkippedFor(digest, es0, es, e0, e)
    ensures forall e0 :: SkippedFor(digest, es0, es, e0, e) ==>
              HashesFor(digest, Some(ScanIndex(digest, es0)), e) == digest(e0.bytes)
  {
    var fh0 := FileTable(digest, None, es0);
    var index := ScanIndex(digest, es0);
    FileTableHas(digest, None, es0);
    PathsDetermine(es0);
    if Skips(Some(index), e) {
      IndexOfHas(es0, fh0, e.rel);
      var e0 :| e0 in es0 && FilledFile(fh0, e0) && e0.rel == e.rel;
      assert SkippedFor(digest, es0, es, e0, e);
    }
    forall e0 | SkippedFor(digest, es0, es, e0, e)
      ensures Skips(Some(index), e) && HashesFor(digest, Some(index), e) == digest(e0.bytes)
    {
      assert FilledFile(fh0, e0) && HashesFor(digest, None, e0) == digest(e0.bytes);
      assert index[e0.rel] == PrevFile(e0.mtime, e0.size, fh0[e0.rel]);
    }
  }

  /** Files that look unchanged are unchanged. */
  ghost predicate Trustworthy(digest: Digest, es0: seq<FileEntry>, es: seq<FileEntry>) {
    forall e0, e :: SkippedFor(digest, es0, es, e0, e) ==> e0.bytes == e.bytes
  }

  /**
    With the index of a full parent, the files get the same hashes as if all of them were read,
    exactly if those that look unchanged are.
   */
  lemma IncrementalTable(digest: Digest, es0: seq<FileEntry>, es: seq<FileEntry>)
    requires Injective(digest) && DistinctPaths(es0) && DistinctPaths(es)
    ensures FileTable(digest, Some(ScanIndex(digest, es0)), es) == FileTable(digest, None, es) <==>
      Trustworthy(digest, es0, es)
  {
    var prev := Some(ScanIndex(digest, es0));
    var inc, full := FileTable(digest, prev, es), FileTable(digest, None, es);
    FileTableHas(digest, prev, es);
    FileTableHas(digest, None, es);
    if inc == full {
      forall e0, e | SkippedFor(digest, es0, es, e0, e)
        ensures e0.bytes == e.bytes
      {
        SkipsMeans(digest, es0, es, e);
        assert inc[e.rel] == digest(e0.bytes) && full[e.rel] == digest(e.bytes);
      }
    }
    if Trustworthy(digest, es0, es) {
      forall e | e in es && e.kind.Regular?
        ensures inc[e.rel] == full[e.rel]
      {
        SkipsMeans(digest, es0, es, e);
      }
      forall rel | rel in inc || rel in full
        ensures rel in inc && rel in full && inc[rel] == full[rel]
      {
        var e :| e in es && e.kind.Regular? && e.rel == rel;
      }
      assert inc == full;
    }
  }

  /** What a full backup of es0 with the same options left behind. */
  ghost predicate FullParent(j: Job, es0: seq<FileEntry>, objects: Objects)
    requires Fit(j)
  {
    Dated(es0) && InStore(j.s.format, es0, FullTable(j.s.w.sha, JobParams(j), es0), objects)
  }

  /** The index of a job is what the walk of the full parent gave. */
  ghost predicate IndexOfFull(j: Job, es0: seq<FileEntry>, objects: Objects, depth: nat)
    requires Fit(j) && Proper(es0)
  {
    && j.prev.Some?
    && Walk(FetchFrom(j.s.format, objects), ScanRoot(j.s.format, JobParams(j), es0), [], depth, map[]) ==
      Ok(j.prev.value)
  }

  /** The table and the root of the job are those of a backup that reads every file. */
  ghost predicate TableTrue(j: Job)
    requires Fit(j)
  {
    JobTable(j) == FullTable(j.s.w.sha, JobParams(j), j.es)
  }

  ghost predicate RootTrue(j: Job)
    requires Fit(j)
  {
    JobRoot(j) == ScanRoot(j.s.format, JobParams(j), j.es)
  }

  /**
    The index read from the store of a full parent is that of its files; and a backup that uses it
    gives the same table and the same root as a full one if what looks unchanged is unchanged.
   */
  lemma IncrementalRefinesFull(j: Job, es0: seq<FileEntry>, objects: Objects, depth: nat)
    requires Fit(j) && FullParent(j, es0, objects) && IndexOfFull(j, es0, objects, depth)
    requires depth > Merkle.Longest(es0) + 1
    ensures j.prev.value == ScanIndex(JobDigest(j), es0)
    ensures TableTrue(j) <==> Trustworthy(JobDigest(j), es0, j.es)
    ensures TableTrue(j) ==> RootTrue(j)
  {
    IndexOfBackup(j.s.format, es0, FullTable(j.s.w.sha, JobParams(j), es0), objects, depth);
    DigesterInjective(j.s.w, JobParams(j));
    IncrementalTable(JobDigest(j), es0, j.es);
  }

  // ----- What the root says about the files

  /**
    The root hash determines the files: a scan with the root of a stored backup has the same files
    with content, each with the same time, size and hashes.
   */
  lemma RootDeterminesFiles(w: World, f: Format, objects: Objects, es: seq<FileEntry>, fh: FileHashes,
                            es': seq<FileEntry>, fh': FileHashes)
    requires HashLaw(w) && FormatLaw(w, f) && Keyed(w, objects) && Dated(es) && Dated(es')
    requires WellFormed(es) && es != [] && WellFormed(es') && es' != [] && PlainHashes(f, fh) && PlainHashes(f, fh')
    requires Closed(f, objects, Root(f, es, fh)) && Root(f, es, fh) == Root(f, es', fh')
    ensures IndexOf(es, fh) == IndexOf(es', fh')
  {
    var depth := Merkle.Longest(es) + Merkle.Longest(es') + 2;
    ClosedIsInStore(w, f, es, fh, objects);
    ClosedIsInStore(w, f, es', fh', objects);
    IndexOfBackup(f, es, fh, objects, depth);
    IndexOfBackup(f, es', fh', objects, depth);
  }

  /** The same path, kind and mode; of files the size and time too, of links the target. */
  ghost predicate LooksLike(e: FileEntry, e': FileEntry) {
    e.rel == e'.rel &&
    match e.kind
    case Regular =>
      e'.kind.Regular? && e.mode == e'.mode && e.size == e'.size && Utf8.Sanitize(e.mtime) == Utf8.Sanitize(e'.mtime)
    case Directory => e'.kind.Directory? && e.mode == e'.mode
    case Symlink(target) =>
      && e'.kind.Symlink? && target.Some? && e'.kind.target.Some?
      && Utf8.Sanitize(target.value) == Utf8.Sanitize(e'.kind.target.value)
    case Special => false
  }

  /** Content listed for an entry, if it is a file that is not empty. */
  function ContentOf(fh: FileHashes, e: FileEntry): seq<Str> {
    if e.kind.Regular? && e.rel in fh then fh[e.rel] else []
  }

  lemma SameNodeSameLooks(f: Format, es: seq<FileEntry>, fh: FileHashes, es': seq<FileEntry>, fh': FileHashes,
                          e: FileEntry, e': FileEntry, n: TreeNode)
    requires Proper(es) && Proper(es') && e.rel == e'.rel
    requires Describes(f, es, fh, e, n) && Describes(f, es', fh', e', n)
    ensures LooksLike(e, e') && ContentOf(fh, e) == ContentOf(fh', e')
  {
    TypesDiffer();
  }

  /**
    The root hash determines all that trees tell of a scan: with the root of a stored backup, every entry that has a
    node, be it a file, a directory or a link, has its like in the other scan, with the same content.
   */
  lemma RootDeterminesEntries(w: World, f: Format, objects: Objects, es: seq<FileEntry>, fh: FileHashes,
                              es': seq<FileEntry>, fh': FileHashes, e: FileEntry)
    returns (e': FileEntry)
    requires HashLaw(w) && FormatLaw(w, f) && Keyed(w, objects)
    requires WellFormed(es) && es != [] && WellFormed(es') && es' != [] && PlainHashes(f, fh) && PlainHashes(f, fh')
    requires Closed(f, objects, Root(f, es, fh)) && Root(f, es, fh) == Root(f, es', fh')
    requires e in es && Noded(es, e)
    ensures e' in es' && Noded(es', e') && LooksLike(e, e') && ContentOf(fh, e) == ContentOf(fh', e')
  {
    ClosedIsInStore(w, f, es, fh, objects);
    ClosedIsInStore(w, f, es', fh', objects);
    var dir := ParentDir(e.rel);
    var edges := ParentHasChain(f, es, fh, objects, e);
    ChainLeads(f, es', fh', objects, edges);
    DirTree(f, es, fh, objects, dir);
    DirTree(f, es', fh', objects, dir);
    var i := EntryIsDescribed(f, es, fh, e);
    var n := DirNodes(f, es, fh, dir)[i];
    e' := NodeOfEntry(f, es', fh', dir, n);
    assert GoodPath(e.rel);
    SameNodeSameLooks(f, es, fh, es', fh', e, e', n);
  }

  /** Tables that give the same index are the same. */
  lemma IndexDeterminesTable(digest: Digest, prev: Option<Index>, prev': Option<Index>, es: seq<FileEntry>)
    requires DistinctPaths(es) && IndexOf(es, FileTable(digest, prev, es)) == IndexOf(es, FileTable(digest, prev', es))
    ensures FileTable(digest, prev, es) == FileTable(digest, prev', es)
  {
    var a, b := FileTable(digest, prev, es), FileTable(digest, prev', es);
    FileTableHas(digest, prev, es);
    FileTableHas(digest, prev', es);
    forall rel | rel in a || rel in b
      ensures rel in a && rel in b && a[rel] == b[rel]
    {
      var e :| e in es && e.kind.Regular? && e.rel == rel;
      IndexAt(es, a, e);
      IndexAt(es, b, e);
    }
    assert a == b;
  }

  lemma IndexAt(es: seq<FileEntry>, fh: FileHashes, e: FileEntry)
    requires DistinctPaths(es) && e in es && e.kind.Regular? && e.rel in fh
    ensures e.rel in IndexOf(es, fh) <==> fh[e.rel] != []
    ensures e.rel in IndexOf(es, fh) ==> IndexOf(es, fh)[e.rel].content == fh[e.rel]
  {
    PathsDetermine(es);
    if e.rel in IndexOf(es, fh) {
      IndexOfHas(es, fh, e.rel);
    } else {
      assert !FilledFile(fh, e);
    }
  }

  /**
    Once it is stored, an incremental backup has the root of a full one exactly if the files that
    look unchanged are unchanged.
   */
  lemma IncrementalRoot(j: Job, es0: seq<FileEntry>, objects0: Objects, depth: nat, objects: Objects)
    requires Fit(j) && FullParent(j, es0, objects0) && IndexOfFull(j, es0, objects0, depth)
    requires depth > Merkle.Longest(es0) + 1
    requires Keyed(j.s.w, objects0) && IndexHere(j.prev, objects0) && Dated(j.es) && j.es != []
    requires Keyed(j.s.w, objects) && Closed(j.s.format, objects, JobRoot(j))
    ensures RootTrue(j) <==> Trustworthy(JobDigest(j), es0, j.es)
  {
    IncrementalRefinesFull(j, es0, objects0, depth);
    if RootTrue(j) {
      var full := j.(prev := None);
      JobHashesPlain(j, objects0);
      JobHashesPlain(full, objects0);
      RootDeterminesFiles(j.s.w, j.s.format, objects, j.es, JobTable(j), j.es, JobTable(full));
      IndexDeterminesTable(JobDigest(j), j.prev, None, j.es);
    }
  }
}
