/** Whole backups, and sequences of them against one server. */
module Runs {
  import opened Base
  import opened Primitives
  import opened Codec
  import opened Encrypt
  import opened Chunkers
  import opened Paths
  import opened PackStore
  import opened Merkle
  import opened Graph
  import opened Closure
  import opened Snapshots
  import opened PrevIndex
  import opened Transfer
  import opened Agreement
  import opened Uploads
  import opened Backup
  import opened TreePhase
  import Chunking
  import Utf8

  // ----- What a backup asks the filter

  /** A backup: how it is made, what was scanned, and the index of the parent if there is one. */
  datatype Job = Job(s: Settings, es: seq<FileEntry>, prev: Option<Index>)

  /** A scan as the walk of the file system yields it, a lawful format, and chunk options that stop nothing. */
  ghost predicate Fit(j: Job) {
    HashLaw(j.s.w) && FormatLaw(j.s.w, j.s.format) && Writes(j.s) && Acceptable(j.s.options) && WellFormed(j.es)
  }

  function JobParams(j: Job): Chunking.Params
    requires Acceptable(j.s.options)
  {
    ParamsOf(j.s.options, j.s.gear)
  }

  function JobDigest(j: Job): Digest
    requires Acceptable(j.s.options)
  {
    Digester(j.s.w.sha, JobParams(j))
  }

  function JobTable(j: Job): FileHashes
    requires Acceptable(j.s.options)
  {
    FileTable(JobDigest(j), j.prev, j.es)
  }

  /** The hash lists of a backup that reads every file, and the root it records. */
  function FullTable(sha: Bytes -> Str, p: Chunking.Params, es: seq<FileEntry>): FileHashes {
    FileTable(Digester(sha, p), None, es)
  }

  ghost function ScanRoot(f: Format, p: Chunking.Params, es: seq<FileEntry>): Str
    requires Proper(es)
  {
    Root(f, es, FullTable(f.sha, p, es))
  }

  ghost function JobRoot(j: Job): Str
    requires Fit(j)
  {
    Root(j.s.format, j.es, JobTable(j))
  }

  ghost function JobData(j: Job): set<Str>
    requires Fit(j)
  {
    AskedData(JobDigest(j), j.prev, j.es)
  }

  ghost function JobTrees(j: Job): set<Str>
    requires Fit(j)
  {
    AskedTrees(j.s.format, j.es, JobTable(j))
  }

  /** No false positive among the hashes that are asked. */
  ghost predicate FilterRight(j: Job, bloom: Str -> bool, objects0: Objects)
    requires Fit(j)
  {
    forall h :: h in JobData(j) + JobTrees(j) && bloom(h) ==> h in objects0
  }

  /** Everything that is asked is there, unless the filter claims to know it or the parent's index lists it. */
  ghost predicate AllThere(j: Job, bloom: Str -> bool, objects: Objects)
    requires Fit(j)
  {
    && (forall h :: h in JobData(j) ==> h in objects || bloom(h) || h in ListedIn(j.prev))
    && (forall h :: h in JobTrees(j) ==> h in objects || bloom(h))
  }

  /** What is new was not claimed by the filter. */
  ghost predicate NewUnclaimed(bloom: Str -> bool, objects0: Objects, objects: Objects) {
    forall h :: h in objects && h !in objects0 ==> !bloom(h)
  }

  // ----- When a backup's root is closed

  /** The text of a tree that is there is that of its directory. */
  lemma KeyedHasTree(w: World, f: Format, es: seq<FileEntry>, fh: FileHashes, objects: Objects, dir: Str)
    requires HashLaw(w) && FormatLaw(w, f) && Keyed(w, objects) && Proper(es) && MerkleHash(f, es, fh, dir) in objects
    ensures HasTree(f, es, fh, objects, dir)
  {
    var h := MerkleHash(f, es, fh, dir);
    assert w.sha(objects[h]) == h;
    NoCollision(w, objects[h], f.encode(NodeList(f, es, fh, dir)));
  }

  /** From a closed root all directories can be reached, and their trees are there. */
  lemma {:induction false} ClosedHasTree(w: World, f: Format, es: seq<FileEntry>, fh: FileHashes, objects: Objects,
                                         dir: Str)
    returns (edges: seq<Edge>)
    requires HashLaw(w) && FormatLaw(w, f) && Keyed(w, objects) && WellFormed(es) && es != [] && PlainHashes(f, fh)
    requires IsOccupied(es, dir)
    requires Closed(f, objects, Root(f, es, fh))
    ensures IsChain(FetchFrom(f, objects), Root(f, es, fh), edges)
    ensures LeadsTo(f, es, fh, edges, dir) && HasTree(f, es, fh, objects, dir)
    decreases |dir|
  {
    edges := [];
    if dir == [] {
      TopLeads(f, es, fh);
    } else {
      var d :| d in es && d.rel == dir && OccupiedDir(es, d);
      ParentOccupied(es, d);
      var init := ClosedHasTree(w, f, es, fh, objects, ParentDir(dir));
      edges := ClosedStep(f, es, fh, objects, init, d);
    }
    assert TreeHere(f, objects, End(Root(f, es, fh), edges));
    KeyedHasTree(w, f, es, fh, objects, dir);
  }

  lemma ClosedStep(f: Format, es: seq<FileEntry>, fh: FileHashes, objects: Objects, init: seq<Edge>, d: FileEntry)
    returns (edges: seq<Edge>)
    requires Faithful(f) && WellFormed(es) && PlainHashes(f, fh) && d in es && OccupiedDir(es, d)
    requires IsChain(FetchFrom(f, objects), Root(f, es, fh), init)
    requires LeadsTo(f, es, fh, init, ParentDir(d.rel)) && HasTree(f, es, fh, objects, ParentDir(d.rel))
    ensures IsChain(FetchFrom(f, objects), Root(f, es, fh), edges)
    ensures LeadsTo(f, es, fh, edges, d.rel)
  {
    var parent := ParentDir(d.rel);
    var n := EntryInDir(f, es, fh, d);
    var e := Edge(n.name, n.subtree);
    DirHolds(f, es, fh, objects, parent);
    assert Linked(FetchFrom(f, objects), MerkleHash(f, es, fh, parent), e);
    ExtendChain(FetchFrom(f, objects), Root(f, es, fh), init, e);
    edges := init + [e];
  }

  lemma ClosedIsInStore(w: World, f: Format, es: seq<FileEntry>, fh: FileHashes, objects: Objects)
    requires HashLaw(w) && FormatLaw(w, f) && Keyed(w, objects) && WellFormed(es) && es != [] && PlainHashes(f, fh)
    requires Closed(f, objects, Root(f, es, fh))
    ensures InStore(f, es, fh, objects)
  {
    forall dir | Children(es, dir) != []
      ensures HasTree(f, es, fh, objects, dir)
    {
      ChildrenAre(es, dir);
      var e := Children(es, dir)[0];
      assert e in Children(es, dir);
      ParentOccupied(es, e);
      var edges := ClosedHasTree(w, f, es, fh, objects, dir);
    }
  }

  /** A backup's root is closed exactly if its trees and the contents they list are there. */
  lemma RootClosedExactly(w: World, f: Format, es: seq<FileEntry>, fh: FileHashes, objects: Objects)
    requires HashLaw(w) && FormatLaw(w, f) && Keyed(w, objects) && WellFormed(es) && es != [] && PlainHashes(f, fh)
    ensures Closed(f, objects, Root(f, es, fh)) <==>
            HasTrees(f, es, fh, objects) && HasContent(es, fh, objects)
  {
    if Closed(f, objects, Root(f, es, fh)) {
      ClosedIsInStore(w, f, es, fh, objects);
      ClosedExactly(f, es, fh, objects);
    }
    if HasTrees(f, es, fh, objects) && HasContent(es, fh, objects) {
      ClosedExactly(f, es, fh, objects);
    }
  }

  // ----- The hashes of a job

  lemma DigestsArePlain(f: Format, w: World)
    requires HashLaw(w) && f.sha == w.sha
    ensures forall x {:trigger f.sha(x)} :: f.sha(x) != [] && Utf8.Sanitize(f.sha(x)) == f.sha(x)
  {
    forall x
      ensures f.sha(x) != [] && Utf8.Sanitize(f.sha(x)) == f.sha(x)
    {
      DigestIsProper(w, x);
      HexIsPlain(w.sha(x));
    }
  }

  lemma PlainFrom(f: Format, fh: FileHashes)
    requires forall x {:trigger f.sha(x)} :: f.sha(x) != [] && Utf8.Sanitize(f.sha(x)) == f.sha(x)
    requires forall rel, h :: rel in fh && h in fh[rel] ==> Utf8.Sanitize(h) == h
    ensures PlainHashes(f, fh)
  {
  }

  lemma JobHashesPlain(j: Job, objects0: Objects)
    requires Fit(j) && Keyed(j.s.w, objects0) && IndexHere(j.prev, objects0)
    ensures PlainHashes(j.s.format, JobTable(j))
  {
    FileTableHas(JobDigest(j), j.prev, j.es);
    forall rel, h | rel in JobTable(j) && h in JobTable(j)[rel]
      ensures Utf8.Sanitize(h) == h
    {
      var e :| e in j.es && e.kind.Regular? && e.rel == rel;
      HashIsDigest(j.s.w, JobParams(j), j.prev, e, objects0, h);
    }
    DigestsArePlain(j.s.format, j.s.w);
    PlainFrom(j.s.format, JobTable(j));
  }

  /** Every hash of a file is a digest. */
  lemma HashIsDigest(w: World, p: Chunking.Params, prev: Option<Index>, e: FileEntry, objects0: Objects, h: Str)
    requires HashLaw(w) && Keyed(w, objects0) && IndexHere(prev, objects0)
    requires h in HashesFor(Digester(w.sha, p), prev, e)
    ensures Utf8.Sanitize(h) == h
  {
    if Skips(prev, e) {
      DigestIsProper(w, objects0[h]);
    } else {
      var i :| 0 <= i < |HashList(w.sha, p, e.bytes)| && HashList(w.sha, p, e.bytes)[i] == h;
      DigestIsProper(w, Chunking.ChunkAll(p, e.bytes)[i]);
    }
    HexIsPlain(h);
  }

  /** All content is there exactly if all that the files read consist of is. */
  lemma ContentOfJob(j: Job, objects0: Objects, objects: Objects)
    requires Fit(j) && IndexHere(j.prev, objects0) && Extends(objects0, objects)
    ensures HasContent(j.es, JobTable(j), objects) <==> JobData(j) <= objects.Keys
  {
    FileTableHas(JobDigest(j), j.prev, j.es);
    if JobData(j) <= objects.Keys {
      forall e, h | e in j.es && e.kind.Regular? && e.rel in JobTable(j) && h in JobTable(j)[e.rel]
        ensures h in objects
      {
        if !Skips(j.prev, e) {
          assert h in JobData(j);
        }
      }
    }
    if HasContent(j.es, JobTable(j), objects) {
      forall h | h in JobData(j)
        ensures h in objects
      {
        var e :| e in j.es && e.kind.Regular? && !Skips(j.prev, e) && h in JobDigest(j)(e.bytes);
      }
    }
  }

  lemma TreesOfJob(j: Job, objects: Objects)
    requires Fit(j) && Keyed(j.s.w, objects)
    ensures HasTrees(j.s.format, j.es, JobTable(j), objects) <==> JobTrees(j) <= objects.Keys
  {
    var f, es, fh := j.s.format, j.es, JobTable(j);
    if JobTrees(j) <= objects.Keys {
      forall dir | Children(es, dir) != []
        ensures HasTree(f, es, fh, objects, dir)
      {
        DirIsAsked(f, es, fh, dir);
        KeyedHasTree(j.s.w, f, es, fh, objects, dir);
      }
    }
    if HasTrees(f, es, fh, objects) {
      forall h | h in JobTrees(j)
        ensures h in objects
      {
        var e :| e in es && h == MerkleHash(f, es, fh, ParentDir(e.rel));
        ChildrenAre(es, ParentDir(e.rel));
        assert e in Children(es, ParentDir(e.rel));
        assert HasTree(f, es, fh, objects, ParentDir(e.rel));
      }
    }
  }

  /**
    After the uploads of a backup, everything reachable from its root is there exactly if the
    filter gave no false positive on the hashes it was asked.
   */
  lemma ClosedIffFilterRight(j: Job, bloom: Str -> bool, objects0: Objects, objects: Objects)
    requires Fit(j) && j.es != [] && Keyed(j.s.w, objects0) && Keyed(j.s.w, objects)
    requires IndexHere(j.prev, objects0) && Extends(objects0, objects)
    requires AllThere(j, bloom, objects) && NewUnclaimed(bloom, objects0, objects)
    ensures Closed(j.s.format, objects, JobRoot(j)) <==> FilterRight(j, bloom, objects0)
  {
    JobHashesPlain(j, objects0);
    RootClosedExactly(j.s.w, j.s.format, j.es, JobTable(j), objects);
    ContentOfJob(j, objects0, objects);
    TreesOfJob(j, objects);
    if FilterRight(j, bloom, objects0) {
      assert JobData(j) + JobTrees(j) <= objects.Keys;
    }
  }

  // ----- What the two phases add up to

  /** The first regular file of the scan whose hash list has h is one that is read, and not skipped. */
  ghost predicate ReadFirst(j: Job, h: Str)
    requires Fit(j)
  {
    var files := Filter(IsRegular, j.es);
    ReadAmong(HasherFor(JobDigest(j), j.prev), j.prev, files, |files|, h)
  }

  /** What is asked is read first, or else the parent's index lists it. */
  lemma AskedIsReadOrListed(j: Job, h: Str)
    requires Fit(j) && h in JobData(j)
    ensures ReadFirst(j, h) || h in ListedIn(j.prev)
  {
    ReadAmongOrListed(JobDigest(j), j.prev, j.es, h);
  }

  /**
    What a backup appends: as data, just the hashes that are read first and not claimed by the filter; as trees, just
    those that are asked and not claimed; data before trees, and each data hash once.
   */
  ghost predicate UploadsOf(j: Job, bloom: Str -> bool, appended: seq<PackChunk>)
    requires Fit(j)
  {
    && (forall c {:trigger AskedUpload(j, bloom, c)} :: c in appended ==> AskedUpload(j, bloom, c))
    && (forall i, k :: 0 <= i < k < |appended| && appended[k].kind == Data ==>
          appended[i].kind == Data && appended[i].hash != appended[k].hash)
    && (forall h {:trigger UploadedAs(appended, h, Data)} {:trigger ReadFirst(j, h)} ::
          UploadedAs(appended, h, Data) <==> ReadFirst(j, h) && !bloom(h))
    && (forall h :: h in JobTrees(j) ==> UploadedAs(appended, h, Tree) || bloom(h))
  }

  /** It was asked for as what it is uploaded as, is not claimed, and has the compression of its content. */
  ghost predicate AskedUpload(j: Job, bloom: Str -> bool, c: PackChunk)
    requires Fit(j)
  {
    !bloom(c.hash) && WellPressed(j.s, c) && c.hash in (if c.kind == Data then JobData(j) else JobTrees(j))
  }

  /** The data of the first phase are those that are read first and not claimed. */
  ghost predicate DataOf(j: Job, bloom: Str -> bool, data: seq<PackChunk>)
    requires Fit(j)
  {
    var files := Filter(IsRegular, j.es);
    Hashes(data) == UploadsAfter(HasherFor(JobDigest(j), j.prev), j.prev, bloom, files, |files|)
  }

  lemma PhasesUpload(j: Job, bloom: Str -> bool, known: set<Str>, data: seq<PackChunk>, appended: seq<PackChunk>,
                     trees: map<Str, Str>)
    requires Fit(j) && Fresh(j.s, bloom, known, data, JobData(j)) && TreesAfter(j.s, bloom, JobTrees(j), data, appended)
    requires DataOf(j, bloom, data) && TableOfJob(j, trees) && HashesUploaded(bloom, trees, appended)
    ensures UploadsOf(j, bloom, appended)
  {
    forall i | 0 <= i < |data|
      ensures appended[i] == data[i] && NewData(j.s, bloom, known, JobData(j), data[i])
      ensures Map(HashOf, data)[i] == data[i].hash
    {
      assert appended[..|data|][i] == data[i];
      assert data[i] in data;
    }
    AllAreAsked(j, bloom, known, data, appended);
    forall i, k | 0 <= i < k < |appended| && appended[k].kind == Data
      ensures appended[i].kind == Data && appended[i].hash != appended[k].hash
    {
      assert k < |data|;
      assert Map(HashOf, data)[i] != Map(HashOf, data)[k];
    }
    forall h
      ensures UploadedAs(appended, h, Data) <==> ReadFirst(j, h) && !bloom(h)
    {
      DataUploaded(data, appended, h);
      var files := Filter(IsRegular, j.es);
      UploadsAfterIs(HasherFor(JobDigest(j), j.prev), j.prev, bloom, files, |files|, h);
    }
    TreesUploaded(j, bloom, trees, appended);
  }

  /** What is uploaded as data is uploaded in the first phase. */
  lemma DataUploaded(data: seq<PackChunk>, appended: seq<PackChunk>, h: Str)
    requires |data| <= |appended| && forall i :: 0 <= i < |data| ==> appended[i] == data[i]
    requires forall i :: 0 <= i < |appended| ==> (appended[i].kind == Data <==> i < |data|)
    ensures UploadedAs(appended, h, Data) <==> h in Hashes(data)
  {
    if UploadedAs(appended, h, Data) {
      var c :| c in appended && c.hash == h && c.kind == Data;
      var i :| 0 <= i < |appended| && appended[i] == c;
      assert data[i] in data;
    }
    if h in Hashes(data) {
      var c :| c in data && c.hash == h;
      var i :| 0 <= i < |data| && data[i] == c;
      assert appended[i] in appended;
    }
  }

  /** The table has just the directories in which something lies, each with the hash of its tree. */
  ghost predicate TableOfJob(j: Job, trees: map<Str, Str>)
    requires Fit(j)
  {
    && (forall dir :: dir in trees <==> Children(j.es, dir) != [])
    && (forall dir :: dir in trees ==> trees[dir] == MerkleHash(j.s.format, j.es, JobTable(j), dir))
  }

  lemma TreesUploaded(j: Job, bloom: Str -> bool, trees: map<Str, Str>, appended: seq<PackChunk>)
    requires Fit(j) && TableOfJob(j, trees) && HashesUploaded(bloom, trees, appended)
    ensures forall h :: h in JobTrees(j) ==> UploadedAs(appended, h, Tree) || bloom(h)
  {
    forall h | h in JobTrees(j)
      ensures UploadedAs(appended, h, Tree) || bloom(h)
    {
      var e :| e in j.es && h == MerkleHash(j.s.format, j.es, JobTable(j), ParentDir(e.rel));
      ChildrenAre(j.es, ParentDir(e.rel));
      assert e in Children(j.es, ParentDir(e.rel));
    }
  }

  lemma AllAreAsked(j: Job, bloom: Str -> bool, known: set<Str>, data: seq<PackChunk>, appended: seq<PackChunk>)
    requires Fit(j) && TreesAfter(j.s, bloom, JobTrees(j), data, appended)
    requires forall i :: 0 <= i < |data| ==> appended[i] == data[i] && NewData(j.s, bloom, known, JobData(j), data[i])
    ensures forall c {:trigger AskedUpload(j, bloom, c)} :: c in appended ==> AskedUpload(j, bloom, c)
    ensures forall k :: 0 <= k < |appended| ==> (appended[k].kind == Data <==> k < |data|)
  {
    forall k | 0 <= k < |appended|
      ensures AskedUpload(j, bloom, appended[k])
      ensures appended[k].kind == Data <==> k < |data|
    {
      assert k >= |data| ==> NewTree(j.s, bloom, JobTrees(j), appended[k]);
    }
  }

  lemma NothingClaimedIsNew(j: Job, bloom: Str -> bool, c: Contents, appended: seq<PackChunk>, c0: Contents)
    requires Fit(j) && UploadsOf(j, bloom, appended) && Represents(j.s.w, c0)
    requires IsProgress(j.s, c, [], appended, c0)
    ensures NewUnclaimed(bloom, c0.objects, c.objects)
  {
    forall h | h in c.objects && h !in c0.objects
      ensures !bloom(h)
    {
      assert h in c.store.index && h !in c0.store.index;
      assert Accounted(c0.store, c.store, Labels(appended), h);
      var a :| a in appended && LabelOf(a).hash == h;
      assert AskedUpload(j, bloom, a);
    }
  }

  /** Once all uploads are there, so is everything that is asked, but for what the filter or the index claims. */
  lemma UploadsSuffice(j: Job, bloom: Str -> bool, appended: seq<PackChunk>, objects: Objects)
    requires Fit(j) && UploadsOf(j, bloom, appended)
    requires forall h, kind :: UploadedAs(appended, h, kind) ==> h in objects
    ensures AllThere(j, bloom, objects)
  {
    forall h | h in JobData(j)
      ensures h in objects || bloom(h) || h in ListedIn(j.prev)
    {
      AskedIsReadOrListed(j, h);
    }
  }

  /** Both phases: what is read first and all trees are uploaded, unless the filter claims to know them. */
  method UploadAll(j: Job, server: Server, bloom: Str -> bool)
    returns (r: Result<map<Str, Str>, Fault>, ghost packs: seq<seq<PackChunk>>)
    requires Fit(j) && CipherLaw(j.s.w) && server.Sound(j.s.w)
    modifies server`store, server`keys, server`objects
    ensures server.Sound(j.s.w) && Follows(j.s.dek, old(server.Now()), server.Now())
    ensures r.Ok? ==> AllThere(j, bloom, server.objects) && NewUnclaimed(bloom, old(server.objects), server.objects)
    ensures r.Ok? ==> MadeBy(old(server.Now()), server.Now(), packs, j.s.dek)
    ensures r.Ok? ==> UploadsOf(j, bloom, Concat(packs)) && FullyPacked(PACK_TARGET_SIZE, Concat(packs), packs)
    ensures r.Ok? ==> TableOfJob(j, r.value)
    ensures server.reliable && j.s.readable ==> r.Ok?
  {
    ghost var aim := Aim(JobData(j), server.Now());
    var pack := new PackBuffer();
    packs := [];
    MadeByNone(aim.before, j.s.dek);
    var table, known := ProcessFileChunks(j.s, server, pack, j.es, j.prev, bloom, JobDigest(j), aim);
    if table.Err? {
      return Err(table.error), packs;
    }
    ghost var data := pack.appended;
    r := BuildAndUploadTrees(j.s, server, pack, j.es, table.value, bloom, aim.before);
    if r.Err? {
      return;
    }
    packs := pack.flushed;
    PhasesUpload(j, bloom, known, data, pack.appended, r.value);
    NothingClaimedIsNew(j, bloom, server.Now(), pack.appended, aim.before);
    UploadsArrive(j.s, server.Now(), pack.appended, aim.before);
    UploadsSuffice(j, bloom, pack.appended, server.objects);
  }

  // ----- One backup

  /** What a client asks for: its scan, its options, its filter, its keys if it encrypts, its parent if it names one. */
  datatype Request = Request(es: seq<FileEntry>, s: Settings, tmk: Option<Bytes>, nonce: Bytes, bloom: Str -> bool,
                             depth: nat, base: Option<Snapshot>)

  /** A data key is drawn exactly if there is a tenant key, and a nonce to wrap it with. */
  ghost predicate FitRequest(w: World, f: Format, q: Request) {
    && q.s.w == w && q.s.format == f && (q.s.dek.Some? <==> q.tmk.Some?) && |q.nonce| == NONCE_SIZE
    && HashLaw(w) && CodecLaw(w) && CipherLaw(w) && Fit(Job(q.s, q.es, None))
  }

  /** Nothing on the client's side stands in the way: files can be read, and the tenant key, if there is one, is one. */
  ghost predicate Willing(q: Request) {
    q.s.readable && (q.tmk.Some? ==> GoodKey(q.tmk.value))
  }

  /** The wrapped data key that goes into the snapshot; empty without encryption. */
  function WrapIf(w: World, tmk: Option<Bytes>, nonce: Bytes, dek: Option<Bytes>): Result<Str, Fault> {
    if tmk.None? || dek.None? then Ok([]) else WrapDek(w, tmk.value, nonce, dek.value)
  }

  /** The key a parent is read under: its own if it can be unwrapped, or else none. */
  function ParentKey(w: World, tmk: Option<Bytes>, parent: Snapshot): Option<Bytes> {
    if tmk.None? || parent.wrapped == [] then None
    else
      match UnwrapDek(w, tmk.value, parent.wrapped)
      case Ok(dek) => Some(dek)
      case Err(_) => None
  }

  /** What there is on a server at some time. */
  datatype State = State(contents: Contents, snapshots: seq<Snapshot>)

  ghost function StateOf(server: Server): State
    reads server
  {
    State(server.Now(), server.snapshots)
  }

  /**
    The record of one backup: what it was asked, which parent it had and the key that one was read under, the
    packs it has made, and what the server held before and after.
   */
  datatype Run = Run(q: Request, j: Job, parent: Option<Snapshot>, parentKey: Option<Bytes>, packs: seq<seq<PackChunk>>,
                     before: State, after: State)

  /** The run has recorded its snapshot, whether or not it was told so. */
  ghost predicate HasRecorded(r: Run)
    requires Fit(r.j)
  {
    && WrapIf(r.j.s.w, r.q.tmk, r.q.nonce, r.j.s.dek).Ok?
    && r.after.snapshots == r.before.snapshots +
      [Snapshot(JobRoot(r.j), WrapIf(r.j.s.w, r.q.tmk, r.q.nonce, r.j.s.dek).value)]
  }

  /** The index is what the walk of the parent on the server gave. */
  ghost predicate IndexFrom(r: Run) {
    r.j.prev.Some? ==>
      && r.parent.Some? && r.parent.value in r.before.snapshots
      && (r.parentKey.None? || r.parentKey == ParentKey(r.j.s.w, r.q.tmk, r.parent.value))
      && WalkUnder(r.q, r.parentKey, r.before.contents.store, r.parent.value.root) == Ok(r.j.prev.value)
  }

  /** Everything asked has been dealt with, by the packs that were made. */
  ghost predicate Uploaded(r: Run)
    requires Fit(r.j)
  {
    && AllThere(r.j, r.q.bloom, r.after.contents.objects)
    && NewUnclaimed(r.q.bloom, r.before.contents.objects, r.after.contents.objects)
    && MadeBy(r.before.contents, r.after.contents, r.packs, r.j.s.dek)
    && UploadsOf(r.j, r.q.bloom, Concat(r.packs)) && FullyPacked(PACK_TARGET_SIZE, Concat(r.packs), r.packs)
  }

  /**
    A run of a backup: whatever fails, the server's contents stay meaningful and lose nothing, and if a
    snapshot is recorded, it is that of the scan, and all was uploaded before.
   */
  ghost predicate IsRun(w: World, f: Format, r: Run) {
    && FitRequest(w, f, r.q) && r.j == Job(r.q.s, r.q.es, r.j.prev)
    && Represents(w, r.before.contents) && Represents(w, r.after.contents)
    && Follows(r.q.s.dek, r.before.contents, r.after.contents)
    && IndexFrom(r)
    && (r.after.snapshots != r.before.snapshots ==> r.j.es != [] && HasRecorded(r) && Uploaded(r))
  }

  /** The index of the trees below some root, as they can be read under this key. */
  ghost function WalkUnder(q: Request, key: Option<Bytes>, store: Store, root: Str): Result<Index, Fault> {
    Walk(FetchStore(q.s.w, q.s.format, key, store), root, [], q.depth, map[])
  }

  /** The index of a parent as it can be read under the key that its snapshot gives. */
  ghost function OwnIndex(q: Request, store: Store, parent: Option<Snapshot>): Option<Index> {
    if parent.None? then None
    else
      match WalkUnder(q, ParentKey(q.s.w, q.tmk, parent.value), store, parent.value.root)
      case Ok(index) => Some(index)
      case Err(_) => None
  }

  /**
    The index of the parent; none if there is no parent, or if anything goes wrong on the way.  If its
    wrapped key cannot be had, the parent is read as if it were not encrypted.
   */
  method LoadPreviousIndex(q: Request, server: Server, parent: Option<Snapshot>)
    returns (prev: Option<Index>, key: Option<Bytes>)
    ensures prev.Some? ==> parent.Some? && (key.None? || key == ParentKey(q.s.w, q.tmk, parent.value))
    ensures prev.Some? ==> WalkUnder(q, key, server.store, parent.value.root) == Ok(prev.value)
    ensures server.reliable ==> prev == OwnIndex(q, server.store, parent)
    ensures server.reliable && prev.Some? ==> key == ParentKey(q.s.w, q.tmk, parent.value)
  {
    var unreachable: bool := *;
    if parent.None? || (unreachable && !server.reliable) {
      return None, None;
    }
    var dek := ParentKey(q.s.w, q.tmk, parent.value);
    unreachable := *;
    if unreachable && !server.reliable {
      dek := None;
    }
    var indexer := new Indexer();
    var fault := indexer.Visit(FetchStore(q.s.w, q.s.format, dek, server.store), parent.value.root, [], q.depth);
    if fault.Some? {
      return None, None;
    }
    return Some(indexer.index), dek;
  }

  /** Wrap the key, scan, index the parent, upload, record. */
  method PerformBackup(q: Request, server: Server, parent: Option<Snapshot>)
    returns (r: Result<Snapshot, Fault>, ghost run: Run)
    requires FitRequest(q.s.w, q.s.format, q) && server.Sound(q.s.w)
    requires parent.Some? ==> parent.value in server.snapshots
    modifies server
    ensures IsRun(q.s.w, q.s.format, run) && run.q == q && run.parent == parent
    ensures run.before == old(StateOf(server)) && run.after == StateOf(server)
    ensures r.Ok? ==> run.after.snapshots == run.before.snapshots + [r.value] && q.es != []
    ensures server.reliable && Willing(q) ==> (r.Ok? <==> q.es != [])
    ensures q.tmk.Some? && !GoodKey(q.tmk.value) ==> r.Err? && run.after == run.before
    ensures server.reliable && Willing(q) ==> run.j.prev == OwnIndex(q, run.before.contents.store, parent)
    ensures server.reliable && run.j.prev.Some? ==> run.parentKey == ParentKey(q.s.w, q.tmk, parent.value)
  {
    ghost var before := StateOf(server);
    run := Run(q, Job(q.s, q.es, None), parent, None, [], before, before);
    var wrapped := WrapIf(q.s.w, q.tmk, q.nonce, q.s.dek);
    if wrapped.Err? {
      return Err(wrapped.error), run;
    }
    var prev, key := LoadPreviousIndex(q, server, parent);
    var job := Job(q.s, q.es, prev);
    var trees;
    ghost var packs;
    trees, packs := UploadAll(job, server, q.bloom);
    run := Run(q, job, parent, key, packs, before, StateOf(server));
    if trees.Err? {
      return Err(trees.error), run;
    }
    TopIsThere(q.es);
    if [] !in trees.value {
      return Err(BadTree), run;
    }
    var snapshot := Snapshot(trees.value[[]], wrapped.value);
    var ok := server.CreateSnapshot(snapshot);
    run := run.(after := StateOf(server));
    r := if ok then Ok(snapshot) else Err(Unavailable);
  }

  /** The top directory has entries exactly if the scan has. */
  lemma TopIsThere(es: seq<FileEntry>)
    requires WellFormed(es)
    ensures Children(es, []) != [] <==> es != []
  {
    if es != [] {
      TopOccupied(es, es[0]);
    }
  }

  // ----- When what a run records is closed

  /** Everything reachable from any snapshot is there. */
  ghost predicate AllClosed(f: Format, objects: Objects, snapshots: seq<Snapshot>) {
    forall i :: 0 <= i < |snapshots| ==> Closed(f, objects, snapshots[i].root)
  }

  lemma AllClosedGrows(f: Format, objects: Objects, objects': Objects, snapshots: seq<Snapshot>)
    requires AllClosed(f, objects, snapshots) && Extends(objects, objects')
    ensures AllClosed(f, objects', snapshots)
  {
    forall i | 0 <= i < |snapshots|
      ensures Closed(f, objects', snapshots[i].root)
    {
      ClosedGrows(f, objects, objects', snapshots[i].root);
    }
  }

  /**
    The filter was right, and what was stored under keys other than the parent's stayed shut when the
    parent was read.
   */
  ghost predicate RanRight(w: World, f: Format, r: Run)
    requires IsRun(w, f, r)
  {
    FilterRight(r.j, r.q.bloom, r.before.contents.objects) && ReadRight(w, f, r)
  }

  ghost predicate ReadRight(w: World, f: Format, r: Run)
    requires IsRun(w, f, r)
  {
    r.j.prev.Some? ==> KeysApart(w, f, r.before.contents, r.parentKey)
  }

  /** The index of a closed parent, whatever keys it was made with, lists content that is there. */
  lemma IndexIsHere(w: World, f: Format, r: Run)
    requires IsRun(w, f, r) && ReadRight(w, f, r)
    requires r.j.prev.Some? ==> Closed(f, r.before.contents.objects, r.parent.value.root)
    ensures IndexHere(r.j.prev, r.before.contents.objects)
    ensures r.j.prev.Some? ==>
      Walk(FetchFrom(f, r.before.contents.objects), r.parent.value.root, [], r.q.depth, map[]) == Ok(r.j.prev.value)
  {
    if r.j.prev.Some? {
      IndexOnServer(w, f, r.parentKey, r.before.contents, r.parent.value.root, r.q.depth);
    }
  }

  lemma ListedAreHere(prev: Option<Index>, objects0: Objects)
    requires IndexHere(prev, objects0)
    ensures ListedIn(prev) <= objects0.Keys
  {
  }

  /** A recorded snapshot is closed exactly if the filter was right on the hashes it was asked. */
  lemma RecordedExactly(w: World, f: Format, r: Run)
    requires IsRun(w, f, r) && r.after.snapshots != r.before.snapshots && IndexHere(r.j.prev, r.before.contents.objects)
    ensures Closed(f, r.after.contents.objects, JobRoot(r.j)) <==>
      FilterRight(r.j, r.q.bloom, r.before.contents.objects)
  {
    SoundIsKeyed(w, r.before.contents);
    SoundIsKeyed(w, r.after.contents);
    ListedAreHere(r.j.prev, r.before.contents.objects);
    ClosedIffFilterRight(r.j, r.q.bloom, r.before.contents.objects, r.after.contents.objects);
  }

  /** A run that went right keeps everything reachable from every snapshot, its own included. */
  lemma RunKeepsClosed(w: World, f: Format, r: Run)
    requires IsRun(w, f, r) && AllClosed(f, r.before.contents.objects, r.before.snapshots) && RanRight(w, f, r)
    ensures AllClosed(f, r.after.contents.objects, r.after.snapshots)
  {
    if r.j.prev.Some? {
      var i :| 0 <= i < |r.before.snapshots| && r.before.snapshots[i] == r.parent.value;
      assert Closed(f, r.before.contents.objects, r.before.snapshots[i].root);
    }
    IndexIsHere(w, f, r);
    AllClosedGrows(f, r.before.contents.objects, r.after.contents.objects, r.before.snapshots);
    if r.after.snapshots != r.before.snapshots {
      RecordedExactly(w, f, r);
    }
  }

  // ----- Any number of backups

  /** The runs follow each other on one server. */
  ghost predicate IsHistory(w: World, f: Format, runs: seq<Run>, start: State, end: State) {
    && (forall i {:trigger IsRun(w, f, runs[i])} :: 0 <= i < |runs| ==> IsRun(w, f, runs[i]))
    && (forall i {:trigger StateAt(runs, start, i)} :: 0 <= i < |runs| ==> runs[i].before == StateAt(runs, start, i))
    && end == StateAt(runs, start, |runs|)
  }

  ghost function StateAt(runs: seq<Run>, start: State, n: nat): State
    requires n <= |runs|
  {
    if n == 0 then start else runs[n - 1].after
  }

  lemma HistoryGrows(w: World, f: Format, runs: seq<Run>, start: State, end: State, r: Run)
    requires IsHistory(w, f, runs, start, end) && IsRun(w, f, r) && r.before == end
    ensures IsHistory(w, f, runs + [r], start, r.after)
  {
    var all := runs + [r];
    forall i | 0 <= i < |all|
      ensures IsRun(w, f, all[i]) && all[i].before == StateAt(all, start, i)
    {
      if i < |runs| {
        assert IsRun(w, f, runs[i]) && runs[i].before == StateAt(runs, start, i);
      }
    }
  }

  /** The parent of a backup: the one it names, if there is such a snapshot, or else the latest. */
  function Chosen(base: Option<Snapshot>, snapshots: seq<Snapshot>): Option<Snapshot> {
    if base.Some? then if base.value in snapshots then base else None
    else if snapshots == [] then None
    else Some(snapshots[|snapshots| - 1])
  }

  /** If the server cannot be asked, there is no parent. */
  method ChooseParent(server: Server, base: Option<Snapshot>) returns (parent: Option<Snapshot>)
    ensures parent == Chosen(base, server.snapshots) || (parent.None? && !server.reliable)
  {
    var unreachable: bool := *;
    if unreachable && !server.reliable {
      return None;
    }
    parent := Chosen(base, server.snapshots);
  }

  /**
    How a backup goes against a server that answers every request: it has the parent it should, and, if nothing is in
    the way on the client's side, the parent's index if that can be read, and it succeeds if there is anything to back
    up.
   */
  ghost predicate AsAsked(q: Request, r: Result<Snapshot, Fault>, run: Run) {
    && run.parent == Chosen(q.base, run.before.snapshots)
    && (Willing(q) ==> (r.Ok? <==> q.es != []) && run.j.prev == OwnIndex(q, run.before.contents.store, run.parent))
  }

  /** Runs one backup after the other, each with the parent that it names, or else the latest. */
  method RunBackups(w: World, ghost f: Format, server: Server, requests: seq<Request>)
    returns (results: seq<Result<Snapshot, Fault>>, ghost runs: seq<Run>)
    requires server.Sound(w) && forall i :: 0 <= i < |requests| ==> FitRequest(w, f, requests[i])
    modifies server
    ensures server.Sound(w) && IsHistory(w, f, runs, old(StateOf(server)), StateOf(server))
    ensures |runs| == |results| == |requests| && forall i :: 0 <= i < |runs| ==> runs[i].q == requests[i]
    ensures forall i :: 0 <= i < |runs| && results[i].Ok? ==>
      runs[i].after.snapshots == runs[i].before.snapshots + [results[i].value]
    ensures server.reliable ==> forall i :: 0 <= i < |runs| ==> AsAsked(requests[i], results[i], runs[i])
  {
    ghost var start := StateOf(server);
    results, runs := [], [];
    for i := 0 to |requests|
      invariant server.Sound(w) && IsHistory(w, f, runs, start, StateOf(server))
      invariant |runs| == |results| == i && forall k :: 0 <= k < i ==> runs[k].q == requests[k]
      invariant forall k :: 0 <= k < i && results[k].Ok? ==>
        runs[k].after.snapshots == runs[k].before.snapshots + [results[k].value]
      invariant server.reliable ==> forall k :: 0 <= k < i ==> AsAsked(requests[k], results[k], runs[k])
    {
      var result;
      ghost var run;
      result, run := AnyBackup(w, f, server, requests[i], runs, start);
      results, runs := results + [result], runs + [run];
    }
  }

  /** One more backup. */
  method AnyBackup(w: World, ghost f: Format, server: Server, q: Request, ghost runs: seq<Run>, ghost start: State)
    returns (r: Result<Snapshot, Fault>, ghost run: Run)
    requires server.Sound(w) && FitRequest(w, f, q) && IsHistory(w, f, runs, start, StateOf(server))
    modifies server
    ensures server.Sound(w) && IsHistory(w, f, runs + [run], start, StateOf(server)) && run.q == q
    ensures r.Ok? ==> run.after.snapshots == run.before.snapshots + [r.value]
    ensures server.reliable ==> AsAsked(q, r, run)
  {
    ghost var now := StateOf(server);
    var parent := ChooseParent(server, q.base);
    r, run := PerformBackup(q, server, parent);
    HistoryGrows(w, f, runs, start, now, run);
  }

  ghost predicate AllRight(w: World, f: Format, runs: seq<Run>, m: nat)
    requires m <= |runs|
  {
    forall i {:trigger RightAt(w, f, runs, i)} :: 0 <= i < m ==> RightAt(w, f, runs, i)
  }

  ghost predicate RightAt(w: World, f: Format, runs: seq<Run>, i: nat)
    requires i < |runs|
  {
    IsRun(w, f, runs[i]) && RanRight(w, f, runs[i])
  }

  lemma RunAt(w: World, f: Format, runs: seq<Run>, start: State, end: State, n: nat)
    requires IsHistory(w, f, runs, start, end) && n < |runs|
    ensures IsRun(w, f, runs[n]) && runs[n].before == StateAt(runs, start, n)
    ensures runs[n].after == StateAt(runs, start, n + 1)
  {
  }

  lemma ClosedAfterNext(w: World, f: Format, runs: seq<Run>, start: State, end: State, m: nat, n: nat)
    requires IsHistory(w, f, runs, start, end) && n < m <= |runs| && AllRight(w, f, runs, m)
    requires AllClosed(f, StateAt(runs, start, n).contents.objects, StateAt(runs, start, n).snapshots)
    ensures AllClosed(f, StateAt(runs, start, n + 1).contents.objects, StateAt(runs, start, n + 1).snapshots)
  {
    RunAt(w, f, runs, start, end, n);
    assert RightAt(w, f, runs, n);
    RunKeepsClosed(w, f, runs[n]);
  }

  lemma {:induction false} ClosedSoFar(w: World, f: Format, runs: seq<Run>, start: State, end: State, m: nat, n: nat)
    requires IsHistory(w, f, runs, start, end) && AllClosed(f, start.contents.objects, start.snapshots)
    requires n <= m <= |runs| && AllRight(w, f, runs, m)
    ensures AllClosed(f, StateAt(runs, start, n).contents.objects, StateAt(runs, start, n).snapshots)
  {
    if n > 0 {
      ClosedSoFar(w, f, runs, start, end, m, n - 1);
      ClosedAfterNext(w, f, runs, start, end, m, n - 1);
    }
  }

  lemma ExtendsNext(w: World, f: Format, runs: seq<Run>, start: State, end: State, n: nat)
    requires IsHistory(w, f, runs, start, end) && n < |runs|
    ensures Extends(StateAt(runs, start, n).contents.objects, StateAt(runs, start, n + 1).contents.objects)
  {
    RunAt(w, f, runs, start, end, n);
  }

  lemma ExtendsTransitive(a: Objects, b: Objects, c: Objects)
    requires Extends(a, b) && Extends(b, c)
    ensures Extends(a, c)
  {
  }

  /** Nothing is ever lost. */
  lemma {:induction false} HistoryExtends(w: World, f: Format, runs: seq<Run>, start: State, end: State, n: nat)
    requires IsHistory(w, f, runs, start, end) && n <= |runs|
    ensures Extends(StateAt(runs, start, n).contents.objects, end.contents.objects)
    decreases |runs| - n
  {
    if n < |runs| {
      HistoryExtends(w, f, runs, start, end, n + 1);
      ExtendsNext(w, f, runs, start, end, n);
      ExtendsTransitive(StateAt(runs, start, n).contents.objects, StateAt(runs, start, n + 1).contents.objects,
                        end.contents.objects);
    }
  }

  /**
    However many backups are made, full or incremental, encrypted under whatever keys or not, with any
    parents, any filters and failures at any request: as long as the filters are right and keys stay
    apart, everything reachable from any snapshot is there; and it stays there whatever runs come later.
   */
  lemma HistoryCloses(w: World, f: Format, runs: seq<Run>, start: State, end: State, n: nat)
    requires IsHistory(w, f, runs, start, end) && AllClosed(f, start.contents.objects, start.snapshots)
    requires n <= |runs| && AllRight(w, f, runs, n)
    ensures AllClosed(f, StateAt(runs, start, n).contents.objects, StateAt(runs, start, n).snapshots)
    ensures AllClosed(f, end.contents.objects, StateAt(runs, start, n).snapshots)
  {
    var now := StateAt(runs, start, n);
    ClosedSoFar(w, f, runs, start, end, n, n);
    HistoryExtends(w, f, runs, start, end, n);
    AllClosedGrows(f, now.contents.objects, end.contents.objects, now.snapshots);
  }
}
