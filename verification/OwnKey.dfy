/** What a backup can be read back of under its own key: what it has uploaded itself, each object for its use. */
module OwnKey {
  import opened Base
  import opened Primitives
  import opened Codec
  import opened Encrypt
  import opened PackStore
  import opened Merkle
  import opened Paths
  import opened Closure
  import opened Snapshots
  import opened PrevIndex
  import opened Transfer
  import opened Chunking
  import opened Uploads
  import opened Backup
  import opened TreePhase
  import opened Runs
  import opened Download
  import opened EndToEnd
  import opened Incremental

  // ----- What the index says of an object

  /** The labels after some chunks were confirmed: the last for a hash counts. */
  function LabelsAfter(labels: map<Str, Label>, chunks: seq<PackChunk>): map<Str, Label>
    decreases |chunks|
  {
    if chunks == [] then labels else LabelsAfter(labels[chunks[0].hash := LabelOf(chunks[0])], chunks[1..])
  }

  ghost predicate Labelled(index: map<Str, Location>, labels: map<Str, Label>) {
    && labels.Keys == index.Keys
    && forall h :: h in index ==> labels[h] == Label(h, index[h].kind, index[h].compression)
  }

  lemma {:induction false} LabelsInTwo(labels: map<Str, Label>, a: seq<PackChunk>, b: seq<PackChunk>)
    ensures LabelsAfter(LabelsAfter(labels, a), b) == LabelsAfter(labels, a + b)
    decreases |a|
  {
    if a == [] {
      assert a + b == b;
    } else {
      assert (a + b)[0] == a[0] && (a + b)[1..] == a[1..] + b;
      LabelsInTwo(labels[a[0].hash := LabelOf(a[0])], a[1..], b);
    }
  }

  lemma {:induction false} ConfirmLabels(index: map<Str, Location>, labels: map<Str, Label>, chunks: seq<PackChunk>,
                                         locations: seq<Location>)
    requires Labelled(index, labels) && |chunks| == |locations|
    requires forall i :: 0 <= i < |chunks| ==>
               locations[i].kind == chunks[i].kind && locations[i].compression == chunks[i].compression
    ensures Labelled(Confirm(index, chunks, locations), LabelsAfter(labels, chunks))
    decreases |chunks|
  {
    if chunks != [] {
      ConfirmLabels(index[chunks[0].hash := locations[0]], labels[chunks[0].hash := LabelOf(chunks[0])], chunks[1..],
                    locations[1..]);
    }
  }

  lemma FlushLabels(store: Store, labels: map<Str, Label>, chunks: seq<PackChunk>)
    requires Labelled(store.index, labels)
    ensures Labelled(Flushed(store, chunks).index, LabelsAfter(labels, chunks))
  {
    RegionsHold(|store.packs|, chunks, []);
    ConfirmLabels(store.index, labels, chunks, Locations(|store.packs|, chunks, 0));
  }

  /** However the chunks were divided into packs, the labels are theirs. */
  lemma {:induction false} StoreLabels(store: Store, labels: map<Str, Label>, packs: seq<seq<PackChunk>>)
    requires Labelled(store.index, labels)
    ensures Labelled(StoreAfter(store, packs).index, LabelsAfter(labels, Concat(packs)))
    decreases |packs|
  {
    if packs != [] {
      var init, last := packs[..|packs| - 1], packs[|packs| - 1];
      StoreLabels(store, labels, init);
      FlushLabels(StoreAfter(store, init), LabelsAfter(labels, Concat(init)), last);
      assert packs == init + [last];
      ConcatAppend(init, [last]);
      ConcatOne(last);
      LabelsInTwo(labels, Concat(init), last);
    }
  }

  /** No data after a tree. */
  ghost predicate DataFirst(chunks: seq<PackChunk>) {
    forall i, k :: 0 <= i < k < |chunks| && chunks[k].kind == Data ==> chunks[i].kind == Data
  }

  /** What was not uploaded is labelled as it was. */
  lemma {:induction false} LabelsStay(labels: map<Str, Label>, chunks: seq<PackChunk>, h: Str)
    requires h !in Hashes(chunks)
    ensures h in LabelsAfter(labels, chunks) <==> h in labels
    ensures h in labels ==> LabelsAfter(labels, chunks)[h] == labels[h]
    decreases |chunks|
  {
    if chunks != [] {
      HashesFirst(chunks);
      LabelsStay(labels[chunks[0].hash := LabelOf(chunks[0])], chunks[1..], h);
    }
  }

  /** What was uploaded has the label of its last upload, so that of a tree if it was uploaded as one. */
  lemma {:induction false} LastUpload(labels: map<Str, Label>, chunks: seq<PackChunk>, h: Str) returns (k: nat)
    requires DataFirst(chunks) && h in Hashes(chunks)
    ensures k < |chunks| && chunks[k].hash == h
    ensures h in LabelsAfter(labels, chunks) && LabelsAfter(labels, chunks)[h] == LabelOf(chunks[k])
    ensures chunks[k].kind == Tree <==> UploadedAs(chunks, h, Tree)
    decreases |chunks|
  {
    var first, rest := chunks[0], chunks[1..];
    var labels' := labels[first.hash := LabelOf(first)];
    HashesFirst(chunks);
    assert chunks == [first] + rest;
    UploadedFirst(first, rest, h, Tree);
    if h in Hashes(rest) {
      k := LastUpload(labels', rest, h);
      k := k + 1;
    } else {
      LabelsStay(labels', rest, h);
      k := 0;
    }
  }

  lemma UploadedFirst(first: PackChunk, rest: seq<PackChunk>, h: Str, kind: Kind)
    ensures UploadedAs([first] + rest, h, kind) <==>
      (first.hash == h && first.kind == kind) || UploadedAs(rest, h, kind)
  {
    var chunks := [first] + rest;
    assert first in chunks && forall c :: c in chunks <==> c == first || c in rest;
  }

  // ----- What a run has stored

  ghost predicate HasUploaded(r: Run, h: Str, kind: Kind) {
    UploadedAs(Concat(r.packs), h, kind)
  }

  lemma UploadedHashes(r: Run, h: Str)
    ensures h in Hashes(Concat(r.packs)) <==> HasUploaded(r, h, Data) || HasUploaded(r, h, Tree)
  {
    var chunks := Concat(r.packs);
    if h in Hashes(chunks) {
      var c :| c in chunks && c.hash == h;
      assert UploadedAs(chunks, h, c.kind);
    }
  }

  /** The run has recorded a snapshot. */
  ghost predicate IsRecorded(w: World, f: Format, r: Run) {
    IsRun(w, f, r) && r.after.snapshots != r.before.snapshots
  }

  /** Nothing on the server was stored under the run's key before. */
  ghost predicate FreshKey(r: Run) {
    forall h :: h in r.before.contents.keys ==> r.before.contents.keys[h] != r.q.s.dek
  }

  /** How the objects of a run's server are labelled once its snapshot is recorded. */
  lemma RunLabels(w: World, f: Format, r: Run, h: Str)
    requires IsRecorded(w, f, r) && h in r.after.contents.store.index
    ensures var loc := r.after.contents.store.index[h];
            if HasUploaded(r, h, Data) || HasUploaded(r, h, Tree) then
              && r.after.contents.keys[h] == r.q.s.dek
              && (loc.kind == Tree <==> HasUploaded(r, h, Tree))
              && exists c :: c in Concat(r.packs) && c.hash == h && c.compression == loc.compression
            else h in r.before.contents.keys && r.after.contents.keys[h] == r.before.contents.keys[h]
  {
    var before, chunks := r.before.contents, Concat(r.packs);
    var labels := map g | g in before.store.index ::
      Label(g, before.store.index[g].kind, before.store.index[g].compression);
    StoreLabels(before.store, labels, r.packs);
    assert DataFirst(chunks);
    SealedUnderIs(before.keys, chunks, r.q.s.dek);
    UploadedHashes(r, h);
    if h in Hashes(chunks) {
      var k := LastUpload(labels, chunks, h);
      assert chunks[k] in chunks;
    }
  }

  /**
    Under a fresh key just what the run has uploaded can be read, and for just that use: as a tree if it
    was one as well.
   */
  lemma OwnKeyOpens(w: World, f: Format, r: Run, h: Str, kind: Kind)
    requires IsRecorded(w, f, r) && r.q.s.dek.Some? && FreshKey(r)
    ensures OpenFor(r.after.contents, r.q.s.dek, h, kind) <==>
            HasUploaded(r, h, kind) && (kind == Data ==> !HasUploaded(r, h, Tree))
  {
    UploadedIsThere(w, f, r, h);
    if h in r.after.contents.store.index {
      RunLabels(w, f, r, h);
    }
  }

  lemma UploadedIsThere(w: World, f: Format, r: Run, h: Str)
    requires IsRecorded(w, f, r)
    ensures HasUploaded(r, h, Data) || HasUploaded(r, h, Tree) ==> h in r.after.contents.store.index
  {
    UploadedHashes(r, h);
    SealedUnderIs(r.before.contents.keys, Concat(r.packs), r.q.s.dek);
  }

  /**
    The uploads of a run in terms of its scan, its parent's index and its filter: as trees, what was asked and not
    claimed; as data, what was not claimed and the first file to have it is read, and not skipped.
   */
  lemma UploadedExactly(w: World, f: Format, r: Run, h: Str)
    requires IsRecorded(w, f, r)
    ensures HasUploaded(r, h, Tree) <==> h in JobTrees(r.j) && !r.q.bloom(h)
    ensures HasUploaded(r, h, Data) <==> ReadFirst(r.j, h) && !r.q.bloom(h)
  {
    forall c | c in Concat(r.packs)
      ensures AskedUpload(r.j, r.q.bloom, c)
    {
    }
  }

  // ----- The chunks of a scan

  /** Content that its compression, or the lack of it, keeps: it shrinks, or is not taken for a frame. */
  predicate Keeps(s: Settings, x: Bytes) {
    (s.compress && |s.w.compress(x)| < |x|) || !Misread(s.w, x)
  }

  /** So it is for all chunks of all files. */
  ghost predicate ChunksKeep(s: Settings, p: Params, es: seq<FileEntry>) {
    forall e, x :: IsFilled(es, e) && x in ChunkAll(p, e.bytes) ==> Keeps(s, x)
  }

  /** The data of a scan are the digests of its files' chunks. */
  lemma ScanDataIs(w: World, p: Params, es: seq<FileEntry>, h: Str)
    requires DistinctPaths(es)
    ensures h in ScanData(w, p, es) <==> exists e :: IsFilled(es, e) && h in HashList(w.sha, p, e.bytes)
  {
    var fh := FullTable(w.sha, p, es);
    if h in ScanData(w, p, es) {
      var rel :| rel in FilesOf(es, fh) && h in FilesOf(es, fh)[rel];
      var e := FoundEntry(w, p, es, FilesOf(es, fh), rel);
    }
    if e :| IsFilled(es, e) && h in HashList(w.sha, p, e.bytes) {
      FilledFiles(w.sha, p, es, e);
      PathsDetermine(es);
      assert FilesOf(es, fh)[e.rel] == fh[e.rel];
    }
  }

  ghost predicate ContentsKeep(s: Settings, needed: set<Str>, objects: Objects) {
    forall h :: h in needed && h in objects ==> Keeps(s, objects[h])
  }

  /** What the store has for the data of a scan are the chunks. */
  lemma ChunksKeepExactly(s: Settings, p: Params, es: seq<FileEntry>, objects: Objects)
    requires HashLaw(s.w) && DistinctPaths(es) && Keyed(s.w, objects) && ScanData(s.w, p, es) <= objects.Keys
    ensures ChunksKeep(s, p, es) <==> ContentsKeep(s, ScanData(s.w, p, es), objects)
  {
    if ChunksKeep(s, p, es) {
      forall h | h in ScanData(s.w, p, es)
        ensures Keeps(s, objects[h])
      {
        ScanDataIs(s.w, p, es, h);
        var e :| IsFilled(es, e) && h in HashList(s.w.sha, p, e.bytes);
        var i :| 0 <= i < |ChunkAll(p, e.bytes)| && HashList(s.w.sha, p, e.bytes)[i] == h;
        NoCollision(s.w, ChunkAll(p, e.bytes)[i], objects[h]);
      }
    }
    if ContentsKeep(s, ScanData(s.w, p, es), objects) {
      forall e, x | IsFilled(es, e) && x in ChunkAll(p, e.bytes)
        ensures Keeps(s, x)
      {
        var i :| 0 <= i < |ChunkAll(p, e.bytes)| && ChunkAll(p, e.bytes)[i] == x;
        var h := HashList(s.w.sha, p, e.bytes)[i];
        assert h in HashList(s.w.sha, p, e.bytes);
        ScanDataIs(s.w, p, es, h);
        NoCollision(s.w, x, objects[h]);
      }
    }
  }

  /** What the run has uploaded is misread exactly if it is content that its compression does not keep. */
  lemma OwnUploadMisread(w: World, f: Format, r: Run, h: Str)
    requires IsRecorded(w, f, r) && (HasUploaded(r, h, Data) || HasUploaded(r, h, Tree))
    ensures h in r.after.contents.store.index && h in r.after.contents.objects
    ensures MisreadHere(w, r.after.contents, h) <==> !Keeps(r.q.s, r.after.contents.objects[h])
  {
    UploadedIsThere(w, f, r, h);
    RunLabels(w, f, r, h);
    SoundIsKeyed(w, r.after.contents);
    var c :| c in Concat(r.packs) && c.hash == h && c.compression == r.after.contents.store.index[h].compression;
    assert AskedUpload(r.j, r.q.bloom, c);
    var raw :| Pressed(r.j.s, c, raw);
    NoCollision(w, raw, r.after.contents.objects[h]);
  }

  // ----- What can be restored of a run

  /** How a run's snapshot is read: with the format and the key it was made with, and verified. */
  function OwnReader(r: Run): Reader {
    Reader(r.q.s.w, r.q.s.format, r.q.s.dek, true)
  }

  ghost predicate OwnRestorable(w: World, f: Format, r: Run)
    requires IsRun(w, f, r)
  {
    Restorable(OwnReader(r), JobParams(r.j), r.q.es, r.after.contents)
  }

  lemma OwnTreesOpen(w: World, f: Format, r: Run)
    requires IsRecorded(w, f, r) && r.q.s.dek.Some? && FreshKey(r) && TableTrue(r.j)
    ensures TreesOpen(OwnReader(r), JobParams(r.j), r.q.es, r.after.contents) <==>
      forall h :: h in JobTrees(r.j) ==> !r.q.bloom(h)
  {
    var d, p, es, c := OwnReader(r), JobParams(r.j), r.q.es, r.after.contents;
    if TreesOpen(d, p, es, c) {
      forall h | h in JobTrees(r.j)
        ensures !r.q.bloom(h)
      {
        var e :| e in es && h == MerkleHash(f, es, JobTable(r.j), ParentDir(e.rel));
        ChildrenAre(es, ParentDir(e.rel));
        assert e in Children(es, ParentDir(e.rel));
        assert TreeOpen(d, p, es, c, ParentDir(e.rel));
        OwnKeyOpens(w, f, r, h, Tree);
        UploadedExactly(w, f, r, h);
      }
    }
    if forall h :: h in JobTrees(r.j) ==> !r.q.bloom(h) {
      forall dir | Children(es, dir) != []
        ensures TreeOpen(d, p, es, c, dir)
      {
        var h := MerkleHash(f, es, JobTable(r.j), dir);
        DirIsAsked(f, es, JobTable(r.j), dir);
        OwnKeyOpens(w, f, r, h, Tree);
        UploadedExactly(w, f, r, h);
      }
    }
  }

  /** One chunk can be read exactly if the run has uploaded it, not as a tree as well, and kept its content. */
  lemma OwnChunkReadable(w: World, f: Format, r: Run, h: Str)
    requires IsRecorded(w, f, r) && r.q.s.dek.Some? && FreshKey(r)
    ensures Readable(OwnReader(r), r.after.contents, h) <==>
            && HasUploaded(r, h, Data) && !HasUploaded(r, h, Tree)
            && h in r.after.contents.objects && Keeps(r.q.s, r.after.contents.objects[h])
  {
    OwnKeyOpens(w, f, r, h, Data);
    if HasUploaded(r, h, Data) {
      OwnUploadMisread(w, f, r, h);
    }
  }

  /** The run has uploaded all of this data, and none of it as a tree as well. */
  ghost predicate UploadedAll(r: Run, needed: set<Str>) {
    forall h :: h in needed ==> HasUploaded(r, h, Data) && !HasUploaded(r, h, Tree)
  }

  /** All data of a scan can be read exactly if the run has uploaded it and keeps its chunks. */
  lemma OwnDataReadable(w: World, f: Format, r: Run)
    requires IsRecorded(w, f, r) && r.q.s.dek.Some? && FreshKey(r)
    ensures var needed := ScanData(w, JobParams(r.j), r.q.es);
            AllReadable(OwnReader(r), r.after.contents, needed) <==>
            UploadedAll(r, needed) && ChunksKeep(r.q.s, JobParams(r.j), r.q.es)
  {
    var p, es, c := JobParams(r.j), r.q.es, r.after.contents;
    var needed := ScanData(w, p, es);
    forall h | h in needed
      ensures Readable(OwnReader(r), c, h) <==>
              HasUploaded(r, h, Data) && !HasUploaded(r, h, Tree) && h in c.objects && Keeps(r.q.s, c.objects[h])
      ensures HasUploaded(r, h, Data) ==> h in c.objects
    {
      OwnChunkReadable(w, f, r, h);
      UploadedIsThere(w, f, r, h);
    }
    SoundIsKeyed(w, c);
    if needed <= c.objects.Keys {
      ChunksKeepExactly(r.q.s, p, es, c.objects);
    }
  }

  /**
    A scan, a parent's index and a filter such that all that the snapshot needs is uploaded, each object for its one
    use: the filter claims none of the trees and none of the data, no file is the first to have some of the data and
    yet skipped, and no data is the text of a tree.
   */
  ghost predicate SelfContained(j: Job, bloom: Str -> bool)
    requires Fit(j)
  {
    && (forall h :: h in JobTrees(j) ==> !bloom(h))
    && (forall h :: h in ScanData(j.s.w, JobParams(j), j.es) ==> ReadFirst(j, h) && !bloom(h) && h !in JobTrees(j))
  }

  lemma SelfContainedExactly(w: World, f: Format, r: Run)
    requires IsRecorded(w, f, r)
    ensures SelfContained(r.j, r.q.bloom) <==>
      && (forall h :: h in JobTrees(r.j) ==> !r.q.bloom(h))
      && UploadedAll(r, ScanData(w, JobParams(r.j), r.q.es))
  {
    forall h
      ensures HasUploaded(r, h, Tree) <==> h in JobTrees(r.j) && !r.q.bloom(h)
      ensures HasUploaded(r, h, Data) <==> ReadFirst(r.j, h) && !r.q.bloom(h)
    {
      UploadedExactly(w, f, r, h);
    }
  }

  /**
    With a fresh key, a recorded backup can be restored under that key exactly if no name has a backslash, no files
    hide behind equal trees, compression keeps all its chunks, and its scan, its parent's index and its filter are such
    that the snapshot is self-contained.
   */
  lemma OwnKeyExactly(w: World, f: Format, r: Run)
    requires IsRecorded(w, f, r) && r.q.s.dek.Some? && FreshKey(r) && TableTrue(r.j)
    ensures OwnRestorable(w, f, r) <==>
      && Portable(r.q.es) && FileDirsDiffer(f, r.q.es, JobTable(r.j)) && ChunksKeep(r.q.s, JobParams(r.j), r.q.es)
      && SelfContained(r.j, r.q.bloom)
  {
    OwnTreesOpen(w, f, r);
    OwnDataReadable(w, f, r);
    SelfContainedExactly(w, f, r);
  }

  /** A backup that reads every file asks for all their data. */
  lemma ScanDataIsAsked(j: Job)
    requires Fit(j) && j.prev.None?
    ensures ScanData(j.s.w, JobParams(j), j.es) <= JobData(j)
  {
    forall h | h in ScanData(j.s.w, JobParams(j), j.es)
      ensures h in JobData(j)
    {
      ScanDataIs(j.s.w, JobParams(j), j.es, h);
      var e :| IsFilled(j.es, e) && h in HashList(j.s.w.sha, JobParams(j), e.bytes);
      assert JobDigest(j)(e.bytes) == HashList(j.s.w.sha, JobParams(j), e.bytes);
    }
  }

  /** Without a parent all data are read. */
  lemma FullReadsAll(j: Job, h: Str)
    requires Fit(j) && j.prev.None? && h in ScanData(j.s.w, JobParams(j), j.es)
    ensures ReadFirst(j, h)
  {
    ScanDataIsAsked(j);
    AskedIsReadOrListed(j, h);
  }

  lemma FullIsSelfContained(j: Job, bloom: Str -> bool)
    requires Fit(j) && j.prev.None?
    ensures SelfContained(j, bloom) <==>
      && (forall h :: h in ScanData(j.s.w, JobParams(j), j.es) + JobTrees(j) ==> !bloom(h))
      && ScanData(j.s.w, JobParams(j), j.es) !! JobTrees(j)
  {
    forall h | h in ScanData(j.s.w, JobParams(j), j.es)
      ensures ReadFirst(j, h)
    {
      FullReadsAll(j, h);
    }
  }

  /** So a backup without a parent, exactly if the filter claims nothing, no chunk is a tree, and chunks are kept. */
  lemma FullBackupExactly(w: World, f: Format, r: Run)
    requires IsRecorded(w, f, r) && r.q.s.dek.Some? && FreshKey(r) && r.j.prev.None?
    ensures OwnRestorable(w, f, r) <==>
      && Portable(r.q.es) && FileDirsDiffer(f, r.q.es, JobTable(r.j))
      && (forall h :: h in ScanData(w, JobParams(r.j), r.q.es) + JobTrees(r.j) ==> !r.q.bloom(h))
      && ScanData(w, JobParams(r.j), r.q.es) !! JobTrees(r.j) && ChunksKeep(r.q.s, JobParams(r.j), r.q.es)
  {
    OwnKeyExactly(w, f, r);
    FullIsSelfContained(r.j, r.q.bloom);
  }

  // ----- Without encryption

  /** Nothing on the server is encrypted. */
  ghost predicate AllPlain(c: Contents) {
    forall h :: h in c.keys ==> c.keys[h] == None
  }

  /** Where nothing is encrypted, all that is there can be read but what is misread. */
  lemma PlainExactly(d: Reader, p: Params, es: seq<FileEntry>, c: Contents)
    requires LawfulReader(d) && BackedUp(d, p, es, c) && d.dek.None? && AllPlain(c)
    ensures ScanData(d.w, p, es) <= c.objects.Keys && KeysApart(d.w, d.format, c, None)
    ensures Restorable(d, p, es, c) <==>
      && Portable(es) && FileDirsDiffer(d.format, es, FullTable(d.w.sha, p, es))
      && forall h :: h in ScanData(d.w, p, es) ==> !MisreadHere(d.w, c, h)
  {
    BackupIsThere(d, p, es, c);
    PlainIsApart(d.w, d.format, c);
    forall dir | Children(es, dir) != []
      ensures TreeOpen(d, p, es, c, dir)
    {
      assert HasTree(d.format, es, FullTable(d.w.sha, p, es), c.objects, dir);
    }
  }

  // ----- The first backup to a server

  /**
    The first backup to a server, encrypted or not, can be restored exactly if no files hide behind equal
    trees, compression keeps all its chunks, and, if it is encrypted, none of them is the text of a tree.
   */
  lemma FirstBackupExactly(w: World, f: Format, r: Run)
    requires IsRecorded(w, f, r) && r.before.contents == EMPTY && r.j.prev.None? && FilterRight(r.j, r.q.bloom, map[])
    ensures OwnRestorable(w, f, r) <==>
      && Portable(r.q.es) && FileDirsDiffer(f, r.q.es, JobTable(r.j)) && ChunksKeep(r.q.s, JobParams(r.j), r.q.es)
      && (r.q.s.dek.Some? ==> ScanData(w, JobParams(r.j), r.q.es) !! JobTrees(r.j))
  {
    ScanDataIsAsked(r.j);
    if r.q.s.dek.Some? {
      FullBackupExactly(w, f, r);
    } else {
      FirstPlainExactly(w, f, r);
    }
  }

  lemma FirstPlainExactly(w: World, f: Format, r: Run)
    requires IsRecorded(w, f, r) && r.before.contents == EMPTY && r.j.prev.None? && FilterRight(r.j, r.q.bloom, map[])
    requires r.q.s.dek.None?
    ensures OwnRestorable(w, f, r) <==>
      Portable(r.q.es) && FileDirsDiffer(f, r.q.es, JobTable(r.j)) && ChunksKeep(r.q.s, JobParams(r.j), r.q.es)
  {
    var p, es, c := JobParams(r.j), r.q.es, r.after.contents;
    RecordedExactly(w, f, r);
    PlainExactly(OwnReader(r), p, es, c);
    SoundIsKeyed(w, c);
    ChunksKeepExactly(r.q.s, p, es, c.objects);
    ScanDataIsAsked(r.j);
    forall h | h in ScanData(w, p, es)
      ensures MisreadHere(w, c, h) <==> !Keeps(r.q.s, c.objects[h])
    {
      FullReadsAll(r.j, h);
      UploadedExactly(w, f, r, h);
      OwnUploadMisread(w, f, r, h);
    }
  }
}
