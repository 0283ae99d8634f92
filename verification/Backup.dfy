/** The two phases of a backup: chunks of files first, then the trees of directories. */
module Backup {
  import opened Base
  import opened Primitives
  import opened Codec
  import opened Encrypt
  import opened Chunking
  import opened Chunkers
  import opened Sorting
  import opened Paths
  import opened PackStore
  import opened Merkle
  import opened Closure
  import opened PrevIndex
  import opened Uploads

  // ----- The hashes of files

  /** The chunk hashes of some content. */
  function HashList(sha: Bytes -> Str, p: Params, s: Bytes): seq<Str> {
    Map(sha, ChunkAll(p, s))
  }

  /** How content is cut up and digested. */
  type Digest = Bytes -> seq<Str>

  function Digester(sha: Bytes -> Str, p: Params): Digest {
    (s: Bytes) => HashList(sha, p, s)
  }

  ghost predicate Digests(digest: Digest, sha: Bytes -> Str, p: Params) {
    forall s {:trigger HashList(sha, p, s)} :: digest(s) == HashList(sha, p, s)
  }

  /** The parent lists the file with the same time and size. */
  predicate Skips(prev: Option<Index>, e: FileEntry) {
    prev.Some? && e.rel in prev.value && prev.value[e.rel].mtime == e.mtime && prev.value[e.rel].size == e.size
  }

  function HashesFor(digest: Digest, prev: Option<Index>, e: FileEntry): seq<Str> {
    if Skips(prev, e) then prev.value[e.rel].content else digest(e.bytes)
  }

  function IsRegular(e: FileEntry): bool {
    e.kind.Regular?
  }

  /** The hashes that a backup finds for each file. */
  type Hasher = FileEntry -> seq<Str>

  function HasherFor(digest: Digest, prev: Option<Index>): Hasher {
    (e: FileEntry) => HashesFor(digest, prev, e)
  }

  ghost predicate Finds(hasher: Hasher, digest: Digest, prev: Option<Index>) {
    forall e {:trigger HashesFor(digest, prev, e)} :: hasher(e) == HashesFor(digest, prev, e)
  }

  /** The table of the first n files, the last entry for a path counting. */
  function HashesOf(hasher: Hasher, files: seq<FileEntry>, n: nat): FileHashes
    requires n <= |files|
  {
    if n == 0 then map[] else HashesOf(hasher, files, n - 1)[files[n - 1].rel := hasher(files[n - 1])]
  }

  /** The table a backup of a scan works with. */
  function FileTable(digest: Digest, prev: Option<Index>, es: seq<FileEntry>): FileHashes {
    HashesOf(HasherFor(digest, prev), Filter(IsRegular, es), |Filter(IsRegular, es)|)
  }

  /** Some of the first n files has this path. */
  ghost predicate HasPath(files: seq<FileEntry>, n: nat, rel: Str)
    requires n <= |files|
  {
    exists i :: 0 <= i < n && files[i].rel == rel
  }

  /** The table has just the first n files, each with its hashes. */
  ghost predicate IsTableOf(hasher: Hasher, files: seq<FileEntry>, n: nat, table: FileHashes)
    requires n <= |files|
  {
    && (forall i :: 0 <= i < n ==> files[i].rel in table && table[files[i].rel] == hasher(files[i]))
    && (forall rel {:trigger HasPath(files, n, rel)} :: rel in table ==> HasPath(files, n, rel))
  }

  /** File k has a path of its own, not that of an earlier file. */
  ghost predicate NewPath(files: seq<FileEntry>, k: nat)
    requires k < |files|
  {
    !HasPath(files, k, files[k].rel)
  }

  ghost predicate NewPaths(files: seq<FileEntry>) {
    forall k {:trigger NewPath(files, k)} :: 0 <= k < |files| ==> NewPath(files, k)
  }

  lemma DistinctAreNew(files: seq<FileEntry>)
    requires DistinctPaths(files)
    ensures NewPaths(files)
  {
  }

  lemma TableOneMore(hasher: Hasher, files: seq<FileEntry>, n: nat, m: nat, table: FileHashes)
    requires m == n + 1 <= |files| && NewPath(files, n) && IsTableOf(hasher, files, n, table)
    ensures IsTableOf(hasher, files, m, table[files[n].rel := hasher(files[n])])
  {
    var table' := table[files[n].rel := hasher(files[n])];
    forall i | 0 <= i < m
      ensures files[i].rel in table' && table'[files[i].rel] == hasher(files[i])
    {
      assert i < n ==> files[i].rel != files[n].rel;
    }
    forall rel | rel in table'
      ensures HasPath(files, m, rel)
    {
      assert rel != files[n].rel ==> HasPath(files, n, rel);
    }
  }

  lemma {:induction false} HashesOfHas(hasher: Hasher, files: seq<FileEntry>, n: nat)
    requires NewPaths(files) && n <= |files|
    ensures IsTableOf(hasher, files, n, HashesOf(hasher, files, n))
  {
    if n > 0 {
      HashesOfHas(hasher, files, n - 1);
      assert NewPath(files, n - 1);
      TableOneMore(hasher, files, n - 1, n, HashesOf(hasher, files, n - 1));
    }
  }

  lemma FilterDistinctPaths(es: seq<FileEntry>)
    requires DistinctPaths(es)
    ensures DistinctPaths(Filter(IsRegular, es))
  {
    var rel := (e: FileEntry) => e.rel;
    FilterDistinctBy(rel, IsRegular, es);
    var fs := Filter(IsRegular, es);
    forall i, j | 0 <= i < j < |fs|
      ensures fs[i].rel != fs[j].rel
    {
      assert rel(fs[i]) != rel(fs[j]);
    }
  }

  /** Every regular file of the scan has its hashes in the table, and nothing else is in it. */
  lemma FileTableHas(digest: Digest, prev: Option<Index>, es: seq<FileEntry>)
    requires DistinctPaths(es)
    ensures var fh := FileTable(digest, prev, es);
            && (forall e :: e in es && e.kind.Regular? ==> e.rel in fh && fh[e.rel] == HashesFor(digest, prev, e))
            && (forall rel :: rel in fh ==> exists e :: e in es && e.kind.Regular? && e.rel == rel)
  {
    var fs := Filter(IsRegular, es);
    FilterDistinctPaths(es);
    FilterHas(IsRegular, es);
    DistinctAreNew(fs);
    HashesOfHas(HasherFor(digest, prev), fs, |fs|);
    var fh := FileTable(digest, prev, es);
    forall rel | rel in fh
      ensures exists e :: e in es && e.kind.Regular? && e.rel == rel
    {
      assert HasPath(fs, |fs|, rel);
      var i :| 0 <= i < |fs| && fs[i].rel == rel;
      assert fs[i] in fs;
    }
  }

  // ----- The first phase

  lemma OnePieceMore(pieces: seq<Bytes>, rest: Bytes, n: nat)
    requires n <= |rest|
    ensures Concat(pieces + [rest[..n]]) + rest[n..] == Concat(pieces) + rest
  {
    ConcatAppend(pieces, [rest[..n]]);
    ConcatOne(rest[..n]);
    assert rest == rest[..n] + rest[n..];
    Associate(Concat(pieces), rest[..n], rest[n..]);
  }

  /** Any way of reading a file: in pieces, and perhaps not to the end. */
  method ReadFile(e: FileEntry, readable: bool) returns (file: FileReads)
    ensures !file.failed ==> Concat(file.pieces) == e.bytes
    ensures readable ==> !file.failed
  {
    var pieces, rest := [], e.bytes;
    assert Concat<byte>([]) + rest == e.bytes;
    while rest != []
      invariant Concat(pieces) + rest == e.bytes
      decreases |rest|
    {
      var n := |rest|;
      if * {
        n :| 1 <= n <= |rest|;
      }
      OnePieceMore(pieces, rest, n);
      pieces, rest := pieces + [rest[..n]], rest[n..];
    }
    assert Concat(pieces) == e.bytes by {
      assert Concat(pieces) + [] == Concat(pieces);
    }
    var failed: bool := *;
    file := FileReads(pieces, failed && !readable);
  }

  function HashOf(c: PackChunk): Str {
    c.hash
  }

  /** Labelled with the compression of its content. */
  ghost predicate WellPressed(s: Settings, c: PackChunk) {
    exists raw :: Pressed(s, c, raw)
  }

  /** Data that is known and was asked for, and that the filter does not claim to know. */
  ghost predicate NewData(s: Settings, bloom: Str -> bool, known: set<Str>, asked: set<Str>, c: PackChunk) {
    c.kind == Data && c.hash in known && c.hash in asked && !bloom(c.hash) && WellPressed(s, c)
  }

  /** What has been uploaded in the first phase: new data, each hash once. */
  ghost predicate Fresh(s: Settings, bloom: Str -> bool, known: set<Str>, appended: seq<PackChunk>, asked: set<Str>) {
    && (forall c {:trigger NewData(s, bloom, known, asked, c)} :: c in appended ==> NewData(s, bloom, known, asked, c))
    && Distinct(Map(HashOf, appended))
  }

  lemma FreshStays(s: Settings,
                   bloom: Str -> bool, known: set<Str>, known': set<Str>, appended: seq<PackChunk>, asked: set<Str>)
    requires Fresh(s, bloom, known, appended, asked) && known <= known'
    ensures Fresh(s, bloom, known', appended, asked)
  {
    forall c | c in appended
      ensures NewData(s, bloom, known', asked, c)
    {
      assert NewData(s, bloom, known, asked, c);
    }
  }

  // Which hashes are known, and which have been uploaded, after some files

  ghost function HashSet(hs: seq<Str>): set<Str> {
    set h | h in hs
  }

  /** Those that are neither known nor claimed by the filter. */
  ghost function NewAmong(hs: seq<Str>, known: set<Str>, bloom: Str -> bool): set<Str> {
    set h | h in hs && h !in known && !bloom(h)
  }

  lemma OneHashMore(hs: seq<Str>, h: Str, known: set<Str>, bloom: Str -> bool)
    ensures HashSet(hs + [h]) == HashSet(hs) + {h}
    ensures NewAmong(hs + [h], known, bloom) ==
      NewAmong(hs, known, bloom) + (if h in known + HashSet(hs) || bloom(h) then {} else {h})
  {
  }

  ghost function KnownAfter(hasher: Hasher, files: seq<FileEntry>, n: nat): set<Str>
    requires n <= |files|
  {
    if n == 0 then {} else KnownAfter(hasher, files, n - 1) + HashSet(hasher(files[n - 1]))
  }

  /** What one file adds to the uploads: nothing if it is skipped, or else what is new in it. */
  ghost function UploadsFor(hs: seq<Str>, skipped: bool, known: set<Str>, bloom: Str -> bool): set<Str> {
    if skipped then {} else NewAmong(hs, known, bloom)
  }

  ghost function UploadsAfter(hasher: Hasher, prev: Option<Index>, bloom: Str -> bool, files: seq<FileEntry>, n: nat)
    : set<Str>
    requires n <= |files|
  {
    if n == 0 then {}
    else
      UploadsAfter(hasher, prev, bloom, files, n - 1) +
      UploadsFor(hasher(files[n - 1]), Skips(prev, files[n - 1]), KnownAfter(hasher, files, n - 1), bloom)
  }

  /** File k is the first that has the hash. */
  ghost predicate HeldFirst(hasher: Hasher, files: seq<FileEntry>, k: nat, h: Str)
    requires k < |files|
  {
    h in hasher(files[k]) && forall i :: 0 <= i < k ==> h !in hasher(files[i])
  }

  /** The first of the files that have the hash is one that is read. */
  ghost predicate ReadAmong(hasher: Hasher, prev: Option<Index>, files: seq<FileEntry>, n: nat, h: Str)
    requires n <= |files|
  {
    exists k {:trigger HeldFirst(hasher, files, k, h)} :: 0 <= k < n && HeldFirst(hasher, files, k, h) &&
                                                          !Skips(prev, files[k])
  }

  lemma {:induction false} KnownAfterIs(hasher: Hasher, files: seq<FileEntry>, n: nat, h: Str)
    requires n <= |files|
    ensures h in KnownAfter(hasher, files, n) <==> exists i :: 0 <= i < n && h in hasher(files[i])
  {
    if n > 0 {
      KnownAfterIs(hasher, files, n - 1, h);
    }
  }

  lemma {:induction false} SomeHoldsFirst(hasher: Hasher, files: seq<FileEntry>, i: nat, h: Str) returns (k: nat)
    requires i < |files| && h in hasher(files[i])
    ensures k <= i && HeldFirst(hasher, files, k, h)
  {
    k := i;
    if j :| 0 <= j < i && h in hasher(files[j]) {
      k := SomeHoldsFirst(hasher, files, j, h);
    }
  }

  /** A hash is uploaded exactly if the filter does not claim it and the first file that has it is read. */
  lemma {:induction false} UploadsAfterIs(hasher: Hasher, prev: Option<Index>, bloom: Str -> bool,
                                          files: seq<FileEntry>, n: nat, h: Str)
    requires n <= |files|
    ensures h in UploadsAfter(hasher, prev, bloom, files, n) <==> !bloom(h) && ReadAmong(hasher, prev, files, n, h)
  {
    if n > 0 {
      var k := n - 1;
      UploadsAfterIs(hasher, prev, bloom, files, k, h);
      KnownAfterIs(hasher, files, k, h);
      if h in UploadsFor(hasher(files[k]), Skips(prev, files[k]), KnownAfter(hasher, files, k), bloom) {
        assert HeldFirst(hasher, files, k, h);
      }
      if ReadAmong(hasher, prev, files, n, h) && !ReadAmong(hasher, prev, files, k, h) {
        assert HeldFirst(hasher, files, k, h) && !Skips(prev, files[k]);
      }
    }
  }

  lemma FreshGrows(s: Settings,
                   bloom: Str -> bool, known: set<Str>, appended: seq<PackChunk>, asked: set<Str>, c: PackChunk)
    requires Fresh(s, bloom, known, appended, asked) && c.kind == Data && c.hash !in known && c.hash in asked
    requires !bloom(c.hash)
    requires WellPressed(s, c)
    ensures Fresh(s, bloom, known + {c.hash}, appended + [c], asked)
  {
    FreshStays(s, bloom, known, known + {c.hash}, appended, asked);
    assert Map(HashOf, appended + [c]) == Map(HashOf, appended) + [c.hash];
    forall i | 0 <= i < |appended|
      ensures Map(HashOf, appended)[i] != c.hash
    {
      assert appended[i] in appended;
      assert NewData(s, bloom, known, asked, appended[i]);
    }
  }

  /** What a backup goes by: which data it asks for, and what the server held at first. */
  datatype Aim = Aim(asked: set<Str>, before: Contents)

  /** The state of the first phase. */
  ghost predicate DataPhase(s: Settings, server: Server, pack: PackBuffer,
                            bloom: Str -> bool, known: set<Str>, aim: Aim)
    reads pack, server
  {
    && pack.Valid(s) && pack.Progress(s, server, aim.before)
    && Fresh(s, bloom, known, pack.appended, aim.asked)
  }

  /** Uploads one chunk, unless it is known or the filter claims to know it. */
  method UploadChunk(s: Settings, server: Server, pack: PackBuffer, bloom: Str -> bool, c: ChunkData, known0: set<Str>,
                     ghost aim: Aim)
    returns (ok: bool, known: set<Str>)
    requires HashLaw(s.w) && CipherLaw(s.w) && c.hash == s.w.sha(c.data) && c.hash in aim.asked
    requires DataPhase(s, server, pack, bloom, known0, aim)
    modifies pack, server`store, server`keys, server`objects
    ensures server.Sound(s.w) && Follows(s.dek, aim.before, server.Now())
    ensures known == known0 + {c.hash}
    ensures ok ==> DataPhase(s, server, pack, bloom, known, aim)
    ensures ok ==> Hashes(pack.appended) ==
                     Hashes(old(pack.appended)) + (if c.hash in known0 || bloom(c.hash) then {} else {c.hash})
    ensures server.reliable ==> ok
  {
    known := known0 + {c.hash};
    FreshStays(s, bloom, known0, known, pack.appended, aim.asked);
    if c.hash in known0 || bloom(c.hash) {
      return true, known;
    }
    ghost var appended := pack.appended;
    ok := pack.Append(s, server, Data, c.hash, c.data, aim.before);
    if ok {
      ghost var pc :| pack.appended == appended + [pc] && pc.hash == c.hash && pc.kind == Data
        && Pressed(s, pc, c.data);
      FreshGrows(s, bloom, known0, appended, aim.asked, pc);
      OneMoreLabel(appended, pc);
    }
  }

  /** The chunks of one file are recorded. */
  ghost predicate Recorded(chunks: seq<ChunkData>, n: nat, hashes: seq<Str>)
    requires n <= |chunks|
  {
    |hashes| == n && forall i :: 0 <= i < n ==> hashes[i] == chunks[i].hash
  }

  /** What is known and has been uploaded after some of the chunks of a file. */
  ghost predicate Advanced(bloom: Str -> bool, hashes: seq<Str>, known0: set<Str>, known: set<Str>, uploads0: set<Str>,
                           appended: seq<PackChunk>)
  {
    known == known0 + HashSet(hashes) && Hashes(appended) == uploads0 + NewAmong(hashes, known0, bloom)
  }

  /** The next chunk of a file. */
  method UploadNextChunk(s: Settings, server: Server, pack: PackBuffer, bloom: Str -> bool, c: ChunkData,
                         ghost hashes: seq<Str>, ghost known0: set<Str>, before: set<Str>, ghost uploads0: set<Str>,
                         ghost aim: Aim)
    returns (ok: bool, known: set<Str>)
    requires HashLaw(s.w) && CipherLaw(s.w) && c.hash == s.w.sha(c.data) && c.hash in aim.asked
    requires DataPhase(s, server, pack, bloom, before, aim)
    requires Advanced(bloom, hashes, known0, before, uploads0, pack.appended)
    modifies pack, server`store, server`keys, server`objects
    ensures server.Sound(s.w) && Follows(s.dek, aim.before, server.Now())
    ensures ok ==> DataPhase(s, server, pack, bloom, known, aim)
    ensures ok ==> Advanced(bloom, hashes + [c.hash], known0, known, uploads0, pack.appended)
    ensures server.reliable ==> ok
  {
    OneHashMore(hashes, c.hash, known0, bloom);
    ok, known := UploadChunk(s, server, pack, bloom, c, before, aim);
  }

  /** Uploads what is new among the chunks of one file. */
  method UploadChunks(s: Settings, server: Server, pack: PackBuffer, bloom: Str -> bool, chunks: seq<ChunkData>,
                      known0: set<Str>, ghost aim: Aim)
    returns (r: Result<seq<Str>, Fault>, known: set<Str>)
    requires HashLaw(s.w) && CipherLaw(s.w)
    requires forall i :: 0 <= i < |chunks| ==> chunks[i].hash == s.w.sha(chunks[i].data) && chunks[i].hash in aim.asked
    requires DataPhase(s, server, pack, bloom, known0, aim)
    modifies pack, server`store, server`keys, server`objects
    ensures server.Sound(s.w) && Follows(s.dek, aim.before, server.Now())
    ensures r.Ok? ==> DataPhase(s, server, pack, bloom, known, aim)
    ensures r.Ok? ==> Recorded(chunks, |chunks|, r.value)
    ensures r.Ok? ==> Advanced(bloom, r.value, known0, known, Hashes(old(pack.appended)), pack.appended)
    ensures server.reliable ==> r.Ok?
  {
    var hashes := [];
    known := known0;
    ghost var uploads0 := Hashes(pack.appended);
    for i := 0 to |chunks|
      invariant Recorded(chunks, i, hashes) && DataPhase(s, server, pack, bloom, known, aim)
      invariant Advanced(bloom, hashes, known0, known, uploads0, pack.appended)
    {
      var ok;
      ok, known := UploadNextChunk(s, server, pack, bloom, chunks[i], hashes, known0, known, uploads0, aim);
      if !ok {
        return Err(Unavailable), known;
      }
      hashes := hashes + [chunks[i].hash];
    }
    r := Ok(hashes);
  }

  /** The data hashes that a backup of the scan looks at: those of all files it does not skip. */
  ghost function AskedData(digest: Digest, prev: Option<Index>, es: seq<FileEntry>): set<Str> {
    set e, h | e in es && e.kind.Regular? && !Skips(prev, e) && h in digest(e.bytes) :: h
  }

  /** Of what is asked, the first file that has it is read, or else it is skipped, and the index lists it. */
  lemma ReadAmongOrListed(digest: Digest, prev: Option<Index>, es: seq<FileEntry>, h: Str)
    requires h in AskedData(digest, prev, es)
    ensures var files := Filter(IsRegular, es);
            ReadAmong(HasherFor(digest, prev), prev, files, |files|, h) || h in ListedIn(prev)
  {
    var hasher, files := HasherFor(digest, prev), Filter(IsRegular, es);
    var e :| e in es && e.kind.Regular? && !Skips(prev, e) && h in digest(e.bytes);
    FilterHas(IsRegular, es);
    var i :| 0 <= i < |files| && files[i] == e;
    var k := SomeHoldsFirst(hasher, files, i, h);
    if Skips(prev, files[k]) {
      assert h in prev.value[files[k].rel].content;
    }
  }

  /** What the index lists was there when the backup began. */
  ghost predicate IndexHere(prev: Option<Index>, objects0: Objects) {
    prev.Some? ==> forall rel, h :: rel in prev.value && h in prev.value[rel].content ==> h in objects0
  }

  /** The hashes that the parent's index lists. */
  ghost function ListedIn(prev: Option<Index>): set<Str> {
    if prev.None? then {} else set rel, h | rel in prev.value && h in prev.value[rel].content :: h
  }

  /** What the file consists of, if it is not skipped, is among these hashes. */
  ghost predicate Covered(digest: Digest, prev: Option<Index>, e: FileEntry, hashes: set<Str>) {
    !Skips(prev, e) ==> forall h :: h in digest(e.bytes) ==> h in hashes
  }

  ghost predicate AllCovered(digest: Digest, prev: Option<Index>, files: seq<FileEntry>, n: nat, hashes: set<Str>)
    requires n <= |files|
  {
    forall k {:trigger Covered(digest, prev, files[k], hashes)} :: 0 <= k < n ==>
      Covered(digest, prev, files[k], hashes)
  }

  /** One file: its recorded hashes if it is skipped, or else the hashes of its chunks, uploaded where new. */
  method ProcessFile(s: Settings, server: Server, pack: PackBuffer, e: FileEntry, prev: Option<Index>,
                     bloom: Str -> bool,
                     known0: set<Str>, ghost digest: Digest, ghost hasher: Hasher,
                     ghost aim: Aim)
    returns (r: Result<seq<Str>, Fault>, known: set<Str>)
    requires HashLaw(s.w) && CipherLaw(s.w) && Acceptable(s.options)
    requires Digests(digest, s.w.sha, ParamsOf(s.options, s.gear))
    requires Finds(hasher, digest, prev)
    requires DataPhase(s, server, pack, bloom, known0, aim)
    requires Covered(digest, prev, e, aim.asked)
    modifies pack, server`store, server`keys, server`objects
    ensures server.Sound(s.w) && Follows(s.dek, aim.before, server.Now())
    ensures r.Ok? ==> DataPhase(s, server, pack, bloom, known, aim)
    ensures r.Ok? ==> r.value == hasher(e) && known == known0 + HashSet(r.value)
    ensures r.Ok? ==> Hashes(pack.appended) ==
                        Hashes(old(pack.appended)) + UploadsFor(r.value, Skips(prev, e), known0, bloom)
    ensures server.reliable && s.readable ==> r.Ok?
  {
    known := known0;
    assert hasher(e) == HashesFor(digest, prev, e);
    if prev.Some? && e.rel in prev.value && prev.value[e.rel].mtime == e.mtime && prev.value[e.rel].size == e.size {
      ghost var before := known;
      known := known + set h | h in prev.value[e.rel].content;
      FreshStays(s, bloom, before, known, pack.appended, aim.asked);
      return Ok(prev.value[e.rel].content), known;
    }
    var file := ReadFile(e, s.readable);
    var chunked := ChunkFile(file, s.options, s.gear, s.w.sha);
    if chunked.Err? {
      return Err(Unavailable), known;
    }
    assert digest(e.bytes) == HashList(s.w.sha, ParamsOf(s.options, s.gear), e.bytes);
    RecordsHashes(s.w.sha, ParamsOf(s.options, s.gear), e.bytes, aim.asked);
    r, known := UploadChunks(s, server, pack, bloom, chunked.value, known, aim);
    if r.Ok? {
      assert r.value == HashList(s.w.sha, ParamsOf(s.options, s.gear), e.bytes);
    }
  }

  /** Notes the hashes of the next file. */
  method NoteFile(table: FileHashes, e: FileEntry, hashes: seq<Str>, ghost hasher: Hasher,
                  ghost files: seq<FileEntry>, ghost i: nat) returns (table': FileHashes)
    requires i < |files| && e == files[i] && table == HashesOf(hasher, files, i) && hashes == hasher(e)
    ensures table' == HashesOf(hasher, files, i + 1)
  {
    table' := table[e.rel := hashes];
  }

  /** What is known and has been uploaded after n files. */
  ghost predicate Reached(hasher: Hasher, prev: Option<Index>, bloom: Str -> bool, files: seq<FileEntry>, n: nat,
                          known: set<Str>, appended: seq<PackChunk>)
    requires n <= |files|
  {
    known == KnownAfter(hasher, files, n) && Hashes(appended) == UploadsAfter(hasher, prev, bloom, files, n)
  }

  /** The next file of a row: what it consists of becomes known, and its hashes are noted. */
  method ProcessNext(s: Settings, server: Server, pack: PackBuffer, files: seq<FileEntry>, i: nat, table: FileHashes,
                     prev: Option<Index>, bloom: Str -> bool, known0: set<Str>, ghost digest: Digest,
                     ghost hasher: Hasher,
                     ghost aim: Aim)
    returns (r: Result<FileHashes, Fault>, known: set<Str>)
    requires HashLaw(s.w) && CipherLaw(s.w) && Acceptable(s.options)
    requires Digests(digest, s.w.sha, ParamsOf(s.options, s.gear))
    requires AllCovered(digest, prev, files, |files|, aim.asked)
    requires Finds(hasher, digest, prev) && i < |files| && table == HashesOf(hasher, files, i)
    requires DataPhase(s, server, pack, bloom, known0, aim)
    requires Reached(hasher, prev, bloom, files, i, known0, pack.appended)
    modifies pack, server`store, server`keys, server`objects
    ensures server.Sound(s.w) && Follows(s.dek, aim.before, server.Now())
    ensures r.Ok? ==> r.value == HashesOf(hasher, files, i + 1)
    ensures r.Ok? ==> DataPhase(s, server, pack, bloom, known, aim)
    ensures r.Ok? ==> Reached(hasher, prev, bloom, files, i + 1, known, pack.appended)
    ensures server.reliable && s.readable ==> r.Ok?
  {
    assert Covered(digest, prev, files[i], aim.asked);
    var hashes;
    hashes, known := ProcessFile(s, server, pack, files[i], prev, bloom, known0, digest, hasher, aim);
    if hashes.Err? {
      return Err(hashes.error), known;
    }
    var noted := NoteFile(table, files[i], hashes.value, hasher, files, i);
    r := Ok(noted);
  }

  /** One file after the other. */
  method ProcessFiles(s: Settings, server: Server, pack: PackBuffer, files: seq<FileEntry>, prev: Option<Index>,
                      bloom: Str -> bool,
                      ghost digest: Digest, ghost hasher: Hasher,
                      ghost aim: Aim)
    returns (r: Result<FileHashes, Fault>, known: set<Str>)
    requires HashLaw(s.w) && CipherLaw(s.w) && Acceptable(s.options)
    requires Digests(digest, s.w.sha, ParamsOf(s.options, s.gear))
    requires AllCovered(digest, prev, files, |files|, aim.asked)
    requires Finds(hasher, digest, prev)
    requires DataPhase(s, server, pack, bloom, {}, aim) && pack.appended == []
    modifies pack, server`store, server`keys, server`objects
    ensures server.Sound(s.w) && Follows(s.dek, aim.before, server.Now())
    ensures r.Ok? ==> r.value == HashesOf(hasher, files, |files|)
    ensures r.Ok? ==> DataPhase(s, server, pack, bloom, known, aim)
    ensures r.Ok? ==> Reached(hasher, prev, bloom, files, |files|, known, pack.appended)
    ensures server.reliable && s.readable ==> r.Ok?
  {
    var table: FileHashes := map[];
    known := {};
    for i := 0 to |files|
      invariant table == HashesOf(hasher, files, i)
      invariant DataPhase(s, server, pack, bloom, known, aim)
      invariant Reached(hasher, prev, bloom, files, i, known, pack.appended)
    {
      var next;
      next, known := ProcessNext(s, server, pack, files, i, table, prev, bloom, known, digest, hasher, aim);
      if next.Err? {
        return next, known;
      }
      table := next.value;
    }
    r := Ok(table);
  }

  method ProcessFileChunks(s: Settings, server: Server, pack: PackBuffer, es: seq<FileEntry>, prev: Option<Index>,
                           bloom: Str -> bool, ghost digest: Digest, ghost aim: Aim)
    returns (r: Result<FileHashes, Fault>, ghost known: set<Str>)
    requires HashLaw(s.w) && CipherLaw(s.w) && Acceptable(s.options)
    requires Digests(digest, s.w.sha, ParamsOf(s.options, s.gear)) && aim.asked == AskedData(digest, prev, es)
    requires pack.appended == [] && pack.Valid(s) && pack.Progress(s, server, aim.before)
    modifies pack, server`store, server`keys, server`objects
    ensures server.Sound(s.w) && Follows(s.dek, aim.before, server.Now())
    ensures r.Ok? ==> r.value == FileTable(digest, prev, es)
    ensures r.Ok? ==> DataPhase(s, server, pack, bloom, known, aim)
    ensures r.Ok? ==> Reached(HasherFor(digest, prev), prev, bloom, Filter(IsRegular, es), |Filter(IsRegular, es)|,
                              known, pack.appended)
    ensures server.reliable && s.readable ==> r.Ok?
  {
    var files := RegularFiles(es);
    FilesAsked(digest, prev, es);
    r, known := ProcessFiles(s, server, pack, files, prev, bloom, digest, HasherFor(digest, prev), aim);
  }

  lemma FilesAsked(digest: Digest, prev: Option<Index>, es: seq<FileEntry>)
    ensures AllCovered(digest, prev, Filter(IsRegular, es), |Filter(IsRegular, es)|, AskedData(digest, prev, es))
  {
    var files := Filter(IsRegular, es);
    FilterHas(IsRegular, es);
    forall k | 0 <= k < |files|
      ensures Covered(digest, prev, files[k], AskedData(digest, prev, es))
    {
      assert files[k] in files;
    }
  }

  lemma RecordsHashes(sha: Bytes -> Str, p: Params, content: Bytes, asked: set<Str>)
    requires forall h :: h in HashList(sha, p, content) ==> h in asked
    ensures var rs := Records(sha, ChunkAll(p, content));
            && |rs| == |HashList(sha, p, content)|
            && forall i :: 0 <= i < |rs| ==>
                 rs[i].hash == sha(rs[i].data) && rs[i].hash == HashList(sha, p, content)[i] && rs[i].hash in asked
  {
    var rs, hs := Records(sha, ChunkAll(p, content)), HashList(sha, p, content);
    forall i | 0 <= i < |rs|
      ensures rs[i].hash == hs[i] && rs[i].hash in asked
    {
      assert hs[i] in hs;
    }
  }

  method RegularFiles(es: seq<FileEntry>) returns (files: seq<FileEntry>)
    ensures files == Filter(IsRegular, es)
  {
    files := [];
    var i := 0;
    while i < |es|
      invariant i <= |es| && files == Filter(IsRegular, es[..i])
    {
      assert es[..i + 1] == es[..i] + [es[i]];
      FilterSnoc(IsRegular, es[..i], es[i]);
      if es[i].kind.Regular? {
        files := files + [es[i]];
      }
      i := i + 1;
    }
    assert es[..i] == es;
  }

  // ----- The second phase: what a directory's tree is made of

  /** The entries of each directory, as the loop over the scan collects them. */
  method GroupChildren(es: seq<FileEntry>) returns (children: map<Str, seq<FileEntry>>)
    ensures forall dir :: dir in children <==> Children(es, dir) != []
    ensures forall dir :: dir in children ==> children[dir] == Children(es, dir)
  {
    children := map[];
    var i := 0;
    while i < |es|
      invariant i <= |es|
      invariant forall dir :: dir in children <==> Children(es[..i], dir) != []
      invariant forall dir :: dir in children ==> children[dir] == Children(es[..i], dir)
    {
      var e := es[i];
      assert es[..i + 1] == es[..i] + [e];
      forall dir
        ensures Children(es[..i + 1], dir) == Children(es[..i], dir) + (if ParentDir(e.rel) == dir then [e] else [])
      {
        FilterSnoc(InDir(dir), es[..i], e);
      }
      var parent := ParentDir(e.rel);
      children := children[parent := (if parent in children then children[parent] else []) + [e]];
      i := i + 1;
    }
    assert es[..i] == es;
  }

  /** Deepest directories first: every directory comes before the one that holds it. */
  ghost predicate ChildrenFirst(es: seq<FileEntry>, dirs: seq<Str>) {
    && Distinct(dirs) && (forall dir :: dir in dirs <==> Children(es, dir) != [])
    && forall i, c :: 0 <= i < |dirs| && c in Children(es, dirs[i]) && Children(es, c.rel) != [] ==> c.rel in dirs[..i]
  }

  /** In a sorted list without repetitions, what must come before another comes before it. */
  lemma SortedEarlier(dirs: seq<Str>, i: nat, d: Str)
    requires Sorted(DirBefore, dirs) && i < |dirs| && d in dirs && DirBefore(d, dirs[i])
    ensures d in dirs[..i]
  {
    var j :| 0 <= j < |dirs| && dirs[j] == d;
    LessTotal(d, dirs[i]);
    assert j != i && !(i < j);
    assert dirs[..i][j] == d;
  }

  lemma {:induction false} DistinctArrangement(keys: seq<Str>, dirs: seq<Str>)
    requires Distinct(keys) && multiset(dirs) == multiset(keys)
    ensures Distinct(dirs)
  {
    DirBeforeOrdering();
    assert Untied(DirBefore, keys);
    UntiedArrangement(DirBefore, keys, dirs);
    forall i, j | 0 <= i < j < |dirs|
      ensures dirs[i] != dirs[j]
    {
      assert DirBefore(dirs[i], dirs[j]) || DirBefore(dirs[j], dirs[i]);
      LessTotal(dirs[i], dirs[j]);
    }
  }

  /** Deeper directories come first, and later names first among those of one depth. */
  lemma DirsDescend(keys: seq<Str>)
    requires Distinct(keys)
    ensures var dirs := Sort(DirBefore, keys);
            forall i, j :: 0 <= i < j < |dirs| ==>
              || SlashCount(dirs[i]) > SlashCount(dirs[j])
              || (SlashCount(dirs[i]) == SlashCount(dirs[j]) && ComesBefore(dirs[j], dirs[i]))
  {
    var dirs := Sort(DirBefore, keys);
    DirBeforeOrdering();
    SortSorts(DirBefore, keys);
    SortKeeps(DirBefore, keys);
    DistinctArrangement(keys, dirs);
    forall i, j | 0 <= i < j < |dirs|
      ensures DirBefore(dirs[i], dirs[j])
      ensures Less(dirs[j], dirs[i]) <==> ComesBefore(dirs[j], dirs[i])
    {
      LessMeans(dirs[j], dirs[i]);
    }
  }

  lemma SortedDirs(es: seq<FileEntry>, keys: seq<Str>)
    requires GoodPaths(es) && Distinct(keys) && forall dir :: dir in keys <==> Children(es, dir) != []
    ensures ChildrenFirst(es, Sort(DirBefore, keys))
  {
    var dirs := Sort(DirBefore, keys);
    DirBeforeOrdering();
    SortSorts(DirBefore, keys);
    SortKeeps(DirBefore, keys);
    SameElements(dirs, keys);
    DistinctArrangement(keys, dirs);
    forall i, c | 0 <= i < |dirs| && c in Children(es, dirs[i]) && Children(es, c.rel) != []
      ensures c.rel in dirs[..i]
    {
      ChildrenAre(es, dirs[i]);
      assert GoodPath(c.rel);
      ChildBeforeParent(dirs[i], BaseName(c.rel));
      SortedEarlier(dirs, i, c.rel);
    }
  }
}
