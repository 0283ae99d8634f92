/** The second phase of a backup: the trees of all directories, from the deepest ones up. */
module TreePhase {
  import opened Base
  import opened Primitives
  import opened Codec
  import opened Encrypt
  import opened Sorting
  import opened Paths
  import opened PackStore
  import opened Trees
  import opened Merkle
  import opened Uploads
  import opened Backup
  import Printer

  // ----- The nodes of one directory

  lemma NodesOneMore(hashes: map<Str, Str>, fh: FileHashes, cs: seq<FileEntry>, i: nat)
    requires i < |cs|
    ensures var e := cs[i];
            NodesFrom(hashes, fh, cs[..i + 1]) ==
              NodesFrom(hashes, fh, cs[..i]) + NodesFor(e, Lookup(fh, e.rel), Lookup(hashes, e.rel))
  {
    var make := NodeMaker(hashes, fh);
    OneElementMore(make, cs, i);
    assert make(cs[i]) == NodesFor(cs[i], Lookup(fh, cs[i].rel), Lookup(hashes, cs[i].rel));
  }

  method MakeNodes(children: seq<FileEntry>, hashes: map<Str, Str>, fh: FileHashes) returns (nodes: seq<TreeNode>)
    ensures nodes == NodesFrom(hashes, fh, children)
  {
    nodes := [];
    var i := 0;
    while i < |children|
      invariant i <= |children| && nodes == NodesFrom(hashes, fh, children[..i])
    {
      var e := children[i];
      NodesOneMore(hashes, fh, children, i);
      match e.kind {
        case Regular =>
          nodes := nodes + [FileNode(e, Lookup(fh, e.rel))];
        case Directory =>
          if e.rel in hashes {
            nodes := nodes + [DirNode(e, hashes[e.rel])];
          }
        case Symlink(target) =>
          if target.Some? {
            nodes := nodes + [LinkNode(e, target.value)];
          }
        case Special =>
      }
      i := i + 1;
    }
    assert children[..i] == children;
  }

  // ----- The table of directories that are done

  /** The table has just the Merkle hashes of these directories. */
  ghost predicate TableOf(f: Format, es: seq<FileEntry>, fh: FileHashes, dirs: seq<Str>, hashes: map<Str, Str>)
    requires Proper(es)
  {
    && (forall dir :: dir in hashes <==> dir in dirs)
    && (forall dir :: dir in hashes ==> hashes[dir] == MerkleHash(f, es, fh, dir))
  }

  lemma TableGrows(f: Format, es: seq<FileEntry>, fh: FileHashes, dirs: seq<Str>, i: nat, hashes: map<Str, Str>)
    requires Proper(es) && i < |dirs| && TableOf(f, es, fh, dirs[..i], hashes)
    ensures TableOf(f, es, fh, dirs[..i + 1], hashes[dirs[i] := MerkleHash(f, es, fh, dirs[i])])
  {
    assert dirs[..i + 1] == dirs[..i] + [dirs[i]];
  }

  /** Once all deeper directories are done, the table gives the nodes of the next one. */
  lemma TableReady(f: Format, es: seq<FileEntry>, fh: FileHashes, dirs: seq<Str>, i: nat, hashes: map<Str, Str>)
    requires Proper(es) && ChildrenFirst(es, dirs) && i < |dirs| && TableOf(f, es, fh, dirs[..i], hashes)
    ensures NodeList(f, es, fh, dirs[i]) == SortedNodes(NodesFrom(hashes, fh, Children(es, dirs[i])))
  {
    forall c | c in Children(es, dirs[i]) && c.kind.Directory?
      ensures Lookup(hashes, c.rel) == SubtreeOf(f, es, fh, c.rel)
    {
      if c.rel in hashes {
        assert c.rel in dirs;
      }
    }
    NodeListFromTable(f, es, fh, dirs[i], hashes);
  }

  /** The tree hashes that a backup of the scan looks at. */
  ghost function AskedTrees(f: Format, es: seq<FileEntry>, fh: FileHashes): set<Str>
    requires Proper(es)
  {
    set e | e in es :: MerkleHash(f, es, fh, ParentDir(e.rel))
  }

  lemma DirIsAsked(f: Format, es: seq<FileEntry>, fh: FileHashes, dir: Str)
    requires Proper(es) && Children(es, dir) != []
    ensures MerkleHash(f, es, fh, dir) in AskedTrees(f, es, fh)
  {
    ChildrenAre(es, dir);
    assert Children(es, dir)[0] in Children(es, dir);
  }

  /** Trees are written as the canonical text. */
  ghost predicate Prints(f: Format) {
    forall ns {:trigger EncodeTree(ns)} :: f.encode(ns) == EncodeTree(ns)
  }

  /** The format of the backup is that of its world's digests and of the printer. */
  ghost predicate Writes(s: Settings) {
    s.format.sha == s.w.sha && Prints(s.format)
  }

  /** Digesting what is printed of the next directory's nodes gives its Merkle hash. */
  lemma NextHash(f: Format, es: seq<FileEntry>, fh: FileHashes, dirs: seq<Str>, i: nat, hashes: map<Str, Str>,
                 hash: Str)
    requires Prints(f) && Proper(es) && ChildrenFirst(es, dirs) && i < |dirs| && TableOf(f, es, fh, dirs[..i], hashes)
    requires hash == f.sha(EncodeTree(SortedNodes(NodesFrom(hashes, fh, Children(es, dirs[i])))))
    ensures hash == MerkleHash(f, es, fh, dirs[i]) && hash in AskedTrees(f, es, fh)
    ensures TableOf(f, es, fh, dirs[..i + 1], hashes[dirs[i] := hash])
  {
    TableReady(f, es, fh, dirs, i, hashes);
    assert dirs[i] in dirs;
    DirIsAsked(f, es, fh, dirs[i]);
    TableGrows(f, es, fh, dirs, i, hashes);
  }

  // ----- Uploading the trees

  /** The tree of a directory that the filter does not claim to know. */
  ghost predicate NewTree(s: Settings, bloom: Str -> bool, asked: set<Str>, c: PackChunk) {
    c.kind == Tree && c.hash in asked && !bloom(c.hash) && WellPressed(s, c)
  }

  /** All that was appended after the data are new trees. */
  ghost predicate TreesAfter(s: Settings,
                             bloom: Str -> bool, asked: set<Str>, data: seq<PackChunk>, appended: seq<PackChunk>) {
    |data| <= |appended| && appended[..|data|] == data &&
    forall k :: |data| <= k < |appended| ==> NewTree(s, bloom, asked, appended[k])
  }

  lemma TreesAfterOneMore(s: Settings, bloom: Str -> bool, asked: set<Str>, data: seq<PackChunk>,
                          appended: seq<PackChunk>, c: PackChunk)
    requires TreesAfter(s, bloom, asked, data, appended) && NewTree(s, bloom, asked, c)
    ensures TreesAfter(s, bloom, asked, data, appended + [c])
  {
    assert (appended + [c])[..|data|] == appended[..|data|];
  }

  /** Each hash of the table was uploaded, or the filter claims to know it. */
  ghost predicate HashesUploaded(bloom: Str -> bool, hashes: map<Str, Str>, appended: seq<PackChunk>) {
    forall dir :: dir in hashes ==> UploadedAs(appended, hashes[dir], Tree) || bloom(hashes[dir])
  }

  /** The state of the second phase. */
  ghost predicate TreeState(s: Settings, server: Server, pack: PackBuffer, bloom: Str -> bool, asked: set<Str>,
                            data: seq<PackChunk>, c0: Contents)
    reads pack, server
  {
    pack.Valid(s) && pack.Progress(s, server, c0) && TreesAfter(s, bloom, asked, data, pack.appended)
  }

  /** Uploads one tree, unless the filter claims to know it. */
  method UploadTree(s: Settings, server: Server, pack: PackBuffer,
                    bloom: Str -> bool, hash: Str, text: Bytes, ghost asked: set<Str>,
                    ghost data: seq<PackChunk>, ghost c0: Contents)
    returns (ok: bool)
    requires HashLaw(s.w) && CipherLaw(s.w) && s.w.sha(text) == hash && hash in asked
    requires TreeState(s, server, pack, bloom, asked, data, c0)
    modifies pack, server`store, server`keys, server`objects
    ensures server.Sound(s.w) && Follows(s.dek, c0, server.Now())
    ensures ok ==> TreeState(s, server, pack, bloom, asked, data, c0)
    ensures ok ==> UploadedAs(pack.appended, hash, Tree) || bloom(hash)
    ensures ok ==> forall h :: UploadedAs(old(pack.appended), h, Tree) ==> UploadedAs(pack.appended, h, Tree)
    ensures server.reliable ==> ok
  {
    if bloom(hash) {
      return true;
    }
    ghost var appended := pack.appended;
    ok := pack.Append(s, server, Tree, hash, text, c0);
    if ok {
      ghost var c :| pack.appended == appended + [c] && c.hash == hash && c.kind == Tree && Pressed(s, c, text);
      TreesAfterOneMore(s, bloom, asked, data, appended, c);
      UploadedStays(appended, c);
    }
  }

  /** The tree of the next directory, from its entries and the hashes of the directories before it. */
  method BuildTree(sha: Bytes -> Str, ghost f: Format, children: seq<FileEntry>, hashes: map<Str, Str>, fh: FileHashes,
                   ghost es: seq<FileEntry>, ghost dirs: seq<Str>, ghost i: nat) returns (hash: Str, text: Bytes)
    requires f.sha == sha && Prints(f) && Proper(es) && ChildrenFirst(es, dirs) && i < |dirs|
    requires children == Children(es, dirs[i])
    requires TableOf(f, es, fh, dirs[..i], hashes)
    ensures hash == sha(text) && hash == MerkleHash(f, es, fh, dirs[i])
    ensures hash in AskedTrees(f, es, fh)
    ensures TableOf(f, es, fh, dirs[..i + 1], hashes[dirs[i] := hash])
  {
    var nodes := MakeNodes(children, hashes, fh);
    hash, text := Printer.HashTree(sha, SortedNodes(nodes));
    NextHash(f, es, fh, dirs, i, hashes, hash);
  }

  /** What is still buffered at the end is uploaded too. */
  method FlushAll(s: Settings, server: Server, pack: PackBuffer,
                  bloom: Str -> bool, ghost asked: set<Str>, ghost data: seq<PackChunk>,
                  ghost c0: Contents)
    returns (ok: bool)
    requires HashLaw(s.w) && TreeState(s, server, pack, bloom, asked, data, c0)
    modifies pack, server`store, server`keys, server`objects
    ensures server.Sound(s.w) && Follows(s.dek, c0, server.Now())
    ensures pack.appended == old(pack.appended)
    ensures ok ==> pack.chunks == [] && pack.Progress(s, server, c0)
    ensures ok ==> FullyPacked(PACK_TARGET_SIZE, pack.appended, pack.flushed)
    ensures server.reliable ==> ok
  {
    FlushRestPacks(PACK_TARGET_SIZE, pack.appended, Packing(pack.chunks, pack.flushed));
    ok := pack.Flush(s, server, c0);
  }

  ghost predicate Grouped(es: seq<FileEntry>, children: map<Str, seq<FileEntry>>) {
    forall dir :: dir in children ==> children[dir] == Children(es, dir)
  }

  /** Directories with the deepest first, and the entries of each. */
  method GroupAndSort(es: seq<FileEntry>) returns (dirs: seq<Str>, children: map<Str, seq<FileEntry>>)
    requires GoodPaths(es)
    ensures ChildrenFirst(es, dirs) && Grouped(es, children) && forall dir :: dir in dirs ==> dir in children
  {
    children := GroupChildren(es);
    var keys := InAnyOrder(children.Keys);
    SortedDirs(es, keys);
    dirs := Sort(DirBefore, keys);
  }

  /** The next directory: its tree is built and uploaded, and its hash noted. */
  method UploadNext(s: Settings, server: Server, pack: PackBuffer, es: seq<FileEntry>, fh: FileHashes,
                    bloom: Str -> bool,
                    dirs: seq<Str>, i: nat, children: seq<FileEntry>, hashes0: map<Str, Str>, ghost asked: set<Str>,
                    ghost data: seq<PackChunk>, ghost c0: Contents)
    returns (ok: bool, hashes: map<Str, Str>)
    requires HashLaw(s.w) && CipherLaw(s.w) && Writes(s) && Proper(es) && asked == AskedTrees(s.format, es, fh)
    requires ChildrenFirst(es, dirs) && i < |dirs| && children == Children(es, dirs[i])
    requires TableOf(s.format, es, fh, dirs[..i], hashes0) && HashesUploaded(bloom, hashes0, pack.appended)
    requires TreeState(s, server, pack, bloom, asked, data, c0)
    modifies pack, server`store, server`keys, server`objects
    ensures server.Sound(s.w) && Follows(s.dek, c0, server.Now())
    ensures ok ==> TreeState(s, server, pack, bloom, asked, data, c0)
    ensures ok ==> TableOf(s.format, es, fh, dirs[..i + 1], hashes) && HashesUploaded(bloom, hashes, pack.appended)
    ensures server.reliable ==> ok
  {
    var hash, text := BuildTree(s.w.sha, s.format, children, hashes0, fh, es, dirs, i);
    hashes := hashes0[dirs[i] := hash];
    ok := UploadTree(s, server, pack, bloom, hash, text, asked, data, c0);
  }

  /** Builds and uploads the trees of the directories in turn. */
  method UploadTrees(s: Settings, server: Server, pack: PackBuffer, es: seq<FileEntry>, fh: FileHashes,
                     bloom: Str -> bool,
                     dirs: seq<Str>, children: map<Str, seq<FileEntry>>, ghost asked: set<Str>,
                     ghost data: seq<PackChunk>,
                     ghost c0: Contents)
    returns (ok: bool, hashes: map<Str, Str>)
    requires HashLaw(s.w) && CipherLaw(s.w) && Writes(s) && Proper(es) && asked == AskedTrees(s.format, es, fh)
    requires ChildrenFirst(es, dirs) && Grouped(es, children) && forall dir :: dir in dirs ==> dir in children
    requires TreeState(s, server, pack, bloom, asked, data, c0)
    modifies pack, server`store, server`keys, server`objects
    ensures server.Sound(s.w) && Follows(s.dek, c0, server.Now())
    ensures ok ==> TreeState(s, server, pack, bloom, asked, data, c0)
    ensures ok ==> TableOf(s.format, es, fh, dirs, hashes) && HashesUploaded(bloom, hashes, pack.appended)
    ensures server.reliable ==> ok
  {
    hashes := map[];
    for i := 0 to |dirs|
      invariant TableOf(s.format, es, fh, dirs[..i], hashes)
      invariant TreeState(s, server, pack, bloom, asked, data, c0)
      invariant HashesUploaded(bloom, hashes, pack.appended)
    {
      assert dirs[i] in dirs;
      ok, hashes := UploadNext(s, server, pack, es, fh, bloom, dirs, i, children[dirs[i]], hashes, asked, data, c0);
      if !ok {
        return;
      }
    }
    assert dirs[..|dirs|] == dirs;
    ok := true;
  }

  method BuildAndUploadTrees(s: Settings, server: Server, pack: PackBuffer, es: seq<FileEntry>, fh: FileHashes,
                             bloom: Str -> bool, ghost c0: Contents)
    returns (r: Result<map<Str, Str>, Fault>)
    requires HashLaw(s.w) && CipherLaw(s.w) && Writes(s) && GoodPaths(es) && Proper(es)
    requires pack.Valid(s) && pack.Progress(s, server, c0)
    modifies pack, server`store, server`keys, server`objects
    ensures server.Sound(s.w) && Follows(s.dek, c0, server.Now())
    ensures r.Ok? ==> pack.chunks == [] && pack.Progress(s, server, c0)
    ensures r.Ok? ==> TreesAfter(s, bloom, AskedTrees(s.format, es, fh), old(pack.appended), pack.appended)
    ensures r.Ok? ==> FullyPacked(PACK_TARGET_SIZE, pack.appended, pack.flushed)
    ensures r.Ok? ==> (forall dir :: dir in r.value <==> Children(es, dir) != [])
    ensures r.Ok? ==> forall dir :: dir in r.value ==> r.value[dir] == MerkleHash(s.format, es, fh, dir)
    ensures r.Ok? ==> HashesUploaded(bloom, r.value, pack.appended)
    ensures server.reliable ==> r.Ok?
  {
    var dirs, children := GroupAndSort(es);
    ghost var asked, data := AskedTrees(s.format, es, fh), pack.appended;
    var ok, hashes := UploadTrees(s, server, pack, es, fh, bloom, dirs, children, asked, data, c0);
    if !ok {
      return Err(Unavailable);
    }
    ok := FlushAll(s, server, pack, bloom, asked, data, c0);
    r := if ok then Ok(hashes) else Err(Unavailable);
  }
}
