/** The graph that a backup's trees make in a collection of objects, and what a search of it finds. */
module Closure {
  import opened Base
  import opened Primitives
  import opened Codec
  import opened Sorting
  import opened Paths
  import opened Trees
  import opened Merkle
  import opened Graph
  import opened Utf8
  import Json

  /** Contents by digest: what a store means. */
  type Objects = map<Str, Bytes>

  function TreeIn(f: Format, objects: Objects, h: Str): Result<TreeBlob, Fault> {
    if h !in objects then Err(NoLocation)
    else
      match f.decode(objects[h])
      case Some(blob) => Ok(blob)
      case None => Err(BadTree)
  }

  function FetchFrom(f: Format, objects: Objects): Fetch {
    (h: Str) => TreeIn(f, objects, h)
  }

  lemma FetchFinite(f: Format, objects: Objects)
    ensures Finite(FetchFrom(f, objects), objects.Keys)
  {
  }

  // ----- Readers of trees

  /** Content is digested as in w; trees are read back as printed; and what reads as a tree is no compressed frame. */
  ghost predicate FormatLaw(w: World, f: Format) {
    && f.sha == w.sha && Faithful(f)
    && (forall x {:trigger f.decode(x)} :: f.decode(x).Some? ==> !LooksLikeFrame(x))
  }

  /** The canonical text and its reader obey the law; so may more tolerant readers. */
  lemma CanonicalIsLawful(w: World)
    ensures FormatLaw(w, Canonical(w.sha))
  {
    CanonicalFaithful(w.sha);
    forall x | DecodeTree(x).Some?
      ensures !LooksLikeFrame(x)
    {
      TreesAreNoFrames(x);
    }
  }

  /** Text that reads as a tree is never taken for a compressed frame. */
  lemma TreesAreNoFrames(x: Bytes)
    requires DecodeTree(x).Some?
    ensures !LooksLikeFrame(x)
  {
    assert x[0] == 0x28 ==> Json.ReadValue(x) == None;
  }

  /** Every object is filed under its digest. */
  ghost predicate Keyed(w: World, objects: Objects) {
    forall h :: h in objects ==> w.sha(objects[h]) == h
  }

  ghost predicate Extends(objects: Objects, objects': Objects) {
    forall h :: h in objects ==> h in objects' && objects'[h] == objects[h]
  }

  lemma KeyedExtends(w: World, objects: Objects, objects': Objects)
    requires HashLaw(w) && Keyed(w, objects) && Keyed(w, objects') && objects.Keys <= objects'.Keys
    ensures Extends(objects, objects')
  {
    forall h | h in objects
      ensures h in objects' && objects'[h] == objects[h]
    {
      NoCollision(w, objects'[h], objects[h]);
    }
  }

  // ----- Closure

  /** The tree is there, and so is all the content its files list. */
  ghost predicate TreeHere(f: Format, objects: Objects, h: Str) {
    TreeIn(f, objects, h).Ok? &&
    forall n, c :: n in NodesIn(TreeIn(f, objects, h).value) && IsFile(n) && c in n.content.value ==> c in objects
  }

  /** Everything reachable from root is there. */
  ghost predicate Closed(f: Format, objects: Objects, root: Str) {
    forall edges :: IsChain(FetchFrom(f, objects), root, edges) ==> TreeHere(f, objects, End(root, edges))
  }

  /** Adding objects keeps what is closed closed. */
  lemma ClosedGrows(f: Format, objects: Objects, objects': Objects, root: Str)
    requires Closed(f, objects, root) && Extends(objects, objects')
    ensures Closed(f, objects', root)
  {
    forall edges | IsChain(FetchFrom(f, objects'), root, edges)
      ensures TreeHere(f, objects', End(root, edges))
    {
      ChainShrinks(f, objects, objects', root, edges);
    }
  }

  lemma {:induction false} ChainShrinks(f: Format, objects: Objects, objects': Objects, root: Str, edges: seq<Edge>)
    requires Closed(f, objects, root) && Extends(objects, objects') && IsChain(FetchFrom(f, objects'), root, edges)
    ensures IsChain(FetchFrom(f, objects), root, edges) && TreeHere(f, objects, End(root, edges))
    decreases |edges|
  {
    if edges != [] {
      ChainShrinks(f, objects, objects', root, edges[..|edges| - 1]);
    }
  }

  // ----- The trees of a backup

  ghost predicate HasTree(f: Format, es: seq<FileEntry>, fh: FileHashes, objects: Objects, dir: Str)
    requires Proper(es)
  {
    MerkleHash(f, es, fh, dir) in objects &&
    objects[MerkleHash(f, es, fh, dir)] == f.encode(NodeList(f, es, fh, dir))
  }

  /** The trees of all directories in which something lies are there. */
  ghost predicate HasTrees(f: Format, es: seq<FileEntry>, fh: FileHashes, objects: Objects)
    requires Proper(es)
  {
    forall dir {:trigger HasTree(f, es, fh, objects, dir)} :: Children(es, dir) != [] ==>
      HasTree(f, es, fh, objects, dir)
  }

  ghost predicate HasContent(es: seq<FileEntry>, fh: FileHashes, objects: Objects) {
    forall e, h :: e in es && e.kind.Regular? && e.rel in fh && h in fh[e.rel] ==> h in objects
  }

  /** Hashes are text that survives printing and reading. */
  ghost predicate PlainHashes(f: Format, fh: FileHashes) {
    && (forall x {:trigger PlainDigest(f, x)} :: PlainDigest(f, x))
    && (forall rel, h {:trigger IsPlain(h), fh[rel]} :: rel in fh && h in fh[rel] ==> IsPlain(h))
  }

  ghost predicate PlainDigest(f: Format, x: Bytes) {
    f.sha(x) != [] && IsPlain(f.sha(x))
  }

  ghost predicate IsPlain(h: Str) {
    Sanitize(h) == h
  }

  /** n is what becomes of entry c when its directory's tree is printed and read. */
  ghost predicate IsNodeOf(f: Format, es: seq<FileEntry>, fh: FileHashes, c: FileEntry, n: TreeNode)
    requires Proper(es)
  {
    var made := NodesFor(c, Lookup(fh, c.rel), SubtreeOf(f, es, fh, c.rel));
    made != [] && n == Normal(made[0])
  }

  function StoredNodes(nodes: Option<seq<TreeNode>>): seq<TreeNode> {
    NodesIn(NormalBlob(nodes))
  }

  lemma StoredNodesAre(ns: seq<TreeNode>)
    ensures forall n :: n in StoredNodes(SortedNodes(ns)) <==> exists m :: m in ns && n == Normal(m)
  {
    SortKeeps(ByKey(NodeName), ns);
    SameElements(Sort(ByKey(NodeName), ns), ns);
    if ns != [] {
      var sorted := Sort(ByKey(NodeName), ns);
      assert sorted != [];
      forall n | n in StoredNodes(SortedNodes(ns))
        ensures exists m :: m in ns && n == Normal(m)
      {
        var i :| 0 <= i < |sorted| && Map(Normal, sorted)[i] == n;
        assert sorted[i] in ns;
      }
      forall m | m in ns
        ensures Normal(m) in StoredNodes(SortedNodes(ns))
      {
        assert m in sorted;
        var i :| 0 <= i < |sorted| && sorted[i] == m;
        assert Map(Normal, sorted)[i] == Normal(m);
      }
    }
  }

  lemma NodesMade(f: Format, es: seq<FileEntry>, fh: FileHashes, c: FileEntry, hashes: map<Str, Str>, n: TreeNode)
    requires Proper(es) && Lookup(hashes, c.rel) == SubtreeOf(f, es, fh, c.rel)
    ensures IsNodeOf(f, es, fh, c, n) <==> exists m :: m in NodeMaker(hashes, fh)(c) && n == Normal(m)
  {
    var made := NodeMaker(hashes, fh)(c);
    NodesForNamed(c, Lookup(fh, c.rel), Lookup(hashes, c.rel));
    if made != [] {
      assert made == [made[0]];
    }
  }

  lemma StoredNodesFrom(hashes: map<Str, Str>, fh: FileHashes, cs: seq<FileEntry>, n: TreeNode)
    ensures n in StoredNodes(SortedNodes(NodesFrom(hashes, fh, cs))) <==>
            exists c, m :: c in cs && m in NodeMaker(hashes, fh)(c) && n == Normal(m)
  {
    var f := NodeMaker(hashes, fh);
    StoredNodesAre(NodesFrom(hashes, fh, cs));
    if n in StoredNodes(SortedNodes(NodesFrom(hashes, fh, cs))) {
      var m :| m in NodesFrom(hashes, fh, cs) && n == Normal(m);
      FlatMapHas(f, cs, m);
    }
    if c, m :| c in cs && m in f(c) && n == Normal(m) {
      FlatMapHas(f, cs, m);
    }
  }

  /** The stored nodes of a directory are those of its entries. */
  lemma StoredNodesOfDir(f: Format, es: seq<FileEntry>, fh: FileHashes, dir: Str, n: TreeNode)
    requires Proper(es)
    ensures n in StoredNodes(NodeList(f, es, fh, dir)) <==>
            exists c :: c in Children(es, dir) && IsNodeOf(f, es, fh, c, n)
  {
    var table := SubtreeTable(f, es, fh);
    var cs := Children(es, dir);
    ChildrenAre(es, dir);
    forall c | c in cs
      ensures Lookup(table, c.rel) == SubtreeOf(f, es, fh, c.rel)
      ensures IsNodeOf(f, es, fh, c, n) <==> exists m :: m in NodeMaker(table, fh)(c) && n == Normal(m)
    {
      SubtreeTableLookup(f, es, fh, c);
      NodesMade(f, es, fh, c, table, n);
    }
    NodeListFromTable(f, es, fh, dir, table);
    StoredNodesFrom(table, fh, cs, n);
  }

  // ----- Nodes and entries

  lemma TypesDiffer()
    ensures FILE != DIR && DIR != SYMLINK && FILE != SYMLINK
  {
    assert FILE[0] == 102 && DIR[0] == 100 && SYMLINK[0] == 115;
  }

  lemma SanitizedType(t: Str)
    requires t == FILE || t == DIR || t == SYMLINK
    ensures Sanitize(t) == t
  {
    assert forall i :: 0 <= i < |t| ==> t[i] < 0x80;
    AsciiValid(t);
  }

  lemma HexIsPlain(s: Str)
    requires IsLowerHex(s)
    ensures Sanitize(s) == s
  {
    forall i | 0 <= i < |s|
      ensures s[i] < 0x80
    {
      assert IsLowerHexDigit(s[i]);
    }
    AsciiValid(s);
  }

  ghost predicate OccupiedDir(es: seq<FileEntry>, e: FileEntry) {
    e.kind.Directory? && Children(es, e.rel) != []
  }

  ghost predicate FilledFile(fh: FileHashes, e: FileEntry) {
    e.kind.Regular? && e.rel in fh && fh[e.rel] != []
  }

  lemma PlainAll(hs: seq<Str>)
    requires forall h :: h in hs ==> Sanitize(h) == h
    ensures SanitizedAll(hs) == hs
  {
    forall i | 0 <= i < |hs|
      ensures SanitizedAll(hs)[i] == hs[i]
    {
      assert hs[i] in hs;
    }
  }

  /** What printing and reading a node leaves as it was. */
  lemma NormalKeeps(n: TreeNode)
    requires Valid(n.name) && (n.typ == FILE || n.typ == DIR || n.typ == SYMLINK) && Sanitize(n.subtree) == n.subtree
    requires n.content.Some? ==> forall h :: h in n.content.value ==> Sanitize(h) == h
    ensures Normal(n).name == n.name && Normal(n).typ == n.typ && Normal(n).subtree == n.subtree
    ensures Normal(n).content == if n.content == Some([]) then None else n.content
  {
    SanitizedType(n.typ);
    SanitizeFixes(n.name);
    if n.content.Some? {
      PlainAll(n.content.value);
    }
  }

  lemma EmptyIsPlain()
    ensures Sanitize([]) == []
  {
  }

  /** The node of an entry, once stored, is a directory, a file with content, or neither. */
  lemma MadeNodeMeans(fh: FileHashes, c: FileEntry, subtree: Option<Str>, made: TreeNode)
    requires made in NodesFor(c, Lookup(fh, c.rel), subtree) && GoodPath(c.rel)
    requires subtree.Some? ==> subtree.value != [] && Sanitize(subtree.value) == subtree.value
    requires c.rel in fh ==> forall h :: h in fh[c.rel] ==> Sanitize(h) == h
    ensures var n := Normal(made);
            && n.name == BaseName(c.rel)
            && (IsDir(n) <==> c.kind.Directory? && subtree.Some?)
            && (IsDir(n) ==> n.subtree == subtree.value)
            && (IsFile(n) <==> FilledFile(fh, c))
            && (IsFile(n) ==> n.content.value == fh[c.rel] && n.mtime == Sanitize(c.mtime) && n.size == Some(c.size))
  {
    TypesDiffer();
    EmptyIsPlain();
    NodesForKind(c, Lookup(fh, c.rel), subtree, made);
    NormalKeeps(made);
  }

  /** The type, subtree and content of an entry's node. */
  lemma NodesForKind(c: FileEntry, content: Option<seq<Str>>, subtree: Option<Str>, n: TreeNode)
    requires n in NodesFor(c, content, subtree)
    ensures n.name == BaseName(c.rel) && !c.kind.Special?
    ensures c.kind.Regular? ==> n.typ == FILE && n.subtree == [] && n.content == content
    ensures c.kind.Regular? ==> n.mtime == c.mtime && n.size == Some(c.size)
    ensures c.kind.Directory? ==> n.typ == DIR && Some(n.subtree) == subtree && n.content == None
    ensures c.kind.Symlink? ==> n.typ == SYMLINK && n.subtree == [] && n.content == None
  {
  }

  lemma MerklePlain(f: Format, es: seq<FileEntry>, fh: FileHashes, dir: Str)
    requires Proper(es) && PlainHashes(f, fh)
    ensures MerkleHash(f, es, fh, dir) != [] && IsPlain(MerkleHash(f, es, fh, dir))
  {
    assert PlainDigest(f, f.encode(NodeList(f, es, fh, dir)));
  }

  lemma ContentPlain(f: Format, fh: FileHashes, rel: Str)
    requires PlainHashes(f, fh) && rel in fh
    ensures forall h :: h in fh[rel] ==> Sanitize(h) == h
  {
    forall h | h in fh[rel]
      ensures Sanitize(h) == h
    {
      assert IsPlain(h);
    }
  }

  /** A stored node is a directory with the right hash, a file with the right content, or neither. */
  lemma NodeMeansEntry(f: Format, es: seq<FileEntry>, fh: FileHashes, c: FileEntry, n: TreeNode)
    requires Proper(es) && PlainHashes(f, fh) && GoodPath(c.rel) && IsNodeOf(f, es, fh, c, n)
    ensures n.name == BaseName(c.rel)
    ensures IsDir(n) <==> OccupiedDir(es, c)
    ensures IsDir(n) ==> n.subtree == MerkleHash(f, es, fh, c.rel)
    ensures IsFile(n) <==> FilledFile(fh, c)
    ensures IsFile(n) ==> n.content.value == fh[c.rel] && n.mtime == Sanitize(c.mtime) && n.size == Some(c.size)
  {
    var subtree := SubtreeOf(f, es, fh, c.rel);
    var made := NodesFor(c, Lookup(fh, c.rel), subtree);
    MerklePlain(f, es, fh, c.rel);
    if c.rel in fh {
      ContentPlain(f, fh, c.rel);
    }
    MadeNodeMeans(fh, c, subtree, made[0]);
  }

  /** All that the stored node of an entry says: of a file, of a directory with something in it, or of a link. */
  ghost predicate Describes(f: Format, es: seq<FileEntry>, fh: FileHashes, e: FileEntry, n: TreeNode)
    requires Proper(es)
  {
    n.name == BaseName(e.rel) &&
    match e.kind
    case Regular =>
      && n.typ == FILE && n.mode == Some(e.mode) && n.size == Some(e.size) && n.mtime == Sanitize(e.mtime)
      && n.content == (if e.rel in fh && fh[e.rel] != [] then Some(fh[e.rel]) else None)
      && n.subtree == [] && n.target == []
    case Directory =>
      && n.typ == DIR && n.mode == Some(e.mode) && n.size == None && n.mtime == [] && n.content == None
      && n.subtree == MerkleHash(f, es, fh, e.rel) && n.target == []
    case Symlink(target) =>
      && n.typ == SYMLINK && n.mode == None && n.size == None && n.mtime == [] && n.content == None
      && n.subtree == [] && target.Some? && n.target == Sanitize(target.value)
    case Special => false
  }

  lemma NodeDescribes(f: Format, es: seq<FileEntry>, fh: FileHashes, c: FileEntry, n: TreeNode)
    requires Proper(es) && PlainHashes(f, fh) && GoodPath(c.rel) && IsNodeOf(f, es, fh, c, n)
    ensures Describes(f, es, fh, c, n)
  {
    var made := NodesFor(c, Lookup(fh, c.rel), SubtreeOf(f, es, fh, c.rel))[0];
    MerklePlain(f, es, fh, c.rel);
    EmptyIsPlain();
    SanitizeFixes(BaseName(c.rel));
    assert made.typ == FILE || made.typ == DIR || made.typ == SYMLINK;
    SanitizedType(made.typ);
    if c.rel in fh {
      ContentPlain(f, fh, c.rel);
      PlainAll(fh[c.rel]);
    }
  }

  /** What stands in the stored tree of a directory. */
  lemma DirHolds(f: Format, es: seq<FileEntry>, fh: FileHashes, objects: Objects, dir: Str)
    requires Faithful(f) && Proper(es) && HasTree(f, es, fh, objects, dir)
    ensures TreeIn(f, objects, MerkleHash(f, es, fh, dir)) == Ok(NormalBlob(NodeList(f, es, fh, dir)))
  {
  }
}
