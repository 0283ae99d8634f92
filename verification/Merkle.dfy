/** The entries of a scan, and the hash tree they stand for. */
module Merkle {
  import opened Base
  import opened Sorting
  import opened Paths
  import opened Trees
  import opened TreeRoundTrip
  import Utf8

  /** How content is digested, and how trees are written and read. */
  datatype Format = Format(sha: Bytes -> Str, encode: Option<seq<TreeNode>> -> Bytes, decode: Bytes -> Option<TreeBlob>)

  /** Trees are read back as they were written, normalised. */
  ghost predicate Faithful(f: Format) {
    forall ns {:trigger f.encode(ns)} :: f.decode(f.encode(ns)) == Some(NormalBlob(ns))
  }

  /** The canonical text is such a format. */
  function Canonical(sha: Bytes -> Str): Format {
    Format(sha, EncodeTree, DecodeTree)
  }

  lemma CanonicalFaithful(sha: Bytes -> Str)
    ensures Faithful(Canonical(sha))
  {
    forall ns
      ensures DecodeTree(EncodeTree(ns)) == Some(NormalBlob(ns))
    {
      TreeRoundTrips(ns);
    }
  }

  datatype EntryKind = Regular | Directory | Symlink(target: Option<Str>) | Special

  /** What a scan says of one path: clean and relative, with slashes. */
  datatype FileEntry = FileEntry(rel: Str, kind: EntryKind, mode: int64, size: int64, mtime: Str, bytes: Bytes)

  /** The chunk hashes of each file, by path. */
  type FileHashes = map<Str, seq<Str>>

  function FileNode(e: FileEntry, content: Option<seq<Str>>): TreeNode {
    TreeNode(BaseName(e.rel), FILE, Some(e.mode), Some(e.size), e.mtime, content, [], [])
  }

  function DirNode(e: FileEntry, subtree: Str): TreeNode {
    TreeNode(BaseName(e.rel), DIR, Some(e.mode), None, [], None, subtree, [])
  }

  function LinkNode(e: FileEntry, target: Str): TreeNode {
    TreeNode(BaseName(e.rel), SYMLINK, None, None, [], None, [], target)
  }

  function Lookup<T>(m: map<Str, T>, key: Str): Option<T> {
    if key in m then Some(m[key]) else None
  }

  /** The node of one entry, given the hash of its subtree if it is a directory that has one. */
  function NodesFor(e: FileEntry, content: Option<seq<Str>>, subtree: Option<Str>): seq<TreeNode> {
    match e.kind
    case Regular => [FileNode(e, content)]
    case Directory => if subtree.Some? then [DirNode(e, subtree.value)] else []
    case Symlink(target) => if target.Some? then [LinkNode(e, target.value)] else []
    case Special => []
  }

  function NodeName(n: TreeNode): Str {
    n.name
  }

  function InDir(dir: Str): FileEntry -> bool {
    (e: FileEntry) => ParentDir(e.rel) == dir
  }

  /** The entries of a directory, in the order of the scan. */
  function Children(es: seq<FileEntry>, dir: Str): seq<FileEntry> {
    Filter(InDir(dir), es)
  }

  lemma ChildrenAre(es: seq<FileEntry>, dir: Str)
    ensures forall e :: e in Children(es, dir) <==> e in es && ParentDir(e.rel) == dir
    ensures |Children(es, dir)| <= |es|
  {
    FilterHas(InDir(dir), es);
  }

  // ----- The recursive definition

  function Longest(es: seq<FileEntry>): nat {
    if es == [] then 0
    else
      var n := Longest(es[1..]);
      if |es[0].rel| > n then |es[0].rel| else n
  }

  lemma {:induction false} LongestBounds(es: seq<FileEntry>)
    ensures forall e :: e in es ==> |e.rel| <= Longest(es)
  {
    if es != [] {
      LongestBounds(es[1..]);
    }
  }

  /** How much deeper than dir a path can still be. */
  function Room(es: seq<FileEntry>, dir: Str): nat {
    if |dir| <= Longest(es) then Longest(es) + 1 - |dir| else 0
  }

  /** No entry is without a path. */
  ghost predicate Proper(es: seq<FileEntry>) {
    forall e :: e in es ==> e.rel != []
  }

  ghost predicate Below(es: seq<FileEntry>, dir: Str, cs: seq<FileEntry>) {
    forall c :: c in cs ==> |dir| < |c.rel| <= Longest(es)
  }

  lemma ChildrenBelow(es: seq<FileEntry>, dir: Str)
    requires Proper(es)
    ensures Below(es, dir, Children(es, dir))
  {
    ChildrenAre(es, dir);
    LongestBounds(es);
  }

  /** The hash of the subtree of a directory; None if nothing lies in it. */
  ghost function SubtreeOf(f: Format, es: seq<FileEntry>, fh: FileHashes, dir: Str): Option<Str>
    requires Proper(es)
    decreases Room(es, dir), 2, 0
  {
    if Children(es, dir) == [] then None else Some(MerkleHash(f, es, fh, dir))
  }

  ghost function NodesOfAll(f: Format, es: seq<FileEntry>, fh: FileHashes, dir: Str, cs: seq<FileEntry>): seq<TreeNode>
    requires Proper(es) && Below(es, dir, cs)
    decreases Room(es, dir), 0, |cs|
  {
    if cs == [] then []
    else
      NodesFor(cs[0], Lookup(fh, cs[0].rel), SubtreeOf(f, es, fh, cs[0].rel)) +
      NodesOfAll(f, es, fh, dir, cs[1..])
  }

  /** The nodes of a directory, by name; a directory without any has no list at all. */
  ghost function NodeList(f: Format, es: seq<FileEntry>, fh: FileHashes, dir: Str): Option<seq<TreeNode>>
    requires Proper(es)
    decreases Room(es, dir), 0, |es| + 1
  {
    ChildrenBelow(es, dir);
    ChildrenAre(es, dir);
    SortedNodes(NodesOfAll(f, es, fh, dir, Children(es, dir)))
  }

  function SortedNodes(nodes: seq<TreeNode>): Option<seq<TreeNode>> {
    if nodes == [] then None else Some(Sort(ByKey(NodeName), nodes))
  }

  ghost function MerkleHash(f: Format, es: seq<FileEntry>, fh: FileHashes, dir: Str): Str
    requires Proper(es)
    decreases Room(es, dir), 1, 0
  {
    f.sha(f.encode(NodeList(f, es, fh, dir)))
  }

  // ----- Computing it bottom up

  /** The nodes of an entry, with subtree hashes looked up in a table. */
  function NodeMaker(hashes: map<Str, Str>, fh: FileHashes): FileEntry -> seq<TreeNode> {
    (c: FileEntry) => NodesFor(c, Lookup(fh, c.rel), Lookup(hashes, c.rel))
  }

  function NodesFrom(hashes: map<Str, Str>, fh: FileHashes, cs: seq<FileEntry>): seq<TreeNode> {
    FlatMap(NodeMaker(hashes, fh), cs)
  }

  /** With the right hashes of all directories among them, the table gives the nodes of the definition. */
  lemma {:induction false} NodesFromAgrees(f: Format, es: seq<FileEntry>, fh: FileHashes, dir: Str,
                                           cs: seq<FileEntry>, hashes: map<Str, Str>)
    requires Proper(es) && Below(es, dir, cs)
    requires forall c :: c in cs && c.kind.Directory? ==> Lookup(hashes, c.rel) == SubtreeOf(f, es, fh, c.rel)
    ensures NodesFrom(hashes, fh, cs) == NodesOfAll(f, es, fh, dir, cs)
    decreases |cs|
  {
    if cs != [] {
      NodesFromAgrees(f, es, fh, dir, cs[1..], hashes);
    }
  }

  // ----- The order of the scan does not matter

  /** Names are distinct within a directory, because paths are. */
  ghost predicate DistinctPaths(es: seq<FileEntry>) {
    forall i, j :: 0 <= i < j < |es| ==> es[i].rel != es[j].rel
  }

  /** A path is its directory joined with its name, and the name is one that can stand in a tree. */
  ghost predicate GoodPath(rel: Str) {
    PlainName(BaseName(rel)) && Utf8.Valid(BaseName(rel)) && rel == Join(ParentDir(rel), BaseName(rel))
  }

  ghost predicate GoodPaths(es: seq<FileEntry>) {
    DistinctPaths(es) && forall e {:trigger GoodPath(e.rel)} :: e in es ==> GoodPath(e.rel)
  }

  function EntryName(e: FileEntry): Str {
    BaseName(e.rel)
  }

  lemma NodesForNamed(e: FileEntry, content: Option<seq<Str>>, subtree: Option<Str>)
    ensures |NodesFor(e, content, subtree)| <= 1
    ensures forall n :: n in NodesFor(e, content, subtree) ==> n.name == BaseName(e.rel)
  {
  }

  /** Nodes of entries with distinct names have distinct names. */
  lemma NodeNamesDistinct(hashes: map<Str, Str>, fh: FileHashes, cs: seq<FileEntry>)
    requires DistinctBy(EntryName, cs)
    ensures DistinctBy(NodeName, NodesFrom(hashes, fh, cs))
  {
    var f := NodeMaker(hashes, fh);
    forall c | c in cs
      ensures |f(c)| <= 1 && forall n :: n in f(c) ==> NodeName(n) == EntryName(c)
    {
      NodesForNamed(c, Lookup(fh, c.rel), Lookup(hashes, c.rel));
    }
    FlatMapKeys(f, cs, NodeName, EntryName);
  }

  lemma ChildNamesDistinct(es: seq<FileEntry>, dir: Str)
    requires GoodPaths(es)
    ensures DistinctBy(EntryName, Children(es, dir))
  {
    forall i, j | 0 <= i < j < |es| && InDir(dir)(es[i]) && InDir(dir)(es[j])
      ensures EntryName(es[i]) != EntryName(es[j])
    {
      assert GoodPath(es[i].rel) && GoodPath(es[j].rel);
    }
    FilterDistinctBy(EntryName, InDir(dir), es);
  }

  /** The subtree hashes of some entries. */
  ghost function SubtreeTable(f: Format, es: seq<FileEntry>, fh: FileHashes): map<Str, Str>
    requires Proper(es)
  {
    map e | e in es && SubtreeOf(f, es, fh, e.rel).Some? :: e.rel := SubtreeOf(f, es, fh, e.rel).value
  }

  lemma SubtreeTableLookup(f: Format, es: seq<FileEntry>, fh: FileHashes, e: FileEntry)
    requires Proper(es) && e in es
    ensures Lookup(SubtreeTable(f, es, fh), e.rel) == SubtreeOf(f, es, fh, e.rel)
  {
  }

  /** The nodes of a directory, computed with all subtree hashes at hand. */
  lemma NodeListFromTable(f: Format, es: seq<FileEntry>, fh: FileHashes, dir: Str, hashes: map<Str, Str>)
    requires Proper(es)
    requires forall c :: c in Children(es, dir) && c.kind.Directory? ==>
      Lookup(hashes, c.rel) == SubtreeOf(f, es, fh, c.rel)
    ensures NodeList(f, es, fh, dir) == SortedNodes(NodesFrom(hashes, fh, Children(es, dir)))
  {
    ChildrenBelow(es, dir);
    NodesFromAgrees(f, es, fh, dir, Children(es, dir), hashes);
  }

  lemma ChildrenArrangement(es: seq<FileEntry>, es': seq<FileEntry>, dir: Str)
    requires multiset(es) == multiset(es')
    ensures multiset(Children(es, dir)) == multiset(Children(es', dir))
  {
    forall e
      ensures multiset(Children(es, dir))[e] == multiset(Children(es', dir))[e]
    {
      FilterCount(InDir(dir), es, e);
      FilterCount(InDir(dir), es', e);
    }
  }

  lemma SortedNodesArrangement(ns: seq<TreeNode>, ns': seq<TreeNode>)
    requires DistinctBy(NodeName, ns) && multiset(ns) == multiset(ns')
    ensures SortedNodes(ns) == SortedNodes(ns')
  {
    var less := ByKey(NodeName);
    assert |ns| == |multiset(ns)| == |multiset(ns')| == |ns'|;
    ByKeyOrdering(NodeName);
    ByKeyUntied(NodeName, ns);
    SortKeeps(less, ns);
    SortSorts(less, ns);
    UntiedArrangement(less, ns, Sort(less, ns));
    SortIsTheSort(less, ns', Sort(less, ns));
  }

  lemma TableArrangement(hashes: map<Str, Str>, fh: FileHashes, cs: seq<FileEntry>, cs': seq<FileEntry>)
    requires DistinctBy(EntryName, cs) && multiset(cs) == multiset(cs')
    ensures SortedNodes(NodesFrom(hashes, fh, cs)) == SortedNodes(NodesFrom(hashes, fh, cs'))
  {
    forall n
      ensures multiset(NodesFrom(hashes, fh, cs))[n] == multiset(NodesFrom(hashes, fh, cs'))[n]
    {
      FlatMapArrangement(NodeMaker(hashes, fh), cs, cs', n);
    }
    NodeNamesDistinct(hashes, fh, cs);
    SortedNodesArrangement(NodesFrom(hashes, fh, cs), NodesFrom(hashes, fh, cs'));
  }

  /** Scanning the same entries in another order gives the same hashes. */
  lemma {:induction false} ScanOrderIrrelevant(f: Format, es: seq<FileEntry>, es': seq<FileEntry>, fh: FileHashes,
                                               dir: Str)
    requires GoodPaths(es) && Proper(es) && Proper(es') && multiset(es) == multiset(es')
    ensures SubtreeOf(f, es, fh, dir) == SubtreeOf(f, es', fh, dir)
    ensures MerkleHash(f, es, fh, dir) == MerkleHash(f, es', fh, dir)
    decreases Room(es, dir)
  {
    var cs, cs' := Children(es, dir), Children(es', dir);
    var table := SubtreeTable(f, es, fh);
    ChildrenBelow(es, dir);
    ChildrenAre(es, dir);
    ChildrenArrangement(es, es', dir);
    SameElements(cs, cs');
    forall c | c in cs
      ensures Lookup(table, c.rel) == SubtreeOf(f, es, fh, c.rel) == SubtreeOf(f, es', fh, c.rel)
    {
      SubtreeTableLookup(f, es, fh, c);
      ScanOrderIrrelevant(f, es, es', fh, c.rel);
    }
    NodeListFromTable(f, es, fh, dir, table);
    NodeListFromTable(f, es', fh, dir, table);
    ChildNamesDistinct(es, dir);
    TableArrangement(table, fh, cs, cs');
    assert |cs| == |multiset(cs)| == |multiset(cs')| == |cs'|;
  }
}
