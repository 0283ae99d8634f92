/** The index of a parent snapshot that an incremental backup consults. */
module PrevIndex {
  import opened Base
  import opened Codec
  import opened Paths
  import opened Trees
  import opened Merkle
  import opened Graph
  import opened Search
  import opened Closure
  import opened Snapshots
  import opened Utf8

  datatype PrevFile = PrevFile(mtime: Str, size: int64, content: seq<Str>)

  type Index = map<Str, PrevFile>

  /** A file node that can tell whether the file has changed. */
  predicate IsDated(n: TreeNode) {
    IsFile(n) && n.mtime != [] && n.size.Some?
  }

  function InfoOf(n: TreeNode): PrevFile
    requires IsDated(n)
  {
    PrevFile(n.mtime, n.size.value, n.content.value)
  }

  /** Walks the trees from one hash on, as deep as the stack allows; a tree that has no location is passed over. */
  function Walk(fetch: Fetch, hash: Str, prefix: Str, depth: nat, index: Index): Result<Index, Fault>
    decreases depth, 0
  {
    if depth == 0 then Err(TooDeep)
    else
      match fetch(hash)
      case Err(e) => if e == NoLocation then Ok(index) else Err(e)
      case Ok(blob) => WalkNodes(fetch, NodesIn(blob), prefix, depth - 1, index)
  }

  function WalkNodes(fetch: Fetch, ns: seq<TreeNode>, prefix: Str, depth: nat, index: Index): Result<Index, Fault>
    decreases depth, |ns| + 2
  {
    if ns == [] then Ok(index)
    else
      match WalkNode(fetch, ns[0], prefix, depth, index)
      case Err(e) => Err(e)
      case Ok(index1) => WalkNodes(fetch, ns[1..], prefix, depth, index1)
  }

  function WalkNode(fetch: Fetch, n: TreeNode, prefix: Str, depth: nat, index: Index): Result<Index, Fault>
    decreases depth, 1
  {
    var rel := Join(prefix, n.name);
    if IsDated(n) then Ok(index[rel := InfoOf(n)])
    else if IsDir(n) then Walk(fetch, n.subtree, rel, depth, index)
    else Ok(index)
  }

  // ----- What is in it

  /** Every entry comes from a file node at the end of a chain. */
  ghost predicate Genuine(fetch: Fetch, root: Str, index: Index) {
    forall p :: p in index ==> exists edges, n ::
      FileAt(fetch, root, edges, n, p) && IsDated(n) && InfoOf(n) == index[p]
  }

  lemma {:induction false} WalkGenuine(fetch: Fetch, root: Str, edges: seq<Edge>, depth: nat, index: Index)
    requires IsChain(fetch, root, edges) && Genuine(fetch, root, index)
    ensures Walk(fetch, End(root, edges), PathTo(edges), depth, index).Ok? ==>
              Genuine(fetch, root, Walk(fetch, End(root, edges), PathTo(edges), depth, index).value)
    decreases depth, 0
  {
    if depth > 0 && fetch(End(root, edges)).Ok? {
      WalkNodesGenuine(fetch, root, edges, NodesIn(fetch(End(root, edges)).value), depth - 1, index);
    }
  }

  lemma {:induction false} WalkNodesGenuine(fetch: Fetch, root: Str, edges: seq<Edge>, ns: seq<TreeNode>, depth: nat,
                                            index: Index)
    requires IsChain(fetch, root, edges) && fetch(End(root, edges)).Ok? && Genuine(fetch, root, index)
    requires forall n :: n in ns ==> n in NodesIn(fetch(End(root, edges)).value)
    ensures WalkNodes(fetch, ns, PathTo(edges), depth, index).Ok? ==>
              Genuine(fetch, root, WalkNodes(fetch, ns, PathTo(edges), depth, index).value)
    decreases depth, |ns| + 1
  {
    if ns != [] {
      var n := ns[0];
      var rel := Join(PathTo(edges), n.name);
      if IsDated(n) {
        assert FileAt(fetch, root, edges, n, rel);
      } else if IsDir(n) {
        var e := Edge(n.name, n.subtree);
        assert Linked(fetch, End(root, edges), e);
        ExtendChain(fetch, root, edges, e);
        WalkGenuine(fetch, root, edges + [e], depth, index);
      }
      var r := WalkNode(fetch, n, PathTo(edges), depth, index);
      if r.Ok? {
        WalkNodesGenuine(fetch, root, edges, ns[1..], depth, r.value);
      }
    }
  }

  /** A closed parent is indexed with content that is there. */
  lemma IndexedContentIsHere(f: Format, objects: Objects, root: Str, depth: nat)
    requires Closed(f, objects, root)
    ensures var r := Walk(FetchFrom(f, objects), root, [], depth, map[]);
            r.Ok? ==> forall p, h :: p in r.value && h in r.value[p].content ==> h in objects
  {
    var fetch := FetchFrom(f, objects);
    EmptyPath();
    WalkGenuine(fetch, root, [], depth, map[]);
    var r := Walk(fetch, root, [], depth, map[]);
    if r.Ok? {
      forall p, h | p in r.value && h in r.value[p].content
        ensures h in objects
      {
        var edges, n :| FileAt(fetch, root, edges, n, p) && IsDated(n) && InfoOf(n) == r.value[p];
        assert TreeHere(f, objects, End(root, edges));
      }
    }
  }

  // ----- What is in it when the parent is a backup

  /** rel lies in dir or further below. */
  predicate Under(dir: Str, rel: Str)
    decreases |rel|
  {
    rel != [] && (ParentDir(rel) == dir || Under(dir, ParentDir(rel)))
  }

  lemma {:induction false} AllUnderTop(rel: Str)
    requires rel != []
    ensures Under([], rel)
    decreases |rel|
  {
    if ParentDir(rel) != [] {
      AllUnderTop(ParentDir(rel));
    }
  }

  /** What lies further below lies below a directory. */
  lemma {:induction false} UnderChild(es: seq<FileEntry>, dir: Str, e: FileEntry) returns (c: FileEntry)
    requires WellFormed(es) && e in es && Under(dir, e.rel) && ParentDir(e.rel) != dir
    ensures c in es && ParentDir(c.rel) == dir && OccupiedDir(es, c) && Under(c.rel, e.rel)
    decreases |e.rel|
  {
    assert HasParent(es, e);
    var p :| p in es && p.rel == ParentDir(e.rel) && p.kind.Directory?;
    ChildrenAre(es, p.rel);
    assert e in Children(es, p.rel);
    if ParentDir(p.rel) == dir {
      c := p;
    } else {
      c := UnderChild(es, dir, p);
    }
  }

  ghost predicate Indexed(es: seq<FileEntry>, fh: FileHashes, dir: Str, index: Index) {
    forall e :: e in es && FilledFile(fh, e) && Under(dir, e.rel) ==> e.rel in index
  }

  /** Modification times are never empty, and survive printing. */
  ghost predicate Dated(es: seq<FileEntry>) {
    forall e {:trigger HasTime(e)} :: e in es ==> HasTime(e)
  }

  ghost predicate HasTime(e: FileEntry) {
    e.mtime != [] && Sanitize(e.mtime) == e.mtime
  }

  /** The walk from a directory succeeds, keeps what was indexed, and adds all that lies below. */
  ghost predicate WalkCovers(f: Format, es: seq<FileEntry>, fh: FileHashes, objects: Objects, dir: Str, depth: nat,
                             index: Index)
    requires Proper(es)
  {
    var r := Walk(FetchFrom(f, objects), MerkleHash(f, es, fh, dir), dir, depth, index);
    r.Ok? && index.Keys <= r.value.Keys && Indexed(es, fh, dir, r.value)
  }

  ghost predicate AllPassed(es: seq<FileEntry>, fh: FileHashes, dir: Str, ns: seq<TreeNode>, index: Index) {
    forall n {:trigger Passed(es, fh, dir, n, index)} :: n in ns ==> Passed(es, fh, dir, n, index)
  }

  ghost predicate WalkNodesCovers(f: Format, es: seq<FileEntry>, fh: FileHashes, objects: Objects, dir: Str,
                                  ns: seq<TreeNode>, depth: nat, index: Index)
  {
    var r := WalkNodes(FetchFrom(f, objects), ns, dir, depth, index);
    r.Ok? && index.Keys <= r.value.Keys && AllPassed(es, fh, dir, ns, r.value)
  }

  lemma {:induction false} WalkIndexes(f: Format, es: seq<FileEntry>, fh: FileHashes, objects: Objects, dir: Str,
                                       depth: nat, below: nat, index: Index)
    requires InStore(f, es, fh, objects) && Dated(es) && Children(es, dir) != [] && depth > Room(es, dir)
    requires depth == below + 1
    ensures WalkCovers(f, es, fh, objects, dir, depth, index)
    decreases depth, 0
  {
    WalkNodesIndexes(f, es, fh, objects, dir, DirNodes(f, es, fh, dir), below, index);
    NodesToDir(f, es, fh, objects, dir, depth, below, index);
  }

  lemma NodesToDir(f: Format, es: seq<FileEntry>, fh: FileHashes, objects: Objects, dir: Str, depth: nat, below: nat,
                   index: Index)
    requires InStore(f, es, fh, objects) && Children(es, dir) != [] && depth == below + 1
    requires WalkNodesCovers(f, es, fh, objects, dir, DirNodes(f, es, fh, dir), below, index)
    ensures WalkCovers(f, es, fh, objects, dir, depth, index)
  {
    DirTree(f, es, fh, objects, dir);
    WalkStep(FetchFrom(f, objects), MerkleHash(f, es, fh, dir), dir, depth, below, index);
    NodesCoverDir(f, es, fh, dir, WalkNodes(FetchFrom(f, objects), DirNodes(f, es, fh, dir), dir, below, index).value);
  }

  lemma WalkStep(fetch: Fetch, hash: Str, prefix: Str, depth: nat, below: nat, index: Index)
    requires depth == below + 1 && fetch(hash).Ok?
    ensures Walk(fetch, hash, prefix, depth, index) ==
      WalkNodes(fetch, NodesIn(fetch(hash).value), prefix, below, index)
  {
  }

  /** Once all nodes of a directory are passed, everything below it is indexed. */
  lemma NodesCoverDir(f: Format, es: seq<FileEntry>, fh: FileHashes, dir: Str, index: Index)
    requires WellFormed(es) && PlainHashes(f, fh)
    requires AllPassed(es, fh, dir, DirNodes(f, es, fh, dir), index)
    ensures Indexed(es, fh, dir, index)
  {
    forall e | e in es && FilledFile(fh, e) && Under(dir, e.rel)
      ensures e.rel in index
    {
      if ParentDir(e.rel) == dir {
        var n := EntryInDir(f, es, fh, e);
        assert Passed(es, fh, dir, n, index);
      } else {
        var c := UnderChild(es, dir, e);
        var n := EntryInDir(f, es, fh, c);
        assert Passed(es, fh, dir, n, index);
      }
    }
  }

  /** All that a node stands for is in the index. */
  ghost predicate Passed(es: seq<FileEntry>, fh: FileHashes, dir: Str, n: TreeNode, index: Index) {
    (IsFile(n) ==> Join(dir, n.name) in index) && (IsDir(n) ==> Indexed(es, fh, Join(dir, n.name), index))
  }

  lemma {:induction false} WalkNodesIndexes(f: Format, es: seq<FileEntry>, fh: FileHashes, objects: Objects, dir: Str,
                                            ns: seq<TreeNode>, depth: nat, index: Index)
    requires InStore(f, es, fh, objects) && Dated(es) && Children(es, dir) != [] && depth >= Room(es, dir)
    requires forall n :: n in ns ==> n in DirNodes(f, es, fh, dir)
    ensures WalkNodesCovers(f, es, fh, objects, dir, ns, depth, index)
    decreases depth, |ns| + 2
  {
    if ns != [] {
      var n := ns[0];
      WalkNodeIndexes(f, es, fh, objects, dir, n, depth, index);
      var index1 := WalkNode(FetchFrom(f, objects), n, dir, depth, index).value;
      WalkNodesIndexes(f, es, fh, objects, dir, ns[1..], depth, index1);
    }
  }

  lemma {:induction false} WalkNodeIndexes(f: Format, es: seq<FileEntry>, fh: FileHashes, objects: Objects, dir: Str,
                                           n: TreeNode, depth: nat, index: Index)
    requires InStore(f, es, fh, objects) && Dated(es) && Children(es, dir) != [] && depth >= Room(es, dir)
    requires n in DirNodes(f, es, fh, dir)
    ensures var r := WalkNode(FetchFrom(f, objects), n, dir, depth, index);
            r.Ok? && index.Keys <= r.value.Keys && Passed(es, fh, dir, n, r.value)
    decreases depth, 1
  {
    var c := NodeInDir(f, es, fh, dir, n);
    assert HasTime(c);
    if IsFile(n) {
      TypesDiffer();
      assert IsDated(n);
    } else if IsDir(n) {
      ChildrenBelow(es, dir);
      ChildrenAre(es, dir);
      assert c in Children(es, dir);
      WalkIndexes(f, es, fh, objects, c.rel, depth, depth - 1, index);
    }
  }

  lemma PathsDetermine(es: seq<FileEntry>)
    requires DistinctPaths(es)
    ensures forall e, e' :: e in es && e' in es && e.rel == e'.rel ==> e == e'
  {
  }

  /** The index of a backup: each file with content, with its time, size and hashes. */
  ghost function IndexOf(es: seq<FileEntry>, fh: FileHashes): Index
    requires DistinctPaths(es)
  {
    PathsDetermine(es);
    map e | e in es && FilledFile(fh, e) :: e.rel := PrevFile(e.mtime, e.size, fh[e.rel])
  }

  lemma IndexOfHas(es: seq<FileEntry>, fh: FileHashes, p: Str)
    requires DistinctPaths(es) && p in IndexOf(es, fh)
    ensures exists e :: e in es && FilledFile(fh, e) && e.rel == p
  {
  }

  lemma GenuineOfBackup(f: Format, es: seq<FileEntry>, fh: FileHashes, objects: Objects, index: Index)
    requires InStore(f, es, fh, objects) && Dated(es) && Genuine(FetchFrom(f, objects), Root(f, es, fh), index)
    ensures forall p :: p in index ==> p in IndexOf(es, fh) && index[p] == IndexOf(es, fh)[p]
  {
    forall p | p in index
      ensures p in IndexOf(es, fh) && index[p] == IndexOf(es, fh)[p]
    {
      var edges, n :| FileAt(FetchFrom(f, objects), Root(f, es, fh), edges, n, p) && IsDated(n)
        && InfoOf(n) == index[p];
      ChainLeads(f, es, fh, objects, edges);
      DirTree(f, es, fh, objects, PathTo(edges));
      var c := NodeInDir(f, es, fh, PathTo(edges), n);
      assert HasTime(c);
      assert c in es && FilledFile(fh, c) && c.rel == p && PrevFile(c.mtime, c.size, fh[c.rel]) == index[p];
    }
  }

  /** Indexing a stored backup gives just its files with content, however the trees are shared. */
  lemma IndexOfBackup(f: Format, es: seq<FileEntry>, fh: FileHashes, objects: Objects, depth: nat)
    requires InStore(f, es, fh, objects) && Dated(es) && depth > Longest(es) + 1
    ensures Walk(FetchFrom(f, objects), Root(f, es, fh), [], depth, map[]) == Ok(IndexOf(es, fh))
  {
    var fetch, root := FetchFrom(f, objects), Root(f, es, fh);
    TopOccupied(es, es[0]);
    WalkIndexes(f, es, fh, objects, [], depth, depth - 1, map[]);
    assert WalkCovers(f, es, fh, objects, [], depth, map[]);
    EmptyPath();
    WalkGenuine(fetch, root, [], depth, map[]);
    FullIndex(f, es, fh, objects, Walk(fetch, root, [], depth, map[]).value);
  }

  lemma FullIndex(f: Format, es: seq<FileEntry>, fh: FileHashes, objects: Objects, index: Index)
    requires InStore(f, es, fh, objects) && Dated(es) && Genuine(FetchFrom(f, objects), Root(f, es, fh), index)
    requires Indexed(es, fh, [], index)
    ensures index == IndexOf(es, fh)
  {
    GenuineOfBackup(f, es, fh, objects, index);
    IndexedAll(es, fh, index);
    SameMap(index, IndexOf(es, fh));
  }

  lemma IndexedAll(es: seq<FileEntry>, fh: FileHashes, index: Index)
    requires WellFormed(es) && Indexed(es, fh, [], index)
    ensures forall p :: p in IndexOf(es, fh) ==> p in index
  {
    forall p | p in IndexOf(es, fh)
      ensures p in index
    {
      IndexOfHas(es, fh, p);
      AllUnderTop(p);
    }
  }

  // ----- The walk as it runs

  class Indexer {
    var index: Index

    constructor ()
      ensures index == map[]
    {
      index := map[];
    }

    method Visit(fetch: Fetch, hash: Str, prefix: Str, depth: nat) returns (fault: Option<Fault>)
      modifies this
      ensures match Walk(fetch, hash, prefix, depth, old(index))
              case Ok(full) => fault == None && index == full
              case Err(e) => fault == Some(e)
      decreases depth
    {
      if depth == 0 {
        return Some(TooDeep);
      }
      var response := fetch(hash);
      if response.Err? {
        return if response.error == NoLocation then None else Some(response.error);
      }
      var nodes := NodesIn(response.value);
      var i := 0;
      ghost var whole := WalkNodes(fetch, nodes, prefix, depth - 1, index);
      assert nodes[0..] == nodes;
      while i < |nodes|
        invariant i <= |nodes|
        invariant WalkNodes(fetch, nodes[i..], prefix, depth - 1, index) == whole
      {
        var node := nodes[i];
        assert nodes[i..][1..] == nodes[i + 1..];
        var rel := Join(prefix, node.name);
        if node.typ == FILE && node.content.Some? && node.mtime != [] && node.size.Some? {
          index := index[rel := PrevFile(node.mtime, node.size.value, node.content.value)];
        } else if node.typ == DIR && node.subtree != [] {
          var inner := Visit(fetch, node.subtree, rel, depth - 1);
          if inner.Some? {
            return inner;
          }
        }
        i := i + 1;
      }
      return None;
    }
  }
}
