/**
  The last pass of a restore: once more through the trees that were found, along every path, to make
  directories.  It remembers no tree that it has been through.
 */
module Metadata {
  import opened Base
  import opened Codec
  import opened Paths
  import opened Trees
  import opened Graph
  import opened Search
  import opened Descent
  import opened Disks

  /** Fetching from what has been found. */
  function Found(trees: map<Str, TreeBlob>): Fetch {
    (h: Str) => if h in trees then Ok(trees[h]) else Err(NoLocation)
  }

  ghost predicate NamesGood(trees: map<Str, TreeBlob>) {
    forall h, n :: h in trees && n in NodesIn(trees[h]) ==> GoodName(n.name)
  }

  // ----- The directories of the trees

  /** A directory node at the end of a chain, and the path they make. */
  ghost predicate DirAt(fetch: Fetch, root: Str, edges: seq<Edge>, n: TreeNode, p: Str) {
    && IsChain(fetch, root, edges) && fetch(End(root, edges)).Ok? && n in NodesIn(fetch(End(root, edges)).value)
    && n.typ == DIR && p == Join(PathTo(edges), n.name)
  }

  /** q is the place of such a directory, or on the way to it. */
  ghost predicate LeadsToDir(fetch: Fetch, root: Str, targetDir: Str, q: Path) {
    exists edges, n, p :: DirAt(fetch, root, edges, n, p) &&
                          (q == TargetOf(targetDir, p) || Above(q, TargetOf(targetDir, p)))
  }

  /** Nothing else has been made. */
  ghost predicate OnlyDirs(fetch: Fetch, root: Str, targetDir: Str, before: set<Path>, after: set<Path>) {
    before <= after && forall q :: q in after && q !in before ==> LeadsToDir(fetch, root, targetDir, q)
  }

  /** All directories at and below a tree have been made where no file is in their way. */
  ghost predicate AllMade(fetch: Fetch, targetDir: Str, d: Disk, hash: Str, base: Str, depth: nat)
    decreases depth, 0
  {
    depth > 0 && (fetch(hash).Ok? ==> NodesMade(fetch, targetDir, d, NodesIn(fetch(hash).value), base, depth - 1))
  }

  ghost predicate NodesMade(fetch: Fetch, targetDir: Str, d: Disk, ns: seq<TreeNode>, base: Str, depth: nat)
    decreases depth, 2
  {
    forall n {:trigger NodeMade(fetch, targetDir, d, n, base, depth)} :: n in ns ==>
      NodeMade(fetch, targetDir, d, n, base, depth)
  }

  ghost predicate NodeMade(fetch: Fetch, targetDir: Str, d: Disk, n: TreeNode, base: Str, depth: nat)
    decreases depth, 1
  {
    && (n.typ == DIR ==> DirMade(d, TargetOf(targetDir, Join(base, n.name))))
    && (IsDir(n) ==> AllMade(fetch, targetDir, d, n.subtree, Join(base, n.name), depth))
  }

  lemma {:induction false} MadeStays(fetch: Fetch, targetDir: Str, d: Disk, d': Disk, hash: Str, base: Str, depth: nat)
    requires AllMade(fetch, targetDir, d, hash, base, depth) && d'.files == d.files && d.dirs <= d'.dirs
    ensures AllMade(fetch, targetDir, d', hash, base, depth)
    decreases depth, 0
  {
    if fetch(hash).Ok? {
      NodesStay(fetch, targetDir, d, d', NodesIn(fetch(hash).value), base, depth - 1);
    }
  }

  lemma {:induction false} NodesStay(fetch: Fetch, targetDir: Str, d: Disk, d': Disk, ns: seq<TreeNode>, base: Str,
                                     depth: nat)
    requires NodesMade(fetch, targetDir, d, ns, base, depth) && d'.files == d.files && d.dirs <= d'.dirs
    ensures NodesMade(fetch, targetDir, d', ns, base, depth)
    decreases depth, 1
  {
    forall n | n in ns
      ensures NodeMade(fetch, targetDir, d', n, base, depth)
    {
      assert NodeMade(fetch, targetDir, d, n, base, depth);
      if IsDir(n) {
        MadeStays(fetch, targetDir, d, d', n.subtree, Join(base, n.name), depth);
      }
    }
  }

  /** What has been made below a tree, seen from one of its subtrees. */
  lemma LinkMade(fetch: Fetch, targetDir: Str, d: Disk, hash: Str, base: Str, depth: nat, e: Edge)
    requires AllMade(fetch, targetDir, d, hash, base, depth) && Linked(fetch, hash, e)
    ensures depth > 0 && AllMade(fetch, targetDir, d, e.hash, Join(base, e.name), depth - 1)
  {
    var n :| n in NodesIn(fetch(hash).value) && IsDir(n) && n.name == e.name && n.subtree == e.hash;
    assert NodeMade(fetch, targetDir, d, n, base, depth - 1);
  }

  /** And from the end of any chain. */
  lemma {:induction false} ChainMade(fetch: Fetch, targetDir: Str, d: Disk, hash: Str, base: Str, depth: nat,
                                     edges: seq<Edge>)
    returns (left: nat)
    requires AllMade(fetch, targetDir, d, hash, base, depth) && IsChain(fetch, hash, edges)
    ensures AllMade(fetch, targetDir, d, End(hash, edges), PathFrom(base, edges), left)
    decreases |edges|
  {
    left := depth;
    if edges != [] {
      var e, rest := edges[0], edges[1..];
      assert edges == [e] + rest;
      ChainFirst(fetch, hash, e, rest);
      LinkMade(fetch, targetDir, d, hash, base, depth, e);
      left := ChainMade(fetch, targetDir, d, e.hash, Join(base, e.name), depth - 1, rest);
    }
  }

  /** The path from base along some edges. */
  function PathFrom(base: Str, edges: seq<Edge>): Str
    decreases |edges|
  {
    if edges == [] then base else PathFrom(Join(base, edges[0].name), edges[1..])
  }

  lemma {:induction false} PathFromSnoc(base: Str, edges: seq<Edge>, e: Edge)
    ensures PathFrom(base, edges + [e]) == Join(PathFrom(base, edges), e.name)
    decreases |edges|
  {
    if edges == [] {
      assert [e][1..] == [];
      assert edges + [e] == [e];
      assert PathFrom(base, [e]) == PathFrom(Join(base, e.name), []);
    } else {
      assert (edges + [e])[1..] == edges[1..] + [e] && (edges + [e])[0] == edges[0];
      PathFromSnoc(Join(base, edges[0].name), edges[1..], e);
    }
  }

  lemma {:induction false} PathFromTop(edges: seq<Edge>)
    ensures PathFrom([], edges) == PathTo(edges)
    decreases |edges|
  {
    if edges != [] {
      var init, e := edges[..|edges| - 1], edges[|edges| - 1];
      SplitLast(edges);
      PathFromTop(init);
      PathFromSnoc([], init, e);
      assert Names(edges)[..|edges| - 1] == Names(init);
    }
  }

  lemma DirIsMade(fetch: Fetch, targetDir: Str, d: Disk, root: Str, depth: nat, edges: seq<Edge>, n: TreeNode, p: Str)
    requires AllMade(fetch, targetDir, d, root, [], depth) && DirAt(fetch, root, edges, n, p)
    ensures DirMade(d, TargetOf(targetDir, p))
  {
    var left := ChainMade(fetch, targetDir, d, root, [], depth, edges);
    PathFromTop(edges);
    assert NodeMade(fetch, targetDir, d, n, PathTo(edges), left - 1);
  }

  // ----- What has been found is what can be fetched

  /** The trees are the reachable ones, as they were fetched. */
  ghost predicate AreReachable(fetch: Fetch, root: Str, trees: map<Str, TreeBlob>) {
    && (forall h {:trigger Reachable(fetch, root, h)} :: h in trees <==> Reachable(fetch, root, h))
    && (forall h :: h in trees ==> fetch(h) == Ok(trees[h]))
  }

  lemma {:induction false} ChainInFound(fetch: Fetch, root: Str, trees: map<Str, TreeBlob>, edges: seq<Edge>)
    requires AreReachable(fetch, root, trees)
    ensures IsChain(Found(trees), root, edges) <==> IsChain(fetch, root, edges)
    ensures IsChain(fetch, root, edges) ==> Found(trees)(End(root, edges)) == fetch(End(root, edges))
    decreases |edges|
  {
    if edges != [] {
      ChainInFound(fetch, root, trees, edges[..|edges| - 1]);
    }
    if IsChain(fetch, root, edges) {
      assert Reachable(fetch, root, End(root, edges));
    }
  }

  /** So the pass, which goes by what was found, sees all that can be reached, and nothing else. */
  lemma FoundIsReachable(fetch: Fetch, root: Str, trees: map<Str, TreeBlob>)
    requires AreReachable(fetch, root, trees)
    ensures forall edges, n, p :: DirAt(Found(trees), root, edges, n, p) <==> DirAt(fetch, root, edges, n, p)
    ensures forall depth :: AllShorter(Found(trees), root, depth) <==> AllShorter(fetch, root, depth)
  {
    forall edges, n, p
      ensures DirAt(Found(trees), root, edges, n, p) <==> DirAt(fetch, root, edges, n, p)
    {
      ChainInFound(fetch, root, trees, edges);
    }
    forall depth
      ensures AllShorter(Found(trees), root, depth) <==> AllShorter(fetch, root, depth)
    {
      forall edges
        ensures IsChain(Found(trees), root, edges) <==> IsChain(fetch, root, edges)
      {
        ChainInFound(fetch, root, trees, edges);
      }
    }
  }

  lemma FitsTheSame(fetch: Fetch, root: Str, trees: map<Str, TreeBlob>, depth: nat)
    requires AreReachable(fetch, root, trees)
    ensures Fits(Found(trees), root, depth) <==> Fits(fetch, root, depth)
  {
    FoundIsReachable(fetch, root, trees);
    FitsExactly(Found(trees), root, depth);
    FitsExactly(fetch, root, depth);
  }

  lemma LeadsTheSame(fetch: Fetch, root: Str, trees: map<Str, TreeBlob>, targetDir: Str, before: set<Path>,
                     after: set<Path>)
    requires AreReachable(fetch, root, trees) && OnlyDirs(Found(trees), root, targetDir, before, after)
    ensures OnlyDirs(fetch, root, targetDir, before, after)
  {
    FoundIsReachable(fetch, root, trees);
  }

  /** A search that has succeeded has found all that can be reached, with good names all over. */
  lemma SearchedIsReachable(fetch: Fetch, known: set<Str>, root: Str)
    requires Finite(fetch, known) && SearchFrom(fetch, known, root).fault.None?
    ensures AreReachable(fetch, root, SearchFrom(fetch, known, root).col.trees)
    ensures NamesGood(SearchFrom(fetch, known, root).col.trees)
  {
    var trees := SearchFrom(fetch, known, root).col.trees;
    SearchFindsTrees(fetch, known, root);
    SearchSucceeds(fetch, known, root);
    forall h, n | h in trees && n in NodesIn(trees[h])
      ensures GoodName(n.name)
    {
      assert Reachable(fetch, root, h);
      var edges :| IsChain(fetch, root, edges) && End(root, edges) == h;
      assert !Broken(fetch, root, edges);
    }
  }

  // ----- The pass

  /** Where the pass is: at the end of a chain. */
  ghost predicate IsAt(trees: map<Str, TreeBlob>, root: Str, edges: seq<Edge>, hash: Str, base: Str) {
    IsChain(Found(trees), root, edges) && hash == End(root, edges) && base == PathTo(edges)
  }

  lemma {:induction false} ChainNamesGood(trees: map<Str, TreeBlob>, root: Str, edges: seq<Edge>)
    requires NamesGood(trees) && IsChain(Found(trees), root, edges)
    ensures GoodNames(Names(edges))
    decreases |edges|
  {
    if edges != [] {
      var init, e := edges[..|edges| - 1], edges[|edges| - 1];
      ChainNamesGood(trees, root, init);
      assert GoodName(e.name);
      assert forall i :: 0 <= i < |init| ==> Names(edges)[i] == Names(init)[i];
    }
  }

  lemma NodeIsAt(trees: map<Str, TreeBlob>, root: Str, edges: seq<Edge>, hash: Str, base: Str, n: TreeNode)
    requires IsAt(trees, root, edges, hash, base) && hash in trees && n in NodesIn(trees[hash])
    ensures n.typ == DIR ==> DirAt(Found(trees), root, edges, n, Join(base, n.name))
    ensures IsDir(n) ==> IsAt(trees, root, edges + [Edge(n.name, n.subtree)], n.subtree, Join(base, n.name))
  {
    var e := Edge(n.name, n.subtree);
    if IsDir(n) {
      assert Linked(Found(trees), hash, e);
      ExtendChain(Found(trees), root, edges, e);
    }
  }

  /** Good names are never refused. */
  lemma NodeIsPlaced(trees: map<Str, TreeBlob>, root: Str, edges: seq<Edge>, hash: Str, base: Str, n: TreeNode,
                     targetDir: Str)
    requires NamesGood(trees) && IsAt(trees, root, edges, hash, base) && hash in trees && n in NodesIn(trees[hash])
    ensures JoinTreePath(base, n.name) == Ok(Join(base, n.name))
    ensures SafeJoinTarget(targetDir, Join(base, n.name)).Ok?
  {
    ChainNamesGood(trees, root, edges);
    OneNameMore(Names(edges), n.name);
    TargetsDiffer(targetDir, Join(base, n.name), Join(base, n.name));
  }

  lemma DirsLead(fetch: Fetch, root: Str, edges: seq<Edge>, n: TreeNode, p: Str, targetDir: Str, before: set<Path>,
                 now: set<Path>, after: set<Path>)
    requires OnlyDirs(fetch, root, targetDir, before, now) && DirAt(fetch, root, edges, n, p)
    requires now <= after <= now + Ancestors(TargetOf(targetDir, p)) + {TargetOf(targetDir, p)}
    ensures OnlyDirs(fetch, root, targetDir, before, after)
  {
    AboveAll(TargetOf(targetDir, p));
  }

  /**
    Goes through a tree and everything below it.  With good names all over it ends well exactly if the stack is deep
    enough; it makes directories only, and on a reliable disk all of them where no file is in the way.
   */
  method RestoreMeta(trees: map<Str, TreeBlob>, targetDir: Str, hash: Str, base: Str, depth: nat, fs: FileSystem,
                     ghost root: Str, ghost edges: seq<Edge>)
    returns (fault: Option<Fault>)
    requires IsAt(trees, root, edges, hash, base) && IsDisk(fs.Now())
    modifies fs`dirs
    ensures IsDisk(fs.Now()) && OnlyDirs(Found(trees), root, targetDir, old(fs.dirs), fs.dirs)
    ensures fault.None? ==> Fits(Found(trees), hash, depth)
    ensures NamesGood(trees) && Fits(Found(trees), hash, depth) ==> fault.None?
    ensures fs.reliable && fault.None? ==> AllMade(Found(trees), targetDir, fs.Now(), hash, base, depth)
    decreases depth, 1
  {
    if depth == 0 {
      return Some(TooDeep);
    }
    if hash !in trees {
      return None;
    }
    var nodes := NodesIn(trees[hash]);
    for i := 0 to |nodes|
      invariant IsDisk(fs.Now()) && OnlyDirs(Found(trees), root, targetDir, old(fs.dirs), fs.dirs)
      invariant AllFit(Found(trees), nodes[..i], depth - 1)
      invariant fs.reliable ==> NodesMade(Found(trees), targetDir, fs.Now(), nodes[..i], base, depth - 1)
    {
      fault := RestoreNode(trees, targetDir, nodes, i, hash, base, depth - 1, fs, root, edges, old(fs.dirs));
      if fault.Some? {
        return;
      }
    }
    assert nodes[..|nodes|] == nodes;
    fault := None;
  }

  /** One node: a directory is made, and what is below it dealt with. */
  method RestoreNode(trees: map<Str, TreeBlob>, targetDir: Str, nodes: seq<TreeNode>, i: nat, hash: Str, base: Str,
                     depth: nat, fs: FileSystem, ghost root: Str, ghost edges: seq<Edge>, ghost before: set<Path>)
    returns (fault: Option<Fault>)
    requires IsAt(trees, root, edges, hash, base) && IsDisk(fs.Now())
    requires hash in trees && nodes == NodesIn(trees[hash]) && i < |nodes|
    requires OnlyDirs(Found(trees), root, targetDir, before, fs.dirs) && AllFit(Found(trees), nodes[..i], depth)
    requires fs.reliable ==> NodesMade(Found(trees), targetDir, fs.Now(), nodes[..i], base, depth)
    modifies fs`dirs
    ensures IsDisk(fs.Now()) && OnlyDirs(Found(trees), root, targetDir, before, fs.dirs)
    ensures fault.None? ==> AllFit(Found(trees), nodes[..i + 1], depth)
    ensures NamesGood(trees) && AllFit(Found(trees), nodes, depth) ==> fault.None?
    ensures fs.reliable && fault.None? ==>
      NodesMade(Found(trees), targetDir, fs.Now(), nodes[..i + 1], base, depth)
    decreases depth, 2
  {
    var node := nodes[i];
    ghost var d := fs.Now();
    assert node in nodes && nodes[..i + 1] == nodes[..i] + [node];
    NodeIsAt(trees, root, edges, hash, base, node);
    if NamesGood(trees) {
      NodeIsPlaced(trees, root, edges, hash, base, node, targetDir);
    }
    var joined := JoinTreePath(base, node.name);
    if joined.Err? {
      return Some(joined.error);
    }
    var rel := joined.value;
    var target := SafeJoinTarget(targetDir, rel);
    if target.Err? {
      return Some(target.error);
    }
    fault := None;
    if node.typ == DIR {
      fs.MakeDirs(target.value);
      DirsLead(Found(trees), root, edges, node, rel, targetDir, before, d.dirs, fs.dirs);
      if node.subtree != [] {
        ghost var e := Edge(node.name, node.subtree);
        fault := RestoreMeta(trees, targetDir, node.subtree, rel, depth, fs, root, edges + [e]);
      }
    }
    if fs.reliable && fault.None? {
      NodesStay(Found(trees), targetDir, d, fs.Now(), nodes[..i], base, depth);
    }
  }
}
