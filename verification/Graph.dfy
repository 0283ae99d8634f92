/**
  Tree blobs as a graph of hashes, and the depth-first search that gathers it.  The graph may be
  any: shared subtrees, missing blobs and cycles included.
 */
module Graph {
  import opened Base
  import opened Codec
  import opened Paths
  import opened Trees

  /** What a server makes of the request for a tree. */
  type Fetch = Str -> Result<TreeBlob, Fault>

  /** Only finitely many hashes can be fetched. */
  ghost predicate Finite(fetch: Fetch, known: set<Str>) {
    forall h {:trigger fetch(h)} :: fetch(h).Ok? ==> h in known
  }

  function NodesIn(blob: TreeBlob): seq<TreeNode> {
    if blob.nodes.None? then [] else blob.nodes.value
  }

  predicate IsDir(n: TreeNode) {
    n.typ == DIR && n.subtree != []
  }

  predicate IsFile(n: TreeNode) {
    n.typ == FILE && n.content.Some?
  }

  // ----- Chains of subtrees

  datatype Edge = Edge(name: Str, hash: Str)

  ghost predicate Linked(fetch: Fetch, h: Str, e: Edge) {
    fetch(h).Ok? && exists n :: n in NodesIn(fetch(h).value) && IsDir(n) && n.name == e.name && n.subtree == e.hash
  }

  function End(root: Str, edges: seq<Edge>): Str {
    if edges == [] then root else edges[|edges| - 1].hash
  }

  function Names(edges: seq<Edge>): seq<Str> {
    Map((e: Edge) => e.name, edges)
  }

  /** The path along a chain. */
  function PathTo(edges: seq<Edge>): Str {
    PathOf(Names(edges))
  }

  /** Each edge leads from a tree that can be fetched to one of its subtrees. */
  ghost predicate IsChain(fetch: Fetch, root: Str, edges: seq<Edge>)
    decreases |edges|
  {
    edges == [] ||
    (IsChain(fetch, root, edges[..|edges| - 1]) && Linked(fetch, End(root, edges[..|edges| - 1]), edges[|edges| - 1]))
  }

  lemma ExtendChain(fetch: Fetch, root: Str, edges: seq<Edge>, e: Edge)
    requires IsChain(fetch, root, edges) && Linked(fetch, End(root, edges), e)
    ensures IsChain(fetch, root, edges + [e])
    ensures End(root, edges + [e]) == e.hash
    ensures Names(edges + [e]) == Names(edges) + [e.name]
    ensures PathTo(edges + [e]) == Join(PathTo(edges), e.name)
  {
    assert (edges + [e])[..|edges|] == edges;
    var ns := Names(edges) + [e.name];
    assert Names(edges + [e]) == ns;
    assert ns[..|ns| - 1] == Names(edges);
  }

  // ----- The search

  datatype Collected = Collected(trees: map<Str, TreeBlob>, files: map<Str, seq<Str>>, meta: map<Str, TreeNode>)

  const NOTHING := Collected(map[], map[], map[])

  /** What has been collected, and why the search stopped if it did. */
  datatype Outcome = Outcome(fault: Option<Fault>, col: Collected)

  /** Collects a tree and everything below it, unless it has been collected already. */
  ghost function Resolve(fetch: Fetch, known: set<Str>, hash: Str, base: Str, col: Collected): (r: Outcome)
    requires Finite(fetch, known)
    ensures col.trees.Keys <= r.col.trees.Keys
    decreases known - col.trees.Keys, 0
  {
    if hash in col.trees then Outcome(None, col)
    else
      match fetch(hash)
      case Err(e) => Outcome(Some(e), col)
      case Ok(blob) =>
        var trees := col.trees[hash := blob];
        assert hash in known - col.trees.Keys && hash !in known - trees.Keys;
        ResolveNodes(fetch, known, NodesIn(blob), base, col.(trees := trees))
  }

  ghost function ResolveNodes(fetch: Fetch, known: set<Str>, ns: seq<TreeNode>, base: Str, col: Collected): (r: Outcome)
    requires Finite(fetch, known)
    ensures col.trees.Keys <= r.col.trees.Keys
    decreases known - col.trees.Keys, |ns| + 2
  {
    if ns == [] then Outcome(None, col)
    else
      var r := ResolveNode(fetch, known, ns[0], base, col);
      if r.fault.Some? then r else ResolveNodes(fetch, known, ns[1..], base, r.col)
  }

  /** One node of a tree: a directory is searched, the content of a file is noted. */
  ghost function ResolveNode(fetch: Fetch, known: set<Str>, n: TreeNode, base: Str, col: Collected): (r: Outcome)
    requires Finite(fetch, known)
    ensures col.trees.Keys <= r.col.trees.Keys
    decreases known - col.trees.Keys, 1
  {
    match JoinTreePath(base, n.name)
    case Err(e) => Outcome(Some(e), col)
    case Ok(rel) =>
      var col1 := col.(meta := col.meta[rel := n]);
      if IsDir(n) then Resolve(fetch, known, n.subtree, rel, col1)
      else if IsFile(n) then Outcome(None, col1.(files := col1.files[rel := n.content.value]))
      else Outcome(None, col1)
  }

  // ----- What is collected, and where

  /** For each tree that was collected, the chain along which it was met. */
  type Visits = map<Str, seq<Edge>>

  ghost predicate GoodChain(fetch: Fetch, root: Str, edges: seq<Edge>) {
    IsChain(fetch, root, edges) && GoodNames(Names(edges))
  }

  /** n is a file node of a collected tree, and p its path. */
  ghost predicate Stems(fetch: Fetch, at: Visits, p: Str, h: Str, n: TreeNode) {
    h in at && fetch(h).Ok? && n in NodesIn(fetch(h).value) && IsFile(n) && GoodName(n.name) &&
    p == Join(PathTo(at[h]), n.name)
  }

  ghost predicate Inv(fetch: Fetch, root: Str, col: Collected, at: Visits) {
    && at.Keys == col.trees.Keys
    && (forall h :: h in at ==> GoodChain(fetch, root, at[h]) && End(root, at[h]) == h && fetch(h) == Ok(col.trees[h]))
    && (forall p :: p in col.files ==> exists h, n :: Stems(fetch, at, p, h, n) && n.content.value == col.files[p])
  }

  /** What the search leaves behind for a node of a tree it met at a path. */
  ghost predicate NodeDone(at: Visits, col: Collected, base: Str, n: TreeNode) {
    GoodName(n.name) && (IsDir(n) ==> n.subtree in at) && (IsFile(n) ==> Join(base, n.name) in col.files)
  }

  ghost predicate TreeDone(fetch: Fetch, at: Visits, col: Collected, h: Str) {
    h in at && fetch(h).Ok? && forall n :: n in NodesIn(fetch(h).value) ==> NodeDone(at, col, PathTo(at[h]), n)
  }

  ghost predicate Progressed(fetch: Fetch, col: Collected, at: Visits, col': Collected, at': Visits) {
    && (forall h :: h in at ==> h in at' && at'[h] == at[h])
    && (forall p :: p in col.files ==> p in col'.files)
    && (forall h :: h in at' && h !in at ==> TreeDone(fetch, at', col', h))
  }

  lemma ProgressTransitive(fetch: Fetch, col: Collected, at: Visits, col1: Collected, at1: Visits, col2: Collected,
                           at2: Visits)
    requires Progressed(fetch, col, at, col1, at1) && Progressed(fetch, col1, at1, col2, at2)
    ensures Progressed(fetch, col, at, col2, at2)
  {
    forall h | h in at2 && h !in at
      ensures TreeDone(fetch, at2, col2, h)
    {
      if h in at1 {
        assert TreeDone(fetch, at1, col1, h);
        forall n | n in NodesIn(fetch(h).value)
          ensures NodeDone(at2, col2, PathTo(at2[h]), n)
        {
          assert NodeDone(at1, col1, PathTo(at1[h]), n);
        }
      }
    }
  }

  lemma AddFile(fetch: Fetch, root: Str, col: Collected, at: Visits, h: Str, n: TreeNode)
    requires Inv(fetch, root, col, at) && h in at && n in NodesIn(fetch(h).value) && IsFile(n) && GoodName(n.name)
    ensures var p := Join(PathTo(at[h]), n.name);
            Inv(fetch, root, col.(files := col.files[p := n.content.value], meta := col.meta[p := n]), at)
  {
    var p := Join(PathTo(at[h]), n.name);
    var files := col.files[p := n.content.value];
    forall q | q in files
      ensures exists h', n' :: Stems(fetch, at, q, h', n') && n'.content.value == files[q]
    {
      if q == p {
        assert Stems(fetch, at, q, h, n);
      }
    }
  }

  /** Meeting a tree for the first time. */
  lemma AddTree(fetch: Fetch, root: Str, col: Collected, at: Visits, hash: Str, edges: seq<Edge>)
    requires Inv(fetch, root, col, at) && hash !in at && fetch(hash).Ok?
    requires GoodChain(fetch, root, edges) && End(root, edges) == hash
    ensures Inv(fetch, root, col.(trees := col.trees[hash := fetch(hash).value]), at[hash := edges])
  {
    var at' := at[hash := edges];
    forall p | p in col.files
      ensures exists h, n :: Stems(fetch, at', p, h, n) && n.content.value == col.files[p]
    {
      var h, n :| Stems(fetch, at, p, h, n) && n.content.value == col.files[p];
      StemsRemain(fetch, at, hash, edges, p, h, n);
    }
  }

  lemma StemsRemain(fetch: Fetch, at: Visits, hash: Str, edges: seq<Edge>, p: Str, h: Str, n: TreeNode)
    requires Stems(fetch, at, p, h, n) && hash !in at
    ensures Stems(fetch, at[hash := edges], p, h, n)
  {
  }

  /** With all its nodes done, a tree that was met has been added to what was done before. */
  lemma TreeIsDone(fetch: Fetch, col: Collected, at: Visits, hash: Str, edges: seq<Edge>, col1: Collected,
                   col': Collected, at': Visits)
    requires fetch(hash).Ok? && hash !in at && col1.files == col.files
    requires Progressed(fetch, col1, at[hash := edges], col', at')
    requires forall n :: n in NodesIn(fetch(hash).value) ==> NodeDone(at', col', PathTo(edges), n)
    ensures Progressed(fetch, col, at, col', at')
  {
    assert hash in at[hash := edges];
    assert TreeDone(fetch, at', col', hash);
  }

  lemma {:induction false} ResolveCollects(fetch: Fetch, known: set<Str>, root: Str, edges: seq<Edge>, col: Collected,
                                           at: Visits)
    returns (at': Visits)
    requires Finite(fetch, known) && Inv(fetch, root, col, at) && GoodChain(fetch, root, edges)
    requires Resolve(fetch, known, End(root, edges), PathTo(edges), col).fault.None?
    ensures var col' := Resolve(fetch, known, End(root, edges), PathTo(edges), col).col;
            Inv(fetch, root, col', at') && Progressed(fetch, col, at, col', at') && End(root, edges) in at'
    decreases known - col.trees.Keys, 0
  {
    var hash := End(root, edges);
    if hash in col.trees {
      at' := at;
    } else {
      var blob := fetch(hash).value;
      var col1 := col.(trees := col.trees[hash := blob]);
      var at1 := at[hash := edges];
      AddTree(fetch, root, col, at, hash, edges);
      at' := ResolveNodesCollects(fetch, known, root, hash, NodesIn(blob), col1, at1);
      var col' := Resolve(fetch, known, hash, PathTo(edges), col).col;
      TreeIsDone(fetch, col, at, hash, edges, col1, col', at');
    }
  }

  lemma {:induction false} ResolveNodesCollects(fetch: Fetch, known: set<Str>, root: Str, h: Str, ns: seq<TreeNode>,
                                                col: Collected, at: Visits) returns (at': Visits)
    requires Finite(fetch, known) && Inv(fetch, root, col, at) && h in at
    requires forall n :: n in ns ==> n in NodesIn(fetch(h).value)
    requires ResolveNodes(fetch, known, ns, PathTo(at[h]), col).fault.None?
    ensures var col' := ResolveNodes(fetch, known, ns, PathTo(at[h]), col).col;
            && Inv(fetch, root, col', at') && Progressed(fetch, col, at, col', at')
            && (forall n :: n in ns ==> NodeDone(at', col', PathTo(at[h]), n))
    decreases known - col.trees.Keys, |ns| + 2
  {
    if ns == [] {
      at' := at;
    } else {
      var base := PathTo(at[h]);
      var r := ResolveNode(fetch, known, ns[0], base, col);
      var at1 := ResolveNodeCollects(fetch, known, root, h, ns[0], col, at);
      at' := ResolveNodesCollects(fetch, known, root, h, ns[1..], r.col, at1);
      var col' := ResolveNodes(fetch, known, ns, base, col).col;
      ProgressTransitive(fetch, col, at, r.col, at1, col', at');
    }
  }

  lemma {:induction false} ResolveNodeCollects(fetch: Fetch, known: set<Str>, root: Str, h: Str, n: TreeNode,
                                               col: Collected, at: Visits) returns (at': Visits)
    requires Finite(fetch, known) && Inv(fetch, root, col, at) && h in at
    requires n in NodesIn(fetch(h).value)
    requires ResolveNode(fetch, known, n, PathTo(at[h]), col).fault.None?
    ensures var col' := ResolveNode(fetch, known, n, PathTo(at[h]), col).col;
            Inv(fetch, root, col', at') && Progressed(fetch, col, at, col', at')
              && NodeDone(at', col', PathTo(at[h]), n)
    decreases known - col.trees.Keys, 1
  {
    at' := at;
    if IsDir(n) {
      var col1 := col.(meta := col.meta[Join(PathTo(at[h]), n.name) := n]);
      var e := Edge(n.name, n.subtree);
      assert Linked(fetch, h, e);
      ExtendChain(fetch, root, at[h], e);
      at' := ResolveCollects(fetch, known, root, at[h] + [e], col1, at);
    } else if IsFile(n) {
      AddFile(fetch, root, col, at, h, n);
    }
  }
}
