/** What the search through a tree graph finds, exactly. */
module Search {
  import opened Base
  import opened Codec
  import opened Paths
  import opened Trees
  import opened Graph

  /** The search that a restore starts with. */
  ghost function SearchFrom(fetch: Fetch, known: set<Str>, root: Str): Outcome
    requires Finite(fetch, known)
  {
    Resolve(fetch, known, root, [], NOTHING)
  }

  /** A chain along which something is wrong: its end cannot be fetched, or holds a name that cannot be. */
  ghost predicate Broken(fetch: Fetch, root: Str, edges: seq<Edge>) {
    IsChain(fetch, root, edges) &&
    (fetch(End(root, edges)).Err? || exists n :: n in NodesIn(fetch(End(root, edges)).value) && !GoodName(n.name))
  }

  // ----- When it fails

  lemma {:induction false} ResolveFails(fetch: Fetch, known: set<Str>, root: Str, edges: seq<Edge>, base: Str,
                                        col: Collected)
    requires Finite(fetch, known) && IsChain(fetch, root, edges)
    requires Resolve(fetch, known, End(root, edges), base, col).fault.Some?
    ensures exists es :: Broken(fetch, root, es)
    decreases known - col.trees.Keys, 0
  {
    var hash := End(root, edges);
    if fetch(hash).Err? {
      assert Broken(fetch, root, edges);
    } else {
      var trees := col.trees[hash := fetch(hash).value];
      assert hash in known - col.trees.Keys && hash !in known - trees.Keys;
      ResolveNodesFails(fetch, known, root, edges, NodesIn(fetch(hash).value), base, col.(trees := trees));
    }
  }

  lemma {:induction false} ResolveNodesFails(fetch: Fetch, known: set<Str>, root: Str, edges: seq<Edge>,
                                             ns: seq<TreeNode>, base: Str, col: Collected)
    requires Finite(fetch, known) && IsChain(fetch, root, edges) && fetch(End(root, edges)).Ok?
    requires forall n :: n in ns ==> n in NodesIn(fetch(End(root, edges)).value)
    requires ResolveNodes(fetch, known, ns, base, col).fault.Some?
    ensures exists es :: Broken(fetch, root, es)
    decreases known - col.trees.Keys, |ns| + 2
  {
    var r := ResolveNode(fetch, known, ns[0], base, col);
    if r.fault.None? {
      ResolveNodesFails(fetch, known, root, edges, ns[1..], base, r.col);
    } else {
      ResolveNodeFails(fetch, known, root, edges, ns[0], base, col);
    }
  }

  lemma {:induction false} ResolveNodeFails(fetch: Fetch, known: set<Str>, root: Str, edges: seq<Edge>, n: TreeNode,
                                            base: Str, col: Collected)
    requires Finite(fetch, known) && IsChain(fetch, root, edges) && fetch(End(root, edges)).Ok?
    requires n in NodesIn(fetch(End(root, edges)).value) && ResolveNode(fetch, known, n, base, col).fault.Some?
    ensures exists es :: Broken(fetch, root, es)
    decreases known - col.trees.Keys, 1
  {
    if !GoodName(n.name) {
      assert Broken(fetch, root, edges);
    } else {
      var e := Edge(n.name, n.subtree);
      var rel := Join(base, n.name);
      assert Linked(fetch, End(root, edges), e);
      ExtendChain(fetch, root, edges, e);
      ResolveFails(fetch, known, root, edges + [e], rel, col.(meta := col.meta[rel := n]));
    }
  }

  // ----- When it succeeds

  ghost predicate AllDone(fetch: Fetch, root: Str, at: Visits, col: Collected) {
    Inv(fetch, root, col, at) && root in at && forall h :: h in at ==> TreeDone(fetch, at, col, h)
  }

  lemma SearchCollects(fetch: Fetch, known: set<Str>, root: Str) returns (at: Visits)
    requires Finite(fetch, known) && SearchFrom(fetch, known, root).fault.None?
    ensures AllDone(fetch, root, at, SearchFrom(fetch, known, root).col)
  {
    assert Names([]) == [];
    at := ResolveCollects(fetch, known, root, [], NOTHING, map[]);
  }

  lemma LinkIsCollected(fetch: Fetch, root: Str, at: Visits, col: Collected, h: Str, e: Edge)
    requires AllDone(fetch, root, at, col) && h in at && Linked(fetch, h, e)
    ensures e.hash in at && GoodName(e.name)
  {
    assert TreeDone(fetch, at, col, h);
    var n :| n in NodesIn(fetch(h).value) && IsDir(n) && n.name == e.name && n.subtree == e.hash;
    assert NodeDone(at, col, PathTo(at[h]), n);
  }

  lemma {:induction false} ChainsAreCollected(fetch: Fetch, root: Str, at: Visits, col: Collected, edges: seq<Edge>)
    requires AllDone(fetch, root, at, col) && IsChain(fetch, root, edges)
    ensures End(root, edges) in at && GoodNames(Names(edges))
    decreases |edges|
  {
    if edges != [] {
      var init, e := edges[..|edges| - 1], edges[|edges| - 1];
      ChainsAreCollected(fetch, root, at, col, init);
      LinkIsCollected(fetch, root, at, col, End(root, init), e);
      SplitLast(edges);
      ExtendChain(fetch, root, init, e);
    }
  }

  /** The search succeeds exactly if every reachable tree can be fetched and holds good names only. */
  lemma SearchSucceeds(fetch: Fetch, known: set<Str>, root: Str)
    requires Finite(fetch, known)
    ensures SearchFrom(fetch, known, root).fault.None? <==> forall edges :: !Broken(fetch, root, edges)
  {
    if SearchFrom(fetch, known, root).fault.Some? {
      ResolveFails(fetch, known, root, [], [], NOTHING);
    } else {
      var at := SearchCollects(fetch, known, root);
      var col := SearchFrom(fetch, known, root).col;
      forall edges
        ensures !Broken(fetch, root, edges)
      {
        if IsChain(fetch, root, edges) {
          ChainsAreCollected(fetch, root, at, col, edges);
          var h := End(root, edges);
          assert TreeDone(fetch, at, col, h);
          forall n | n in NodesIn(fetch(h).value)
            ensures GoodName(n.name)
          {
            assert NodeDone(at, col, PathTo(at[h]), n);
          }
        }
      }
    }
  }

  ghost predicate Reachable(fetch: Fetch, root: Str, h: Str) {
    exists edges :: IsChain(fetch, root, edges) && End(root, edges) == h
  }

  /** The trees it gathers are just the reachable ones, each with its own content. */
  lemma SearchFindsTrees(fetch: Fetch, known: set<Str>, root: Str)
    requires Finite(fetch, known) && SearchFrom(fetch, known, root).fault.None?
    ensures var trees := SearchFrom(fetch, known, root).col.trees;
            && (forall h :: h in trees <==> Reachable(fetch, root, h))
            && (forall h :: h in trees ==> fetch(h) == Ok(trees[h]))
  {
    var at := SearchCollects(fetch, known, root);
    var col := SearchFrom(fetch, known, root).col;
    forall h | Reachable(fetch, root, h)
      ensures h in col.trees
    {
      var edges :| IsChain(fetch, root, edges) && End(root, edges) == h;
      ChainsAreCollected(fetch, root, at, col, edges);
    }
  }

  // ----- The files

  /** A file node at the end of a chain, and the path they make. */
  ghost predicate FileAt(fetch: Fetch, root: Str, edges: seq<Edge>, n: TreeNode, p: Str) {
    IsChain(fetch, root, edges) && fetch(End(root, edges)).Ok? && n in NodesIn(fetch(End(root, edges)).value) &&
    IsFile(n) && p == Join(PathTo(edges), n.name)
  }

  /** Every path it gathers leads from the root to a file with that content. */
  lemma SearchFindsFiles(fetch: Fetch, known: set<Str>, root: Str)
    requires Finite(fetch, known) && SearchFrom(fetch, known, root).fault.None?
    ensures var files := SearchFrom(fetch, known, root).col.files;
            forall p :: p in files ==>
              exists edges, n :: FileAt(fetch, root, edges, n, p) && n.content.value == files[p]
  {
    var at := SearchCollects(fetch, known, root);
    var files := SearchFrom(fetch, known, root).col.files;
    forall p | p in files
      ensures exists edges, n :: FileAt(fetch, root, edges, n, p) && n.content.value == files[p]
    {
      var h, n :| Stems(fetch, at, p, h, n) && n.content.value == files[p];
      assert FileAt(fetch, root, at[h], n, p);
    }
  }

  /** No two nodes of a reachable tree have the same name. */
  ghost predicate Tidy(fetch: Fetch, root: Str) {
    forall edges :: IsChain(fetch, root, edges) && fetch(End(root, edges)).Ok? ==>
      TidyNodes(NodesIn(fetch(End(root, edges)).value))
  }

  ghost predicate TidyNodes(ns: seq<TreeNode>) {
    forall n, n' :: n in ns && n' in ns && n.name == n'.name ==> n == n'
  }

  /** Then names determine the chain. */
  lemma {:induction false} NamesDetermineChain(fetch: Fetch, root: Str, c: seq<Edge>, c': seq<Edge>)
    requires Tidy(fetch, root) && IsChain(fetch, root, c) && IsChain(fetch, root, c') && Names(c) == Names(c')
    ensures c == c'
    decreases |c|
  {
    assert |c| == |Names(c)| == |Names(c')| == |c'|;
    if c != [] {
      var k := |c| - 1;
      assert Names(c[..k]) == Names(c)[..k] == Names(c')[..k] == Names(c'[..k]);
      NamesDetermineChain(fetch, root, c[..k], c'[..k]);
      assert c[k].name == Names(c)[k] == Names(c')[k] == c'[k].name;
      assert c == c[..k] + [c[k]] && c' == c'[..k] + [c'[k]];
    }
  }

  /** All files at the ends of all chains are there, with their content. */
  ghost predicate Complete(fetch: Fetch, root: Str, files: map<Str, seq<Str>>) {
    forall edges, n, p :: FileAt(fetch, root, edges, n, p) ==> p in files && files[p] == n.content.value
  }

  ghost predicate HoldsFile(fetch: Fetch, h: Str) {
    fetch(h).Ok? && exists n :: n in NodesIn(fetch(h).value) && IsFile(n)
  }

  /** Two chains to one tree, which holds a file. */
  ghost predicate SameFiles(fetch: Fetch, root: Str, c: seq<Edge>, c': seq<Edge>) {
    IsChain(fetch, root, c) && IsChain(fetch, root, c') && End(root, c) == End(root, c')
      && HoldsFile(fetch, End(root, c))
  }

  /** A tree that holds a file is reached by one path only. */
  ghost predicate SinglePaths(fetch: Fetch, root: Str) {
    forall c, c' :: SameFiles(fetch, root, c, c') ==> c == c'
  }

  /** A file's path shows where its tree was met. */
  lemma PathShowsVisit(fetch: Fetch, root: Str, at: Visits, col: Collected, edges: seq<Edge>, n: TreeNode, p: Str)
    requires AllDone(fetch, root, at, col) && Tidy(fetch, root) && FileAt(fetch, root, edges, n, p)
    ensures End(root, edges) in at
    ensures at[End(root, edges)] == edges <==> p in col.files
    ensures p in col.files ==> col.files[p] == n.content.value
  {
    var h := End(root, edges);
    ChainsAreCollected(fetch, root, at, col, edges);
    assert TreeDone(fetch, at, col, h);
    assert NodeDone(at, col, PathTo(at[h]), n);
    if p in col.files {
      var h', n' :| Stems(fetch, at, p, h', n') && n'.content.value == col.files[p];
      JoinParts(PathTo(edges), n.name);
      JoinParts(PathTo(at[h']), n'.name);
      PathOfInjective(Names(edges), Names(at[h']));
      NamesDetermineChain(fetch, root, edges, at[h']);
      assert TidyNodes(NodesIn(fetch(h).value));
    }
  }

  /** The file list is complete exactly if every tree that holds a file is reached by one path. */
  lemma FilesCompleteExactly(fetch: Fetch, known: set<Str>, root: Str)
    requires Finite(fetch, known) && SearchFrom(fetch, known, root).fault.None? && Tidy(fetch, root)
    ensures Complete(fetch, root, SearchFrom(fetch, known, root).col.files) <==> SinglePaths(fetch, root)
  {
    var at := SearchCollects(fetch, known, root);
    var col := SearchFrom(fetch, known, root).col;
    if SinglePaths(fetch, root) {
      forall edges, n, p | FileAt(fetch, root, edges, n, p)
        ensures p in col.files && col.files[p] == n.content.value
      {
        PathShowsVisit(fetch, root, at, col, edges, n, p);
        assert SameFiles(fetch, root, edges, at[End(root, edges)]);
      }
    }
    if Complete(fetch, root, col.files) {
      forall c, c' | SameFiles(fetch, root, c, c')
        ensures c == c'
      {
        var n :| n in NodesIn(fetch(End(root, c)).value) && IsFile(n);
        assert FileAt(fetch, root, c, n, Join(PathTo(c), n.name));
        assert FileAt(fetch, root, c', n, Join(PathTo(c'), n.name));
        PathShowsVisit(fetch, root, at, col, c, n, Join(PathTo(c), n.name));
        PathShowsVisit(fetch, root, at, col, c', n, Join(PathTo(c'), n.name));
      }
    }
  }

  // ----- The search as it runs

  class TreeCollections {
    var trees: map<Str, TreeBlob>
    var files: map<Str, seq<Str>>
    var meta: map<Str, TreeNode>

    constructor ()
      ensures State() == NOTHING
    {
      trees, files, meta := map[], map[], map[];
    }

    ghost function State(): Collected
      reads this
    {
      Collected(trees, files, meta)
    }

    method ResolveTree(fetch: Fetch, ghost known: set<Str>, hash: Str, base: Str) returns (fault: Option<Fault>)
      requires Finite(fetch, known)
      modifies this
      ensures Outcome(fault, State()) == Resolve(fetch, known, hash, base, old(State()))
      decreases known - trees.Keys
    {
      if hash in trees {
        return None;
      }
      var response := fetch(hash);
      if response.Err? {
        return Some(response.error);
      }
      ghost var whole := Resolve(fetch, known, hash, base, State());
      assert hash in known - trees.Keys;
      trees := trees[hash := response.value];
      var nodes := NodesIn(response.value);
      var i := 0;
      assert nodes[0..] == nodes;
      while i < |nodes|
        invariant i <= |nodes|
        invariant ResolveNodes(fetch, known, nodes[i..], base, State()) == whole
        invariant hash in trees && old(trees).Keys <= trees.Keys
      {
        var node := nodes[i];
        assert nodes[i..][1..] == nodes[i + 1..];
        var joined := JoinTreePath(base, node.name);
        if joined.Err? {
          return Some(joined.error);
        }
        var rel := joined.value;
        meta := meta[rel := node];
        if node.typ == DIR && node.subtree != [] {
          assert known - trees.Keys < old(known - trees.Keys);
          var inner := ResolveTree(fetch, known, node.subtree, rel);
          if inner.Some? {
            return inner;
          }
        } else if node.typ == FILE && node.content.Some? {
          files := files[rel := node.content.value];
        }
        i := i + 1;
      }
      return None;
    }
  }
}
