/** Searches see only what is reachable: servers that agree on it are searched with the same result. */
module Agreement {
  import opened Base
  import opened Primitives
  import opened Codec
  import opened Encrypt
  import opened Paths
  import opened PackStore
  import opened Trees
  import opened Merkle
  import opened Graph
  import opened Search
  import opened Closure
  import opened PrevIndex
  import opened Transfer

  ghost predicate AgreeFrom(fetch: Fetch, fetch': Fetch, root: Str) {
    forall edges :: IsChain(fetch, root, edges) ==> fetch'(End(root, edges)) == fetch(End(root, edges))
  }

  lemma {:induction false} ResolveAgrees(fetch: Fetch, fetch': Fetch, known: set<Str>, known': set<Str>, root: Str,
                                         edges: seq<Edge>, base: Str, col: Collected)
    requires Finite(fetch, known) && Finite(fetch', known') && AgreeFrom(fetch, fetch', root)
    requires IsChain(fetch, root, edges)
    ensures Resolve(fetch, known, End(root, edges), base, col) == Resolve(fetch', known', End(root, edges), base, col)
    decreases known - col.trees.Keys, 0
  {
    var hash := End(root, edges);
    if hash !in col.trees && fetch(hash).Ok? {
      var trees := col.trees[hash := fetch(hash).value];
      assert hash in known - col.trees.Keys && hash !in known - trees.Keys;
      ResolveNodesAgrees(fetch, fetch', known, known', root, edges, NodesIn(fetch(hash).value), base,
                         col.(trees := trees));
    }
  }

  lemma {:induction false} ResolveNodesAgrees(fetch: Fetch, fetch': Fetch, known: set<Str>, known': set<Str>, root: Str,
                                              edges: seq<Edge>, ns: seq<TreeNode>, base: Str, col: Collected)
    requires Finite(fetch, known) && Finite(fetch', known') && AgreeFrom(fetch, fetch', root)
    requires IsChain(fetch, root, edges)
    requires fetch(End(root, edges)).Ok? && forall n :: n in ns ==> n in NodesIn(fetch(End(root, edges)).value)
    ensures ResolveNodes(fetch, known, ns, base, col) == ResolveNodes(fetch', known', ns, base, col)
    decreases known - col.trees.Keys, |ns| + 1
  {
    if ns != [] {
      var n := ns[0];
      if GoodName(n.name) && IsDir(n) {
        var e := Edge(n.name, n.subtree);
        var rel := Join(base, n.name);
        assert Linked(fetch, End(root, edges), e);
        ExtendChain(fetch, root, edges, e);
        ResolveAgrees(fetch, fetch', known, known', root, edges + [e], rel, col.(meta := col.meta[rel := n]));
      }
      var r := ResolveNode(fetch, known, n, base, col);
      assert r == ResolveNode(fetch', known', n, base, col);
      if r.fault.None? {
        ResolveNodesAgrees(fetch, fetch', known, known', root, edges, ns[1..], base, r.col);
      }
    }
  }

  // ----- Agreeing, or failing

  /**
    On what is reachable the second server gives the same as the first, or a fault other than that of a
    missing tree.
   */
  ghost predicate AgreesOrFails(fetch: Fetch, fetch': Fetch, root: Str) {
    forall edges {:trigger AgreesAt(fetch, fetch', End(root, edges))} :: IsChain(fetch, root, edges) ==>
      AgreesAt(fetch, fetch', End(root, edges))
  }

  ghost predicate AgreesAt(fetch: Fetch, fetch': Fetch, h: Str) {
    fetch'(h) == fetch(h) || (fetch'(h).Err? && fetch'(h).error != NoLocation)
  }

  /** If nothing is broken on the second server, it agrees all along. */
  lemma {:induction false} UnbrokenAgrees(fetch: Fetch, fetch': Fetch, root: Str, edges: seq<Edge>)
    requires AgreesOrFails(fetch, fetch', root) && (forall es :: !Broken(fetch', root, es))
      && IsChain(fetch, root, edges)
    ensures IsChain(fetch', root, edges) && fetch'(End(root, edges)) == fetch(End(root, edges))
    decreases |edges|
  {
    if edges != [] {
      UnbrokenAgrees(fetch, fetch', root, edges[..|edges| - 1]);
    }
    assert AgreesAt(fetch, fetch', End(root, edges)) && !Broken(fetch', root, edges);
  }

  /** So a search that succeeds there finds what there is. */
  lemma SearchAgrees(fetch: Fetch, fetch': Fetch, known: set<Str>, known': set<Str>, root: Str)
    requires Finite(fetch, known) && Finite(fetch', known') && AgreesOrFails(fetch, fetch', root)
    requires SearchFrom(fetch', known', root).fault.None?
    ensures AgreeFrom(fetch, fetch', root) && SearchFrom(fetch', known', root) == SearchFrom(fetch, known, root)
  {
    SearchSucceeds(fetch', known', root);
    forall edges | IsChain(fetch, root, edges)
      ensures fetch'(End(root, edges)) == fetch(End(root, edges))
    {
      UnbrokenAgrees(fetch, fetch', root, edges);
    }
    ResolveAgrees(fetch, fetch', known, known', root, [], [], NOTHING);
  }

  lemma {:induction false} WalkAgrees(fetch: Fetch, fetch': Fetch, root: Str, edges: seq<Edge>, prefix: Str,
                                      depth: nat, index: Index)
    requires AgreesOrFails(fetch, fetch', root) && IsChain(fetch, root, edges)
    ensures Walk(fetch', End(root, edges), prefix, depth, index).Ok? ==>
              Walk(fetch', End(root, edges), prefix, depth, index) ==
                Walk(fetch, End(root, edges), prefix, depth, index)
    decreases depth, 0
  {
    assert AgreesAt(fetch, fetch', End(root, edges));
    if depth > 0 && fetch'(End(root, edges)).Ok? {
      WalkNodesAgrees(fetch, fetch', root, edges, NodesIn(fetch(End(root, edges)).value), prefix, depth - 1, index);
    }
  }

  lemma {:induction false} WalkNodesAgrees(fetch: Fetch, fetch': Fetch, root: Str, edges: seq<Edge>, ns: seq<TreeNode>,
                                           prefix: Str, depth: nat, index: Index)
    requires AgreesOrFails(fetch, fetch', root) && IsChain(fetch, root, edges)
    requires fetch(End(root, edges)).Ok? && forall n :: n in ns ==> n in NodesIn(fetch(End(root, edges)).value)
    ensures WalkNodes(fetch', ns, prefix, depth, index).Ok? ==>
              WalkNodes(fetch', ns, prefix, depth, index) == WalkNodes(fetch, ns, prefix, depth, index)
    decreases depth, |ns| + 1
  {
    if ns != [] {
      var n := ns[0];
      if IsDir(n) && !IsDated(n) {
        var e := Edge(n.name, n.subtree);
        assert Linked(fetch, End(root, edges), e);
        ExtendChain(fetch, root, edges, e);
        WalkAgrees(fetch, fetch', root, edges + [e], Join(prefix, n.name), depth, index);
      }
      var r := WalkNode(fetch', n, prefix, depth, index);
      if r.Ok? {
        assert r == WalkNode(fetch, n, prefix, depth, index);
        WalkNodesAgrees(fetch, fetch', root, edges, ns[1..], prefix, depth, r.value);
      }
    }
  }

  // ----- An honest server and what it stands for

  /** From a closed root, an honest server gives what its objects say, or a fault where the key is not the right one. */
  lemma ServerAgreesOrFails(w: World, f: Format, dek: Option<Bytes>, c: Contents, root: Str)
    requires CodecLaw(w) && CipherLaw(w) && FormatLaw(w, f) && Represents(w, c)
    requires Closed(f, c.objects, root) && KeysApart(w, f, c, dek)
    ensures AgreesOrFails(FetchFrom(f, c.objects), FetchStore(w, f, dek, c.store), root)
  {
    var fetch := FetchFrom(f, c.objects);
    forall edges | IsChain(fetch, root, edges)
      ensures AgreesAt(fetch, FetchStore(w, f, dek, c.store), End(root, edges))
    {
      var h := End(root, edges);
      assert TreeHere(f, c.objects, h);
      if StoredFor(c, dek, h, Tree) {
        FetchAgrees(w, f, dek, c, h);
      } else {
        assert Shut(w, f, c, dek, h, Tree);
        FetchFails(w, f, dek, c, h);
      }
    }
  }

  /**
    The index of a closed parent, if it can be read at all, is that of the stored contents, and lists
    content that is there.
   */
  lemma IndexOnServer(w: World, f: Format, dek: Option<Bytes>, c: Contents, root: Str, depth: nat)
    requires CodecLaw(w) && CipherLaw(w) && FormatLaw(w, f) && Represents(w, c)
    requires Closed(f, c.objects, root) && KeysApart(w, f, c, dek)
    requires Walk(FetchStore(w, f, dek, c.store), root, [], depth, map[]).Ok?
    ensures Walk(FetchStore(w, f, dek, c.store), root, [], depth, map[]) ==
      Walk(FetchFrom(f, c.objects), root, [], depth, map[])
    ensures var index := Walk(FetchStore(w, f, dek, c.store), root, [], depth, map[]).value;
            forall p, h :: p in index && h in index[p].content ==> h in c.objects
  {
    ServerAgreesOrFails(w, f, dek, c, root);
    WalkAgrees(FetchFrom(f, c.objects), FetchStore(w, f, dek, c.store), root, [], [], depth, map[]);
    IndexedContentIsHere(f, c.objects, root, depth);
  }
}
