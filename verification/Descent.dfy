/** How deep a graph of trees is for a recursion that does not remember where it has been. */
module Descent {
  import opened Base
  import opened Trees
  import opened Graph

  /** The recursion into the subtrees of a tree ends before it is depth calls deep. */
  ghost predicate Fits(fetch: Fetch, hash: Str, depth: nat)
    decreases depth, 0
  {
    depth > 0 && (fetch(hash).Ok? ==> AllFit(fetch, NodesIn(fetch(hash).value), depth - 1))
  }

  ghost predicate AllFit(fetch: Fetch, ns: seq<TreeNode>, depth: nat)
    decreases depth, 1
  {
    forall n :: n in ns && IsDir(n) ==> Fits(fetch, n.subtree, depth)
  }

  // ----- Chains from their first edge

  /** A chain is its first edge and a chain from there. */
  lemma {:induction false} ChainFirst(fetch: Fetch, root: Str, e: Edge, rest: seq<Edge>)
    ensures IsChain(fetch, root, [e] + rest) <==> Linked(fetch, root, e) && IsChain(fetch, e.hash, rest)
    ensures End(root, [e] + rest) == End(e.hash, rest)
    decreases |rest|
  {
    var edges := [e] + rest;
    if rest == [] {
      assert edges == [e] && [e][..0] == [];
      assert IsChain(fetch, root, []);
    } else {
      var init := rest[..|rest| - 1];
      assert edges[..|edges| - 1] == [e] + init && edges[|edges| - 1] == rest[|rest| - 1];
      ChainFirst(fetch, root, e, init);
    }
  }

  /** Two chains, the second from where the first ends, make one. */
  lemma {:induction false} ChainsJoin(fetch: Fetch, root: Str, a: seq<Edge>, b: seq<Edge>)
    requires IsChain(fetch, root, a) && IsChain(fetch, End(root, a), b)
    ensures IsChain(fetch, root, a + b) && End(root, a + b) == End(End(root, a), b)
    decreases |b|
  {
    if b == [] {
      assert a + b == a;
    } else {
      var init, e := b[..|b| - 1], b[|b| - 1];
      ChainsJoin(fetch, root, a, init);
      assert (a + b)[..|a + b| - 1] == a + init && (a + b)[|a + b| - 1] == e;
    }
  }

  /** A chain from some point on. */
  lemma {:induction false} ChainSuffix(fetch: Fetch, root: Str, edges: seq<Edge>, i: nat)
    requires IsChain(fetch, root, edges) && i <= |edges|
    ensures IsChain(fetch, root, edges[..i]) && IsChain(fetch, End(root, edges[..i]), edges[i..])
    ensures End(root, edges) == End(End(root, edges[..i]), edges[i..])
    decreases |edges|
  {
    if i == |edges| {
      assert edges[..i] == edges && edges[i..] == [];
    } else {
      var init := edges[..|edges| - 1];
      ChainSuffix(fetch, root, init, i);
      assert init[..i] == edges[..i];
      assert edges[i..][..|edges[i..]| - 1] == init[i..];
    }
  }

  // ----- The depth is the length of the longest chain

  lemma {:induction false} FitsBounds(fetch: Fetch, hash: Str, depth: nat, edges: seq<Edge>)
    requires Fits(fetch, hash, depth) && IsChain(fetch, hash, edges)
    ensures |edges| < depth
    decreases depth
  {
    if edges != [] {
      var e, rest := edges[0], edges[1..];
      assert edges == [e] + rest;
      ChainFirst(fetch, hash, e, rest);
      FitsBounds(fetch, e.hash, depth - 1, rest);
    }
  }

  ghost predicate AllShorter(fetch: Fetch, hash: Str, depth: nat) {
    forall edges {:trigger IsChain(fetch, hash, edges)} :: IsChain(fetch, hash, edges) ==> |edges| < depth
  }

  lemma ShorterBelow(fetch: Fetch, hash: Str, depth: nat, n: TreeNode)
    requires depth > 0 && AllShorter(fetch, hash, depth) && fetch(hash).Ok?
    requires n in NodesIn(fetch(hash).value) && IsDir(n)
    ensures AllShorter(fetch, n.subtree, depth - 1)
  {
    var e := Edge(n.name, n.subtree);
    forall rest | IsChain(fetch, n.subtree, rest)
      ensures |rest| < depth - 1
    {
      ChainFirst(fetch, hash, e, rest);
      assert |[e] + rest| == |rest| + 1;
    }
  }

  lemma {:induction false} BoundedFits(fetch: Fetch, hash: Str, depth: nat)
    requires AllShorter(fetch, hash, depth)
    ensures Fits(fetch, hash, depth)
    decreases depth
  {
    assert IsChain(fetch, hash, []);
    if fetch(hash).Ok? {
      forall n | n in NodesIn(fetch(hash).value) && IsDir(n)
        ensures Fits(fetch, n.subtree, depth - 1)
      {
        ShorterBelow(fetch, hash, depth, n);
        BoundedFits(fetch, n.subtree, depth - 1);
      }
    }
  }

  lemma FitsExactly(fetch: Fetch, hash: Str, depth: nat)
    ensures Fits(fetch, hash, depth) <==> AllShorter(fetch, hash, depth)
  {
    if Fits(fetch, hash, depth) {
      forall edges | IsChain(fetch, hash, edges)
        ensures |edges| < depth
      {
        FitsBounds(fetch, hash, depth, edges);
      }
    }
    if AllShorter(fetch, hash, depth) {
      BoundedFits(fetch, hash, depth);
    }
  }

  // ----- Cycles

  /** From the end of one chain another leads back there. */
  ghost predicate IsLoop(fetch: Fetch, root: Str, edges: seq<Edge>, loop: seq<Edge>) {
    && IsChain(fetch, root, edges) && IsChain(fetch, End(root, edges), loop)
    && loop != [] && End(End(root, edges), loop) == End(root, edges)
  }

  /** Some reachable tree reaches itself. */
  ghost predicate Loops(fetch: Fetch, root: Str) {
    exists edges, loop :: IsLoop(fetch, root, edges, loop)
  }

  /** A loop can be gone round any number of times. */
  lemma {:induction false} RoundAndRound(fetch: Fetch, root: Str, edges: seq<Edge>, loop: seq<Edge>, times: nat)
    returns (longer: seq<Edge>)
    requires IsLoop(fetch, root, edges, loop)
    ensures IsChain(fetch, root, longer) && End(root, longer) == End(root, edges) && |longer| >= times
    decreases times
  {
    if times == 0 {
      longer := edges;
    } else {
      var once := RoundAndRound(fetch, root, edges, loop, times - 1);
      ChainsJoin(fetch, root, once, loop);
      longer := once + loop;
    }
  }

  /** More elements than there are different ones: some element occurs twice. */
  lemma {:induction false} Pigeonhole<T>(xs: seq<T>, all: set<T>) returns (i: nat, k: nat)
    requires |xs| > |all| && forall x :: x in xs ==> x in all
    ensures i < k < |xs| && xs[i] == xs[k]
    decreases |xs|
  {
    var last := xs[|xs| - 1];
    var init := xs[..|xs| - 1];
    if last in init {
      i :| 0 <= i < |init| && init[i] == last;
      k := |xs| - 1;
    } else {
      assert last in all && |all - {last}| == |all| - 1;
      i, k := Pigeonhole(init, all - {last});
    }
  }

  /** The trees that a chain goes through before its end. */
  function Met(root: Str, edges: seq<Edge>): seq<Str> {
    seq(|edges|, i requires 0 <= i < |edges| => End(root, edges[..i]))
  }

  lemma MetAreKnown(fetch: Fetch, known: set<Str>, root: Str, edges: seq<Edge>, i: nat)
    requires Finite(fetch, known) && IsChain(fetch, root, edges) && i < |edges|
    ensures End(root, edges[..i]) in known
  {
    ChainSuffix(fetch, root, edges, i + 1);
    assert edges[..i + 1][..i] == edges[..i];
  }

  lemma MetTwiceLoops(fetch: Fetch, root: Str, edges: seq<Edge>, i: nat, k: nat)
    requires IsChain(fetch, root, edges) && i < k <= |edges| && End(root, edges[..i]) == End(root, edges[..k])
    ensures IsLoop(fetch, root, edges[..i], edges[i..k])
  {
    ChainSuffix(fetch, root, edges, k);
    ChainSuffix(fetch, root, edges[..k], i);
    assert edges[..k][..i] == edges[..i] && edges[..k][i..] == edges[i..k];
  }

  /** A chain that is longer than there are trees goes through one of them twice. */
  lemma LongChainLoops(fetch: Fetch, known: set<Str>, root: Str, edges: seq<Edge>)
    requires Finite(fetch, known) && IsChain(fetch, root, edges) && |edges| > |known|
    ensures Loops(fetch, root)
  {
    forall h | h in Met(root, edges)
      ensures h in known
    {
      var i :| 0 <= i < |edges| && Met(root, edges)[i] == h;
      MetAreKnown(fetch, known, root, edges, i);
    }
    var i, k := Pigeonhole(Met(root, edges), known);
    MetTwiceLoops(fetch, root, edges, i, k);
  }

  /** The recursion ends, given a stack that is deep enough, exactly if no reachable tree reaches itself. */
  lemma EndsExactly(fetch: Fetch, known: set<Str>, root: Str)
    requires Finite(fetch, known)
    ensures Loops(fetch, root) ==> forall depth :: !Fits(fetch, root, depth)
    ensures !Loops(fetch, root) ==> Fits(fetch, root, |known| + 1)
  {
    FitsExactly(fetch, root, |known| + 1);
    if Loops(fetch, root) {
      forall depth: nat
        ensures !Fits(fetch, root, depth)
      {
        var edges, loop :| IsLoop(fetch, root, edges, loop);
        var longer := RoundAndRound(fetch, root, edges, loop, depth);
        FitsExactly(fetch, root, depth);
      }
    } else {
      forall edges | IsChain(fetch, root, edges)
        ensures |edges| < |known| + 1
      {
        if |edges| > |known| {
          LongChainLoops(fetch, known, root, edges);
        }
      }
    }
  }
}
