/** A backed-up tree in the store: its chains are its directories, and what a search of it finds. */
module Snapshots {
  import opened Base
  import opened Sorting
  import opened Paths
  import opened Trees
  import opened Merkle
  import opened Graph
  import opened Search
  import opened Closure
  import opened Utf8

  /** The entry is at the top, or its directory is an entry too. */
  ghost predicate HasParent(es: seq<FileEntry>, e: FileEntry) {
    ParentDir(e.rel) == [] || exists d :: d in es && d.rel == ParentDir(e.rel) && d.kind.Directory?
  }

  /** The entries of a scan: with good paths, every directory on the way being an entry itself. */
  ghost predicate WellFormed(es: seq<FileEntry>) {
    GoodPaths(es) && Proper(es) && forall e {:trigger HasParent(es, e)} :: e in es ==> HasParent(es, e)
  }

  /** The trees of a scan are stored, and the hashes in them are plain text. */
  ghost predicate InStore(f: Format, es: seq<FileEntry>, fh: FileHashes, objects: Objects) {
    Faithful(f) && WellFormed(es) && es != [] && PlainHashes(f, fh) && HasTrees(f, es, fh, objects)
  }

  ghost function Root(f: Format, es: seq<FileEntry>, fh: FileHashes): Str
    requires Proper(es)
  {
    MerkleHash(f, es, fh, [])
  }

  /** The top directory is never empty. */
  lemma {:induction false} TopOccupied(es: seq<FileEntry>, e: FileEntry)
    requires WellFormed(es) && e in es
    ensures Children(es, []) != []
    decreases |e.rel|
  {
    assert HasParent(es, e);
    if ParentDir(e.rel) == [] {
      ChildrenAre(es, []);
      assert e in Children(es, []);
    } else {
      var d :| d in es && d.rel == ParentDir(e.rel) && d.kind.Directory?;
      TopOccupied(es, d);
    }
  }

  // ----- Chains are directories

  /** The nodes that stand in the stored tree of a directory. */
  ghost function DirNodes(f: Format, es: seq<FileEntry>, fh: FileHashes, dir: Str): seq<TreeNode>
    requires Proper(es)
  {
    StoredNodes(NodeList(f, es, fh, dir))
  }

  lemma DirTree(f: Format, es: seq<FileEntry>, fh: FileHashes, objects: Objects, dir: Str)
    requires InStore(f, es, fh, objects) && Children(es, dir) != []
    ensures TreeIn(f, objects, MerkleHash(f, es, fh, dir)).Ok?
    ensures NodesIn(TreeIn(f, objects, MerkleHash(f, es, fh, dir)).value) == DirNodes(f, es, fh, dir)
  {
    assert HasTree(f, es, fh, objects, dir);
    DirHolds(f, es, fh, objects, dir);
  }

  /** An entry of which a tree has a node: not a special file, not an unreadable link, not an empty directory. */
  ghost predicate Noded(es: seq<FileEntry>, e: FileEntry) {
    e.kind.Regular? || OccupiedDir(es, e) || (e.kind.Symlink? && e.kind.target.Some?)
  }

  lemma NodedHaveNodes(f: Format, es: seq<FileEntry>, fh: FileHashes, e: FileEntry)
    requires Proper(es)
    ensures NodesFor(e, Lookup(fh, e.rel), SubtreeOf(f, es, fh, e.rel)) != [] <==> Noded(es, e)
  {
  }

  /** Every node of a directory is that of an entry. */
  lemma NodeInDir(f: Format, es: seq<FileEntry>, fh: FileHashes, dir: Str, n: TreeNode) returns (c: FileEntry)
    requires WellFormed(es) && PlainHashes(f, fh) && n in DirNodes(f, es, fh, dir)
    ensures c in es && ParentDir(c.rel) == dir && n.name == BaseName(c.rel) && c.rel == Join(dir, n.name)
    ensures PlainName(n.name) && Noded(es, c)
    ensures IsDir(n) <==> OccupiedDir(es, c)
    ensures IsDir(n) ==> n.subtree == MerkleHash(f, es, fh, c.rel)
    ensures IsFile(n) <==> FilledFile(fh, c)
    ensures IsFile(n) ==> n.content.value == fh[c.rel] && n.mtime == Sanitize(c.mtime) && n.size == Some(c.size)
  {
    StoredNodesOfDir(f, es, fh, dir, n);
    c :| c in Children(es, dir) && IsNodeOf(f, es, fh, c, n);
    ChildrenAre(es, dir);
    assert GoodPath(c.rel);
    NodedHaveNodes(f, es, fh, c);
    NodeMeansEntry(f, es, fh, c, n);
  }

  /** Every entry that gets a node has it in the tree of its parent, with its name. */
  lemma NodedInDir(f: Format, es: seq<FileEntry>, fh: FileHashes, c: FileEntry) returns (n: TreeNode)
    requires WellFormed(es) && PlainHashes(f, fh) && c in es && Noded(es, c)
    ensures n in DirNodes(f, es, fh, ParentDir(c.rel)) && n.name == BaseName(c.rel)
  {
    var dir := ParentDir(c.rel);
    ChildrenAre(es, dir);
    assert c in Children(es, dir);
    NodedHaveNodes(f, es, fh, c);
    n := Normal(NodesFor(c, Lookup(fh, c.rel), SubtreeOf(f, es, fh, c.rel))[0]);
    assert IsNodeOf(f, es, fh, c, n);
    StoredNodesOfDir(f, es, fh, dir, n);
    assert GoodPath(c.rel);
    NodeMeansEntry(f, es, fh, c, n);
  }

  /** Every node of a directory is that of just one entry, and describes it. */
  lemma NodeOfEntry(f: Format, es: seq<FileEntry>, fh: FileHashes, dir: Str, n: TreeNode) returns (c: FileEntry)
    requires WellFormed(es) && PlainHashes(f, fh) && n in DirNodes(f, es, fh, dir)
    ensures c in es && Noded(es, c) && ParentDir(c.rel) == dir && c.rel == Join(dir, n.name)
    ensures Describes(f, es, fh, c, n)
  {
    StoredNodesOfDir(f, es, fh, dir, n);
    c :| c in Children(es, dir) && IsNodeOf(f, es, fh, c, n);
    ChildrenAre(es, dir);
    assert GoodPath(c.rel);
    NodedHaveNodes(f, es, fh, c);
    NodeDescribes(f, es, fh, c, n);
  }

  /** An occupied directory or a filled file has its node in the tree of its parent. */
  lemma EntryInDir(f: Format, es: seq<FileEntry>, fh: FileHashes, c: FileEntry) returns (n: TreeNode)
    requires WellFormed(es) && PlainHashes(f, fh) && c in es && (OccupiedDir(es, c) || FilledFile(fh, c))
    ensures n in DirNodes(f, es, fh, ParentDir(c.rel)) && n.name == BaseName(c.rel)
    ensures c.rel == Join(ParentDir(c.rel), n.name)
    ensures OccupiedDir(es, c) ==> IsDir(n) && n.subtree == MerkleHash(f, es, fh, c.rel)
    ensures FilledFile(fh, c) ==> IsFile(n) && n.content.value == fh[c.rel]
    ensures FilledFile(fh, c) ==> n.mtime == Sanitize(c.mtime) && n.size == Some(c.size)
  {
    var dir := ParentDir(c.rel);
    ChildrenAre(es, dir);
    assert c in Children(es, dir);
    n := Normal(NodesFor(c, Lookup(fh, c.rel), SubtreeOf(f, es, fh, c.rel))[0]);
    assert IsNodeOf(f, es, fh, c, n);
    StoredNodesOfDir(f, es, fh, dir, n);
    assert GoodPath(c.rel);
    NodeMeansEntry(f, es, fh, c, n);
  }

  /** dir is the top, or a directory of the scan, with something in it. */
  ghost predicate IsOccupied(es: seq<FileEntry>, dir: Str) {
    Children(es, dir) != [] && (dir == [] || exists d :: d in es && d.rel == dir && OccupiedDir(es, d))
  }

  /** dir is where the chain leads. */
  ghost predicate LeadsTo(f: Format, es: seq<FileEntry>, fh: FileHashes, edges: seq<Edge>, dir: Str)
    requires Proper(es)
  {
    PathTo(edges) == dir && IsOccupied(es, dir) && End(Root(f, es, fh), edges) == MerkleHash(f, es, fh, dir)
  }

  lemma LinkLeads(f: Format, es: seq<FileEntry>, fh: FileHashes, objects: Objects, dir: Str, e: Edge)
    requires InStore(f, es, fh, objects) && Children(es, dir) != []
    requires Linked(FetchFrom(f, objects), MerkleHash(f, es, fh, dir), e)
    ensures IsOccupied(es, Join(dir, e.name)) && e.hash == MerkleHash(f, es, fh, Join(dir, e.name))
  {
    DirTree(f, es, fh, objects, dir);
    var n :| n in DirNodes(f, es, fh, dir) && IsDir(n) && n.name == e.name && n.subtree == e.hash;
    var c := NodeInDir(f, es, fh, dir, n);
    assert c in es && c.rel == Join(dir, e.name) && OccupiedDir(es, c);
  }

  lemma ExtendLeads(f: Format, es: seq<FileEntry>, fh: FileHashes, objects: Objects, edges: seq<Edge>, dir: Str,
                    e: Edge)
    requires InStore(f, es, fh, objects) && IsChain(FetchFrom(f, objects), Root(f, es, fh), edges)
    requires LeadsTo(f, es, fh, edges, dir) && Linked(FetchFrom(f, objects), MerkleHash(f, es, fh, dir), e)
    ensures IsChain(FetchFrom(f, objects), Root(f, es, fh), edges + [e])
    ensures LeadsTo(f, es, fh, edges + [e], Join(dir, e.name))
  {
    LinkLeads(f, es, fh, objects, dir, e);
    ExtendChain(FetchFrom(f, objects), Root(f, es, fh), edges, e);
  }

  lemma {:induction false} ChainLeads(f: Format, es: seq<FileEntry>, fh: FileHashes, objects: Objects, edges: seq<Edge>)
    requires InStore(f, es, fh, objects) && IsChain(FetchFrom(f, objects), Root(f, es, fh), edges)
    ensures LeadsTo(f, es, fh, edges, PathTo(edges))
    decreases |edges|
  {
    if edges == [] {
      TopLeads(f, es, fh);
    } else {
      var init, e := edges[..|edges| - 1], edges[|edges| - 1];
      assert edges == init + [e];
      ChainLeads(f, es, fh, objects, init);
      ExtendLeads(f, es, fh, objects, init, PathTo(init), e);
    }
  }

  lemma TopLeads(f: Format, es: seq<FileEntry>, fh: FileHashes)
    requires WellFormed(es) && es != []
    ensures PathTo([]) == [] && LeadsTo(f, es, fh, [], [])
  {
    TopOccupied(es, es[0]);
    EmptyPath();
  }

  lemma EmptyPath()
    ensures PathTo([]) == []
  {
  }

  /** One directory further down. */
  lemma ChildChain(f: Format, es: seq<FileEntry>, fh: FileHashes, objects: Objects, init: seq<Edge>, d: FileEntry)
    returns (edges: seq<Edge>)
    requires InStore(f, es, fh, objects) && d in es && OccupiedDir(es, d)
    requires IsChain(FetchFrom(f, objects), Root(f, es, fh), init) && LeadsTo(f, es, fh, init, ParentDir(d.rel))
    ensures IsChain(FetchFrom(f, objects), Root(f, es, fh), edges) && LeadsTo(f, es, fh, edges, d.rel)
  {
    var n := EntryInDir(f, es, fh, d);
    var e := Edge(n.name, n.subtree);
    DirTree(f, es, fh, objects, ParentDir(d.rel));
    assert Linked(FetchFrom(f, objects), MerkleHash(f, es, fh, ParentDir(d.rel)), e);
    ExtendLeads(f, es, fh, objects, init, ParentDir(d.rel), e);
    edges := init + [e];
  }

  /** Every occupied directory is reached by a chain. */
  lemma {:induction false} DirHasChain(f: Format, es: seq<FileEntry>, fh: FileHashes, objects: Objects, dir: Str)
    returns (edges: seq<Edge>)
    requires InStore(f, es, fh, objects)
    requires IsOccupied(es, dir)
    ensures IsChain(FetchFrom(f, objects), Root(f, es, fh), edges) && LeadsTo(f, es, fh, edges, dir)
    decreases |dir|
  {
    edges := [];
    if dir != [] {
      var d :| d in es && d.rel == dir && OccupiedDir(es, d);
      ParentOccupied(es, d);
      var init := DirHasChain(f, es, fh, objects, ParentDir(dir));
      edges := ChildChain(f, es, fh, objects, init, d);
    } else {
      TopLeads(f, es, fh);
    }
  }

  lemma ParentOccupied(es: seq<FileEntry>, e: FileEntry)
    requires WellFormed(es) && e in es
    ensures IsOccupied(es, ParentDir(e.rel))
  {
    var parent := ParentDir(e.rel);
    assert HasParent(es, e);
    ChildrenAre(es, parent);
    assert e in Children(es, parent);
    if parent != [] {
      var p :| p in es && p.rel == parent && p.kind.Directory?;
      assert OccupiedDir(es, p);
    }
  }

  /** The directory of an entry is occupied, and reached by a chain. */
  lemma ParentHasChain(f: Format, es: seq<FileEntry>, fh: FileHashes, objects: Objects, e: FileEntry)
    returns (edges: seq<Edge>)
    requires InStore(f, es, fh, objects) && e in es
    ensures IsChain(FetchFrom(f, objects), Root(f, es, fh), edges) && LeadsTo(f, es, fh, edges, ParentDir(e.rel))
  {
    ParentOccupied(es, e);
    edges := DirHasChain(f, es, fh, objects, ParentDir(e.rel));
  }

  // ----- Closure

  /** The backup's root is closed exactly if all content its filled files list is there. */
  lemma ClosedExactly(f: Format, es: seq<FileEntry>, fh: FileHashes, objects: Objects)
    requires InStore(f, es, fh, objects)
    ensures Closed(f, objects, Root(f, es, fh)) <==> HasContent(es, fh, objects)
  {
    var fetch, root := FetchFrom(f, objects), Root(f, es, fh);
    if HasContent(es, fh, objects) {
      forall edges | IsChain(fetch, root, edges)
        ensures TreeHere(f, objects, End(root, edges))
      {
        ChainLeads(f, es, fh, objects, edges);
        var dir := PathTo(edges);
        DirTree(f, es, fh, objects, dir);
        forall n, h | n in DirNodes(f, es, fh, dir) && IsFile(n) && h in n.content.value
          ensures h in objects
        {
          var c := NodeInDir(f, es, fh, dir, n);
        }
      }
    }
    if Closed(f, objects, root) {
      forall e, h | e in es && e.kind.Regular? && e.rel in fh && h in fh[e.rel]
        ensures h in objects
      {
        var edges := ParentHasChain(f, es, fh, objects, e);
        var n := EntryInDir(f, es, fh, e);
        DirTree(f, es, fh, objects, ParentDir(e.rel));
        assert TreeHere(f, objects, End(root, edges));
      }
    }
  }

  // ----- What the search finds

  /** The files of a scan that have content, with their hashes. */
  ghost function FilesOf(es: seq<FileEntry>, fh: FileHashes): map<Str, seq<Str>> {
    map e | e in es && FilledFile(fh, e) :: e.rel := fh[e.rel]
  }

  /** No entry of which a tree has a node has a backslash in its name. */
  ghost predicate Portable(es: seq<FileEntry>) {
    forall e :: e in es && Noded(es, e) ==> BACKSLASH !in BaseName(e.rel)
  }

  lemma PortableHasGoodNames(f: Format, es: seq<FileEntry>, fh: FileHashes, objects: Objects, edges: seq<Edge>)
    requires InStore(f, es, fh, objects) && Portable(es) && IsChain(FetchFrom(f, objects), Root(f, es, fh), edges)
    ensures !Broken(FetchFrom(f, objects), Root(f, es, fh), edges)
  {
    ChainLeads(f, es, fh, objects, edges);
    var dir := PathTo(edges);
    DirTree(f, es, fh, objects, dir);
    forall n | n in DirNodes(f, es, fh, dir)
      ensures GoodName(n.name)
    {
      var c := NodeInDir(f, es, fh, dir, n);
    }
  }

  lemma BackslashBreaks(f: Format, es: seq<FileEntry>, fh: FileHashes, objects: Objects, e: FileEntry)
    requires InStore(f, es, fh, objects) && e in es && Noded(es, e) && BACKSLASH in BaseName(e.rel)
    ensures exists edges :: Broken(FetchFrom(f, objects), Root(f, es, fh), edges)
  {
    var edges := ParentHasChain(f, es, fh, objects, e);
    DirTree(f, es, fh, objects, ParentDir(e.rel));
    var n := NodedInDir(f, es, fh, e);
    assert Broken(FetchFrom(f, objects), Root(f, es, fh), edges);
  }

  /** A search from a backup's root succeeds exactly if there is no backslash in its names. */
  lemma SearchOfBackupSucceeds(f: Format, es: seq<FileEntry>, fh: FileHashes, objects: Objects)
    requires InStore(f, es, fh, objects)
    ensures Finite(FetchFrom(f, objects), objects.Keys)
    ensures SearchFrom(FetchFrom(f, objects), objects.Keys, Root(f, es, fh)).fault.None? <==> Portable(es)
  {
    var fetch, root := FetchFrom(f, objects), Root(f, es, fh);
    FetchFinite(f, objects);
    SearchSucceeds(fetch, objects.Keys, root);
    if Portable(es) {
      forall edges
        ensures !Broken(fetch, root, edges)
      {
        if IsChain(fetch, root, edges) {
          PortableHasGoodNames(f, es, fh, objects, edges);
        }
      }
    } else {
      var e :| e in es && Noded(es, e) && BACKSLASH in BaseName(e.rel);
      BackslashBreaks(f, es, fh, objects, e);
    }
  }

  lemma BackupIsTidy(f: Format, es: seq<FileEntry>, fh: FileHashes, objects: Objects)
    requires InStore(f, es, fh, objects)
    ensures Tidy(FetchFrom(f, objects), Root(f, es, fh))
  {
    var fetch, root := FetchFrom(f, objects), Root(f, es, fh);
    forall edges | IsChain(fetch, root, edges) && fetch(End(root, edges)).Ok?
      ensures TidyNodes(NodesIn(fetch(End(root, edges)).value))
    {
      ChainLeads(f, es, fh, objects, edges);
      DirTree(f, es, fh, objects, PathTo(edges));
      DirNodesTidy(f, es, fh, PathTo(edges));
    }
  }

  lemma DirNodesTidy(f: Format, es: seq<FileEntry>, fh: FileHashes, dir: Str)
    requires WellFormed(es) && PlainHashes(f, fh)
    ensures TidyNodes(DirNodes(f, es, fh, dir))
  {
    forall n, n' | n in DirNodes(f, es, fh, dir) && n' in DirNodes(f, es, fh, dir) && n.name == n'.name
      ensures n == n'
    {
      StoredNodesOfDir(f, es, fh, dir, n);
      StoredNodesOfDir(f, es, fh, dir, n');
      var c :| c in Children(es, dir) && IsNodeOf(f, es, fh, c, n);
      var c' :| c' in Children(es, dir) && IsNodeOf(f, es, fh, c', n');
      ChildrenAre(es, dir);
      assert GoodPath(c.rel) && GoodPath(c'.rel);
      NodeMeansEntry(f, es, fh, c, n);
      NodeMeansEntry(f, es, fh, c', n');
      SamePathSameEntry(es, c, c');
    }
  }

  /** The nodes that entries are made into have the names of entries, and distinct ones. */
  lemma MadeNames(es: seq<FileEntry>, fh: FileHashes, dir: Str, table: map<Str, Str>)
    requires GoodPaths(es)
    ensures DistinctBy(NodeName, NodesFrom(table, fh, Children(es, dir)))
    ensures forall m :: m in NodesFrom(table, fh, Children(es, dir)) ==> Valid(m.name)
  {
    var cs := Children(es, dir);
    ChildNamesDistinct(es, dir);
    NodeNamesDistinct(table, fh, cs);
    ChildrenAre(es, dir);
    forall m | m in NodesFrom(table, fh, cs)
      ensures Valid(m.name)
    {
      FlatMapHas(NodeMaker(table, fh), cs, m);
      var c :| c in cs && m in NodeMaker(table, fh)(c);
      NodesForNamed(c, Lookup(fh, c.rel), Lookup(table, c.rel));
      assert GoodPath(c.rel);
    }
  }

  lemma StoredAscend(ns: seq<TreeNode>)
    requires DistinctBy(NodeName, ns) && forall m :: m in ns ==> Valid(m.name)
    ensures Ascending(Map(NodeName, StoredNodes(SortedNodes(ns))))
  {
    if ns != [] {
      var sorted := Sort(ByKey(NodeName), ns);
      SortAscends(NodeName, ns);
      SortKeeps(ByKey(NodeName), ns);
      SameElements(sorted, ns);
      forall i | 0 <= i < |sorted|
        ensures Normal(sorted[i]).name == sorted[i].name
      {
        assert sorted[i] in ns;
        SanitizeFixes(sorted[i].name);
      }
      assert Map(NodeName, Map(Normal, sorted)) == Map(NodeName, sorted);
    }
  }

  /** The stored nodes of a directory ascend by name. */
  lemma DirNodesAscend(f: Format, es: seq<FileEntry>, fh: FileHashes, dir: Str)
    requires WellFormed(es)
    ensures Ascending(Map(NodeName, DirNodes(f, es, fh, dir)))
  {
    var table := SubtreeTable(f, es, fh);
    ChildrenAre(es, dir);
    forall c | c in Children(es, dir)
      ensures Lookup(table, c.rel) == SubtreeOf(f, es, fh, c.rel)
    {
      SubtreeTableLookup(f, es, fh, c);
    }
    NodeListFromTable(f, es, fh, dir, table);
    MadeNames(es, fh, dir, table);
    StoredAscend(NodesFrom(table, fh, Children(es, dir)));
  }

  /** A directory has no list of nodes at all, not even an empty one, exactly if none of its entries has a node. */
  lemma ListedIfNoded(f: Format, es: seq<FileEntry>, fh: FileHashes, dir: Str)
    requires WellFormed(es) && PlainHashes(f, fh)
    ensures NodeList(f, es, fh, dir).Some? <==> exists e :: e in es && ParentDir(e.rel) == dir && Noded(es, e)
    ensures NodeList(f, es, fh, dir) != Some([])
  {
    var list := NodeList(f, es, fh, dir);
    ListIsNotEmpty(f, es, fh, dir);
    if list.Some? {
      assert DirNodes(f, es, fh, dir) == Map(Normal, list.value);
      var e := NodeOfEntry(f, es, fh, dir, DirNodes(f, es, fh, dir)[0]);
    }
    if e :| e in es && ParentDir(e.rel) == dir && Noded(es, e) {
      var n := NodedInDir(f, es, fh, e);
    }
  }

  lemma ListIsNotEmpty(f: Format, es: seq<FileEntry>, fh: FileHashes, dir: Str)
    requires Proper(es)
    ensures NodeList(f, es, fh, dir) != Some([])
  {
    ChildrenBelow(es, dir);
    var nodes := NodesOfAll(f, es, fh, dir, Children(es, dir));
    SortKeeps(ByKey(NodeName), nodes);
  }

  /** Of the nodes in the tree of its parent, just one has the name of an entry, and it describes the entry. */
  lemma EntryIsDescribed(f: Format, es: seq<FileEntry>, fh: FileHashes, e: FileEntry) returns (i: nat)
    requires WellFormed(es) && PlainHashes(f, fh) && e in es && Noded(es, e)
    ensures var nodes := DirNodes(f, es, fh, ParentDir(e.rel));
            && i < |nodes| && Describes(f, es, fh, e, nodes[i])
            && forall k :: 0 <= k < |nodes| && nodes[k].name == BaseName(e.rel) ==> k == i
  {
    var nodes := DirNodes(f, es, fh, ParentDir(e.rel));
    var n := NodedInDir(f, es, fh, e);
    i :| 0 <= i < |nodes| && nodes[i] == n;
    var c := NodeOfEntry(f, es, fh, ParentDir(e.rel), n);
    SamePathSameEntry(es, c, e);
    DirNodesAscend(f, es, fh, ParentDir(e.rel));
    forall k | 0 <= k < |nodes| && k != i
      ensures nodes[k].name != BaseName(e.rel)
    {
      var names := Map(NodeName, nodes);
      if k < i {
        NotBeforeItself(names[k], names[i]);
      } else {
        NotBeforeItself(names[i], names[k]);
      }
    }
  }

  /** So it is in the store: a chain leads from the root to the tree of its parent, and there it stands. */
  lemma EntryInStore(f: Format, es: seq<FileEntry>, fh: FileHashes, objects: Objects, e: FileEntry)
    returns (edges: seq<Edge>, i: nat)
    requires InStore(f, es, fh, objects) && e in es && Noded(es, e)
    ensures IsChain(FetchFrom(f, objects), Root(f, es, fh), edges) && PathTo(edges) == ParentDir(e.rel)
    ensures TreeIn(f, objects, End(Root(f, es, fh), edges)).Ok?
    ensures var nodes := NodesIn(TreeIn(f, objects, End(Root(f, es, fh), edges)).value);
            && i < |nodes| && Describes(f, es, fh, e, nodes[i])
            && forall k :: 0 <= k < |nodes| && nodes[k].name == BaseName(e.rel) ==> k == i
  {
    edges := ParentHasChain(f, es, fh, objects, e);
    DirTree(f, es, fh, objects, ParentDir(e.rel));
    i := EntryIsDescribed(f, es, fh, e);
  }

  lemma SamePathSameEntry(es: seq<FileEntry>, c: FileEntry, c': FileEntry)
    requires GoodPaths(es) && c in es && c' in es && ParentDir(c.rel) == ParentDir(c'.rel)
    requires BaseName(c.rel) == BaseName(c'.rel)
    ensures c == c'
  {
    assert GoodPath(c.rel) && GoodPath(c'.rel);
    assert c.rel == c'.rel;
    var i :| 0 <= i < |es| && es[i] == c;
    var j :| 0 <= j < |es| && es[j] == c';
  }

  /** Files at the ends of chains are the filled files of the scan. */
  lemma FileAtMeans(f: Format, es: seq<FileEntry>, fh: FileHashes, objects: Objects, edges: seq<Edge>, n: TreeNode,
                    p: Str)
    requires InStore(f, es, fh, objects) && FileAt(FetchFrom(f, objects), Root(f, es, fh), edges, n, p)
    ensures p in FilesOf(es, fh) && FilesOf(es, fh)[p] == n.content.value
  {
    ChainLeads(f, es, fh, objects, edges);
    DirTree(f, es, fh, objects, PathTo(edges));
    var c := NodeInDir(f, es, fh, PathTo(edges), n);
    assert c in es && FilledFile(fh, c) && c.rel == p;
  }

  lemma FileIsAt(f: Format, es: seq<FileEntry>, fh: FileHashes, objects: Objects, e: FileEntry)
    returns (edges: seq<Edge>, n: TreeNode)
    requires InStore(f, es, fh, objects) && e in es && FilledFile(fh, e)
    ensures FileAt(FetchFrom(f, objects), Root(f, es, fh), edges, n, e.rel) && n.content.value == fh[e.rel]
    ensures PathTo(edges) == ParentDir(e.rel)
  {
    edges := ParentHasChain(f, es, fh, objects, e);
    n := EntryInDir(f, es, fh, e);
    DirTree(f, es, fh, objects, ParentDir(e.rel));
  }

  /** dir has the same tree as the directory of e, a file with content. */
  ghost predicate SameTree(f: Format, es: seq<FileEntry>, fh: FileHashes, e: FileEntry, dir: Str)
    requires Proper(es)
  {
    e in es && FilledFile(fh, e) && IsOccupied(es, dir) &&
    MerkleHash(f, es, fh, ParentDir(e.rel)) == MerkleHash(f, es, fh, dir)
  }

  /** No two directories with something in them, one of them holding a file with content, have the same tree. */
  ghost predicate FileDirsDiffer(f: Format, es: seq<FileEntry>, fh: FileHashes)
    requires Proper(es)
  {
    forall e, dir :: SameTree(f, es, fh, e, dir) ==> dir == ParentDir(e.rel)
  }

  /** Every path comes from a chain. */
  ghost predicate Genuine(fetch: Fetch, root: Str, files: map<Str, seq<Str>>) {
    forall p :: p in files ==> exists edges, n :: FileAt(fetch, root, edges, n, p) && n.content.value == files[p]
  }

  lemma GenuineFilesAre(f: Format, es: seq<FileEntry>, fh: FileHashes, objects: Objects, files: map<Str, seq<Str>>)
    requires InStore(f, es, fh, objects) && Genuine(FetchFrom(f, objects), Root(f, es, fh), files)
    ensures forall p :: p in files ==> p in FilesOf(es, fh) && files[p] == FilesOf(es, fh)[p]
  {
    forall p | p in files
      ensures p in FilesOf(es, fh) && files[p] == FilesOf(es, fh)[p]
    {
      var edges, n :| FileAt(FetchFrom(f, objects), Root(f, es, fh), edges, n, p) && n.content.value == files[p];
      FileAtMeans(f, es, fh, objects, edges, n, p);
    }
  }

  lemma AllFilesAreComplete(f: Format, es: seq<FileEntry>, fh: FileHashes, objects: Objects)
    requires InStore(f, es, fh, objects)
    ensures Complete(FetchFrom(f, objects), Root(f, es, fh), FilesOf(es, fh))
  {
    forall edges, n, p | FileAt(FetchFrom(f, objects), Root(f, es, fh), edges, n, p)
      ensures p in FilesOf(es, fh) && FilesOf(es, fh)[p] == n.content.value
    {
      FileAtMeans(f, es, fh, objects, edges, n, p);
    }
  }

  lemma CompleteHasAll(f: Format, es: seq<FileEntry>, fh: FileHashes, objects: Objects, files: map<Str, seq<Str>>,
                       e: FileEntry)
    requires InStore(f, es, fh, objects) && Complete(FetchFrom(f, objects), Root(f, es, fh), files)
    requires e in es && FilledFile(fh, e)
    ensures e.rel in files
  {
    var edges, n := FileIsAt(f, es, fh, objects, e);
    assert FileAt(FetchFrom(f, objects), Root(f, es, fh), edges, n, e.rel);
  }

  lemma FilesFoundAre(f: Format, es: seq<FileEntry>, fh: FileHashes, objects: Objects, files: map<Str, seq<Str>>)
    requires InStore(f, es, fh, objects) && Genuine(FetchFrom(f, objects), Root(f, es, fh), files)
    ensures files == FilesOf(es, fh) <==> Complete(FetchFrom(f, objects), Root(f, es, fh), files)
  {
    var fetch, root := FetchFrom(f, objects), Root(f, es, fh);
    GenuineFilesAre(f, es, fh, objects, files);
    AllFilesAreComplete(f, es, fh, objects);
    var all := FilesOf(es, fh);
    if Complete(fetch, root, files) {
      forall p | p in all
        ensures p in files
      {
        var e :| e in es && FilledFile(fh, e) && e.rel == p;
        CompleteHasAll(f, es, fh, objects, files, e);
      }
      SameMap(files, all);
    }
  }

  lemma SinglePathsExactly(f: Format, es: seq<FileEntry>, fh: FileHashes, objects: Objects)
    requires InStore(f, es, fh, objects) && Portable(es)
    ensures SinglePaths(FetchFrom(f, objects), Root(f, es, fh)) <==> FileDirsDiffer(f, es, fh)
  {
    var fetch, root := FetchFrom(f, objects), Root(f, es, fh);
    BackupIsTidy(f, es, fh, objects);
    if SinglePaths(fetch, root) {
      forall e, dir | SameTree(f, es, fh, e, dir)
        ensures dir == ParentDir(e.rel)
      {
        var c, n := FileIsAt(f, es, fh, objects, e);
        var c' := DirHasChain(f, es, fh, objects, dir);
        ChainLeads(f, es, fh, objects, c);
        assert HoldsFile(fetch, End(root, c));
        assert SameFiles(fetch, root, c, c');
      }
    }
    if FileDirsDiffer(f, es, fh) {
      forall c, c' | SameFiles(fetch, root, c, c')
        ensures c == c'
      {
        SameFilesSameChain(f, es, fh, objects, c, c');
      }
    }
  }

  lemma SameFilesSameChain(f: Format, es: seq<FileEntry>, fh: FileHashes, objects: Objects, c: seq<Edge>, c': seq<Edge>)
    requires InStore(f, es, fh, objects) && Portable(es) && FileDirsDiffer(f, es, fh)
    requires SameFiles(FetchFrom(f, objects), Root(f, es, fh), c, c')
    ensures c == c'
  {
    var fetch, root := FetchFrom(f, objects), Root(f, es, fh);
    BackupIsTidy(f, es, fh, objects);
    ChainLeads(f, es, fh, objects, c);
    ChainLeads(f, es, fh, objects, c');
    var n :| n in NodesIn(fetch(End(root, c)).value) && IsFile(n);
    DirTree(f, es, fh, objects, PathTo(c));
    var e := NodeInDir(f, es, fh, PathTo(c), n);
    assert SameTree(f, es, fh, e, PathTo(c'));
    ChainNamesGood(f, es, fh, objects, c);
    ChainNamesGood(f, es, fh, objects, c');
    PathOfInjective(Names(c), Names(c'));
    NamesDetermineChain(fetch, root, c, c');
  }

  lemma {:induction false} ChainNamesGood(f: Format, es: seq<FileEntry>, fh: FileHashes, objects: Objects,
                                          edges: seq<Edge>)
    requires InStore(f, es, fh, objects) && Portable(es) && IsChain(FetchFrom(f, objects), Root(f, es, fh), edges)
    ensures GoodNames(Names(edges))
  {
    SearchOfBackupSucceeds(f, es, fh, objects);
    var at := SearchCollects(FetchFrom(f, objects), objects.Keys, Root(f, es, fh));
    ChainsAreCollected(FetchFrom(f, objects), Root(f, es, fh), at,
                       SearchFrom(FetchFrom(f, objects), objects.Keys, Root(f, es, fh)).col, edges);
  }

  /**
    A search from a backup's root succeeds exactly if there is no backslash in its names; and then the files it finds
    are all the files with content, with their hashes, exactly if no two directories around such files have the same
    tree.
   */
  lemma SearchOfBackup(f: Format, es: seq<FileEntry>, fh: FileHashes, objects: Objects)
    requires InStore(f, es, fh, objects)
    ensures Finite(FetchFrom(f, objects), objects.Keys)
    ensures var r := SearchFrom(FetchFrom(f, objects), objects.Keys, Root(f, es, fh));
            && (r.fault.None? <==> Portable(es))
            && (r.fault.None? ==> (r.col.files == FilesOf(es, fh) <==> FileDirsDiffer(f, es, fh)))
  {
    SearchOfBackupSucceeds(f, es, fh, objects);
    if Portable(es) {
      BackupIsTidy(f, es, fh, objects);
      SearchFindsFiles(FetchFrom(f, objects), objects.Keys, Root(f, es, fh));
      FilesCompleteExactly(FetchFrom(f, objects), objects.Keys, Root(f, es, fh));
      FilesFoundAre(f, es, fh, objects, SearchFrom(FetchFrom(f, objects), objects.Keys, Root(f, es, fh)).col.files);
      SinglePathsExactly(f, es, fh, objects);
    }
  }

  // ----- How deep it is

  lemma {:induction false} LongPath(edges: seq<Edge>)
    requires forall i :: 0 <= i < |edges| ==> edges[i].name != []
    ensures |PathTo(edges)| >= |edges|
  {
    if edges != [] {
      var init, e := edges[..|edges| - 1], edges[|edges| - 1];
      LongPath(init);
      assert Names(edges)[..|edges| - 1] == Names(init);
    }
  }

  /** A chain through the trees of a backup has no more edges than the longest path has letters. */
  lemma ChainIsShort(f: Format, es: seq<FileEntry>, fh: FileHashes, objects: Objects, edges: seq<Edge>)
    requires InStore(f, es, fh, objects) && IsChain(FetchFrom(f, objects), Root(f, es, fh), edges)
    ensures |edges| <= Merkle.Longest(es)
  {
    ChainLeads(f, es, fh, objects, edges);
    NamesNotEmpty(f, es, fh, objects, edges);
    LongPath(edges);
    LongestBounds(es);
  }

  lemma LinkHasName(f: Format, es: seq<FileEntry>, fh: FileHashes, objects: Objects, init: seq<Edge>, e: Edge)
    requires InStore(f, es, fh, objects) && IsChain(FetchFrom(f, objects), Root(f, es, fh), init)
    requires Linked(FetchFrom(f, objects), End(Root(f, es, fh), init), e)
    ensures e.name != []
  {
    ChainLeads(f, es, fh, objects, init);
    DirTree(f, es, fh, objects, PathTo(init));
    var n :| n in DirNodes(f, es, fh, PathTo(init)) && IsDir(n) && n.name == e.name && n.subtree == e.hash;
    var c := NodeInDir(f, es, fh, PathTo(init), n);
  }

  lemma {:induction false} NamesNotEmpty(f: Format, es: seq<FileEntry>, fh: FileHashes, objects: Objects,
                                         edges: seq<Edge>)
    requires InStore(f, es, fh, objects) && IsChain(FetchFrom(f, objects), Root(f, es, fh), edges)
    ensures forall i :: 0 <= i < |edges| ==> edges[i].name != []
    decreases |edges|
  {
    if edges != [] {
      NamesNotEmpty(f, es, fh, objects, edges[..|edges| - 1]);
      LinkHasName(f, es, fh, objects, edges[..|edges| - 1], edges[|edges| - 1]);
    }
  }
}
