/** When the index of a parent can be read at all, and what a backup on top of it is then. */
module Parents {
  import opened Base
  import opened Primitives
  import opened Encrypt
  import opened Chunking
  import opened Paths
  import opened PackStore
  import opened Trees
  import opened Merkle
  import opened Graph
  import opened Closure
  import opened PrevIndex
  import opened Transfer
  import opened Agreement
  import opened Uploads
  import opened Backup
  import opened Runs
  import opened Download
  import opened EndToEnd
  import opened Incremental
  import opened OwnKey
  import opened RoundTrip

  // ----- A walk that succeeds has met every tree

  /** From some place on the way, the tree was walked without a fault. */
  ghost predicate WalkedWell(fetch: Fetch, h: Str) {
    exists prefix, depth: nat, index :: Walk(fetch, h, prefix, depth, index).Ok?
  }

  lemma {:induction false} NodeWalkedWell(fetch: Fetch, ns: seq<TreeNode>, prefix: Str, depth: nat, index: Index,
                                          n: TreeNode)
    requires WalkNodes(fetch, ns, prefix, depth, index).Ok? && n in ns && IsDir(n)
    ensures WalkedWell(fetch, n.subtree)
    decreases |ns|
  {
    var index1 := WalkNode(fetch, ns[0], prefix, depth, index).value;
    if n == ns[0] {
      TypesDiffer();
      assert Walk(fetch, n.subtree, Join(prefix, n.name), depth, index).Ok?;
    } else {
      NodeWalkedWell(fetch, ns[1..], prefix, depth, index1, n);
    }
  }

  lemma LinkWalkedWell(fetch: Fetch, h: Str, e: Edge)
    requires WalkedWell(fetch, h) && Linked(fetch, h, e)
    ensures WalkedWell(fetch, e.hash)
  {
    var prefix, depth: nat, index :| Walk(fetch, h, prefix, depth, index).Ok?;
    var n :| n in NodesIn(fetch(h).value) && IsDir(n) && n.name == e.name && n.subtree == e.hash;
    NodeWalkedWell(fetch, NodesIn(fetch(h).value), prefix, depth - 1, index, n);
  }

  /** If a server agrees or fails, and the walk there succeeds, it agrees all along. */
  lemma {:induction false} WalkedAgrees(fetch: Fetch, fetch': Fetch, root: Str, edges: seq<Edge>)
    requires AgreesOrFails(fetch, fetch', root) && WalkedWell(fetch', root) && IsChain(fetch, root, edges)
    requires forall es :: IsChain(fetch, root, es) ==> fetch(End(root, es)).Ok?
    ensures WalkedWell(fetch', End(root, edges)) && fetch'(End(root, edges)) == fetch(End(root, edges))
    decreases |edges|
  {
    if edges != [] {
      var init, e := edges[..|edges| - 1], edges[|edges| - 1];
      WalkedAgrees(fetch, fetch', root, init);
      assert Linked(fetch', End(root, init), e);
      LinkWalkedWell(fetch', End(root, init), e);
    }
    var h := End(root, edges);
    assert AgreesAt(fetch, fetch', h);
    var prefix, depth: nat, index :| Walk(fetch', h, prefix, depth, index).Ok?;
  }

  // ----- The parent on the server

  /** Where all trees are open, the server gives just what is stored. */
  lemma OpenAgrees(d: Reader, p: Params, es: seq<FileEntry>, c: Contents)
    requires LawfulReader(d) && BackedUp(d, p, es, c) && TreesOpen(d, p, es, c)
    ensures AgreeFrom(FetchFrom(d.format, c.objects), FetchStore(d.w, d.format, d.dek, c.store),
                      ScanRoot(d.format, p, es))
  {
    var root := ScanRoot(d.format, p, es);
    ReachableAreDirs(d, p, es, c);
    forall edges | IsChain(FetchFrom(d.format, c.objects), root, edges)
      ensures FetchStore(d.w, d.format, d.dek, c.store)(End(root, edges)) ==
              FetchFrom(d.format, c.objects)(End(root, edges))
    {
      assert TreeHere(d.format, c.objects, End(root, edges)) && OpenFor(c, d.dek, End(root, edges), Tree);
      FetchAgrees(d.w, d.format, d.dek, c, End(root, edges));
    }
  }

  /** So the walk there gives what the walk of what is stored gives. */
  lemma SameWalk(fetch: Fetch, fetch': Fetch, root: Str, depth: nat)
    requires AgreeFrom(fetch, fetch', root) && Walk(fetch, root, [], depth, map[]).Ok?
    ensures Walk(fetch', root, [], depth, map[]) == Walk(fetch, root, [], depth, map[])
  {
    forall edges | IsChain(fetch', root, edges)
      ensures AgreesAt(fetch', fetch, End(root, edges))
    {
      AgreeingChains(fetch, fetch', root, edges);
    }
    WalkAgrees(fetch', fetch, root, [], [], depth, map[]);
  }

  lemma OpenIsWalked(d: Reader, p: Params, es: seq<FileEntry>, c: Contents, depth: nat)
    requires LawfulReader(d) && BackedUp(d, p, es, c) && TreesOpen(d, p, es, c)
    requires Dated(es) && Merkle.Longest(es) + 1 < depth
    ensures Walk(FetchStore(d.w, d.format, d.dek, c.store), ScanRoot(d.format, p, es), [], depth, map[]) ==
            Ok(ScanIndex(Digester(d.w.sha, p), es))
  {
    BackupIsThere(d, p, es, c);
    OpenAgrees(d, p, es, c);
    IndexOfBackup(d.format, es, FullTable(d.w.sha, p, es), c.objects, depth);
    SameWalk(FetchFrom(d.format, c.objects), FetchStore(d.w, d.format, d.dek, c.store), ScanRoot(d.format, p, es),
             depth);
  }

  /** Where a tree is not open, the walk fails. */
  lemma WalkedIsOpen(d: Reader, p: Params, es: seq<FileEntry>, c: Contents, depth: nat)
    requires LawfulReader(d) && BackedUp(d, p, es, c) && KeysApart(d.w, d.format, c, d.dek)
    requires Walk(FetchStore(d.w, d.format, d.dek, c.store), ScanRoot(d.format, p, es), [], depth, map[]).Ok?
    ensures TreesOpen(d, p, es, c)
  {
    var fetch, fetch' := FetchFrom(d.format, c.objects), FetchStore(d.w, d.format, d.dek, c.store);
    var root := ScanRoot(d.format, p, es);
    ServerAgreesOrFails(d.w, d.format, d.dek, c, root);
    forall edges | IsChain(fetch, root, edges)
      ensures fetch(End(root, edges)).Ok?
    {
      assert TreeHere(d.format, c.objects, End(root, edges));
    }
    forall edges | IsChain(fetch, root, edges)
      ensures OpenFor(c, d.dek, End(root, edges), Tree)
    {
      WalkedAgrees(fetch, fetch', root, edges);
      WalkedTreeIsOpen(d, c, End(root, edges));
    }
    ReachableAreDirs(d, p, es, c);
  }

  lemma WalkedTreeIsOpen(d: Reader, c: Contents, h: Str)
    requires LawfulReader(d) && Represents(d.w, c) && KeysApart(d.w, d.format, c, d.dek) && h in c.objects
    requires FetchStore(d.w, d.format, d.dek, c.store)(h).Ok?
    ensures OpenFor(c, d.dek, h, Tree)
  {
    if !StoredFor(c, d.dek, h, Tree) {
      assert Shut(d.w, d.format, c, d.dek, h, Tree);
      FetchFails(d.w, d.format, d.dek, c, h);
    }
  }

  // ----- The index that a backup gets

  /** How a client reads a parent: with its own format, under the key that its tenant key gives. */
  function ParentReader(q: Request, parent: Snapshot): Reader {
    Reader(q.s.w, q.s.format, ParentKey(q.s.w, q.tmk, parent), true)
  }

  /** The parent is the backup of a scan, all of it there, and its trees are not too deep for the client's stack. */
  ghost predicate IsBackupOf(q: Request, parent: Snapshot, p: Params, es: seq<FileEntry>, c: Contents) {
    && BackedUp(ParentReader(q, parent), p, es, c) && parent.root == ScanRoot(q.s.format, p, es)
    && Dated(es) && Merkle.Longest(es) + 1 < q.depth
  }

  /**
    What a client can get of the index of a parent, the backup of some scan: all of it, just the non-empty files with
    their times, sizes and hashes, if all trees were stored under the key that the client reads the parent with.
   */
  lemma OpenParentIsRead(q: Request, parent: Snapshot, p: Params, es: seq<FileEntry>, c: Contents)
    requires FitRequest(q.s.w, q.s.format, q) && IsBackupOf(q, parent, p, es, c)
    requires TreesOpen(ParentReader(q, parent), p, es, c)
    ensures OwnIndex(q, c.store, Some(parent)) == Some(ScanIndex(Digester(q.s.w.sha, p), es))
  {
    var d := ParentReader(q, parent);
    OpenIsWalked(d, p, es, c, q.depth);
    IndexOfWalk(q, d, parent, c.store);
  }

  lemma IndexOfWalk(q: Request, d: Reader, parent: Snapshot, store: Store)
    requires d == ParentReader(q, parent)
    ensures var walked := Walk(FetchStore(d.w, d.format, d.dek, store), parent.root, [], q.depth, map[]);
            OwnIndex(q, store, Some(parent)) == if walked.Ok? then Some(walked.value) else None
  {
  }

  /** And nothing otherwise, if keys are kept apart. */
  lemma ParentIsReadExactly(q: Request, parent: Snapshot, p: Params, es: seq<FileEntry>, c: Contents)
    requires FitRequest(q.s.w, q.s.format, q) && IsBackupOf(q, parent, p, es, c)
    requires KeysApart(q.s.w, q.s.format, c, ParentKey(q.s.w, q.tmk, parent))
    ensures OwnIndex(q, c.store, Some(parent)) ==
      if TreesOpen(ParentReader(q, parent), p, es, c) then Some(ScanIndex(Digester(q.s.w.sha, p), es)) else None
  {
    var d := ParentReader(q, parent);
    IndexOfWalk(q, d, parent, c.store);
    if TreesOpen(d, p, es, c) {
      OpenParentIsRead(q, parent, p, es, c);
    } else if Walk(FetchStore(d.w, d.format, d.dek, c.store), parent.root, [], q.depth, map[]).Ok? {
      WalkedIsOpen(d, p, es, c, q.depth);
    }
  }

  // ----- A backup on top of it

  /** The run has the index that could be had, as it has on a server that answers every request. */
  ghost predicate HasOwnIndex(r: Run) {
    r.j.prev == OwnIndex(r.q, r.before.contents.store, r.parent)
  }

  /** The run's parent is the backup of es0, made with the same options, and can be read. */
  ghost predicate ReadsParent(w: World, f: Format, r: Run, es0: seq<FileEntry>)
    requires IsRun(w, f, r)
  {
    && r.parent.Some? && HasOwnIndex(r)
    && IsBackupOf(r.q, r.parent.value, JobParams(r.j), es0, r.before.contents)
    && TreesOpen(ParentReader(r.q, r.parent.value), JobParams(r.j), es0, r.before.contents)
  }

  /**
    A backup on top of a parent that can be read uses its index; and it is as good as a full one exactly if its filter
    is right and the files that look unchanged since the parent are unchanged.
   */
  lemma WellOnParent(w: World, f: Format, r: Run, es0: seq<FileEntry>)
    requires IsRun(w, f, r) && ReadsParent(w, f, r, es0)
    ensures r.j.prev == Some(ScanIndex(JobDigest(r.j), es0)) && IndexHere(r.j.prev, r.before.contents.objects)
    ensures WentWell(w, f, r) <==>
      FilterRight(r.j, r.q.bloom, r.before.contents.objects) && Trustworthy(JobDigest(r.j), es0, r.q.es)
  {
    var p, c := JobParams(r.j), r.before.contents;
    OpenParentIsRead(r.q, r.parent.value, p, es0, c);
    BackupIsThere(ParentReader(r.q, r.parent.value), p, es0, c);
    IndexOfBackup(f, es0, FullTable(w.sha, p, es0), c.objects, r.q.depth);
    IndexedContentIsHere(f, c.objects, r.parent.value.root, r.q.depth);
    IncrementalRefinesFull(r.j, es0, c.objects, r.q.depth);
  }

  /** All trees of what a run has recorded can be read under its own key. */
  ghost predicate OwnTreesAreOpen(w: World, f: Format, r: Run, c: Contents)
    requires IsRun(w, f, r)
  {
    TreesOpen(OwnReader(r), JobParams(r.j), r.q.es, c)
  }

  /** A run that went well serves those with its tenant key as a parent that can be read. */
  lemma OwnParentIsRead(w: World, f: Format, r: Run, next: Run)
    requires IsRecorded(w, f, r) && WentWell(w, f, r) && Base64Law(w) && OwnTreesAreOpen(w, f, r, r.after.contents)
    requires Dated(r.q.es) && Merkle.Longest(r.q.es) + 1 < next.q.depth
    requires IsRun(w, f, next) && next.before == r.after && next.parent == Some(LastSnapshot(r)) && HasOwnIndex(next)
    requires next.q.tmk == r.q.tmk && JobParams(next.j) == JobParams(r.j)
    ensures ReadsParent(w, f, next, r.q.es)
  {
    OwnParentKey(w, f, r);
    WentWellIsBackedUp(w, f, r, r.after.contents);
  }

  /** Without encryption they always can. */
  lemma PlainTreesAreOpen(w: World, f: Format, r: Run, c: Contents)
    requires IsRecorded(w, f, r) && WentWell(w, f, r) && r.q.s.dek.None? && AllPlain(c)
    requires Represents(w, c) && Extends(r.after.contents.objects, c.objects)
    ensures OwnTreesAreOpen(w, f, r, c)
  {
    var d, p, es := OwnReader(r), JobParams(r.j), r.q.es;
    WentWellIsBackedUp(w, f, r, c);
    BackupIsThere(d, p, es, c);
    forall dir | Children(es, dir) != []
      ensures TreeOpen(d, p, es, c, dir)
    {
      assert HasTree(f, es, FullTable(w.sha, p, es), c.objects, dir);
    }
  }

  // ----- Two backups to a new server

  /** The first run of a new server, with a filter that claims nothing. */
  ghost predicate IsFirst(w: World, f: Format, r: Run) {
    IsRecorded(w, f, r) && r.before.contents == EMPTY && r.j.prev.None? && forall h :: !r.q.bloom(h)
  }

  lemma FirstTreesAreOpen(w: World, f: Format, r: Run)
    requires IsFirst(w, f, r) && Base64Law(w)
    ensures WentWell(w, f, r) && OwnTreesAreOpen(w, f, r, r.after.contents)
  {
    FirstIsGood(w, f, r);
    if r.q.s.dek.Some? {
      OwnTreesOpen(w, f, r);
    } else {
      PlainTreesAreOpen(w, f, r, r.after.contents);
    }
  }

  /** Clients with one tenant key, options and format, the second with stack enough for the first scan. */
  ghost predicate Matches(q: Request, next: Request) {
    && next.s.w == q.s.w && next.s.format == q.s.format && next.tmk == q.tmk
    && next.s.options == q.s.options && next.s.gear == q.s.gear
    && Dated(q.es) && Merkle.Longest(q.es) + 1 < next.depth
  }

  /** The next run on the server, with the snapshot of the first as its parent, can read it. */
  lemma NextReadsFirst(w: World, f: Format, r: Run, next: Run)
    requires IsFirst(w, f, r) && Base64Law(w) && Matches(r.q, next.q)
    requires IsRun(w, f, next) && next.before == r.after && next.parent == Some(LastSnapshot(r)) && HasOwnIndex(next)
    ensures ReadsParent(w, f, next, r.q.es)
  {
    FirstTreesAreOpen(w, f, r);
    OwnParentIsRead(w, f, r, next);
  }

  /** The run has the index of a scan, and if that can be trusted it records the closed root of a full backup. */
  ghost predicate IsIncremental(w: World, f: Format, r: Run, es0: seq<FileEntry>)
    requires IsRun(w, f, r) && DistinctPaths(es0)
  {
    && r.after.snapshots != [] && r.j.prev == Some(ScanIndex(JobDigest(r.j), es0))
    && (Trustworthy(JobDigest(r.j), es0, r.q.es) ==>
          && LastSnapshot(r).root == ScanRoot(f, JobParams(r.j), r.q.es)
          && Closed(f, r.after.contents.objects, LastSnapshot(r).root))
  }

  lemma NextIsIncremental(w: World, f: Format, r: Run, next: Run)
    requires IsFirst(w, f, r) && Base64Law(w) && Matches(r.q, next.q) && forall h :: !next.q.bloom(h)
    requires IsRecorded(w, f, next) && next.before == r.after && next.parent == Some(LastSnapshot(r))
      && HasOwnIndex(next)
    ensures IsIncremental(w, f, next, r.q.es)
  {
    NextReadsFirst(w, f, r, next);
    WellOnParent(w, f, next, r.q.es);
    OwnKeyLoads(w, f, next);
    if Trustworthy(JobDigest(next.j), r.q.es, next.q.es) {
      WentWellIsBackedUp(w, f, next, next.after.contents);
    }
  }

  /** A first backup to a new server that answers every request. */
  method StartServer(q: Request) returns (server: Server, first: Snapshot, ghost run: Run)
    requires FitRequest(q.s.w, q.s.format, q) && Willing(q) && q.es != [] && forall h :: !q.bloom(h)
    ensures fresh(server) && server.reliable && server.Sound(q.s.w) && server.snapshots == [first]
    ensures IsFirst(q.s.w, q.s.format, run) && run.q == q && run.after == StateOf(server) && LastSnapshot(run) == first
  {
    server := new Server(true);
    var r;
    r, run := PerformBackup(q, server, None);
    first := r.value;
  }

  /** The next backup, on top of the first. */
  method BackUpNext(next: Request, server: Server, first: Snapshot, ghost start: Run)
    returns (second: Snapshot, ghost run: Run)
    requires FitRequest(next.s.w, next.s.format, next) && Willing(next) && next.es != [] && Base64Law(next.s.w)
    requires server.reliable && server.Sound(next.s.w) && first in server.snapshots
    requires IsFirst(next.s.w, next.s.format, start) && start.after == StateOf(server) && LastSnapshot(start) == first
    requires Matches(start.q, next) && forall h :: !next.bloom(h)
    modifies server
    ensures IsRecorded(next.s.w, next.s.format, run) && run.q == next && run.after == StateOf(server)
    ensures server.snapshots == old(server.snapshots) + [second] && LastSnapshot(run) == second
    ensures IsIncremental(next.s.w, next.s.format, run, start.q.es)
  {
    var r;
    r, run := PerformBackup(next, server, Some(first));
    second := r.value;
    NextIsIncremental(next.s.w, next.s.format, start, run);
  }

  /**
    Two backups to a new server that answers every request, with filters that claim nothing, encrypted under keys of
    their own or not, the second with the first as its parent.  Both succeed; the second has the index of the first, so
    that just the non-empty files with the path, time and size they had are not read again; and it records the root of
    a full backup of its scan, closed, if these are unchanged.
   */
  method BackUpOnTop(q: Request, next: Request) returns (server: Server, first: Snapshot, second: Snapshot,
                                                         ghost run: Run)
    requires FitRequest(q.s.w, q.s.format, q) && FitRequest(q.s.w, q.s.format, next) && Base64Law(q.s.w)
    requires Willing(q) && Willing(next) && Matches(q, next) && q.es != [] && next.es != []
    requires forall h :: !q.bloom(h) && !next.bloom(h)
    ensures fresh(server) && server.Sound(q.s.w) && server.snapshots == [first] + [second]
    ensures IsRecorded(q.s.w, q.s.format, run) && run.q == next && run.after == StateOf(server)
    ensures LastSnapshot(run) == second && IsIncremental(q.s.w, q.s.format, run, q.es)
  {
    ghost var start;
    server, first, start := StartServer(q);
    second, run := BackUpNext(next, server, first, start);
  }
}
