/** Histories of backups: however they build on each other, each is as good as a full one, now and ever after. */
module Histories {
  import opened Base
  import opened Primitives
  import opened Codec
  import opened Chunking
  import opened PackStore
  import opened Merkle
  import opened Closure
  import opened Snapshots
  import opened PrevIndex
  import opened Transfer
  import opened Uploads
  import opened Backup
  import opened Runs
  import opened Download
  import opened Restore
  import opened EndToEnd
  import opened Incremental
  import opened OwnKey
  import opened RoundTrip

  // ----- One step

  /** A closed root of a full backup is a full parent. */
  lemma ClosedIsFullParent(j: Job, es0: seq<FileEntry>, objects0: Objects)
    requires Fit(j) && WellFormed(es0) && es0 != [] && Dated(es0) && Keyed(j.s.w, objects0)
    requires Closed(j.s.format, objects0, ScanRoot(j.s.format, JobParams(j), es0))
    ensures FullParent(j, es0, objects0)
  {
    FullTablePlain(j.s.w, j.s.format, JobParams(j), es0);
    ClosedIsInStore(j.s.w, j.s.format, es0, FullTable(j.s.w.sha, JobParams(j), es0), objects0);
  }

  /** With a trustworthy full parent, the index is that of its files, and the table that of a full backup. */
  lemma TrueWithParent(j: Job, es0: seq<FileEntry>, objects0: Objects, depth: nat)
    requires Fit(j) && WellFormed(es0) && es0 != [] && Dated(es0) && Merkle.Longest(es0) + 1 < depth
    requires Keyed(j.s.w, objects0)
    requires Closed(j.s.format, objects0, ScanRoot(j.s.format, JobParams(j), es0))
    requires IndexOfFull(j, es0, objects0, depth) && Trustworthy(JobDigest(j), es0, j.es)
    ensures TableTrue(j) && j.prev.value == ScanIndex(JobDigest(j), es0)
  {
    ClosedIsFullParent(j, es0, objects0);
    IncrementalRefinesFull(j, es0, objects0, depth);
  }

  /** The parent, if the run has used one, is what a full backup of es0 with the same options records. */
  ghost predicate ParentIsFull(w: World, f: Format, r: Run, es0: seq<FileEntry>)
    requires IsRun(w, f, r) && r.j.prev.Some?
  {
    && WellFormed(es0) && es0 != [] && Dated(es0) && Merkle.Longest(es0) + 1 < r.q.depth
    && r.parent.value.root == ScanRoot(f, JobParams(r.j), es0)
    && Closed(f, r.before.contents.objects, r.parent.value.root)
    && Trustworthy(JobDigest(r.j), es0, r.q.es)
  }

  lemma IncrementalWentWell(w: World, f: Format, r: Run, es0: seq<FileEntry>)
    requires IsRun(w, f, r) && RanRight(w, f, r) && r.j.prev.Some? && ParentIsFull(w, f, r, es0)
    ensures WentWell(w, f, r) && r.j.prev.value == ScanIndex(JobDigest(r.j), es0)
  {
    IndexIsHere(w, f, r);
    SoundIsKeyed(w, r.before.contents);
    TrueWithParent(r.j, es0, r.before.contents.objects, r.q.depth);
  }

  // ----- A history

  /** All runs work with the same options, on scans with times that are not too deep for the walk of a parent. */
  ghost predicate FitRun(w: World, f: Format, p: Params, depth: nat, r: Run) {
    && IsRun(w, f, r) && JobParams(r.j) == p && Dated(r.q.es) && Merkle.Longest(r.q.es) + 1 < depth <= r.q.depth
  }

  ghost predicate AllFit(w: World, f: Format, p: Params, depth: nat, runs: seq<Run>) {
    forall i {:trigger FitRun(w, f, p, depth, runs[i])} :: 0 <= i < |runs| ==> FitRun(w, f, p, depth, runs[i])
  }

  /** Between any scan and a later one, files that look unchanged are unchanged. */
  ghost predicate AllTrustworthy(digest: Digest, runs: seq<Run>) {
    forall i, k :: 0 <= i < k < |runs| ==> Trustworthy(digest, runs[i].q.es, runs[k].q.es)
  }

  /** The root of a full backup of the scan of one of the first n runs. */
  ghost predicate IsFull(f: Format, p: Params, runs: seq<Run>, n: nat, root: Str)
    requires n <= |runs|
  {
    exists k :: 0 <= k < n && WellFormed(runs[k].q.es) && runs[k].q.es != [] && root == ScanRoot(f, p, runs[k].q.es)
  }

  ghost predicate AllFull(f: Format, p: Params, runs: seq<Run>, n: nat, snapshots: seq<Snapshot>)
    requires n <= |runs|
  {
    forall i {:trigger IsFull(f, p, runs, n, snapshots[i].root)} :: 0 <= i < |snapshots| ==>
      IsFull(f, p, runs, n, snapshots[i].root)
  }

  lemma FullStays(f: Format, p: Params, runs: seq<Run>, n: nat, snapshots: seq<Snapshot>)
    requires n < |runs| && AllFull(f, p, runs, n, snapshots)
    ensures AllFull(f, p, runs, n + 1, snapshots)
  {
    forall i | 0 <= i < |snapshots|
      ensures IsFull(f, p, runs, n + 1, snapshots[i].root)
    {
      assert IsFull(f, p, runs, n, snapshots[i].root);
    }
  }

  lemma FullGrows(f: Format, p: Params, runs: seq<Run>, n: nat, snapshots: seq<Snapshot>, snapshot: Snapshot)
    requires n < |runs| && AllFull(f, p, runs, n, snapshots)
    requires WellFormed(runs[n].q.es) && runs[n].q.es != [] && snapshot.root == ScanRoot(f, p, runs[n].q.es)
    ensures AllFull(f, p, runs, n + 1, snapshots + [snapshot])
  {
    FullStays(f, p, runs, n, snapshots);
    var more := snapshots + [snapshot];
    forall i | 0 <= i < |more|
      ensures IsFull(f, p, runs, n + 1, more[i].root)
    {
      assert i < |snapshots| ==> more[i] == snapshots[i];
    }
  }

  lemma NoneFull(f: Format, p: Params, runs: seq<Run>, start: State)
    requires start.snapshots == []
    ensures AllFull(f, p, runs, 0, StateAt(runs, start, 0).snapshots)
  {
  }

  /** A history from a server without snapshots, in which all goes right. */
  ghost predicate GoodHistory(w: World, f: Format, p: Params, depth: nat, runs: seq<Run>, start: State, end: State) {
    && IsHistory(w, f, runs, start, end) && start.snapshots == []
    && AllFit(w, f, p, depth, runs) && AllTrustworthy(Digester(w.sha, p), runs) && AllRight(w, f, runs, |runs|)
  }

  /** The parent of a run, if there is one, was recorded by an earlier one. */
  lemma ParentRun(w: World, f: Format, p: Params, depth: nat, runs: seq<Run>, start: State, end: State, n: nat)
    returns (k: nat)
    requires GoodHistory(w, f, p, depth, runs, start, end) && n < |runs| && runs[n].j.prev.Some?
    requires AllFull(f, p, runs, n, StateAt(runs, start, n).snapshots)
    ensures k < n && WellFormed(runs[k].q.es) && runs[k].q.es != []
    ensures runs[n].parent.Some? && runs[n].parent.value.root == ScanRoot(f, p, runs[k].q.es)
    ensures Closed(f, runs[n].before.contents.objects, runs[n].parent.value.root)
  {
    var now := StateAt(runs, start, n);
    RunAt(w, f, runs, start, end, n);
    ClosedSoFar(w, f, runs, start, end, |runs|, n);
    var i :| 0 <= i < |now.snapshots| && now.snapshots[i] == runs[n].parent.value;
    assert IsFull(f, p, runs, n, now.snapshots[i].root) && Closed(f, now.contents.objects, now.snapshots[i].root);
    k :| 0 <= k < n && WellFormed(runs[k].q.es) && runs[k].q.es != []
      && now.snapshots[i].root == ScanRoot(f, p, runs[k].q.es);
  }

  lemma NextWentWell(w: World, f: Format, p: Params, depth: nat, runs: seq<Run>, start: State, end: State, n: nat)
    requires GoodHistory(w, f, p, depth, runs, start, end) && n < |runs|
    requires AllFull(f, p, runs, n, StateAt(runs, start, n).snapshots)
    ensures IsRun(w, f, runs[n]) && WentWell(w, f, runs[n])
  {
    assert RightAt(w, f, runs, n) && FitRun(w, f, p, depth, runs[n]);
    if runs[n].j.prev.Some? {
      var k := ParentRun(w, f, p, depth, runs, start, end, n);
      assert FitRun(w, f, p, depth, runs[k]);
      IncrementalWentWell(w, f, runs[n], runs[k].q.es);
    }
  }

  lemma SnapshotsNext(w: World, f: Format, p: Params, depth: nat, runs: seq<Run>, start: State, end: State, n: nat,
                      m: nat)
    requires GoodHistory(w, f, p, depth, runs, start, end) && m == n + 1 <= |runs|
    requires AllFull(f, p, runs, n, StateAt(runs, start, n).snapshots)
    ensures AllFull(f, p, runs, m, StateAt(runs, start, m).snapshots)
  {
    NextWentWell(w, f, p, depth, runs, start, end, n);
    RunAt(w, f, runs, start, end, n);
    assert FitRun(w, f, p, depth, runs[n]);
    NextSnapshots(w, f, p, depth, runs, n);
  }

  lemma {:induction false} SnapshotsFull(w: World, f: Format, p: Params, depth: nat, runs: seq<Run>, start: State,
                                         end: State, n: nat)
    requires GoodHistory(w, f, p, depth, runs, start, end) && n <= |runs|
    ensures AllFull(f, p, runs, n, StateAt(runs, start, n).snapshots)
  {
    if n == 0 {
      NoneFull(f, p, runs, start);
    } else {
      SnapshotsFull(w, f, p, depth, runs, start, end, n - 1);
      SnapshotsNext(w, f, p, depth, runs, start, end, n - 1, n);
    }
  }

  lemma NextSnapshots(w: World, f: Format, p: Params, depth: nat, runs: seq<Run>, n: nat)
    requires n < |runs| && FitRun(w, f, p, depth, runs[n]) && WentWell(w, f, runs[n])
    requires AllFull(f, p, runs, n, runs[n].before.snapshots)
    ensures AllFull(f, p, runs, n + 1, runs[n].after.snapshots)
  {
    if runs[n].after.snapshots == runs[n].before.snapshots {
      FullStays(f, p, runs, n, runs[n].before.snapshots);
    } else {
      FullGrows(f, p, runs, n, runs[n].before.snapshots, LastSnapshot(runs[n]));
    }
  }

  /**
    In a good history, full or incremental, encrypted or not: every snapshot has the root of a full backup of
    its scan, and everything reachable from it is there at the end.
   */
  lemma HistoryIsFull(w: World, f: Format, p: Params, depth: nat, runs: seq<Run>, start: State, end: State)
    requires GoodHistory(w, f, p, depth, runs, start, end)
    ensures AllFull(f, p, runs, |runs|, end.snapshots) && AllClosed(f, end.contents.objects, end.snapshots)
  {
    SnapshotsFull(w, f, p, depth, runs, start, end, |runs|);
    ClosedSoFar(w, f, runs, start, end, |runs|, |runs|);
  }

  /** Whatever run recorded it, and whatever came later: a snapshot is backed up at the end. */
  lemma HistoryIsBackedUp(w: World, f: Format, p: Params, depth: nat, runs: seq<Run>, start: State, end: State, n: nat)
    requires GoodHistory(w, f, p, depth, runs, start, end) && n < |runs| && IsRecorded(w, f, runs[n])
    ensures WentWell(w, f, runs[n]) && Represents(w, end.contents)
    ensures Extends(runs[n].after.contents.objects, end.contents.objects)
    ensures JobParams(runs[n].j) == p && BackedUp(OwnReader(runs[n]), p, runs[n].q.es, end.contents)
    ensures JobRoot(runs[n].j) == ScanRoot(f, p, runs[n].q.es)
  {
    assert FitRun(w, f, p, depth, runs[n]);
    SnapshotsFull(w, f, p, depth, runs, start, end, n);
    NextWentWell(w, f, p, depth, runs, start, end, n);
    RunAt(w, f, runs, start, end, n);
    RunAt(w, f, runs, start, end, |runs| - 1);
    HistoryExtends(w, f, runs, start, end, n + 1);
    WentWellIsBackedUp(w, f, runs[n], end.contents);
  }

  /**
    So any snapshot of the history, restored with its own key from what there is at the end, comes back
    exactly if it can.
   */
  lemma HistoryIsRestored(w: World, f: Format, p: Params, depth: nat, runs: seq<Run>, start: State, end: State, n: nat,
                          answers: Answers, a: Attempt)
    requires GoodHistory(w, f, p, depth, runs, start, end) && n < |runs| && IsRecorded(w, f, runs[n])
    requires Represents(w, end.contents) && KeysApart(w, f, end.contents, runs[n].q.s.dek)
    requires Honest(end.contents.store, answers) && Fair(a, runs[n].q.es)
    requires Outcome(OwnReader(runs[n]), end.contents.store, answers, JobRoot(runs[n].j), a)
    ensures RestoredExactly(OwnReader(runs[n]), runs[n], end.contents, a)
  {
    HistoryIsBackedUp(w, f, p, depth, runs, start, end, n);
    RunIsRestored(w, f, runs[n], end.contents, answers, a);
  }

  // ----- Without encryption

  /** None of the runs encrypts. */
  ghost predicate AllRunsPlain(runs: seq<Run>) {
    forall i :: 0 <= i < |runs| ==> runs[i].q.s.dek.None?
  }

  lemma {:induction false} StaysPlain(w: World, f: Format, runs: seq<Run>, start: State, end: State, n: nat)
    requires IsHistory(w, f, runs, start, end) && AllRunsPlain(runs) && AllPlain(start.contents) && n <= |runs|
    ensures AllPlain(StateAt(runs, start, n).contents)
  {
    if n > 0 {
      StaysPlain(w, f, runs, start, end, n - 1);
      RunAt(w, f, runs, start, end, n - 1);
      PlainNext(w, f, runs[n - 1]);
    }
  }

  lemma PlainNext(w: World, f: Format, r: Run)
    requires IsRun(w, f, r) && r.q.s.dek.None? && AllPlain(r.before.contents)
    ensures AllPlain(r.after.contents)
  {
  }

  /** Where nothing is encrypted, parents are always read right: only the filters matter. */
  lemma PlainReadsRight(w: World, f: Format, r: Run)
    requires IsRun(w, f, r) && r.q.s.dek.None? && AllPlain(r.before.contents)
    ensures ReadRight(w, f, r)
  {
    PlainIsApart(w, f, r.before.contents);
  }

  /**
    In a history without encryption, any snapshot can be restored at the end exactly if no name has a backslash, no
    files hide behind equal trees and none of its chunks is misread.
   */
  lemma PlainHistoryRestores(w: World, f: Format, p: Params, depth: nat, runs: seq<Run>, start: State, end: State,
                             n: nat, answers: Answers, a: Attempt)
    requires GoodHistory(w, f, p, depth, runs, start, end) && n < |runs| && IsRecorded(w, f, runs[n])
    requires AllRunsPlain(runs) && AllPlain(start.contents) && Represents(w, end.contents)
    requires Honest(end.contents.store, answers) && Fair(a, runs[n].q.es)
    requires Outcome(OwnReader(runs[n]), end.contents.store, answers, JobRoot(runs[n].j), a)
    ensures ScanData(w, p, runs[n].q.es) <= end.contents.objects.Keys == end.contents.store.index.Keys
    ensures a.fault.None? && AllRestored(a.targetDir, runs[n].q.es, a.after.files) <==>
      && Portable(runs[n].q.es) && FileDirsDiffer(f, runs[n].q.es, FullTable(w.sha, p, runs[n].q.es))
      && forall h :: h in ScanData(w, p, runs[n].q.es) ==> !MisreadHere(w, end.contents, h)
  {
    HistoryIsBackedUp(w, f, p, depth, runs, start, end, n);
    StaysPlain(w, f, runs, start, end, |runs|);
    PlainExactly(OwnReader(runs[n]), p, runs[n].q.es, end.contents);
    HistoryIsRestored(w, f, p, depth, runs, start, end, n, answers, a);
  }

  // ----- From a new server

  /** Any number of backups to a new server, by any clients, with any parents and any filters. */
  method BackUpHistory(w: World, ghost f: Format, reliable: bool, requests: seq<Request>, ghost p: Params,
                       ghost depth: nat)
    returns (server: Server, results: seq<Result<Snapshot, Fault>>, ghost runs: seq<Run>)
    requires forall i :: 0 <= i < |requests| ==> FitRequest(w, f, requests[i])
    ensures fresh(server) && server.reliable == reliable && server.Sound(w)
    ensures |runs| == |results| == |requests|
    ensures forall i :: 0 <= i < |runs| ==> runs[i].q == requests[i]
    ensures forall i :: 0 <= i < |runs| && results[i].Ok? ==>
      runs[i].after.snapshots == runs[i].before.snapshots + [results[i].value]
    ensures reliable ==> forall i :: 0 <= i < |runs| ==> AsAsked(requests[i], results[i], runs[i])
    ensures IsHistory(w, f, runs, State(EMPTY, []), StateOf(server))
    ensures GoodHistory(w, f, p, depth, runs, State(EMPTY, []), StateOf(server)) ==>
      AllFull(f, p, runs, |runs|, server.snapshots) && AllClosed(f, server.objects, server.snapshots)
  {
    server := new Server(reliable);
    results, runs := RunBackups(w, f, server, requests);
    if GoodHistory(w, f, p, depth, runs, State(EMPTY, []), StateOf(server)) {
      HistoryIsFull(w, f, p, depth, runs, State(EMPTY, []), StateOf(server));
    }
  }
}
