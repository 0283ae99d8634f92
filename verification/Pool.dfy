/**
  The worker pool, as a machine whose steps are the atomic actions of its goroutines.  A job may
  itself take several atomic steps on state it shares with the others.
 */
module Pool {
  import opened Base

  /** What one atomic step of a job does to the shared state. */
  datatype Progress<S, E> = More(shared: S) | Succeed(shared: S) | Fail(error: E)

  /** Where a worker stands. */
  datatype Worker<T, E> =
    | Receiving                      // about to take from the channel
    | Received(item: T)              // has an item, has not looked at the first error yet
    | Cleared(item: T)               // saw no error, has not called the job yet
    | Calling(item: T, pc: nat)      // inside the job
    | Failed(item: T, error: E)      // the job returned an error that is not recorded yet
    | Gone

  /** The pool, the state the jobs share, and a record of what happened. */
  datatype State<T, S, E> = State(
    channel: seq<T>,
    workers: seq<Worker<T, E>>,
    firstErr: Option<E>,
    shared: S,
    succeeded: multiset<T>,
    failed: multiset<T>,
    dropped: multiset<T>,
    recorded: seq<E>,
    lateStarts: nat)

  /** A job: its steps, and how many of them it takes at most. */
  datatype Job<!T, !S, E> = Job(step: (T, nat, S) -> Progress<S, E>, length: T -> nat)

  ghost predicate Bounded<T(!new), S(!new), E>(job: Job<T, S, E>) {
    forall item, pc: nat, s {:trigger job.step(item, pc, s)} ::
      pc >= job.length(item) ==> !job.step(item, pc, s).More?
  }

  // ----- The machine

  function Width(items: int, concurrency: int): int {
    var c := if concurrency <= 0 then 1 else concurrency;
    if c > items then items else c
  }

  function Initial<T, S, E>(items: seq<T>, concurrency: int, shared: S): State<T, S, E> {
    State(items, seq(Width(|items|, concurrency), _ => Receiving), None, shared,
          multiset{}, multiset{}, multiset{}, [], 0)
  }

  /** Ranging over the channel: it is closed, so that an empty one ends the worker. */
  function Receive<T, S, E>(st: State<T, S, E>, i: nat): State<T, S, E>
    requires i < |st.workers|
  {
    if st.channel == [] then st.(workers := st.workers[i := Gone])
    else st.(channel := st.channel[1..], workers := st.workers[i := Received(st.channel[0])])
  }

  /** Under the lock: a worker that finds an error recorded returns without its item being processed. */
  function Check<T, S, E>(st: State<T, S, E>, i: nat, item: T): State<T, S, E>
    requires i < |st.workers|
  {
    if st.firstErr.Some? then
      st.(workers := st.workers[i := Gone], dropped := st.dropped + multiset{item})
    else
      st.(workers := st.workers[i := Cleared(item)])
  }

  function Start<T, S, E>(st: State<T, S, E>, i: nat, item: T): State<T, S, E>
    requires i < |st.workers|
  {
    st.(workers := st.workers[i := Calling(item, 0)],
        lateStarts := if st.firstErr.Some? then st.lateStarts + 1 else st.lateStarts)
  }

  function Advance<T, S, E>(st: State<T, S, E>, i: nat, item: T, pc: nat, p: Progress<S, E>): State<T, S, E>
    requires i < |st.workers|
  {
    match p
    case More(s) => st.(workers := st.workers[i := Calling(item, pc + 1)], shared := s)
    case Succeed(s) =>
      st.(workers := st.workers[i := Receiving], shared := s, succeeded := st.succeeded + multiset{item})
    case Fail(e) => st.(workers := st.workers[i := Failed(item, e)])
  }

  /** Under the lock: only the first error is kept. */
  function Record<T, S, E>(st: State<T, S, E>, i: nat, item: T, e: E): State<T, S, E>
    requires i < |st.workers|
  {
    st.(workers := st.workers[i := Gone],
        firstErr := if st.firstErr.None? then Some(e) else st.firstErr,
        failed := st.failed + multiset{item},
        recorded := st.recorded + [e])
  }

  /** Worker i takes one atomic step. */
  function Step<T, S, E>(job: Job<T, S, E>, st: State<T, S, E>, i: nat): State<T, S, E>
    requires i < |st.workers|
  {
    match st.workers[i]
    case Receiving => Receive(st, i)
    case Received(item) => Check(st, i, item)
    case Cleared(item) => Start(st, i, item)
    case Calling(item, pc) => Advance(st, i, item, pc, job.step(item, pc, st.shared))
    case Failed(item, e) => Record(st, i, item, e)
    case Gone => st
  }

  /** A schedule names the worker that moves at each step; only workers that are still there can. */
  ghost predicate IsSchedule<T, S, E>(job: Job<T, S, E>, st: State<T, S, E>, schedule: seq<nat>)
    decreases |schedule|
  {
    schedule == [] ||
    (schedule[0] < |st.workers| && !st.workers[schedule[0]].Gone? &&
     IsSchedule(job, Step(job, st, schedule[0]), schedule[1..]))
  }

  ghost function Run<T, S, E>(job: Job<T, S, E>, st: State<T, S, E>, schedule: seq<nat>): State<T, S, E>
    requires IsSchedule(job, st, schedule)
    decreases |schedule|
  {
    if schedule == [] then st else Run(job, Step(job, st, schedule[0]), schedule[1..])
  }

  /** Every worker has returned, so that the caller goes on. */
  predicate Finished<T, S, E>(st: State<T, S, E>) {
    forall i :: 0 <= i < |st.workers| ==> st.workers[i].Gone?
  }

  // ----- Sums over the workers

  ghost predicate Holds<T, E>(w: Worker<T, E>, x: T) {
    (w.Received? || w.Cleared? || w.Calling? || w.Failed?) && w.item == x
  }

  /** How many workers hold x. */
  ghost function Held<T, E>(workers: seq<Worker<T, E>>, x: T): nat {
    if workers == [] then 0 else (if Holds(workers[0], x) then 1 else 0) + Held(workers[1..], x)
  }

  lemma {:induction false} HeldUpdate<T, E>(workers: seq<Worker<T, E>>, i: nat, w: Worker<T, E>, x: T)
    requires i < |workers|
    ensures Held(workers[i := w], x) ==
            Held(workers, x) - (if Holds(workers[i], x) then 1 else 0) + (if Holds(w, x) then 1 else 0)
    ensures Holds(workers[i], x) ==> Held(workers, x) > 0
  {
    if i > 0 {
      assert workers[i := w][1..] == workers[1..][i - 1 := w];
      HeldUpdate(workers[1..], i - 1, w, x);
    } else {
      assert workers[i := w][1..] == workers[1..];
    }
  }

  function ClearedCount<T, E>(workers: seq<Worker<T, E>>): nat {
    if workers == [] then 0 else (if workers[0].Cleared? then 1 else 0) + ClearedCount(workers[1..])
  }

  lemma {:induction false} ClearedUpdate<T, E>(workers: seq<Worker<T, E>>, i: nat, w: Worker<T, E>)
    requires i < |workers|
    ensures ClearedCount(workers[i := w]) ==
            ClearedCount(workers) - (if workers[i].Cleared? then 1 else 0) + (if w.Cleared? then 1 else 0)
    ensures ClearedCount(workers) <= |workers|
    ensures !workers[i].Cleared? ==> ClearedCount(workers) <= |workers| - 1
  {
    if i > 0 {
      assert workers[i := w][1..] == workers[1..][i - 1 := w];
      ClearedUpdate(workers[1..], i - 1, w);
    } else {
      assert workers[i := w][1..] == workers[1..];
      if |workers| > 1 {
        ClearedUpdate(workers[1..], 0, workers[1]);
      }
    }
  }

  // ----- What every step keeps

  /** How often x is somewhere: queued, held by a worker, or done with one way or another. */
  ghost function Everywhere<T, S, E>(st: State<T, S, E>, x: T): nat {
    multiset(st.channel)[x] + Held(st.workers, x) + st.succeeded[x] + st.failed[x] + st.dropped[x]
  }

  ghost predicate ErrInv<T, S, E>(st: State<T, S, E>) {
    && st.firstErr == (if st.recorded == [] then None else Some(st.recorded[0]))
    && |st.failed| == |st.recorded|
    && (st.firstErr.None? ==> st.lateStarts == 0 && |st.dropped| == 0)
    && (st.firstErr.Some? ==> st.lateStarts + ClearedCount(st.workers) <= |st.workers| - 1)
    && (st.firstErr.None? && st.channel != [] ==> forall i :: 0 <= i < |st.workers| ==> !st.workers[i].Gone?)
  }

  ghost predicate Inv<T(!new), S, E>(items: seq<T>, st: State<T, S, E>) {
    (forall x :: Everywhere(st, x) == multiset(items)[x]) && ErrInv(st)
  }

  lemma {:induction false} NothingHeld<T(!new), E>(workers: seq<Worker<T, E>>)
    requires forall i :: 0 <= i < |workers| ==> workers[i].Receiving? || workers[i].Gone?
    ensures (forall x :: Held(workers, x) == 0) && ClearedCount(workers) == 0
  {
    if workers != [] {
      assert workers[0].Receiving? || workers[0].Gone?;
      NothingHeld(workers[1..]);
    }
  }

  lemma InitialInv<T(!new), S, E>(items: seq<T>, concurrency: int, shared: S)
    ensures Inv(items, Initial<T, S, E>(items, concurrency, shared))
  {
    NothingHeld(Initial<T, S, E>(items, concurrency, shared).workers);
  }

  lemma ReceiveConserves<T, S, E>(st: State<T, S, E>, i: nat, x: T)
    requires i < |st.workers| && st.workers[i].Receiving?
    ensures Everywhere(Receive(st, i), x) == Everywhere(st, x)
  {
    HeldUpdate(st.workers, i, Receive(st, i).workers[i], x);
    if st.channel != [] {
      assert st.channel == [st.channel[0]] + st.channel[1..];
    }
  }

  lemma AdvanceConserves<T, S, E>(st: State<T, S, E>, i: nat, item: T, pc: nat, p: Progress<S, E>, x: T)
    requires i < |st.workers| && st.workers[i] == Calling(item, pc)
    ensures Everywhere(Advance(st, i, item, pc, p), x) == Everywhere(st, x)
  {
    HeldUpdate(st.workers, i, Advance(st, i, item, pc, p).workers[i], x);
  }

  lemma CheckConserves<T, S, E>(st: State<T, S, E>, i: nat, item: T, x: T)
    requires i < |st.workers| && st.workers[i] == Received(item)
    ensures Everywhere(Check(st, i, item), x) == Everywhere(st, x)
  {
    HeldUpdate(st.workers, i, Check(st, i, item).workers[i], x);
  }

  lemma RecordConserves<T, S, E>(st: State<T, S, E>, i: nat, item: T, e: E, x: T)
    requires i < |st.workers| && st.workers[i] == Failed(item, e)
    ensures Everywhere(Record(st, i, item, e), x) == Everywhere(st, x)
  {
    HeldUpdate(st.workers, i, Gone, x);
  }

  /** The items move from channel to worker to outcome; none is lost or doubled. */
  lemma StepConserves<T, S, E>(job: Job<T, S, E>, st: State<T, S, E>, i: nat, x: T)
    requires i < |st.workers|
    ensures Everywhere(Step(job, st, i), x) == Everywhere(st, x)
  {
    match st.workers[i]
    case Receiving => ReceiveConserves(st, i, x);
    case Received(item) => CheckConserves(st, i, item, x);
    case Cleared(item) => HeldUpdate(st.workers, i, Calling(item, 0), x);
    case Calling(item, pc) => AdvanceConserves(st, i, item, pc, job.step(item, pc, st.shared), x);
    case Failed(item, e) => RecordConserves(st, i, item, e, x);
    case Gone =>
  }

  lemma ReceiveErrInv<T, S, E>(st: State<T, S, E>, i: nat)
    requires i < |st.workers| && st.workers[i].Receiving? && ErrInv(st)
    ensures ErrInv(Receive(st, i))
  {
    ClearedUpdate(st.workers, i, Receive(st, i).workers[i]);
  }

  lemma RecordErrInv<T, S, E>(st: State<T, S, E>, i: nat, item: T, e: E)
    requires i < |st.workers| && st.workers[i] == Failed(item, e) && ErrInv(st)
    ensures ErrInv(Record(st, i, item, e))
  {
    ClearedUpdate(st.workers, i, Gone);
  }

  lemma CheckErrInv<T, S, E>(st: State<T, S, E>, i: nat, item: T)
    requires i < |st.workers| && st.workers[i] == Received(item) && ErrInv(st)
    ensures ErrInv(Check(st, i, item))
  {
    ClearedUpdate(st.workers, i, Check(st, i, item).workers[i]);
  }

  lemma StartErrInv<T, S, E>(st: State<T, S, E>, i: nat, item: T)
    requires i < |st.workers| && st.workers[i] == Cleared(item) && ErrInv(st)
    ensures ErrInv(Start(st, i, item))
  {
    ClearedUpdate(st.workers, i, Calling(item, 0));
  }

  lemma AdvanceErrInv<T, S, E>(st: State<T, S, E>, i: nat, item: T, pc: nat, p: Progress<S, E>)
    requires i < |st.workers| && st.workers[i] == Calling(item, pc) && ErrInv(st)
    ensures ErrInv(Advance(st, i, item, pc, p))
  {
    ClearedUpdate(st.workers, i, Advance(st, i, item, pc, p).workers[i]);
  }

  lemma StepErrInv<T, S, E>(job: Job<T, S, E>, st: State<T, S, E>, i: nat)
    requires i < |st.workers| && ErrInv(st)
    ensures ErrInv(Step(job, st, i))
  {
    match st.workers[i]
    case Receiving => ReceiveErrInv(st, i);
    case Received(item) => CheckErrInv(st, i, item);
    case Cleared(item) => StartErrInv(st, i, item);
    case Calling(item, pc) => AdvanceErrInv(st, i, item, pc, job.step(item, pc, st.shared));
    case Failed(item, e) => RecordErrInv(st, i, item, e);
    case Gone =>
  }

  lemma StepInv<T(!new), S, E>(job: Job<T, S, E>, items: seq<T>, st: State<T, S, E>, i: nat)
    requires i < |st.workers| && Inv(items, st)
    ensures Inv(items, Step(job, st, i))
  {
    forall x
      ensures Everywhere(Step(job, st, i), x) == multiset(items)[x]
    {
      StepConserves(job, st, i, x);
    }
    StepErrInv(job, st, i);
  }

  lemma {:induction false} RunInv<T(!new), S, E>(job: Job<T, S, E>, items: seq<T>, st: State<T, S, E>,
                                    schedule: seq<nat>)
    requires Inv(items, st) && IsSchedule(job, st, schedule)
    ensures Inv(items, Run(job, st, schedule))
    ensures |Run(job, st, schedule).workers| == |st.workers|
    decreases |schedule|
  {
    if schedule != [] {
      StepInv(job, items, st, schedule[0]);
      RunInv(job, items, Step(job, st, schedule[0]), schedule[1..]);
    }
  }

  /**
    Whatever the interleaving, once the pool has finished: no error means that the job ran on every
    item once and succeeded; an error is the first one recorded, and it was some job's.
   */
  lemma Outcome<T(!new), S, E>(job: Job<T, S, E>, items: seq<T>, concurrency: int, shared: S, schedule: seq<nat>)
    requires IsSchedule(job, Initial(items, concurrency, shared), schedule)
    requires Finished(Run(job, Initial(items, concurrency, shared), schedule))
    ensures var end := Run(job, Initial(items, concurrency, shared), schedule);
            && (end.firstErr.None? <==> end.succeeded == multiset(items))
            && (end.firstErr.None? ==> end.failed == multiset{} && end.dropped == multiset{})
            && (end.firstErr.Some? <==> end.failed != multiset{})
            && (end.firstErr.Some? ==> end.recorded != [] && end.firstErr.value == end.recorded[0])
            && |end.failed| == |end.recorded|
  {
    var st := Initial<T, S, E>(items, concurrency, shared);
    var end := Run(job, st, schedule);
    InitialInv<T, S, E>(items, concurrency, shared);
    RunInv(job, items, st, schedule);
    NothingHeld(end.workers);
    if end.firstErr.None? {
      assert end.dropped == multiset{} && end.failed == multiset{};
      assert end.channel != [] ==> |end.workers| == 0;
    } else {
      var x :| x in end.failed;
      assert end.succeeded[x] < Everywhere(end, x) == multiset(items)[x];
    }
  }

  /** At no time are more calls under way than the concurrency asked for, and few start after an error. */
  lemma FewLateStarts<T(!new), S, E>(job: Job<T, S, E>, items: seq<T>, concurrency: int, shared: S, schedule: seq<nat>)
    requires IsSchedule(job, Initial(items, concurrency, shared), schedule)
    ensures var now := Run(job, Initial(items, concurrency, shared), schedule);
            && |now.workers| == Width(|items|, concurrency)
            && (concurrency >= 1 ==> |now.workers| <= concurrency)
            && (now.lateStarts > 0 ==> now.lateStarts <= Width(|items|, concurrency) - 1)
  {
    InitialInv<T, S, E>(items, concurrency, shared);
    RunInv(job, items, Initial(items, concurrency, shared), schedule);
  }

  // ----- Every run ends

  function QueueWork<T>(length: T -> nat, channel: seq<T>): nat {
    if channel == [] then 0 else 5 + length(channel[0]) + QueueWork(length, channel[1..])
  }

  function WorkOf<T, E>(length: T -> nat, w: Worker<T, E>): nat {
    match w
    case Receiving => 1
    case Received(item) => 5 + length(item)
    case Cleared(item) => 4 + length(item)
    case Calling(item, pc) => 3 + (if pc <= length(item) then length(item) - pc else 0)
    case Failed(_, _) => 2
    case Gone => 0
  }

  function WorkersWork<T, E>(length: T -> nat, workers: seq<Worker<T, E>>): nat {
    if workers == [] then 0 else WorkOf(length, workers[0]) + WorkersWork(length, workers[1..])
  }

  function Work<T, S, E>(job: Job<T, S, E>, st: State<T, S, E>): nat {
    QueueWork(job.length, st.channel) + WorkersWork(job.length, st.workers)
  }

  lemma {:induction false} WorkUpdate<T, E>(length: T -> nat, workers: seq<Worker<T, E>>, i: nat, w: Worker<T, E>)
    requires i < |workers|
    ensures WorkersWork(length, workers[i := w]) ==
      WorkersWork(length, workers) - WorkOf(length, workers[i]) + WorkOf(length, w)
  {
    if i > 0 {
      assert workers[i := w][1..] == workers[1..][i - 1 := w];
      WorkUpdate(length, workers[1..], i - 1, w);
    } else {
      assert workers[i := w][1..] == workers[1..];
    }
  }

  lemma StepWorks<T(!new), S(!new), E>(job: Job<T, S, E>, st: State<T, S, E>, i: nat)
    requires i < |st.workers| && !st.workers[i].Gone? && Bounded(job)
    ensures Work(job, Step(job, st, i)) < Work(job, st)
  {
    match st.workers[i]
    case Receiving => ReceiveWorks(job, st, i);
    case Received(item) => WorkUpdate(job.length, st.workers, i, Check(st, i, item).workers[i]);
    case Cleared(item) => WorkUpdate(job.length, st.workers, i, Calling(item, 0));
    case Calling(item, pc) => AdvanceWorks(job, st, i, item, pc);
    case Failed(item, e) => WorkUpdate(job.length, st.workers, i, Gone);
  }

  lemma ReceiveWorks<T, S, E>(job: Job<T, S, E>, st: State<T, S, E>, i: nat)
    requires i < |st.workers| && st.workers[i].Receiving?
    ensures Work(job, Receive(st, i)) < Work(job, st)
  {
    WorkUpdate(job.length, st.workers, i, Receive(st, i).workers[i]);
  }

  lemma AdvanceWorks<T(!new), S(!new), E>(job: Job<T, S, E>, st: State<T, S, E>, i: nat, item: T, pc: nat)
    requires i < |st.workers| && st.workers[i] == Calling(item, pc) && Bounded(job)
    ensures Work(job, Advance(st, i, item, pc, job.step(item, pc, st.shared))) < Work(job, st)
  {
    WorkUpdate(job.length, st.workers, i, Advance(st, i, item, pc, job.step(item, pc, st.shared)).workers[i]);
  }

  /** No schedule is longer than the work there is at the start; so every run ends. */
  lemma {:induction false} RunsEnd<T(!new), S(!new), E>(job: Job<T, S, E>, st: State<T, S, E>, schedule: seq<nat>)
    requires IsSchedule(job, st, schedule) && Bounded(job)
    ensures |schedule| <= Work(job, st)
    ensures |schedule| == Work(job, st) ==> Finished(Run(job, st, schedule))
    decreases |schedule|
  {
    if schedule != [] {
      StepWorks(job, st, schedule[0]);
      RunsEnd(job, Step(job, st, schedule[0]), schedule[1..]);
    } else if Work(job, st) == 0 {
      NoWorkLeft(job.length, st.workers);
    }
  }

  lemma {:induction false} NoWorkLeft<T, E>(length: T -> nat, workers: seq<Worker<T, E>>)
    requires WorkersWork(length, workers) == 0
    ensures forall i :: 0 <= i < |workers| ==> workers[i].Gone?
  {
    if workers != [] {
      NoWorkLeft(length, workers[1..]);
      assert forall i :: 1 <= i < |workers| ==> workers[i] == workers[1..][i - 1];
    }
  }

  // ----- What the jobs do to the state they share

  /** A property of the shared state that every job step keeps holds all along. */
  lemma {:induction false} RunKeeps<T(!new), S(!new), E>(job: Job<T, S, E>, st: State<T, S, E>, schedule: seq<nat>,
                                              items: seq<T>, keeps: S -> bool)
    requires IsSchedule(job, st, schedule) && Inv(items, st) && keeps(st.shared)
    requires forall item, pc: nat, s {:trigger job.step(item, pc, s)} :: item in items && keeps(s) ==>
               job.step(item, pc, s).Fail? || keeps(job.step(item, pc, s).shared)
    ensures keeps(Run(job, st, schedule).shared)
    decreases |schedule|
  {
    if schedule != [] {
      var i := schedule[0];
      StepInv(job, items, st, i);
      if st.workers[i].Calling? {
        HeldUpdate(st.workers, i, st.workers[i], st.workers[i].item);
        assert st.workers[i].item in multiset(items);
      }
      RunKeeps(job, Step(job, st, i), schedule[1..], items, keeps);
    }
  }

  /** No job step fails on items that satisfy ok, as long as the shared state does. */
  ghost predicate NeverFails<T(!new), S(!new), E>(job: Job<T, S, E>, items: seq<T>, keeps: S -> bool) {
    forall item, pc: nat, s {:trigger job.step(item, pc, s)} :: item in items && keeps(s) ==>
      !job.step(item, pc, s).Fail? && keeps(job.step(item, pc, s).shared)
  }

  ghost predicate NoneFailed<T, S, E>(st: State<T, S, E>) {
    st.firstErr.None? && forall i :: 0 <= i < |st.workers| ==> !st.workers[i].Failed?
  }

  /** Jobs that cannot fail leave no error behind, in any interleaving. */
  lemma {:induction false} NoErrors<T(!new), S(!new), E>(job: Job<T, S, E>, st: State<T, S, E>, schedule: seq<nat>,
                                              items: seq<T>, keeps: S -> bool)
    requires IsSchedule(job, st, schedule) && Inv(items, st) && keeps(st.shared) && NoneFailed(st)
    requires NeverFails(job, items, keeps)
    ensures Run(job, st, schedule).firstErr.None?
    decreases |schedule|
  {
    if schedule != [] {
      StepInv(job, items, st, schedule[0]);
      StepNoneFailed(job, st, schedule[0], items, keeps);
      NoErrors(job, Step(job, st, schedule[0]), schedule[1..], items, keeps);
    }
  }

  lemma StepNoneFailed<T(!new), S(!new), E>(job: Job<T, S, E>, st: State<T, S, E>, i: nat, items: seq<T>,
                         keeps: S -> bool)
    requires i < |st.workers| && Inv(items, st) && keeps(st.shared) && NoneFailed(st) && NeverFails(job, items, keeps)
    ensures NoneFailed(Step(job, st, i)) && keeps(Step(job, st, i).shared)
  {
    if st.workers[i].Calling? {
      CallsOnItems(st, i, items);
      StepNeverFails(job, st, i, items, keeps);
    }
  }

  lemma CallsOnItems<T(!new), S, E>(st: State<T, S, E>, i: nat, items: seq<T>)
    requires i < |st.workers| && Inv(items, st) && st.workers[i].Calling?
    ensures st.workers[i].item in items
  {
    HeldUpdate(st.workers, i, st.workers[i], st.workers[i].item);
    assert Everywhere(st, st.workers[i].item) == multiset(items)[st.workers[i].item];
    assert st.workers[i].item in multiset(items);
  }

  lemma StepNeverFails<T(!new), S(!new), E>(job: Job<T, S, E>, st: State<T, S, E>, i: nat, items: seq<T>,
                         keeps: S -> bool)
    requires i < |st.workers| && st.workers[i].Calling? && st.workers[i].item in items
    requires keeps(st.shared) && NoneFailed(st) && NeverFails(job, items, keeps)
    ensures NoneFailed(Step(job, st, i)) && keeps(Step(job, st, i).shared)
  {
    assert !job.step(st.workers[i].item, st.workers[i].pc, st.shared).Fail?;
  }

  /**
    What jobs leave behind: reached says how far a job has come, done that it is over; later steps of
    any job undo neither.
   */
  ghost predicate LeavesBehind<T(!new), S(!new), E>(job: Job<T, S, E>, reached: (T, nat, S) -> bool,
                                                    done: (T, S) -> bool) {
    Leads(job, reached, done) && Lasts(job, reached, done)
  }

  ghost predicate Leads<T(!new), S(!new), E>(job: Job<T, S, E>, reached: (T, nat, S) -> bool, done: (T, S) -> bool) {
    && (forall item, s {:trigger reached(item, 0, s)} :: reached(item, 0, s))
    && (forall item, pc: nat, s {:trigger job.step(item, pc, s)} :: reached(item, pc, s) ==>
          match job.step(item, pc, s)
          case More(s') => reached(item, pc + 1, s')
          case Succeed(s') => done(item, s')
          case Fail(_) => true)
  }

  ghost predicate Lasts<T(!new), S(!new), E>(job: Job<T, S, E>, reached: (T, nat, S) -> bool, done: (T, S) -> bool) {
    && (forall item, pc: nat, s, y, q: nat {:trigger job.step(item, pc, s), reached(y, q, s)} ::
          reached(y, q, s) && !job.step(item, pc, s).Fail? ==> reached(y, q, job.step(item, pc, s).shared))
    && (forall item, pc: nat, s, y {:trigger job.step(item, pc, s), done(y, s)} ::
          done(y, s) && !job.step(item, pc, s).Fail? ==> done(y, job.step(item, pc, s).shared))
  }

  ghost predicate Behind<T(!new), S, E>(st: State<T, S, E>, reached: (T, nat, S) -> bool, done: (T, S) -> bool) {
    && (forall i :: 0 <= i < |st.workers| && st.workers[i].Calling? ==>
          reached(st.workers[i].item, st.workers[i].pc, st.shared))
    && (forall x :: x in st.succeeded ==> done(x, st.shared))
  }

  /** Every item that succeeded has left its mark on the final shared state. */
  lemma {:induction false} RunLeavesBehind<T(!new), S(!new), E>(job: Job<T, S, E>, st: State<T, S, E>,
                                                                schedule: seq<nat>, reached: (T, nat, S) -> bool,
                                                                done: (T, S) -> bool)
    requires IsSchedule(job, st, schedule) && LeavesBehind(job, reached, done) && Behind(st, reached, done)
    ensures Behind(Run(job, st, schedule), reached, done)
    decreases |schedule|
  {
    if schedule != [] {
      StepLeavesBehind(job, st, schedule[0], reached, done);
      RunLeavesBehind(job, Step(job, st, schedule[0]), schedule[1..], reached, done);
    }
  }

  lemma StepLeavesBehind<T(!new), S(!new), E>(job: Job<T, S, E>, st: State<T, S, E>, i: nat,
                                              reached: (T, nat, S) -> bool, done: (T, S) -> bool)
    requires i < |st.workers| && LeavesBehind(job, reached, done) && Behind(st, reached, done)
    ensures Behind(Step(job, st, i), reached, done)
  {
    var st' := Step(job, st, i);
    if st.workers[i].Calling? {
      var w := st.workers[i];
      var p := job.step(w.item, w.pc, st.shared);
      assert p.More? ==> reached(w.item, w.pc + 1, p.shared);
      assert p.Succeed? ==> done(w.item, p.shared);
    } else if st.workers[i].Cleared? {
      assert reached(st.workers[i].item, 0, st.shared);
    }
  }

  /** Every job step keeps the property. */
  ghost predicate Keeping<T(!new), S(!new), E>(job: Job<T, S, E>, items: seq<T>, keeps: S -> bool) {
    forall item, pc: nat, s {:trigger job.step(item, pc, s)} :: item in items && keeps(s) ==>
      job.step(item, pc, s).Fail? || keeps(job.step(item, pc, s).shared)
  }

  /** A whole run: what is kept holds at the end, and without an error every item has left its mark. */
  lemma WholeRun<T(!new), S(!new), E>(job: Job<T, S, E>, items: seq<T>, concurrency: int, shared: S, schedule: seq<nat>,
                                      keeps: S -> bool, reached: (T, nat, S) -> bool, done: (T, S) -> bool)
    requires IsSchedule(job, Initial(items, concurrency, shared), schedule)
    requires Finished(Run(job, Initial(items, concurrency, shared), schedule))
    requires keeps(shared) && Keeping(job, items, keeps) && LeavesBehind(job, reached, done)
    ensures var end := Run(job, Initial(items, concurrency, shared), schedule);
            keeps(end.shared) && (end.firstErr.None? ==> forall x :: x in items ==> done(x, end.shared))
  {
    var st := Initial<T, S, E>(items, concurrency, shared);
    InitialInv<T, S, E>(items, concurrency, shared);
    RunKeeps(job, st, schedule, items, keeps);
    Outcome(job, items, concurrency, shared, schedule);
    RunLeavesBehind(job, st, schedule, reached, done);
    var end := Run(job, st, schedule);
    if end.firstErr.None? {
      forall x | x in items
        ensures done(x, end.shared)
      {
        assert x in end.succeeded;
      }
    }
  }

  /** Jobs that cannot fail give no error. */
  lemma FlawlessRun<T(!new), S(!new), E>(job: Job<T, S, E>, items: seq<T>, concurrency: int, shared: S,
                      schedule: seq<nat>,
                                         keeps: S -> bool)
    requires IsSchedule(job, Initial(items, concurrency, shared), schedule)
    requires keeps(shared) && NeverFails(job, items, keeps)
    ensures Run(job, Initial(items, concurrency, shared), schedule).firstErr.None?
  {
    InitialInv<T, S, E>(items, concurrency, shared);
    NoErrors(job, Initial(items, concurrency, shared), schedule, items, keeps);
  }

  // ----- The pool as it runs

  lemma {:induction false} RunSnoc<T(!new), S, E>(job: Job<T, S, E>, st: State<T, S, E>, schedule: seq<nat>, i: nat)
    requires IsSchedule(job, st, schedule)
    requires i < |Run(job, st, schedule).workers| && !Run(job, st, schedule).workers[i].Gone?
    ensures IsSchedule(job, st, schedule + [i]) && Run(job, st, schedule + [i]) == Step(job, Run(job, st, schedule), i)
    decreases |schedule|
  {
    if schedule == [] {
      assert [i][1..] == [] && schedule + [i] == [i];
      var st' := Step(job, st, i);
      assert IsSchedule(job, st', []);
      assert Run(job, st, [i]) == Run(job, st', [i][1..]);
    } else {
      assert (schedule + [i])[1..] == schedule[1..] + [i];
      RunSnoc(job, Step(job, st, schedule[0]), schedule[1..], i);
    }
  }

  /** Any worker that is still there; which one moves is up to the scheduler. */
  method AnyWorker<T, E>(workers: seq<Worker<T, E>>) returns (next: Option<nat>)
    ensures next.None? ==> forall i :: 0 <= i < |workers| ==> workers[i].Gone?
    ensures next.Some? ==> next.value < |workers| && !workers[next.value].Gone?
  {
    next := None;
    var i := 0;
    while i < |workers|
      invariant i <= |workers|
      invariant next.None? ==> forall k :: 0 <= k < i ==> workers[k].Gone?
      invariant next.Some? ==> next.value < |workers| && !workers[next.value].Gone?
    {
      var preferred: bool := *;
      if !workers[i].Gone? && (next.None? || preferred) {
        next := Some(i);
      }
      i := i + 1;
    }
  }

  /** Runs a job on all items, in some interleaving; returns the first error. */
  method Parallel<T(!new, ==), S(!new), E>(job: Job<T, S, E>, items: seq<T>, concurrency: int, shared: S)
    returns (err: Option<E>, shared': S, ghost schedule: seq<nat>)
    requires Bounded(job)
    ensures IsSchedule(job, Initial(items, concurrency, shared), schedule)
    ensures var end := Run(job, Initial(items, concurrency, shared), schedule);
            Finished(end) && err == end.firstErr && shared' == end.shared
    ensures items == [] ==> err.None? && shared' == shared
  {
    var st := Initial(items, concurrency, shared);
    schedule := [];
    var next: Option<nat> := AnyWorker(st.workers);
    while next.Some?
      invariant IsSchedule(job, Initial(items, concurrency, shared), schedule)
      invariant st == Run(job, Initial(items, concurrency, shared), schedule)
      invariant items == [] ==> st == Initial(items, concurrency, shared)
      invariant next.None? ==> Finished(st)
      invariant next.Some? ==> 0 <= next.value < |st.workers| && !st.workers[next.value].Gone?
      decreases Work(job, st), next.Some?
    {
      StepWorks(job, st, next.value);
      RunSnoc(job, Initial(items, concurrency, shared), schedule, next.value);
      schedule := schedule + [next.value];
      st := Step(job, st, next.value);
      next := AnyWorker(st.workers);
    }
    err, shared' := st.firstErr, st.shared;
  }

  // ----- Batches

  function Lesser(a: nat, b: nat): nat {
    if a <= b then a else b
  }

  function Batches<T>(items: seq<T>, size: nat): seq<seq<T>>
    requires size > 0
  {
    if items == [] then []
    else [items[..Lesser(|items|, size)]] + Batches(items[Lesser(|items|, size)..], size)
  }

  /** The batches partition the list, in order, into full pieces and perhaps a shorter last one. */
  lemma {:induction false} BatchesPartition<T>(items: seq<T>, size: nat)
    requires size > 0
    ensures Concat(Batches(items, size)) == items
    ensures forall i :: 0 <= i < |Batches(items, size)| ==> 1 <= |Batches(items, size)[i]| <= size
    ensures forall i :: 0 <= i < |Batches(items, size)| - 1 ==> |Batches(items, size)[i]| == size
  {
    if items != [] {
      var n := Lesser(|items|, size);
      var rest := Batches(items[n..], size);
      BatchesPartition(items[n..], size);
      assert items == items[..n] + items[n..];
      assert Batches(items, size)[1..] == rest;
      if rest != [] {
        assert n == size;
      }
    }
  }

  lemma BatchAgain<T>(items: seq<T>, size: nat, i: nat, end: nat, out: seq<seq<T>>)
    requires size > 0 && i < |items| && end == Lesser(i + size, |items|)
    ensures out + Batches(items[i..], size) == out + [items[i..end]] + Batches(items[end..], size)
  {
    var rest := items[i..];
    var n := Lesser(|rest|, size);
    assert n == end - i;
    assert rest[..n] == items[i..end] && rest[n..] == items[end..];
    assert out + ([items[i..end]] + Batches(items[end..], size)) == out + [items[i..end]] + Batches(items[end..], size);
  }

  /** Splits a list into consecutive pieces of one size, the last of them perhaps shorter. */
  method Batch<T>(items: seq<T>, size: nat) returns (out: seq<seq<T>>)
    requires size > 0
    ensures out == Batches(items, size)
  {
    out := [];
    var i := 0;
    assert items[0..] == items;
    while i < |items|
      invariant out + Batches(items[Lesser(i, |items|)..], size) == Batches(items, size)
    {
      var end := i + size;
      if end > |items| {
        end := |items|;
      }
      BatchAgain(items, size, i, end, out);
      out := out + [items[i..end]];
      i := i + size;
    }
    assert out + [] == out;
  }
}
