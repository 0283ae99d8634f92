/**
  Rotation of the tenant key: many runs, over many snapshots, each of which reads a wrapping,
  rewraps it and writes it back, may overlap with the others, crash, and be tried again.
 */
module Rotation {
  import opened Base
  import opened Primitives
  import opened Codec
  import opened Encrypt

  type Id = Str

  datatype Run =
    | Begun(id: Id)
    | HasRead(id: Id, wrapped: Str)
    | Completed(id: Id, changed: bool)
    | Stopped(id: Id)  // crashed, or reported an error

  /** The wrappings on the server (empty for an unencrypted snapshot) and the runs so far. */
  datatype State = State(wrappings: map<Id, Str>, runs: seq<Run>)

  /** The two keys of the rotation. */
  datatype Keys = Keys(before: Bytes, after: Bytes)

  datatype Event =
    | Begin(id: Id)                            // a run, or another attempt
    | Read(run: nat)
    | Finish(run: nat, nonce: Bytes)           // rewrap, and write if there is something to write
    | FinishUnheard(run: nat, nonce: Bytes)    // the same, but the answer of the server is lost
    | Stop(run: nat)

  ghost predicate Enabled(st: State, e: Event) {
    match e
    case Begin(_) => true
    case Read(i) => i < |st.runs| && st.runs[i].Begun?
    case Finish(i, nonce) => i < |st.runs| && st.runs[i].HasRead? && |nonce| == NONCE_SIZE
    case FinishUnheard(i, nonce) => i < |st.runs| && st.runs[i].HasRead? && |nonce| == NONCE_SIZE
    case Stop(i) => i < |st.runs| && (st.runs[i].Begun? || st.runs[i].HasRead?)
  }

  function ReadStep(st: State, i: nat): State
    requires i < |st.runs| && st.runs[i].Begun?
  {
    var id := st.runs[i].id;
    if id !in st.wrappings || st.wrappings[id] == [] then st.(runs := st.runs[i := Stopped(id)])
    else st.(runs := st.runs[i := HasRead(id, st.wrappings[id])])
  }

  function FinishStep(w: World, keys: Keys, st: State, i: nat, nonce: Bytes, heard: bool): State
    requires i < |st.runs| && st.runs[i].HasRead?
  {
    var id := st.runs[i].id;
    match RewrapDek(w, keys.before, keys.after, nonce, st.runs[i].wrapped)
    case Err(_) => st.(runs := st.runs[i := Stopped(id)])
    case Ok((rewrapped, changed)) =>
      if !changed then st.(runs := st.runs[i := Completed(id, false)])
      else State(st.wrappings[id := rewrapped], st.runs[i := if heard then Completed(id, true) else Stopped(id)])
  }

  function Step(w: World, keys: Keys, st: State, e: Event): State
    requires Enabled(st, e)
  {
    match e
    case Begin(id) => st.(runs := st.runs + [Begun(id)])
    case Read(i) => ReadStep(st, i)
    case Finish(i, nonce) => FinishStep(w, keys, st, i, nonce, true)
    case FinishUnheard(i, nonce) => FinishStep(w, keys, st, i, nonce, false)
    case Stop(i) => st.(runs := st.runs[i := Stopped(st.runs[i].id)])
  }

  ghost predicate Possible(w: World, keys: Keys, st: State, events: seq<Event>)
    decreases |events|
  {
    events == [] || (Enabled(st, events[0]) && Possible(w, keys, Step(w, keys, st, events[0]), events[1..]))
  }

  ghost function After(w: World, keys: Keys, st: State, events: seq<Event>): State
    requires Possible(w, keys, st, events)
    decreases |events|
  {
    if events == [] then st else After(w, keys, Step(w, keys, st, events[0]), events[1..])
  }

  // ----- The invariant

  /** The wrapping gives up dek to exactly one of the two keys. */
  ghost predicate Recovers(w: World, keys: Keys, wrapped: Str, dek: Bytes) {
    wrapped != [] &&
    ((UnwrapDek(w, keys.before, wrapped) == Ok(dek) && UnwrapDek(w, keys.after, wrapped).Err?) ||
     (UnwrapDek(w, keys.before, wrapped).Err? && UnwrapDek(w, keys.after, wrapped) == Ok(dek)))
  }

  ghost predicate OpensUnder(w: World, key: Bytes, wrapped: Str) {
    UnwrapDek(w, key, wrapped).Ok?
  }

  ghost predicate Assumptions(w: World, keys: Keys) {
    CipherLaw(w) && Base64Law(w) && GoodKey(keys.before) && GoodKey(keys.after) && Separate(w, keys.before, keys.after)
  }

  /** deks holds the data key of every encrypted snapshot. */
  ghost predicate Inv(w: World, keys: Keys, deks: map<Id, Bytes>, st: State) {
    && (forall id :: id in st.wrappings && st.wrappings[id] != [] <==> id in deks)
    && (forall id :: id in deks ==> Recovers(w, keys, st.wrappings[id], deks[id]))
    && (forall i :: 0 <= i < |st.runs| && st.runs[i].HasRead? ==>
          st.runs[i].id in deks && Recovers(w, keys, st.runs[i].wrapped, deks[st.runs[i].id]) &&
          (OpensUnder(w, keys.after, st.runs[i].wrapped) ==> OpensUnder(w, keys.after, st.wrappings[st.runs[i].id])))
    && (forall i :: 0 <= i < |st.runs| && st.runs[i].Completed? ==>
          st.runs[i].id in deks && OpensUnder(w, keys.after, st.wrappings[st.runs[i].id]))
  }

  /** Rewrapping keeps the data key and ends under the new key; it changes only what was under the old one. */
  lemma RewrapKeeps(w: World, keys: Keys, wrapped: Str, dek: Bytes, nonce: Bytes)
    requires Assumptions(w, keys) && Recovers(w, keys, wrapped, dek) && |nonce| == NONCE_SIZE
    ensures RewrapDek(w, keys.before, keys.after, nonce, wrapped).Ok?
    ensures var (rewrapped, changed) := RewrapDek(w, keys.before, keys.after, nonce, wrapped).value;
            && Recovers(w, keys, rewrapped, dek) && OpensUnder(w, keys.after, rewrapped)
            && (changed <==> OpensUnder(w, keys.before, wrapped))
            && (!changed ==> rewrapped == wrapped)
  {
    UnwrapWrap(w, keys.after, nonce, dek);
    UnwrapOther(w, keys.after, keys.before, nonce, dek);
  }

  lemma FinishKeepsInv(w: World, keys: Keys, deks: map<Id, Bytes>, st: State, i: nat, nonce: Bytes, heard: bool)
    requires Assumptions(w, keys) && Inv(w, keys, deks, st)
    requires i < |st.runs| && st.runs[i].HasRead? && |nonce| == NONCE_SIZE
    ensures Inv(w, keys, deks, FinishStep(w, keys, st, i, nonce, heard))
  {
    RewrapKeeps(w, keys, st.runs[i].wrapped, deks[st.runs[i].id], nonce);
  }

  lemma StepKeepsInv(w: World, keys: Keys, deks: map<Id, Bytes>, st: State, e: Event)
    requires Assumptions(w, keys) && Inv(w, keys, deks, st) && Enabled(st, e)
    ensures Inv(w, keys, deks, Step(w, keys, st, e))
  {
    match e
    case Finish(i, nonce) => FinishKeepsInv(w, keys, deks, st, i, nonce, true);
    case FinishUnheard(i, nonce) => FinishKeepsInv(w, keys, deks, st, i, nonce, false);
    case _ =>
  }

  lemma {:induction false} InvAlways(w: World, keys: Keys, deks: map<Id, Bytes>, st: State, events: seq<Event>)
    requires Assumptions(w, keys) && Inv(w, keys, deks, st) && Possible(w, keys, st, events)
    ensures Inv(w, keys, deks, After(w, keys, st, events))
    decreases |events|
  {
    if events != [] {
      StepKeepsInv(w, keys, deks, st, events[0]);
      InvAlways(w, keys, deks, Step(w, keys, st, events[0]), events[1..]);
    }
  }

  // ----- The theorems

  /** The data keys of wrappings that open under the old key or the new one, but not under both. */
  ghost predicate Ready(w: World, keys: Keys, deks: map<Id, Bytes>, wrappings: map<Id, Str>) {
    && (forall id :: id in wrappings && wrappings[id] != [] <==> id in deks)
    && (forall id :: id in deks ==> Recovers(w, keys, wrappings[id], deks[id]))
  }

  /** In every run of the protocol no data key is ever lost, changed, or open to both tenant keys. */
  lemma DataKeysSurvive(w: World, keys: Keys, deks: map<Id, Bytes>, wrappings: map<Id, Str>, events: seq<Event>)
    requires Assumptions(w, keys) && Ready(w, keys, deks, wrappings)
    requires Possible(w, keys, State(wrappings, []), events)
    ensures Ready(w, keys, deks, After(w, keys, State(wrappings, []), events).wrappings)
  {
    InvAlways(w, keys, deks, State(wrappings, []), events);
  }

  /** Some run for the snapshot has completed. */
  ghost predicate HasCompleted(st: State, id: Id) {
    exists i :: 0 <= i < |st.runs| && st.runs[i].Completed? && st.runs[i].id == id
  }

  ghost predicate AllCompleted(deks: map<Id, Bytes>, st: State) {
    forall id :: id in deks ==> HasCompleted(st, id)
  }

  /** Once a run has completed for a snapshot, its wrapping opens under the new key only. */
  lemma RotationCompletes(w: World, keys: Keys, deks: map<Id, Bytes>, wrappings: map<Id, Str>, events: seq<Event>,
                          id: Id)
    requires Assumptions(w, keys) && Ready(w, keys, deks, wrappings) && id in deks
    requires Possible(w, keys, State(wrappings, []), events)
    requires HasCompleted(After(w, keys, State(wrappings, []), events), id)
    ensures var end := After(w, keys, State(wrappings, []), events).wrappings;
            id in end && UnwrapDek(w, keys.after, end[id]) == Ok(deks[id]) && UnwrapDek(w, keys.before, end[id]).Err?
  {
    InvAlways(w, keys, deks, State(wrappings, []), events);
  }

  ghost predicate AllRotated(w: World, keys: Keys, deks: map<Id, Bytes>, wrappings: map<Id, Str>) {
    Ready(w, keys, deks, wrappings) && forall id :: id in deks ==> OpensUnder(w, keys.after, wrappings[id])
  }

  /** What the run has read, if anything, is what the server still has. */
  ghost predicate UpToDate(st: State, i: nat)
    requires i < |st.runs|
  {
    match st.runs[i]
    case HasRead(id, wrapped) => id in st.wrappings && st.wrappings[id] == wrapped && wrapped != []
    case _ => true
  }

  ghost predicate AllUpToDate(st: State) {
    forall i {:trigger UpToDate(st, i)} :: 0 <= i < |st.runs| ==> UpToDate(st, i)
  }

  /** The run has not completed with a change since st0. */
  ghost predicate Changeless(st0: State, st: State, i: nat)
    requires i < |st.runs|
  {
    st.runs[i].Completed? && st.runs[i].changed ==> i < |st0.runs| && st0.runs[i] == st.runs[i]
  }

  /** Since st0 nothing has been written, and no run has reported a change. */
  ghost predicate Quiet(st0: State, st: State) {
    && st.wrappings == st0.wrappings && AllUpToDate(st)
    && forall i {:trigger Changeless(st0, st, i)} :: 0 <= i < |st.runs| ==> Changeless(st0, st, i)
  }

  lemma QuietStep(w: World, keys: Keys, deks: map<Id, Bytes>, st0: State, st: State, e: Event)
    requires Assumptions(w, keys) && AllRotated(w, keys, deks, st0.wrappings) && Quiet(st0, st) && Enabled(st, e)
    ensures Quiet(st0, Step(w, keys, st, e))
  {
    var st' := Step(w, keys, st, e);
    if e.Finish? || e.FinishUnheard? {
      assert UpToDate(st, e.run);
      RewrapKeeps(w, keys, st.runs[e.run].wrapped, deks[st.runs[e.run].id], e.nonce);
    }
    forall i | 0 <= i < |st'.runs|
      ensures UpToDate(st', i) && Changeless(st0, st', i)
    {
      if i < |st.runs| {
        assert UpToDate(st, i) && Changeless(st0, st, i);
      }
    }
  }

  lemma {:induction false} QuietAlways(w: World, keys: Keys, deks: map<Id, Bytes>, st0: State, st: State,
                                       events: seq<Event>)
    requires Assumptions(w, keys) && AllRotated(w, keys, deks, st0.wrappings) && Quiet(st0, st)
    requires Possible(w, keys, st, events)
    ensures Quiet(st0, After(w, keys, st, events))
    decreases |events|
  {
    if events != [] {
      QuietStep(w, keys, deks, st0, st, events[0]);
      QuietAlways(w, keys, deks, st0, Step(w, keys, st, events[0]), events[1..]);
    }
  }

  /**
    Once a run has completed for every encrypted snapshot, and no run that read an older wrapping is
    still going, no run of any kind writes anything or reports a change any more.
   */
  lemma RotatedStaysPut(w: World, keys: Keys, deks: map<Id, Bytes>, wrappings: map<Id, Str>, events: seq<Event>,
                        more: seq<Event>)
    requires Assumptions(w, keys) && Ready(w, keys, deks, wrappings)
    requires Possible(w, keys, State(wrappings, []), events)
    requires var st := After(w, keys, State(wrappings, []), events);
             AllCompleted(deks, st) && AllUpToDate(st) && Possible(w, keys, st, more)
    ensures var st := After(w, keys, State(wrappings, []), events);
            Quiet(st, After(w, keys, st, more))
  {
    var st := After(w, keys, State(wrappings, []), events);
    InvAlways(w, keys, deks, State(wrappings, []), events);
    assert AllRotated(w, keys, deks, st.wrappings);
    forall i | 0 <= i < |st.runs|
      ensures Changeless(st, st, i)
    {
    }
    QuietAlways(w, keys, deks, st, st, more);
  }

  // ----- One run against the server

  /** What one undisturbed run makes of a wrapping. */
  function RotateOne(w: World, keys: Keys, nonce: Bytes, wrapped: Str): Result<(Str, bool), Fault> {
    if wrapped == [] then Err(Missing) else RewrapDek(w, keys.before, keys.after, nonce, wrapped)
  }

  /** The wrapping gives up dek to the new key alone. */
  ghost predicate RecoversAfter(w: World, keys: Keys, wrapped: Str, dek: Bytes) {
    UnwrapDek(w, keys.before, wrapped).Err? && UnwrapDek(w, keys.after, wrapped) == Ok(dek)
  }

  class Server {
    const reliable: bool  // it gets every request, and its answers arrive
    var wrappings: map<Id, Str>

    constructor (wrappings: map<Id, Str>, reliable: bool)
      ensures this.wrappings == wrappings && this.reliable == reliable
    {
      this.wrappings, this.reliable := wrappings, reliable;
    }

    /** The request may fail before it reaches the server, or its answer may be lost. */
    method UpdateWrapping(id: Id, wrapped: Str) returns (ok: bool)
      requires id in wrappings
      modifies this`wrappings
      ensures wrappings == old(wrappings)[id := wrapped] || (!ok && wrappings == old(wrappings))
      ensures reliable ==> ok
    {
      var lost: bool := *;
      if lost && !reliable {
        return false;
      }
      wrappings := wrappings[id := wrapped];
      lost := *;
      ok := !lost || reliable;
    }

    method RotateSnapshotTmk(w: World, keys: Keys, id: Id, nonce: Bytes) returns (r: Result<bool, Fault>)
      modifies this`wrappings
      ensures id !in old(wrappings) ==> r.Err? && wrappings == old(wrappings)
      ensures id in old(wrappings) ==>
        match RotateOne(w, keys, nonce, old(wrappings)[id])
        case Err(e) => r == Err(e) && wrappings == old(wrappings)
        case Ok((_, false)) => r == Ok(false) && wrappings == old(wrappings)
        case Ok((rewrapped, true)) =>
          && (r == Ok(true) || r == Err(Unavailable))
          && (wrappings == old(wrappings)[id := rewrapped] || (r.Err? && wrappings == old(wrappings)))
          && (reliable ==> r == Ok(true) && wrappings == old(wrappings)[id := rewrapped])
      ensures reliable && Assumptions(w, keys) && |nonce| == NONCE_SIZE && id in old(wrappings) ==>
        forall dek :: Recovers(w, keys, old(wrappings)[id], dek) ==>
          && r == Ok(OpensUnder(w, keys.before, old(wrappings)[id]))
          && id in wrappings && RecoversAfter(w, keys, wrappings[id], dek)
    {
      if id !in wrappings {
        return Err(Unavailable);
      }
      var wrapped := wrappings[id];
      if wrapped == [] {
        return Err(Missing);
      }
      var rewrap := RewrapDek(w, keys.before, keys.after, nonce, wrapped);
      if Assumptions(w, keys) && |nonce| == NONCE_SIZE {
        forall dek | Recovers(w, keys, wrapped, dek)
          ensures rewrap.Ok? && RecoversAfter(w, keys, rewrap.value.0, dek)
          ensures rewrap.value.1 <==> OpensUnder(w, keys.before, wrapped)
        {
          RewrapKeeps(w, keys, wrapped, dek, nonce);
        }
      }
      if rewrap.Err? {
        return Err(rewrap.error);
      }
      if !rewrap.value.1 {
        return Ok(false);
      }
      var ok := UpdateWrapping(id, rewrap.value.0);
      return if ok then Ok(true) else Err(Unavailable);
    }
  }
}
