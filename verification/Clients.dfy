/**
  Several clients that back up to one server at the same time: each begins by asking for the filter and its parent's
  index, puts its packs one after the other, and then records its snapshot; and their requests arrive in any order.
 */
module Clients {
  import opened Base
  import opened Primitives
  import opened PackStore
  import opened Merkle
  import opened Closure
  import opened Uploads
  import opened Backup
  import opened Runs

  /** What a backup does to a server: the packs it makes, with the contents of their chunks, and its wrapped key. */
  datatype Client = Client(j: Job, bloom: Str -> bool, packs: seq<seq<PackChunk>>, raws: seq<seq<Bytes>>, wrapped: Str)

  /** The packs are what the two phases of the backup make. */
  ghost predicate IsClient(w: World, f: Format, c: Client) {
    && Fit(c.j) && c.j.s.w == w && c.j.s.format == f && c.j.es != [] && |c.raws| == |c.packs|
    && (forall k {:trigger c.packs[k]} :: 0 <= k < |c.packs| ==> Stored(w, c.j.s.dek, c.packs[k], c.raws[k]))
    && UploadsOf(c.j, c.bloom, Concat(c.packs))
  }

  ghost predicate AreClients(w: World, f: Format, clients: seq<Client>) {
    forall i {:trigger IsClient(w, f, clients[i])} :: 0 <= i < |clients| ==> IsClient(w, f, clients[i])
  }

  /** The server, what it held when each client began (if it has), and how many packs each has put. */
  datatype Scene = Scene(st: State, met: seq<Option<Objects>>, done: seq<nat>)

  datatype Event = Begin(client: nat) | Put(client: nat) | Record(client: nat)

  ghost predicate Enabled(clients: seq<Client>, s: Scene, e: Event) {
    && |s.done| == |s.met| == |clients| && e.client < |clients|
    && match e
       case Begin(i) => s.met[i].None?
       case Put(i) => s.met[i].Some? && s.done[i] < |clients[i].packs|
       case Record(i) => s.met[i].Some? && s.done[i] == |clients[i].packs|
  }

  ghost function Step(w: World, f: Format, clients: seq<Client>, s: Scene, e: Event): Scene
    requires AreClients(w, f, clients) && Enabled(clients, s, e)
  {
    var c := clients[e.client];
    assert IsClient(w, f, c);
    match e
    case Begin(i) => s.(met := s.met[i := Some(s.st.contents.objects)])
    case Put(i) =>
      s.(st := s.st.(contents := WithPack(s.st.contents, c.j.s.dek, c.packs[s.done[i]], c.raws[s.done[i]])),
         done := s.done[i := s.done[i] + 1])
    case Record(i) => s.(st := s.st.(snapshots := s.st.snapshots + [Snapshot(JobRoot(c.j), c.wrapped)]))
  }

  // ----- What every step keeps

  /** What the first k packs of a client hold is on the server. */
  ghost predicate PacksThere(c: Client, k: nat, objects: Objects) {
    k <= |c.packs| && forall i :: 0 <= i < k ==> Hashes(c.packs[i]) <= objects.Keys
  }

  /** The filter and the parent's index are right about what is there. */
  ghost predicate IsRight(w: World, f: Format, c: Client, objects: Objects)
    requires IsClient(w, f, c)
  {
    FilterRight(c.j, c.bloom, objects) && IndexHere(c.j.prev, objects)
  }

  /** What a client was told when it began, if it has, was right, and all that it has put is there. */
  ghost predicate KeepsUp(w: World, f: Format, c: Client, met: Option<Objects>, done: nat, objects: Objects)
    requires IsClient(w, f, c)
  {
    PacksThere(c, done, objects) && (met.Some? ==> Extends(met.value, objects) && IsRight(w, f, c, met.value))
  }

  ghost predicate Inv(w: World, f: Format, clients: seq<Client>, s: Scene)
    requires AreClients(w, f, clients)
  {
    && Represents(w, s.st.contents) && |s.done| == |s.met| == |clients|
    && (forall i {:trigger IsClient(w, f, clients[i])} :: 0 <= i < |clients| ==>
          IsClient(w, f, clients[i]) && KeepsUp(w, f, clients[i], s.met[i], s.done[i], s.st.contents.objects))
    && AllClosed(f, s.st.contents.objects, s.st.snapshots)
  }

  /** What a client is told when it begins is right. */
  ghost predicate RightEvent(w: World, f: Format, clients: seq<Client>, s: Scene, e: Event)
    requires AreClients(w, f, clients) && Enabled(clients, s, e)
  {
    var c := clients[e.client];
    assert IsClient(w, f, c);
    e.Begin? ==> IsRight(w, f, c, s.st.contents.objects)
  }

  /** What was right when a client began is right ever after, whatever others put in between. */
  lemma StaysRight(j: Job, bloom: Str -> bool, objects: Objects, objects': Objects)
    requires Fit(j) && Extends(objects, objects')
    ensures FilterRight(j, bloom, objects) ==> FilterRight(j, bloom, objects')
    ensures IndexHere(j.prev, objects) ==> IndexHere(j.prev, objects')
  {
  }

  lemma PutGrows(w: World, dek: Option<Bytes>, c: Contents, chunks: seq<PackChunk>, raws: seq<Bytes>)
    requires HashLaw(w) && Represents(w, c) && Stored(w, dek, chunks, raws)
    ensures Represents(w, WithPack(c, dek, chunks, raws))
    ensures Extends(c.objects, WithPack(c, dek, chunks, raws).objects)
    ensures Hashes(chunks) <= WithPack(c, dek, chunks, raws).objects.Keys
  {
    FlushRepresents(w, dek, c, chunks, raws);
    AddObjectsKeys(c.objects, chunks, raws);
    SoundIsKeyed(w, c);
    SoundIsKeyed(w, WithPack(c, dek, chunks, raws));
    KeyedExtends(w, c.objects, WithPack(c, dek, chunks, raws).objects);
  }

  lemma BeginKeeps(w: World, f: Format, clients: seq<Client>, s: Scene, e: Event)
    requires AreClients(w, f, clients) && Enabled(clients, s, e) && e.Begin? && Inv(w, f, clients, s)
    requires RightEvent(w, f, clients, s, e)
    ensures Inv(w, f, clients, Step(w, f, clients, s, e))
  {
    var s' := Step(w, f, clients, s, e);
    forall i | 0 <= i < |clients|
      ensures IsClient(w, f, clients[i])
      ensures KeepsUp(w, f, clients[i], s'.met[i], s'.done[i], s'.st.contents.objects)
    {
      assert IsClient(w, f, clients[i]);
    }
  }

  lemma KeepsUpStays(w: World, f: Format, c: Client, met: Option<Objects>, done: nat, objects: Objects,
                     objects': Objects)
    requires IsClient(w, f, c) && KeepsUp(w, f, c, met, done, objects) && Extends(objects, objects')
    ensures KeepsUp(w, f, c, met, done, objects')
    ensures done < |c.packs| && Hashes(c.packs[done]) <= objects'.Keys ==> KeepsUp(w, f, c, met, done + 1, objects')
  {
    if met.Some? {
      ExtendsTransitive(met.value, objects, objects');
    }
  }

  lemma PutKeeps(w: World, f: Format, clients: seq<Client>, s: Scene, e: Event)
    requires AreClients(w, f, clients) && Enabled(clients, s, e) && e.Put? && Inv(w, f, clients, s)
    ensures Inv(w, f, clients, Step(w, f, clients, s, e))
  {
    var c, n := clients[e.client], s.done[e.client];
    var s' := Step(w, f, clients, s, e);
    var objects, objects' := s.st.contents.objects, s'.st.contents.objects;
    assert IsClient(w, f, c);
    PutGrows(w, c.j.s.dek, s.st.contents, c.packs[n], c.raws[n]);
    AllClosedGrows(f, objects, objects', s.st.snapshots);
    forall i | 0 <= i < |clients|
      ensures IsClient(w, f, clients[i])
      ensures KeepsUp(w, f, clients[i], s'.met[i], s'.done[i], objects')
    {
      assert IsClient(w, f, clients[i]);
      KeepsUpStays(w, f, clients[i], s.met[i], s.done[i], objects, objects');
    }
  }

  /** All that a client has appended is in its packs. */
  lemma {:induction false} AppendedIsPacked(packs: seq<seq<PackChunk>>, c: PackChunk) returns (i: nat)
    requires c in Concat(packs)
    ensures i < |packs| && c in packs[i]
    decreases |packs|
  {
    if c in packs[0] {
      i := 0;
    } else {
      i := AppendedIsPacked(packs[1..], c);
      i := i + 1;
    }
  }

  /** Once all packs of a client are there, its root is closed exactly if its filter is right about what is there. */
  lemma RecordExactly(w: World, f: Format, c: Client, contents: Contents)
    requires IsClient(w, f, c) && Represents(w, contents) && PacksThere(c, |c.packs|, contents.objects)
    requires IndexHere(c.j.prev, contents.objects)
    ensures Closed(f, contents.objects, JobRoot(c.j)) <==> FilterRight(c.j, c.bloom, contents.objects)
  {
    var objects := contents.objects;
    forall h, kind | UploadedAs(Concat(c.packs), h, kind)
      ensures h in objects
    {
      var chunk :| chunk in Concat(c.packs) && chunk.hash == h && chunk.kind == kind;
      var i := AppendedIsPacked(c.packs, chunk);
      assert h in Hashes(c.packs[i]);
    }
    UploadsSuffice(c.j, c.bloom, Concat(c.packs), objects);
    SoundIsKeyed(w, contents);
    ClosedIffFilterRight(c.j, c.bloom, objects, objects);
  }

  lemma RecordKeeps(w: World, f: Format, clients: seq<Client>, s: Scene, e: Event)
    requires AreClients(w, f, clients) && Enabled(clients, s, e) && e.Record? && Inv(w, f, clients, s)
    ensures Inv(w, f, clients, Step(w, f, clients, s, e))
  {
    var c := clients[e.client];
    var s' := Step(w, f, clients, s, e);
    assert IsClient(w, f, c) && KeepsUp(w, f, c, s.met[e.client], s.done[e.client], s.st.contents.objects);
    StaysRight(c.j, c.bloom, s.met[e.client].value, s.st.contents.objects);
    RecordExactly(w, f, c, s.st.contents);
    ClosedOneMore(f, s.st.contents.objects, s.st.snapshots, s'.st.snapshots[|s.st.snapshots|]);
    assert AllClosed(f, s'.st.contents.objects, s'.st.snapshots);
  }

  lemma ClosedOneMore(f: Format, objects: Objects, snapshots: seq<Snapshot>, snapshot: Snapshot)
    requires AllClosed(f, objects, snapshots) && Closed(f, objects, snapshot.root)
    ensures AllClosed(f, objects, snapshots + [snapshot])
  {
  }

  // ----- Any number of steps

  ghost predicate Possible(w: World, f: Format, clients: seq<Client>, s: Scene, events: seq<Event>)
    requires AreClients(w, f, clients)
    decreases |events|
  {
    events == [] ||
    (Enabled(clients, s, events[0]) && RightEvent(w, f, clients, s, events[0]) &&
     Possible(w, f, clients, Step(w, f, clients, s, events[0]), events[1..]))
  }

  ghost function After(w: World, f: Format, clients: seq<Client>, s: Scene, events: seq<Event>): Scene
    requires AreClients(w, f, clients) && Possible(w, f, clients, s, events)
    decreases |events|
  {
    if events == [] then s else After(w, f, clients, Step(w, f, clients, s, events[0]), events[1..])
  }

  /**
    In every interleaving of any clients, plain or encrypted, each of which was told what is right when it began,
    everything reachable from any snapshot is there.
   */
  lemma {:induction false} InterleavedCloses(w: World, f: Format, clients: seq<Client>, s: Scene, events: seq<Event>)
    requires AreClients(w, f, clients) && Inv(w, f, clients, s) && Possible(w, f, clients, s, events)
    ensures Inv(w, f, clients, After(w, f, clients, s, events))
    decreases |events|
  {
    if events != [] {
      match events[0] {
        case Begin(_) => BeginKeeps(w, f, clients, s, events[0]);
        case Put(_) => PutKeeps(w, f, clients, s, events[0]);
        case Record(_) => RecordKeeps(w, f, clients, s, events[0]);
      }
      InterleavedCloses(w, f, clients, Step(w, f, clients, s, events[0]), events[1..]);
    }
  }
}
