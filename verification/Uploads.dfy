/** The server, and the pack buffer through which a backup reaches it. */
module Uploads {
  import opened Base
  import opened Primitives
  import opened Encrypt
  import opened PackStore
  import opened Merkle
  import opened Closure
  import opened Chunking
  import opened Chunkers

  const PACK_TARGET_SIZE: nat := 256 * 1024 * 1024

  // ----- Where the entries of an index come from

  /** What an entry of the index says about an upload, apart from its place. */
  datatype Label = Label(hash: Str, kind: Kind, compression: Str)

  function LabelOf(c: PackChunk): Label {
    Label(c.hash, c.kind, c.compression)
  }

  function Labels(chunks: seq<PackChunk>): set<Label> {
    set c | c in chunks :: LabelOf(c)
  }

  /** An entry is as it was, or was uploaded under that hash, as that kind and with that compression. */
  ghost predicate Accounted(store: Store, store': Store, labels: set<Label>, h: Str)
    requires h in store'.index
  {
    || (h in store.index && store'.index[h] == store.index[h])
    || Label(h, store'.index[h].kind, store'.index[h].compression) in labels
  }

  ghost predicate Grown(store: Store, store': Store, labels: set<Label>) {
    forall h {:trigger Accounted(store, store', labels, h)} :: h in store'.index ==> Accounted(store, store', labels, h)
  }

  lemma FlushGrows(store: Store, chunks: seq<PackChunk>)
    ensures Grown(store, Flushed(store, chunks), Labels(chunks))
    ensures Flushed(store, chunks).index.Keys == store.index.Keys + Hashes(chunks)
  {
    var ls := Locations(|store.packs|, chunks, 0);
    LocationsLength(|store.packs|, chunks, 0);
    ConfirmKeys(store.index, chunks, ls);
    RegionsHold(|store.packs|, chunks, []);
    var index' := Confirm(store.index, chunks, ls);
    forall h | h in index'
      ensures Accounted(store, Flushed(store, chunks), Labels(chunks), h)
    {
      if !(h in store.index && index'[h] == store.index[h]) {
        var i :| 0 <= i < |chunks| && chunks[i].hash == h && index'[h] == ls[i];
        assert chunks[i] in chunks;
        assert LabelOf(chunks[i]) == Label(h, index'[h].kind, index'[h].compression);
      }
    }
  }

  lemma GrownTransitive(a: Store, b: Store, c: Store, labels: set<Label>)
    requires Grown(a, b, labels) && Grown(b, c, labels)
    ensures Grown(a, c, labels)
  {
    forall h | h in c.index
      ensures Accounted(a, c, labels, h)
    {
      assert Accounted(b, c, labels, h);
      assert h in b.index ==> Accounted(a, b, labels, h);
    }
  }

  lemma GrownMore(a: Store, b: Store, labels: set<Label>, labels': set<Label>)
    requires Grown(a, b, labels) && labels <= labels'
    ensures Grown(a, b, labels')
  {
    forall h | h in b.index
      ensures Accounted(a, b, labels', h)
    {
      assert Accounted(a, b, labels, h);
    }
  }

  // ----- The server

  /** A snapshot as the server records it: the root of its trees, and its wrapped data key, empty if there is none. */
  datatype Snapshot = Snapshot(root: Str, wrapped: Str)

  class Server {
    const reliable: bool                     // whether every request is answered
    var store: Store
    ghost var keys: map<Str, Option<Bytes>>  // under which data key each object was stored
    ghost var objects: Objects               // what the hashes of the store stand for
    var snapshots: seq<Snapshot>

    constructor (reliable: bool)
      ensures Now() == EMPTY && snapshots == [] && this.reliable == reliable
    {
      this.reliable := reliable;
      store, keys, objects, snapshots := EMPTY_STORE, map[], map[], [];
    }

    ghost function Now(): Contents
      reads this
    {
      Contents(store, keys, objects)
    }

    ghost predicate Sound(w: World)
      reads this
    {
      Represents(w, Now())
    }

    /** Puts a pack and confirms it.  The request may fail at either step, and the last answer may be lost. */
    method UploadPack(w: World, dek: Option<Bytes>, chunks: seq<PackChunk>, ghost raws: seq<Bytes>) returns (ok: bool)
      requires HashLaw(w) && Sound(w) && Stored(w, dek, chunks, raws)
      modifies this`store, this`keys, this`objects
      ensures Sound(w) && Follows(dek, old(Now()), Now())
      ensures ok ==> Now() == WithPack(old(Now()), dek, chunks, raws)
      ensures ok ==> objects.Keys == old(objects.Keys) + Hashes(chunks)
      ensures reliable ==> ok
    {
      ghost var before := Now();
      var fails: bool := *;
      if fails && !reliable {
        return false;
      }
      var flushed := Flushed(store, chunks);
      EntriesHoldMorePacks(w, before, PackData(chunks));
      store := Store(flushed.packs, store.index);
      fails := *;
      if fails && !reliable {
        return false;
      }
      FlushRepresents(w, dek, before, chunks, raws);
      AddObjectsKeys(before.objects, chunks, raws);
      store := flushed;
      keys := SealedUnder(keys, chunks, dek);
      objects := AddObjects(objects, chunks, raws);
      SoundIsKeyed(w, before);
      SoundIsKeyed(w, Now());
      KeyedExtends(w, before.objects, objects);
      SealedUnderIs(before.keys, chunks, dek);
      var lost: bool := *;
      ok := reliable || !lost;
    }

    /** Records a snapshot.  The answer may be lost, and the request may fail. */
    method CreateSnapshot(snapshot: Snapshot) returns (ok: bool)
      modifies this`snapshots
      ensures snapshots == old(snapshots) + [snapshot] || (!ok && snapshots == old(snapshots))
      ensures reliable ==> ok
    {
      var fails: bool := *;
      if fails && !reliable {
        return false;
      }
      snapshots := snapshots + [snapshot];
      var lost: bool := *;
      ok := reliable || !lost;
    }
  }

  lemma SoundIsKeyed(w: World, c: Contents)
    requires Represents(w, c)
    ensures Keyed(w, c.objects)
  {
    forall h | h in c.objects
      ensures w.sha(c.objects[h]) == h
    {
      assert EntryFits(w, c, h);
    }
  }

  // ----- What a server goes through

  /** Whatever an object was stored under before, or else this key. */
  ghost predicate KeysFrom(keys0: map<Str, Option<Bytes>>, keys: map<Str, Option<Bytes>>, dek: Option<Bytes>) {
    forall h :: h in keys ==> keys[h] == dek || (h in keys0 && keys[h] == keys0[h])
  }

  /** Nothing was lost, and all that was stored since was stored under dek. */
  ghost predicate Follows(dek: Option<Bytes>, c0: Contents, c: Contents) {
    Extends(c0.objects, c.objects) && KeysFrom(c0.keys, c.keys, dek)
  }

  // ----- How far a backup has come

  /** What a backup works with; and whether the files of the scan can all be read to their end. */
  datatype Settings = Settings(w: World, format: Format, compress: bool, dek: Option<Bytes>, options: ChunkOptions,
                               gear: GearTable, readable: bool)

  /**
    How far a backup has come that met the server as c0: the server is sound and has lost nothing; what
    is new on it was appended; and all that was appended is there or is buffered.
   */
  ghost predicate IsProgress(s: Settings, c: Contents, chunks: seq<PackChunk>, appended: seq<PackChunk>, c0: Contents) {
    && Represents(s.w, c) && Follows(s.dek, c0, c)
    && Grown(c0.store, c.store, Labels(appended)) && Labels(chunks) <= Labels(appended)
    && (forall a {:trigger Arrived(c, chunks, a)} :: a in appended ==> Arrived(c, chunks, a))
  }

  /** It is on the server, or waits to be flushed. */
  ghost predicate Arrived(c: Contents, chunks: seq<PackChunk>, a: PackChunk) {
    a.hash in c.objects || a.hash in Hashes(chunks)
  }

  /** The hash was uploaded, or is about to be, as an object of that kind. */
  ghost predicate UploadedAs(appended: seq<PackChunk>, h: Str, kind: Kind) {
    exists c :: c in appended && c.hash == h && c.kind == kind
  }

  lemma UploadedStays(appended: seq<PackChunk>, c: PackChunk)
    ensures UploadedAs(appended + [c], c.hash, c.kind)
    ensures forall h, kind :: UploadedAs(appended, h, kind) ==> UploadedAs(appended + [c], h, kind)
  {
    assert c in appended + [c];
    forall h, kind | UploadedAs(appended, h, kind)
      ensures UploadedAs(appended + [c], h, kind)
    {
      var c' :| c' in appended && c'.hash == h && c'.kind == kind;
      assert c' in appended + [c];
    }
  }

  /** Once nothing is buffered any more, all that was ever appended is on the server. */
  lemma UploadsArrive(s: Settings, c: Contents, appended: seq<PackChunk>, c0: Contents)
    requires IsProgress(s, c, [], appended, c0)
    ensures forall h, kind :: UploadedAs(appended, h, kind) ==> h in c.objects
  {
    forall a | a in appended
      ensures a.hash in c.objects
    {
      assert Arrived(c, [], a);
    }
  }

  lemma AppendKeepsProgress(s: Settings, c: Contents, chunks: seq<PackChunk>, appended: seq<PackChunk>, c0: Contents,
                            chunk: PackChunk)
    requires IsProgress(s, c, chunks, appended, c0)
    ensures IsProgress(s, c, chunks + [chunk], appended + [chunk], c0)
    ensures Hashes(chunks + [chunk]) == Hashes(chunks) + {chunk.hash}
  {
    OneMoreLabel(appended, chunk);
    OneMoreLabel(chunks, chunk);
    GrownMore(c0.store, c.store, Labels(appended), Labels(appended + [chunk]));
    forall a | a in appended + [chunk]
      ensures Arrived(c, chunks + [chunk], a)
    {
      assert a in appended ==> Arrived(c, chunks, a);
    }
  }

  lemma OneMoreLabel(chunks: seq<PackChunk>, c: PackChunk)
    ensures Labels(chunks + [c]) == Labels(chunks) + {LabelOf(c)}
    ensures Hashes(chunks + [c]) == Hashes(chunks) + {c.hash}
  {
  }

  lemma FlushKeepsProgress(s: Settings, c: Contents, chunks: seq<PackChunk>, appended: seq<PackChunk>, c0: Contents,
                           c': Contents)
    requires IsProgress(s, c, chunks, appended, c0)
    requires Represents(s.w, c') && Follows(s.dek, c, c')
    requires c'.store == Flushed(c.store, chunks)
    ensures IsProgress(s, c', [], appended, c0)
  {
    FlushGrows(c.store, chunks);
    GrownMore(c.store, c'.store, Labels(chunks), Labels(appended));
    GrownTransitive(c0.store, c.store, c'.store, Labels(appended));
    assert Labels([]) == {};
    forall a | a in appended
      ensures Arrived(c', [], a)
    {
      assert Arrived(c, chunks, a);
    }
  }

  /** The store and the keys are those that the packs make of what was there. */
  ghost predicate MadeBy(c0: Contents, c: Contents, packs: seq<seq<PackChunk>>, dek: Option<Bytes>) {
    c.store == StoreAfter(c0.store, packs) && c.keys == SealedUnder(c0.keys, Concat(packs), dek)
  }

  lemma MadeByNone(c: Contents, dek: Option<Bytes>)
    ensures MadeBy(c, c, [], dek)
  {
  }

  lemma MadeByMore(c0: Contents, c: Contents, packs: seq<seq<PackChunk>>, dek: Option<Bytes>, chunks: seq<PackChunk>,
                   c': Contents)
    requires MadeBy(c0, c, packs, dek) && c'.store == Flushed(c.store, chunks)
    requires c'.keys == SealedUnder(c.keys, chunks, dek)
    ensures MadeBy(c0, c', packs + [chunks], dek)
  {
    OnePackMore(c0.store, packs, chunks);
    ConcatAppend(packs, [chunks]);
    ConcatOne(chunks);
    SealedInTwo(c0.keys, Concat(packs), chunks, dek);
  }

  /** One more pack on the server, and nothing buffered. */
  lemma PackKeepsProgress(s: Settings, c: Contents, chunks: seq<PackChunk>, raws: seq<Bytes>, appended: seq<PackChunk>,
                          packs: seq<seq<PackChunk>>, c0: Contents, c': Contents)
    requires IsProgress(s, c, chunks, appended, c0) && MadeBy(c0, c, packs, s.dek) && |raws| == |chunks|
    requires c' == WithPack(c, s.dek, chunks, raws) && Represents(s.w, c') && Follows(s.dek, c, c')
    ensures IsProgress(s, c', [], appended, c0) && MadeBy(c0, c', packs + [chunks], s.dek)
  {
    FlushKeepsProgress(s, c, chunks, appended, c0, c');
    MadeByMore(c0, c, packs, s.dek, chunks, c');
  }

  /** Uploads some chunks as a pack; with it on the server nothing is buffered. */
  method UploadBuffered(s: Settings, server: Server, chunks: seq<PackChunk>, ghost raws: seq<Bytes>,
                        ghost appended: seq<PackChunk>,
                      ghost packs: seq<seq<PackChunk>>, ghost c0: Contents) returns (ok: bool)
    requires HashLaw(s.w) && Stored(s.w, s.dek, chunks, raws)
    requires IsProgress(s, server.Now(), chunks, appended, c0) && MadeBy(c0, server.Now(), packs, s.dek)
    modifies server`store, server`keys, server`objects
    ensures server.Sound(s.w) && Follows(s.dek, old(server.Now()), server.Now())
    ensures ok ==> server.objects.Keys == old(server.objects.Keys) + Hashes(chunks)
    ensures ok ==> IsProgress(s, server.Now(), [], appended, c0) && MadeBy(c0, server.Now(), packs + [chunks], s.dek)
    ensures server.reliable ==> ok
  {
    ghost var before := server.Now();
    ok := server.UploadPack(s.w, s.dek, chunks, raws);
    if ok {
      PackKeepsProgress(s, before, chunks, raws, appended, packs, c0, server.Now());
    }
  }

  class PackBuffer {
    var chunks: seq<PackChunk>
    var totalSize: nat
    ghost var raws: seq<Bytes>               // the contents of the chunks
    ghost var flushed: seq<seq<PackChunk>>   // the packs that have been flushed
    ghost var appended: seq<PackChunk>       // all chunks ever appended, in order

    constructor ()
      ensures chunks == [] && totalSize == 0 && raws == [] && flushed == [] && appended == []
    {
      chunks, totalSize, raws, flushed, appended := [], 0, [], [], [];
    }

    /** The size is that of the chunks, which are stored forms; the packs are those the appended chunks make. */
    ghost predicate Valid(s: Settings)
      reads this
    {
      && totalSize == TotalSize(chunks)
      && Stored(s.w, s.dek, chunks, raws)
      && Packed(PACK_TARGET_SIZE, appended, Packing(chunks, flushed))
    }

    ghost predicate Progress(s: Settings, server: Server, c0: Contents)
      reads this, server
    {
      IsProgress(s, server.Now(), chunks, appended, c0) && MadeBy(c0, server.Now(), flushed, s.dek)
    }

    /** Uploads what is buffered, if anything, and empties the buffer. */
    method Flush(s: Settings, server: Server, ghost c0: Contents) returns (ok: bool)
      requires HashLaw(s.w) && Stored(s.w, s.dek, chunks, raws) && Progress(s, server, c0)
      modifies this`chunks, this`totalSize, this`raws, this`flushed, server`store, server`keys, server`objects
      ensures server.Sound(s.w) && Follows(s.dek, old(server.Now()), server.Now())
      ensures ok ==> chunks == [] && raws == [] && totalSize == if old(chunks) == [] then old(totalSize) else 0
      ensures ok ==> server.objects.Keys == old(server.objects.Keys) + Hashes(old(chunks))
      ensures ok ==> Packing(chunks, flushed) == FlushRest(old(Packing(chunks, flushed))) && Progress(s, server, c0)
      ensures server.reliable ==> ok
    {
      if |chunks| == 0 {
        assert Hashes(chunks) == {};
        return true;
      }
      ok := UploadBuffered(s, server, chunks, raws, appended, flushed, c0);
      if !ok {
        return;
      }
      flushed := flushed + [chunks];
      chunks, totalSize, raws := [], 0, [];
    }

    /** Puts a chunk at the end of the buffer. */
    method Buffer(s: Settings, c: PackChunk, ghost raw: Bytes)
      requires Valid(s) && s.w.sha(raw) == c.hash && Holds(s.w, s.dek, c.kind, c.hash, c.data, c.compression, raw)
      modifies this
      ensures chunks == old(chunks) + [c] && appended == old(appended) + [c] && flushed == old(flushed)
      ensures Stored(s.w, s.dek, chunks, raws) && totalSize == TotalSize(chunks)
    {
      TotalSizeAppend(chunks, c);
      StoredMore(s, chunks, raws, c, raw);
      chunks, totalSize := chunks + [c], totalSize + |c.data|;
      raws, appended := raws + [raw], appended + [c];
    }

    /** Compresses, encrypts and buffers one object, and flushes the buffer once it has grown to the target size. */
    method Append(s: Settings, server: Server, kind: Kind, hash: Str, raw: Bytes, ghost c0: Contents) returns (ok: bool)
      requires HashLaw(s.w) && CipherLaw(s.w) && s.w.sha(raw) == hash
      requires Valid(s) && Progress(s, server, c0)
      modifies this, server`store, server`keys, server`objects
      ensures server.Sound(s.w) && Follows(s.dek, c0, server.Now())
      ensures ok ==> Valid(s) && Progress(s, server, c0)
      ensures ok ==>
        exists c :: appended == old(appended) + [c] && c.hash == hash && c.kind == kind && Pressed(s, c, raw)
      ensures server.reliable ==> ok
    {
      var nonce := FreshNonce();
      DigestIsProper(s.w, raw);
      StoredHolds(s.w, s.compress, s.dek, kind, hash, nonce, raw);
      var stored := StoreObject(s.w, s.compress, s.dek, kind, hash, nonce, raw);
      ok := stored.Ok?;
      if ok {
        var c := PackChunk(hash, stored.value.0, kind, stored.value.1);
        assert Pressed(s, c, raw);
        AppendKeepsProgress(s, server.Now(), chunks, appended, c0, c);
        FeedKeepsPacked(PACK_TARGET_SIZE, appended, Packing(chunks, flushed), c);
        Buffer(s, c, raw);
        ok := FlushIfFull(s, server, c0);
      }
    }

    method FlushIfFull(s: Settings, server: Server, ghost c0: Contents) returns (ok: bool)
      requires HashLaw(s.w) && totalSize == TotalSize(chunks) && Stored(s.w, s.dek, chunks, raws)
      requires Progress(s, server, c0)
      modifies this`chunks, this`totalSize, this`raws, this`flushed, server`store, server`keys, server`objects
      ensures server.Sound(s.w) && Follows(s.dek, c0, server.Now())
      ensures ok ==> Progress(s, server, c0)
      ensures ok ==> totalSize == TotalSize(chunks) && Stored(s.w, s.dek, chunks, raws)
      ensures ok ==> Packing(chunks, flushed) ==
                       if old(totalSize) >= PACK_TARGET_SIZE then FlushRest(old(Packing(chunks, flushed)))
                       else old(Packing(chunks, flushed))
      ensures server.reliable ==> ok
    {
      ok := true;
      if totalSize >= PACK_TARGET_SIZE {
        ok := Flush(s, server, c0);
      }
    }
  }

  /** The chunk is labelled with the compression that its content gets. */
  ghost predicate Pressed(s: Settings, c: PackChunk, raw: Bytes) {
    s.w.sha(raw) == c.hash && c.compression == CompressIf(s.w, s.compress, raw).1
  }

  lemma StoredMore(s: Settings, chunks: seq<PackChunk>, raws: seq<Bytes>, c: PackChunk, raw: Bytes)
    requires Stored(s.w, s.dek, chunks, raws) && IsStored(s.w, s.dek, c, raw)
    ensures Stored(s.w, s.dek, chunks + [c], raws + [raw])
  {
    forall i | 0 <= i < |chunks + [c]|
      ensures IsStored(s.w, s.dek, (chunks + [c])[i], (raws + [raw])[i])
    {
      assert i < |chunks| ==> IsStored(s.w, s.dek, chunks[i], raws[i]);
    }
  }

  /** Any twelve bytes. */
  method FreshNonce() returns (nonce: Bytes)
    ensures |nonce| == NONCE_SIZE
  {
    nonce := [];
    while |nonce| < NONCE_SIZE
      invariant |nonce| <= NONCE_SIZE
    {
      var b: byte := *;
      nonce := nonce + [b];
    }
  }
}
