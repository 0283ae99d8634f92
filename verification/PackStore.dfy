/** Packs of objects, and the store that remembers where in which pack each object lies. */
module PackStore {
  import opened Base
  import opened Primitives
  import opened Encrypt

  /** An object on its way into a pack. */
  datatype PackChunk = PackChunk(hash: Str, data: Bytes, kind: Kind, compression: Str)

  datatype Location = Location(pack: nat, offset: nat, size: nat, kind: Kind, compression: Str)

  /** What the server keeps: the packs, and where it was told each object is. */
  datatype Store = Store(packs: seq<Bytes>, index: map<Str, Location>)

  const EMPTY_STORE := Store([], map[])

  function PackData(chunks: seq<PackChunk>): Bytes {
    if chunks == [] then [] else chunks[0].data + PackData(chunks[1..])
  }

  function TotalSize(chunks: seq<PackChunk>): nat {
    if chunks == [] then 0 else |chunks[0].data| + TotalSize(chunks[1..])
  }

  /** Where each chunk of a pack lies, one right after the other from offset on. */
  function Locations(pack: nat, chunks: seq<PackChunk>, offset: nat): seq<Location> {
    if chunks == [] then []
    else
      [Location(pack, offset, |chunks[0].data|, chunks[0].kind, chunks[0].compression)] +
      Locations(pack, chunks[1..], offset + |chunks[0].data|)
  }

  /** Confirming a pack: later entries for a hash replace earlier ones. */
  function Confirm(index: map<Str, Location>, chunks: seq<PackChunk>, locations: seq<Location>): map<Str, Location>
    requires |chunks| == |locations|
    decreases |chunks|
  {
    if chunks == [] then index
    else Confirm(index[chunks[0].hash := locations[0]], chunks[1..], locations[1..])
  }

  lemma {:induction false} LocationsLength(pack: nat, chunks: seq<PackChunk>, offset: nat)
    ensures |Locations(pack, chunks, offset)| == |chunks|
    decreases |chunks|
  {
    if chunks != [] {
      LocationsLength(pack, chunks[1..], offset + |chunks[0].data|);
    }
  }

  /** The store after a pack was uploaded and confirmed. */
  function Flushed(store: Store, chunks: seq<PackChunk>): Store {
    LocationsLength(|store.packs|, chunks, 0);
    Store(store.packs + [PackData(chunks)], Confirm(store.index, chunks, Locations(|store.packs|, chunks, 0)))
  }

  /** The store after some packs, one after the other. */
  function StoreAfter(store: Store, packs: seq<seq<PackChunk>>): Store {
    if packs == [] then store else Flushed(StoreAfter(store, packs[..|packs| - 1]), packs[|packs| - 1])
  }

  lemma OnePackMore(store: Store, packs: seq<seq<PackChunk>>, pack: seq<PackChunk>)
    ensures StoreAfter(store, packs + [pack]) == Flushed(StoreAfter(store, packs), pack)
  {
    assert (packs + [pack])[..|packs|] == packs;
  }

  // ----- The regions of a pack

  predicate InPack(loc: Location, data: Bytes) {
    loc.offset + loc.size <= |data|
  }

  function Slice(loc: Location, data: Bytes): Bytes
    requires InPack(loc, data)
  {
    data[loc.offset..loc.offset + loc.size]
  }

  /** Each region that is recorded for a pack holds just the bytes of its chunk. */
  lemma {:induction false} RegionsHold(pack: nat, chunks: seq<PackChunk>, before: Bytes)
    ensures var ls := Locations(pack, chunks, |before|);
            |ls| == |chunks| && forall i :: 0 <= i < |chunks| ==>
              && ls[i].pack == pack && ls[i].kind == chunks[i].kind && ls[i].compression == chunks[i].compression
              && InPack(ls[i], before + PackData(chunks))
              && Slice(ls[i], before + PackData(chunks)) == chunks[i].data
    decreases |chunks|
  {
    if chunks != [] {
      var c, rest := chunks[0], chunks[1..];
      RegionsHold(pack, rest, before + c.data);
      assert before + c.data + PackData(rest) == before + PackData(chunks);
      var ls := Locations(pack, chunks, |before|);
      assert ls[1..] == Locations(pack, rest, |before + c.data|);
    }
  }

  /** The regions lie side by side, from the start of the pack to its end. */
  lemma {:induction false} RegionsTile(pack: nat, chunks: seq<PackChunk>, offset: nat)
    requires chunks != []
    ensures var ls := Locations(pack, chunks, offset);
            && |ls| == |chunks|
            && ls[0].offset == offset
            && (forall i :: 0 <= i < |ls| - 1 ==> ls[i + 1].offset == ls[i].offset + ls[i].size)
            && ls[|ls| - 1].offset + ls[|ls| - 1].size == offset + |PackData(chunks)|
    decreases |chunks|
  {
    LocationsLength(pack, chunks, offset);
    var ls := Locations(pack, chunks, offset);
    if |chunks| > 1 {
      var c, rest := chunks[0], chunks[1..];
      var tail := Locations(pack, rest, offset + |c.data|);
      RegionsTile(pack, rest, offset + |c.data|);
      assert ls[1..] == tail && ls[0].size == |c.data|;
      forall i | 0 <= i < |ls| - 1
        ensures ls[i + 1].offset == ls[i].offset + ls[i].size
      {
        assert ls[i + 1] == tail[i];
        assert i > 0 ==> ls[i] == tail[i - 1];
      }
    }
  }

  lemma {:induction false} PackDataSize(chunks: seq<PackChunk>)
    ensures |PackData(chunks)| == TotalSize(chunks)
  {
    if chunks != [] {
      PackDataSize(chunks[1..]);
    }
  }

  lemma {:induction false} TotalSizeAppend(chunks: seq<PackChunk>, c: PackChunk)
    ensures TotalSize(chunks + [c]) == TotalSize(chunks) + |c.data|
  {
    if chunks != [] {
      assert (chunks + [c])[1..] == chunks[1..] + [c];
      TotalSizeAppend(chunks[1..], c);
    } else {
      assert chunks + [c] == [c];
    }
  }

  // ----- What a store means

  /** Every hash in the index is the digest of some content, and its region holds a stored form of that content. */
  ghost predicate EntryHolds(w: World, dek: Option<Bytes>, packs: seq<Bytes>, loc: Location, hash: Str, raw: Bytes) {
    && loc.pack < |packs| && InPack(loc, packs[loc.pack])
    && w.sha(raw) == hash
    && Holds(w, dek, loc.kind, hash, Slice(loc, packs[loc.pack]), loc.compression, raw)
  }

  /** A store, the data key under which each of its objects was stored (if any), and what each hash stands for. */
  datatype Contents = Contents(store: Store, keys: map<Str, Option<Bytes>>, objects: map<Str, Bytes>)

  const EMPTY := Contents(EMPTY_STORE, map[], map[])

  ghost predicate EntryFits(w: World, c: Contents, h: Str)
    requires h in c.store.index && h in c.keys && h in c.objects
  {
    EntryHolds(w, c.keys[h], c.store.packs, c.store.index[h], h, c.objects[h])
  }

  /** The keys and the objects are those of the store. */
  ghost predicate Represents(w: World, c: Contents) {
    && c.keys.Keys == c.objects.Keys == c.store.index.Keys
    && forall h {:trigger EntryFits(w, c, h)} :: h in c.store.index ==> EntryFits(w, c, h)
  }

  ghost predicate IsStored(w: World, dek: Option<Bytes>, c: PackChunk, raw: Bytes) {
    w.sha(raw) == c.hash && Holds(w, dek, c.kind, c.hash, c.data, c.compression, raw)
  }

  /** raws are the contents of which chunks are the stored forms. */
  ghost predicate Stored(w: World, dek: Option<Bytes>, chunks: seq<PackChunk>, raws: seq<Bytes>) {
    && |raws| == |chunks|
    && forall i {:trigger IsStored(w, dek, chunks[i], raws[i])} :: 0 <= i < |chunks| ==>
      IsStored(w, dek, chunks[i], raws[i])
  }

  function Hashes(chunks: seq<PackChunk>): set<Str> {
    set c | c in chunks :: c.hash
  }

  ghost function AddObjects(objects: map<Str, Bytes>, chunks: seq<PackChunk>, raws: seq<Bytes>): map<Str, Bytes>
    requires |raws| == |chunks|
    decreases |chunks|
  {
    if chunks == [] then objects else AddObjects(objects[chunks[0].hash := raws[0]], chunks[1..], raws[1..])
  }

  /** Which key each object is stored under once some more were stored under dek. */
  function SealedUnder(keys: map<Str, Option<Bytes>>, chunks: seq<PackChunk>, dek: Option<Bytes>)
    : map<Str, Option<Bytes>>
    decreases |chunks|
  {
    if chunks == [] then keys else SealedUnder(keys[chunks[0].hash := dek], chunks[1..], dek)
  }

  /** What was stored under dek is under dek now, and the rest is as it was. */
  lemma {:induction false} SealedUnderIs(keys: map<Str, Option<Bytes>>, chunks: seq<PackChunk>, dek: Option<Bytes>)
    ensures SealedUnder(keys, chunks, dek).Keys == keys.Keys + Hashes(chunks)
    ensures forall h :: h in SealedUnder(keys, chunks, dek) ==>
              SealedUnder(keys, chunks, dek)[h] == if h in Hashes(chunks) then dek else keys[h]
    decreases |chunks|
  {
    if chunks != [] {
      SealedUnderIs(keys[chunks[0].hash := dek], chunks[1..], dek);
      HashesFirst(chunks);
    }
  }

  lemma HashesFirst(chunks: seq<PackChunk>)
    requires chunks != []
    ensures Hashes(chunks) == {chunks[0].hash} + Hashes(chunks[1..])
  {
    assert chunks == [chunks[0]] + chunks[1..];
  }

  lemma {:induction false} SealedInTwo(keys: map<Str, Option<Bytes>>, a: seq<PackChunk>, b: seq<PackChunk>,
                                       dek: Option<Bytes>)
    ensures SealedUnder(SealedUnder(keys, a, dek), b, dek) == SealedUnder(keys, a + b, dek)
    decreases |a|
  {
    if a == [] {
      assert a + b == b;
    } else {
      assert (a + b)[0] == a[0] && (a + b)[1..] == a[1..] + b;
      SealedInTwo(keys[a[0].hash := dek], a[1..], b, dek);
    }
  }

  lemma {:induction false} ConfirmRepresents(w: World, dek: Option<Bytes>, c: Contents, chunks: seq<PackChunk>,
                                             raws: seq<Bytes>,
                                             locations: seq<Location>)
    requires Represents(w, c) && |raws| == |chunks| == |locations|
    requires forall i :: 0 <= i < |chunks| ==> EntryHolds(w, dek, c.store.packs, locations[i], chunks[i].hash, raws[i])
    ensures Represents(w, Contents(Store(c.store.packs, Confirm(c.store.index, chunks, locations)),
                                   SealedUnder(c.keys, chunks, dek), AddObjects(c.objects, chunks, raws)))
    decreases |chunks|
  {
    if chunks != [] {
      var h := chunks[0].hash;
      var next := Contents(Store(c.store.packs, c.store.index[h := locations[0]]), c.keys[h := dek],
                           c.objects[h := raws[0]]);
      OneEntryMore(w, dek, c, h, locations[0], raws[0]);
      ConfirmRepresents(w, dek, next, chunks[1..], raws[1..], locations[1..]);
    }
  }

  lemma OneEntryMore(w: World, dek: Option<Bytes>, c: Contents, h: Str, loc: Location, raw: Bytes)
    requires Represents(w, c) && EntryHolds(w, dek, c.store.packs, loc, h, raw)
    ensures Represents(w, Contents(Store(c.store.packs, c.store.index[h := loc]), c.keys[h := dek],
                                   c.objects[h := raw]))
  {
    var next := Contents(Store(c.store.packs, c.store.index[h := loc]), c.keys[h := dek], c.objects[h := raw]);
    forall g | g in next.store.index
      ensures EntryFits(w, next, g)
    {
      assert g != h ==> EntryFits(w, c, g);
    }
  }

  lemma EntriesHoldMorePacks(w: World, c: Contents, more: Bytes)
    requires Represents(w, c)
    ensures Represents(w, c.(store := Store(c.store.packs + [more], c.store.index)))
  {
    var next := c.(store := Store(c.store.packs + [more], c.store.index));
    forall h | h in c.store.index
      ensures EntryFits(w, next, h)
    {
      assert EntryFits(w, c, h);
      assert next.store.packs[c.store.index[h].pack] == c.store.packs[c.store.index[h].pack];
    }
  }

  /** What a server holds after a pack was uploaded and confirmed. */
  ghost function WithPack(c: Contents, dek: Option<Bytes>, chunks: seq<PackChunk>, raws: seq<Bytes>): Contents
    requires |raws| == |chunks|
  {
    Contents(Flushed(c.store, chunks), SealedUnder(c.keys, chunks, dek), AddObjects(c.objects, chunks, raws))
  }

  /** Uploading a pack of stored forms keeps the store meaningful, and adds their contents to its meaning. */
  lemma FlushRepresents(w: World, dek: Option<Bytes>, c: Contents, chunks: seq<PackChunk>, raws: seq<Bytes>)
    requires Represents(w, c) && Stored(w, dek, chunks, raws)
    ensures Represents(w, WithPack(c, dek, chunks, raws))
  {
    var data := PackData(chunks);
    var packs := c.store.packs + [data];
    var ls := Locations(|c.store.packs|, chunks, 0);
    RegionsHold(|c.store.packs|, chunks, []);
    assert [] + data == data;
    assert packs[|c.store.packs|] == data;
    EntriesHoldMorePacks(w, c, data);
    forall i | 0 <= i < |chunks|
      ensures EntryHolds(w, dek, packs, ls[i], chunks[i].hash, raws[i])
    {
      assert IsStored(w, dek, chunks[i], raws[i]);
    }
    ConfirmRepresents(w, dek, c.(store := Store(packs, c.store.index)), chunks, raws, ls);
  }

  /** Where an entry of the index after a flush comes from. */
  lemma {:induction false} ConfirmKeys(index: map<Str, Location>, chunks: seq<PackChunk>, locations: seq<Location>)
    requires |chunks| == |locations|
    ensures Confirm(index, chunks, locations).Keys == index.Keys + Hashes(chunks)
    ensures forall h :: h in Confirm(index, chunks, locations) ==>
              || (h in index && Confirm(index, chunks, locations)[h] == index[h])
              || (exists i :: && 0 <= i < |chunks| && chunks[i].hash == h
                              && Confirm(index, chunks, locations)[h] == locations[i])
    decreases |chunks|
  {
    if chunks != [] {
      var index' := index[chunks[0].hash := locations[0]];
      ConfirmKeys(index', chunks[1..], locations[1..]);
      var end := Confirm(index, chunks, locations);
      assert Hashes(chunks) == {chunks[0].hash} + Hashes(chunks[1..]);
      forall h | h in end
        ensures (h in index && end[h] == index[h]) ||
                (exists i :: 0 <= i < |chunks| && chunks[i].hash == h && end[h] == locations[i])
      {
        if h in index' && end[h] == index'[h] {
          if h == chunks[0].hash {
            assert end[h] == locations[0];
          }
        } else {
          var i :| 0 <= i < |chunks[1..]| && chunks[1..][i].hash == h && end[h] == locations[1..][i];
          assert chunks[i + 1].hash == h && end[h] == locations[i + 1];
        }
      }
    }
  }

  lemma {:induction false} AddObjectsKeys(objects: map<Str, Bytes>, chunks: seq<PackChunk>, raws: seq<Bytes>)
    requires |raws| == |chunks|
    ensures AddObjects(objects, chunks, raws).Keys == objects.Keys + Hashes(chunks)
    decreases |chunks|
  {
    if chunks != [] {
      AddObjectsKeys(objects[chunks[0].hash := raws[0]], chunks[1..], raws[1..]);
      HashesFirst(chunks);
    }
  }

  // ----- How chunks are gathered into packs

  /** The pack being filled, and the packs that have been flushed. */
  datatype Packing = Packing(pending: seq<PackChunk>, flushed: seq<seq<PackChunk>>)

  /** One more chunk: the pack is flushed as soon as it reaches the target size. */
  function Feed(target: nat, p: Packing, c: PackChunk): Packing {
    var pending := p.pending + [c];
    if TotalSize(pending) >= target then Packing([], p.flushed + [pending]) else Packing(pending, p.flushed)
  }

  /** At the end whatever is pending is flushed, unless there is nothing. */
  function FlushRest(p: Packing): Packing {
    if p.pending == [] then p else Packing([], p.flushed + [p.pending])
  }

  /** A pack that was flushed because it had grown large enough: not before its last chunk made it so. */
  ghost predicate JustFull(target: nat, pack: seq<PackChunk>) {
    pack != [] && target <= TotalSize(pack) && TotalSize(pack[..|pack| - 1]) < target
  }

  /** The packs hold the chunks in the order they came, each of them just full, and the rest is below the target. */
  ghost predicate Packed(target: nat, cs: seq<PackChunk>, p: Packing) {
    && Concat(p.flushed) + p.pending == cs
    && (forall i {:trigger JustFull(target, p.flushed[i])} :: 0 <= i < |p.flushed| ==> JustFull(target, p.flushed[i]))
    && TotalSize(p.pending) < target
  }

  lemma FeedKeepsPacked(target: nat, cs: seq<PackChunk>, p: Packing, c: PackChunk)
    requires Packed(target, cs, p) && target > 0
    ensures Packed(target, cs + [c], Feed(target, p, c))
  {
    var pending := p.pending + [c];
    assert pending[..|pending| - 1] == p.pending;
    assert Concat(p.flushed) + pending == cs + [c];
    if TotalSize(pending) >= target {
      var flushed := p.flushed + [pending];
      ConcatAppend(p.flushed, [pending]);
      ConcatOne(pending);
      assert Concat(flushed) + [] == cs + [c];
      forall i | 0 <= i < |flushed|
        ensures JustFull(target, flushed[i])
      {
        assert i < |p.flushed| ==> JustFull(target, p.flushed[i]);
      }
    }
  }

  /** The packs are all there is, in the order it came: only the last may be less than full, and none is empty. */
  ghost predicate FullyPacked(target: nat, cs: seq<PackChunk>, packs: seq<seq<PackChunk>>) {
    && Concat(packs) == cs
    && (forall i :: 0 <= i < |packs| ==> packs[i] != [])
    && (forall i :: 0 <= i < |packs| - 1 ==> JustFull(target, packs[i]))
  }

  /** So it is once the rest is flushed. */
  lemma FlushRestPacks(target: nat, cs: seq<PackChunk>, p: Packing)
    requires Packed(target, cs, p)
    ensures FullyPacked(target, cs, FlushRest(p).flushed)
  {
    forall i | 0 <= i < |p.flushed|
      ensures p.flushed[i] != []
    {
      assert JustFull(target, p.flushed[i]);
    }
    if p.pending == [] {
      assert Concat(p.flushed) + [] == Concat(p.flushed);
    } else {
      ConcatAppend(p.flushed, [p.pending]);
      ConcatOne(p.pending);
    }
  }

  /** A just full pack exceeds the target by less than its last chunk. */
  lemma JustFullSize(target: nat, pack: seq<PackChunk>)
    requires JustFull(target, pack)
    ensures target <= TotalSize(pack) < target + |pack[|pack| - 1].data|
  {
    TotalSizeAppend(pack[..|pack| - 1], pack[|pack| - 1]);
    assert pack == pack[..|pack| - 1] + [pack[|pack| - 1]];
  }
}
