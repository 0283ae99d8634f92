/** A world in which every law holds and keys are kept apart: assuming both excludes nothing by contradiction. */
module Consistency {
  import opened Base
  import opened Primitives
  import opened Encrypt
  import opened PackStore
  import opened Merkle
  import opened Closure
  import opened Transfer

  // ----- The keys of one object

  lemma ToyLawful()
    ensures Lawful(ToyWorld())
  {
    var zeros, ones: Bytes := seq(KEY_SIZE, _ => 0), seq(KEY_SIZE, _ => 1);
    assert zeros[0] != ones[0];
    LawsAreConsistent(zeros, ones);
  }

  /** In the toy world, keys for one object differ between uses, and between secrets that differ in their first byte. */
  lemma ToyObjectKeys(dek: Bytes, kind: Kind, dek': Bytes, kind': Kind, hash: Str)
    requires HexDecode(hash).Some? && dek != [] && dek' != [] && (dek[0] != dek'[0] || kind != kind')
    ensures ObjectKeysApart(ToyWorld(), dek, kind, dek', kind', hash)
  {
    var w := ToyWorld();
    var key, key' := ObjectKey(w, dek, kind, hash).value, ObjectKey(w, dek', kind', hash).value;
    LabelShows(kind, HexDecode(hash).value);
    LabelShows(kind', HexDecode(hash).value);
    var info, info' := Label(kind) + HexDecode(hash).value, Label(kind') + HexDecode(hash).value;
    assert key == ToyDerive(Derivation(dek, info)) && key' == ToyDerive(Derivation(dek', info'));
    assert key[0] == dek[0] && key'[0] == dek'[0] && key[1] == info[18] && key'[1] == info'[18];
    LawsAreConsistent(key, key');
  }

  /** The byte of the label that tells data from trees. */
  lemma LabelShows(kind: Kind, digest: Bytes)
    ensures |Label(kind) + digest| > 18 && (Label(kind) + digest)[18] == if kind == Data then 100 else 116
  {
    assert (Label(kind) + digest)[18] == Label(kind)[18];
  }

  // ----- Contents under several keys

  /** All of it is encrypted, under keys that differ in their first byte if they differ at all. */
  ghost predicate FirstBytesDiffer(c: Contents, dek: Bytes) {
    dek != [] && forall h :: h in c.keys ==>
      c.keys[h].Some? && c.keys[h].value != [] && (c.keys[h].value == dek || c.keys[h].value[0] != dek[0])
  }

  /** Whatever such a server holds, its keys are kept apart. */
  lemma ToyKeysApart(f: Format, c: Contents, dek: Bytes)
    requires Represents(ToyWorld(), c) && FirstBytesDiffer(c, dek)
    ensures KeysApart(ToyWorld(), f, c, Some(dek))
  {
    var w := ToyWorld();
    ToyLawful();
    forall h, kind | h in c.store.index && !StoredFor(c, Some(dek), h, kind)
      ensures Shut(w, f, c, Some(dek), h, kind)
    {
      assert EntryFits(w, c, h);
      DigestIsProper(w, c.objects[h]);
      ToyObjectKeys(c.keys[h].value, c.store.index[h].kind, dek, kind, h);
    }
  }

  /** The stored form of some content. */
  function StoredChunk(w: World, dek: Bytes, kind: Kind, raw: Bytes): PackChunk {
    var stored := StoreObject(w, false, Some(dek), kind, w.sha(raw), seq(NONCE_SIZE, _ => 0), raw);
    PackChunk(w.sha(raw), if stored.Ok? then stored.value.0 else [], kind, [])
  }

  lemma ChunkIsStored(dek: Bytes, kind: Kind, raw: Bytes)
    ensures Stored(ToyWorld(), Some(dek), [StoredChunk(ToyWorld(), dek, kind, raw)], [raw])
  {
    var w := ToyWorld();
    ToyLawful();
    DigestIsProper(w, raw);
    StoredHolds(w, false, Some(dek), kind, w.sha(raw), seq(NONCE_SIZE, _ => 0), raw);
    assert IsStored(w, Some(dek), StoredChunk(w, dek, kind, raw), raw);
  }

  /** What a server holds after one object was stored under some key. */
  ghost function WithObject(c: Contents, dek: Bytes, kind: Kind, raw: Bytes): Contents {
    WithPack(c, Some(dek), [StoredChunk(ToyWorld(), dek, kind, raw)], [raw])
  }

  lemma WithObjectHas(c: Contents, dek: Bytes, kind: Kind, raw: Bytes)
    requires Represents(ToyWorld(), c)
    ensures Represents(ToyWorld(), WithObject(c, dek, kind, raw))
    ensures WithObject(c, dek, kind, raw).keys == c.keys[ToyWorld().sha(raw) := Some(dek)]
  {
    ChunkIsStored(dek, kind, raw);
    var chunk := StoredChunk(ToyWorld(), dek, kind, raw);
    FlushRepresents(ToyWorld(), Some(dek), c, [chunk], [raw]);
    assert [chunk][1..] == [];
    assert SealedUnder(c.keys, [chunk], Some(dek)) == SealedUnder(c.keys[chunk.hash := Some(dek)], [], Some(dek));
  }

  /**
    All laws, those of the reader of trees included, and the separation of keys hold at once, for a server with data
    and a tree under two keys, read under either.
   */
  lemma EverythingIsConsistent(k: Bytes, k': Bytes, data: Bytes, tree: Bytes) returns (c: Contents)
    requires k != [] && k' != [] && k[0] != k'[0] && data != tree
    ensures var w := ToyWorld();
            var f := Canonical(w.sha);
            && Lawful(w) && FormatLaw(w, f) && Represents(w, c)
            && c.keys == map[w.sha(data) := Some(k), w.sha(tree) := Some(k')]
            && KeysApart(w, f, c, Some(k)) && KeysApart(w, f, c, Some(k'))
  {
    var w := ToyWorld();
    ToyLawful();
    CanonicalIsLawful(w);
    WithObjectHas(EMPTY, k, Data, data);
    var one := WithObject(EMPTY, k, Data, data);
    WithObjectHas(one, k', Tree, tree);
    c := WithObject(one, k', Tree, tree);
    NoCollision(w, data, tree);
    ToyKeysApart(Canonical(w.sha), c, k);
    ToyKeysApart(Canonical(w.sha), c, k');
  }
}
