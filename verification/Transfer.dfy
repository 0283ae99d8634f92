/** What a server answers to a request for objects, and how the answer is turned into content. */
module Transfer {
  import opened Base
  import opened Primitives
  import opened Codec
  import opened Encrypt
  import opened PackStore
  import opened Trees
  import opened Merkle
  import opened Graph
  import opened Closure

  /** A region of a pack, as the server describes it; nothing says that the description is right. */
  datatype ChunkMeta = ChunkMeta(hash: Str, offset: int, size: int, compression: Str)

  /** A pack to fetch, together with what fetching it gives. */
  datatype PackEntry = PackEntry(data: Result<Bytes, Fault>, chunks: seq<ChunkMeta>)

  datatype Standalone = Standalone(hash: Str, data: Result<Bytes, Fault>)

  datatype Response = Response(packs: seq<PackEntry>, standalone: seq<Standalone>)

  function Region(data: Bytes, meta: ChunkMeta): Result<Bytes, Fault> {
    if 0 <= meta.offset && 0 <= meta.size && meta.offset + meta.size <= |data| then
      Ok(data[meta.offset..meta.offset + meta.size])
    else Err(OutOfRange)
  }

  // ----- One tree

  function ReadTree(w: World, f: Format, dek: Option<Bytes>, hash: Str, stored: Bytes, compression: Str)
    : Result<TreeBlob, Fault>
  {
    match ReadObject(w, dek, Tree, hash, stored, compression)
    case Err(e) => Err(e)
    case Ok(data) =>
      match f.decode(data)
      case Some(blob) => Ok(blob)
      case None => Err(BadTree)
  }

  /** The first region of the first pack, or else the first standalone object. */
  function TreeFrom(w: World, f: Format, dek: Option<Bytes>, hash: Str, response: Result<Response, Fault>)
    : Result<TreeBlob, Fault>
  {
    match response
    case Err(e) => Err(e)
    case Ok(r) =>
      if |r.packs| > 0 && |r.packs[0].chunks| > 0 then
        match r.packs[0].data
        case Err(e) => Err(e)
        case Ok(data) => (
          match Region(data, r.packs[0].chunks[0])
          case Err(e) => Err(e)
          case Ok(stored) => ReadTree(w, f, dek, hash, stored, r.packs[0].chunks[0].compression))
      else if |r.standalone| > 0 then
        match r.standalone[0].data
        case Err(e) => Err(e)
        case Ok(stored) => ReadTree(w, f, dek, hash, stored, [])
      else Err(NoLocation)
  }

  // ----- One data chunk

  function Verified(w: World, hash: Str, verify: bool, r: Result<Bytes, Fault>): Result<Bytes, Fault> {
    match r
    case Err(e) => Err(e)
    case Ok(data) => if verify && w.sha(data) != hash then Err(Mismatch) else Ok(data)
  }

  function DecodePackChunk(w: World, dek: Option<Bytes>, verify: bool, packData: Bytes, meta: ChunkMeta)
    : Result<Bytes, Fault>
  {
    match Region(packData, meta)
    case Err(e) => Err(e)
    case Ok(stored) => Verified(w, meta.hash, verify, ReadObject(w, dek, Data, meta.hash, stored, meta.compression))
  }

  function DecodeStandalone(w: World, dek: Option<Bytes>, verify: bool, entry: Standalone): Result<Bytes, Fault> {
    match entry.data
    case Err(e) => Err(e)
    case Ok(stored) => Verified(w, entry.hash, verify, ReadObject(w, dek, Data, entry.hash, stored, []))
  }

  // ----- An honest server

  function MetaOf(store: Store, h: Str): ChunkMeta
    requires h in store.index
  {
    ChunkMeta(h, store.index[h].offset, store.index[h].size, store.index[h].compression)
  }

  function EntryOf(store: Store, h: Str): PackEntry
    requires h in store.index
  {
    PackEntry(if store.index[h].pack < |store.packs| then Ok(store.packs[store.index[h].pack]) else Err(Unavailable),
              [MetaOf(store, h)])
  }

  /** The answer to the request for one hash. */
  function Answer(store: Store, h: Str): Response {
    if h in store.index then Response([EntryOf(store, h)], []) else Response([], [])
  }

  /** Fetching trees from an honest server. */
  function FetchStore(w: World, f: Format, dek: Option<Bytes>, store: Store): Fetch {
    (h: Str) => TreeFrom(w, f, dek, h, Ok(Answer(store, h)))
  }

  // ----- Under which key an object can be read

  /** The object was stored under this very key, and for this use if there is a key. */
  predicate StoredFor(c: Contents, dek: Option<Bytes>, h: Str, kind: Kind)
    requires h in c.store.index && h in c.keys
  {
    c.keys[h] == dek && (dek.None? || c.store.index[h].kind == kind)
  }

  function StoredBytes(store: Store, h: Str): Bytes
    requires h in store.index
  {
    var loc := store.index[h];
    if loc.pack < |store.packs| && InPack(loc, store.packs[loc.pack]) then Slice(loc, store.packs[loc.pack]) else []
  }

  /**
    What was stored under another key, or for another use, does not read as what it is: the keys are
    separate; or what was never sealed does not open; or what is sealed reads as neither the content nor
    any tree.
   */
  ghost predicate Shut(w: World, f: Format, c: Contents, dek: Option<Bytes>, h: Str, kind: Kind)
    requires h in c.store.index && h in c.keys && h in c.objects
  {
    var loc := c.store.index[h];
    match (c.keys[h], dek)
    case (Some(k), Some(k')) => ObjectKeysApart(w, k, loc.kind, k', kind, h)
    case (None, Some(k')) => DecryptIf(w, dek, kind, h, StoredBytes(c.store, h)).Err?
    case (_, None) =>
      if kind == Tree then ReadTree(w, f, None, h, StoredBytes(c.store, h), loc.compression).Err?
      else ReadObject(w, None, Data, h, StoredBytes(c.store, h), loc.compression) != Ok(c.objects[h])
  }

  /** Everything that was not stored for reading under dek stays shut under dek. */
  ghost predicate KeysApart(w: World, f: Format, c: Contents, dek: Option<Bytes>)
    requires Represents(w, c)
  {
    forall h, kind {:trigger Shut(w, f, c, dek, h, kind)} :: h in c.store.index && !StoredFor(c, dek, h, kind) ==>
      Shut(w, f, c, dek, h, kind)
  }

  /** In a store where nothing is encrypted, nothing needs to be kept apart. */
  lemma PlainIsApart(w: World, f: Format, c: Contents)
    requires Represents(w, c) && forall h :: h in c.keys ==> c.keys[h] == None
    ensures KeysApart(w, f, c, None)
  {
  }

  /** What an honest server gives for a hash is just the region of its object. */
  lemma RegionOfEntry(w: World, c: Contents, h: Str)
    requires Represents(w, c) && h in c.store.index
    ensures var loc := c.store.index[h];
            && loc.pack < |c.store.packs| && InPack(loc, c.store.packs[loc.pack])
            && EntryOf(c.store, h).data == Ok(c.store.packs[loc.pack])
            && Region(c.store.packs[loc.pack], MetaOf(c.store, h)) == Ok(StoredBytes(c.store, h))
            && Holds(w, c.keys[h], loc.kind, h, StoredBytes(c.store, h), loc.compression, c.objects[h])
            && w.sha(c.objects[h]) == h
  {
    assert EntryFits(w, c, h);
  }

  lemma HeldForUse(w: World, c: Contents, dek: Option<Bytes>, h: Str, kind: Kind)
    requires Represents(w, c) && h in c.store.index && StoredFor(c, dek, h, kind)
    ensures Holds(w, dek, kind, h, StoredBytes(c.store, h), c.store.index[h].compression, c.objects[h])
  {
    RegionOfEntry(w, c, h);
    if dek.None? {
      var loc := c.store.index[h];
      PlainForAnyUse(w, loc.kind, kind, h, StoredBytes(c.store, h), loc.compression, c.objects[h]);
    }
  }

  lemma FetchOfEntry(w: World, f: Format, dek: Option<Bytes>, c: Contents, h: Str)
    requires Represents(w, c) && h in c.store.index
    ensures FetchStore(w, f, dek, c.store)(h) ==
      ReadTree(w, f, dek, h, StoredBytes(c.store, h), c.store.index[h].compression)
  {
    RegionOfEntry(w, c, h);
  }

  /** An honest server's tree, read under the key it was stored with, is the tree that the hash stands for. */
  lemma FetchAgrees(w: World, f: Format, dek: Option<Bytes>, c: Contents, h: Str)
    requires CodecLaw(w) && CipherLaw(w) && FormatLaw(w, f) && Represents(w, c)
    requires TreeIn(f, c.objects, h).Ok? && StoredFor(c, dek, h, Tree)
    ensures FetchStore(w, f, dek, c.store)(h) == TreeIn(f, c.objects, h)
  {
    FetchOfEntry(w, f, dek, c, h);
    HeldForUse(w, c, dek, h, Tree);
    HoldsReadsBack(w, dek, Tree, h, StoredBytes(c.store, h), c.store.index[h].compression, c.objects[h]);
  }

  lemma ReadingFaults(w: World, f: Format, dek: Option<Bytes>, h: Str, stored: Bytes, compression: Str)
    ensures ReadTree(w, f, dek, h, stored, compression) != Err(NoLocation)
  {
  }

  /** Read under any other key, it is a fault, and not that of a missing tree. */
  lemma FetchFails(w: World, f: Format, dek: Option<Bytes>, c: Contents, h: Str)
    requires CipherLaw(w) && Represents(w, c) && h in c.store.index
    requires !StoredFor(c, dek, h, Tree) && Shut(w, f, c, dek, h, Tree)
    ensures FetchStore(w, f, dek, c.store)(h).Err? && FetchStore(w, f, dek, c.store)(h).error != NoLocation
  {
    FetchOfEntry(w, f, dek, c, h);
    RegionOfEntry(w, c, h);
    ReadingFaults(w, f, dek, h, StoredBytes(c.store, h), c.store.index[h].compression);
    if c.keys[h].Some? && dek.Some? {
      HoldsStaysShut(w, c.keys[h].value, c.store.index[h].kind, dek.value, Tree, h, StoredBytes(c.store, h),
                     c.store.index[h].compression, c.objects[h]);
    }
  }

  /** A chunk that was stored uncompressed and is taken for a compressed frame. */
  ghost predicate MisreadHere(w: World, c: Contents, h: Str)
    requires h in c.store.index && h in c.objects
  {
    c.store.index[h].compression == [] && Misread(w, c.objects[h])
  }

  /** Reading a chunk gives its content exactly if it is read under its key and for its use, and is not misread. */
  lemma ReadsBackExactly(w: World, f: Format, dek: Option<Bytes>, c: Contents, h: Str)
    requires CodecLaw(w) && CipherLaw(w) && Represents(w, c) && h in c.store.index
    requires !StoredFor(c, dek, h, Data) ==> Shut(w, f, c, dek, h, Data)
    ensures ReadObject(w, dek, Data, h, StoredBytes(c.store, h), c.store.index[h].compression) == Ok(c.objects[h])
            <==> StoredFor(c, dek, h, Data) && !MisreadHere(w, c, h)
  {
    var loc, stored := c.store.index[h], StoredBytes(c.store, h);
    RegionOfEntry(w, c, h);
    if StoredFor(c, dek, h, Data) {
      HeldForUse(w, c, dek, h, Data);
      HoldsReadsBack(w, dek, Data, h, stored, loc.compression, c.objects[h]);
    } else if c.keys[h].Some? && dek.Some? {
      HoldsStaysShut(w, c.keys[h].value, loc.kind, dek.value, Data, h, stored, loc.compression, c.objects[h]);
    }
  }

  /** An honest server's chunk is right exactly then; otherwise verification finds a fault. */
  lemma ChunkFromStore(w: World, f: Format, dek: Option<Bytes>, verify: bool, c: Contents, h: Str)
    requires HashLaw(w) && CodecLaw(w) && CipherLaw(w) && Represents(w, c) && h in c.store.index
    requires !StoredFor(c, dek, h, Data) ==> Shut(w, f, c, dek, h, Data)
    ensures c.store.index[h].pack < |c.store.packs|
    ensures var r := DecodePackChunk(w, dek, verify, c.store.packs[c.store.index[h].pack], MetaOf(c.store, h));
            && (r == Ok(c.objects[h]) <==> StoredFor(c, dek, h, Data) && !MisreadHere(w, c, h))
            && (verify ==> (r.Ok? <==> r == Ok(c.objects[h])))
  {
    RegionOfEntry(w, c, h);
    ReadsBackExactly(w, f, dek, c, h);
    var read := ReadObject(w, dek, Data, h, StoredBytes(c.store, h), c.store.index[h].compression);
    if read.Ok? {
      NoCollision(w, read.value, c.objects[h]);
    }
  }
}
