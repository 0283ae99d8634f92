/** Wrapping of data keys and sealing of objects, over an abstract authenticated cipher. */
module Encrypt {
  import opened Base
  import opened Primitives
  import opened Codec

  datatype Kind = Data | Tree

  /** "lighthouse/enc/v1/data" */
  const LABEL_DATA: Bytes :=
    [108, 105, 103, 104, 116, 104, 111, 117, 115, 101, 47, 101, 110, 99, 47, 118, 49, 47, 100, 97, 116, 97]
  /** "lighthouse/enc/v1/tree" */
  const LABEL_TREE: Bytes :=
    [108, 105, 103, 104, 116, 104, 111, 117, 115, 101, 47, 101, 110, 99, 47, 118, 49, 47, 116, 114, 101, 101]

  // ----- Sealing under a key and a nonce

  function Seal(w: World, key: Bytes, nonce: Bytes, plain: Bytes): Result<Bytes, Fault> {
    if !GoodKey(key) then Err(BadKey) else Ok(nonce + w.seal(Sealing(key, nonce, plain)))
  }

  function Unseal(w: World, key: Bytes, blob: Bytes): Result<Bytes, Fault> {
    if |blob| < NONCE_SIZE + 1 then Err(TooShort)
    else if !GoodKey(key) then Err(BadKey)
    else
      match w.open(Sealing(key, blob[..NONCE_SIZE], blob[NONCE_SIZE..]))
      case Some(plain) => Ok(plain)
      case None => Err(NotAuthentic)
  }

  lemma UnsealSeal(w: World, key: Bytes, nonce: Bytes, plain: Bytes)
    requires CipherLaw(w) && |nonce| == NONCE_SIZE && GoodKey(key)
    ensures Seal(w, key, nonce, plain).Ok?
    ensures Unseal(w, key, Seal(w, key, nonce, plain).value) == Ok(plain)
  {
    var blob := nonce + w.seal(Sealing(key, nonce, plain));
    assert blob[..NONCE_SIZE] == nonce && blob[NONCE_SIZE..] == w.seal(Sealing(key, nonce, plain));
  }

  /** A key that is kept separate does not open it. */
  lemma UnsealOther(w: World, key: Bytes, other: Bytes, nonce: Bytes, plain: Bytes)
    requires CipherLaw(w) && |nonce| == NONCE_SIZE && GoodKey(key) && GoodKey(other) && Separate(w, key, other)
    ensures Seal(w, key, nonce, plain).Ok?
    ensures Unseal(w, other, Seal(w, key, nonce, plain).value) == Err(NotAuthentic)
  {
    var blob := nonce + w.seal(Sealing(key, nonce, plain));
    assert blob[..NONCE_SIZE] == nonce && blob[NONCE_SIZE..] == w.seal(Sealing(key, nonce, plain));
  }

  // ----- Data keys wrapped under a tenant key

  function WrapDek(w: World, tmk: Bytes, nonce: Bytes, dek: Bytes): Result<Str, Fault> {
    match Seal(w, tmk, nonce, dek)
    case Err(e) => Err(e)
    case Ok(blob) => Ok(w.toBase64(blob))
  }

  function UnwrapDek(w: World, tmk: Bytes, wrapped: Str): Result<Bytes, Fault> {
    match w.fromBase64(wrapped)
    case None => Err(BadBase64)
    case Some(blob) => Unseal(w, tmk, blob)
  }

  /** The wrapping to store, and whether it is a new one. */
  function RewrapDek(w: World, oldTmk: Bytes, newTmk: Bytes, nonce: Bytes, wrapped: Str): Result<(Str, bool), Fault> {
    match UnwrapDek(w, oldTmk, wrapped)
    case Ok(dek) => (
      match WrapDek(w, newTmk, nonce, dek)
      case Ok(rewrapped) => Ok((rewrapped, true))
      case Err(e) => Err(e))
    case Err(e) =>
      if UnwrapDek(w, newTmk, wrapped).Ok? then Ok((wrapped, false)) else Err(e)
  }

  lemma UnwrapWrap(w: World, tmk: Bytes, nonce: Bytes, dek: Bytes)
    requires CipherLaw(w) && Base64Law(w) && |nonce| == NONCE_SIZE && GoodKey(tmk)
    ensures WrapDek(w, tmk, nonce, dek).Ok?
    ensures UnwrapDek(w, tmk, WrapDek(w, tmk, nonce, dek).value) == Ok(dek)
  {
    UnsealSeal(w, tmk, nonce, dek);
  }

  lemma UnwrapOther(w: World, tmk: Bytes, other: Bytes, nonce: Bytes, dek: Bytes)
    requires CipherLaw(w) && Base64Law(w) && |nonce| == NONCE_SIZE && GoodKey(tmk) && GoodKey(other)
    requires Separate(w, tmk, other)
    ensures WrapDek(w, tmk, nonce, dek).Ok?
    ensures UnwrapDek(w, other, WrapDek(w, tmk, nonce, dek).value).Err?
  {
    UnsealOther(w, tmk, other, nonce, dek);
  }

  // ----- One key per object

  function Label(kind: Kind): Bytes {
    match kind
    case Data => LABEL_DATA
    case Tree => LABEL_TREE
  }

  /** The string a key is derived from: which use it is for, and the digest of the content. */
  function KeyInfo(kind: Kind, hash: Str): Option<Bytes> {
    match HexDecode(hash)
    case None => None
    case Some(digest) => Some(Label(kind) + digest)
  }

  /** Different uses or different digests never share a derivation string. */
  lemma KeyInfoInjective(kind: Kind, digest: Bytes, kind': Kind, digest': Bytes)
    requires KeyInfo(kind, HexEncode(digest)) == KeyInfo(kind', HexEncode(digest'))
    ensures kind == kind' && digest == digest'
  {
    HexRoundTrip(digest);
    HexRoundTrip(digest');
    var a, b := Label(kind) + digest, Label(kind') + digest';
    assert |Label(kind)| == |Label(kind')| == 22;
    assert a[18] == Label(kind)[18] && b[18] == Label(kind')[18];
    assert a[22..] == digest && b[22..] == digest';
  }

  function ObjectKey(w: World, dek: Bytes, kind: Kind, hash: Str): Result<Bytes, Fault> {
    match KeyInfo(kind, hash)
    case None => Err(BadHex)
    case Some(info) => Ok(w.derive(Derivation(dek, info)))
  }

  // ----- Objects as they are stored

  function CompressIf(w: World, compress: bool, raw: Bytes): (Bytes, Str) {
    if compress then MaybeCompress(w, raw) else (raw, [])
  }

  /** The bytes an object is stored as, and the name of their compression. */
  function StoreObject(w: World, compress: bool, dek: Option<Bytes>, kind: Kind, hash: Str, nonce: Bytes, raw: Bytes)
    : Result<(Bytes, Str), Fault>
  {
    var (form, compression) := CompressIf(w, compress, raw);
    match dek
    case None => Ok((form, compression))
    case Some(key) =>
      match ObjectKey(w, key, kind, hash)
      case Err(e) => Err(e)
      case Ok(objectKey) =>
        match Seal(w, objectKey, nonce, form)
        case Err(e) => Err(e)
        case Ok(blob) => Ok((blob, compression))
  }

  function DecryptIf(w: World, dek: Option<Bytes>, kind: Kind, hash: Str, stored: Bytes): Result<Bytes, Fault> {
    match dek
    case None => Ok(stored)
    case Some(key) =>
      match ObjectKey(w, key, kind, hash)
      case Err(e) => Err(e)
      case Ok(objectKey) => Unseal(w, objectKey, stored)
  }

  /** What the stored bytes of an object are read back as. */
  function ReadObject(w: World, dek: Option<Bytes>, kind: Kind, hash: Str, stored: Bytes, compression: Str)
    : Result<Bytes, Fault>
  {
    match DecryptIf(w, dek, kind, hash, stored)
    case Err(e) => Err(e)
    case Ok(form) => DecompressOrInfer(w, form, compression)
  }

  /** stored is form as it is, or sealed under the key for that object and use. */
  ghost predicate IsSealed(w: World, dek: Option<Bytes>, kind: Kind, hash: Str, nonce: Bytes, form: Bytes,
                           stored: Bytes) {
    match dek
    case None => stored == form
    case Some(key) =>
      && |nonce| == NONCE_SIZE && ObjectKey(w, key, kind, hash).Ok?
      && Seal(w, ObjectKey(w, key, kind, hash).value, nonce, form) == Ok(stored)
  }

  /** stored is what some backup under dek made of raw, as an object of that kind. */
  ghost predicate Holds(w: World, dek: Option<Bytes>, kind: Kind, hash: Str, stored: Bytes, compression: Str,
                        raw: Bytes) {
    exists nonce, form :: IsSealed(w, dek, kind, hash, nonce, form, stored) && IsFormOf(w, raw, form, compression)
  }

  /** Under the key and for the use it was stored with, it opens to a form of its content. */
  lemma HoldsOpens(w: World, dek: Option<Bytes>, kind: Kind, hash: Str, stored: Bytes, compression: Str, raw: Bytes)
    requires CipherLaw(w) && Holds(w, dek, kind, hash, stored, compression, raw)
    ensures DecryptIf(w, dek, kind, hash, stored).Ok?
    ensures IsFormOf(w, raw, DecryptIf(w, dek, kind, hash, stored).value, compression)
  {
    var nonce, form :| IsSealed(w, dek, kind, hash, nonce, form, stored) && IsFormOf(w, raw, form, compression);
    if dek.Some? {
      UnsealSeal(w, ObjectKey(w, dek.value, kind, hash).value, nonce, form);
    }
  }

  /** What is not encrypted is the same for every use. */
  lemma PlainForAnyUse(w: World, kind: Kind, kind': Kind, hash: Str, stored: Bytes, compression: Str, raw: Bytes)
    requires Holds(w, None, kind, hash, stored, compression, raw)
    ensures Holds(w, None, kind', hash, stored, compression, raw)
  {
    var nonce, form :| IsSealed(w, None, kind, hash, nonce, form, stored) && IsFormOf(w, raw, form, compression);
    assert IsSealed(w, None, kind', hash, nonce, form, stored);
  }

  /** The two keys for one object exist, and are separate. */
  ghost predicate ObjectKeysApart(w: World, dek: Bytes, kind: Kind, dek': Bytes, kind': Kind, hash: Str) {
    && ObjectKey(w, dek, kind, hash).Ok? && ObjectKey(w, dek', kind', hash).Ok?
    && Separate(w, ObjectKey(w, dek, kind, hash).value, ObjectKey(w, dek', kind', hash).value)
  }

  /** Under a key that is separate it does not open. */
  lemma HoldsStaysShut(w: World, dek: Bytes, kind: Kind, dek': Bytes, kind': Kind, hash: Str, stored: Bytes,
                       compression: Str, raw: Bytes)
    requires CipherLaw(w) && Holds(w, Some(dek), kind, hash, stored, compression, raw)
    requires ObjectKeysApart(w, dek, kind, dek', kind', hash)
    ensures DecryptIf(w, Some(dek'), kind', hash, stored) == Err(NotAuthentic)
  {
    var nonce, form :| IsSealed(w, Some(dek), kind, hash, nonce, form, stored) && IsFormOf(w, raw, form, compression);
    UnsealOther(w, ObjectKey(w, dek, kind, hash).value, ObjectKey(w, dek', kind', hash).value, nonce, form);
  }

  /** Storing an object always works, and leaves a form of it that its key uncovers. */
  lemma StoredHolds(w: World, compress: bool, dek: Option<Bytes>, kind: Kind, hash: Str, nonce: Bytes, raw: Bytes)
    requires CipherLaw(w) && HexDecode(hash).Some? && |nonce| == NONCE_SIZE
    ensures StoreObject(w, compress, dek, kind, hash, nonce, raw).Ok?
    ensures var (stored, compression) := StoreObject(w, compress, dek, kind, hash, nonce, raw).value;
            Holds(w, dek, kind, hash, stored, compression, raw)
  {
    var (form, compression) := CompressIf(w, compress, raw);
    MaybeCompressForm(w, raw);
    if dek.Some? {
      var objectKey := ObjectKey(w, dek.value, kind, hash);
      assert GoodKey(objectKey.value);
      UnsealSeal(w, objectKey.value, nonce, form);
    }
    assert IsSealed(w, dek, kind, hash, nonce, form, StoreObject(w, compress, dek, kind, hash, nonce, raw).value.0);
  }

  /** An object reads back as its content unless it was stored uncompressed and is misread. */
  lemma HoldsReadsBack(w: World, dek: Option<Bytes>, kind: Kind, hash: Str, stored: Bytes, compression: Str, raw: Bytes)
    requires CodecLaw(w) && CipherLaw(w) && Holds(w, dek, kind, hash, stored, compression, raw)
    ensures ReadObject(w, dek, kind, hash, stored, compression) == Ok(raw) <==> !(compression == [] && Misread(w, raw))
  {
    HoldsOpens(w, dek, kind, hash, stored, compression, raw);
    FormReadsBack(w, raw, DecryptIf(w, dek, kind, hash, stored).value, compression);
  }

  /** Decrypting and decompressing inverts compressing and encrypting, for exactly the contents that are not misread. */
  lemma ObjectRoundTrip(w: World, compress: bool, dek: Option<Bytes>, kind: Kind, hash: Str, nonce: Bytes, raw: Bytes)
    requires CipherLaw(w) && CodecLaw(w) && HexDecode(hash).Some? && |nonce| == NONCE_SIZE
    ensures StoreObject(w, compress, dek, kind, hash, nonce, raw).Ok?
    ensures var (stored, compression) := StoreObject(w, compress, dek, kind, hash, nonce, raw).value;
            ReadObject(w, dek, kind, hash, stored, compression) == Ok(raw)
            <==> (compress && |w.compress(raw)| < |raw|) || !Misread(w, raw)
  {
    StoredHolds(w, compress, dek, kind, hash, nonce, raw);
    var (stored, compression) := StoreObject(w, compress, dek, kind, hash, nonce, raw).value;
    HoldsReadsBack(w, dek, kind, hash, stored, compression, raw);
  }
}
