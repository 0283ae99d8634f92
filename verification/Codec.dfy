/** Optional compression of stored objects. */
module Codec {
  import opened Base
  import opened Primitives

  datatype Fault =
    | BadHex | BadKey | TooShort | NotAuthentic | BadBase64
    | BadFrame | UnknownCompression
    | OutOfRange | Unavailable | NoLocation | BadTree | Mismatch | BadName | BadPath | Missing | TooDeep | WriteFailed

  const ZSTD: Str := [122, 115, 116, 100]  // "zstd"
  const NONE: Str := [110, 111, 110, 101]  // "none"

  /** The smaller of the two forms, and the name of the compression it uses. */
  function MaybeCompress(w: World, raw: Bytes): (Bytes, Str) {
    var compressed := w.compress(raw);
    if |compressed| < |raw| then (compressed, ZSTD) else (raw, [])
  }

  function Decompress(w: World, stored: Bytes, compression: Str): Result<Bytes, Fault> {
    if compression == [] || compression == NONE then Ok(stored)
    else if compression == ZSTD then
      match w.decompress(stored)
      case Some(out) => Ok(out)
      case None => Err(BadFrame)
    else Err(UnknownCompression)
  }

  predicate LooksLikeFrame(b: Bytes) {
    |b| >= 4 && b[0] == 0x28 && b[1] == 0xB5 && b[2] == 0x2F && b[3] == 0xFD
  }

  /** Goes by the name first; an object without one is still decompressed if it looks like a frame that decodes. */
  function DecompressOrInfer(w: World, stored: Bytes, compression: Str): Result<Bytes, Fault> {
    match Decompress(w, stored, compression)
    case Err(e) => Err(e)
    case Ok(out) =>
      if compression != [] && compression != NONE then Ok(out)
      else if LooksLikeFrame(out) then
        match w.decompress(out)
        case Some(decoded) => Ok(decoded)
        case None => Ok(out)
      else Ok(out)
  }

  /** Content that, stored as it is, would be taken for a compressed form of something else. */
  predicate Misread(w: World, raw: Bytes) {
    LooksLikeFrame(raw) && w.decompress(raw).Some? && w.decompress(raw) != Some(raw)
  }

  /** form, labelled compression, is a way in which the engine may have stored raw. */
  ghost predicate IsFormOf(w: World, raw: Bytes, form: Bytes, compression: Str) {
    (form == w.compress(raw) && compression == ZSTD) || (form == raw && compression == [])
  }

  lemma MaybeCompressForm(w: World, raw: Bytes)
    ensures IsFormOf(w, raw, MaybeCompress(w, raw).0, MaybeCompress(w, raw).1)
    ensures |MaybeCompress(w, raw).0| <= |raw|
  {
  }

  /** Reading a stored form gives the content back, unless it was stored as it is and gets misread. */
  lemma FormReadsBack(w: World, raw: Bytes, form: Bytes, compression: Str)
    requires CodecLaw(w) && IsFormOf(w, raw, form, compression)
    ensures DecompressOrInfer(w, form, compression) == Ok(raw) <==> !(compression == [] && Misread(w, raw))
  {
    assert w.decompress(w.compress(raw)) == Some(raw);
  }

  /** Compression is inverted for exactly the contents that are either shrunk or not taken for a frame. */
  lemma CompressionInverts(w: World, raw: Bytes)
    requires CodecLaw(w)
    ensures DecompressOrInfer(w, MaybeCompress(w, raw).0, MaybeCompress(w, raw).1) == Ok(raw)
            <==> |w.compress(raw)| < |raw| || !Misread(w, raw)
  {
    var (form, compression) := MaybeCompress(w, raw);
    FormReadsBack(w, raw, form, compression);
  }
}
