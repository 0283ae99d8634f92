/**
  The primitives the engine is built on (hash, compressor, cipher, key derivation, base64), as
  functions of a World, and the laws they obey.
 */
module Primitives {
  import opened Base

  /** A text to be sealed or opened, with the key and the nonce. */
  datatype Sealing = Sealing(key: Bytes, nonce: Bytes, text: Bytes)

  /** What a key is derived from. */
  datatype Derivation = Derivation(secret: Bytes, info: Bytes)

  datatype World = World(
    sha: Bytes -> Str,
    compress: Bytes -> Bytes,
    decompress: Bytes -> Option<Bytes>,
    seal: Sealing -> Bytes,
    open: Sealing -> Option<Bytes>,
    derive: Derivation -> Bytes,
    toBase64: Bytes -> Str,
    fromBase64: Str -> Option<Bytes>)

  const KEY_SIZE := 32
  const NONCE_SIZE := 12

  // ----- Hexadecimal text

  function HexDigit(n: int): byte
    requires 0 <= n < 16
  {
    if n < 10 then 48 + n else 87 + n
  }

  function HexValue(c: byte): Option<int>
    ensures HexValue(c).Some? ==> 0 <= HexValue(c).value < 16
  {
    if 48 <= c <= 57 then Some(c - 48)
    else if 97 <= c <= 102 then Some(c - 87)
    else if 65 <= c <= 70 then Some(c - 55)
    else None
  }

  function HexEncode(b: Bytes): Str {
    if b == [] then [] else [HexDigit(b[0] / 16), HexDigit(b[0] % 16)] + HexEncode(b[1..])
  }

  function HexDecode(s: Str): Option<Bytes> {
    if s == [] then Some([])
    else if |s| == 1 then None
    else
      match (HexValue(s[0]), HexValue(s[1]), HexDecode(s[2..]))
      case (Some(hi), Some(lo), Some(rest)) => Some([16 * hi + lo] + rest)
      case _ => None
  }

  lemma {:induction false} HexRoundTrip(b: Bytes)
    ensures HexDecode(HexEncode(b)) == Some(b)
    ensures IsLowerHex(HexEncode(b))
    ensures |HexEncode(b)| == 2 * |b|
  {
    if b != [] {
      HexRoundTrip(b[1..]);
      var s := HexEncode(b);
      assert s[2..] == HexEncode(b[1..]);
      assert b == [b[0]] + b[1..];
      assert s[..2] + s[2..] == s;
    }
  }

  predicate IsLowerHexDigit(c: byte) {
    48 <= c <= 57 || 97 <= c <= 102
  }

  predicate IsLowerHex(s: Str) {
    forall i :: 0 <= i < |s| ==> IsLowerHexDigit(s[i])
  }

  // ----- Laws

  /**
    No collisions, and digests are written as lower-case hex of whole bytes.  That digests have a
    fixed length is not assumed: with it no collision-free function exists.
   */
  ghost predicate HashLaw(w: World) {
    && (forall x, y {:trigger Collides(w, x, y)} :: !Collides(w, x, y))
    && (forall x {:trigger ProperDigest(w, x)} :: ProperDigest(w, x))
  }

  ghost predicate Collides(w: World, x: Bytes, y: Bytes) {
    w.sha(x) == w.sha(y) && x != y
  }

  ghost predicate ProperDigest(w: World, x: Bytes) {
    w.sha(x) != [] && IsLowerHex(w.sha(x)) && HexDecode(w.sha(x)).Some?
  }

  lemma NoCollision(w: World, x: Bytes, y: Bytes)
    requires HashLaw(w)
    ensures w.sha(x) == w.sha(y) ==> x == y
  {
    assert !Collides(w, x, y);
  }

  lemma DigestIsProper(w: World, x: Bytes)
    requires HashLaw(w)
    ensures ProperDigest(w, x)
  {
  }

  ghost predicate CodecLaw(w: World) {
    forall x {:trigger w.compress(x)} :: w.decompress(w.compress(x)) == Some(x)
  }

  predicate GoodKey(key: Bytes) {
    |key| == 16 || |key| == 24 || |key| == 32
  }

  /** What is sealed under a key opens under it, and is never empty; derived keys have the key size. */
  ghost predicate CipherLaw(w: World) {
    && (forall x: Sealing {:trigger w.seal(x)} :: GoodKey(x.key) ==>
      w.open(x.(text := w.seal(x))) == Some(x.text) && w.seal(x) != [])
    && (forall x: Derivation {:trigger w.derive(x)} :: |w.derive(x)| == KEY_SIZE)
  }

  /** What is sealed under one key does not open under the other. */
  ghost predicate Separate(w: World, k: Bytes, k': Bytes) {
    && (forall x: Sealing {:trigger w.seal(x)} :: x.key == k ==> w.open(Sealing(k', x.nonce, w.seal(x))) == None)
    && (forall x: Sealing {:trigger w.seal(x)} :: x.key == k' ==> w.open(Sealing(k, x.nonce, w.seal(x))) == None)
  }

  ghost predicate Base64Law(w: World) {
    forall x {:trigger w.toBase64(x)} :: w.fromBase64(w.toBase64(x)) == Some(x) && w.toBase64(x) != []
  }

  ghost predicate Lawful(w: World) {
    HashLaw(w) && CodecLaw(w) && CipherLaw(w) && Base64Law(w)
  }

  // ----- A world in which all the laws hold, so that assuming them excludes nothing by contradiction

  function ToySeal(k: Bytes, p: Bytes): Bytes {
    [if |k| < 256 then |k| else 0] + k + p
  }

  function ToyOpen(k: Bytes, c: Bytes): Option<Bytes> {
    if |c| > |k| && c[0] == |k| && c[1..|k| + 1] == k then Some(c[|k| + 1..]) else None
  }

  /** A key that shows the first byte of the secret, and the byte of the label that tells its two uses apart. */
  function ToyDerive(x: Derivation): Bytes {
    [if x.secret == [] then 0 else x.secret[0], if |x.info| > 18 then x.info[18] else 0] + seq(KEY_SIZE - 2, _ => 0)
  }

  function ToyWorld(): World {
    World(
      (x: Bytes) => [48, 48] + HexEncode(x),
      (x: Bytes) => x,
      (x: Bytes) => Some(x),
      (x: Sealing) => ToySeal(x.key, x.text),
      (x: Sealing) => ToyOpen(x.key, x.text),
      (x: Derivation) => ToyDerive(x),
      (x: Bytes) => [65] + x,
      (s: Str) => if s == [] then None else Some(s[1..]))
  }

  lemma ToySealOpens(k: Bytes, k': Bytes, p: Bytes)
    requires GoodKey(k) && GoodKey(k')
    ensures ToyOpen(k', ToySeal(k, p)) == if k == k' then Some(p) else None
  {
    var c := ToySeal(k, p);
    assert c[0] == |k| && c[1..|k| + 1] == k && c[|k| + 1..] == p;
    if |k'| == |k| {
      assert c[1..|k'| + 1] == k;
    }
  }

  /** The laws are consistent, even for any two distinct keys at once. */
  lemma LawsAreConsistent(k: Bytes, k': Bytes)
    requires GoodKey(k) && GoodKey(k') && k != k'
    ensures Lawful(ToyWorld()) && Separate(ToyWorld(), k, k')
  {
    var w := ToyWorld();
    forall x, y | w.sha(x) == w.sha(y)
      ensures !Collides(w, x, y)
    {
      HexRoundTrip(x);
      HexRoundTrip(y);
      assert w.sha(x)[2..] == HexEncode(x) && w.sha(y)[2..] == HexEncode(y);
    }
    forall x
      ensures ProperDigest(w, x)
    {
      HexRoundTrip(x);
      assert w.sha(x)[2..] == HexEncode(x);
    }
    forall x: Sealing | GoodKey(x.key)
      ensures w.open(x.(text := w.seal(x))) == Some(x.text)
    {
      ToySealOpens(x.key, x.key, x.text);
    }
    forall x: Sealing | x.key == k || x.key == k'
      ensures x.key == k ==> w.open(Sealing(k', x.nonce, w.seal(x))) == None
      ensures x.key == k' ==> w.open(Sealing(k, x.nonce, w.seal(x))) == None
    {
      ToySealOpens(k, k', x.text);
      ToySealOpens(k', k, x.text);
    }
  }
}
