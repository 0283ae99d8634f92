/** What content-defined chunking means, independently of how its input arrives. */
module Chunking {
  import opened Base
  import opened Words

  type GearTable = g: seq<u32> | |g| == 256 witness seq(256, _ => 0)

  /** The settings of a chunker: the sizes, the two masks and the table it rolls with. */
  datatype Params = Params(minSize: int, avgSize: int, maxSize: int, maskS: nat, maskL: nat, gear: GearTable)

  /** The rolling hash after one more byte, wrapping at 32 bits. */
  function Roll(gear: GearTable, h: u32, b: byte): u32 {
    (2 * h + gear[b]) % 0x1_0000_0000
  }

  /** The rolling hash of all bytes of s. */
  function GearHash(gear: GearTable, s: Bytes): u32 {
    if s == [] then 0 else Roll(gear, GearHash(gear, s[..|s| - 1]), s[|s| - 1])
  }

  function Mask(p: Params, length: nat): nat {
    if length >= p.avgSize then p.maskL else p.maskS
  }

  /** Would a chunk that has grown to s be cut right here? */
  predicate IsCut(p: Params, s: Bytes) {
    && |s| >= p.minSize
    && (|s| >= p.maxSize || And(GearHash(p.gear, s), Mask(p, |s|)) == 0)
  }

  /** No cut falls after any of the first n bytes. */
  ghost predicate Uncut(p: Params, s: Bytes, n: nat)
    requires n <= |s|
  {
    forall i {:trigger IsCut(p, s[..i])} :: 1 <= i <= n ==> !IsCut(p, s[..i])
  }

  /** The first cut at i or later. */
  function CutFrom(p: Params, s: Bytes, i: nat): (r: Option<nat>)
    requires i >= 1
    ensures r.Some? ==> i <= r.value <= |s|
    decreases |s| + 1 - i
  {
    if i > |s| then None
    else if IsCut(p, s[..i]) then Some(i)
    else CutFrom(p, s, i + 1)
  }

  /** It is a cut, and none comes before it. */
  lemma {:induction false} CutFromFinds(p: Params, s: Bytes, i: nat)
    requires i >= 1
    ensures CutFrom(p, s, i).Some? ==> IsCut(p, s[..CutFrom(p, s, i).value])
    ensures forall j {:trigger IsCut(p, s[..j])} ::
              i <= j <= |s| && (CutFrom(p, s, i).Some? ==> j < CutFrom(p, s, i).value) ==> !IsCut(p, s[..j])
    decreases |s| + 1 - i
  {
    if i <= |s| && !IsCut(p, s[..i]) {
      CutFromFinds(p, s, i + 1);
    }
  }

  /** The complete chunks of s, and the bytes after the last cut. */
  function Split(p: Params, s: Bytes): (seq<Bytes>, Bytes)
    decreases |s|
  {
    match CutFrom(p, s, 1)
    case None => ([], s)
    case Some(n) =>
      var (chunks, rest) := Split(p, s[n..]);
      ([s[..n]] + chunks, rest)
  }

  /** All the chunks of s in one shot. */
  function ChunkAll(p: Params, s: Bytes): seq<Bytes> {
    var (chunks, rest) := Split(p, s);
    if rest == [] then chunks else chunks + [rest]
  }

  // ----- The chunk list is the only one that obeys the cutting rule

  /** A chunk in the middle is cut at its end and nowhere before. */
  ghost predicate IsWhole(p: Params, c: Bytes) {
    c != [] && IsCut(p, c) && Uncut(p, c, |c| - 1)
  }

  /** The last chunk is cut nowhere before its end. */
  ghost predicate IsLast(p: Params, c: Bytes) {
    c != [] && Uncut(p, c, |c| - 1)
  }

  /** cs cuts s up just where the cutting rule says, and nowhere else. */
  ghost predicate IsChunking(p: Params, s: Bytes, cs: seq<Bytes>) {
    && Concat(cs) == s
    && (forall i :: 0 <= i < |cs| - 1 ==> IsWhole(p, cs[i]))
    && (cs != [] ==> IsLast(p, cs[|cs| - 1]))
  }

  lemma {:induction false} FirstCutIs(p: Params, s: Bytes, n: nat)
    requires 1 <= n <= |s| && IsCut(p, s[..n]) && Uncut(p, s, n - 1)
    ensures CutFrom(p, s, 1) == Some(n)
  {
    CutFromFinds(p, s, 1);
    var c := s[..n];
    assert CutFrom(p, s, 1).None? ==> !IsCut(p, c);
  }

  lemma FirstCutIsWhole(p: Params, s: Bytes, n: nat)
    requires CutFrom(p, s, 1) == Some(n)
    ensures IsWhole(p, s[..n])
  {
    CutFromFinds(p, s, 1);
    var c := s[..n];
    assert c[..n] == c;
    forall i | 1 <= i <= n - 1
      ensures !IsCut(p, c[..i])
    {
      assert c[..i] == s[..i];
    }
  }

  lemma {:induction false} SplitWhole(p: Params, c: Bytes, s: Bytes)
    requires IsWhole(p, c)
    ensures Split(p, c + s).0 == [c] + Split(p, s).0
    ensures Split(p, c + s).1 == Split(p, s).1
  {
    var t := c + s;
    assert t[..|c|] == c && t[|c|..] == s;
    assert Uncut(p, t, |c| - 1) by {
      forall i | 1 <= i <= |c| - 1
        ensures !IsCut(p, t[..i])
      {
        assert t[..i] == c[..i];
      }
    }
    FirstCutIs(p, t, |c|);
  }

  /** Nothing is lost, and what is left over holds no cut. */
  lemma {:induction false} SplitKeeps(p: Params, s: Bytes)
    ensures Concat(Split(p, s).0) + Split(p, s).1 == s
    ensures Uncut(p, Split(p, s).1, |Split(p, s).1|)
    decreases |s|
  {
    match CutFrom(p, s, 1)
    case None =>
      CutFromFinds(p, s, 1);
      SplitNone(p, s);
      assert Concat<byte>([]) + s == s;
    case Some(n) =>
      SplitKeeps(p, s[n..]);
      ConcatAppend([s[..n]], Split(p, s[n..]).0);
      ConcatOne(s[..n]);
  }

  lemma {:induction false} SplitIsWhole(p: Params, s: Bytes)
    ensures forall i :: 0 <= i < |Split(p, s).0| ==> IsWhole(p, Split(p, s).0[i])
    decreases |s|
  {
    match CutFrom(p, s, 1)
    case None =>
    case Some(n) =>
      FirstCutIsWhole(p, s, n);
      SplitIsWhole(p, s[n..]);
  }

  /** ChunkAll obeys the cutting rule, and no other chunk list does. */
  lemma {:induction false} ChunkingUnique(p: Params, s: Bytes, cs: seq<Bytes>)
    ensures IsChunking(p, s, cs) <==> cs == ChunkAll(p, s)
  {
    if cs == ChunkAll(p, s) {
      ChunkAllIsChunking(p, s);
    }
    if IsChunking(p, s, cs) {
      IsChunkAll(p, s, cs);
    }
  }

  lemma ChunkAllIsChunking(p: Params, s: Bytes)
    ensures IsChunking(p, s, ChunkAll(p, s))
  {
    SplitIsWhole(p, s);
    SplitKeeps(p, s);
    var (chunks, rest) := Split(p, s);
    var cs := ChunkAll(p, s);
    ConcatAppend(chunks, [rest]);
    ConcatOne(rest);
    assert Concat(chunks) + [] == Concat(chunks);
    if rest == [] && chunks != [] {
      assert cs[|cs| - 1] == chunks[|chunks| - 1];
    }
  }

  lemma {:induction false} IsChunkAll(p: Params, s: Bytes, cs: seq<Bytes>)
    requires IsChunking(p, s, cs)
    ensures cs == ChunkAll(p, s)
    decreases |cs|
  {
    if cs == [] {
      assert Split(p, s) == ([], []);
    } else {
      var c := cs[0];
      assert s == c + Concat(cs[1..]);
      if |cs| == 1 && !IsCut(p, c) {
        assert s == c && c[..|c|] == c;
        NoCutHere(p, s);
      } else {
        assert IsWhole(p, c) by {
          assert c[..|c|] == c;
        }
        IsChunkAll(p, Concat(cs[1..]), cs[1..]);
        SplitWhole(p, c, Concat(cs[1..]));
      }
    }
  }

  // ----- Arrival in pieces

  /** r is what comes of chunking s and then t. */
  ghost predicate Continues(p: Params, s: Bytes, t: Bytes, r: (seq<Bytes>, Bytes)) {
    var first := Split(p, s);
    var next := Split(p, first.1 + t);
    r.0 == first.0 + next.0 && r.1 == next.1
  }

  /** Chunking what was left over together with what comes next continues the chunking. */
  lemma {:induction false} SplitContinues(p: Params, s: Bytes, t: Bytes)
    ensures Continues(p, s, t, Split(p, s + t))
    decreases |s|
  {
    match CutFrom(p, s, 1)
    case None =>
      SplitNone(p, s);
    case Some(n) =>
      FirstCutIsWhole(p, s, n);
      SplitContinues(p, s[n..], t);
      assert s == s[..n] + s[n..];
      ContinuesAfter(p, s[..n], s[n..], t);
  }

  lemma ContinuesAfter(p: Params, c: Bytes, u: Bytes, t: Bytes)
    requires IsWhole(p, c) && Continues(p, u, t, Split(p, u + t))
    ensures Continues(p, c + u, t, Split(p, c + u + t))
  {
    SplitWhole(p, c, u);
    assert c + u + t == c + (u + t);
    SplitWhole(p, c, u + t);
    Associate([c], Split(p, u).0, Split(p, Split(p, u).1 + t).0);
  }

  lemma SplitNone(p: Params, s: Bytes)
    requires CutFrom(p, s, 1) == None
    ensures Split(p, s) == ([], s)
  {
  }

  lemma NoCutHere(p: Params, s: Bytes)
    requires Uncut(p, s, |s|)
    ensures Split(p, s) == ([], s)
  {
    CutFromFinds(p, s, 1);
    assert CutFrom(p, s, 1) == None;
    SplitNone(p, s);
  }

  // ----- Resynchronisation

  /** After a boundary the chunks are those of the bytes from there on. */
  lemma {:induction false} ChunksAfterBoundary(p: Params, s: Bytes, i: nat)
    requires i <= |ChunkAll(p, s)|
    ensures |Concat(ChunkAll(p, s)[..i])| <= |s|
    ensures ChunkAll(p, s)[i..] == ChunkAll(p, s[|Concat(ChunkAll(p, s)[..i])|..])
  {
    var cs := ChunkAll(p, s);
    ChunkAllIsChunking(p, s);
    assert cs == cs[..i] + cs[i..];
    ConcatAppend(cs[..i], cs[i..]);
    var n := |Concat(cs[..i])|;
    assert s[n..] == Concat(cs[i..]);
    assert IsChunking(p, s[n..], cs[i..]);
    ChunkingUnique(p, s[n..], cs[i..]);
  }

  /** Two inputs that end in the same bytes and share one boundary there share all the later ones. */
  lemma Resynchronises(p: Params, x: Bytes, y: Bytes, s: Bytes, i: nat, j: nat)
    requires i <= |ChunkAll(p, x + s)| && j <= |ChunkAll(p, y + s)|
    requires |Concat(ChunkAll(p, x + s)[..i])| - |x| == |Concat(ChunkAll(p, y + s)[..j])| - |y| >= 0
    ensures ChunkAll(p, x + s)[i..] == ChunkAll(p, y + s)[j..]
  {
    var n := |Concat(ChunkAll(p, x + s)[..i])|;
    var m := |Concat(ChunkAll(p, y + s)[..j])|;
    ChunksAfterBoundary(p, x + s, i);
    ChunksAfterBoundary(p, y + s, j);
    assert (x + s)[n..] == s[n - |x|..];
    assert (y + s)[m..] == s[m - |y|..];
  }

  // ----- Sizes and counts

  function Max(a: int, b: int): int {
    if a >= b then a else b
  }

  /** The shortest and the longest length a whole chunk can have. */
  function Shortest(p: Params): int {
    Max(1, p.minSize)
  }

  function Longest(p: Params): int {
    Max(Shortest(p), p.maxSize)
  }

  lemma WholeSize(p: Params, c: Bytes)
    requires IsWhole(p, c)
    ensures Shortest(p) <= |c| <= Longest(p)
  {
    if |c| > Longest(p) {
      assert IsCut(p, c[..Longest(p)]);
    }
  }

  lemma LastSize(p: Params, c: Bytes)
    requires IsLast(p, c)
    ensures 1 <= |c| <= Longest(p)
  {
    if |c| > Longest(p) {
      assert IsCut(p, c[..Longest(p)]);
    }
  }

  /** What Flush hands out is shorter than any chunk that had to be cut. */
  lemma RestSize(p: Params, s: Bytes)
    ensures |Split(p, s).1| < Longest(p)
  {
    SplitKeeps(p, s);
    var rest := Split(p, s).1;
    if |rest| >= Longest(p) {
      assert IsCut(p, rest[..Longest(p)]);
    }
  }

  lemma OneMore(n: int, size: int)
    ensures (n + 1) * size == n * size + size
  {
  }

  /** Between ceil(n / longest) and n / shortest + 1 chunks, the last one alone being free of the lower bound. */
  lemma CountBounds(p: Params, s: Bytes)
    ensures |s| <= |ChunkAll(p, s)| * Longest(p)
    ensures (|ChunkAll(p, s)| - 1) * Shortest(p) <= |s|
  {
    ChunkingUnique(p, s, ChunkAll(p, s));
    CountBoundsOf(p, s, ChunkAll(p, s));
  }

  lemma {:induction false} CountBoundsOf(p: Params, s: Bytes, cs: seq<Bytes>)
    requires IsChunking(p, s, cs)
    ensures |s| <= |cs| * Longest(p)
    ensures (|cs| - 1) * Shortest(p) <= |s|
    decreases |cs|
  {
    if cs != [] {
      var rest := cs[1..];
      CountBoundsOf(p, Concat(rest), rest);
      assert |s| == |cs[0]| + |Concat(rest)|;
      OneMore(|rest|, Longest(p));
      OneMore(|rest| - 1, Shortest(p));
      if rest == [] {
        LastSize(p, cs[0]);
      } else {
        WholeSize(p, cs[0]);
      }
    }
  }

  // ----- The hash only sees a window

  /** Each byte's table value counts twice as much for every byte that follows it. */
  function WeightedSum(gear: GearTable, s: Bytes): int {
    if s == [] then 0 else gear[s[0]] * Pow2(|s| - 1) + WeightedSum(gear, s[1..])
  }

  lemma {:induction false} WeightedSumSnoc(gear: GearTable, s: Bytes, b: byte)
    ensures WeightedSum(gear, s + [b]) == 2 * WeightedSum(gear, s) + gear[b]
  {
    if s == [] {
      assert [b][1..] == [];
      assert WeightedSum(gear, [b]) == gear[b] * Pow2(0) + WeightedSum(gear, []);
    } else {
      assert (s + [b])[1..] == s[1..] + [b];
      WeightedSumSnoc(gear, s[1..], b);
      var g, w := gear[s[0]], Pow2(|s| - 1);
      assert Pow2(|s|) == 2 * w;
      assert g * (2 * w) == 2 * (g * w);
    }
  }

  /** The rolling hash is the weighted sum of the table values, modulo 2^32. */
  lemma {:induction false} GearHashIsWeightedSum(gear: GearTable, s: Bytes)
    ensures GearHash(gear, s) == WeightedSum(gear, s) % 0x1_0000_0000
  {
    if s != [] {
      var t, b := s[..|s| - 1], s[|s| - 1];
      assert s == t + [b];
      GearHashIsWeightedSum(gear, t);
      WeightedSumSnoc(gear, t, b);
      RollSum(WeightedSum(gear, t), gear[b]);
    }
  }

  /** Wrapping before a step of the sum does not show after it. */
  lemma RollSum(sum: int, g: int)
    ensures (2 * (sum % 0x1_0000_0000) + g) % 0x1_0000_0000 == (2 * sum + g) % 0x1_0000_0000
  {
    AddMultiple(2 * sum + g, 0x1_0000_0000, -2 * (sum / 0x1_0000_0000));
  }

  /** So its low bits are those of the sum. */
  lemma LowBitsOfSum(gear: GearTable, s: Bytes, k: nat)
    requires k <= 32
    ensures And(GearHash(gear, s), Pow2(k) - 1) == WeightedSum(gear, s) % Pow2(k)
  {
    AndLowBits(GearHash(gear, s), k);
    GearHashIsWeightedSum(gear, s);
    WrapKeepsLowBits(WeightedSum(gear, s), k);
  }

  /** The low k bits of the hash depend on the last k bytes only. */
  lemma {:induction false} GearWindow(gear: GearTable, s: Bytes, k: nat)
    requires k <= 32 && k <= |s|
    ensures GearHash(gear, s) % Pow2(k) == GearHash(gear, s[|s| - k..]) % Pow2(k)
    decreases k
  {
    if k > 0 {
      var t, b := s[..|s| - 1], s[|s| - 1];
      var w := s[|s| - k..];
      assert w[..|w| - 1] == t[|t| - (k - 1)..] && w[|w| - 1] == b;
      GearWindow(gear, t, k - 1);
      var h, h' := GearHash(gear, t), GearHash(gear, w[..|w| - 1]);
      RollWindow(gear, h, h', b, k);
    }
  }

  lemma RollWindow(gear: GearTable, h: u32, h': u32, b: byte, k: nat)
    requires 1 <= k <= 32 && h % Pow2(k - 1) == h' % Pow2(k - 1)
    ensures Roll(gear, h, b) % Pow2(k) == Roll(gear, h', b) % Pow2(k)
  {
    DoubleRemainder(h, h', gear[b], Pow2(k - 1));
    WrapKeepsLowBits(2 * h + gear[b], k);
    WrapKeepsLowBits(2 * h' + gear[b], k);
  }

  /** Whether a position is a cut does not depend on where its chunk began. */
  lemma CutIgnoresStart(p: Params, a: Bytes, b: Bytes, w: Bytes, k: nat)
    requires k <= 32 && k <= |w|
    requires Mask(p, |a + w|) == Mask(p, |b + w|) == Pow2(k) - 1
    requires p.minSize <= |a + w| < p.maxSize && p.minSize <= |b + w| < p.maxSize
    ensures IsCut(p, a + w) <==> IsCut(p, b + w)
  {
    var s, t := a + w, b + w;
    assert s[|s| - k..] == w[|w| - k..] == t[|t| - k..];
    GearWindow(p.gear, s, k);
    GearWindow(p.gear, t, k);
    AndLowBits(GearHash(p.gear, s), k);
    AndLowBits(GearHash(p.gear, t), k);
  }
}
