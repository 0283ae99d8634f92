/** The streaming chunker, proved against the one-shot chunking of its whole input. */
module Chunkers {
  import opened Base
  import opened Words
  import opened Chunking

  datatype ChunkOptions = ChunkOptions(minSize: int64, avgSize: int64, maxSize: int64)

  datatype ChunkData = ChunkData(hash: Str, data: Bytes, size: nat)

  /** The unsigned 64-bit reading of a signed integer. */
  function Unsigned(n: int64): nat {
    n % 0x1_0000_0000_0000_0000
  }

  function Log2(v: nat): (bits: nat)
    ensures v >= 1 ==> Pow2(bits) <= v < Pow2(bits + 1)
    ensures v <= 1 <==> bits == 0
  {
    if v <= 1 then 0 else
      var b := Log2(v / 2);
      assert Pow2(b + 1) == 2 * Pow2(b) && Pow2(b + 2) == 2 * Pow2(b + 1);
      b + 1
  }

  /** Counts the halvings that bring n down to one. */
  method Ilog2(n: int64) returns (bits: nat)
    ensures bits == Log2(Unsigned(n))
    ensures n >= 1 ==> Pow2(bits) <= n < Pow2(bits + 1)
  {
    bits := 0;
    var v := Unsigned(n);
    while v > 1
      invariant bits + Log2(v) == Log2(Unsigned(n))
      decreases v
    {
      v := v / 2;
      bits := bits + 1;
    }
  }

  /** A 32-bit 1 shifted left by k. */
  function ShiftedOne(k: nat): u32 {
    Pow2Of32();
    if k >= 32 then 0 else Pow2Mono(k, 31); Pow2(k)
  }

  function LowMask(k: nat): u32 {
    (ShiftedOne(k) - 1) % 0x1_0000_0000
  }

  /** The mask has the k low bits set, or all 32 of them. */
  lemma LowMaskIs(k: nat)
    ensures LowMask(k) == Pow2(if k <= 32 then k else 32) - 1
  {
    Pow2Of32();
    if k < 32 {
      Pow2Mono(k, 31);
    }
  }

  /** A mask for fewer than two bytes would need a shift by a negative amount, which stops the engine. */
  predicate Acceptable(o: ChunkOptions) {
    o.avgSize != 0 && o.avgSize != 1
  }

  function ParamsWith(o: ChunkOptions, bits: nat, gear: GearTable): Params
    requires bits >= 1
  {
    Params(o.minSize, o.avgSize, o.maxSize, LowMask(bits + 1), LowMask(bits - 1), gear)
  }

  function ParamsOf(o: ChunkOptions, gear: GearTable): Params
    requires Acceptable(o)
  {
    ParamsWith(o, Log2(Unsigned(o.avgSize)), gear)
  }

  const DEFAULT_OPTIONS := ChunkOptions(1024 * 1024, 4 * 1024 * 1024, 16 * 1024 * 1024)

  lemma Pow2Of22()
    ensures Pow2(22) == 4 * 1024 * 1024 && Pow2(23) == 2 * Pow2(22)
  {
    assert Pow2(11) == 2048;
    Pow2Add(11, 11);
  }

  /** There is only one logarithm. */
  lemma Log2Is(v: nat, bits: nat)
    requires Pow2(bits) <= v < Pow2(bits + 1)
    ensures Log2(v) == bits
  {
    if Log2(v) < bits {
      Pow2Mono(Log2(v) + 1, bits);
    } else if Log2(v) > bits {
      Pow2Mono(bits + 1, Log2(v));
    }
  }

  /**
    Once a window of as many bytes as the wider mask has bits lies behind a position, the test
    there does not depend on where the chunk began.
   */
  lemma WindowDecidesCut(o: ChunkOptions, gear: GearTable, a: Bytes, b: Bytes, w: Bytes)
    requires 2 <= o.avgSize && |w| >= Log2(Unsigned(o.avgSize)) + 1
    requires |a + w| >= o.avgSize <==> |b + w| >= o.avgSize
    requires o.minSize <= |a + w| < o.maxSize && o.minSize <= |b + w| < o.maxSize
    ensures IsCut(ParamsOf(o, gear), a + w) <==> IsCut(ParamsOf(o, gear), b + w)
  {
    var bits := Log2(Unsigned(o.avgSize));
    var wanted := if |a + w| >= o.avgSize then bits - 1 else bits + 1;
    var k := if wanted <= 32 then wanted else 32;
    MaskWith(o, bits, gear, |a + w|);
    MaskWith(o, bits, gear, |b + w|);
    LowMaskIs(wanted);
    CutIgnoresStart(ParamsWith(o, bits, gear), a, b, w, k);
  }

  lemma DefaultBits()
    ensures Log2(Unsigned(DEFAULT_OPTIONS.avgSize)) == 22
  {
    Pow2Of22();
    Log2Is(Unsigned(DEFAULT_OPTIONS.avgSize), 22);
  }

  /** Unless something else is asked for, 23 bytes decide. */
  lemma DefaultWindow(gear: GearTable, a: Bytes, b: Bytes, w: Bytes)
    requires |w| >= 23
    requires |a + w| >= DEFAULT_OPTIONS.avgSize <==> |b + w| >= DEFAULT_OPTIONS.avgSize
    requires DEFAULT_OPTIONS.minSize <= |a + w| < DEFAULT_OPTIONS.maxSize
    requires DEFAULT_OPTIONS.minSize <= |b + w| < DEFAULT_OPTIONS.maxSize
    ensures IsCut(ParamsOf(DEFAULT_OPTIONS, gear), a + w) <==> IsCut(ParamsOf(DEFAULT_OPTIONS, gear), b + w)
  {
    DefaultBits();
    WindowDecidesCut(DEFAULT_OPTIONS, gear, a, b, w);
  }

  lemma MaskWith(o: ChunkOptions, bits: nat, gear: GearTable, length: nat)
    requires bits >= 1
    ensures Mask(ParamsWith(o, bits, gear), length) == LowMask(if length >= o.avgSize then bits - 1 else bits + 1)
  {
  }

  // ----- The cutting rule in numbers

  function AtMost32(k: nat): nat {
    if k <= 32 then k else 32
  }

  /** How many low bits of the hash have to be zero for a cut at this length: fewer from the average size on. */
  function TestedBits(o: ChunkOptions, length: nat): nat
    requires Acceptable(o)
  {
    BitsAt(o, Log2(Unsigned(o.avgSize)), length)
  }

  function BitsAt(o: ChunkOptions, bits: nat, length: nat): (k: nat)
    requires bits >= 1
    ensures k <= 32
  {
    AtMost32(if length >= o.avgSize then bits - 1 else bits + 1)
  }

  /** A chunk that has grown to c ends here: it is too long, or its weighted sum has that many factors of two. */
  predicate EndsHere(o: ChunkOptions, gear: GearTable, c: Bytes)
    requires Acceptable(o)
  {
    && |c| >= o.minSize
    && (|c| >= o.maxSize || WeightedSum(gear, c) % Pow2(TestedBits(o, |c|)) == 0)
  }

  lemma MaskAt(o: ChunkOptions, bits: nat, gear: GearTable, length: nat)
    requires bits >= 1
    ensures Mask(ParamsWith(o, bits, gear), length) == Pow2(BitsAt(o, bits, length)) - 1
  {
    MaskWith(o, bits, gear, length);
    LowMaskIs(if length >= o.avgSize then bits - 1 else bits + 1);
  }

  lemma CutByMask(p: Params, c: Bytes, mask: nat)
    requires Mask(p, |c|) == mask
    ensures IsCut(p, c) <==> |c| >= p.minSize && (|c| >= p.maxSize || And(GearHash(p.gear, c), mask) == 0)
  {
  }

  /** The rolling test is this one. */
  lemma CutMeans(o: ChunkOptions, gear: GearTable, c: Bytes)
    requires Acceptable(o)
    ensures IsCut(ParamsOf(o, gear), c) <==> EndsHere(o, gear, c)
  {
    var bits := Log2(Unsigned(o.avgSize));
    MaskAt(o, bits, gear, |c|);
    LowBitsOfSum(gear, c, BitsAt(o, bits, |c|));
    CutByMask(ParamsWith(o, bits, gear), c, Pow2(BitsAt(o, bits, |c|)) - 1);
  }

  /** It ends at none of its proper prefixes. */
  ghost predicate EndsNoEarlier(o: ChunkOptions, gear: GearTable, c: Bytes)
    requires Acceptable(o)
  {
    forall i {:trigger c[..i]} :: 1 <= i < |c| ==> !EndsHere(o, gear, c[..i])
  }

  /** The chunks make up s, none is empty or ends any earlier, and all but the last end where they do by the rule. */
  ghost predicate CutByRule(o: ChunkOptions, gear: GearTable, s: Bytes, cs: seq<Bytes>)
    requires Acceptable(o)
  {
    && Concat(cs) == s
    && (forall i :: 0 <= i < |cs| ==> cs[i] != [] && EndsNoEarlier(o, gear, cs[i]))
    && (forall i :: 0 <= i < |cs| - 1 ==> EndsHere(o, gear, cs[i]))
  }

  lemma UncutMeans(o: ChunkOptions, gear: GearTable, c: Bytes)
    requires Acceptable(o) && c != []
    ensures Uncut(ParamsOf(o, gear), c, |c| - 1) <==> EndsNoEarlier(o, gear, c)
  {
    forall i | 1 <= i < |c|
      ensures IsCut(ParamsOf(o, gear), c[..i]) <==> EndsHere(o, gear, c[..i])
    {
      CutMeans(o, gear, c[..i]);
    }
    if EndsNoEarlier(o, gear, c) {
      forall i | 1 <= i <= |c| - 1
        ensures !IsCut(ParamsOf(o, gear), c[..i])
      {
        assert !EndsHere(o, gear, c[..i]);
      }
    }
  }

  /** Of all the ways to divide s, chunking takes the one that follows the rule in numbers. */
  lemma ChunkingByRule(o: ChunkOptions, gear: GearTable, s: Bytes, cs: seq<Bytes>)
    requires Acceptable(o)
    ensures CutByRule(o, gear, s, cs) <==> cs == ChunkAll(ParamsOf(o, gear), s)
  {
    var p := ParamsOf(o, gear);
    ChunkingUnique(p, s, cs);
    if cs != [] {
      forall i | 0 <= i < |cs| && cs[i] != []
        ensures Uncut(p, cs[i], |cs[i]| - 1) <==> EndsNoEarlier(o, gear, cs[i])
        ensures IsCut(p, cs[i]) <==> EndsHere(o, gear, cs[i])
      {
        UncutMeans(o, gear, cs[i]);
        CutMeans(o, gear, cs[i]);
      }
      if IsChunking(p, s, cs) {
        forall i | 0 <= i < |cs|
          ensures cs[i] != [] && EndsNoEarlier(o, gear, cs[i])
        {
          assert i < |cs| - 1 ==> IsWhole(p, cs[i]);
        }
      }
    }
  }

  /**
    In full, for an average size of that many bits: a chunk between the bounds ends where its weighted sum is a
    multiple of a power of two, a smaller one from the average size on, and at none of its prefixes it is.
   */
  lemma CutsInNumbers(o: ChunkOptions, gear: GearTable, s: Bytes, i: nat, bits: nat)
    requires Acceptable(o) && Pow2(bits) <= Unsigned(o.avgSize) < Pow2(bits + 1)
    requires i < |ChunkAll(ParamsOf(o, gear), s)|
    ensures bits >= 1
    ensures var cs := ChunkAll(ParamsOf(o, gear), s);
            i < |cs| - 1 && o.minSize <= |cs[i]| < o.maxSize ==>
              WeightedSum(gear, cs[i]) % Pow2(AtMost32(if |cs[i]| >= o.avgSize then bits - 1 else bits + 1)) == 0
    ensures var c := ChunkAll(ParamsOf(o, gear), s)[i];
            forall n {:trigger c[..n]} :: 1 <= n < |c| && o.minSize <= n < o.maxSize ==>
              WeightedSum(gear, c[..n]) % Pow2(AtMost32(if n >= o.avgSize then bits - 1 else bits + 1)) != 0
  {
    Log2Is(Unsigned(o.avgSize), bits);
    ChunkingByRule(o, gear, s, ChunkAll(ParamsOf(o, gear), s));
  }

  lemma GearHashOneMore(gear: GearTable, s: Bytes, i: nat)
    requires i < |s|
    ensures GearHash(gear, s[..i + 1]) == Roll(gear, GearHash(gear, s[..i]), s[i])
  {
    assert s[..i + 1][..i] == s[..i];
  }

  class Chunker {
    const params: Params
    var buf: Bytes
    var gearHash: u32
    var pos: nat

    /** Everything buffered has been examined, and no cut was found in it. */
    ghost predicate Valid()
      reads this
    {
      pos == |buf| && gearHash == GearHash(params.gear, buf) && Uncut(params, buf, |buf|)
    }

    constructor (o: ChunkOptions, gear: GearTable)
      requires Acceptable(o)
      ensures Valid() && params == ParamsOf(o, gear) && buf == []
    {
      var bits := Ilog2(o.avgSize);
      params := ParamsWith(o, bits, gear);
      buf, gearHash, pos := [], 0, 0;
    }

    /** Takes in the next byte; is there a cut behind it? */
    method Examine() returns (cut: bool)
      requires pos < |buf| && gearHash == GearHash(params.gear, buf[..pos]) && Uncut(params, buf, pos)
      modifies this`gearHash, this`pos
      ensures pos == old(pos) + 1 && gearHash == GearHash(params.gear, buf[..pos])
      ensures cut <==> IsCut(params, buf[..pos])
      ensures Uncut(params, buf, pos - 1) && (!cut ==> Uncut(params, buf, pos))
    {
      GearHashOneMore(params.gear, buf, pos);
      gearHash := (2 * gearHash + params.gear[buf[pos]]) % 0x1_0000_0000;
      pos := pos + 1;
      if pos < params.minSize {
        return false;
      }
      cut := pos >= params.maxSize;
      if !cut {
        var mask := params.maskS;
        if pos >= params.avgSize {
          mask := params.maskL;
        }
        cut := And(gearHash, mask) == 0;
      }
    }

    /** Hands out the chunks that data completes and keeps the rest. */
    method Push(data: Bytes) returns (out: seq<Bytes>)
      requires Valid()
      modifies this
      ensures Valid()
      ensures (out, buf) == Split(params, old(buf) + data)
    {
      ghost var all := buf + data;
      ExtendUncut(params, buf, data);
      buf := buf + data;
      out := [];
      while pos < |buf|
        invariant pos <= |buf|
        invariant gearHash == GearHash(params.gear, buf[..pos])
        invariant Uncut(params, buf, pos)
        invariant HandedOut(params, all, out, buf)
        decreases |buf|, |buf| - pos
      {
        var cut := Examine();
        if cut {
          CutHere(params, all, out, buf, pos);
          var chunk := buf[..pos];
          out := out + [chunk];
          buf := buf[pos..];
          pos := 0;
          gearHash := 0;
        }
      }
      assert buf[..pos] == buf;
      AllHandedOut(params, all, out, buf);
    }

    /** Hands out what is left, if anything, and starts afresh. */
    method Flush() returns (last: Option<Bytes>)
      requires Valid()
      modifies this
      ensures Valid() && buf == []
      ensures last == if old(buf) == [] then None else Some(old(buf))
    {
      if |buf| == 0 {
        return None;
      }
      last := Some(buf);
      buf := [];
      pos := 0;
      gearHash := 0;
    }
  }

  /** The chunks handed out and those still to be found in buf make up the chunking of all. */
  ghost predicate HandedOut(p: Params, all: Bytes, out: seq<Bytes>, buf: Bytes) {
    out + Split(p, buf).0 == Split(p, all).0 && Split(p, buf).1 == Split(p, all).1
  }

  lemma CutHere(p: Params, all: Bytes, out: seq<Bytes>, buf: Bytes, n: nat)
    requires HandedOut(p, all, out, buf)
    requires 1 <= n <= |buf| && IsCut(p, buf[..n]) && Uncut(p, buf, n - 1)
    ensures HandedOut(p, all, out + [buf[..n]], buf[n..])
  {
    FirstCutIs(p, buf, n);
    var c := buf[..n];
    assert out + ([c] + Split(p, buf[n..]).0) == out + [c] + Split(p, buf[n..]).0;
  }

  lemma AllHandedOut(p: Params, all: Bytes, out: seq<Bytes>, buf: Bytes)
    requires HandedOut(p, all, out, buf) && Uncut(p, buf, |buf|)
    ensures Split(p, all) == (out, buf)
  {
    NoCutHere(p, buf);
    assert out + [] == out;
  }

  lemma ExtendUncut(p: Params, s: Bytes, t: Bytes)
    requires Uncut(p, s, |s|)
    ensures Uncut(p, s + t, |s|)
    ensures (s + t)[..|s|] == s
    ensures HandedOut(p, s + t, [], s + t)
  {
    forall i | 1 <= i <= |s|
      ensures !IsCut(p, (s + t)[..i])
    {
      assert (s + t)[..i] == s[..i];
    }
  }

  function Records(sha: Bytes -> Str, cs: seq<Bytes>): seq<ChunkData> {
    Map((c: Bytes) => ChunkData(sha(c), c, |c|), cs)
  }

  function DataOf(c: ChunkData): Bytes {
    c.data
  }

  /** Each record is that of its data, and the data are the chunks of s by the rule. */
  ghost predicate RecordsByRule(o: ChunkOptions, gear: GearTable, sha: Bytes -> Str, s: Bytes, records: seq<ChunkData>)
    requires Acceptable(o)
  {
    && CutByRule(o, gear, s, Map(DataOf, records))
    && forall c :: c in records ==> c.hash == sha(c.data) && c.size == |c.data|
  }

  lemma RecordsFollowRule(o: ChunkOptions, gear: GearTable, sha: Bytes -> Str, s: Bytes)
    requires Acceptable(o)
    ensures RecordsByRule(o, gear, sha, s, Records(sha, ChunkAll(ParamsOf(o, gear), s)))
  {
    var cs := ChunkAll(ParamsOf(o, gear), s);
    assert Map(DataOf, Records(sha, cs)) == cs;
    ChunkingByRule(o, gear, s, cs);
  }

  lemma RecordsAppend(sha: Bytes -> Str, a: seq<Bytes>, b: seq<Bytes>)
    ensures Records(sha, a + b) == Records(sha, a) + Records(sha, b)
  {
  }

  lemma SplitOneMore(p: Params, pieces: seq<Bytes>, i: nat)
    requires i < |pieces|
    ensures Continues(p, Concat(pieces[..i]), pieces[i], Split(p, Concat(pieces[..i + 1])))
  {
    assert pieces[..i + 1] == pieces[..i] + [pieces[i]];
    ConcatAppend(pieces[..i], [pieces[i]]);
    ConcatOne(pieces[i]);
    SplitContinues(p, Concat(pieces[..i]), pieces[i]);
  }

  /** A file as its read loop meets it: the pieces read, and whether the reading then failed. */
  datatype FileReads = FileReads(pieces: seq<Bytes>, failed: bool)

  /** However the reads fall, the chunks of a file are those of its bytes. */
  method ChunkFile(file: FileReads, o: ChunkOptions, gear: GearTable, sha: Bytes -> Str)
    returns (r: Result<seq<ChunkData>, string>)
    requires Acceptable(o)
    ensures r.Err? <==> file.failed
    ensures r.Ok? ==> r.value == Records(sha, ChunkAll(ParamsOf(o, gear), Concat(file.pieces)))
    ensures r.Ok? ==> RecordsByRule(o, gear, sha, Concat(file.pieces), r.value)
  {
    var cdc := new Chunker(o, gear);
    var chunks := [];
    var i := 0;
    ghost var raws := [];
    NoCutHere(cdc.params, []);
    while i < |file.pieces|
      invariant i <= |file.pieces| && fresh(cdc) && cdc.Valid() && cdc.params == ParamsOf(o, gear)
      invariant (raws, cdc.buf) == Split(cdc.params, Concat(file.pieces[..i]))
      invariant chunks == Records(sha, raws)
    {
      SplitOneMore(cdc.params, file.pieces, i);
      var out := cdc.Push(file.pieces[i]);
      RecordsAppend(sha, raws, out);
      chunks := chunks + Records(sha, out);
      raws := raws + out;
      i := i + 1;
    }
    assert file.pieces[..i] == file.pieces;
    if file.failed {
      return Err("read");
    }
    var last := cdc.Flush();
    if last.Some? {
      RecordsAppend(sha, raws, [last.value]);
      chunks := chunks + Records(sha, [last.value]);
    }
    RecordsFollowRule(o, gear, sha, Concat(file.pieces));
    return Ok(chunks);
  }
}
