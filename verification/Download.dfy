/** The concurrent download of data chunks into one cache. */
module Download {
  import opened Base
  import opened Primitives
  import opened Codec
  import opened Pool
  import opened Merkle
  import opened Transfer

  /** How a snapshot is read: with which reader of trees, under which data key, and whether chunks are verified. */
  datatype Reader = Reader(w: World, format: Format, dek: Option<Bytes>, verify: bool)

  type Cache = map<Str, Bytes>

  // ----- The two kinds of jobs

  /** One atomic step for a pack: the next of its chunks is decoded and put into the cache. */
  function PackStep(d: Reader, entry: PackEntry, pc: nat, cache: Cache): Progress<Cache, Fault> {
    if entry.data.Err? then Fail(entry.data.error)
    else if pc >= |entry.chunks| then Succeed(cache)
    else
      match DecodePackChunk(d.w, d.dek, d.verify, entry.data.value, entry.chunks[pc])
      case Err(e) => Fail(e)
      case Ok(data) => More(cache[entry.chunks[pc].hash := data])
  }

  function StandaloneStep(d: Reader, entry: Standalone, cache: Cache): Progress<Cache, Fault> {
    match DecodeStandalone(d.w, d.dek, d.verify, entry)
    case Err(e) => Fail(e)
    case Ok(data) => Succeed(cache[entry.hash := data])
  }

  function PackJob(d: Reader): Job<PackEntry, Cache, Fault> {
    Job((entry: PackEntry, pc: nat, cache: Cache) => PackStep(d, entry, pc, cache),
        (entry: PackEntry) => |entry.chunks|)
  }

  function StandaloneJob(d: Reader): Job<Standalone, Cache, Fault> {
    Job((entry: Standalone, pc: nat, cache: Cache) => StandaloneStep(d, entry, cache), (entry: Standalone) => 0)
  }

  lemma JobsBounded(d: Reader)
    ensures Bounded(PackJob(d)) && Bounded(StandaloneJob(d))
  {
  }

  // ----- What a response promises

  predicate PackFine(d: Reader, entry: PackEntry) {
    entry.data.Ok? && forall m :: m in entry.chunks ==> DecodePackChunk(d.w, d.dek, d.verify, entry.data.value, m).Ok?
  }

  predicate StandaloneFine(d: Reader, entry: Standalone) {
    DecodeStandalone(d.w, d.dek, d.verify, entry).Ok?
  }

  /** Everything in the response can be decoded. */
  predicate ResponseFine(d: Reader, r: Response) {
    (forall e :: e in r.packs ==> PackFine(d, e)) && (forall e :: e in r.standalone ==> StandaloneFine(d, e))
  }

  function PackHashes(packs: seq<PackEntry>): set<Str> {
    set e, m | e in packs && m in e.chunks :: m.hash
  }

  function StandaloneHashes(es: seq<Standalone>): set<Str> {
    set e | e in es :: e.hash
  }

  function Listed(r: Response): set<Str> {
    PackHashes(r.packs) + StandaloneHashes(r.standalone)
  }

  function ListedAll(rs: seq<Response>): set<Str> {
    set r, h | r in rs && h in Listed(r) :: h
  }

  /** data is what some region or object that a pack or entry gives for h decodes to. */
  ghost predicate FromPacks(d: Reader, packs: seq<PackEntry>, h: Str, data: Bytes) {
    exists e, m :: e in packs && m in e.chunks && e.data.Ok? && m.hash == h &&
                   DecodePackChunk(d.w, d.dek, d.verify, e.data.value, m) == Ok(data)
  }

  ghost predicate FromStandalone(d: Reader, es: seq<Standalone>, h: Str, data: Bytes) {
    exists e :: e in es && e.hash == h && DecodeStandalone(d.w, d.dek, d.verify, e) == Ok(data)
  }

  ghost predicate FromResponse(d: Reader, r: Response, h: Str, data: Bytes) {
    FromPacks(d, r.packs, h, data) || FromStandalone(d, r.standalone, h, data)
  }

  ghost predicate FromSome(d: Reader, rs: seq<Response>, h: Str, data: Bytes) {
    exists r :: r in rs && FromResponse(d, r, h, data)
  }

  /** Everything cached was decoded from what some response gave for its hash. */
  ghost predicate CacheFrom(d: Reader, rs: seq<Response>, cache: Cache) {
    forall h {:trigger FromSome(d, rs, h, cache[h])} :: h in cache ==> FromSome(d, rs, h, cache[h])
  }

  /** With verification on, everything cached has the hash it is filed under. */
  ghost predicate CacheVerified(w: World, cache: Cache) {
    forall h :: h in cache ==> w.sha(cache[h]) == h
  }

  lemma VerifiedCache(d: Reader, rs: seq<Response>, cache: Cache)
    requires CacheFrom(d, rs, cache) && d.verify
    ensures CacheVerified(d.w, cache)
  {
    forall h | h in cache
      ensures d.w.sha(cache[h]) == h
    {
      assert FromSome(d, rs, h, cache[h]);
    }
  }

  // ----- What becomes of the cache in any interleaving

  ghost predicate WithinPacks(d: Reader, rs: seq<Response>, keys0: set<Str>, packs: seq<PackEntry>, cache: Cache) {
    CacheFrom(d, rs, cache) && keys0 <= cache.Keys <= keys0 + PackHashes(packs)
  }

  lemma PackStepKeeps(d: Reader, rs: seq<Response>, r: Response, keys0: set<Str>, entry: PackEntry, pc: nat,
                      cache: Cache)
    requires r in rs && entry in r.packs && WithinPacks(d, rs, keys0, r.packs, cache)
    ensures PackStep(d, entry, pc, cache).Fail?
      || WithinPacks(d, rs, keys0, r.packs, PackStep(d, entry, pc, cache).shared)
  {
    var p := PackStep(d, entry, pc, cache);
    if p.More? {
      var m := entry.chunks[pc];
      assert m in entry.chunks;
      var data := DecodePackChunk(d.w, d.dek, d.verify, entry.data.value, m).value;
      assert FromPacks(d, r.packs, m.hash, data);
      assert FromResponse(d, r, m.hash, data);
      assert FromSome(d, rs, m.hash, data);
    }
  }

  ghost predicate WithinStandalone(d: Reader, rs: seq<Response>, keys0: set<Str>, es: seq<Standalone>, cache: Cache) {
    CacheFrom(d, rs, cache) && keys0 <= cache.Keys <= keys0 + StandaloneHashes(es)
  }

  lemma StandaloneStepKeeps(d: Reader, rs: seq<Response>, r: Response, keys0: set<Str>, entry: Standalone, cache: Cache)
    requires r in rs && entry in r.standalone && WithinStandalone(d, rs, keys0, r.standalone, cache)
    ensures StandaloneStep(d, entry, cache).Fail?
      || WithinStandalone(d, rs, keys0, r.standalone, StandaloneStep(d, entry, cache).shared)
  {
    var p := StandaloneStep(d, entry, cache);
    if p.Succeed? {
      var data := DecodeStandalone(d.w, d.dek, d.verify, entry).value;
      assert FromStandalone(d, r.standalone, entry.hash, data);
      assert FromResponse(d, r, entry.hash, data);
      assert FromSome(d, rs, entry.hash, data);
    }
  }

  /** The first pc chunks of the entry have been decoded and cached. */
  ghost predicate PackReached(d: Reader, entry: PackEntry, pc: nat, cache: Cache) {
    forall k :: 0 <= k < pc && k < |entry.chunks| ==>
      && entry.data.Ok? && DecodePackChunk(d.w, d.dek, d.verify, entry.data.value, entry.chunks[k]).Ok?
      && entry.chunks[k].hash in cache
  }

  ghost predicate PackDone(d: Reader, entry: PackEntry, cache: Cache) {
    PackFine(d, entry) && forall m :: m in entry.chunks ==> m.hash in cache
  }

  ghost predicate StandaloneDone(d: Reader, entry: Standalone, cache: Cache) {
    StandaloneFine(d, entry) && entry.hash in cache
  }

  // The properties, as functions of the cache

  ghost function KeepsPacks(d: Reader, rs: seq<Response>, keys0: set<Str>, packs: seq<PackEntry>): Cache -> bool {
    (c: Cache) => WithinPacks(d, rs, keys0, packs, c)
  }

  ghost function KeepsStandalone(d: Reader, rs: seq<Response>, keys0: set<Str>, es: seq<Standalone>): Cache -> bool {
    (c: Cache) => WithinStandalone(d, rs, keys0, es, c)
  }

  ghost function ReachedIn(d: Reader): (PackEntry, nat, Cache) -> bool {
    (e: PackEntry, pc: nat, c: Cache) => PackReached(d, e, pc, c)
  }

  ghost function DoneIn(d: Reader): (PackEntry, Cache) -> bool {
    (e: PackEntry, c: Cache) => PackDone(d, e, c)
  }

  ghost function AtOnce(): (Standalone, nat, Cache) -> bool {
    (e: Standalone, pc: nat, c: Cache) => true
  }

  ghost function DoneAlone(d: Reader): (Standalone, Cache) -> bool {
    (e: Standalone, c: Cache) => StandaloneDone(d, e, c)
  }

  ghost function Anything(): Cache -> bool {
    (c: Cache) => true
  }

  lemma PackStepLeads(d: Reader, e: PackEntry, pc: nat, c: Cache)
    requires PackReached(d, e, pc, c)
    ensures match PackStep(d, e, pc, c)
            case More(c') => PackReached(d, e, pc + 1, c')
            case Succeed(c') => PackDone(d, e, c')
            case Fail(_) => true
  {
  }

  lemma PacksLead(d: Reader)
    ensures Leads(PackJob(d), ReachedIn(d), DoneIn(d))
  {
    var job := PackJob(d);
    forall e, pc: nat, c {:trigger job.step(e, pc, c)} | PackReached(d, e, pc, c)
      ensures match job.step(e, pc, c)
              case More(c') => PackReached(d, e, pc + 1, c')
              case Succeed(c') => PackDone(d, e, c')
              case Fail(_) => true
    {
      PackStepLeads(d, e, pc, c);
    }
  }

  lemma PackStepLasts(d: Reader, e: PackEntry, pc: nat, c: Cache, y: PackEntry, q: nat)
    requires !PackStep(d, e, pc, c).Fail?
    ensures PackReached(d, y, q, c) ==> PackReached(d, y, q, PackStep(d, e, pc, c).shared)
    ensures PackDone(d, y, c) ==> PackDone(d, y, PackStep(d, e, pc, c).shared)
  {
    ReachedGrows(d, y, q, c, PackStep(d, e, pc, c).shared);
  }

  lemma PacksLast(d: Reader)
    ensures Lasts(PackJob(d), ReachedIn(d), DoneIn(d))
  {
    var job := PackJob(d);
    forall e, pc: nat, c, y, q: nat {:trigger job.step(e, pc, c), PackReached(d, y, q, c)} |
      PackReached(d, y, q, c) && !job.step(e, pc, c).Fail?
      ensures PackReached(d, y, q, job.step(e, pc, c).shared)
    {
      PackStepLasts(d, e, pc, c, y, q);
    }
    forall e, pc: nat, c, y {:trigger job.step(e, pc, c), PackDone(d, y, c)} |
      PackDone(d, y, c) && !job.step(e, pc, c).Fail?
      ensures PackDone(d, y, job.step(e, pc, c).shared)
    {
      PackStepLasts(d, e, pc, c, y, 0);
    }
  }

  /** More in the cache undoes nothing. */
  lemma ReachedGrows(d: Reader, y: PackEntry, q: nat, c: Cache, c': Cache)
    requires c.Keys <= c'.Keys
    ensures PackReached(d, y, q, c) ==> PackReached(d, y, q, c')
    ensures PackDone(d, y, c) ==> PackDone(d, y, c')
  {
  }

  lemma StandaloneLeaveBehind(d: Reader)
    ensures LeavesBehind(StandaloneJob(d), AtOnce(), DoneAlone(d))
  {
  }

  lemma PacksKeep(d: Reader, rs: seq<Response>, r: Response, keys0: set<Str>)
    requires r in rs
    ensures Keeping(PackJob(d), r.packs, KeepsPacks(d, rs, keys0, r.packs))
  {
    var job := PackJob(d);
    forall e, pc: nat, c {:trigger job.step(e, pc, c)} | e in r.packs && WithinPacks(d, rs, keys0, r.packs, c)
      ensures job.step(e, pc, c).Fail? || WithinPacks(d, rs, keys0, r.packs, job.step(e, pc, c).shared)
    {
      PackStepKeeps(d, rs, r, keys0, e, pc, c);
    }
  }

  lemma StandaloneKeep(d: Reader, rs: seq<Response>, r: Response, keys0: set<Str>)
    requires r in rs
    ensures Keeping(StandaloneJob(d), r.standalone, KeepsStandalone(d, rs, keys0, r.standalone))
  {
    var job := StandaloneJob(d);
    forall e, pc: nat, c {:trigger job.step(e, pc, c)} |
      e in r.standalone && WithinStandalone(d, rs, keys0, r.standalone, c)
      ensures job.step(e, pc, c).Fail? || WithinStandalone(d, rs, keys0, r.standalone, job.step(e, pc, c).shared)
    {
      StandaloneStepKeeps(d, rs, r, keys0, e, c);
    }
  }

  /** The packs of a response: in every interleaving, no error exactly if all is fine; and then all of it is cached. */
  lemma PacksRun(d: Reader, rs: seq<Response>, r: Response, concurrency: int, cache: Cache, schedule: seq<nat>)
    requires r in rs && CacheFrom(d, rs, cache)
    requires IsSchedule(PackJob(d), Initial(r.packs, concurrency, cache), schedule)
    requires Finished(Run(PackJob(d), Initial(r.packs, concurrency, cache), schedule))
    ensures var end := Run(PackJob(d), Initial(r.packs, concurrency, cache), schedule);
            && CacheFrom(d, rs, end.shared)
            && (end.firstErr.None? <==> forall e :: e in r.packs ==> PackFine(d, e))
            && (end.firstErr.None? ==> end.shared.Keys == cache.Keys + PackHashes(r.packs))
  {
    PacksKeep(d, rs, r, cache.Keys);
    PacksLead(d);
    PacksLast(d);
    WholeRun(PackJob(d), r.packs, concurrency, cache, schedule, KeepsPacks(d, rs, cache.Keys, r.packs), ReachedIn(d),
             DoneIn(d));
    var end := Run(PackJob(d), Initial(r.packs, concurrency, cache), schedule);
    if end.firstErr.None? {
      PacksAllDone(d, r.packs, end.shared);
    }
    if forall e :: e in r.packs ==> PackFine(d, e) {
      FlawlessRun(PackJob(d), r.packs, concurrency, cache, schedule, Anything());
    }
  }

  lemma PacksAllDone(d: Reader, packs: seq<PackEntry>, cache: Cache)
    requires forall e :: e in packs ==> DoneIn(d)(e, cache)
    ensures PackHashes(packs) <= cache.Keys && forall e :: e in packs ==> PackFine(d, e)
  {
    forall e | e in packs
      ensures PackDone(d, e, cache)
    {
      assert DoneIn(d)(e, cache);
    }
  }

  /** The same for standalone objects. */
  lemma StandaloneRun(d: Reader, rs: seq<Response>, r: Response, concurrency: int, cache: Cache, schedule: seq<nat>)
    requires r in rs && CacheFrom(d, rs, cache)
    requires IsSchedule(StandaloneJob(d), Initial(r.standalone, concurrency, cache), schedule)
    requires Finished(Run(StandaloneJob(d), Initial(r.standalone, concurrency, cache), schedule))
    ensures var end := Run(StandaloneJob(d), Initial(r.standalone, concurrency, cache), schedule);
            && CacheFrom(d, rs, end.shared)
            && (end.firstErr.None? <==> forall e :: e in r.standalone ==> StandaloneFine(d, e))
            && (end.firstErr.None? ==> end.shared.Keys == cache.Keys + StandaloneHashes(r.standalone))
  {
    StandaloneKeep(d, rs, r, cache.Keys);
    StandaloneLeaveBehind(d);
    WholeRun(StandaloneJob(d), r.standalone, concurrency, cache, schedule,
             KeepsStandalone(d, rs, cache.Keys, r.standalone),
             AtOnce(), DoneAlone(d));
    var end := Run(StandaloneJob(d), Initial(r.standalone, concurrency, cache), schedule);
    if end.firstErr.None? {
      StandaloneAllDone(d, r.standalone, end.shared);
    }
    if forall e :: e in r.standalone ==> StandaloneFine(d, e) {
      FlawlessRun(StandaloneJob(d), r.standalone, concurrency, cache, schedule, Anything());
    }
  }

  lemma StandaloneAllDone(d: Reader, es: seq<Standalone>, cache: Cache)
    requires forall e :: e in es ==> DoneAlone(d)(e, cache)
    ensures StandaloneHashes(es) <= cache.Keys && forall e :: e in es ==> StandaloneFine(d, e)
  {
    forall e | e in es
      ensures StandaloneDone(d, e, cache)
    {
      assert DoneAlone(d)(e, cache);
    }
  }

  // ----- The download as it runs

  const DOWNLOAD_BATCH_SIZE: nat := 500

  /** The packs of one response, and then its standalone objects. */
  method DownloadResponse(d: Reader, r: Response, concurrency: int, cache0: Cache, ghost rs: seq<Response>)
    returns (fault: Option<Fault>, cache: Cache)
    requires r in rs && CacheFrom(d, rs, cache0)
    ensures CacheFrom(d, rs, cache) && (fault.None? <==> ResponseFine(d, r))
    ensures fault.None? ==> cache.Keys == cache0.Keys + Listed(r)
  {
    JobsBounded(d);
    ghost var schedule;
    fault, cache, schedule := Parallel(PackJob(d), r.packs, concurrency, cache0);
    PacksRun(d, rs, r, concurrency, cache0, schedule);
    if fault.Some? {
      return;
    }
    var cache1 := cache;
    fault, cache, schedule := Parallel(StandaloneJob(d), r.standalone, concurrency, cache1);
    StandaloneRun(d, rs, r, concurrency, cache1, schedule);
  }

  lemma MoreResponses(d: Reader, rs: seq<Response>, r: Response, cache: Cache)
    requires CacheFrom(d, rs, cache)
    ensures CacheFrom(d, rs + [r], cache) && r in rs + [r] && ListedAll(rs + [r]) == ListedAll(rs) + Listed(r)
  {
    forall h | h in cache
      ensures FromSome(d, rs + [r], h, cache[h])
    {
      assert FromSome(d, rs, h, cache[h]);
      var r' :| r' in rs && FromResponse(d, r', h, cache[h]);
      assert r' in rs + [r];
    }
    assert forall r' :: r' in rs + [r] <==> r' in rs || r' == r;
  }

  /** How a server answers the request for some hashes; nothing is assumed of it. */
  type Answers = seq<Str> -> Result<Response, Fault>

  predicate BatchFine(d: Reader, answers: Answers, batch: seq<Str>) {
    answers(batch).Ok? && ResponseFine(d, answers(batch).value)
  }

  /**
    What a download that succeeds leaves: a decodable answer to every batch, and all of it in the cache
    and nothing else.
   */
  ghost predicate Downloaded(d: Reader, answers: Answers, hashList: seq<Str>, rs: seq<Response>, cache: Cache) {
    && |rs| == |Batches(hashList, DOWNLOAD_BATCH_SIZE)|
    && (forall i :: 0 <= i < |rs| ==>
          answers(Batches(hashList, DOWNLOAD_BATCH_SIZE)[i]) == Ok(rs[i]) && ResponseFine(d, rs[i]))
    && CacheFrom(d, rs, cache) && cache.Keys == ListedAll(rs)
  }

  /**
    In every interleaving: the download succeeds exactly if every batch is answered with nothing but
    decodable data, and then it has cached all of that and nothing else.
   */
  method DownloadChunkData(d: Reader, answers: Answers, hashList: seq<Str>, concurrency: int)
    returns (r: Result<Cache, Fault>, ghost rs: seq<Response>)
    ensures r.Ok? <==> forall b :: b in Batches(hashList, DOWNLOAD_BATCH_SIZE) ==> BatchFine(d, answers, b)
    ensures r.Ok? ==> Downloaded(d, answers, hashList, rs, r.value)
  {
    var cache: Cache := map[];
    var batches := Batch(hashList, DOWNLOAD_BATCH_SIZE);
    rs := [];
    var i := 0;
    while i < |batches|
      invariant i <= |batches| && |rs| == i
      invariant forall k :: 0 <= k < i ==> answers(batches[k]) == Ok(rs[k]) && ResponseFine(d, rs[k])
      invariant CacheFrom(d, rs, cache) && cache.Keys == ListedAll(rs)
    {
      var response := answers(batches[i]);
      assert batches[i] in batches;
      if response.Err? {
        return Err(response.error), rs;
      }
      MoreResponses(d, rs, response.value, cache);
      rs := rs + [response.value];
      var fault;
      fault, cache := DownloadResponse(d, response.value, concurrency, cache, rs);
      if fault.Some? {
        assert !BatchFine(d, answers, batches[i]);
        return Err(fault.value), rs;
      }
      i := i + 1;
    }
    r := Ok(cache);
  }

  lemma SameResponses(d: Reader, answers: Answers, hashList: seq<Str>, rs: seq<Response>, cache: Cache,
                      rs': seq<Response>, cache': Cache)
    requires Downloaded(d, answers, hashList, rs, cache) && Downloaded(d, answers, hashList, rs', cache')
    ensures rs == rs'
  {
    forall i | 0 <= i < |rs|
      ensures rs[i] == rs'[i]
    {
      assert answers(Batches(hashList, DOWNLOAD_BATCH_SIZE)[i]) == Ok(rs[i]);
      assert answers(Batches(hashList, DOWNLOAD_BATCH_SIZE)[i]) == Ok(rs'[i]);
    }
  }

  lemma VerifiedAgree(w: World, cache: Cache, cache': Cache)
    requires HashLaw(w) && CacheVerified(w, cache) && CacheVerified(w, cache') && cache.Keys == cache'.Keys
    ensures cache == cache'
  {
    forall h | h in cache
      ensures cache[h] == cache'[h]
    {
      NoCollision(w, cache[h], cache'[h]);
    }
  }

  /** With verification, however two downloads are scheduled, they end with the same cache. */
  lemma DownloadsAgree(d: Reader, answers: Answers, hashList: seq<Str>, rs: seq<Response>, cache: Cache,
                       rs': seq<Response>, cache': Cache)
    requires HashLaw(d.w) && d.verify
    requires Downloaded(d, answers, hashList, rs, cache) && Downloaded(d, answers, hashList, rs', cache')
    ensures cache == cache'
  {
    SameResponses(d, answers, hashList, rs, cache, rs', cache');
    VerifiedCache(d, rs, cache);
    VerifiedCache(d, rs', cache');
    VerifiedAgree(d.w, cache, cache');
  }
}
