/**
 * Collecting every Borrow log of a block range from providers that refuse wide ranges
 * (`export_aave_borrow_discovery.py`).
 */
module LogArchive {
  import opened Results
  import opened FixedPoint

  const MIN_CHUNK := 512
  const INITIAL_CHUNK := 2_000_000
  const MAX_TOTAL_SPAN := 500_000_000

  datatype RawLog = RawLog(
    topicCount: nat, isBorrow: bool, removed: bool,
    blockNumber: nat, blockHash: nat, transactionHash: nat, transactionIndex: nat, logIndex: nat,
    reserve: nat, borrower: nat, referralCode: nat, dataDigest: nat)

  datatype Log = Log(
    blockNumber: nat, blockHash: nat, transactionHash: nat, transactionIndex: nat, logIndex: nat,
    reserve: nat, borrower: nat, referralCode: nat, dataDigest: nat)

  datatype ArchiveError = RangeLimited | ProviderFailed | BadLog | CachedOutOfRange | InvalidBounds

  type Range = (nat, nat)

  // ---- One unlimited query ----

  /** The answer of a provider without limits: the logs of blocks first up to but not including last, in block order. */
  function Query(chain: nat -> seq<RawLog>, first: nat, last: nat): seq<RawLog>
    decreases last
  {
    if last <= first then [] else Query(chain, first, last - 1) + chain(last - 1)
  }

  lemma {:induction false} QuerySplit(chain: nat -> seq<RawLog>, first: nat, middle: nat, last: nat)
    requires first <= middle <= last
    ensures Query(chain, first, last) == Query(chain, first, middle) + Query(chain, middle, last)
    decreases last
  {
    if middle < last {
      QuerySplit(chain, first, middle, last - 1);
    }
  }

  // ---- Ranges that cover an interval once ----

  /** The ranges, both ends included, follow each other from first up to but not including last. */
  ghost predicate Tiles(ranges: seq<Range>, first: nat, last: nat) {
    if ranges == [] then first == last
    else ranges[0].0 == first <= ranges[0].1 < last && Tiles(ranges[1..], ranges[0].1 + 1, last)
  }

  ghost function Covering(ranges: seq<Range>, block: nat): nat {
    if ranges == [] then 0
    else (if ranges[0].0 <= block <= ranges[0].1 then 1 else 0) + Covering(ranges[1..], block)
  }

  lemma {:induction false} TilesJoin(a: seq<Range>, b: seq<Range>, first: nat, middle: nat, last: nat)
    requires first <= middle <= last && Tiles(a, first, middle) && Tiles(b, middle, last)
    ensures Tiles(a + b, first, last)
  {
    if a == [] {
      assert a + b == b;
    } else {
      assert (a + b)[1..] == a[1..] + b;
      TilesJoin(a[1..], b, a[0].1 + 1, middle, last);
    }
  }

  /** Ranges that tile an interval read each of its blocks exactly once and no block outside it. */
  lemma {:induction false} TilesReadOnce(ranges: seq<Range>, first: nat, last: nat, block: nat)
    requires Tiles(ranges, first, last)
    ensures Covering(ranges, block) == if first <= block < last then 1 else 0
  {
    if ranges != [] {
      TilesReadOnce(ranges[1..], ranges[0].1 + 1, last, block);
    }
  }

  /** What was appended to a list of ranges tiles an interval. */
  ghost predicate NewlyTiled(before: seq<Range>, after: seq<Range>, first: nat, last: nat) {
    before <= after && Tiles(after[|before|..], first, last)
  }

  lemma NewRange(before: seq<Range>, start: nat, end: nat)
    requires start <= end
    ensures NewlyTiled(before, before + [(start, end)], start, end + 1)
  {
    assert (before + [(start, end)])[|before|..] == [(start, end)];
  }

  lemma NewlyTiledJoin(before: seq<Range>, between: seq<Range>, after: seq<Range>, first: nat, middle: nat, last: nat)
    requires first <= middle <= last
    requires NewlyTiled(before, between, first, middle) && NewlyTiled(between, after, middle, last)
    ensures NewlyTiled(before, after, first, last)
  {
    TilesJoin(between[|before|..], after[|between|..], first, middle, last);
    assert after[|before|..] == between[|before|..] + after[|between|..];
  }

  // ---- The provider ----

  datatype Verdict = Served | Refused | Failed

  /** A provider that answers correctly when it answers; what it refuses or fails, call by call, is arbitrary. */
  class LogProvider {
    const chain: nat -> seq<RawLog>
    const verdict: (nat, nat, nat) -> Verdict
    var calls: nat
    ghost var requested: seq<Range>
    ghost var served: seq<Range>

    constructor (chain: nat -> seq<RawLog>, verdict: (nat, nat, nat) -> Verdict)
      ensures this.chain == chain && this.verdict == verdict && calls == 0 && served == [] && requested == []
    {
      this.chain, this.verdict, calls := chain, verdict, 0;
      served, requested := [], [];
    }

    /** One `eth_getLogs` call; both ends of the range are included. */
    method Call(start: nat, end: nat) returns (r: Result<seq<RawLog>, ArchiveError>)
      modifies this
      ensures calls == old(calls) + 1 && requested == old(requested) + [(start, end)]
      ensures r.Ok? ==> r.value == Query(chain, start, end + 1) && served == old(served) + [(start, end)]
      ensures r.Err? ==> served == old(served) && (r.error == RangeLimited || r.error == ProviderFailed)
      ensures r == Err(RangeLimited) <==> verdict(old(calls), start, end) == Refused
    {
      var outcome := verdict(calls, start, end);
      calls, requested := calls + 1, requested + [(start, end)];
      match outcome
      case Served =>
        served := served + [(start, end)];
        r := Ok(Query(chain, start, end + 1));
      case Refused => r := Err(RangeLimited);
      case Failed => r := Err(ProviderFailed);
    }

    /**
     * `get_logs`: on a refusal, ask for each half. Success is the unlimited answer, read from ranges that tile
     * the interval; failure is the provider's own, or a refusal of at most 512 blocks.
     */
    method GetLogs(start: nat, end: nat) returns (r: Result<seq<RawLog>, ArchiveError>)
      requires start <= end
      modifies this
      ensures r.Ok? ==>
                r.value == Query(chain, start, end + 1) && NewlyTiled(old(served), served, start, end + 1)
      ensures r.Err? ==> r.error == RangeLimited || r.error == ProviderFailed
      ensures Narrowed(old(requested), requested, start, end)
      ensures r == Err(RangeLimited) ==> Width(requested[|requested| - 1]) <= 512
      decreases end - start, 1
    {
      r := Call(start, end);
      if r.Ok? {
        NewRange(old(served), start, end);
        return;
      }
      if r != Err(RangeLimited) || end - start + 1 <= MIN_CHUNK {
        return;
      }
      ghost var first := requested;
      r := GetHalves(start, end);
      NarrowedOn(old(requested), first, requested, start, end);
    }

    method GetHalves(start: nat, end: nat) returns (r: Result<seq<RawLog>, ArchiveError>)
      requires end - start + 1 > MIN_CHUNK
      modifies this
      ensures r.Ok? ==>
                r.value == Query(chain, start, end + 1) && NewlyTiled(old(served), served, start, end + 1)
      ensures r.Err? ==> r.error == RangeLimited || r.error == ProviderFailed
      ensures Narrowed(old(requested), requested, start, end)
      ensures r == Err(RangeLimited) ==> Width(requested[|requested| - 1]) <= 512
      decreases end - start, 0
    {
      var midpoint := (start + end) / 2;
      r := GetLogs(start, midpoint);
      NarrowedHalf(old(requested), requested, start, end, start, midpoint);
      if r.Err? {
        return;
      }
      var left := r.value;
      ghost var between, second := served, requested;
      r := GetLogs(midpoint + 1, end);
      NarrowedHalf(second, requested, start, end, midpoint + 1, end);
      NarrowedOn(old(requested), second, requested, start, end);
      if r.Err? {
        return;
      }
      QuerySplit(chain, start, midpoint + 1, end + 1);
      NewlyTiledJoin(old(served), between, served, start, midpoint + 1, end + 1);
      r := Ok(left + r.value);
    }
  }

  function Width(range: Range): int {
    range.1 - range.0 + 1
  }

  /** A request stays inside the interval asked for, and is cut no narrower than 256 blocks. */
  ghost predicate Inside(range: Range, start: nat, end: nat) {
    && start <= range.0 <= range.1 <= end
    && (Width(range) >= 256 || range == (start, end))
  }

  ghost predicate Narrowed(before: seq<Range>, after: seq<Range>, start: nat, end: nat) {
    before < after && forall i :: |before| <= i < |after| ==> Inside(after[i], start, end)
  }

  lemma NarrowedHalf(before: seq<Range>, after: seq<Range>, start: nat, end: nat, low: nat, high: nat)
    requires Narrowed(before, after, low, high)
    requires start <= low <= high <= end && high - low + 1 >= 256
    ensures Narrowed(before, after, start, end)
  {
    forall i | |before| <= i < |after| ensures Inside(after[i], start, end) {
      assert Inside(after[i], low, high);
    }
  }

  lemma NarrowedOn(before: seq<Range>, middle: seq<Range>, after: seq<Range>, start: nat, end: nat)
    requires Narrowed(before, middle, start, end) && Narrowed(middle, after, start, end)
    ensures Narrowed(before, after, start, end)
  {
    forall i | |before| <= i < |after| ensures Inside(after[i], start, end) {
      if i < |middle| {
        assert after[i] == middle[i];
      }
    }
  }

  // ---- Sanitized chunks and their cache ----

  /** `sanitize_log`; None where it raises. */
  function Sanitize(log: RawLog): Option<Log> {
    if log.topicCount != 4 || !log.isBorrow || log.removed then None
    else
      Some(Log(log.blockNumber, log.blockHash, log.transactionHash, log.transactionIndex, log.logIndex,
               log.reserve, log.borrower, log.referralCode, log.dataDigest))
  }

  /** A log is kept exactly when it is a live Borrow log of four topics, with every field as it was. */
  lemma SanitizeIff(raw: RawLog, log: Log)
    ensures Sanitize(raw) == Some(log) <==>
            && raw.topicCount == 4 && raw.isBorrow && !raw.removed
            && log.blockNumber == raw.blockNumber && log.blockHash == raw.blockHash
            && log.transactionHash == raw.transactionHash && log.transactionIndex == raw.transactionIndex
            && log.logIndex == raw.logIndex && log.reserve == raw.reserve && log.borrower == raw.borrower
            && log.referralCode == raw.referralCode && log.dataDigest == raw.dataDigest
  {}

  ghost function SanitizeAll(raws: seq<RawLog>): Option<seq<Log>> {
    if raws == [] then Some([])
    else
      match (SanitizeAll(raws[..|raws| - 1]), Sanitize(raws[|raws| - 1]))
      case (Some(front), Some(last)) => Some(front + [last])
      case _ => None
  }

  lemma {:induction false} SanitizeJoin(a: seq<RawLog>, b: seq<RawLog>)
    ensures SanitizeAll(a + b) ==
            if SanitizeAll(a).Some? && SanitizeAll(b).Some? then Some(SanitizeAll(a).value + SanitizeAll(b).value)
            else None
  {
    if b == [] {
      assert a + b == a;
      assert SanitizeAll(a).Some? ==> SanitizeAll(a).value + [] == SanitizeAll(a).value;
    } else {
      assert (a + b)[..|a + b| - 1] == a + b[..|b| - 1];
      SanitizeJoin(a, b[..|b| - 1]);
      if SanitizeAll(a).Some? && SanitizeAll(b).Some? {
        var x, y, z := SanitizeAll(a).value, SanitizeAll(b[..|b| - 1]).value, Sanitize(b[|b| - 1]).value;
        assert x + y + [z] == x + (y + [z]);
      }
    }
  }

  /** The unlimited answer for a range, both ends included, after sanitizing. */
  ghost function Clean(chain: nat -> seq<RawLog>, start: nat, end: nat): Option<seq<Log>> {
    SanitizeAll(Query(chain, start, end + 1))
  }

  ghost predicate Numbered(chain: nat -> seq<RawLog>) {
    forall n, i :: 0 <= i < |chain(n)| ==> chain(n)[i].blockNumber == n
  }

  method SanitizeLogs(raws: seq<RawLog>) returns (r: Result<seq<Log>, ArchiveError>)
    ensures r == if SanitizeAll(raws).Some? then Ok(SanitizeAll(raws).value) else Err(BadLog)
  {
    var logs := [];
    for i := 0 to |raws|
      invariant SanitizeAll(raws[..i]) == Some(logs)
    {
      assert raws[..i + 1][..i] == raws[..i];
      var log := Sanitize(raws[i]);
      if log.None? {
        assert raws == raws[..i + 1] + raws[i + 1..];
        SanitizeJoin(raws[..i + 1], raws[i + 1..]);
        return Err(BadLog);
      }
      logs := logs + [log.value];
    }
    assert raws[..|raws|] == raws;
    r := Ok(logs);
  }

  lemma {:induction false} SanitizedAt(raws: seq<RawLog>, i: nat)
    requires SanitizeAll(raws).Some? && i < |raws|
    ensures |SanitizeAll(raws).value| == |raws| && Sanitize(raws[i]) == Some(SanitizeAll(raws).value[i])
  {
    if i == |raws| - 1 {
      if i > 0 {
        SanitizedAt(raws[..i], i - 1);
      }
    } else {
      SanitizedAt(raws[..|raws| - 1], i);
    }
  }

  lemma {:induction false} QueryInRange(chain: nat -> seq<RawLog>, first: nat, last: nat)
    requires Numbered(chain)
    ensures forall i :: 0 <= i < |Query(chain, first, last)| ==>
            first <= Query(chain, first, last)[i].blockNumber < last
    decreases last
  {
    if first < last {
      QueryInRange(chain, first, last - 1);
    }
  }

  lemma CleanInRange(chain: nat -> seq<RawLog>, start: nat, end: nat)
    requires Numbered(chain) && Clean(chain, start, end).Some?
    ensures forall i :: 0 <= i < |Clean(chain, start, end).value| ==>
            start <= Clean(chain, start, end).value[i].blockNumber <= end
  {
    var raws := Query(chain, start, end + 1);
    QueryInRange(chain, start, end + 1);
    forall i | 0 <= i < |Clean(chain, start, end).value|
      ensures start <= Clean(chain, start, end).value[i].blockNumber <= end
    {
      if raws != [] {
        SanitizedAt(raws, 0);
        SanitizedAt(raws, i);
      }
    }
  }

  lemma CleanJoin(chain: nat -> seq<RawLog>, start: nat, middle: nat, end: nat)
    requires start <= middle <= end
    requires SanitizeAll(Query(chain, start, middle)).Some? && Clean(chain, middle, end).Some?
    ensures Clean(chain, start, end)
            == Some(SanitizeAll(Query(chain, start, middle)).value + Clean(chain, middle, end).value)
  {
    QuerySplit(chain, start, middle, end + 1);
    SanitizeJoin(Query(chain, start, middle), Query(chain, middle, end + 1));
  }

  // ---- The chunk loop ----

  /** `archive_state`, the progress record written after every chunk. */
  datatype Progress = Progress(expectedChunks: nat, completedChunks: nat, nextStart: nat, complete: bool)

  function ArchiveState(start: nat, checkpoint: nat, size: nat, completed: nat, complete: bool): Progress
    requires start <= checkpoint && size > 0
  {
    Recorded(start, checkpoint, size, ExpectedChunks(start, checkpoint, size), completed, complete)
  }

  function ExpectedChunks(start: nat, checkpoint: nat, size: nat): nat
    requires start <= checkpoint && size > 0
  {
    DivAtLeast(checkpoint - start, size, 0);
    (checkpoint - start) / size + 1
  }

  function Recorded(start: nat, checkpoint: nat, size: nat, expected: nat, completed: nat, complete: bool): Progress {
    Progress(expected, completed, if complete then checkpoint + 1 else NextStart(start, completed, size), complete)
  }

  /** `start` plus `size` for every completed chunk. */
  function NextStart(start: nat, completed: nat, size: nat): nat {
    if completed == 0 then start else NextStart(start, completed - 1, size) + size
  }

  lemma {:induction false} NextStartIs(start: nat, completed: nat, size: nat)
    ensures NextStart(start, completed, size) == start + completed * size
  {
    if completed > 0 {
      NextStartIs(start, completed - 1, size);
    }
  }

  /** The chunk cache and progress record, which outlive a run. */
  class Archive {
    var cache: map<Range, seq<Log>>
    var progress: Option<Progress>

    constructor ()
      ensures cache == map[] && progress == None
    {
      cache, progress := map[], None;
    }

    /** Every cached chunk is the unlimited answer for its range. */
    ghost predicate Sound(chain: nat -> seq<RawLog>)
      reads this
    {
      forall range :: range in cache ==> Clean(chain, range.0, range.1) == Some(cache[range])
    }

    /** One chunk, from the cache or the provider. */
    method Chunk(provider: LogProvider, start: nat, end: nat) returns (r: Result<seq<Log>, ArchiveError>)
      requires start <= end && Sound(provider.chain)
      modifies this`cache, provider
      ensures Sound(provider.chain)
      ensures old(cache).Keys <= cache.Keys
      ensures r.Ok? ==> Clean(provider.chain, start, end) == Some(r.value) && (start, end) in cache
      ensures r.Err? ==> r.error != InvalidBounds
      ensures (start, end) in old(cache) ==> provider.calls == old(provider.calls) && cache == old(cache)
      ensures Numbered(provider.chain) ==> r != Err(CachedOutOfRange) && ((start, end) in old(cache) ==> r.Ok?)
    {
      var key: Range := (start, end);
      if key in cache {
        var cached := cache[key];
        if Numbered(provider.chain) {
          CleanInRange(provider.chain, start, end);
        }
        if exists i :: 0 <= i < |cached| && !(start <= cached[i].blockNumber <= end) {
          return Err(CachedOutOfRange);
        }
        return Ok(cached);
      }
      var raws :- provider.GetLogs(start, end);
      var logs :- SanitizeLogs(raws);
      cache := cache[key := logs];
      r := Ok(logs);
    }

    /**
     * The chunk loop of `main`: success is the unlimited answer for the whole interval, in
     * (checkpoint - start) / size + 1 chunks that tile it, whichever of them were cached; the cache stays sound on
     * every exit.
     */
    method Collect(provider: LogProvider, start: int, checkpoint: int, size: int)
      returns (r: Result<(seq<Log>, seq<Range>), ArchiveError>)
      requires Sound(provider.chain)
      modifies this, provider
      ensures Sound(provider.chain) && old(cache).Keys <= cache.Keys
      ensures r == Err(InvalidBounds) <==>
              start < 0 || checkpoint < start || checkpoint - start + 1 > 500_000_000 ||
              !(512 <= size <= 2_000_000)
      ensures r.Ok? ==>
                && Clean(provider.chain, start, checkpoint) == Some(r.value.0)
                && Tiles(r.value.1, start, checkpoint + 1)
                && |r.value.1| == (checkpoint - start) / size + 1
                && progress == Some(ArchiveState(start, checkpoint, size, |r.value.1|, true))
                && progress.value.expectedChunks == |r.value.1| && progress.value.nextStart == checkpoint + 1
      ensures r.Err? && r.error != InvalidBounds ==>
                && progress.Some? && progress.value.completedChunks < ExpectedChunks(start, checkpoint, size)
                && progress.value == ArchiveState(start, checkpoint, size, progress.value.completedChunks, false)
    {
      var span := checkpoint - start + 1;
      if start < 0 || span < 1 || span > MAX_TOTAL_SPAN || !(MIN_CHUNK <= size <= INITIAL_CHUNK) {
        return Err(InvalidBounds);
      }
      var completed: nat;
      r, completed := CollectChunks(provider, start, checkpoint, size, ExpectedChunks(start, checkpoint, size));
      if r.Ok? {
        AllChunks(start, completed, size, checkpoint, checkpoint + 1);
      } else {
        ChunksLeft(start, completed, size, checkpoint);
      }
    }

    /** The body of the loop, up to the progress record. */
    method AddChunk(
        provider: LogProvider, ghost start: nat, cursor: nat, end: nat, logs: seq<Log>, manifest: seq<Range>)
      returns (r: Result<(seq<Log>, seq<Range>), ArchiveError>)
      requires start <= cursor <= end && Sound(provider.chain) &&
               Collected(provider.chain, start, cursor, logs, manifest)
      modifies this`cache, provider
      ensures Sound(provider.chain) && old(cache).Keys <= cache.Keys
      ensures r.Ok? ==> Collected(provider.chain, start, end + 1, r.value.0, r.value.1) && |r.value.1| == |manifest| + 1
      ensures r.Err? ==> r.error != InvalidBounds
    {
      var chunk :- Chunk(provider, cursor, end);
      CollectedNext(provider.chain, start, cursor, end, logs, manifest, chunk);
      r := Ok((logs + chunk, manifest + [(cursor, end)]));
    }

    method CollectChunks(provider: LogProvider, start: nat, checkpoint: nat, size: nat, expected: nat)
      returns (r: Result<(seq<Log>, seq<Range>), ArchiveError>, completed: nat)
      requires start <= checkpoint && size > 0 && Sound(provider.chain)
      modifies this, provider
      ensures Sound(provider.chain) && old(cache).Keys <= cache.Keys
      ensures progress == Some(Recorded(start, checkpoint, size, expected, completed, r.Ok?))
      ensures r.Ok? ==>
                && Clean(provider.chain, start, checkpoint) == Some(r.value.0)
                && Tiles(r.value.1, start, checkpoint + 1) && completed == |r.value.1|
                && AtChunk(start, completed, size, checkpoint, checkpoint + 1)
      ensures r.Err? ==>
                && r.error != InvalidBounds
                && NextStart(start, completed, size) <= checkpoint
    {
      var logs: seq<Log>, cursor: nat, manifest: seq<Range> := [], start, [];
      completed := 0;
      progress := Some(Recorded(start, checkpoint, size, expected, completed, false));
      while cursor <= checkpoint
        invariant start <= cursor && completed == |manifest| && AtChunk(start, completed, size, checkpoint, cursor)
        invariant Collected(provider.chain, start, cursor, logs, manifest)
        invariant Sound(provider.chain) && old(cache).Keys <= cache.Keys
        invariant progress == Some(Recorded(start, checkpoint, size, expected, completed, false))
        decreases checkpoint + 1 - cursor
      {
        NextChunk(start, completed, size, checkpoint, cursor);
        var chunkEnd: nat := Min(cursor + size - 1, checkpoint);
        var step := AddChunk(provider, start, cursor, chunkEnd, logs, manifest);
        if step.Err? {
          return Err(step.error), completed;
        }
        logs, manifest := step.value.0, step.value.1;
        cursor, completed := chunkEnd + 1, completed + 1;
        progress := Some(Recorded(start, checkpoint, size, expected, completed, false));
      }
      progress := Some(Recorded(start, checkpoint, size, expected, completed, true));
      r := Ok((logs, manifest));
    }
  }

  /** What the loop holds at the cursor: the clean logs so far, from chunks that tile the interval so far. */
  ghost predicate Collected(chain: nat -> seq<RawLog>, start: nat, cursor: nat, logs: seq<Log>, manifest: seq<Range>) {
    SanitizeAll(Query(chain, start, cursor)) == Some(logs) && Tiles(manifest, start, cursor)
  }

  lemma CollectedNext(
      chain: nat -> seq<RawLog>, start: nat, cursor: nat, end: nat, logs: seq<Log>, manifest: seq<Range>,
      chunk: seq<Log>)
    requires start <= cursor <= end && Collected(chain, start, cursor, logs, manifest) &&
             Clean(chain, cursor, end) == Some(chunk)
    ensures Collected(chain, start, end + 1, logs + chunk, manifest + [(cursor, end)])
  {
    CleanJoin(chain, start, cursor, end);
    TilesJoin(manifest, [(cursor, end)], start, cursor, end + 1);
  }

  /** Where the loop stands after some chunks: every chunk is full but possibly the last. */
  ghost predicate AtChunk(start: nat, completed: nat, size: nat, checkpoint: nat, cursor: nat) {
    && cursor == Min(NextStart(start, completed, size), checkpoint + 1)
    && (completed > 0 ==> NextStart(start, completed - 1, size) <= checkpoint)
  }

  lemma NextChunk(start: nat, completed: nat, size: nat, checkpoint: nat, cursor: nat)
    requires size > 0 && start <= cursor <= checkpoint && AtChunk(start, completed, size, checkpoint, cursor)
    ensures cursor == NextStart(start, completed, size) && cursor <= Min(cursor + size - 1, checkpoint)
    ensures AtChunk(start, completed + 1, size, checkpoint, Min(cursor + size - 1, checkpoint) + 1)
  {}

  lemma ChunksLeft(start: nat, completed: nat, size: nat, checkpoint: nat)
    requires size > 0 && start <= checkpoint && NextStart(start, completed, size) <= checkpoint
    ensures completed < ExpectedChunks(start, checkpoint, size)
  {
    NextStartIs(start, completed, size);
    DivAtLeast(checkpoint - start, size, completed);
  }

  lemma AllChunks(start: nat, completed: nat, size: nat, checkpoint: nat, cursor: nat)
    requires size > 0 && start <= checkpoint < cursor && AtChunk(start, completed, size, checkpoint, cursor)
    ensures cursor == checkpoint + 1 && completed == (checkpoint - start) / size + 1
  {
    NextStartIs(start, completed, size);
    DivAtLeast(checkpoint - start, size, completed);
    DivAtLeast(checkpoint - start, size, completed - 1);
  }

  /**
   * The progress record of an unfinished run names the block the loop reads next exactly when the completed chunks
   * do not reach past the checkpoint: a short last chunk leaves it pointing too far.
   */
  lemma NextStartExactIff(start: nat, checkpoint: nat, size: nat, completed: nat)
    requires start <= checkpoint && size > 0 && completed <= (checkpoint - start) / size + 1
    ensures ArchiveState(start, checkpoint, size, completed, false).nextStart
            == Min(NextStart(start, completed, size), checkpoint + 1) <==>
            completed <= (checkpoint - start) / size || (checkpoint - start + 1) % size == 0
  {
    var span := checkpoint - start + 1;
    var whole := (checkpoint - start) / size;
    NextStartIs(start, completed, size);
    if completed <= whole {
      DivAtLeast(checkpoint - start, size, completed);
    } else {
      LastChunk(span, size);
    }
  }

  lemma LastChunk(span: nat, size: nat)
    requires span >= 1 && size > 0
    ensures ((span - 1) / size + 1) * size <= span <==> span % size == 0
  {
    var whole := (span - 1) / size;
    assert span == span / size * size + span % size;
    DivAtLeast(span - 1, size, whole + 1);
    DivAtLeast(span - 1, size, span / size);
    DivAtLeast(span, size, whole + 1);
    DivAtLeast(span, size, whole + 2);
    if span % size == 0 {
      assert whole < span / size;
    }
  }

  /** With chunks of 512 blocks over 600, the record written after the second chunk points 424 blocks past the end. */
  lemma NextStartExample()
    ensures ArchiveState(0, 599, 512, 2, false).nextStart == 1024 && Min(NextStart(0, 2, 512), 600) == 600
  {
    NextStartIs(0, 2, 512);
  }
}
