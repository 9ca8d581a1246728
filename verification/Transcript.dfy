/** Archive transcripts and their validation (`validate_transcript`). */
module Transcript {
  import opened Identifiers
  import opened Results

  type Hash = nat
  type Digest = nat

  datatype Token = Supply | VariableDebt | StableDebt
  datatype Action = Mint | Burn | Transfer
  datatype Role = Primary | Mirror | Undeclared

  /** What a log says, by event kind; a field the log does not carry is None. */
  datatype Body =
    | PoolEvidence(parties: seq<Address>, assets: seq<Asset>)
    | ReserveConfiguration(asset: Asset, reserveId: int, thresholdBps: int, bonusBps: int, feeBps: int)
    | ReserveDataUpdated(asset: Asset, liquidityIndex: int, variableBorrowIndex: int)
    | CollateralFlag(asset: Asset, user: Option<Address>, enabled: bool)
    | EmodeSet(user: Option<Address>, category: int)
    | ConfigurationSnapshot(user: Option<Address>, bitmap: int)
    | TokenEvent(
        action: Action, token: Token, asset: Asset, role: Role, scaledAmount: int, adjustedAmount: int,
        user: Option<Address>, onBehalfOf: Option<Address>, sender: Option<Address>, receiver: Option<Address>)
    | Unsupported

  datatype Log = Log(transaction: Hash, index: nat, body: Body)
  datatype Block = Block(number: nat, hash: Hash, parent: Hash, logs: seq<Log>)
  datatype Archive = Archive(startBlock: nat, startHash: Hash, endBlock: nat, endHash: Hash, blocks: seq<Block>)

  datatype Event = Event(blockNumber: nat, blockHash: Hash, transaction: Hash, logIndex: nat, body: Body)
  datatype Key = Key(blockHash: Hash, transaction: Hash, logIndex: nat)

  datatype TranscriptError =
    | NotContiguous
    | ChainReorged
    | LogIndexNotIncreasing
    | UnsupportedKind
    | ConflictingDuplicate
    | EndpointMismatch

  function EventOf(b: Block, log: Log): Event {
    Event(b.number, b.hash, log.transaction, log.index, log.body)
  }

  function KeyOf(e: Event): Key {
    Key(e.blockHash, e.transaction, e.logIndex)
  }

  /** The events of the first n logs of a block. */
  ghost function BlockEvents(b: Block, n: nat): seq<Event>
    requires n <= |b.logs|
  {
    if n == 0 then [] else BlockEvents(b, n - 1) + [EventOf(b, b.logs[n - 1])]
  }

  /** Every event of every log, in archive order. */
  ghost function AllEvents(blocks: seq<Block>): seq<Event> {
    if blocks == [] then []
    else AllEvents(blocks[..|blocks| - 1]) + BlockEvents(blocks[|blocks| - 1], |blocks[|blocks| - 1].logs|)
  }

  /** An event is in the archive exactly for a log, with what that log and its block say. */
  lemma {:induction false} EventsIff(blocks: seq<Block>, e: Event)
    ensures e in AllEvents(blocks) <==>
            exists b, log :: b in blocks && log in b.logs && Tells(e, b, log)
  {
    if blocks != [] {
      var front, last := blocks[..|blocks| - 1], blocks[|blocks| - 1];
      EventsIff(front, e);
      BlockEventsIff(last, |last.logs|, e);
      assert last.logs[..|last.logs|] == last.logs;
      assert blocks == front + [last];
    }
  }

  ghost predicate Tells(e: Event, b: Block, log: Log) {
    && e.blockNumber == b.number && e.blockHash == b.hash
    && e.transaction == log.transaction && e.logIndex == log.index && e.body == log.body
  }

  lemma {:induction false} BlockEventsIff(b: Block, n: nat, e: Event)
    requires n <= |b.logs|
    ensures e in BlockEvents(b, n) <==> exists log :: log in b.logs[..n] && Tells(e, b, log)
  {
    if n > 0 {
      BlockEventsIff(b, n - 1, e);
      assert b.logs[..n] == b.logs[..n - 1] + [b.logs[n - 1]];
      assert Tells(e, b, b.logs[n - 1]) <==> e == EventOf(b, b.logs[n - 1]);
    }
  }

  ghost predicate Before(a: Event, b: Event) {
    a.blockNumber < b.blockNumber || (a.blockNumber == b.blockNumber && a.logIndex < b.logIndex)
  }

  ghost predicate StrictlyOrdered(events: seq<Event>) {
    forall i, j :: 0 <= i < j < |events| ==> Before(events[i], events[j])
  }

  ghost predicate DistinctKeys(events: seq<Event>) {
    forall i, j :: 0 <= i < j < |events| ==> KeyOf(events[i]) != KeyOf(events[j])
  }

  /** No two different events of the archive share a digest. */
  ghost predicate CollisionFree(digest: Event -> Digest, events: seq<Event>) {
    forall a, b :: a in events && b in events && digest(a) == digest(b) ==> a == b
  }

  predicate Follows(previous: Block, next: Block) {
    next.number == previous.number + 1 && next.parent == previous.hash
  }

  ghost predicate Chained(blocks: seq<Block>) {
    forall i, j :: 0 <= i < j < |blocks| && j == i + 1 ==> Follows(blocks[i], blocks[j])
  }

  ghost predicate GoodLogs(b: Block) {
    GoodLogsTo(b, |b.logs|)
  }

  ghost predicate WellFormed(blocks: seq<Block>) {
    Chained(blocks) && forall i :: 0 <= i < |blocks| ==> GoodLogs(blocks[i])
  }

  ghost predicate EndpointsMatch(t: Archive) {
    t.blocks != [] ==>
      && t.startBlock == t.blocks[0].number && t.startHash == t.blocks[0].hash
      && t.endBlock == t.blocks[|t.blocks| - 1].number && t.endHash == t.blocks[|t.blocks| - 1].hash
  }

  /** What a transcript must be, said about the archive as a whole. */
  ghost predicate Acceptable(t: Archive) {
    && WellFormed(t.blocks)
    && DistinctKeys(AllEvents(t.blocks))
    && EndpointsMatch(t)
  }

  /** Events with one key have one digest. */
  ghost predicate Consistent(digest: Event -> Digest, events: seq<Event>) {
    forall i, j :: 0 <= i < j < |events| && KeyOf(events[i]) == KeyOf(events[j]) ==>
      digest(events[i]) == digest(events[j])
  }

  ghost predicate HasKey(events: seq<Event>, key: Key) {
    exists i :: 0 <= i < |events| && KeyOf(events[i]) == key
  }

  /** The first event of every key, in order: what remains when repeats are skipped. */
  ghost function FirstByKey(events: seq<Event>): seq<Event> {
    if events == [] then []
    else
      var front, last := events[..|events| - 1], events[|events| - 1];
      if HasKey(front, KeyOf(last)) then FirstByKey(front) else FirstByKey(front) + [last]
  }

  lemma {:induction false} FirstByKeyOrdered(events: seq<Event>)
    requires StrictlyOrdered(events)
    ensures StrictlyOrdered(FirstByKey(events)) && forall e :: e in FirstByKey(events) ==> e in events
  {
    if events != [] {
      var front, last := events[..|events| - 1], events[|events| - 1];
      FirstByKeyOrdered(front);
      assert forall e :: e in front ==> e in events && Before(e, last);
    }
  }

  lemma {:induction false} FirstByKeyOfDistinct(events: seq<Event>)
    requires DistinctKeys(events)
    ensures FirstByKey(events) == events
  {
    if events != [] {
      FirstByKeyOfDistinct(events[..|events| - 1]);
    }
  }

  /** In order, under a digest without collisions, one digest per key means no key repeats. */
  lemma ConsistentIsDistinct(digest: Event -> Digest, events: seq<Event>)
    requires StrictlyOrdered(events) && CollisionFree(digest, events) && Consistent(digest, events)
    ensures DistinctKeys(events)
  {
    forall i, j | 0 <= i < j < |events| ensures KeyOf(events[i]) != KeyOf(events[j]) {
      assert Before(events[i], events[j]);
      assert events[i] in events && events[j] in events;
    }
  }

  /** `seen` holds the digest of every event read so far, under its key, and nothing else. */
  ghost predicate Records(seen: map<Key, Digest>, digest: Event -> Digest, read: seq<Event>) {
    && (forall k :: k in seen ==> HasKey(read, k))
    && (forall i :: 0 <= i < |read| ==> KeyOf(read[i]) in seen && seen[KeyOf(read[i])] == digest(read[i]))
  }

  /** What holds after reading some of the archive's logs, with `kept` the normalized events. */
  ghost predicate Reading(read: seq<Event>, kept: seq<Event>, seen: map<Key, Digest>, digest: Event -> Digest) {
    Records(seen, digest, read) && StrictlyOrdered(read) && kept == FirstByKey(read)
  }

  lemma OrderedMore(events: seq<Event>, e: Event)
    requires StrictlyOrdered(events) && forall r :: r in events ==> Before(r, e)
    ensures StrictlyOrdered(events + [e])
  {}

  lemma HasKeyMore(events: seq<Event>, e: Event, key: Key)
    ensures HasKey(events + [e], key) <==> HasKey(events, key) || KeyOf(e) == key
  {
    var more := events + [e];
    if i :| 0 <= i < |events| && KeyOf(events[i]) == key {
      assert more[i] == events[i];
    }
    assert more[|events|] == e;
  }

  lemma RecordsMore(seen: map<Key, Digest>, digest: Event -> Digest, read: seq<Event>, e: Event)
    requires Records(seen, digest, read) && (KeyOf(e) in seen ==> seen[KeyOf(e)] == digest(e))
    ensures Records(seen[KeyOf(e) := digest(e)], digest, read + [e])
  {
    forall k | k in seen[KeyOf(e) := digest(e)] ensures HasKey(read + [e], k) {
      HasKeyMore(read, e, k);
    }
  }

  /** An event whose key is new is kept; one whose key and digest repeat is skipped. */
  lemma ReadMore(read: seq<Event>, kept: seq<Event>, seen: map<Key, Digest>, digest: Event -> Digest, e: Event)
    requires Reading(read, kept, seen, digest) && (KeyOf(e) in seen ==> seen[KeyOf(e)] == digest(e))
    requires forall r :: r in read ==> Before(r, e)
    ensures Reading(read + [e], if KeyOf(e) in seen then kept else kept + [e], seen[KeyOf(e) := digest(e)], digest)
  {
    RecordsMore(seen, digest, read, e);
    OrderedMore(read, e);
    assert (read + [e])[..|read|] == read;
    assert HasKey(read, KeyOf(e)) <==> KeyOf(e) in seen;
  }

  lemma Conflict(seen: map<Key, Digest>, digest: Event -> Digest, read: seq<Event>, e: Event)
    requires Records(seen, digest, read) && KeyOf(e) in seen && seen[KeyOf(e)] != digest(e)
    ensures !Consistent(digest, read + [e])
  {
    var i :| 0 <= i < |read| && KeyOf(read[i]) == KeyOf(e);
    var more := read + [e];
    assert more[i] == read[i] && more[|read|] == e;
  }

  lemma RecordsConsistent(seen: map<Key, Digest>, digest: Event -> Digest, read: seq<Event>)
    requires Records(seen, digest, read)
    ensures Consistent(digest, read)
  {}

  lemma PrefixConsistent(digest: Event -> Digest, short: seq<Event>, long: seq<Event>)
    requires short <= long && Consistent(digest, long)
    ensures Consistent(digest, short)
  {
    assert forall i :: 0 <= i < |short| ==> short[i] == long[i];
  }

  lemma {:induction false} BlockEventsPrefix(b: Block, n: nat, m: nat)
    requires n <= m <= |b.logs|
    ensures |BlockEvents(b, n)| == n && BlockEvents(b, n) <= BlockEvents(b, m)
    ensures forall i :: 0 <= i < n ==> BlockEvents(b, n)[i] == EventOf(b, b.logs[i])
  {
    if n < m {
      BlockEventsPrefix(b, n, m - 1);
    } else if n > 0 {
      BlockEventsPrefix(b, n - 1, n - 1);
    }
  }

  lemma {:induction false} AllEventsPrefix(blocks: seq<Block>, k: nat)
    requires k <= |blocks|
    ensures AllEvents(blocks[..k]) <= AllEvents(blocks)
  {
    if k == |blocks| {
      assert blocks[..k] == blocks;
    } else {
      AllEventsPrefix(blocks[..|blocks| - 1], k);
      assert blocks[..|blocks| - 1][..k] == blocks[..k];
    }
  }

  /** One pass of the inner loop, after the log's own checks; None when the key is taken by another digest. */
  method ReadEvent(
      event: Event, digest: Event -> Digest, ghost read: seq<Event>, kept: seq<Event>, seen: map<Key, Digest>)
    returns (r: Option<(seq<Event>, map<Key, Digest>)>)
    requires Reading(read, kept, seen, digest)
    requires forall e :: e in read ==> Before(e, event)
    ensures r.Some? <==> Consistent(digest, read + [event])
    ensures r.Some? ==> Reading(read + [event], r.value.0, r.value.1, digest)
    ensures r.Some? ==> r.value.0 == if HasKey(read, KeyOf(event)) then kept else kept + [event]
  {
    var key := KeyOf(event);
    if key in seen {
      if seen[key] != digest(event) {
        Conflict(seen, digest, read, event);
        return None;
      }
      r := Some((kept, seen));
      assert seen[key := digest(event)] == seen;
    } else {
      r := Some((kept + [event], seen[key := digest(event)]));
    }
    ReadMore(read, kept, seen, digest, event);
    RecordsConsistent(r.value.1, digest, read + [event]);
  }

  ghost predicate GoodLogsTo(b: Block, n: nat)
    requires n <= |b.logs|
  {
    && (forall i, j :: 0 <= i < j < n ==> b.logs[i].index < b.logs[j].index)
    && (forall i :: 0 <= i < n ==> !b.logs[i].body.Unsupported?)
  }

  lemma NextLog(b: Block, n: nat, read: seq<Event>)
    requires n < |b.logs| && GoodLogsTo(b, n)
    requires n > 0 ==> b.logs[n - 1].index < b.logs[n].index
    requires !b.logs[n].body.Unsupported?
    requires forall e :: e in read ==> e.blockNumber < b.number
    ensures read + BlockEvents(b, n) + [EventOf(b, b.logs[n])] == read + BlockEvents(b, n + 1)
    ensures forall e :: e in read + BlockEvents(b, n) ==> Before(e, EventOf(b, b.logs[n]))
    ensures GoodLogsTo(b, n + 1)
  {
    BlockEventsPrefix(b, n, n);
  }

  lemma TakenKey(b: Block, n: nat, digest: Event -> Digest, read: seq<Event>)
    requires n <= |b.logs| && !Consistent(digest, read + BlockEvents(b, n))
    ensures !Consistent(digest, read + BlockEvents(b, |b.logs|))
  {
    BlockEventsPrefix(b, n, |b.logs|);
    if Consistent(digest, read + BlockEvents(b, |b.logs|)) {
      PrefixConsistent(digest, read + BlockEvents(b, n), read + BlockEvents(b, |b.logs|));
    }
  }

  /** One log of a block: its own checks, then its event. */
  method ReadLog(
      b: Block, n: nat, priorLogIndex: int, digest: Event -> Digest,
      ghost read: seq<Event>, kept: seq<Event>, seen: map<Key, Digest>)
    returns (r: Result<(seq<Event>, map<Key, Digest>), TranscriptError>)
    requires n < |b.logs| && GoodLogsTo(b, n) && priorLogIndex == PriorIndex(b, n)
    requires Reading(read + BlockEvents(b, n), kept, seen, digest)
    requires forall e :: e in read ==> e.blockNumber < b.number
    ensures r.Ok? ==> GoodLogsTo(b, n + 1) && Reading(read + BlockEvents(b, n + 1), r.value.0, r.value.1, digest)
    ensures r.Err? ==> !GoodLogs(b) || !Consistent(digest, read + BlockEvents(b, |b.logs|))
  {
    var log := b.logs[n];
    if log.index <= priorLogIndex {
      return Err(LogIndexNotIncreasing);
    }
    if log.body.Unsupported? {
      return Err(UnsupportedKind);
    }
    NextLog(b, n, read);
    var step := ReadEvent(EventOf(b, log), digest, read + BlockEvents(b, n), kept, seen);
    if step.None? {
      TakenKey(b, n + 1, digest, read);
      return Err(ConflictingDuplicate);
    }
    r := Ok(step.value);
  }

  function PriorIndex(b: Block, n: nat): int
    requires n <= |b.logs|
  {
    if n == 0 then -1 else b.logs[n - 1].index
  }

  /** The inner loop of `validate_transcript`: one block's logs. */
  method ValidateBlock(
      b: Block, digest: Event -> Digest, ghost read: seq<Event>, kept: seq<Event>, seen: map<Key, Digest>)
    returns (r: Result<(seq<Event>, map<Key, Digest>), TranscriptError>)
    requires Reading(read, kept, seen, digest)
    requires forall e :: e in read ==> e.blockNumber < b.number
    ensures r.Ok? <==> GoodLogs(b) && Consistent(digest, read + BlockEvents(b, |b.logs|))
    ensures r.Ok? ==> Reading(read + BlockEvents(b, |b.logs|), r.value.0, r.value.1, digest)
  {
    var normalized: seq<Event>, digests: map<Key, Digest> := kept, seen;
    var priorLogIndex: int := -1;
    assert read + BlockEvents(b, 0) == read;
    for n := 0 to |b.logs|
      invariant Reading(read + BlockEvents(b, n), normalized, digests, digest)
      invariant GoodLogsTo(b, n) && priorLogIndex == PriorIndex(b, n)
    {
      var step := ReadLog(b, n, priorLogIndex, digest, read, normalized, digests);
      if step.Err? {
        return step;
      }
      priorLogIndex := b.logs[n].index;
      normalized, digests := step.value.0, step.value.1;
    }
    RecordsConsistent(digests, digest, read + BlockEvents(b, |b.logs|));
    r := Ok((normalized, digests));
  }

  /** No event so far is of a later block than the last one read. */
  ghost predicate UpTo(blocks: seq<Block>, k: nat)
    requires k <= |blocks|
  {
    k > 0 ==> forall e :: e in AllEvents(blocks[..k]) ==> e.blockNumber <= blocks[k - 1].number
  }

  /** One block: its link to the previous one, then its logs. */
  method ReadBlock(blocks: seq<Block>, k: nat, digest: Event -> Digest, kept: seq<Event>, seen: map<Key, Digest>)
    returns (r: Result<(seq<Event>, map<Key, Digest>), TranscriptError>)
    requires k < |blocks| && WellFormed(blocks[..k]) && UpTo(blocks, k)
    requires Reading(AllEvents(blocks[..k]), kept, seen, digest)
    ensures r.Ok? ==>
              && WellFormed(blocks[..k + 1]) && UpTo(blocks, k + 1)
              && Reading(AllEvents(blocks[..k + 1]), r.value.0, r.value.1, digest)
    ensures r.Err? ==> !WellFormed(blocks) || !Consistent(digest, AllEvents(blocks))
  {
    WellFormedNext(blocks, k);
    if k > 0 && blocks[k].number != blocks[k - 1].number + 1 {
      return Err(NotContiguous);
    }
    if k > 0 && blocks[k].parent != blocks[k - 1].hash {
      return Err(ChainReorged);
    }
    AllEventsNext(blocks, k);
    RejectedBlock(blocks, digest, k);
    r := ValidateBlock(blocks[k], digest, AllEvents(blocks[..k]), kept, seen);
  }

  /** The outer loop of `validate_transcript`. */
  method ReadBlocks(blocks: seq<Block>, digest: Event -> Digest) returns (r: Result<seq<Event>, TranscriptError>)
    ensures r.Ok? <==> WellFormed(blocks) && Consistent(digest, AllEvents(blocks))
    ensures r.Ok? ==> r.value == FirstByKey(AllEvents(blocks)) && StrictlyOrdered(AllEvents(blocks))
  {
    var normalized: seq<Event>, seen: map<Key, Digest> := [], map[];
    for k := 0 to |blocks|
      invariant Reading(AllEvents(blocks[..k]), normalized, seen, digest)
      invariant WellFormed(blocks[..k]) && UpTo(blocks, k)
    {
      var step := ReadBlock(blocks, k, digest, normalized, seen);
      if step.Err? {
        return Err(step.error);
      }
      normalized, seen := step.value.0, step.value.1;
    }
    assert blocks[..|blocks|] == blocks;
    RecordsConsistent(seen, digest, AllEvents(blocks));
    r := Ok(normalized);
  }

  lemma WellFormedNext(blocks: seq<Block>, k: nat)
    requires k < |blocks|
    ensures WellFormed(blocks[..k + 1]) <==>
            WellFormed(blocks[..k]) && GoodLogs(blocks[k]) && (k > 0 ==> Follows(blocks[k - 1], blocks[k]))
    ensures WellFormed(blocks) ==> WellFormed(blocks[..k + 1])
  {
    assert forall i :: 0 <= i < k ==> blocks[..k + 1][i] == blocks[..k][i] == blocks[i];
    assert blocks[..k + 1][k] == blocks[k];
  }

  lemma AllEventsNext(blocks: seq<Block>, k: nat)
    requires k < |blocks|
    ensures AllEvents(blocks[..k + 1]) == AllEvents(blocks[..k]) + BlockEvents(blocks[k], |blocks[k].logs|)
    ensures forall e :: e in BlockEvents(blocks[k], |blocks[k].logs|) ==> e.blockNumber == blocks[k].number
  {
    assert blocks[..k + 1][..k] == blocks[..k];
    BlockEventsPrefix(blocks[k], |blocks[k].logs|, |blocks[k].logs|);
  }

  lemma RejectedBlock(blocks: seq<Block>, digest: Event -> Digest, k: nat)
    requires k < |blocks|
    ensures Consistent(digest, AllEvents(blocks)) ==> Consistent(digest, AllEvents(blocks[..k + 1]))
  {
    AllEventsPrefix(blocks, k + 1);
    if Consistent(digest, AllEvents(blocks)) {
      PrefixConsistent(digest, AllEvents(blocks[..k + 1]), AllEvents(blocks));
    }
  }

  /**
   * `validate_transcript`. A transcript is accepted exactly when its blocks and endpoints are right and no key has two
   * digests, and then the first event of every key is kept. Under a digest without collisions that means an acceptable
   * transcript with every event kept in order: the branch that skips a log is never taken.
   */
  method ValidateTranscript(t: Archive, digest: Event -> Digest) returns (r: Result<seq<Event>, TranscriptError>)
    ensures r.Ok? <==> WellFormed(t.blocks) && EndpointsMatch(t) && Consistent(digest, AllEvents(t.blocks))
    ensures r.Ok? ==> r.value == FirstByKey(AllEvents(t.blocks)) && StrictlyOrdered(r.value)
    ensures Acceptable(t) ==> r == Ok(AllEvents(t.blocks))
    ensures CollisionFree(digest, AllEvents(t.blocks)) && r.Ok? ==> Acceptable(t)
  {
    var normalized := ReadBlocks(t.blocks, digest);
    AcceptableKeepsAll(t, digest);
    if normalized.Err? {
      return normalized;
    }
    FirstByKeyOrdered(AllEvents(t.blocks));
    if CollisionFree(digest, AllEvents(t.blocks)) {
      ConsistentIsDistinct(digest, AllEvents(t.blocks));
    }
    if t.blocks != [] {
      var first, last := t.blocks[0], t.blocks[|t.blocks| - 1];
      if t.startBlock != first.number || t.startHash != first.hash ||
         t.endBlock != last.number || t.endHash != last.hash {
        return Err(EndpointMismatch);
      }
    }
    r := normalized;
  }

  lemma AcceptableKeepsAll(t: Archive, digest: Event -> Digest)
    ensures Acceptable(t) ==>
            Consistent(digest, AllEvents(t.blocks)) && FirstByKey(AllEvents(t.blocks)) == AllEvents(t.blocks)
  {
    if Acceptable(t) {
      FirstByKeyOfDistinct(AllEvents(t.blocks));
    }
  }

  /** Two logs have one key exactly when block, transaction and log index agree. */
  lemma SameKeyIff(b: Block, x: Log, c: Block, y: Log)
    ensures KeyOf(EventOf(b, x)) == KeyOf(EventOf(c, y)) <==>
            b.hash == c.hash && x.transaction == y.transaction && x.index == y.index
    ensures EventOf(b, x).blockNumber == b.number && EventOf(b, x).body == x.body
  {}
}
