/** The growing, resumable screen queue (`export_aave_checkpoint.py`, resumable mode). */
module ScreenQueue {
  import opened Identifiers
  import opened Results
  import opened FixedPoint
  import opened Ordering

  const MAX_BORROWERS := 250_000
  const MAX_CHECKPOINT_TAIL_BLOCKS := 2_000_000
  const MAX_LOG_BLOCK_RANGE := 2_000
  const MAX_SCREEN_BATCH_SIZE := 5_000

  /** A Borrow log of the continuity tail; `canonical` when its own shape checks pass. */
  datatype TailLog = TailLog(block: nat, identity: nat, borrower: Address, canonical: bool)

  type LogSource = (nat, nat) -> Option<seq<TailLog>>

  /** One committed batch: what it screened, and the tail it collected first. */
  datatype Batch = Batch(screened: seq<Address>, tailStart: nat, checkpoint: nat, tail: seq<TailLog>)

  datatype State = State(
    archive: nat, cursor: nat, tailLogCount: nat,
    seeds: nat, addresses: seq<Address>, next: nat, completed: nat, batches: seq<Batch>)

  /** Everything a run meets from outside: the providers, and whether the rest of the run goes through. */
  datatype Attempt = Attempt(batchSize: int, finalized: nat, primary: LogSource, secondaryAgrees: bool, completes: bool)

  datatype ScreenError =
    | BatchSizeInvalid | StateInvalid | CheckpointRegressed | TailFailed | ScreenComplete | RunFailed

  function Initial(archive: nat, seed: seq<Address>): State {
    State(archive, archive, 0, |seed|, seed, 0, 0, [])
  }

  // ---- The continuity tail ----

  function ChunkEnd(start: nat, end: nat): nat {
    Min(end, start + MAX_LOG_BLOCK_RANGE - 1)
  }

  function AllCanonical(logs: seq<TailLog>): bool {
    forall i :: 0 <= i < |logs| ==> logs[i].canonical
  }

  /** The logs of a range, asked for in pieces. */
  ghost function Pieces(source: LogSource, start: nat, end: nat): Option<seq<TailLog>>
    decreases end + 1 - start
  {
    if end < start then Some([])
    else
      var piece := source(start, ChunkEnd(start, end));
      if piece.None? || !AllCanonical(piece.value) then None
      else Joined(piece.value, Pieces(source, ChunkEnd(start, end) + 1, end))
  }

  predicate DistinctIdentities(logs: seq<TailLog>) {
    forall i, j :: 0 <= i < j < |logs| ==> logs[i].identity != logs[j].identity
  }

  predicate InRange(logs: seq<TailLog>, start: nat, end: nat) {
    forall i :: 0 <= i < |logs| ==> start <= logs[i].block <= end
  }

  /** `sanitized_tail_borrow_logs`, up to the order of the result. */
  ghost function Tail(source: LogSource, start: nat, end: nat): Option<seq<TailLog>> {
    if end < start then Some([])
    else if end - start + 1 > MAX_CHECKPOINT_TAIL_BLOCKS then None
    else
      var logs := Pieces(source, start, end);
      if logs.None? || !DistinctIdentities(logs.value) || !InRange(logs.value, start, end) then None else logs
  }

  /** A tail is at most two million blocks, in which every log is canonical, in range and different from the others. */
  lemma TailIff(source: LogSource, start: nat, end: nat, logs: seq<TailLog>)
    requires start <= end
    ensures Tail(source, start, end) == Some(logs) <==>
            && end - start < 2_000_000 && Pieces(source, start, end) == Some(logs)
            && (forall i :: 0 <= i < |logs| ==> start <= logs[i].block <= end)
            && (forall i, j :: 0 <= i < j < |logs| ==> logs[i].identity != logs[j].identity)
  {}

  lemma {:induction false} PiecesCanonical(source: LogSource, start: nat, end: nat)
    requires Pieces(source, start, end).Some?
    ensures forall i :: 0 <= i < |Pieces(source, start, end).value| ==> Pieces(source, start, end).value[i].canonical
    decreases end + 1 - start
  {
    if start <= end {
      PiecesCanonical(source, ChunkEnd(start, end) + 1, end);
    }
  }

  /** A piece is at most two thousand blocks and ends at the end of the range. */
  lemma ChunkIs(start: nat, end: nat)
    requires start <= end
    ensures start <= ChunkEnd(start, end) <= end && ChunkEnd(start, end) - start < 2_000
    ensures ChunkEnd(start, end) == end || ChunkEnd(start, end) - start == 1_999
  {}

  method CollectTail(source: LogSource, start: nat, end: nat) returns (r: Option<seq<TailLog>>)
    ensures r == Tail(source, start, end)
  {
    if end < start {
      return Some([]);
    }
    if end - start + 1 > MAX_CHECKPOINT_TAIL_BLOCKS {
      return None;
    }
    var output: seq<TailLog>, cursor := [], start;
    JoinedNone(Pieces(source, start, end));
    while cursor <= end
      invariant start <= cursor <= end + 1
      invariant Joined(output, Pieces(source, cursor, end)) == Pieces(source, start, end)
      decreases end + 1 - cursor
    {
      var chunkEnd := ChunkEnd(cursor, end);
      var value := source(cursor, chunkEnd);
      if value.None? || !AllCanonical(value.value) {
        return None;
      }
      JoinedMore(output, value.value, Pieces(source, chunkEnd + 1, end));
      output, cursor := output + value.value, chunkEnd + 1;
    }
    assert output + [] == output;
    if !DistinctIdentities(output) || !InRange(output, start, end) {
      return None;
    }
    r := Some(output);
  }

  /** A source that, when it answers, answers with the chain's logs. */
  ghost predicate Honest(source: LogSource, chain: nat -> seq<TailLog>) {
    forall first, last, n, log :: source(first, last).Some? && first <= n <= last && log in chain(n) ==>
      log in source(first, last).value
  }

  /** No block of the range is skipped between pieces. */
  lemma {:induction false} PiecesComplete(
      source: LogSource, chain: nat -> seq<TailLog>, start: nat, end: nat, n: nat, log: TailLog)
    requires Honest(source, chain) && Pieces(source, start, end).Some?
    requires start <= n <= end && log in chain(n)
    ensures log in Pieces(source, start, end).value
    decreases end + 1 - start
  {
    if n > ChunkEnd(start, end) {
      PiecesComplete(source, chain, ChunkEnd(start, end) + 1, end, n, log);
    }
  }

  // ---- The queue ----

  function Elements(addresses: seq<Address>): set<Address> {
    set a | a in addresses
  }

  function Borrowers(tail: seq<TailLog>): set<Address> {
    set i | 0 <= i < |tail| :: tail[i].borrower
  }

  /** The queue after a tail: new borrowers go to the end, in order; nothing before them moves. */
  ghost function Extended(addresses: seq<Address>, tail: seq<TailLog>): seq<Address> {
    addresses + Sorted(Borrowers(tail) - Elements(addresses))
  }

  /** The loop of `main` that appends the sorted tail borrowers. */
  method Extend(addresses: seq<Address>, tail: seq<TailLog>) returns (cohort: seq<Address>)
    ensures cohort == Extended(addresses, tail)
  {
    cohort := addresses;
    var cohortSet := Elements(addresses);
    ghost var known := cohortSet;
    var rest := Borrowers(tail);
    while rest != {}
      invariant cohort + Sorted(rest - known) == Extended(addresses, tail)
      invariant forall a :: a in rest ==> (a in cohortSet <==> a in known)
      decreases rest
    {
      var borrower := TakeLeast(rest);
      AppendNext(cohort, rest, known, borrower);
      if borrower !in cohortSet {
        cohort := cohort + [borrower];
        cohortSet := cohortSet + {borrower};
      }
      rest := rest - {borrower};
    }
    assert rest - known == {};
  }

  lemma AppendNext(cohort: seq<Address>, rest: set<Address>, known: set<Address>, borrower: Address)
    requires IsLeast(borrower, rest)
    ensures cohort + Sorted(rest - known)
            == (if borrower in known then cohort else cohort + [borrower]) + Sorted(rest - {borrower} - known)
  {
    if borrower in known {
      assert rest - known == rest - {borrower} - known;
    } else {
      AppendNew(rest, known, borrower);
    }
  }

  lemma AppendNew(rest: set<Address>, known: set<Address>, borrower: Address)
    requires IsLeast(borrower, rest) && borrower !in known
    ensures Sorted(rest - known) == [borrower] + Sorted(rest - {borrower} - known)
  {
    assert IsLeast(borrower, rest - known);
    SortedHead(rest - known, borrower);
    assert rest - known - {borrower} == rest - {borrower} - known;
  }

  predicate Distinct(addresses: seq<Address>) {
    forall i, j :: 0 <= i < j < |addresses| ==> addresses[i] != addresses[j]
  }

  lemma ExtendedKeeps(addresses: seq<Address>, tail: seq<TailLog>)
    requires Distinct(addresses)
    ensures Distinct(Extended(addresses, tail)) && addresses <= Extended(addresses, tail)
    ensures Elements(Extended(addresses, tail)) == Elements(addresses) + Borrowers(tail)
  {
    var added := Borrowers(tail) - Elements(addresses);
    SortedIncreases(added);
    var all := Extended(addresses, tail);
    forall i, j | 0 <= i < j < |all| ensures all[i] != all[j] {
      if j >= |addresses| {
        assert all[j] == Sorted(added)[j - |addresses|];
        assert all[j] in added;
        if i < |addresses| {
          assert all[i] in Elements(addresses);
        }
      }
    }
    forall a | a in Borrowers(tail) ensures a in Elements(all) {
      if a !in Elements(addresses) {
        assert a in Sorted(added);
      }
    }
  }

  /** `validate_screen_state` on what a run can change. */
  predicate Passes(s: State) {
    && 0 < |s.addresses| <= MAX_BORROWERS && Distinct(s.addresses)
    && s.next <= |s.addresses| && s.cursor >= s.archive && s.completed == |s.batches|
    && 0 < s.seeds <= |s.addresses|
  }

  /** Exactly when a run commits. */
  ghost predicate Commits(s: State, a: Attempt) {
    && 1 <= a.batchSize <= MAX_SCREEN_BATCH_SIZE && Passes(s) && a.finalized >= s.archive
    && Tail(a.primary, s.cursor + 1, a.finalized).Some? && a.secondaryAgrees
    && s.next < |Extended(s.addresses, Tail(a.primary, s.cursor + 1, a.finalized).value)|
    && a.completes
  }

  lemma CommitLimits(s: State, a: Attempt)
    requires Commits(s, a)
    ensures 1 <= a.batchSize <= 5_000 && a.finalized <= s.cursor + 2_000_000 && 1 <= |s.addresses| <= 250_000
  {}

  /** One run: a commit, or nothing. The tail cursor becomes the finalized block, even a lower one. */
  ghost function Step(s: State, a: Attempt): State {
    if !Commits(s, a) then s
    else
      var tail := Tail(a.primary, s.cursor + 1, a.finalized).value;
      var cohort := Extended(s.addresses, tail);
      var end := Min(s.next + a.batchSize, |cohort|);
      s.(cursor := a.finalized, tailLogCount := s.tailLogCount + |tail|, addresses := cohort, next := end,
         completed := s.completed + 1,
         batches := s.batches + [Batch(cohort[s.next..end], s.cursor + 1, a.finalized, tail)])
  }

  // ---- What every reachable state keeps ----

  ghost function Screened(batches: seq<Batch>): seq<Address> {
    if batches == [] then [] else Screened(batches[..|batches| - 1]) + batches[|batches| - 1].screened
  }

  ghost predicate Scanned(batches: seq<Batch>, n: nat) {
    exists i :: 0 <= i < |batches| && batches[i].tailStart <= n <= batches[i].checkpoint
  }

  ghost predicate Queued(batches: seq<Batch>, addresses: set<Address>) {
    forall i :: 0 <= i < |batches| ==>
      1 <= |batches[i].screened| <= MAX_SCREEN_BATCH_SIZE && Borrowers(batches[i].tail) <= addresses
  }

  /**
   * The queue starts with the seed, is screened from the front without gap or repeat, and holds every borrower scanned.
   */
  ghost predicate Sound(s: State, archive: nat, seed: seq<Address>) {
    && s.archive == archive <= s.cursor
    && 0 < |seed| == s.seeds && seed <= s.addresses && Distinct(s.addresses)
    && s.next <= |s.addresses| && s.completed == |s.batches|
    && Screened(s.batches) == s.addresses[..s.next]
    && Queued(s.batches, Elements(s.addresses))
    && (forall n: nat :: archive < n <= s.cursor ==> Scanned(s.batches, n))
  }

  /** Every borrower of the chain after the archive, up to the cursor, is in the queue. */
  ghost predicate Covered(s: State, chain: nat -> seq<TailLog>) {
    forall n, log :: s.archive < n <= s.cursor && log in chain(n) ==> log.borrower in s.addresses
  }

  lemma StepSound(s: State, a: Attempt, archive: nat, seed: seq<Address>)
    requires Sound(s, archive, seed)
    ensures Sound(Step(s, a), archive, seed)
  {
    if Commits(s, a) {
      var t := Step(s, a);
      var tail := Tail(a.primary, s.cursor + 1, a.finalized).value;
      var last := t.batches[|s.batches|];
      ExtendedKeeps(s.addresses, tail);
      assert t.batches[..|t.batches| - 1] == s.batches;
      assert s.addresses[..s.next] == t.addresses[..s.next];
      assert t.addresses[..s.next] + t.addresses[s.next..t.next] == t.addresses[..t.next];
      forall n: nat | archive < n <= t.cursor ensures Scanned(t.batches, n) {
        ScannedMore(s.batches, last, n);
        assert n <= s.cursor || last.tailStart <= n <= last.checkpoint;
      }
    }
  }

  lemma ScannedMore(batches: seq<Batch>, last: Batch, n: nat)
    ensures Scanned(batches, n) || last.tailStart <= n <= last.checkpoint ==> Scanned(batches + [last], n)
  {
    var more := batches + [last];
    if last.tailStart <= n <= last.checkpoint {
      assert more[|batches|] == last;
    } else if i :| 0 <= i < |batches| && batches[i].tailStart <= n <= batches[i].checkpoint {
      assert more[i] == batches[i];
    }
  }

  lemma StepCovers(s: State, a: Attempt, chain: nat -> seq<TailLog>)
    requires Distinct(s.addresses) && Covered(s, chain) && Honest(a.primary, chain)
    ensures Covered(Step(s, a), chain)
  {
    if Commits(s, a) {
      var t := Step(s, a);
      var tail := Tail(a.primary, s.cursor + 1, a.finalized).value;
      ExtendedKeeps(s.addresses, tail);
      forall n, log | t.archive < n <= t.cursor && log in chain(n) ensures log.borrower in t.addresses {
        if n <= s.cursor {
          assert log.borrower in s.addresses;
        } else {
          PiecesComplete(a.primary, chain, s.cursor + 1, a.finalized, n, log);
          assert log in tail;
          assert log.borrower in Borrowers(tail);
        }
        assert log.borrower in Elements(t.addresses);
      }
    }
  }

  ghost predicate Trace(states: seq<State>, attempts: seq<Attempt>, archive: nat, seed: seq<Address>) {
    && |states| == |attempts| + 1 && states[0] == Initial(archive, seed)
    && forall i, j :: 0 <= i < j < |states| && j == i + 1 ==> states[j] == Step(states[i], attempts[i])
  }

  /** What `validate_discovery` accepts as a seed. */
  predicate SeedOk(seed: seq<Address>) {
    0 < |seed| <= MAX_BORROWERS && Distinct(seed)
  }

  /**
   * Over every sequence of commits and failures: the screened batches concatenate to the first `next` addresses without
   * a repeat, the seed never moves, and every block after the archive up to the cursor has been scanned.
   */
  lemma {:induction false} EveryRunSound(
      states: seq<State>, attempts: seq<Attempt>, archive: nat, seed: seq<Address>, k: nat)
    requires SeedOk(seed) && Trace(states, attempts, archive, seed) && k < |states|
    ensures Sound(states[k], archive, seed)
  {
    if k > 0 {
      EveryRunSound(states, attempts, archive, seed, k - 1);
      StepSound(states[k - 1], attempts[k - 1], archive, seed);
    } else {
      InitialSound(archive, seed);
    }
  }

  lemma InitialSound(archive: nat, seed: seq<Address>)
    requires SeedOk(seed)
    ensures Sound(Initial(archive, seed), archive, seed)
  {
    assert Screened([]) == seed[..0];
  }

  /** No address is screened twice, whatever the number of batches. */
  lemma ScreenedOnce(s: State, archive: nat, seed: seq<Address>)
    requires Sound(s, archive, seed)
    ensures Distinct(Screened(s.batches))
  {
    assert forall i :: 0 <= i < s.next ==> s.addresses[..s.next][i] == s.addresses[i];
  }

  /** If every provider answers with the chain's logs when it answers, every borrower up to the cursor is queued. */
  lemma {:induction false} EveryRunCovers(
      states: seq<State>, attempts: seq<Attempt>, archive: nat, seed: seq<Address>, chain: nat -> seq<TailLog>, k: nat)
    requires SeedOk(seed) && Trace(states, attempts, archive, seed) && k < |states|
    requires forall i :: 0 <= i < |attempts| ==> Honest(attempts[i].primary, chain)
    ensures Covered(states[k], chain)
  {
    if k > 0 {
      EveryRunCovers(states, attempts, archive, seed, chain, k - 1);
      EveryRunSound(states, attempts, archive, seed, k - 1);
      StepCovers(states[k - 1], attempts[k - 1], chain);
    }
  }

  /** The queue only grows at its end: what was queued keeps its place for ever. */
  lemma {:induction false} QueueOnlyGrows(
      states: seq<State>, attempts: seq<Attempt>, archive: nat, seed: seq<Address>, i: nat, k: nat)
    requires SeedOk(seed) && Trace(states, attempts, archive, seed) && i <= k < |states|
    ensures states[i].addresses <= states[k].addresses && states[i].next <= states[k].next
    decreases k
  {
    if i < k {
      QueueOnlyGrows(states, attempts, archive, seed, i, k - 1);
      EveryRunSound(states, attempts, archive, seed, k - 1);
      var s, a := states[k - 1], attempts[k - 1];
      if Commits(s, a) {
        ExtendedKeeps(s.addresses, Tail(a.primary, s.cursor + 1, a.finalized).value);
      }
    }
  }

  /** A reachable state passes its own validation exactly when the queue is within the borrower bound. */
  lemma PassesIff(s: State, archive: nat, seed: seq<Address>)
    requires Sound(s, archive, seed)
    ensures Passes(s) <==> |s.addresses| <= 250_000
  {}

  /** Once the queue is over the bound no run commits again: every later state is the same. */
  lemma {:induction false} OutgrownIsFinal(
      states: seq<State>, attempts: seq<Attempt>, archive: nat, seed: seq<Address>, i: nat, k: nat)
    requires Trace(states, attempts, archive, seed) && i <= k < |states|
    requires |states[i].addresses| > MAX_BORROWERS
    ensures states[k] == states[i]
    decreases k
  {
    if i < k {
      OutgrownIsFinal(states, attempts, archive, seed, i, k - 1);
      assert states[k] == Step(states[k - 1], attempts[k - 1]);
    }
  }

  /** Nothing in a run bounds the queue: a full seed and one new borrower in the first tail commit past it. */
  lemma OutgrownExample(archive: nat, seed: seq<Address>, borrower: Address) returns (a: Attempt)
    requires SeedOk(seed) && |seed| == MAX_BORROWERS && borrower !in seed
    ensures Commits(Initial(archive, seed), a)
    ensures Step(Initial(archive, seed), a).addresses == seed + [borrower] && !Passes(Step(Initial(archive, seed), a))
  {
    var log := TailLog(archive + 1, 0, borrower, true);
    var source: LogSource := (first, last) => Some([log]);
    a := Attempt(1, archive + 1, source, true, true);
    OneLogTail(source, archive + 1, log);
    OneMoreBorrower(seed, log);
  }

  lemma OneLogTail(source: LogSource, block: nat, log: TailLog)
    requires source(block, block) == Some([log]) && log.canonical && log.block == block
    ensures Tail(source, block, block) == Some([log])
  {
    assert Pieces(source, block + 1, block) == Some([]);
    assert [log] + [] == [log];
  }

  lemma OneMoreBorrower(addresses: seq<Address>, log: TailLog)
    requires log.borrower !in addresses
    ensures Extended(addresses, [log]) == addresses + [log.borrower]
  {
    assert Borrowers([log]) == {log.borrower} by { assert [log][0] == log; }
    assert {log.borrower} - Elements(addresses) == {log.borrower};
    SortedHead({log.borrower}, log.borrower);
    assert {log.borrower} - {log.borrower} == {};
    assert Sorted({log.borrower}) == [log.borrower];
  }

  /**
   * A commit leaves a state that validates exactly when seed, earlier and new tail borrowers fit the bound together.
   */
  lemma CommitPassesIff(s: State, a: Attempt, archive: nat, seed: seq<Address>)
    requires Sound(s, archive, seed) && Commits(s, a)
    ensures Passes(Step(s, a)) <==>
            |s.addresses| + |Borrowers(Tail(a.primary, s.cursor + 1, a.finalized).value) - Elements(s.addresses)|
            <= MAX_BORROWERS
  {
    StepPassesIff(s, a, archive, seed);
    ExtendedLength(s.addresses, Tail(a.primary, s.cursor + 1, a.finalized).value);
  }

  lemma StepPassesIff(s: State, a: Attempt, archive: nat, seed: seq<Address>)
    requires Sound(s, archive, seed)
    ensures Passes(Step(s, a)) <==> |Step(s, a).addresses| <= MAX_BORROWERS
  {
    StepSound(s, a, archive, seed);
    PassesIff(Step(s, a), archive, seed);
  }

  lemma ExtendedLength(addresses: seq<Address>, tail: seq<TailLog>)
    ensures |Extended(addresses, tail)| == |addresses| + |Borrowers(tail) - Elements(addresses)|
  {
    SortedLength(Borrowers(tail) - Elements(addresses));
  }

  // ---- The tail log counter ----

  /** How many logs the blocks of a range hold. */
  ghost function LogsIn(chain: nat -> seq<TailLog>, start: nat, end: nat): nat
    decreases end + 1 - start
  {
    if end < start then 0 else |chain(start)| + LogsIn(chain, start + 1, end)
  }

  lemma {:induction false} LogsSplit(chain: nat -> seq<TailLog>, start: nat, middle: nat, end: nat)
    requires start <= middle + 1 && middle <= end
    ensures LogsIn(chain, start, end) == LogsIn(chain, start, middle) + LogsIn(chain, middle + 1, end)
    decreases end + 1 - start
  {
    if start <= middle {
      LogsSplit(chain, start + 1, middle, end);
    }
  }

  lemma {:induction false} NoLogsIff(chain: nat -> seq<TailLog>, start: nat, end: nat)
    ensures LogsIn(chain, start, end) == 0 <==> forall n: nat :: start <= n <= end ==> chain(n) == []
    decreases end + 1 - start
  {
    if start <= end {
      NoLogsIff(chain, start + 1, end);
    }
  }

  /** A source that, when it answers, answers with as many logs as the chain has. */
  ghost predicate Counting(source: LogSource, chain: nat -> seq<TailLog>) {
    forall first, last :: source(first, last).Some? ==> |source(first, last).value| == LogsIn(chain, first, last)
  }

  lemma {:induction false} PiecesCount(source: LogSource, chain: nat -> seq<TailLog>, start: nat, end: nat)
    requires Counting(source, chain) && Pieces(source, start, end).Some?
    ensures |Pieces(source, start, end).value| == LogsIn(chain, start, end)
    decreases end + 1 - start
  {
    if start <= end {
      PiecesCount(source, chain, ChunkEnd(start, end) + 1, end);
      LogsSplit(chain, start, ChunkEnd(start, end), end);
    }
  }

  lemma TailCount(source: LogSource, chain: nat -> seq<TailLog>, start: nat, end: nat)
    requires Counting(source, chain) && Tail(source, start, end).Some?
    ensures |Tail(source, start, end).value| == LogsIn(chain, start, end)
  {
    if start <= end {
      PiecesCount(source, chain, start, end);
    }
  }

  /** The logs a run moves the cursor back over: those the next tail will count again. */
  ghost function Recounted(s: State, a: Attempt, chain: nat -> seq<TailLog>): nat {
    if Commits(s, a) then LogsIn(chain, a.finalized + 1, s.cursor) else 0
  }

  lemma StepCounts(s: State, a: Attempt, chain: nat -> seq<TailLog>)
    requires s.archive <= s.cursor && Counting(a.primary, chain)
    ensures Step(s, a).tailLogCount + LogsIn(chain, s.archive + 1, s.cursor)
            == s.tailLogCount + LogsIn(chain, s.archive + 1, Step(s, a).cursor) + Recounted(s, a, chain)
  {
    if Commits(s, a) {
      TailCount(a.primary, chain, s.cursor + 1, a.finalized);
      if a.finalized > s.cursor {
        LogsSplit(chain, s.archive + 1, s.cursor, a.finalized);
      } else {
        LogsSplit(chain, s.archive + 1, a.finalized, s.cursor);
      }
    }
  }

  ghost function RecountedBy(states: seq<State>, attempts: seq<Attempt>, chain: nat -> seq<TailLog>, k: nat): nat
    requires k <= |attempts| <= |states|
  {
    if k == 0 then 0
    else RecountedBy(states, attempts, chain, k - 1) + Recounted(states[k - 1], attempts[k - 1], chain)
  }

  lemma CursorAfterArchive(states: seq<State>, attempts: seq<Attempt>, archive: nat, seed: seq<Address>, k: nat)
    requires SeedOk(seed) && Trace(states, attempts, archive, seed) && k < |states|
    ensures states[k].archive == archive <= states[k].cursor
  {
    EveryRunSound(states, attempts, archive, seed, k);
  }

  /** Over every sequence of runs the counter is the logs up to the cursor and, on top, those counted again. */
  lemma {:induction false} EveryRunCounts(
      states: seq<State>, attempts: seq<Attempt>, archive: nat, seed: seq<Address>, chain: nat -> seq<TailLog>, k: nat)
    requires SeedOk(seed) && Trace(states, attempts, archive, seed) && k < |states|
    requires forall i :: 0 <= i < |attempts| ==> Counting(attempts[i].primary, chain)
    ensures states[k].tailLogCount
            == LogsIn(chain, archive + 1, states[k].cursor) + RecountedBy(states, attempts, chain, k)
  {
    if k > 0 {
      EveryRunCounts(states, attempts, archive, seed, chain, k - 1);
      CursorAfterArchive(states, attempts, archive, seed, k - 1);
      StepCounts(states[k - 1], attempts[k - 1], chain);
    }
  }

  /** No commit finalizes a block below the cursor with a log in between. */
  ghost predicate NeverBehindLogs(states: seq<State>, attempts: seq<Attempt>, chain: nat -> seq<TailLog>, k: nat)
    requires k <= |attempts| <= |states|
  {
    forall i, n: nat ::
      0 <= i < k && Commits(states[i], attempts[i]) && attempts[i].finalized < n <= states[i].cursor ==> chain(n) == []
  }

  lemma {:induction false} NothingRecountedIff(
      states: seq<State>, attempts: seq<Attempt>, chain: nat -> seq<TailLog>, k: nat)
    requires k <= |attempts| <= |states|
    ensures RecountedBy(states, attempts, chain, k) == 0 <==> NeverBehindLogs(states, attempts, chain, k)
  {
    if k > 0 {
      NothingRecountedIff(states, attempts, chain, k - 1);
      NoLogsIff(chain, attempts[k - 1].finalized + 1, states[k - 1].cursor);
    }
  }

  /** The counter is the number of logs after the archive up to the cursor exactly when no run fell back over a log. */
  lemma TailCountExactIff(
      states: seq<State>, attempts: seq<Attempt>, archive: nat, seed: seq<Address>, chain: nat -> seq<TailLog>, k: nat)
    requires SeedOk(seed) && Trace(states, attempts, archive, seed) && k < |states|
    requires forall i :: 0 <= i < |attempts| ==> Counting(attempts[i].primary, chain)
    ensures states[k].tailLogCount >= LogsIn(chain, archive + 1, states[k].cursor)
    ensures states[k].tailLogCount == LogsIn(chain, archive + 1, states[k].cursor) <==>
            NeverBehindLogs(states, attempts, chain, k)
  {
    EveryRunCounts(states, attempts, archive, seed, chain, k);
    NothingRecountedIff(states, attempts, chain, k);
  }

  /** The state has addresses left to screen, and the borrower of the log is queued. */
  ghost predicate Ready(s: State, log: TailLog) {
    Passes(s) && s.next < |s.addresses| && log.borrower in s.addresses
  }

  lemma KnownBorrower(addresses: seq<Address>, log: TailLog)
    requires log.borrower in addresses
    ensures Extended(addresses, [log]) == addresses && Extended(addresses, []) == addresses
  {
    assert Borrowers([log]) - Elements(addresses) == {} && Borrowers([]) - Elements(addresses) == {};
    assert Sorted({}) == [];
  }

  /** One address is screened, with the log in the tail or with an empty tail. */
  lemma ReadyStep(s: State, source: LogSource, log: TailLog, finalized: nat)
    requires Ready(s, log) && finalized >= s.archive
    requires Tail(source, s.cursor + 1, finalized) == Some([log]) || Tail(source, s.cursor + 1, finalized) == Some([])
    ensures var t := Step(s, Attempt(1, finalized, source, true, true));
            && Passes(t) && t.addresses == s.addresses && t.next == s.next + 1 && t.archive == s.archive
            && t.cursor == finalized
            && t.tailLogCount == s.tailLogCount + |Tail(source, s.cursor + 1, finalized).value|
  {
    KnownBorrower(s.addresses, log);
  }

  /** A chain with one log, and a source that answers with it. */
  function OneLogChain(log: TailLog): nat -> seq<TailLog> {
    n => if n == log.block then [log] else []
  }

  function OneLogSource(log: TailLog): LogSource {
    (first, last) => if first <= log.block <= last then Some([log]) else Some([])
  }

  lemma OneLogCounting(log: TailLog)
    ensures Counting(OneLogSource(log), OneLogChain(log))
  {
    var chain, block := OneLogChain(log), log.block;
    forall first: nat, last: nat ensures |OneLogSource(log)(first, last).value| == LogsIn(chain, first, last) {
      if first <= block <= last {
        LogsSplit(chain, first, block, last);
        NoLogsIff(chain, block + 1, last);
        OneLogUpTo(chain, first, block);
      } else {
        NoLogsIff(chain, first, last);
      }
    }
  }

  /** The next block is finalized, then the one before it, then it again: its only log is counted twice. */
  lemma RecountExample(archive: nat, seed: seq<Address>, log: TailLog)
    returns (states: seq<State>, attempts: seq<Attempt>)
    requires SeedOk(seed) && |seed| >= 3
    requires log.block == archive + 1 && log.canonical && log.borrower in seed
    ensures Trace(states, attempts, archive, seed) && |states| == 4
    ensures forall i :: 0 <= i < |attempts| ==> Counting(attempts[i].primary, OneLogChain(log))
    ensures states[3].cursor == archive + 1 && states[3].tailLogCount == 2
    ensures LogsIn(OneLogChain(log), archive + 1, archive + 1) == 1
  {
    var source := OneLogSource(log);
    OneLogTail(source, archive + 1, log);
    OneLogCounting(log);
    OneLogUpTo(OneLogChain(log), archive + 1, archive + 1);
    var up, down := Attempt(1, archive + 1, source, true, true), Attempt(1, archive, source, true, true);
    var s0 := Initial(archive, seed);
    ReadyStep(s0, source, log, archive + 1);
    var s1 := Step(s0, up);
    ReadyStep(s1, source, log, archive);
    var s2 := Step(s1, down);
    ReadyStep(s2, source, log, archive + 1);
    states, attempts := [s0, s1, s2, Step(s2, up)], [up, down, up];
  }

  lemma {:induction false} OneLogUpTo(chain: nat -> seq<TailLog>, first: nat, block: nat)
    requires first <= block && |chain(block)| == 1 && forall n: nat :: n < block ==> chain(n) == []
    ensures LogsIn(chain, first, block) == 1
    decreases block - first
  {
    if first < block {
      OneLogUpTo(chain, first + 1, block);
    }
  }

  /** The persisted screen state. */
  class Screen {
    ghost const archive: nat
    ghost const seed: seq<Address>
    var state: State

    ghost predicate Valid()
      reads this
    {
      Sound(state, archive, seed)
    }

    constructor (archive: nat, seed: seq<Address>)
      requires SeedOk(seed)
      ensures Valid() && this.archive == archive && this.seed == seed && state == Initial(archive, seed)
    {
      this.archive, this.seed, state := archive, seed, Initial(archive, seed);
      new;
      InitialSound(archive, seed);
    }

    /** The tail, cohort, batch and next-state steps of `main`. */
    method Run(a: Attempt) returns (r: Result<seq<Address>, ScreenError>)
      requires Valid()
      modifies this`state
      ensures Valid() && state == Step(old(state), a)
      ensures r.Ok? <==> Commits(old(state), a)
      ensures r.Ok? ==> r.value == state.addresses[old(state.next)..state.next] && 1 <= |r.value| <= a.batchSize
    {
      StepSound(state, a, archive, seed);
      if !(1 <= a.batchSize <= MAX_SCREEN_BATCH_SIZE) {
        return Err(BatchSizeInvalid);
      }
      if !Passes(state) {
        return Err(StateInvalid);
      }
      if a.finalized < state.archive {
        return Err(CheckpointRegressed);
      }
      var tailStart := state.cursor + 1;
      var tail := CollectTail(a.primary, tailStart, a.finalized);
      if tail.None? || !a.secondaryAgrees {
        return Err(TailFailed);
      }
      var cohort := Extend(state.addresses, tail.value);
      var offset := state.next;
      var end := Min(offset + a.batchSize, |cohort|);
      if end == offset {
        return Err(ScreenComplete);
      }
      var screened := cohort[offset..end];
      if !a.completes {
        return Err(RunFailed);
      }
      state := state.(
        cursor := a.finalized, tailLogCount := state.tailLogCount + |tail.value|, addresses := cohort, next := end,
        completed := state.completed + 1,
        batches := state.batches + [Batch(screened, tailStart, a.finalized, tail.value)]);
      r := Ok(screened);
    }
  }
}
