/** The budgeted economic prefilter (`atlas_aave_economic_prefilter.py`). */
module Prefilter {
  import opened Identifiers
  import opened Results
  import opened FixedPoint
  import opened RpcProvider

  const MAX_BATCH_SIZE := 20_000
  const MAX_DAILY_ADDRESSES := 20_000
  const MAX_TOTAL_BROAD_ITEMS := 250_000
  const HARD_ITEMS_PER_ADDRESS_MICROS := 1_250_000
  const WATCH_HF_WAD := 1_100_000_000_000_000_000
  const URGENT_HF_WAD := 1_020_000_000_000_000_000
  /** The fewest addresses a batch can commit with; follows from the hard bound on items per address. */
  const MIN_COMMITTED := 12

  type Day = nat

  datatype Bucket = NoDebt | DebtSafe | Watch | Urgent | Liquidatable | Incomplete
  datatype Row = Row(borrower: Address, bucket: Bucket)
  /** The two words of `getUserAccountData` that decide the bucket. */
  datatype AccountData = AccountData(totalDebt: nat, healthFactor: nat)

  datatype Batch = Batch(start: nat, end: nat, day: Day, items: nat, transports: nat, retries: nat, rows: seq<Row>)
  datatype Usage = Usage(addresses: nat, items: nat)

  datatype State = State(
    next: nat, completed: nat, totalItems: nat, totalTransports: nat, totalRetries: nat,
    daily: map<Day, Usage>, artifacts: seq<Batch>)

  datatype Limits = Limits(
    batchSize: int, rpcBatchSize: int, maxItems: int, maxTransports: int, maxRetries: int, maxRuntimeSeconds: int)

  /** Everything a run meets from outside. */
  datatype World = World(
    day: Day,
    elapsedMs: nat,
    reply: nat -> Reply,
    respond: seq<nat> -> BatchReply,
    chainOk: Data -> bool,
    headerOk: Data -> bool,
    headersAgree: (Data, Data) -> bool,
    decode: Data -> Option<AccountData>)

  datatype PrefilterError =
    | ArgumentBound | CohortComplete | DailyCeiling | TotalBudget | ProviderFailed | ContextInvalid | HardBound

  function Initial(): State {
    State(0, 0, 0, 0, 0, map[], [])
  }

  /** `classify_account_data`. */
  function Classify(data: Option<AccountData>): Bucket {
    match data
    case None => Incomplete
    case Some(account) =>
      if account.totalDebt == 0 then NoDebt
      else if account.healthFactor < WAD then Liquidatable
      else if account.healthFactor <= URGENT_HF_WAD then Urgent
      else if account.healthFactor <= WATCH_HF_WAD then Watch
      else DebtSafe
  }

  /** The bucket by debt and health factor, in the units of the protocol. */
  lemma ClassifyIff(data: Option<AccountData>)
    ensures Classify(data).Incomplete? <==> data.None?
    ensures data.Some? ==>
              var debt, factor := data.value.totalDebt, data.value.healthFactor;
              && (Classify(data).NoDebt? <==> debt == 0)
              && (Classify(data).Liquidatable? <==> debt > 0 && factor < 1_000_000_000_000_000_000)
              && (Classify(data).Urgent? <==>
                    debt > 0 && 1_000_000_000_000_000_000 <= factor <= 1_020_000_000_000_000_000)
              && (Classify(data).Watch? <==>
                    debt > 0 && 1_020_000_000_000_000_000 < factor <= 1_100_000_000_000_000_000)
              && (Classify(data).DebtSafe? <==> debt > 0 && factor > 1_100_000_000_000_000_000)
  {}

  function ItemsPerAddressMicros(items: nat, addresses: nat): nat
    requires addresses > 0
  {
    DivAtLeast(items * 1_000_000, addresses, 0);
    items * 1_000_000 / addresses
  }

  /** The hard bound on items per address, with three items of overhead, asks for at least twelve addresses. */
  lemma HardBoundIff(addresses: nat)
    requires addresses > 0
    ensures ItemsPerAddressMicros(addresses + 3, addresses) <= HARD_ITEMS_PER_ADDRESS_MICROS <==>
            addresses >= MIN_COMMITTED
  {
    DivAtLeast((addresses + 3) * 1_000_000, addresses, HARD_ITEMS_PER_ADDRESS_MICROS + 1);
  }

  function UsedOn(daily: map<Day, Usage>, day: Day): Usage {
    if day in daily then daily[day] else Usage(0, 0)
  }

  /** The state written when a batch is done. */
  function Commit(s: State, b: Batch): State
    requires b.start <= b.end
  {
    var used := UsedOn(s.daily, b.day);
    State(
      b.end, s.completed + 1, s.totalItems + b.items, s.totalTransports + b.transports, s.totalRetries + b.retries,
      s.daily[b.day := Usage(used.addresses + (b.end - b.start), used.items + b.items)], s.artifacts + [b])
  }

  // ---- What every reachable state keeps ----

  ghost function AddressesOn(batches: seq<Batch>, day: Day): int {
    if batches == [] then 0
    else
      var b := batches[|batches| - 1];
      AddressesOn(batches[..|batches| - 1], day) + if b.day == day then b.end - b.start else 0
  }

  ghost function TransportsOf(batches: seq<Batch>): nat {
    if batches == [] then 0 else TransportsOf(batches[..|batches| - 1]) + batches[|batches| - 1].transports
  }

  ghost function ItemsOn(batches: seq<Batch>, day: Day): int {
    if batches == [] then 0
    else
      var b := batches[|batches| - 1];
      ItemsOn(batches[..|batches| - 1], day) + if b.day == day then b.items else 0
  }

  function RowBorrowers(rows: seq<Row>): seq<Address> {
    if rows == [] then [] else RowBorrowers(rows[..|rows| - 1]) + [rows[|rows| - 1].borrower]
  }

  ghost function Screened(batches: seq<Batch>): seq<Address> {
    if batches == [] then [] else Screened(batches[..|batches| - 1]) + RowBorrowers(batches[|batches| - 1].rows)
  }

  /** The batches follow each other from 0 to end, each with its own addresses and n + 3 items. */
  ghost predicate Partition(batches: seq<Batch>, end: nat, borrowers: seq<Address>) {
    if batches == [] then end == 0
    else
      var b := batches[|batches| - 1];
      && b.start + MIN_COMMITTED <= b.end == end <= |borrowers|
      && b.items == b.end - b.start + 3 && b.retries == 0
      && RowBorrowers(b.rows) == borrowers[b.start..b.end]
      && Partition(batches[..|batches| - 1], b.start, borrowers)
  }

  ghost predicate Reachable(s: State, borrowers: seq<Address>) {
    && s.next <= |borrowers|
    && s.completed == |s.artifacts|
    && Partition(s.artifacts, s.next, borrowers)
    && s.totalItems == s.next + 3 * s.completed <= MAX_TOTAL_BROAD_ITEMS
    && s.totalRetries == 0 && s.totalTransports == TransportsOf(s.artifacts)
    && (forall day :: UsedOn(s.daily, day).addresses == AddressesOn(s.artifacts, day) <= MAX_DAILY_ADDRESSES)
    && (forall day :: UsedOn(s.daily, day).items == ItemsOn(s.artifacts, day))
  }

  /** Over every run the screened rows are exactly the first `next` addresses, in order. */
  lemma {:induction false} ScreenedIsPrefix(batches: seq<Batch>, end: nat, borrowers: seq<Address>)
    requires Partition(batches, end, borrowers) && end <= |borrowers|
    ensures Screened(batches) == borrowers[..end]
    ensures end >= MIN_COMMITTED * |batches|
  {
    if batches != [] {
      var b := batches[|batches| - 1];
      ScreenedIsPrefix(batches[..|batches| - 1], b.start, borrowers);
      assert borrowers[..b.start] + borrowers[b.start..b.end] == borrowers[..b.end];
    }
  }

  lemma CommitReachable(s: State, b: Batch, borrowers: seq<Address>)
    requires Reachable(s, borrowers)
    requires b.start == s.next && b.start + MIN_COMMITTED <= b.end <= |borrowers|
    requires b.items == b.end - b.start + 3 && b.retries == 0 && RowBorrowers(b.rows) == borrowers[b.start..b.end]
    requires UsedOn(s.daily, b.day).addresses + (b.end - b.start) <= MAX_DAILY_ADDRESSES
    requires s.totalItems + b.items <= MAX_TOTAL_BROAD_ITEMS
    ensures Reachable(Commit(s, b), borrowers)
  {
    var t := Commit(s, b);
    assert t.artifacts[..|t.artifacts| - 1] == s.artifacts;
    forall day
      ensures UsedOn(t.daily, day).addresses == AddressesOn(t.artifacts, day) <= MAX_DAILY_ADDRESSES
      ensures UsedOn(t.daily, day).items == ItemsOn(t.artifacts, day)
    {
      assert UsedOn(s.daily, day).addresses == AddressesOn(s.artifacts, day);
    }
  }

  // ---- One run ----

  function Rows(addresses: seq<Address>, results: seq<Data>, decode: Data -> Option<AccountData>): (rows: seq<Row>)
    requires |addresses| == |results|
    ensures RowBorrowers(rows) == addresses
  {
    if addresses == [] then []
    else
      var n := |addresses| - 1;
      Rows(addresses[..n], results[..n], decode) + [Row(addresses[n], Classify(decode(results[n])))]
  }

  /** Each address is classified by its own result. */
  lemma {:induction false} RowsAt(
      addresses: seq<Address>, results: seq<Data>, decode: Data -> Option<AccountData>, i: nat)
    requires i < |addresses| == |results|
    ensures |Rows(addresses, results, decode)| == |addresses|
    ensures Rows(addresses, results, decode)[i] == Row(addresses[i], Classify(decode(results[i])))
  {
    var n := |addresses| - 1;
    var front, last := Rows(addresses[..n], results[..n], decode), Row(addresses[n], Classify(decode(results[n])));
    assert Rows(addresses, results, decode) == front + [last];
    RowsLength(addresses[..n], results[..n], decode);
    if i < n {
      RowsAt(addresses[..n], results[..n], decode, i);
      assert (front + [last])[i] == front[i];
    } else {
      assert (front + [last])[n] == last;
    }
  }

  lemma {:induction false} RowsLength(addresses: seq<Address>, results: seq<Data>, decode: Data -> Option<AccountData>)
    requires |addresses| == |results|
    ensures |Rows(addresses, results, decode)| == |addresses|
  {
    var n := |addresses| - 1;
    if n >= 0 {
      RowsLength(addresses[..n], results[..n], decode);
    }
  }

  predicate ArgumentsOk(limits: Limits) {
    && 1 <= limits.batchSize <= MAX_BATCH_SIZE && 1 <= limits.rpcBatchSize <= MAX_RPC_BATCH
    && limits.maxItems >= limits.batchSize + 3 && limits.maxTransports >= 1
    && limits.maxRetries >= 0 && limits.maxRuntimeSeconds >= 1
  }

  /** The three liveness calls answer, and answer consistently. */
  ghost predicate ContextAnswers(w: World) {
    && w.reply(1).Answer? && w.chainOk(w.reply(1).data)
    && w.reply(2).Answer? && w.headerOk(w.reply(2).data)
    && w.reply(3).Answer? && w.headersAgree(w.reply(2).data, w.reply(3).data)
  }

  /** How many of them are numbered before the first that fails, that one included unless the bridge is gone. */
  ghost function ContextItems(w: World): nat {
    if w.reply(1).Stopped? then 0
    else if !w.reply(1).Answer? || !w.chainOk(w.reply(1).data) || w.reply(2).Stopped? then 1
    else if !w.reply(2).Answer? || !w.headerOk(w.reply(2).data) || w.reply(3).Stopped? then 2
    else 3
  }

  /** How many addresses the next batch holds. */
  function BatchLength(s: State, limits: Limits, total: nat): int {
    Min(limits.batchSize, total - s.next)
  }

  /** The run gets past its arguments and budgets, to a session with the provider. */
  predicate OpensSession(s: State, total: nat, limits: Limits, w: World) {
    ArgumentsOk(limits) &&
    var n := BatchLength(s, limits, total);
    && n > 0
    && UsedOn(s.daily, w.day).addresses + n <= MAX_DAILY_ADDRESSES
    && s.totalItems + n + 3 <= MAX_TOTAL_BROAD_ITEMS
  }

  /** Exactly when a run commits, said about its inputs. */
  ghost predicate Commits(s: State, total: nat, limits: Limits, w: World) {
    OpensSession(s, total, limits, w) &&
    var n := BatchLength(s, limits, total);
    && n >= MIN_COMMITTED
    && ContextAnswers(w)
    && AllResults(w.respond, 4, n, limits.rpcBatchSize).Some?
    && 3 + Groups(n, limits.rpcBatchSize) <= limits.maxTransports
    && w.elapsedMs <= limits.maxRuntimeSeconds * 1000
  }

  /** The batch such a run commits. */
  ghost function Committed(s: State, borrowers: seq<Address>, limits: Limits, w: World): Batch
    requires Commits(s, |borrowers|, limits, w)
  {
    var n := BatchLength(s, limits, |borrowers|);
    var results := AllResults(w.respond, 4, n, limits.rpcBatchSize).value;
    Batch(s.next, s.next + n, w.day, n + 3, 3 + Groups(n, limits.rpcBatchSize), 0,
          Rows(borrowers[s.next..s.next + n], results, w.decode))
  }

  /** One run: a commit, or nothing. */
  ghost function Step(s: State, borrowers: seq<Address>, limits: Limits, w: World): State {
    if Commits(s, |borrowers|, limits, w) then Commit(s, Committed(s, borrowers, limits, w)) else s
  }

  lemma StepReachable(s: State, borrowers: seq<Address>, limits: Limits, w: World)
    requires Reachable(s, borrowers)
    ensures Reachable(Step(s, borrowers, limits, w), borrowers)
  {
    if Commits(s, |borrowers|, limits, w) {
      CommitReachable(s, Committed(s, borrowers, limits, w), borrowers);
    }
  }

  /** How many items a session for n addresses numbers, whatever becomes of it. */
  ghost function SessionItems(w: World, n: nat, rpcBatchSize: nat): nat
    requires rpcBatchSize > 0
  {
    if ContextAnswers(w) then 3 + SentItems(w.respond, 4, n, rpcBatchSize) else ContextItems(w)
  }

  /** How many items a run numbers. */
  ghost function RunItems(s: State, total: nat, limits: Limits, w: World): nat {
    if OpensSession(s, total, limits, w) then SessionItems(w, BatchLength(s, limits, total), limits.rpcBatchSize) else 0
  }

  function RetryRateBps(retries: nat, items: nat): int {
    retries * 10_000 / (if items > 1 then items else 1)
  }

  /** The hard execution bounds of `run`. */
  predicate WithinBounds(limits: Limits, n: nat, items: nat, transports: nat, retries: nat, elapsedMs: nat)
    requires n > 0
  {
    && items <= limits.maxItems && transports <= limits.maxTransports && retries <= limits.maxRetries
    && elapsedMs <= limits.maxRuntimeSeconds * 1000
    && ItemsPerAddressMicros(items, n) <= HARD_ITEMS_PER_ADDRESS_MICROS && RetryRateBps(retries, items) <= 100
  }

  /** The bounds without a division: at most 5/4 items an address and one retry in a hundred items, rounded down. */
  lemma WithinBoundsExact(limits: Limits, n: nat, items: nat, transports: nat, retries: nat, elapsedMs: nat)
    requires n > 0
    ensures WithinBounds(limits, n, items, transports, retries, elapsedMs) <==>
            && items <= limits.maxItems && transports <= limits.maxTransports && retries <= limits.maxRetries
            && elapsedMs <= limits.maxRuntimeSeconds * 1000
            && items * 1_000_000 < 1_250_001 * n
            && (if items == 0 then retries == 0 else retries * 10_000 < 101 * items)
  {
    DivAtLeast(items * 1_000_000, n, 1_250_001);
    DivAtLeast(retries * 10_000, if items > 1 then items else 1, 101);
  }

  lemma WithinBoundsIff(limits: Limits, n: nat, transports: nat, elapsedMs: nat)
    requires ArgumentsOk(limits) && 0 < n <= limits.batchSize
    ensures WithinBounds(limits, n, n + 3, transports, 0, elapsedMs) <==>
            n >= MIN_COMMITTED && transports <= limits.maxTransports && elapsedMs <= limits.maxRuntimeSeconds * 1000
  {
    HardBoundIff(n);
    assert RetryRateBps(0, n + 3) == 0;
  }

  /** What a provider session leaves behind: its results, and its counters on every exit. */
  datatype Session = Session(results: Result<seq<Data>, PrefilterError>, items: nat, transports: nat, retries: nat)

  /** The session is the one its world makes of it. */
  ghost predicate Follows(session: Session, w: World, n: nat, rpcBatchSize: nat)
    requires rpcBatchSize > 0
  {
    && (session.results.Ok? <==> ContextAnswers(w) && AllResults(w.respond, 4, n, rpcBatchSize).Some?)
    && session.items == SessionItems(w, n, rpcBatchSize)
    && (session.results.Ok? ==>
          && session.results.value == AllResults(w.respond, 4, n, rpcBatchSize).value
          && session.items == n + 3 && session.transports == 3 + Groups(n, rpcBatchSize) && session.retries == 0)
  }

  /** The commit condition, read off the session. */
  lemma CommitsIff(s: State, total: nat, limits: Limits, w: World, n: nat, session: Session)
    requires OpensSession(s, total, limits, w) && n == BatchLength(s, limits, total)
    requires Follows(session, w, n, limits.rpcBatchSize)
    ensures Commits(s, total, limits, w) <==>
            && session.results.Ok? && n >= MIN_COMMITTED && session.transports <= limits.maxTransports
            && w.elapsedMs <= limits.maxRuntimeSeconds * 1000
  {}

  /** The persisted state of the prefilter. */
  class Screen {
    const borrowers: seq<Address>
    var state: State

    ghost predicate Valid()
      reads this
    {
      Reachable(state, borrowers)
    }

    constructor (borrowers: seq<Address>)
      ensures Valid() && this.borrowers == borrowers && state == Initial()
    {
      this.borrowers, state := borrowers, Initial();
    }

    /** `exact_primary_context`: three calls, one attempt each. */
    method Context(bridge: Bridge, w: World) returns (ok: bool)
      requires bridge.requestId == bridge.transports == bridge.retries == 0 && bridge.reply == w.reply
      modifies bridge
      ensures ok <==> ContextAnswers(w)
      ensures bridge.requestId == ContextItems(w)
      ensures ok ==> bridge.requestId == bridge.transports == 3 && bridge.retries == 0
    {
      var chain := bridge.Call(false, 1);
      if chain.Err? || !w.chainOk(chain.value) {
        return false;
      }
      var finalized := bridge.Call(false, 1);
      if finalized.Err? || !w.headerOk(finalized.value) {
        return false;
      }
      var exact := bridge.Call(false, 1);
      if exact.Err? {
        return false;
      }
      ok := w.headersAgree(finalized.value, exact.value);
    }

    /** One provider session: the liveness calls and one account-data call per address. */
    method Fetch(w: World, n: nat, rpcBatchSize: int) returns (session: Session)
      requires 1 <= rpcBatchSize <= MAX_RPC_BATCH
      ensures Follows(session, w, n, rpcBatchSize)
    {
      var bridge := new Bridge(w.reply, w.respond);
      var live := Context(bridge, w);
      if !live {
        return Session(Err(ContextInvalid), bridge.requestId, bridge.transports, bridge.retries);
      }
      var results := bridge.EthCalls(n, rpcBatchSize);
      session := Session(
        if results.Ok? then Ok(results.value) else Err(ProviderFailed),
        bridge.requestId, bridge.transports, bridge.retries);
    }

    /** The checks before a provider is asked; the length of the batch otherwise. */
    method Admit(limits: Limits, day: Day) returns (r: Result<nat, PrefilterError>)
      requires Valid()
      ensures forall w: World :: w.day == day ==> (r.Ok? <==> OpensSession(state, |borrowers|, limits, w))
      ensures r.Ok? ==> r.value == BatchLength(state, limits, |borrowers|) > 0
    {
      if !ArgumentsOk(limits) {
        return Err(ArgumentBound);
      }
      var end := Min(state.next + limits.batchSize, |borrowers|);
      if end == state.next {
        return Err(CohortComplete);
      }
      var n := end - state.next;
      if UsedOn(state.daily, day).addresses + n > MAX_DAILY_ADDRESSES {
        return Err(DailyCeiling);
      }
      if state.totalItems + n + 3 > MAX_TOTAL_BROAD_ITEMS {
        return Err(TotalBudget);
      }
      r := Ok(n);
    }

    /** The hard bounds for a session that spent n + 3 items and no retry. */
    method CheckBounds(limits: Limits, n: nat, session: Session, elapsedMs: nat) returns (within: bool)
      requires ArgumentsOk(limits) && 0 < n <= limits.batchSize && session.items == n + 3 && session.retries == 0
      ensures within <==>
              && n >= MIN_COMMITTED && session.transports <= limits.maxTransports
              && elapsedMs <= limits.maxRuntimeSeconds * 1000
    {
      WithinBoundsIff(limits, n, session.transports, elapsedMs);
      within := WithinBounds(limits, n, session.items, session.transports, session.retries, elapsedMs);
    }

    /** The checks after the session; the batch to commit otherwise. */
    method Conclude(limits: Limits, w: World, n: nat, session: Session) returns (r: Result<Batch, PrefilterError>)
      requires OpensSession(state, |borrowers|, limits, w) && n == BatchLength(state, limits, |borrowers|)
      requires Follows(session, w, n, limits.rpcBatchSize)
      ensures r.Ok? <==> Commits(state, |borrowers|, limits, w)
      ensures r.Ok? ==> r.value == Committed(state, borrowers, limits, w)
    {
      CommitsIff(state, |borrowers|, limits, w, n, session);
      if session.results.Err? {
        return Err(session.results.error);
      }
      var within := CheckBounds(limits, n, session, w.elapsedMs);
      if !within {
        return Err(HardBound);
      }
      var cursor := state.next;
      var rows := Rows(borrowers[cursor..cursor + n], session.results.value, w.decode);
      r := Ok(Batch(cursor, cursor + n, w.day, session.items, session.transports, session.retries, rows));
    }

    /**
     * The batch step of `run`: it commits exactly when `Commits` holds, and otherwise leaves the state alone; the items
     * it numbered are spent either way.
     */
    method Run(limits: Limits, w: World) returns (r: Result<Batch, PrefilterError>, spent: nat)
      requires Valid()
      modifies this`state
      ensures Valid()
      ensures r.Ok? <==> Commits(old(state), |borrowers|, limits, w)
      ensures r.Ok? ==> r.value == Committed(old(state), borrowers, limits, w)
      ensures state == Step(old(state), borrowers, limits, w)
      ensures spent == RunItems(old(state), |borrowers|, limits, w)
    {
      StepReachable(state, borrowers, limits, w);
      var admitted := Admit(limits, w.day);
      if admitted.Err? {
        return Err(admitted.error), 0;
      }
      var session := Fetch(w, admitted.value, limits.rpcBatchSize);
      spent := session.items;
      r := Conclude(limits, w, admitted.value, session);
      if r.Ok? {
        state := Commit(state, r.value);
      }
    }
  }

  // ---- Every sequence of runs ----

  datatype Attempt = Attempt(limits: Limits, world: World)

  /** The state after the runs, whatever the providers, clocks and limits do. */
  ghost function After(s: State, borrowers: seq<Address>, runs: seq<Attempt>): State {
    if runs == [] then s
    else
      var last := runs[|runs| - 1];
      Step(After(s, borrowers, runs[..|runs| - 1]), borrowers, last.limits, last.world)
  }

  lemma {:induction false} AfterReachable(s: State, borrowers: seq<Address>, runs: seq<Attempt>)
    requires Reachable(s, borrowers)
    ensures Reachable(After(s, borrowers, runs), borrowers)
  {
    if runs != [] {
      var front, last := runs[..|runs| - 1], runs[|runs| - 1];
      AfterReachable(s, borrowers, front);
      StepReachable(After(s, borrowers, front), borrowers, last.limits, last.world);
    }
  }

  /**
   * Over every sequence of runs: coverage without gap or repeat, n + 3 items a batch, no retry, the transports of the
   * batches added up, at most 250000 recorded items in all and 20000 addresses a day.
   */
  lemma EveryRunWithinBudget(borrowers: seq<Address>, runs: seq<Attempt>)
    ensures var s := After(Initial(), borrowers, runs);
            && s.next <= |borrowers| && Screened(s.artifacts) == borrowers[..s.next]
            && s.totalItems == s.next + 3 * s.completed <= 250_000 && s.completed == |s.artifacts|
            && s.totalRetries == 0 && s.totalTransports == TransportsOf(s.artifacts)
            && forall day :: AddressesOn(s.artifacts, day) <= 20_000
  {
    AfterReachable(Initial(), borrowers, runs);
    ReachableWithinBudget(After(Initial(), borrowers, runs), borrowers);
  }

  lemma ReachableWithinBudget(s: State, borrowers: seq<Address>)
    requires Reachable(s, borrowers)
    ensures Screened(s.artifacts) == borrowers[..s.next]
    ensures forall day :: AddressesOn(s.artifacts, day) <= MAX_DAILY_ADDRESSES
  {
    ScreenedIsPrefix(s.artifacts, s.next, borrowers);
    forall day ensures AddressesOn(s.artifacts, day) <= MAX_DAILY_ADDRESSES {
      assert UsedOn(s.daily, day).addresses == AddressesOn(s.artifacts, day);
    }
  }

  // ---- What was really spent ----

  /** The items numbered by all runs, failed ones included. */
  ghost function Spent(s: State, borrowers: seq<Address>, runs: seq<Attempt>): nat
  {
    if runs == [] then 0
    else
      var front, last := runs[..|runs| - 1], runs[|runs| - 1];
      Spent(s, borrowers, front) + RunItems(After(s, borrowers, front), |borrowers|, last.limits, last.world)
  }

  lemma CommittedItems(s: State, borrowers: seq<Address>, limits: Limits, w: World)
    ensures Commits(s, |borrowers|, limits, w) ==>
              Step(s, borrowers, limits, w).totalItems == s.totalItems + RunItems(s, |borrowers|, limits, w)
    ensures !Commits(s, |borrowers|, limits, w) ==> Step(s, borrowers, limits, w).totalItems == s.totalItems
  {}

  /** The items numbered by the runs that failed. */
  ghost function Lost(s: State, borrowers: seq<Address>, runs: seq<Attempt>): nat
  {
    if runs == [] then 0
    else
      var front, last := runs[..|runs| - 1], runs[|runs| - 1];
      var before := After(s, borrowers, front);
      Lost(s, borrowers, front) +
      if Commits(before, |borrowers|, last.limits, last.world) then 0
      else RunItems(before, |borrowers|, last.limits, last.world)
  }

  lemma {:induction false} SpentIsRecordedAndLost(s: State, borrowers: seq<Address>, runs: seq<Attempt>)
    ensures s.totalItems + Spent(s, borrowers, runs) == After(s, borrowers, runs).totalItems + Lost(s, borrowers, runs)
  {
    if runs != [] {
      var front, last := runs[..|runs| - 1], runs[|runs| - 1];
      SpentIsRecordedAndLost(s, borrowers, front);
      CommittedItems(After(s, borrowers, front), borrowers, last.limits, last.world);
    }
  }

  /** The run stops at its arguments or budgets, or the bridge is gone before the first call. */
  ghost predicate Unreached(s: State, total: nat, limits: Limits, w: World) {
    !OpensSession(s, total, limits, w) || w.reply(1).Stopped?
  }

  /** Every run commits, or never reaches the provider. */
  ghost predicate AllAccounted(s: State, borrowers: seq<Address>, runs: seq<Attempt>)
  {
    runs == [] ||
    var front, last := runs[..|runs| - 1], runs[|runs| - 1];
    var before := After(s, borrowers, front);
    && AllAccounted(s, borrowers, front)
    && (Commits(before, |borrowers|, last.limits, last.world) ||
       Unreached(before, |borrowers|, last.limits, last.world))
  }

  lemma {:induction false} NothingLostIff(s: State, borrowers: seq<Address>, runs: seq<Attempt>)
    ensures Lost(s, borrowers, runs) == 0 <==> AllAccounted(s, borrowers, runs)
  {
    if runs != [] {
      NothingLostIff(s, borrowers, runs[..|runs| - 1]);
    }
  }

  /** The recorded total never exceeds what was spent, and equals it exactly when no failed run reached the provider. */
  lemma RecordedIsSpentIff(borrowers: seq<Address>, runs: seq<Attempt>)
    ensures After(Initial(), borrowers, runs).totalItems <= Spent(Initial(), borrowers, runs)
    ensures After(Initial(), borrowers, runs).totalItems == Spent(Initial(), borrowers, runs) <==>
            AllAccounted(Initial(), borrowers, runs)
  {
    SpentIsRecordedAndLost(Initial(), borrowers, runs);
    NothingLostIff(Initial(), borrowers, runs);
  }

  /** A provider on another chain: the run fails after one call, which no record holds. */
  lemma UnrecordedExample(borrowers: seq<Address>) returns (run: Attempt)
    requires |borrowers| >= MIN_COMMITTED
    ensures After(Initial(), borrowers, [run]) == Initial() && Spent(Initial(), borrowers, [run]) == 1
  {
    var w := World(0, 0, i => Answer(0), ids => NotList, d => false, d => true, (a, b) => true, d => None);
    run := Attempt(Limits(MIN_COMMITTED, 1, MIN_COMMITTED + 3, 1, 0, 1), w);
    assert [run][..0] == [];
    assert OpensSession(Initial(), |borrowers|, run.limits, w);
    assert ContextItems(w) == 1;
  }

  // ---- When a cohort can be finished ----

  /** Some sequence of runs screens the last address. */
  ghost predicate Completable(s: State, borrowers: seq<Address>)
  {
    exists runs :: After(s, borrowers, runs).next == |borrowers|
  }

  /** Enough addresses for a batch, and enough of the item budget for as few batches as they fit in. */
  predicate Affordable(s: State, left: nat) {
    left == 0 ||
    (left >= 12 && s.totalItems + left + 3 * Groups(left, 20_000) <= 250_000)
  }

  /** However many runs: the cursor moves by at most 20000 addresses a batch, and by at least 12 or not at all. */
  lemma {:induction false} CursorPace(s: State, borrowers: seq<Address>, runs: seq<Attempt>)
    ensures Paced(s, After(s, borrowers, runs))
  {
    if runs != [] {
      CursorPace(s, borrowers, runs[..|runs| - 1]);
    }
  }

  ghost predicate Paced(s: State, t: State) {
    && s.completed <= t.completed && s.next <= t.next && t.next - s.next <= MAX_BATCH_SIZE * (t.completed - s.completed)
    && t.totalItems - s.totalItems == t.next - s.next + 3 * (t.completed - s.completed)
    && (t.next == s.next || (t.next >= s.next + MIN_COMMITTED && t.totalItems <= MAX_TOTAL_BROAD_ITEMS))
  }

  lemma FewestBatches(s: State, t: State)
    requires Paced(s, t)
    ensures Affordable(s, t.next - s.next)
  {
    CeilAtMost(t.next - s.next, MAX_BATCH_SIZE, t.completed - s.completed);
  }

  lemma CompletableNeeds(s: State, borrowers: seq<Address>, runs: seq<Attempt>)
    requires After(s, borrowers, runs).next == |borrowers|
    ensures s.next <= |borrowers| && Affordable(s, |borrowers| - s.next)
  {
    CursorPace(s, borrowers, runs);
    FewestBatches(s, After(s, borrowers, runs));
  }

  // The runs that finish: each in one session on a day of its own, with a provider that answers everything.

  function Obliging(ids: seq<nat>): BatchReply {
    Items(seq(|ids|, i requires 0 <= i < |ids| => Item(ids[i], Some(0))))
  }

  lemma {:induction false} LastWithAnswers(items: seq<Item>, id: nat, i: nat)
    requires i < |items| && items[i].id == id && forall k :: 0 <= k < |items| ==> items[k].result.Some?
    ensures Answers(items, id)
  {
    if items[|items| - 1].id != id {
      LastWithAnswers(items[..|items| - 1], id, i);
    }
  }

  lemma {:induction false} ObligingResults(first: nat, count: nat, n: nat)
    requires n <= count
    ensures ResultsById(Obliging(Ids(first, count)).items, first, n).Some?
  {
    if n > 0 {
      ObligingResults(first, count, n - 1);
      IdsAt(first, count, n - 1);
      LastWithAnswers(Obliging(Ids(first, count)).items, first + n - 1, n - 1);
    }
  }

  lemma {:induction false} ObligingAnswersAll(first: nat, count: nat, size: nat)
    requires size > 0
    ensures AllResults(Obliging, first, count, size).Some?
    decreases count
  {
    if count > 0 {
      var n := Min(size, count);
      ObligingResults(first, n, n);
      ObligingAnswersAll(first + n, count - n, size);
    }
  }

  lemma {:induction false} Above(days: set<Day>) returns (day: Day)
    ensures forall d :: d in days ==> d < day
    decreases days
  {
    if days == {} {
      day := 0;
    } else {
      var d :| d in days;
      var rest := Above(days - {d});
      day := if d < rest then rest else d + 1;
      assert forall x :: x in days ==> x == d || x in days - {d};
    }
  }

  /** A batch of any length from 12 to 20000 that the budget allows can be committed. */
  lemma SomeRunCommits(s: State, borrowers: seq<Address>, n: nat) returns (run: Attempt)
    requires MIN_COMMITTED <= n <= MAX_BATCH_SIZE && s.next + n <= |borrowers|
    requires s.totalItems + n + 3 <= MAX_TOTAL_BROAD_ITEMS
    ensures Commits(s, |borrowers|, run.limits, run.world) && BatchLength(s, run.limits, |borrowers|) == n
  {
    var day := Above(s.daily.Keys);
    var w := World(day, 0, i => Answer(0), Obliging, d => true, d => true, (a, b) => true, d => None);
    run := Attempt(Limits(n, 1, n + 3, 3 + Groups(n, 1), 0, 1), w);
    assert day !in s.daily;
    ObligingAnswersAll(4, n, 1);
    CeilAtMost(n, 1, 0);
  }

  lemma {:induction false} AfterMore(s: State, borrowers: seq<Address>, a: seq<Attempt>, b: seq<Attempt>)
    ensures After(s, borrowers, a + b) == After(After(s, borrowers, a), borrowers, b)
  {
    if b == [] {
      assert a + b == a;
    } else {
      assert (a + b)[..|a + b| - 1] == a + b[..|b| - 1];
      AfterMore(s, borrowers, a, b[..|b| - 1]);
    }
  }

  lemma AfterOne(s: State, borrowers: seq<Address>, run: Attempt)
    ensures After(s, borrowers, [run]) == Step(s, borrowers, run.limits, run.world)
  {
    assert [run][..0] == [];
  }

  /** The next batch of a finishing sequence: as long as it can be without leaving a rest too short to commit. */
  function FirstLength(left: nat): nat {
    if left <= MAX_BATCH_SIZE then left
    else if left >= MAX_BATCH_SIZE + MIN_COMMITTED then MAX_BATCH_SIZE
    else left - MIN_COMMITTED
  }

  lemma FirstLengthFits(left: nat)
    requires left >= MIN_COMMITTED
    ensures var n := FirstLength(left);
            && MIN_COMMITTED <= n <= MAX_BATCH_SIZE && n <= left && (n == left || left - n >= MIN_COMMITTED)
            && Groups(left, MAX_BATCH_SIZE) == 1 + Groups(left - n, MAX_BATCH_SIZE)
  {
    GroupsStep(left, MAX_BATCH_SIZE);
    if MAX_BATCH_SIZE < left < MAX_BATCH_SIZE + MIN_COMMITTED {
      GroupsStep(left - MAX_BATCH_SIZE, MAX_BATCH_SIZE);
      GroupsStep(MIN_COMMITTED, MAX_BATCH_SIZE);
    }
  }

  /** What a commit of n addresses does to the cursor and the recorded items. */
  lemma CommitMoves(s: State, borrowers: seq<Address>, run: Attempt, n: nat)
    requires Commits(s, |borrowers|, run.limits, run.world) && BatchLength(s, run.limits, |borrowers|) == n
    ensures var t := Step(s, borrowers, run.limits, run.world);
            t.next == s.next + n && t.totalItems == s.totalItems + n + 3
  {}

  lemma {:induction false} FinishingRuns(s: State, borrowers: seq<Address>) returns (runs: seq<Attempt>)
    requires s.next <= |borrowers| && Affordable(s, |borrowers| - s.next)
    ensures After(s, borrowers, runs).next == |borrowers|
    decreases |borrowers| - s.next
  {
    var left := |borrowers| - s.next;
    if left == 0 {
      runs := [];
    } else {
      var n := FirstLength(left);
      FirstLengthFits(left);
      var run := SomeRunCommits(s, borrowers, n);
      var t := Step(s, borrowers, run.limits, run.world);
      CommitMoves(s, borrowers, run, n);
      var rest := FinishingRuns(t, borrowers);
      AfterOne(s, borrowers, run);
      AfterMore(s, borrowers, [run], rest);
      runs := [run] + rest;
    }
  }

  /**
   * A cohort can be finished from a state if and only if nothing is left, or at least 12 addresses are left and the
   * item budget still pays for them in as few batches as they fit in. Otherwise every sequence of runs stops short.
   */
  lemma CompletableIff(s: State, borrowers: seq<Address>)
    requires s.next <= |borrowers|
    ensures Completable(s, borrowers) <==> Affordable(s, |borrowers| - s.next)
  {
    if Completable(s, borrowers) {
      var runs :| After(s, borrowers, runs).next == |borrowers|;
      CompletableNeeds(s, borrowers, runs);
    }
    if Affordable(s, |borrowers| - s.next) {
      var runs := FinishingRuns(s, borrowers);
    }
  }

  /** Thirteen addresses can be finished from the start, but not once a batch of twelve has left one behind. */
  lemma ShortTailExample(borrowers: seq<Address>) returns (run: Attempt)
    requires |borrowers| == 13
    ensures Completable(Initial(), borrowers)
    ensures After(Initial(), borrowers, [run]).next == 12 && !Completable(After(Initial(), borrowers, [run]), borrowers)
  {
    GroupsStep(13, MAX_BATCH_SIZE);
    GroupsNone(MAX_BATCH_SIZE);
    CompletableIff(Initial(), borrowers);
    run := SomeRunCommits(Initial(), borrowers, 12);
    CommitMoves(Initial(), borrowers, run, 12);
    AfterOne(Initial(), borrowers, run);
    CompletableIff(After(Initial(), borrowers, [run]), borrowers);
  }

  /** k full batches from the start. */
  lemma {:induction false} FullBatches(borrowers: seq<Address>, k: nat) returns (runs: seq<Attempt>)
    requires k <= 12 && MAX_BATCH_SIZE * k <= |borrowers|
    ensures var t := After(Initial(), borrowers, runs);
            t.next == MAX_BATCH_SIZE * k && t.totalItems == (MAX_BATCH_SIZE + 3) * k
  {
    if k == 0 {
      runs := [];
    } else {
      var front := FullBatches(borrowers, k - 1);
      var t := After(Initial(), borrowers, front);
      var run := SomeRunCommits(t, borrowers, MAX_BATCH_SIZE);
      CommitMoves(t, borrowers, run, MAX_BATCH_SIZE);
      AfterOne(t, borrowers, run);
      AfterMore(Initial(), borrowers, front, [run]);
      runs := front + [run];
    }
  }

  /**
   * The largest cohort that discovery admits can never be finished: 13 batches spend the whole budget with 39 addresses
   * left.
   */
  lemma BudgetExample(borrowers: seq<Address>) returns (runs: seq<Attempt>)
    requires |borrowers| == 250_000
    ensures !Completable(Initial(), borrowers)
    ensures var t := After(Initial(), borrowers, runs);
            t.totalItems == MAX_TOTAL_BROAD_ITEMS && |borrowers| - t.next == 39 && !Completable(t, borrowers)
  {
    CompletableIff(Initial(), borrowers);
    var front := FullBatches(borrowers, 12);
    var t := After(Initial(), borrowers, front);
    var run := SomeRunCommits(t, borrowers, 9_961);
    CommitMoves(t, borrowers, run, 9_961);
    AfterOne(t, borrowers, run);
    AfterMore(Initial(), borrowers, front, [run]);
    runs := front + [run];
    CompletableIff(After(Initial(), borrowers, runs), borrowers);
  }
}
