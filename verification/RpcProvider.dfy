/** The request counters of the SSH provider bridge (`SSHContainerProvider.call` and `eth_calls`). */
module RpcProvider {
  import opened Results
  import opened FixedPoint

  const MAX_RPC_BATCH := 200

  type Data = int

  /** What happens to one request. */
  datatype Reply =
    | Answer(data: Data)
    | RpcError(endsLogQuery: bool)  // codes -32000 and -32005 end a log query at once
    | ResultMissing
    | TransportException
    | BridgeFailure(written: bool)  // the bridge's own error, before or after the request was written
    | Stopped                       // the bridge process is gone before the request is numbered

  datatype Item = Item(id: nat, result: Option<Data>)

  /** What comes back for a batch of requests. */
  datatype BatchReply =
    | Items(items: seq<Item>)
    | NotList
    | BridgeDown(written: bool)  // the bridge's own error, before or after the batch was written

  datatype RpcFailure = RpcFailure

  /** How many groups of at most `size` are needed. */
  function Groups(count: nat, size: nat): nat
    requires size > 0
  {
    (count + size - 1) / size
  }

  /** The entry a dictionary keyed by id ends with: the last one. */
  function LastWith(items: seq<Item>, id: nat): Option<Item> {
    if items == [] then None
    else if items[|items| - 1].id == id then Some(items[|items| - 1])
    else LastWith(items[..|items| - 1], id)
  }

  predicate Answers(items: seq<Item>, id: nat) {
    LastWith(items, id).Some? && LastWith(items, id).value.result.Some?
  }

  class Bridge {
    const reply: nat -> Reply              // by request id
    const respond: seq<nat> -> BatchReply  // to a batch of ids
    var requestId: nat
    var transports: nat
    var retries: nat

    constructor (reply: nat -> Reply, respond: seq<nat> -> BatchReply)
      ensures requestId == transports == retries == 0 && this.reply == reply && this.respond == respond
    {
      this.reply, this.respond := reply, respond;
      requestId, transports, retries := 0, 0, 0;
    }

    /** `call`: every attempt takes a new id, and every attempt but the first is a retry. */
    method Call(isLogQuery: bool, attempts: nat) returns (r: Result<Data, RpcFailure>)
      modifies this
      ensures old(requestId) <= requestId <= old(requestId) + attempts
      ensures forall k :: old(requestId) < k < requestId ==> Retryable(reply(k), isLogQuery)
      ensures requestId > old(requestId) ==> !reply(requestId).Stopped?
      ensures requestId == old(requestId) + attempts || reply(requestId + 1).Stopped? ||
              (requestId > old(requestId) && !Retryable(reply(requestId), isLogQuery))
      ensures retries - old(retries) == Retries(old(requestId), requestId, reply, isLogQuery, attempts)
      ensures transports - old(transports) ==
              requestId - old(requestId) - (if Unwritten(reply, old(requestId), requestId) then 1 else 0)
      ensures r ==
              if requestId > old(requestId) && reply(requestId).Answer? then Ok(reply(requestId).data)
              else Err(RpcFailure)
    {
      for attempt := 0 to attempts
        invariant attempt == 0 || attempt < attempts
        invariant requestId == old(requestId) + attempt && retries == old(retries) + attempt
        invariant transports == old(transports) + attempt
        invariant forall k :: old(requestId) < k <= requestId ==> Retryable(reply(k), isLogQuery)
      {
        var outcome := reply(requestId + 1);
        if outcome.Stopped? {
          return Err(RpcFailure);
        }
        requestId := requestId + 1;
        if !(outcome.BridgeFailure? && !outcome.written) {
          transports := transports + 1;
        }
        if outcome.Answer? {
          return Ok(outcome.data);
        }
        if outcome.BridgeFailure? || (isLogQuery && outcome.RpcError? && outcome.endsLogQuery) {
          return Err(RpcFailure);
        }
        if attempt + 1 < attempts {
          retries := retries + 1;
        } else {
          return Err(RpcFailure);
        }
      }
      r := Err(RpcFailure);
    }

    /** The inner loops of `eth_calls`: number a batch, send it, and read each result back by its own id. */
    method Batch(count: nat) returns (r: Option<seq<Data>>)
      modifies this
      ensures requestId == old(requestId) + count && retries == old(retries)
      ensures r == BatchResults(respond, old(requestId) + 1, count)
      ensures transports == old(transports) +
              if respond(Ids(old(requestId) + 1, count)) == BridgeDown(false) then 0 else 1
    {
      ghost var first := requestId + 1;
      var ids: seq<nat> := [];
      for i := 0 to count
        invariant requestId == first - 1 + i && ids == Ids(first, i)
        invariant unchanged(`transports, `retries)
      {
        requestId := requestId + 1;
        ids := ids + [requestId];
      }
      var response := respond(ids);
      if !(response.BridgeDown? && !response.written) {
        transports := transports + 1;
      }
      if !response.Items? {
        return None;
      }
      r := ReadBack(response.items, ids, first);
    }

    /** One pass of the batch loop. */
    method NextBatch(ghost first: nat, count: nat, size: nat, cursor: nat, ghost sent: nat, results: seq<Data>)
      returns (r: Option<seq<Data>>)
      requires Asked(respond, first, count, size, cursor, sent, results) && cursor < count &&
               requestId == first - 1 + cursor
      modifies this
      ensures retries == old(retries)
      ensures r.Some? ==>
                && Asked(respond, first, count, size, cursor + Min(size, count - cursor), sent + 1, r.value)
                && requestId == old(requestId) + Min(size, count - cursor) && transports == old(transports) + 1
      ensures r.None? ==>
                && AllResults(respond, first, count, size).None?
                && requestId == first - 1 + SentItems(respond, first, count, size)
    {
      var batch := Batch(Min(size, count - cursor));
      AskedNext(respond, first, count, size, cursor, sent, results);
      r := if batch.None? then None else Some(results + batch.value);
    }

    /**
     * `eth_calls`: success takes one id per call and one transport per batch, retries nothing, and gives every call
     * the result that came back under its own id, however the provider orders or repeats its items. A failure has
     * numbered every call of every batch it sent.
     */
    method EthCalls(count: nat, batchSize: int) returns (r: Result<seq<Data>, RpcFailure>)
      modifies this
      ensures retries == old(retries)
      ensures r.Ok? <==>
              1 <= batchSize <= 200 && AllResults(respond, old(requestId) + 1, count, batchSize).Some?
      ensures requestId == old(requestId) +
                if 1 <= batchSize <= 200 then SentItems(respond, old(requestId) + 1, count, batchSize) else 0
      ensures r.Ok? ==>
                && r.value == AllResults(respond, old(requestId) + 1, count, batchSize).value
                && transports == old(transports) + Groups(count, batchSize)
    {
      if !(1 <= batchSize <= MAX_RPC_BATCH) {
        return Err(RpcFailure);
      }
      ghost var first, sent := requestId + 1, 0;
      var results: seq<Data>, cursor: nat := [], 0;
      JoinedNone(AllResults(respond, first, count, batchSize));
      while cursor < count
        invariant requestId == first - 1 + cursor && retries == old(retries) && transports == old(transports) + sent
        invariant Asked(respond, first, count, batchSize, cursor, sent, results)
        decreases count - cursor
      {
        var step := NextBatch(first, count, batchSize, cursor, sent, results);
        if step.None? {
          return Err(RpcFailure);
        }
        results, cursor, sent := step.value, cursor + Min(batchSize, count - cursor), sent + 1;
      }
      AskedAll(respond, first, count, batchSize, sent, results);
      r := Ok(results);
    }
  }

  /** What a call tries again after: neither an answer, nor the bridge's own failure, nor the end of a log query. */
  predicate Retryable(reply: Reply, isLogQuery: bool) {
    reply.ResultMissing? || reply.TransportException? || (reply.RpcError? && !(isLogQuery && reply.endsLogQuery))
  }

  /** The retries of a call that numbered the ids after `before` up to `last`: one for each that was tried again. */
  function Retries(before: nat, last: nat, reply: nat -> Reply, isLogQuery: bool, attempts: nat): int {
    if last == before then 0
    else if last == before + attempts || !Retryable(reply(last), isLogQuery) then last - before - 1
    else last - before
  }

  /** The last of the ids after `before` up to `last` met a bridge failure before its request was written. */
  predicate Unwritten(reply: nat -> Reply, before: nat, last: nat) {
    last > before && reply(last).BridgeFailure? && !reply(last).written
  }

  /** The result loop of `eth_calls`. */
  method ReadBack(items: seq<Item>, ids: seq<nat>, ghost first: nat) returns (r: Option<seq<Data>>)
    requires ids == Ids(first, |ids|)
    ensures r == ResultsById(items, first, |ids|)
  {
    var results := [];
    for i := 0 to |ids|
      invariant ResultsById(items, first, i) == Some(results)
    {
      var item := LastWith(items, ids[i]);
      IdsAt(first, |ids|, i);
      if item.None? || item.value.result.None? {
        NoResults(items, first, i + 1, |ids|);
        return None;
      }
      results := results + [item.value.result.value];
    }
    r := Some(results);
  }

  /** Where the batch loop stands: results so far and batches so far, against what all calls yield and need. */
  ghost predicate Asked(
      respond: seq<nat> -> BatchReply, first: nat, count: nat, size: nat, cursor: nat, sent: nat, results: seq<Data>)
  {
    && size > 0 && cursor <= count
    && Joined(results, AllResults(respond, first + cursor, count - cursor, size))
       == AllResults(respond, first, count, size)
    && cursor + SentItems(respond, first + cursor, count - cursor, size) == SentItems(respond, first, count, size)
    && sent + Groups(count - cursor, size) == Groups(count, size)
  }

  lemma AskedNext(
      respond: seq<nat> -> BatchReply, first: nat, count: nat, size: nat, cursor: nat, sent: nat, results: seq<Data>)
    requires Asked(respond, first, count, size, cursor, sent, results) && cursor < count
    ensures var n := Min(size, count - cursor); var batch := BatchResults(respond, first + cursor, n);
            if batch.Some? then Asked(respond, first, count, size, cursor + n, sent + 1, results + batch.value)
            else AllResults(respond, first, count, size).None? && SentItems(respond, first, count, size) == cursor + n
    ensures BatchResults(respond, first + cursor, Min(size, count - cursor)).Some? ==>
              respond(Ids(first + cursor, Min(size, count - cursor))).Items?
  {
    var n := Min(size, count - cursor);
    var batch := BatchResults(respond, first + cursor, n);
    GroupsStep(count - cursor, size);
    if batch.Some? {
      JoinedMore(results, batch.value, AllResults(respond, first + cursor + n, count - cursor - n, size));
    }
  }

  lemma AskedAll(respond: seq<nat> -> BatchReply, first: nat, count: nat, size: nat, sent: nat, results: seq<Data>)
    requires Asked(respond, first, count, size, count, sent, results)
    ensures AllResults(respond, first, count, size) == Some(results)
    ensures SentItems(respond, first, count, size) == count && sent == Groups(count, size)
  {
    GroupsNone(size);
    assert results + [] == results;
  }

  ghost function Ids(first: nat, count: nat): (ids: seq<nat>)
    ensures |ids| == count
  {
    if count == 0 then [] else Ids(first, count - 1) + [first + count - 1]
  }

  lemma {:induction false} IdsAt(first: nat, count: nat, i: nat)
    requires i < count
    ensures Ids(first, count)[i] == first + i
  {
    if i < count - 1 {
      IdsAt(first, count - 1, i);
    }
  }

  /** The results of the first `count` ids of a response, each under its own id; None if one is missing. */
  ghost function ResultsById(items: seq<Item>, first: nat, count: nat): (r: Option<seq<Data>>)
    ensures r.Some? ==> |r.value| == count
  {
    if count == 0 then Some([])
    else if ResultsById(items, first, count - 1).None? || !Answers(items, first + count - 1) then None
    else Some(ResultsById(items, first, count - 1).value + [LastWith(items, first + count - 1).value.result.value])
  }

  lemma {:induction false} NoResults(items: seq<Item>, first: nat, few: nat, many: nat)
    requires few <= many && ResultsById(items, first, few).None?
    ensures ResultsById(items, first, many).None?
  {
    if few < many {
      NoResults(items, first, few, many - 1);
    }
  }

  ghost function BatchResults(respond: seq<nat> -> BatchReply, first: nat, count: nat): (r: Option<seq<Data>>)
    ensures r.Some? ==> |r.value| == count
  {
    var response := respond(Ids(first, count));
    if response.Items? then ResultsById(response.items, first, count) else None
  }

  /** What `count` calls numbered from `first` yield, asked in batches. */
  ghost function AllResults(respond: seq<nat> -> BatchReply, first: nat, count: nat, size: nat): (r: Option<seq<Data>>)
    requires size > 0
    ensures r.Some? ==> |r.value| == count
    decreases count
  {
    if count == 0 then Some([])
    else
      var n := Min(size, count);
      var results := BatchResults(respond, first, n);
      if results.None? then None else Joined(results.value, AllResults(respond, first + n, count - n, size))
  }

  /** How many of those calls are numbered before the first batch that fails is sent, that batch included. */
  ghost function SentItems(respond: seq<nat> -> BatchReply, first: nat, count: nat, size: nat): (sent: nat)
    requires size > 0
    ensures sent <= count && (AllResults(respond, first, count, size).Some? ==> sent == count)
    decreases count
  {
    if count == 0 then 0
    else
      var n := Min(size, count);
      if BatchResults(respond, first, n).None? then n else n + SentItems(respond, first + n, count - n, size)
  }

  lemma GroupsStep(count: nat, size: nat)
    requires size > 0 && count > 0
    ensures Groups(count, size) == 1 + Groups(if size < count then count - size else 0, size)
  {
    GroupsNone(size);
    if size < count {
      CeilAtMost(count, size, Groups(count - size, size) + 1);
      CeilAtMost(count - size, size, Groups(count, size) - 1);
      CeilAtMost(count - size, size, Groups(count - size, size));
      CeilAtMost(count, size, Groups(count, size));
    } else {
      CeilAtMost(count, size, 1);
      CeilAtMost(count, size, 0);
    }
  }

  lemma GroupsNone(size: nat)
    requires size > 0
    ensures Groups(0, size) == 0
  {
    CeilZero(0, size);
  }

  /** The entry found for an id is the last of the items that carries it. */
  lemma {:induction false} LastWithIff(items: seq<Item>, id: nat)
    ensures LastWith(items, id).None? <==> forall i :: 0 <= i < |items| ==> items[i].id != id
    ensures LastWith(items, id).Some? ==>
              exists i :: 0 <= i < |items| && items[i] == LastWith(items, id).value && items[i].id == id &&
                forall j :: i < j < |items| ==> items[j].id != id
  {
    if items != [] {
      var n := |items| - 1;
      LastWithIff(items[..n], id);
      if items[n].id != id && LastWith(items, id).Some? {
        var i :| 0 <= i < n && items[..n][i] == LastWith(items[..n], id).value && items[..n][i].id == id &&
                 forall j :: i < j < n ==> items[..n][j].id != id;
        assert forall j :: i < j < n ==> items[j] == items[..n][j];
      }
    }
  }
}
