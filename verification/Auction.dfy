/** Feed-indexed evaluation of a price move (`evaluate_auction`) against a scan of every borrower. */
module Auction {
  import opened Identifiers
  import opened Results
  import opened FixedPoint
  import opened Account
  import opened Ordering

  datatype Borrower = Borrower(address: Address, emode: nat, positions: seq<Position>, complete: bool)

  datatype Inventory = Inventory(
    reserves: map<Asset, Reserve>,
    emodes: map<nat, Category>,
    borrowers: seq<Borrower>,
    feedIndex: map<Feed, set<Address>>,
    complete: bool)

  // ----- The feed index, as both inventory builders make it -----

  predicate DependsOn(b: Borrower, feed: Feed) {
    exists i :: 0 <= i < |b.positions| && b.positions[i].priceFeed == feed
  }

  function Indexed(index: map<Feed, set<Address>>, feed: Feed): set<Address> {
    if feed in index then index[feed] else {}
  }

  /** The index holds, under each feed, the borrowers with a position priced by it, and no others. */
  ghost predicate IndexExact(borrowers: seq<Borrower>, index: map<Feed, set<Address>>) {
    forall feed, a :: a in Indexed(index, feed) <==>
      exists i :: 0 <= i < |borrowers| && borrowers[i].address == a && DependsOn(borrowers[i], feed)
  }

  /** `feed_index.setdefault(feed, []).append(address)` over the positions of one borrower. */
  method IndexBorrower(index: map<Feed, set<Address>>, b: Borrower) returns (r: map<Feed, set<Address>>)
    ensures forall feed, a :: a in Indexed(r, feed) <==>
            a in Indexed(index, feed) || (a == b.address && DependsOn(b, feed))
  {
    r := index;
    for i := 0 to |b.positions|
      invariant forall feed, a :: a in Indexed(r, feed) <==>
                a in Indexed(index, feed) || (a == b.address && DependsSoFar(b, feed, i))
    {
      var feed := b.positions[i].priceFeed;
      ghost var was := r;
      r := r[feed := Indexed(r, feed) + {b.address}];
      assert forall f :: Indexed(r, f) == if f == feed then Indexed(was, f) + {b.address} else Indexed(was, f);
      assert DependsSoFar(b, feed, i + 1);
      assert forall f :: DependsSoFar(b, f, i) ==> DependsSoFar(b, f, i + 1);
      assert forall f :: DependsSoFar(b, f, i + 1) ==> DependsSoFar(b, f, i) || f == feed;
    }
  }

  ghost predicate DependsSoFar(b: Borrower, feed: Feed, n: nat)
    requires n <= |b.positions|
  {
    exists k :: 0 <= k < n && b.positions[k].priceFeed == feed
  }

  method BuildFeedIndex(borrowers: seq<Borrower>) returns (index: map<Feed, set<Address>>)
    ensures IndexExact(borrowers, index)
  {
    index := map[];
    for i := 0 to |borrowers|
      invariant IndexExact(borrowers[..i], index)
    {
      ghost var before := index;
      index := IndexBorrower(index, borrowers[i]);
      IndexExtended(borrowers, i, before, index);
    }
    assert borrowers[..|borrowers|] == borrowers;
  }

  lemma IndexExtended(borrowers: seq<Borrower>, i: nat, before: map<Feed, set<Address>>, after: map<Feed, set<Address>>)
    requires i < |borrowers| && IndexExact(borrowers[..i], before)
    requires var b := borrowers[i];
             forall feed, a :: a in Indexed(after, feed) <==>
               a in Indexed(before, feed) || (a == b.address && DependsOn(b, feed))
    ensures IndexExact(borrowers[..i + 1], after)
  {
    var short, long := borrowers[..i], borrowers[..i + 1];
    forall feed, a
      ensures a in Indexed(after, feed) <==>
              exists k :: 0 <= k < |long| && long[k].address == a && DependsOn(long[k], feed)
    {
      if a in Indexed(before, feed) {
        var k :| 0 <= k < |short| && short[k].address == a && DependsOn(short[k], feed);
        assert long[k] == short[k];
      }
      if a == borrowers[i].address && DependsOn(borrowers[i], feed) {
        assert long[i] == borrowers[i];
      }
      if k :| 0 <= k < |long| && long[k].address == a && DependsOn(long[k], feed) {
        if k < i { assert short[k] == long[k]; }
      }
    }
  }

  /** What both builders guarantee: positions carry the feed of their reserve and the index is exact. */
  ghost predicate WellIndexed(inv: Inventory) {
    && IndexExact(inv.borrowers, inv.feedIndex)
    && forall b, p :: b in inv.borrowers && p in b.positions ==>
         p.asset in inv.reserves && p.priceFeed == inv.reserves[p.asset].priceFeed
  }

  ghost predicate DistinctAssets(ps: seq<Position>) {
    forall i, j :: 0 <= i < j < |ps| ==> ps[i].asset != ps[j].asset
  }

  /** No borrower has two positions in one asset. */
  ghost predicate EachAssetOnce(inv: Inventory) {
    forall b :: b in inv.borrowers ==> DistinctAssets(b.positions)
  }

  // ----- Evaluation -----

  /** `borrower_map`: a later record replaces an earlier one of the same address. */
  function BorrowerMap(borrowers: seq<Borrower>): (m: map<Address, Borrower>)
    ensures forall a :: a in m ==> m[a] in borrowers && m[a].address == a
    ensures forall b :: b in borrowers ==> b.address in m
  {
    if borrowers == [] then map[]
    else
      var last := borrowers[|borrowers| - 1];
      BorrowerMap(borrowers[..|borrowers| - 1])[last.address := last]
  }

  function CategoryOf(inv: Inventory, b: Borrower): Option<Category> {
    if b.emode in inv.emodes then Some(inv.emodes[b.emode]) else None
  }

  function HealthFactorAt(inv: Inventory, a: Address, prices: Prices): Result<nat, EvidenceError> {
    var borrowers := BorrowerMap(inv.borrowers);
    if a !in borrowers then Err(BorrowerIncomplete)
    else HealthFactorOf(borrowers[a].positions, inv.reserves, CategoryOf(inv, borrowers[a]), prices)
  }

  datatype Move = Move(asset: Asset, feed: Feed, before: int, after: int, prices: Prices)

  function Before(m: Move): Prices { m.prices[m.asset := m.before] }

  function After(m: Move): Prices { m.prices[m.asset := m.after] }

  datatype Record = Record(borrower: Address, before: nat, after: nat)

  /** Accounts below a health factor of one after the move, by what they were before it. */
  datatype Class = Newly | Already

  predicate InClass(inv: Inventory, m: Move, c: Class, a: Address) {
    var before, after := HealthFactorAt(inv, a, Before(m)), HealthFactorAt(inv, a, After(m));
    before.Ok? && after.Ok? && after.value < WAD && (c.Newly? <==> before.value >= WAD)
  }

  function RecordOf(inv: Inventory, m: Move, a: Address): Record
    requires HealthFactorAt(inv, a, Before(m)).Ok? && HealthFactorAt(inv, a, After(m)).Ok?
  {
    Record(a, HealthFactorAt(inv, a, Before(m)).value, HealthFactorAt(inv, a, After(m)).value)
  }

  /** The prices of a move differ in the moved asset alone. */
  lemma MovePrices(m: Move, asset: Asset)
    ensures Before(m)[m.asset] == m.before && After(m)[m.asset] == m.after
    ensures asset != m.asset ==>
              && (asset in Before(m) <==> asset in m.prices) && (asset in After(m) <==> asset in m.prices)
              && (asset in m.prices ==> Before(m)[asset] == After(m)[asset] == m.prices[asset])
  {}

  /** An address is evaluated by its last record, in the category of that record where the inventory has it. */
  lemma {:induction false} EvaluatedBy(inv: Inventory, i: nat, prices: Prices)
    requires i < |inv.borrowers|
    requires forall j :: i < j < |inv.borrowers| ==> inv.borrowers[j].address != inv.borrowers[i].address
    ensures var b := inv.borrowers[i];
            HealthFactorAt(inv, b.address, prices)
            == HealthFactorOf(b.positions, inv.reserves,
                              if b.emode in inv.emodes then Some(inv.emodes[b.emode]) else None, prices)
  {
    LastRecord(inv.borrowers, i);
  }

  lemma {:induction false} LastRecord(borrowers: seq<Borrower>, i: nat)
    requires i < |borrowers| && forall j :: i < j < |borrowers| ==> borrowers[j].address != borrowers[i].address
    ensures borrowers[i].address in BorrowerMap(borrowers)
    ensures BorrowerMap(borrowers)[borrowers[i].address] == borrowers[i]
  {
    if i < |borrowers| - 1 {
      LastRecord(borrowers[..|borrowers| - 1], i);
    }
  }

  /** Newly: at least one before the move and below one after it; already: below one both times. */
  lemma InClassIff(inv: Inventory, m: Move, a: Address)
    ensures var before, after := HealthFactorAt(inv, a, Before(m)), HealthFactorAt(inv, a, After(m));
            && (InClass(inv, m, Newly, a) <==> before.Ok? && after.Ok? && after.value < WAD <= before.value)
            && (InClass(inv, m, Already, a) <==> before.Ok? && after.Ok? && after.value < WAD && before.value < WAD)
  {}

  /** The records of one class, in the order of the addresses. */
  function Select(inv: Inventory, m: Move, c: Class, addresses: seq<Address>): seq<Record> {
    if addresses == [] then []
    else if InClass(inv, m, c, addresses[0]) then [RecordOf(inv, m, addresses[0])] + Select(inv, m, c, addresses[1..])
    else Select(inv, m, c, addresses[1..])
  }

  /** A record is reported exactly for a member of the class, with its factor before and after the move. */
  lemma {:induction false} ReportedIff(inv: Inventory, m: Move, c: Class, addresses: seq<Address>, r: Record)
    ensures r in Select(inv, m, c, addresses) <==>
            && r.borrower in addresses && InClass(inv, m, c, r.borrower)
            && HealthFactorAt(inv, r.borrower, Before(m)) == Ok(r.before)
            && HealthFactorAt(inv, r.borrower, After(m)) == Ok(r.after)
  {
    if addresses != [] {
      ReportedIff(inv, m, c, addresses[1..], r);
    }
  }

  datatype Lists = Lists(newly: seq<Record>, already: seq<Record>)

  /** The evaluation loop over the given addresses. */
  function Scan(inv: Inventory, m: Move, addresses: seq<Address>): Result<Lists, EvidenceError> {
    if addresses == [] then Ok(Lists([], []))
    else
      var a, borrowers := addresses[0], BorrowerMap(inv.borrowers);
      if a !in borrowers || !borrowers[a].complete then Err(BorrowerIncomplete)
      else
        var before :- HealthFactorAt(inv, a, Before(m));
        var after :- HealthFactorAt(inv, a, After(m));
        var rest :- Scan(inv, m, addresses[1..]);
        if after >= WAD then Ok(rest)
        else if before >= WAD then Ok(Lists([Record(a, before, after)] + rest.newly, rest.already))
        else Ok(Lists(rest.newly, [Record(a, before, after)] + rest.already))
  }

  datatype Status = ZeroDelta | IncompleteInventory | Evaluated

  datatype Evaluation = Evaluation(status: Status, lists: Lists)

  predicate MoveValid(inv: Inventory, m: Move) {
    && m.asset in inv.reserves && m.feed == inv.reserves[m.asset].priceFeed
    && m.before >= 1 && m.after >= 1
  }

  predicate PricesValid(prices: Prices) {
    forall a :: a in prices ==> prices[a] >= 1
  }

  ghost function Evaluate(inv: Inventory, m: Move): Result<Evaluation, EvidenceError> {
    if !MoveValid(inv, m) then Err(AuctionInvalid)
    else if m.before == m.after then Ok(Evaluation(ZeroDelta, Lists([], [])))
    else if !inv.complete then Ok(Evaluation(IncompleteInventory, Lists([], [])))
    else if !PricesValid(m.prices) then Err(AuctionInvalid)
    else
      var lists :- Scan(inv, m, Sorted(Indexed(inv.feedIndex, m.feed)));
      Ok(Evaluation(Evaluated, lists))
  }

  /** `evaluate_auction` as written: the affected addresses in sorted order, two growing lists. */
  method EvaluateAuction(inv: Inventory, m: Move) returns (r: Result<Evaluation, EvidenceError>)
    ensures r == Evaluate(inv, m)
  {
    if !MoveValid(inv, m) { return Err(AuctionInvalid); }
    if m.before == m.after { return Ok(Evaluation(ZeroDelta, Lists([], []))); }
    if !inv.complete { return Ok(Evaluation(IncompleteInventory, Lists([], []))); }
    if !PricesValid(m.prices) { return Err(AuctionInvalid); }
    var lists :- ScanSorted(inv, m, Indexed(inv.feedIndex, m.feed));
    return Ok(Evaluation(Evaluated, lists));
  }

  function Prepend(
      newly: seq<Record>, already: seq<Record>, tail: Result<Lists, EvidenceError>): Result<Lists, EvidenceError>
  {
    if tail.Err? then tail else Ok(Lists(newly + tail.value.newly, already + tail.value.already))
  }

  lemma PrependMore(
      newly: seq<Record>, more: seq<Record>, already: seq<Record>, more': seq<Record>,
      tail: Result<Lists, EvidenceError>)
    ensures Prepend(newly, already, Prepend(more, more', tail)) == Prepend(newly + more, already + more', tail)
  {
    if tail.Ok? {
      assert newly + (more + tail.value.newly) == newly + more + tail.value.newly;
      assert already + (more' + tail.value.already) == already + more' + tail.value.already;
    }
  }

  /** One turn of the loop, on the smallest address left. */
  lemma ScanHead(inv: Inventory, m: Move, rest: set<Address>, a: Address)
    requires IsLeast(a, rest)
    ensures var borrowers, tail := BorrowerMap(inv.borrowers), Scan(inv, m, Sorted(rest - {a}));
            var before, after := HealthFactorAt(inv, a, Before(m)), HealthFactorAt(inv, a, After(m));
            Scan(inv, m, Sorted(rest)) ==
              if a !in borrowers || !borrowers[a].complete then Err(BorrowerIncomplete)
              else if before.Err? then Err(before.error)
              else if after.Err? then Err(after.error)
              else
                var record := [Record(a, before.value, after.value)];
                if after.value >= WAD then tail
                else if before.value >= WAD then Prepend(record, [], tail)
                else Prepend([], record, tail)
  {
    SortedHead(rest, a);
    assert forall records: seq<Record> :: [] + records == records;
  }

  method ScanSorted(inv: Inventory, m: Move, addresses: set<Address>) returns (r: Result<Lists, EvidenceError>)
    ensures r == Scan(inv, m, Sorted(addresses))
  {
    var borrowers := BorrowerMap(inv.borrowers);
    var rest := addresses;
    var newly, already: seq<Record> := [], [];
    ghost var whole := Scan(inv, m, Sorted(addresses));
    assert forall records: seq<Record> :: [] + records == records;
    while rest != {}
      invariant whole == Prepend(newly, already, Scan(inv, m, Sorted(rest)))
      decreases rest
    {
      var a := TakeLeast(rest);
      ScanHead(inv, m, rest, a);
      if a !in borrowers || !borrowers[a].complete { return Err(BorrowerIncomplete); }
      var before :- HealthFactorAt(inv, a, Before(m));
      var after :- HealthFactorAt(inv, a, After(m));
      var newRecords, oldRecords: seq<Record> := [], [];
      if after < WAD {
        if before >= WAD {
          newRecords := [Record(a, before, after)];
        } else {
          oldRecords := [Record(a, before, after)];
        }
      }
      rest := rest - {a};
      PrependMore(newly, newRecords, already, oldRecords, Scan(inv, m, Sorted(rest)));
      newly, already := newly + newRecords, already + oldRecords;
    }
    assert newly + [] == newly && already + [] == already;
    return Ok(Lists(newly, already));
  }

  // ----- Pruning is exact -----

  lemma {:induction false} ScanSelects(inv: Inventory, m: Move, addresses: seq<Address>)
    requires Scan(inv, m, addresses).Ok?
    ensures Scan(inv, m, addresses).value == Lists(Select(inv, m, Newly, addresses), Select(inv, m, Already, addresses))
  {
    if addresses != [] { ScanSelects(inv, m, addresses[1..]); }
  }

  ghost function Members(inv: Inventory, m: Move, c: Class, s: set<Address>): set<Address> {
    set a | a in s && InClass(inv, m, c, a)
  }

  lemma MembersWithout(inv: Inventory, m: Move, c: Class, s: set<Address>, a: Address)
    requires a in s
    ensures InClass(inv, m, c, a) ==> Members(inv, m, c, s) - {a} == Members(inv, m, c, s - {a})
    ensures !InClass(inv, m, c, a) ==> Members(inv, m, c, s) == Members(inv, m, c, s - {a})
  {}

  /** Only the members of the class matter, so two scans with the same members give the same list. */
  lemma {:induction false} SelectOfSorted(inv: Inventory, m: Move, c: Class, s: set<Address>)
    ensures Select(inv, m, c, Sorted(s)) == Select(inv, m, c, Sorted(Members(inv, m, c, s)))
    decreases s
  {
    if s == {} {
      assert Members(inv, m, c, s) == s;
    } else {
      var least := Least(s);
      SortedHead(s, least);
      SelectOfSorted(inv, m, c, s - {least});
      MembersWithout(inv, m, c, s, least);
      if InClass(inv, m, c, least) {
        SortedHead(Members(inv, m, c, s), least);
      }
    }
  }

  lemma UnindexedUnchanged(inv: Inventory, m: Move, a: Address)
    requires WellIndexed(inv) && MoveValid(inv, m)
    requires a !in Indexed(inv.feedIndex, m.feed)
    ensures HealthFactorAt(inv, a, Before(m)) == HealthFactorAt(inv, a, After(m))
    ensures !InClass(inv, m, Newly, a)
  {
    var borrowers := BorrowerMap(inv.borrowers);
    if a in borrowers {
      var b := borrowers[a];
      var i :| 0 <= i < |inv.borrowers| && inv.borrowers[i] == b;
      assert !DependsOn(b, m.feed);
      forall p | p in b.positions ensures p.asset != m.asset {
        var k :| 0 <= k < |b.positions| && b.positions[k] == p;
      }
      SumUnaffected(b.positions, inv.reserves, CategoryOf(inv, b), Before(m), After(m));
    }
  }

  function Everyone(inv: Inventory): set<Address> {
    BorrowerMap(inv.borrowers).Keys
  }

  /** The newly liquidatable list from the feed index is the list from scanning every borrower. */
  lemma PruningExact(inv: Inventory, m: Move)
    requires WellIndexed(inv) && MoveValid(inv, m)
    ensures Select(inv, m, Newly, Sorted(Indexed(inv.feedIndex, m.feed)))
            == Select(inv, m, Newly, Sorted(Everyone(inv)))
  {
    var indexed, all := Indexed(inv.feedIndex, m.feed), Everyone(inv);
    SelectOfSorted(inv, m, Newly, indexed);
    SelectOfSorted(inv, m, Newly, all);
    forall a | a in all && InClass(inv, m, Newly, a) ensures a in indexed {
      if a !in indexed { UnindexedUnchanged(inv, m, a); }
    }
    IndexedAreBorrowers(inv, m.feed);
    assert Members(inv, m, Newly, indexed) == Members(inv, m, Newly, all);
  }

  lemma {:induction false} SelectNone(inv: Inventory, m: Move, c: Class, addresses: seq<Address>)
    requires forall a :: a in addresses ==> !InClass(inv, m, c, a)
    ensures Select(inv, m, c, addresses) == []
  {
    if addresses != [] { SelectNone(inv, m, c, addresses[1..]); }
  }

  /** Every completed evaluation of a complete inventory, the zero-delta fast path included, reports as newly
      liquidatable exactly what a scan of all borrowers reports. */
  lemma EvaluationExact(inv: Inventory, m: Move)
    requires WellIndexed(inv) && inv.complete
    requires Evaluate(inv, m).Ok?
    ensures Evaluate(inv, m).value.lists.newly == Select(inv, m, Newly, Sorted(Everyone(inv)))
    ensures Scan(inv, m, Sorted(Everyone(inv))).Ok? ==>
              Evaluate(inv, m).value.lists.newly == Scan(inv, m, Sorted(Everyone(inv))).value.newly
  {
    if Scan(inv, m, Sorted(Everyone(inv))).Ok? { ScanSelects(inv, m, Sorted(Everyone(inv))); }
    if m.before == m.after {
      SelectNone(inv, m, Newly, Sorted(Everyone(inv)));
    } else {
      PruningExact(inv, m);
      ScanSelects(inv, m, Sorted(Indexed(inv.feedIndex, m.feed)));
    }
  }

  lemma {:induction false} SelectedAddresses(inv: Inventory, m: Move, c: Class, addresses: seq<Address>, a: Address)
    ensures (exists r :: r in Select(inv, m, c, addresses) && r.borrower == a) <==>
            a in addresses && InClass(inv, m, c, a)
  {
    if addresses != [] {
      SelectedAddresses(inv, m, c, addresses[1..], a);
      if InClass(inv, m, c, addresses[0]) {
        assert Select(inv, m, c, addresses)[0].borrower == addresses[0];
        assert forall r :: r in Select(inv, m, c, addresses[1..]) ==> r in Select(inv, m, c, addresses);
      }
    }
  }

  lemma AlreadyExactIfIndexed(inv: Inventory, m: Move)
    requires WellIndexed(inv)
    ensures Select(inv, m, Already, Sorted(Indexed(inv.feedIndex, m.feed)))
            == Select(inv, m, Already, Sorted(Everyone(inv)))
            <==> Members(inv, m, Already, Everyone(inv)) <= Indexed(inv.feedIndex, m.feed)
  {
    var indexed, all := Indexed(inv.feedIndex, m.feed), Everyone(inv);
    if Select(inv, m, Already, Sorted(indexed)) == Select(inv, m, Already, Sorted(all)) {
      forall a | a in Members(inv, m, Already, all) ensures a in indexed {
        SelectedAddresses(inv, m, Already, Sorted(all), a);
        SelectedAddresses(inv, m, Already, Sorted(indexed), a);
      }
    }
    if Members(inv, m, Already, all) <= indexed {
      SelectOfSorted(inv, m, Already, indexed);
      SelectOfSorted(inv, m, Already, all);
      IndexedAreBorrowers(inv, m.feed);
      assert Members(inv, m, Already, indexed) == Members(inv, m, Already, all);
    }
  }

  /** No borrower outside the index of the feed is below a health factor of one at the prices before the move. */
  ghost predicate OutsidersHealthy(inv: Inventory, m: Move) {
    forall a :: a in Everyone(inv) && a !in Indexed(inv.feedIndex, m.feed) ==> Healthy(inv, a, Before(m))
  }

  predicate Healthy(inv: Inventory, a: Address, prices: Prices) {
    HealthFactorAt(inv, a, prices).Err? || HealthFactorAt(inv, a, prices).value >= WAD
  }

  /**
   * The already liquidatable list is complete exactly when every borrower outside the index was healthy before the
   * move.
   */
  lemma AlreadyExactIff(inv: Inventory, m: Move)
    requires WellIndexed(inv) && MoveValid(inv, m)
    ensures Select(inv, m, Already, Sorted(Indexed(inv.feedIndex, m.feed)))
            == Select(inv, m, Already, Sorted(Everyone(inv)))
            <==> OutsidersHealthy(inv, m)
  {
    AlreadyExactIfIndexed(inv, m);
    forall a | a in Everyone(inv) && a !in Indexed(inv.feedIndex, m.feed)
      ensures InClass(inv, m, Already, a) <==> !Healthy(inv, a, Before(m))
    {
      UnindexedUnchanged(inv, m, a);
    }
  }

  lemma IndexedAreBorrowers(inv: Inventory, feed: Feed)
    requires WellIndexed(inv)
    ensures Indexed(inv.feedIndex, feed) <= Everyone(inv)
  {}

  // ----- An incomplete already list -----

  const SAFE := Position(0, Some(1), true, Some(0), 0, 0)
  const UNDERWATER := Position(1, Some(1), true, Some(2), 0, 1)

  /** Two borrowers on different feeds, the second owing two units against one. */
  function TwoFeeds(): Inventory {
    Inventory(
      map[0 := Reserve(0, 0, Some(10_000)), 1 := Reserve(1, 0, Some(10_000))], map[],
      [Borrower(0, 0, [SAFE], true), Borrower(1, 0, [UNDERWATER], true)], map[0 := {0}, 1 := {1}], true)
  }

  lemma WholeUnits(amount: nat)
    ensures PositionValue(amount, 1, 0) == amount && DebtPositionValue(amount, 1, 0) == amount
  {
    assert Pow10(0) == 1;
  }

  lemma SafeIsHealthy(reserves: map<Asset, Reserve>, prices: Prices)
    requires 0 in reserves && reserves[0].thresholdBps.Some? && 0 in prices && prices[0] >= 1
    ensures HealthFactorOf([SAFE], reserves, None, prices) == Ok(NO_DEBT)
  {
    SumAlone(SAFE, reserves, None, prices);
    CeilZero(0 * prices[0], Pow10(reserves[0].decimals));
  }

  lemma UnitPosition(
      p: Position, reserves: map<Asset, Reserve>, prices: Prices, supplied: nat, debt: nat, threshold: nat)
    requires p.supplied == Some(supplied) && supplied > 0 && p.collateralEnabled && p.variableDebt == Some(debt) &&
             p.stableDebt == 0
    requires p.asset in reserves && reserves[p.asset].decimals == 0 && reserves[p.asset].thresholdBps == Some(threshold)
    requires p.asset in prices && prices[p.asset] == 1
    ensures AddPosition(Totals(0, 0, 0), p, reserves, None, prices) == Ok(Totals(supplied, debt, supplied * threshold))
  {
    WholeUnits(supplied);
    WholeUnits(debt);
  }

  lemma UnderwaterSums(reserves: map<Asset, Reserve>, prices: Prices)
    requires 1 in reserves && reserves[1] == Reserve(1, 0, Some(10_000)) && 1 in prices && prices[1] == 1
    ensures Sum([UNDERWATER], reserves, None, prices) == Ok(Totals(1, 2, 10_000))
  {
    SumAlone(UNDERWATER, reserves, None, prices);
    UnitPosition(UNDERWATER, reserves, prices, 1, 2, 10_000);
  }

  lemma BelowOne(ps: seq<Position>, reserves: map<Asset, Reserve>, prices: Prices, sums: Totals)
    requires Sum(ps, reserves, None, prices) == Ok(sums) && 0 < sums.debt < 2 * WAD &&
             sums.weighted < PERCENTAGE_FACTOR * sums.debt
    ensures HealthFactorOf(ps, reserves, None, prices).Ok? && HealthFactorOf(ps, reserves, None, prices).value < WAD
  {
    ThresholdExact(sums.weighted, sums.debt);
  }

  lemma TwoFeedsIndexed()
    ensures WellIndexed(TwoFeeds()) && Everyone(TwoFeeds()) == {0, 1}
    ensures BorrowerMap(TwoFeeds().borrowers)[0] == Borrower(0, 0, [SAFE], true)
    ensures BorrowerMap(TwoFeeds().borrowers)[1] == Borrower(1, 0, [UNDERWATER], true)
  {
    var inv := TwoFeeds();
    assert inv.borrowers[0].positions[0] == SAFE && inv.borrowers[1].positions[0] == UNDERWATER;
    assert BorrowerMap(inv.borrowers[..1])[0] == inv.borrowers[0];
  }

  lemma TwoFeedsHealth(prices: Prices)
    requires 0 in prices && prices[0] >= 1 && 1 in prices && prices[1] == 1
    ensures HealthFactorAt(TwoFeeds(), 0, prices) == Ok(NO_DEBT)
    ensures HealthFactorAt(TwoFeeds(), 1, prices).Ok? && !Healthy(TwoFeeds(), 1, prices)
  {
    var reserves := TwoFeeds().reserves;
    TwoFeedsIndexed();
    SafeIsHealthy(reserves, prices);
    UnderwaterSums(reserves, prices);
    BelowOne([UNDERWATER], reserves, prices, Totals(1, 2, 10_000));
  }

  lemma ScanOfOne(inv: Inventory, m: Move, a: Address)
    requires a in Everyone(inv) && BorrowerMap(inv.borrowers)[a].complete
    requires HealthFactorAt(inv, a, Before(m)) == Ok(NO_DEBT) == HealthFactorAt(inv, a, After(m))
    ensures Scan(inv, m, Sorted({a})) == Ok(Lists([], []))
  {
    SortedHead({a}, a);
    assert {a} - {a} == {};
    assert Sorted({a}) == [a];
    assert [a][1..] == [];
  }

  /**
   * The price of the first asset doubles: the second borrower is below one before and after, and no list names them.
   */
  lemma AlreadyIncompleteExample() returns (m: Move)
    ensures m == Move(0, 0, 1, 2, map[1 := 1]) && WellIndexed(TwoFeeds()) && !OutsidersHealthy(TwoFeeds(), m)
    ensures Evaluate(TwoFeeds(), m) == Ok(Evaluation(Evaluated, Lists([], [])))
    ensures 1 in Everyone(TwoFeeds()) && InClass(TwoFeeds(), m, Already, 1)
  {
    m := Move(0, 0, 1, 2, map[1 := 1]);
    TwoFeedsIndexed();
    TwoFeedsHealth(Before(m));
    TwoFeedsHealth(After(m));
    ScanOfOne(TwoFeeds(), m, 0);
  }
}
