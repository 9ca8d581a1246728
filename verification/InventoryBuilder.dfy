/** The inventory made from a replayed ledger (second half of `build_inventory`). */
module InventoryBuilder {
  import opened Identifiers
  import opened Results
  import opened FixedPoint
  import opened Ordering
  import Account
  import Auction
  import Replay
  import Transcript

  /** The assets a borrower holds or owes. */
  function Active(item: Replay.Borrower): set<Asset> {
    item.balances.supply.Keys + item.balances.variableDebt.Keys + item.balances.stableDebt.Keys
  }

  function HeldNat(balances: map<Asset, int>, asset: Asset): (n: nat)
    requires Replay.PositiveMap(balances)
    ensures n == Replay.Held(balances, asset)
  {
    Replay.Held(balances, asset)
  }

  /** A scaled amount at its index; None when there is an amount and no index. */
  function AtIndex(scaled: nat, index: Option<nat>, grow: (nat, nat) -> nat): Option<nat> {
    if scaled == 0 then Some(0) else if index.None? then None else Some(grow(scaled, index.value))
  }

  /** Supplies round down and debts round up. */
  function PositionOf(item: Replay.Borrower, asset: Asset, reserve: Replay.Reserve): Account.Position
    requires Replay.PositiveBalances(item.balances)
  {
    Readable(item.balances);
    Account.Position(
      asset,
      AtIndex(HeldNat(item.balances.supply, asset), reserve.liquidityIndex, (x, y) => RayMulFloor(x, y)),
      asset in item.collateralEnabled && item.collateralEnabled[asset],
      AtIndex(HeldNat(item.balances.variableDebt, asset), reserve.variableBorrowIndex, (x, y) => RayMulCeil(x, y)),
      HeldNat(item.balances.stableDebt, asset),
      reserve.priceFeed)
  }

  lemma Readable(b: Replay.Balances)
    requires Replay.PositiveBalances(b)
    ensures Replay.PositiveMap(b.supply) && Replay.PositiveMap(b.variableDebt) && Replay.PositiveMap(b.stableDebt)
  {
    assert b.Of(Transcript.Supply) == b.supply && b.Of(Transcript.VariableDebt) == b.variableDebt;
    assert b.Of(Transcript.StableDebt) == b.stableDebt;
  }

  ghost function Positions(
      item: Replay.Borrower, assets: seq<Asset>, reserves: map<Asset, Replay.Reserve>): seq<Account.Position>
    requires Replay.PositiveBalances(item.balances) && forall a :: a in assets ==> a in reserves
  {
    if assets == [] then []
    else [PositionOf(item, assets[0], reserves[assets[0]])] + Positions(item, assets[1..], reserves)
  }

  /** The inner loop: one position per active asset, in order. */
  method BuildPositions(item: Replay.Borrower, reserves: map<Asset, Replay.Reserve>)
    returns (positions: seq<Account.Position>)
    requires Replay.PositiveBalances(item.balances) && Active(item) <= reserves.Keys
    ensures positions == Positions(item, Sorted(Active(item)), reserves)
  {
    positions := [];
    var rest := Active(item);
    assert [] + Positions(item, Sorted(rest), reserves) == Positions(item, Sorted(rest), reserves);
    while rest != {}
      invariant rest <= Active(item)
      invariant positions + Positions(item, Sorted(rest), reserves) == Positions(item, Sorted(Active(item)), reserves)
      decreases rest
    {
      var asset := TakeLeast(rest);
      NextPosition(item, rest, asset, positions, reserves);
      var position := PositionOf(item, asset, reserves[asset]);
      positions, rest := positions + [position], rest - {asset};
    }
  }

  lemma NextPosition(item: Replay.Borrower, rest: set<Asset>, asset: Asset, positions: seq<Account.Position>,
                     reserves: map<Asset, Replay.Reserve>)
    requires Replay.PositiveBalances(item.balances) && rest <= reserves.Keys && IsLeast(asset, rest)
    ensures positions + Positions(item, Sorted(rest), reserves)
            == positions + [PositionOf(item, asset, reserves[asset])]
               + Positions(item, Sorted(rest - {asset}), reserves)
  {
    SortedHead(rest, asset);
  }

  lemma {:induction false} PositionsAt(item: Replay.Borrower, assets: seq<Asset>, reserves: map<Asset, Replay.Reserve>)
    requires Replay.PositiveBalances(item.balances) && forall a :: a in assets ==> a in reserves
    ensures |Positions(item, assets, reserves)| == |assets|
    ensures forall i :: 0 <= i < |assets| ==>
            Positions(item, assets, reserves)[i] == PositionOf(item, assets[i], reserves[assets[i]])
  {
    if assets != [] {
      PositionsAt(item, assets[1..], reserves);
    }
  }

  function Market(reserves: map<Asset, Replay.Reserve>): map<Asset, Account.Reserve> {
    map a | a in reserves :: Account.Reserve(reserves[a].priceFeed, reserves[a].decimals, reserves[a].thresholdBps)
  }

  /** Every amount could be computed and every reserve has its id. */
  predicate Complete(positions: seq<Account.Position>, reserves: map<Asset, Replay.Reserve>) {
    forall i :: 0 <= i < |positions| ==>
      positions[i].supplied.Some? && positions[i].variableDebt.Some? &&
      positions[i].asset in reserves && reserves[positions[i].asset].id.Some?
  }

  /** The record of one borrower; `configured` says whether the account configuration matches at the end hash. */
  ghost function RecordOf(s: Replay.State, a: Address, marketExact: bool, configured: Address -> bool): Auction.Borrower
    requires Buildable(s) && a in s.borrowers
  {
    ActiveKnown(s, a);
    var item := s.borrowers[a];
    var positions := Positions(item, Sorted(Active(item)), s.reserves);
    Auction.Borrower(a, item.emode, positions, marketExact && configured(a) && Complete(positions, s.reserves))
  }

  ghost function Records(
      s: Replay.State, addresses: seq<Address>, marketExact: bool, configured: Address -> bool): seq<Auction.Borrower>
    requires Buildable(s) && forall a :: a in addresses ==> a in s.borrowers
  {
    if addresses == [] then []
    else [RecordOf(s, addresses[0], marketExact, configured)] + Records(s, addresses[1..], marketExact, configured)
  }

  /** What every replayed ledger is. */
  ghost predicate Buildable(s: Replay.State) {
    Replay.Positive(s.borrowers) && Replay.AssetsKnown(s)
  }

  lemma ActiveKnown(s: Replay.State, a: Address)
    requires Buildable(s) && a in s.borrowers
    ensures Replay.PositiveBalances(s.borrowers[a].balances) && Active(s.borrowers[a]) <= s.reserves.Keys
  {
    var b := s.borrowers[a].balances;
    Readable(b);
    forall x | x in Active(s.borrowers[a]) ensures x in s.reserves {
      assert x in b.supply ==> Replay.Balance(s.borrowers, Replay.Account(a, Transcript.Supply, x)) != 0;
      assert x in b.variableDebt ==> Replay.Balance(s.borrowers, Replay.Account(a, Transcript.VariableDebt, x)) != 0;
      assert x in b.stableDebt ==> Replay.Balance(s.borrowers, Replay.Account(a, Transcript.StableDebt, x)) != 0;
    }
  }

  /** The outer loop: one record per address, in order. */
  method BuildRecords(s: Replay.State, marketExact: bool, configured: Address -> bool)
    returns (borrowers: seq<Auction.Borrower>, complete: bool)
    requires Buildable(s)
    ensures borrowers == Records(s, Sorted(s.borrowers.Keys), marketExact, configured)
    ensures complete <==> marketExact && forall b :: b in borrowers ==> b.complete
  {
    var rest := s.borrowers.Keys;
    borrowers, complete := [], marketExact;
    ghost var all := Records(s, Sorted(rest), marketExact, configured);
    assert [] + all == all;
    while rest != {}
      invariant rest <= s.borrowers.Keys
      invariant borrowers + Records(s, Sorted(rest), marketExact, configured) == all
      invariant complete <==> marketExact && forall b :: b in borrowers ==> b.complete
      decreases rest
    {
      var a := TakeLeast(rest);
      var record := BuildRecord(s, a, marketExact, configured);
      NextRecord(s, rest, a, borrowers, marketExact, configured);
      borrowers, complete, rest := borrowers + [record], complete && record.complete, rest - {a};
    }
    assert borrowers + [] == borrowers;
  }

  /** The inventory: the records, and the index of the feeds they depend on. */
  method BuildInventory(
      s: Replay.State, emodes: map<nat, Account.Category>, marketExact: bool, configured: Address -> bool)
    returns (inv: Auction.Inventory)
    requires Buildable(s)
    ensures inv.borrowers == Records(s, Sorted(s.borrowers.Keys), marketExact, configured)
    ensures inv.reserves == Market(s.reserves) && inv.emodes == emodes
    ensures inv.complete <==> marketExact && forall b :: b in inv.borrowers ==> b.complete
    ensures Auction.WellIndexed(inv)
  {
    var borrowers, complete := BuildRecords(s, marketExact, configured);
    var index := Auction.BuildFeedIndex(borrowers);
    inv := Auction.Inventory(Market(s.reserves), emodes, borrowers, index, complete);
    RecordsWellFed(s, Sorted(s.borrowers.Keys), marketExact, configured);
  }

  method BuildRecord(s: Replay.State, a: Address, marketExact: bool, configured: Address -> bool)
    returns (record: Auction.Borrower)
    requires Buildable(s) && a in s.borrowers
    ensures record == RecordOf(s, a, marketExact, configured)
  {
    ActiveKnown(s, a);
    var item := s.borrowers[a];
    var positions := BuildPositions(item, s.reserves);
    var complete := marketExact && configured(a) && Complete(positions, s.reserves);
    record := Auction.Borrower(a, item.emode, positions, complete);
  }

  lemma NextRecord(
      s: Replay.State, rest: set<Address>, a: Address, borrowers: seq<Auction.Borrower>, marketExact: bool,
      configured: Address -> bool)
    requires Buildable(s) && rest <= s.borrowers.Keys && IsLeast(a, rest)
    ensures borrowers + Records(s, Sorted(rest), marketExact, configured)
            == borrowers + [RecordOf(s, a, marketExact, configured)]
               + Records(s, Sorted(rest - {a}), marketExact, configured)
  {
    SortedHead(rest, a);
  }

  /** Every position is priced by the feed of its reserve. */
  lemma {:induction false} RecordsWellFed(
      s: Replay.State, addresses: seq<Address>, marketExact: bool, configured: Address -> bool)
    requires Buildable(s) && forall a :: a in addresses ==> a in s.borrowers
    ensures forall b, p :: b in Records(s, addresses, marketExact, configured) && p in b.positions ==>
              p.asset in Market(s.reserves) && p.priceFeed == Market(s.reserves)[p.asset].priceFeed
  {
    if addresses != [] {
      RecordsWellFed(s, addresses[1..], marketExact, configured);
      RecordWellFed(s, addresses[0], marketExact, configured);
    }
  }

  lemma RecordWellFed(s: Replay.State, a: Address, marketExact: bool, configured: Address -> bool)
    requires Buildable(s) && a in s.borrowers
    ensures forall p :: p in RecordOf(s, a, marketExact, configured).positions ==>
              p.asset in Market(s.reserves) && p.priceFeed == Market(s.reserves)[p.asset].priceFeed
  {
    ActiveKnown(s, a);
    PositionsAt(s.borrowers[a], Sorted(Active(s.borrowers[a])), s.reserves);
  }

  /** A borrower's record has exactly one position for every asset with a balance of any token, and none for another. */
  ghost predicate HasPosition(positions: seq<Account.Position>, asset: Asset) {
    exists i :: 0 <= i < |positions| && positions[i].asset == asset
  }

  lemma RecordCoversHoldings(s: Replay.State, a: Address, marketExact: bool, configured: Address -> bool, asset: Asset)
    requires Buildable(s) && a in s.borrowers
    ensures var positions := RecordOf(s, a, marketExact, configured).positions;
            && (forall i, j :: 0 <= i < j < |positions| ==> positions[i].asset != positions[j].asset)
            && (HasPosition(positions, asset) <==>
                exists token :: Replay.Balance(s.borrowers, Replay.Account(a, token, asset)) != 0)
  {
    ActiveKnown(s, a);
    var item := s.borrowers[a];
    var assets := Sorted(Active(item));
    PositionsAt(item, assets, s.reserves);
    SortedIncreases(Active(item));
    ActiveIff(s, a, asset);
    if asset in Active(item) {
      var i :| 0 <= i < |assets| && assets[i] == asset;
      assert Positions(item, assets, s.reserves)[i].asset == asset;
    }
  }

  lemma ActiveIff(s: Replay.State, a: Address, asset: Asset)
    requires Buildable(s) && a in s.borrowers
    ensures asset in Active(s.borrowers[a]) <==>
            exists token :: Replay.Balance(s.borrowers, Replay.Account(a, token, asset)) != 0
  {
    Readable(s.borrowers[a].balances);
    assert asset in s.borrowers[a].balances.supply ==>
        Replay.Balance(s.borrowers, Replay.Account(a, Transcript.Supply, asset)) != 0;
    assert asset in s.borrowers[a].balances.variableDebt ==>
        Replay.Balance(s.borrowers, Replay.Account(a, Transcript.VariableDebt, asset)) != 0;
    assert asset in s.borrowers[a].balances.stableDebt ==>
        Replay.Balance(s.borrowers, Replay.Account(a, Transcript.StableDebt, asset)) != 0;
  }

  /** Some record of the address has a position in the asset. */
  ghost predicate Listed(borrowers: seq<Auction.Borrower>, a: Address, asset: Asset) {
    exists b, p :: b in borrowers && p in b.positions && b.address == a && p.asset == asset
  }

  /** A scaled supply at its index, rounded down; unknown when there is a supply and no index. */
  ghost predicate SupplyAt(amount: Option<nat>, scaled: int, index: Option<int>) {
    scaled >= 0 &&
    if scaled == 0 then amount == Some(0)
    else if index.None? then amount == None
    else amount.Some? && amount.value * RAY <= scaled * index.value < (amount.value + 1) * RAY
  }

  /** A scaled debt at its index, rounded up. */
  ghost predicate DebtAt(amount: Option<nat>, scaled: int, index: Option<int>) {
    scaled >= 0 &&
    if scaled == 0 then amount == Some(0)
    else if index.None? then amount == None
    else amount.Some? && scaled * index.value <= amount.value * RAY < scaled * index.value + RAY
  }

  /** The position holds the net flow of each token, at the asset's last indexes, and the user's last flag for it. */
  ghost predicate HoldsFlows(a: Address, p: Account.Position, events: seq<Transcript.Event>, market: Replay.Reserve) {
    var indexes := Replay.IndexesOf(events, p.asset, market);
    && SupplyAt(p.supplied, Replay.NetFlow(events, Replay.Account(a, Transcript.Supply, p.asset)), indexes.0)
    && DebtAt(p.variableDebt, Replay.NetFlow(events, Replay.Account(a, Transcript.VariableDebt, p.asset)), indexes.1)
    && p.stableDebt == Replay.NetFlow(events, Replay.Account(a, Transcript.StableDebt, p.asset))
    && p.collateralEnabled == Replay.FlagOf(events, a, p.asset)
    && p.priceFeed == market.priceFeed
  }

  ghost predicate PositionsFollow(
      b: Auction.Borrower, events: seq<Transcript.Event>, market: map<Asset, Replay.Reserve>)
  {
    forall p :: p in b.positions ==> p.asset in market && HoldsFlows(b.address, p, events, market[p.asset])
  }

  /** The record is complete when nothing about it is unknown: amounts, reserve ids, configuration and market. */
  ghost predicate CompleteBy(
      b: Auction.Borrower, events: seq<Transcript.Event>, market: map<Asset, Replay.Reserve>, marketExact: bool,
      configured: Address -> bool)
  {
    && marketExact && configured(b.address)
    && forall p :: p in b.positions ==>
         && p.supplied.Some? && p.variableDebt.Some?
         && p.asset in market && Replay.TermsOf(events, p.asset, market[p.asset]).0.Some?
  }

  ghost predicate RecordFollows(
      b: Auction.Borrower, events: seq<Transcript.Event>, market: map<Asset, Replay.Reserve>, marketExact: bool,
      configured: Address -> bool)
  {
    && b.emode == Replay.EmodeOf(events, b.address)
    && PositionsFollow(b, events, market)
    && (b.complete <==> CompleteBy(b, events, market, marketExact, configured))
  }

  /**
   * One record for each address some event mentions, and a position for exactly the assets with a net flow of some
   * token; every record says what the events say.
   */
  ghost predicate FollowsEvents(
      borrowers: seq<Auction.Borrower>, events: seq<Transcript.Event>, market: map<Asset, Replay.Reserve>,
      marketExact: bool, configured: Address -> bool)
  {
    && (forall i, j :: 0 <= i < j < |borrowers| ==> borrowers[i].address != borrowers[j].address)
    && (forall a :: a in Replay.MentionedBy(events) <==> exists b :: b in borrowers && b.address == a)
    && (forall a, asset: Asset ::
          Listed(borrowers, a, asset) <==> exists token :: Replay.NetFlow(events, Replay.Account(a, token, asset)) != 0)
    && (forall i :: 0 <= i < |borrowers| ==> RecordFollows(borrowers[i], events, market, marketExact, configured))
  }

  /** The reserves keep feed and decimals of the market; thresholds are those of the last configuration. */
  ghost predicate MarketFollows(
      reserves: map<Asset, Account.Reserve>, events: seq<Transcript.Event>, market: map<Asset, Replay.Reserve>)
  {
    && reserves.Keys == market.Keys
    && forall asset :: asset in market ==>
         && reserves[asset].priceFeed == market[asset].priceFeed && reserves[asset].decimals == market[asset].decimals
         && reserves[asset].thresholdBps == Replay.TermsOf(events, asset, market[asset]).1
  }

  /** The ledger is the one the events lead to from the market, entry by entry. */
  ghost predicate LedgerFollows(s: Replay.State, events: seq<Transcript.Event>, market: map<Asset, Replay.Reserve>) {
    && s.reserves.Keys == market.Keys && s.borrowers.Keys == Replay.MentionedBy(events)
    && (forall c :: Replay.Balance(s.borrowers, c) == Replay.NetFlow(events, c))
    && (forall a :: Replay.SaysOf(Replay.Entry(s.borrowers, a), events, a))
    && forall asset :: asset in market ==> Replay.ReserveSays(s.reserves[asset], events, asset, market[asset])
  }

  /** The ledger the events of the archive lead to. */
  ghost function Final(
      t: Transcript.Archive, reserves: map<Asset, Replay.Reserve>): Result<Replay.State, Replay.ReplayError>
  {
    Replay.Replayed(Replay.State(map[], reserves), Transcript.AllEvents(t.blocks))
  }

  lemma {:induction false} RecordsAt(
      s: Replay.State, addresses: seq<Address>, marketExact: bool, configured: Address -> bool)
    requires Buildable(s) && forall a :: a in addresses ==> a in s.borrowers
    ensures |Records(s, addresses, marketExact, configured)| == |addresses|
    ensures forall i :: 0 <= i < |addresses| ==>
              Records(s, addresses, marketExact, configured)[i] == RecordOf(s, addresses[i], marketExact, configured)
  {
    if addresses != [] {
      RecordsAt(s, addresses[1..], marketExact, configured);
    }
  }

  lemma ListedIffHeld(s: Replay.State, marketExact: bool, configured: Address -> bool, a: Address, asset: Asset)
    requires Buildable(s)
    ensures Listed(Records(s, Sorted(s.borrowers.Keys), marketExact, configured), a, asset) <==>
            exists token :: Replay.Balance(s.borrowers, Replay.Account(a, token, asset)) != 0
  {
    ListedIffRecorded(s, marketExact, configured, a, asset);
    if a in s.borrowers {
      RecordCoversHoldings(s, a, marketExact, configured, asset);
    }
  }

  lemma ListedIffRecorded(s: Replay.State, marketExact: bool, configured: Address -> bool, a: Address, asset: Asset)
    requires Buildable(s)
    ensures Listed(Records(s, Sorted(s.borrowers.Keys), marketExact, configured), a, asset) <==>
            a in s.borrowers && HasPosition(RecordOf(s, a, marketExact, configured).positions, asset)
  {
    var addresses := Sorted(s.borrowers.Keys);
    var records := Records(s, addresses, marketExact, configured);
    RecordsAt(s, addresses, marketExact, configured);
    if a in s.borrowers {
      var i :| 0 <= i < |addresses| && addresses[i] == a;
      assert records[i] in records;
    }
  }

  lemma RecordPosition(s: Replay.State, a: Address, marketExact: bool, configured: Address -> bool, p: Account.Position)
    requires Buildable(s) && a in s.borrowers && p in RecordOf(s, a, marketExact, configured).positions
    ensures p.asset in s.reserves && Replay.PositiveBalances(s.borrowers[a].balances)
    ensures p == PositionOf(s.borrowers[a], p.asset, s.reserves[p.asset])
  {
    ActiveKnown(s, a);
    PositionsAt(s.borrowers[a], Sorted(Active(s.borrowers[a])), s.reserves);
  }

  lemma RecordsAssetsOnce(
      s: Replay.State, addresses: seq<Address>, marketExact: bool, configured: Address -> bool)
    requires Buildable(s) && forall a :: a in addresses ==> a in s.borrowers
    ensures forall b :: b in Records(s, addresses, marketExact, configured) ==> Auction.DistinctAssets(b.positions)
  {
    RecordsAt(s, addresses, marketExact, configured);
    forall i | 0 <= i < |addresses|
      ensures Auction.DistinctAssets(RecordOf(s, addresses[i], marketExact, configured).positions)
    {
      RecordCoversHoldings(s, addresses[i], marketExact, configured, 0);
    }
  }

  lemma SupplyRounds(scaled: nat, index: Option<nat>)
    ensures SupplyAt(AtIndex(scaled, index, (x, y) => RayMulFloor(x, y)), scaled, index)
  {
    if scaled > 0 && index.Some? {
      var v := RayMulFloor(scaled, index.value);
      RayMulExact(scaled, index.value, v);
      RayMulExact(scaled, index.value, v + 1);
    }
  }

  lemma DebtRounds(scaled: nat, index: Option<nat>)
    ensures DebtAt(AtIndex(scaled, index, (x, y) => RayMulCeil(x, y)), scaled, index)
  {
    if scaled > 0 && index.Some? {
      var v := RayMulCeil(scaled, index.value);
      RayMulExact(scaled, index.value, v);
      if v > 0 {
        RayMulExact(scaled, index.value, v - 1);
      }
    }
  }

  /** A position of a record, by what the ledger says. */
  lemma PositionHolds(
      s: Replay.State, a: Address, asset: Asset, events: seq<Transcript.Event>, market: map<Asset, Replay.Reserve>)
    requires LedgerFollows(s, events, market) && a in s.borrowers && asset in market
    requires Replay.PositiveBalances(s.borrowers[a].balances)
    ensures HoldsFlows(a, PositionOf(s.borrowers[a], asset, s.reserves[asset]), events, market[asset])
  {
    var item, reserve := s.borrowers[a], s.reserves[asset];
    var b := item.balances;
    Readable(b);
    HeldIsFlow(s, a, asset, events, market);
    assert Replay.SaysOf(Replay.Entry(s.borrowers, a), events, a);
    assert Replay.FlagOn(item, asset) == Replay.FlagOf(events, a, asset);
    SupplyRounds(HeldNat(b.supply, asset), reserve.liquidityIndex);
    DebtRounds(HeldNat(b.variableDebt, asset), reserve.variableBorrowIndex);
  }

  lemma HeldIsFlow(
      s: Replay.State, a: Address, asset: Asset, events: seq<Transcript.Event>, market: map<Asset, Replay.Reserve>)
    requires LedgerFollows(s, events, market) && a in s.borrowers
    ensures var b := s.borrowers[a].balances;
            && Replay.Held(b.supply, asset) == Replay.NetFlow(events, Replay.Account(a, Transcript.Supply, asset))
            && Replay.Held(b.variableDebt, asset)
               == Replay.NetFlow(events, Replay.Account(a, Transcript.VariableDebt, asset))
            && Replay.Held(b.stableDebt, asset)
               == Replay.NetFlow(events, Replay.Account(a, Transcript.StableDebt, asset))
  {
    var b := s.borrowers[a].balances;
    assert Replay.Balance(s.borrowers, Replay.Account(a, Transcript.Supply, asset)) == Replay.Held(b.supply, asset);
    assert Replay.Balance(s.borrowers, Replay.Account(a, Transcript.VariableDebt, asset))
           == Replay.Held(b.variableDebt, asset);
    assert Replay.Balance(s.borrowers, Replay.Account(a, Transcript.StableDebt, asset))
           == Replay.Held(b.stableDebt, asset);
  }

  lemma RecordPositions(
      s: Replay.State, a: Address, marketExact: bool, configured: Address -> bool, events: seq<Transcript.Event>,
      market: map<Asset, Replay.Reserve>)
    requires Buildable(s) && a in s.borrowers && LedgerFollows(s, events, market)
    ensures PositionsFollow(RecordOf(s, a, marketExact, configured), events, market)
  {
    forall p | p in RecordOf(s, a, marketExact, configured).positions
      ensures p.asset in market && HoldsFlows(a, p, events, market[p.asset])
    {
      RecordPosition(s, a, marketExact, configured, p);
      PositionHolds(s, a, p.asset, events, market);
    }
  }

  lemma CompleteIff(
      positions: seq<Account.Position>, s: Replay.State, events: seq<Transcript.Event>,
      market: map<Asset, Replay.Reserve>)
    requires LedgerFollows(s, events, market)
    ensures Complete(positions, s.reserves) <==>
            forall p :: p in positions ==>
              && p.supplied.Some? && p.variableDebt.Some?
              && p.asset in market && Replay.TermsOf(events, p.asset, market[p.asset]).0.Some?
  {
    forall asset | asset in market
      ensures s.reserves[asset].id == Replay.TermsOf(events, asset, market[asset]).0
    {
      assert Replay.ReserveSays(s.reserves[asset], events, asset, market[asset]);
    }
  }

  lemma RecordHolds(
      s: Replay.State, a: Address, marketExact: bool, configured: Address -> bool, events: seq<Transcript.Event>,
      market: map<Asset, Replay.Reserve>)
    requires Buildable(s) && a in s.borrowers && LedgerFollows(s, events, market)
    ensures RecordFollows(RecordOf(s, a, marketExact, configured), events, market, marketExact, configured)
  {
    RecordPositions(s, a, marketExact, configured, events, market);
    CompleteIff(RecordOf(s, a, marketExact, configured).positions, s, events, market);
    assert Replay.SaysOf(Replay.Entry(s.borrowers, a), events, a);
  }

  lemma RecordsFollowEvents(
      s: Replay.State, marketExact: bool, configured: Address -> bool, events: seq<Transcript.Event>,
      market: map<Asset, Replay.Reserve>)
    requires Buildable(s) && LedgerFollows(s, events, market)
    ensures FollowsEvents(
              Records(s, Sorted(s.borrowers.Keys), marketExact, configured), events, market, marketExact, configured)
  {
    var addresses := Sorted(s.borrowers.Keys);
    var records := Records(s, addresses, marketExact, configured);
    RecordsAt(s, addresses, marketExact, configured);
    SortedIncreases(s.borrowers.Keys);
    RecordAddresses(s, marketExact, configured);
    forall a, asset: Asset
      ensures Listed(records, a, asset) <==>
              exists token :: Replay.NetFlow(events, Replay.Account(a, token, asset)) != 0
    {
      ListedIffHeld(s, marketExact, configured, a, asset);
    }
    forall i | 0 <= i < |records| ensures RecordFollows(records[i], events, market, marketExact, configured) {
      RecordHolds(s, addresses[i], marketExact, configured, events, market);
    }
  }

  lemma RecordAddresses(s: Replay.State, marketExact: bool, configured: Address -> bool)
    requires Buildable(s)
    ensures forall a :: a in s.borrowers.Keys <==>
              exists b :: b in Records(s, Sorted(s.borrowers.Keys), marketExact, configured) && b.address == a
  {
    var addresses := Sorted(s.borrowers.Keys);
    var records := Records(s, addresses, marketExact, configured);
    RecordsAt(s, addresses, marketExact, configured);
    forall a | a in s.borrowers.Keys ensures exists b :: b in records && b.address == a {
      var i :| 0 <= i < |addresses| && addresses[i] == a;
      assert records[i] in records;
    }
  }

  lemma LedgerOfEvents(s: Replay.State, events: seq<Transcript.Event>, market: map<Asset, Replay.Reserve>)
    requires Replay.Replayed(Replay.State(map[], market), events) == Ok(s)
    ensures LedgerFollows(s, events, market) && MarketFollows(Market(s.reserves), events, market)
  {
    Replay.BalancesAreNetFlows(market, events);
    Replay.EntriesFollowEvents(market, events);
    Replay.EntriesAreMentioned(market, events);
    forall asset | asset in market
      ensures s.reserves[asset].thresholdBps == Replay.TermsOf(events, asset, market[asset]).1
    {
      assert Replay.ReserveSays(s.reserves[asset], events, asset, market[asset]);
    }
  }

  /**
   * From an event archive to an auction: an acceptable transcript gives an inventory exactly when its events replay;
   * records and reserves say what the events say; and every completed evaluation reports as newly liquidatable exactly
   * what a scan of all borrowers reports.
   */
  method BuildFromTranscript(
      t: Transcript.Archive, digest: Transcript.Event -> Transcript.Digest, reserves: map<Asset, Replay.Reserve>,
      emodes: map<nat, Account.Category>, marketExact: bool, configured: Address -> bool)
    returns (r: Result<Auction.Inventory, Replay.BuildError>)
    ensures Transcript.Acceptable(t) ==> (r.Ok? <==> Final(t, reserves).Ok?)
    ensures r.Ok? && Transcript.CollisionFree(digest, Transcript.AllEvents(t.blocks)) ==>
              && Transcript.Acceptable(t)
              && FollowsEvents(
                   r.value.borrowers, Transcript.AllEvents(t.blocks), reserves, marketExact, configured)
              && MarketFollows(r.value.reserves, Transcript.AllEvents(t.blocks), reserves)
    ensures r.Ok? ==> r.value.emodes == emodes && Auction.WellIndexed(r.value) && Auction.EachAssetOnce(r.value)
    ensures r.Ok? ==> (r.value.complete <==> marketExact && forall b :: b in r.value.borrowers ==> b.complete)
    ensures r.Ok? && r.value.complete ==>
              forall m :: Auction.Evaluate(r.value, m).Ok? ==>
                Auction.Evaluate(r.value, m).value.lists.newly
                == Auction.Select(r.value, m, Auction.Newly, Sorted(Auction.Everyone(r.value)))
  {
    var state :- Replay.BuildLedger(t, digest, reserves);
    var inv := BuildInventory(state, emodes, marketExact, configured);
    RecordsAssetsOnce(state, Sorted(state.borrowers.Keys), marketExact, configured);
    if Transcript.CollisionFree(digest, Transcript.AllEvents(t.blocks)) {
      LedgerOfEvents(state, Transcript.AllEvents(t.blocks), reserves);
      RecordsFollowEvents(state, marketExact, configured, Transcript.AllEvents(t.blocks), reserves);
    }
    if inv.complete {
      EveryEvaluationExact(inv);
    }
    r := Ok(inv);
  }

  // ---- The inventory made from a checkpoint ----

  /** A position of the checkpoint, at its current amounts. */
  datatype RawPosition =
    RawPosition(asset: Asset, supplied: nat, variableDebt: nat, stableDebt: nat, collateralEnabled: bool)

  /**
   * A borrower of the checkpoint; `configured` says whether the account configuration is the one its positions make.
   */
  datatype RawBorrower = RawBorrower(address: Address, emode: nat, positions: seq<RawPosition>, configured: bool)

  datatype CheckpointError = UnknownReserve | ConfigurationMismatch | NoActiveDebt

  predicate Empty(raw: RawPosition) {
    raw.supplied == 0 && raw.variableDebt == 0 && raw.stableDebt == 0
  }

  function Priced(raw: RawPosition, feed: nat): Account.Position {
    Account.Position(raw.asset, Some(raw.supplied), raw.collateralEnabled, Some(raw.variableDebt), raw.stableDebt, feed)
  }

  /** The positions that are not empty, each priced by the feed of its reserve. */
  ghost function Kept(raws: seq<RawPosition>, reserves: map<Asset, Account.Reserve>): seq<Account.Position>
    requires AllKnown(raws, reserves)
  {
    if raws == [] then []
    else
      var front, last := raws[..|raws| - 1], raws[|raws| - 1];
      if Empty(last) then Kept(front, reserves)
      else Kept(front, reserves) + [Priced(last, reserves[last.asset].priceFeed)]
  }

  /** A position is kept, with all its amounts and its flag, exactly when one of the amounts is not zero. */
  lemma KeptOfOne(raw: RawPosition, reserves: map<Asset, Account.Reserve>)
    requires raw.asset in reserves
    ensures raw.supplied == raw.variableDebt == raw.stableDebt == 0 ==> Kept([raw], reserves) == []
    ensures !(raw.supplied == raw.variableDebt == raw.stableDebt == 0) ==>
              |Kept([raw], reserves)| == 1 &&
              var p := Kept([raw], reserves)[0];
              && p.asset == raw.asset && p.supplied == Some(raw.supplied) && p.variableDebt == Some(raw.variableDebt)
              && p.stableDebt == raw.stableDebt && p.collateralEnabled == raw.collateralEnabled
              && p.priceFeed == reserves[raw.asset].priceFeed
  {
    assert [raw][..0] == [];
    assert Kept([], reserves) == [];
  }

  lemma {:induction false} KeptOfBoth(xs: seq<RawPosition>, ys: seq<RawPosition>, reserves: map<Asset, Account.Reserve>)
    requires AllKnown(xs, reserves) && AllKnown(ys, reserves)
    ensures AllKnown(xs + ys, reserves) && Kept(xs + ys, reserves) == Kept(xs, reserves) + Kept(ys, reserves)
  {
    if ys == [] {
      assert xs + ys == xs;
    } else {
      assert (xs + ys)[..|xs + ys| - 1] == xs + ys[..|ys| - 1];
      KeptOfBoth(xs, ys[..|ys| - 1], reserves);
    }
  }

  ghost predicate AllKnown(raws: seq<RawPosition>, reserves: map<Asset, Account.Reserve>) {
    forall i :: 0 <= i < |raws| ==> raws[i].asset in reserves
  }

  /** The position loop: an unknown reserve is an error even for an empty position. */
  method KeepPositions(raws: seq<RawPosition>, reserves: map<Asset, Account.Reserve>)
    returns (r: Option<seq<Account.Position>>)
    ensures r.Some? <==> AllKnown(raws, reserves)
    ensures r.Some? ==> r.value == Kept(raws, reserves)
  {
    var positions := [];
    for i := 0 to |raws|
      invariant AllKnown(raws[..i], reserves) && positions == Kept(raws[..i], reserves)
    {
      assert raws[..i + 1][..i] == raws[..i];
      if raws[i].asset !in reserves {
        return None;
      }
      if !Empty(raws[i]) {
        positions := positions + [Priced(raws[i], reserves[raws[i].asset].priceFeed)];
      }
    }
    assert raws[..|raws|] == raws;
    r := Some(positions);
  }

  /** Kept positions are not empty and are priced by the feed of their reserve. */
  lemma {:induction false} KeptWellFed(raws: seq<RawPosition>, reserves: map<Asset, Account.Reserve>)
    requires AllKnown(raws, reserves)
    ensures forall p :: p in Kept(raws, reserves) ==>
              && p.asset in reserves && p.priceFeed == reserves[p.asset].priceFeed
              && p.supplied.Some? && p.variableDebt.Some?
              && (p.supplied.value > 0 || p.variableDebt.value > 0 || p.stableDebt > 0)
  {
    if raws != [] {
      KeptWellFed(raws[..|raws| - 1], reserves);
    }
  }

  predicate Owes(p: Account.Position) {
    (p.variableDebt.Some? && p.variableDebt.value > 0) || p.stableDebt > 0
  }

  /** One borrower of the checkpoint. */
  method CheckpointBorrower(raw: RawBorrower, reserves: map<Asset, Account.Reserve>)
    returns (r: Result<Auction.Borrower, CheckpointError>)
    ensures r.Ok? <==> Accepted(raw, reserves)
    ensures r.Ok? ==> r.value == Auction.Borrower(raw.address, raw.emode, Kept(raw.positions, reserves), true)
  {
    var positions := KeepPositions(raw.positions, reserves);
    if positions.None? {
      return Err(UnknownReserve);
    }
    if !raw.configured {
      return Err(ConfigurationMismatch);
    }
    if !exists i :: 0 <= i < |positions.value| && Owes(positions.value[i]) {
      return Err(NoActiveDebt);
    }
    r := Ok(Auction.Borrower(raw.address, raw.emode, positions.value, true));
  }

  /** All reserves are known, the configuration matches and some debt is active. */
  ghost predicate Accepted(raw: RawBorrower, reserves: map<Asset, Account.Reserve>) {
    && AllKnown(raw.positions, reserves) && raw.configured
    && exists i :: 0 <= i < |Kept(raw.positions, reserves)| && Owes(Kept(raw.positions, reserves)[i])
  }

  /** Dropping the empty positions loses no debt. */
  lemma {:induction false} KeptOwesIff(raws: seq<RawPosition>, reserves: map<Asset, Account.Reserve>)
    requires AllKnown(raws, reserves)
    ensures Any(Kept(raws, reserves), Owes) <==> Any(raws, InDebt)
  {
    if raws != [] {
      var front, last := raws[..|raws| - 1], raws[|raws| - 1];
      KeptOwesIff(front, reserves);
      AnyLast(raws, InDebt);
      if !Empty(last) {
        var kept := Kept(front, reserves) + [Priced(last, reserves[last.asset].priceFeed)];
        assert kept[..|kept| - 1] == Kept(front, reserves);
        AnyLast(kept, Owes);
      }
    }
  }

  ghost predicate Any<T(!new)>(xs: seq<T>, has: T -> bool) {
    exists x :: x in xs && has(x)
  }

  predicate InDebt(raw: RawPosition) {
    raw.variableDebt > 0 || raw.stableDebt > 0
  }

  lemma AnyLast<T(!new)>(xs: seq<T>, has: T -> bool)
    requires xs != []
    ensures Any(xs, has) <==> Any(xs[..|xs| - 1], has) || has(xs[|xs| - 1])
  {
    assert xs == xs[..|xs| - 1] + [xs[|xs| - 1]];
  }

  /** A borrower is accepted exactly with known reserves, a matching configuration and some variable or stable debt. */
  lemma AcceptedIff(raw: RawBorrower, reserves: map<Asset, Account.Reserve>)
    ensures Accepted(raw, reserves) <==>
            && (forall p :: p in raw.positions ==> p.asset in reserves) && raw.configured
            && exists p :: p in raw.positions && (p.variableDebt > 0 || p.stableDebt > 0)
  {
    if AllKnown(raw.positions, reserves) {
      var kept := Kept(raw.positions, reserves);
      KeptOwesIff(raw.positions, reserves);
      assert (exists i :: 0 <= i < |kept| && Owes(kept[i])) <==> Any(kept, Owes);
      assert (exists p :: p in raw.positions && (p.variableDebt > 0 || p.stableDebt > 0)) <==>
             Any(raw.positions, InDebt) by {
        assert forall p: RawPosition :: InDebt(p) <==> p.variableDebt > 0 || p.stableDebt > 0;
      }
    }
  }

  ghost predicate PositionsWellFed(b: Auction.Borrower, reserves: map<Asset, Account.Reserve>) {
    forall p :: p in b.positions ==> p.asset in reserves && p.priceFeed == reserves[p.asset].priceFeed
  }

  /** The borrower loop of the checkpoint builder. */
  method CheckpointBorrowers(raws: seq<RawBorrower>, reserves: map<Asset, Account.Reserve>)
    returns (r: Result<seq<Auction.Borrower>, CheckpointError>)
    ensures r.Ok? <==> forall i :: 0 <= i < |raws| ==> Accepted(raws[i], reserves)
    ensures r.Ok? ==> |r.value| == |raws| && forall i :: 0 <= i < |raws| ==>
              r.value[i] == Auction.Borrower(raws[i].address, raws[i].emode, Kept(raws[i].positions, reserves), true)
    ensures r.Ok? ==> forall b :: b in r.value ==> PositionsWellFed(b, reserves)
  {
    var borrowers := [];
    for k := 0 to |raws|
      invariant |borrowers| == k && forall i :: 0 <= i < k ==> Accepted(raws[i], reserves)
      invariant forall i :: 0 <= i < k ==>
        borrowers[i] == Auction.Borrower(raws[i].address, raws[i].emode, Kept(raws[i].positions, reserves), true)
      invariant forall b :: b in borrowers ==> PositionsWellFed(b, reserves)
    {
      var borrower := CheckpointBorrower(raws[k], reserves);
      if borrower.Err? {
        return Err(borrower.error);
      }
      KeptWellFed(raws[k].positions, reserves);
      borrowers := borrowers + [borrower.value];
    }
    r := Ok(borrowers);
  }

  predicate InOrder(borrowers: seq<Auction.Borrower>) {
    forall i, j :: 0 <= i < j < |borrowers| ==> borrowers[i].address <= borrowers[j].address
  }

  function Insert(borrowers: seq<Auction.Borrower>, b: Auction.Borrower): (r: seq<Auction.Borrower>)
    ensures forall x :: x in r ==> x in borrowers || x == b
  {
    if borrowers == [] || b.address < borrowers[0].address then [b] + borrowers
    else [borrowers[0]] + Insert(borrowers[1..], b)
  }

  lemma {:induction false} InsertOrder(borrowers: seq<Auction.Borrower>, b: Auction.Borrower)
    requires InOrder(borrowers)
    ensures InOrder(Insert(borrowers, b))
  {
    if borrowers != [] && borrowers[0].address <= b.address {
      var rest := Insert(borrowers[1..], b);
      InsertOrder(borrowers[1..], b);
      assert forall i :: 0 <= i < |rest| ==> rest[i] in rest;
    }
  }

  lemma {:induction false} InsertContents(borrowers: seq<Auction.Borrower>, b: Auction.Borrower)
    ensures multiset(Insert(borrowers, b)) == multiset(borrowers) + multiset{b}
  {
    if borrowers != [] && borrowers[0].address <= b.address {
      InsertContents(borrowers[1..], b);
      assert borrowers == [borrowers[0]] + borrowers[1..];
    }
  }

  /** `sorted` by address; records of one address keep their order. */
  function ByAddress(borrowers: seq<Auction.Borrower>): (r: seq<Auction.Borrower>)
  {
    if borrowers == [] then []
    else Insert(ByAddress(borrowers[..|borrowers| - 1]), borrowers[|borrowers| - 1])
  }

  lemma {:induction false} ByAddressOrder(borrowers: seq<Auction.Borrower>)
    ensures InOrder(ByAddress(borrowers))
  {
    if borrowers != [] {
      ByAddressOrder(borrowers[..|borrowers| - 1]);
      InsertOrder(ByAddress(borrowers[..|borrowers| - 1]), borrowers[|borrowers| - 1]);
    }
  }

  lemma {:induction false} ByAddressContents(borrowers: seq<Auction.Borrower>)
    ensures multiset(ByAddress(borrowers)) == multiset(borrowers)
  {
    if borrowers != [] {
      var front, last := borrowers[..|borrowers| - 1], borrowers[|borrowers| - 1];
      calc {
        multiset(ByAddress(borrowers));
        { InsertContents(ByAddress(front), last); }
        multiset(ByAddress(front)) + multiset{last};
        { ByAddressContents(front); }
        multiset(front) + multiset{last};
        multiset(front + [last]);
        { assert borrowers == front + [last]; }
        multiset(borrowers);
      }
    }
  }

  /** The records of one address, in order. */
  ghost function RecordsOf(borrowers: seq<Auction.Borrower>, a: Address): seq<Auction.Borrower> {
    if borrowers == [] then []
    else (if borrowers[0].address == a then [borrowers[0]] else []) + RecordsOf(borrowers[1..], a)
  }

  lemma {:induction false} RecordsOfNone(borrowers: seq<Auction.Borrower>, a: Address)
    requires forall b :: b in borrowers ==> b.address != a
    ensures RecordsOf(borrowers, a) == []
  {
    if borrowers != [] {
      RecordsOfNone(borrowers[1..], a);
    }
  }

  lemma {:induction false} RecordsOfLast(borrowers: seq<Auction.Borrower>, b: Auction.Borrower, a: Address)
    ensures RecordsOf(borrowers + [b], a) == RecordsOf(borrowers, a) + RecordsOf([b], a)
  {
    if borrowers == [] {
      assert borrowers + [b] == [b];
    } else {
      var first := if borrowers[0].address == a then [borrowers[0]] else [];
      calc {
        RecordsOf(borrowers + [b], a);
        { assert (borrowers + [b])[1..] == borrowers[1..] + [b]; }
        first + RecordsOf(borrowers[1..] + [b], a);
        { RecordsOfLast(borrowers[1..], b, a); }
        first + (RecordsOf(borrowers[1..], a) + RecordsOf([b], a));
        (first + RecordsOf(borrowers[1..], a)) + RecordsOf([b], a);
        RecordsOf(borrowers, a) + RecordsOf([b], a);
      }
    }
  }

  lemma {:induction false} InsertStable(borrowers: seq<Auction.Borrower>, b: Auction.Borrower, a: Address)
    requires InOrder(borrowers)
    ensures RecordsOf(Insert(borrowers, b), a) == RecordsOf(borrowers, a) + RecordsOf([b], a)
  {
    if borrowers != [] && b.address < borrowers[0].address {
      assert ([b] + borrowers)[1..] == borrowers;
      if a == b.address {
        RecordsOfNone(borrowers, a);
      }
    } else if borrowers != [] {
      InsertStable(borrowers[1..], b, a);
      assert Insert(borrowers, b)[1..] == Insert(borrowers[1..], b);
    }
  }

  lemma {:induction false} ByAddressStable(borrowers: seq<Auction.Borrower>, a: Address)
    ensures RecordsOf(ByAddress(borrowers), a) == RecordsOf(borrowers, a)
  {
    if borrowers != [] {
      var front, last := borrowers[..|borrowers| - 1], borrowers[|borrowers| - 1];
      ByAddressStable(front, a);
      ByAddressOrder(front);
      InsertStable(ByAddress(front), last, a);
      RecordsOfLast(front, last, a);
      assert borrowers == front + [last];
    }
  }

  lemma SameElements(b: seq<Auction.Borrower>, c: seq<Auction.Borrower>)
    requires multiset(b) == multiset(c)
    ensures forall x :: x in b <==> x in c
  {
    assert forall x :: (x in b <==> x in multiset(b)) && (x in c <==> x in multiset(c));
  }

  lemma IndexOfSorted(borrowers: seq<Auction.Borrower>, index: map<Account.Feed, set<Address>>)
    requires Auction.IndexExact(borrowers, index)
    ensures Auction.IndexExact(ByAddress(borrowers), index)
  {
    var c := ByAddress(borrowers);
    ByAddressContents(borrowers);
    SameElements(borrowers, c);
    forall feed, a
      ensures a in Auction.Indexed(index, feed) <==>
              exists i :: 0 <= i < |c| && c[i].address == a && Auction.DependsOn(c[i], feed)
    {
      if i :| 0 <= i < |borrowers| && borrowers[i].address == a && Auction.DependsOn(borrowers[i], feed) {
        assert borrowers[i] in c;
      }
      if i :| 0 <= i < |c| && c[i].address == a && Auction.DependsOn(c[i], feed) {
        assert c[i] in borrowers;
      }
    }
  }

  ghost function RecordFrom(raw: RawBorrower, reserves: map<Asset, Account.Reserve>): Auction.Borrower
    requires Accepted(raw, reserves)
  {
    Auction.Borrower(raw.address, raw.emode, Kept(raw.positions, reserves), true)
  }

  /** The record of each checkpoint borrower, in the order of the checkpoint. */
  ghost function CheckpointRecords(raws: seq<RawBorrower>, reserves: map<Asset, Account.Reserve>): seq<Auction.Borrower>
    requires forall i :: 0 <= i < |raws| ==> Accepted(raws[i], reserves)
  {
    seq(|raws|, i requires 0 <= i < |raws| => RecordFrom(raws[i], reserves))
  }

  /** From a checkpoint to an auction: the same exactness as for a transcript. */
  method BuildFromCheckpoint(
      raws: seq<RawBorrower>, reserves: map<Asset, Account.Reserve>, emodes: map<nat, Account.Category>, complete: bool)
    returns (r: Result<Auction.Inventory, CheckpointError>)
    ensures r.Ok? <==> forall i :: 0 <= i < |raws| ==> Accepted(raws[i], reserves)
    ensures r.Ok? ==>
              && InOrder(r.value.borrowers)
              && multiset(r.value.borrowers) == multiset(CheckpointRecords(raws, reserves))
              && forall a :: RecordsOf(r.value.borrowers, a) == RecordsOf(CheckpointRecords(raws, reserves), a)
    ensures r.Ok? ==> Auction.WellIndexed(r.value) && r.value.reserves == reserves && r.value.emodes == emodes
    ensures r.Ok? ==> r.value.complete == complete
    ensures r.Ok? && complete ==>
              forall m :: Auction.Evaluate(r.value, m).Ok? ==>
                Auction.Evaluate(r.value, m).value.lists.newly
                == Auction.Select(r.value, m, Auction.Newly, Sorted(Auction.Everyone(r.value)))
  {
    var borrowers := CheckpointBorrowers(raws, reserves);
    if borrowers.Err? {
      return Err(borrowers.error);
    }
    var index := Auction.BuildFeedIndex(borrowers.value);
    var inv := Auction.Inventory(reserves, emodes, ByAddress(borrowers.value), index, complete);
    IndexOfSorted(borrowers.value, index);
    ByAddressOrder(borrowers.value);
    ByAddressContents(borrowers.value);
    SameElements(borrowers.value, inv.borrowers);
    assert Auction.WellIndexed(inv);
    assert borrowers.value == CheckpointRecords(raws, reserves);
    forall a ensures RecordsOf(inv.borrowers, a) == RecordsOf(borrowers.value, a) {
      ByAddressStable(borrowers.value, a);
    }
    if complete {
      EveryEvaluationExact(inv);
    }
    r := Ok(inv);
  }

  lemma EveryEvaluationExact(inv: Auction.Inventory)
    requires Auction.WellIndexed(inv) && inv.complete
    ensures forall m :: Auction.Evaluate(inv, m).Ok? ==>
              Auction.Evaluate(inv, m).value.lists.newly
              == Auction.Select(inv, m, Auction.Newly, Sorted(Auction.Everyone(inv)))
  {
    forall m | Auction.Evaluate(inv, m).Ok?
      ensures Auction.Evaluate(inv, m).value.lists.newly
              == Auction.Select(inv, m, Auction.Newly, Sorted(Auction.Everyone(inv)))
    {
      Auction.EvaluationExact(inv, m);
    }
  }
}
