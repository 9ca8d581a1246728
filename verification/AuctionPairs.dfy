/** The debt/collateral pairs of the liquidatable borrowers of an auction (`evaluate_auction`, `_pair_quote`). */
module AuctionPairs {
  import opened Identifiers
  import opened Results
  import opened FixedPoint
  import opened Ordering
  import opened Account
  import opened Auction
  import opened Liquidation
  import opened ForkPackage
  import PairEconomics

  /** What a pair needs of a reserve beyond its value; None for a field the inventory lacks. */
  datatype Terms = Terms(bonusBps: Option<nat>, feeBps: Option<nat>, active: bool, paused: bool,
      graceUntil: Option<nat>)

  /** A quote of the auction: for one debt and one collateral asset, whoever the borrower is. */
  datatype QuoteEntry = QuoteEntry(debtAsset: Asset, collateralAsset: Asset, quote: PairEconomics.Quote)

  /** What the pairs are computed from, besides the inventory, the move and the quotes. */
  datatype Setting = Setting(
    terms: Asset -> Terms,
    categoryBonus: nat -> Option<nat>,
    rules: CloseFactorRules,
    checkpointBlock: nat, checkpointHash: nat, timestamp: nat)

  datatype PairError =
    | DuplicateQuote
    | AccountUnknown
    | BonusInvalid
    | FeeMissing
    | GraceMissing
    | EconomicsInvalid(reason: PairEconomics.EconomicsError)

  // ----- The grid of one borrower -----

  function Amount(amount: Option<nat>): nat { if amount.Some? then amount.value else 0 }

  predicate IsDebt(p: Position) { Amount(p.variableDebt) != 0 || p.stableDebt != 0 }

  predicate IsCollateral(p: Position) { p.collateralEnabled && Amount(p.supplied) != 0 }

  function Filter(ps: seq<Position>, keep: Position -> bool): (kept: seq<Position>)
    ensures forall p :: p in kept <==> p in ps && keep(p)
  {
    if ps == [] then []
    else if keep(ps[0]) then [ps[0]] + Filter(ps[1..], keep)
    else Filter(ps[1..], keep)
  }

  function Debts(b: Borrower): seq<Position> { Filter(b.positions, p => IsDebt(p)) }

  function Collaterals(b: Borrower): seq<Position> { Filter(b.positions, p => IsCollateral(p)) }

  /** What becomes of one pair of an address. */
  type Assess<!T> = (Address, Position, Position) -> Result<T, PairError>

  ghost function Row<T>(
      f: Assess<T>, a: Address, debt: Position, collaterals: seq<Position>): Result<seq<T>, PairError>
  {
    if collaterals == [] then Ok([])
    else
      var front :- Row(f, a, debt, collaterals[..|collaterals| - 1]);
      var item :- f(a, debt, collaterals[|collaterals| - 1]);
      Ok(front + [item])
  }

  ghost function Grid<T>(f: Assess<T>, a: Address, debts: seq<Position>, collaterals: seq<Position>)
    : Result<seq<T>, PairError>
  {
    if debts == [] then Ok([])
    else
      var front :- Grid(f, a, debts[..|debts| - 1], collaterals);
      var row :- Row(f, a, debts[|debts| - 1], collaterals);
      Ok(front + row)
  }

  lemma {:induction false} RowPrefix<T>(f: Assess<T>, a: Address, debt: Position, collaterals: seq<Position>, n: nat)
    requires n <= |collaterals| && Row(f, a, debt, collaterals[..n]).Err?
    ensures Row(f, a, debt, collaterals) == Row(f, a, debt, collaterals[..n])
    decreases |collaterals|
  {
    if n == |collaterals| {
      assert collaterals[..n] == collaterals;
    } else {
      var front := collaterals[..|collaterals| - 1];
      assert front[..n] == collaterals[..n];
      RowPrefix(f, a, debt, front, n);
    }
  }

  lemma {:induction false} GridPrefix<T>(
      f: Assess<T>, a: Address, debts: seq<Position>, collaterals: seq<Position>, n: nat)
    requires n <= |debts| && Grid(f, a, debts[..n], collaterals).Err?
    ensures Grid(f, a, debts, collaterals) == Grid(f, a, debts[..n], collaterals)
    decreases |debts|
  {
    if n == |debts| {
      assert debts[..n] == debts;
    } else {
      var front := debts[..|debts| - 1];
      assert front[..n] == debts[..n];
      GridPrefix(f, a, front, collaterals, n);
    }
  }

  /** The inner loop. */
  method AssessRow<T>(f: Assess<T>, a: Address, debt: Position, collaterals: seq<Position>)
    returns (r: Result<seq<T>, PairError>)
    ensures r == Row(f, a, debt, collaterals)
  {
    var items := [];
    for i := 0 to |collaterals|
      invariant Row(f, a, debt, collaterals[..i]) == Ok(items)
    {
      assert collaterals[..i + 1][..i] == collaterals[..i];
      var item := f(a, debt, collaterals[i]);
      if item.Err? {
        RowPrefix(f, a, debt, collaterals, i + 1);
        return Err(item.error);
      }
      items := items + [item.value];
    }
    assert collaterals[..|collaterals|] == collaterals;
    r := Ok(items);
  }

  /** The two nested loops over the debts and the collaterals of a borrower. */
  method AssessGrid<T>(f: Assess<T>, a: Address, debts: seq<Position>, collaterals: seq<Position>)
    returns (r: Result<seq<T>, PairError>)
    ensures r == Grid(f, a, debts, collaterals)
  {
    var items := [];
    for i := 0 to |debts|
      invariant Grid(f, a, debts[..i], collaterals) == Ok(items)
    {
      assert debts[..i + 1][..i] == debts[..i];
      var row := AssessRow(f, a, debts[i], collaterals);
      if row.Err? {
        GridPrefix(f, a, debts, collaterals, i + 1);
        return row;
      }
      items := items + row.value;
    }
    assert debts[..|debts|] == debts;
    r := Ok(items);
  }

  ghost predicate RowHolds<T(
      !new)>(f: Assess<T>, a: Address, debt: Position, collaterals: seq<Position>, items: seq<T>)
  {
    forall t :: t in items <==> exists c :: c in collaterals && f(a, debt, c) == Ok(t)
  }

  lemma {:induction false} RowIff<T(!new)>(f: Assess<T>, a: Address, debt: Position, collaterals: seq<Position>)
    ensures Row(f, a, debt, collaterals).Ok? <==> forall c :: c in collaterals ==> f(a, debt, c).Ok?
    ensures Row(f, a, debt, collaterals).Ok? ==> RowHolds(f, a, debt, collaterals, Row(f, a, debt, collaterals).value)
  {
    if collaterals != [] {
      var front, last := collaterals[..|collaterals| - 1], collaterals[|collaterals| - 1];
      RowIff(f, a, debt, front);
      assert forall c :: c in collaterals <==> c in front || c == last;
    }
  }

  ghost predicate GridHolds<T(
      !new)>(f: Assess<T>, a: Address, debts: seq<Position>, collaterals: seq<Position>, items: seq<T>)
  {
    forall t :: t in items <==> exists d, c :: d in debts && c in collaterals && f(a, d, c) == Ok(t)
  }

  /** The grid is assessed exactly when every pair of it is, and holds exactly what they give. */
  lemma {:induction false} GridIff<T(!new)>(f: Assess<T>, a: Address, debts: seq<Position>, collaterals: seq<Position>)
    ensures Grid(f, a, debts, collaterals).Ok? <==>
            forall d, c :: d in debts && c in collaterals ==> f(a, d, c).Ok?
    ensures Grid(f, a, debts, collaterals).Ok? ==>
            GridHolds(f, a, debts, collaterals, Grid(f, a, debts, collaterals).value)
  {
    if debts != [] {
      var front, last := debts[..|debts| - 1], debts[|debts| - 1];
      GridIff(f, a, front, collaterals);
      RowIff(f, a, last, collaterals);
      assert forall d :: d in debts <==> d in front || d == last;
    }
  }

  // ----- The evaluation loop, with its pairs -----

  datatype Failure = Evidence(why: EvidenceError) | PairFailed(pair: PairError)

  datatype Report<T> = Report(lists: Lists, items: seq<T>)

  /** The health factors of an address before and after the move, or why it is not evaluated. */
  function Factors(inv: Inventory, m: Move, a: Address): Result<(nat, nat), EvidenceError> {
    var borrowers := BorrowerMap(inv.borrowers);
    if a !in borrowers || !borrowers[a].complete then Err(BorrowerIncomplete)
    else
      var before :- HealthFactorAt(inv, a, Before(m));
      var after :- HealthFactorAt(inv, a, After(m));
      Ok((before, after))
  }

  function ListsOf(a: Address, factors: (nat, nat)): Lists {
    var record := [Record(a, factors.0, factors.1)];
    if factors.1 >= WAD then Lists([], []) else if factors.0 >= WAD then Lists(record, []) else Lists([], record)
  }

  /** One turn of the loop. */
  ghost function Turn<T>(inv: Inventory, m: Move, f: Assess<T>, a: Address): Result<Report<T>, Failure> {
    match Factors(inv, m, a)
    case Err(e) => Err(Evidence(e))
    case Ok(factors) =>
      if factors.1 >= WAD then Ok(Report(ListsOf(a, factors), []))
      else
        var b := BorrowerMap(inv.borrowers)[a];
        match Grid(f, a, Debts(b), Collaterals(b))
        case Err(e) => Err(PairFailed(e))
        case Ok(items) => Ok(Report(ListsOf(a, factors), items))
  }

  function Together<T>(r: Report<T>, s: Report<T>): Report<T> {
    Report(Lists(r.lists.newly + s.lists.newly, r.lists.already + s.lists.already), r.items + s.items)
  }

  function Behind<T>(r: Report<T>, rest: Result<Report<T>, Failure>): Result<Report<T>, Failure> {
    if rest.Err? then rest else Ok(Together(r, rest.value))
  }

  ghost function Turns<T>(inv: Inventory, m: Move, f: Assess<T>, addresses: seq<Address>): Result<Report<T>, Failure> {
    if addresses == [] then Ok(Report(Lists([], []), []))
    else
      var first :- Turn(inv, m, f, addresses[0]);
      Behind(first, Turns(inv, m, f, addresses[1..]))
  }

  lemma BehindMore<T>(r: Report<T>, s: Report<T>, rest: Result<Report<T>, Failure>)
    ensures Behind(r, Behind(s, rest)) == Behind(Together(r, s), rest)
  {
    if rest.Ok? {
      var t := rest.value;
      assert r.lists.newly + (s.lists.newly + t.lists.newly) == r.lists.newly + s.lists.newly + t.lists.newly;
      assert r.lists.already + (s.lists.already + t.lists.already)
          == r.lists.already + s.lists.already + t.lists.already;
      assert r.items + (s.items + t.items) == r.items + s.items + t.items;
    }
  }

  lemma BehindNothing<T>(rest: Result<Report<T>, Failure>)
    ensures Behind(Report(Lists([], []), []), rest) == rest
  {
    if rest.Ok? {
      var t := rest.value;
      assert [] + t.lists.newly == t.lists.newly && [] + t.lists.already == t.lists.already && [] + t.items == t.items;
    }
  }

  lemma BeforeNothing<T>(r: Report<T>)
    ensures Behind(r, Ok(Report(Lists([], []), []))) == Ok(r)
  {
    assert r.lists.newly + [] == r.lists.newly && r.lists.already + [] == r.lists.already && r.items + [] == r.items;
  }

  lemma NextTurn<T>(inv: Inventory, m: Move, f: Assess<T>, done: Report<T>, rest: set<Address>, a: Address)
    requires IsLeast(a, rest)
    ensures Behind(done, Turns(inv, m, f, Sorted(rest))) ==
            match Turn(inv, m, f, a)
            case Err(e) => Err(e)
            case Ok(first) => Behind(Together(done, first), Turns(inv, m, f, Sorted(rest - {a})))
  {
    SortedHead(rest, a);
    if Turn(inv, m, f, a).Ok? {
      BehindMore(done, Turn(inv, m, f, a).value, Turns(inv, m, f, Sorted(rest - {a})));
    }
  }

  method TakeTurn<T>(inv: Inventory, m: Move, f: Assess<T>, a: Address) returns (r: Result<Report<T>, Failure>)
    ensures r == Turn(inv, m, f, a)
  {
    var factors := Factors(inv, m, a);
    if factors.Err? {
      return Err(Evidence(factors.error));
    }
    if factors.value.1 >= WAD {
      return Ok(Report(ListsOf(a, factors.value), []));
    }
    var b := BorrowerMap(inv.borrowers)[a];
    var items := AssessGrid(f, a, Debts(b), Collaterals(b));
    if items.Err? {
      return Err(PairFailed(items.error));
    }
    r := Ok(Report(ListsOf(a, factors.value), items.value));
  }

  /** The loop over the affected addresses: two lists of borrowers and one of pairs. */
  method TakeTurns<T>(inv: Inventory, m: Move, f: Assess<T>, addresses: set<Address>)
    returns (r: Result<Report<T>, Failure>)
    ensures r == Turns(inv, m, f, Sorted(addresses))
  {
    var rest, done: Report<T> := addresses, Report(Lists([], []), []);
    BehindNothing(Turns(inv, m, f, Sorted(addresses)));
    while rest != {}
      invariant Behind(done, Turns(inv, m, f, Sorted(rest))) == Turns(inv, m, f, Sorted(addresses))
      decreases rest
    {
      var a := TakeLeast(rest);
      NextTurn(inv, m, f, done, rest, a);
      var first := TakeTurn(inv, m, f, a);
      if first.Err? {
        return first;
      }
      done, rest := Together(done, first.value), rest - {a};
    }
    BeforeNothing(done);
    r := Ok(done);
  }

  /** The address is below a health factor of one after the move. */
  predicate Liquidatable(inv: Inventory, m: Move, a: Address) {
    Factors(inv, m, a).Ok? && Factors(inv, m, a).value.1 < WAD
  }

  /** A pair of positions that the loop looks at when it reaches the address. */
  ghost predicate Candidate(inv: Inventory, m: Move, a: Address, d: Position, c: Position) {
    && Liquidatable(inv, m, a)
    && d in Debts(BorrowerMap(inv.borrowers)[a]) && c in Collaterals(BorrowerMap(inv.borrowers)[a])
  }

  ghost predicate Holds<T(!new)>(inv: Inventory, m: Move, f: Assess<T>, addresses: seq<Address>, items: seq<T>) {
    forall t :: t in items <==> exists a, d, c :: a in addresses && Candidate(inv, m, a, d, c) && f(a, d, c) == Ok(t)
  }

  lemma TurnIff<T(!new)>(inv: Inventory, m: Move, f: Assess<T>, a: Address)
    ensures Turn(inv, m, f, a).Ok? <==>
            Factors(inv, m, a).Ok? && forall d, c :: Candidate(inv, m, a, d, c) ==> f(a, d, c).Ok?
    ensures Turn(inv, m, f, a).Ok? ==>
            && Turn(inv, m, f, a).value.lists == ListsOf(a, Factors(inv, m, a).value)
            && Holds(inv, m, f, [a], Turn(inv, m, f, a).value.items)
  {
    if Liquidatable(inv, m, a) {
      var b := BorrowerMap(inv.borrowers)[a];
      GridIff(f, a, Debts(b), Collaterals(b));
    }
  }

  /**
   * The evaluation succeeds exactly when the health factors of every address can be computed and every pair can be
   * assessed; it then reports the borrowers of the scan without pairs, and exactly the assessments of the pairs.
   */
  lemma {:induction false} TurnsIff<T(!new)>(inv: Inventory, m: Move, f: Assess<T>, addresses: seq<Address>)
    ensures Turns(inv, m, f, addresses).Ok? <==>
            && (forall a :: a in addresses ==> Factors(inv, m, a).Ok?)
            && (forall a, d, c :: a in addresses && Candidate(inv, m, a, d, c) ==> f(a, d, c).Ok?)
    ensures Turns(inv, m, f, addresses).Ok? ==>
            Holds(inv, m, f, addresses, Turns(inv, m, f, addresses).value.items)
  {
    if addresses != [] {
      TurnIff(inv, m, f, addresses[0]);
      TurnsIff(inv, m, f, addresses[1..]);
      assert forall a :: a in addresses <==> a == addresses[0] || a in addresses[1..];
    }
  }

  lemma ItemSource<T(!new)>(inv: Inventory, m: Move, f: Assess<T>, addresses: seq<Address>, t: T)
    returns (a: Address, d: Position, c: Position)
    requires Turns(inv, m, f, addresses).Ok? && t in Turns(inv, m, f, addresses).value.items
    ensures a in addresses && Candidate(inv, m, a, d, c) && f(a, d, c) == Ok(t)
  {
    TurnsIff(inv, m, f, addresses);
    a, d, c :| a in addresses && Candidate(inv, m, a, d, c) && f(a, d, c) == Ok(t);
  }

  lemma ItemListed<T(!new)>(
      inv: Inventory, m: Move, f: Assess<T>, addresses: seq<Address>, a: Address, d: Position, c: Position)
    requires Turns(inv, m, f, addresses).Ok? && a in addresses && Candidate(inv, m, a, d, c)
    ensures f(a, d, c).Ok? && f(a, d, c).value in Turns(inv, m, f, addresses).value.items
  {
    TurnsIff(inv, m, f, addresses);
  }

  lemma {:induction false} TurnsScan<T(!new)>(inv: Inventory, m: Move, f: Assess<T>, addresses: seq<Address>)
    requires Turns(inv, m, f, addresses).Ok?
    ensures Scan(inv, m, addresses) == Ok(Turns(inv, m, f, addresses).value.lists)
  {
    if addresses != [] {
      TurnIff(inv, m, f, addresses[0]);
      TurnsScan(inv, m, f, addresses[1..]);
      assert forall records: seq<Record> :: [] + records == records;
    }
  }

  // ----- Stakes and quotes -----

  /** A pair before any quote: its amounts and prices, and whether the protocol lets it be liquidated. */
  datatype Stake = Stake(
    borrower: Address, debtAsset: Asset, collateralAsset: Asset, pair: Pair, flagsOk: bool, graceOk: bool)

  /** The bonus of the account's eMode category where it covers the asset, else that of the reserve. */
  function BonusOf(setting: Setting, b: Borrower, category: Option<Category>, asset: Asset): Option<nat> {
    if category.Some? && asset in category.value.collateralAssets then setting.categoryBonus(b.emode)
    else setting.terms(asset).bonusBps
  }

  /** The grace period of the debt is read only when that of the collateral has elapsed. */
  function GraceElapsed(setting: Setting, debt: Asset, collateral: Asset): Option<bool> {
    match setting.terms(collateral).graceUntil
    case None => None
    case Some(until) =>
      if until >= setting.timestamp then Some(false)
      else
        match setting.terms(debt).graceUntil
        case None => None
        case Some(until') => Some(until' < setting.timestamp)
  }

  function FlagsOk(setting: Setting, debt: Asset, collateral: Asset): bool {
    && setting.terms(collateral).active && setting.terms(debt).active
    && !setting.terms(collateral).paused && !setting.terms(debt).paused
  }

  /** The first half of `_pair_economics`: everything up to the quote. */
  function StakeOf(inv: Inventory, m: Move, setting: Setting, a: Address, d: Position, c: Position)
    : Result<Stake, PairError>
  {
    var borrowers := BorrowerMap(inv.borrowers);
    if a !in borrowers || d.asset !in inv.reserves || c.asset !in inv.reserves then Err(AccountUnknown)
    else
      var b := borrowers[a];
      var category := CategoryOf(inv, b);
      var totals := Sum(b.positions, inv.reserves, category, After(m));
      var debtPrice, collateralPrice := PriceOf(After(m), d.asset), PriceOf(After(m), c.asset);
      if totals.Err? || debtPrice.Err? || collateralPrice.Err? then Err(AccountUnknown)
      else
        var bonus, fee := BonusOf(setting, b, category, c.asset), setting.terms(c.asset).feeBps;
        if bonus.None? || bonus.value < PERCENTAGE_FACTOR then Err(BonusInvalid)
        else if fee.None? then Err(FeeMissing)
        else
          match GraceElapsed(setting, d.asset, c.asset)
          case None => Err(GraceMissing)
          case Some(graceOk) =>
            var pair := Pair(
              Amount(d.variableDebt) + d.stableDebt, debtPrice.value, inv.reserves[d.asset].decimals,
              Amount(c.supplied), collateralPrice.value, inv.reserves[c.asset].decimals,
              totals.value.debt, HealthFactor(totals.value.weighted, totals.value.debt),
              setting.rules, bonus.value, fee.value);
            Ok(Stake(a, d.asset, c.asset, pair, FlagsOk(setting, d.asset, c.asset), graceOk))
  }

  function Quoted(quotes: seq<QuoteEntry>, debt: Asset, collateral: Asset): seq<PairEconomics.Quote> {
    if quotes == [] then []
    else if quotes[0].debtAsset == debt && quotes[0].collateralAsset == collateral then
      [quotes[0].quote] + Quoted(quotes[1..], debt, collateral)
    else Quoted(quotes[1..], debt, collateral)
  }

  /** `_pair_quote`: by the two assets alone. */
  function PairQuote(quotes: seq<QuoteEntry>, debt: Asset, collateral: Asset)
    : Result<Option<PairEconomics.Quote>, PairError>
  {
    var found := Quoted(quotes, debt, collateral);
    if |found| > 1 then Err(DuplicateQuote) else if found == [] then Ok(None) else Ok(Some(found[0]))
  }

  /** The second half of `_pair_economics`. */
  function Priced(s: Stake, quote: Option<PairEconomics.Quote>, blockNumber: nat, blockHash: nat)
    : Result<PairRecord, PairError>
  {
    match PairEconomics.Evaluate(s.pair, s.flagsOk, s.graceOk, quote, blockNumber, blockHash)
    case Err(e) => Err(EconomicsInvalid(e))
    case Ok(economics) => Ok(PairRecord(s.borrower, s.debtAsset, s.collateralAsset, economics))
  }

  function AssessPair(
      inv: Inventory, m: Move, setting: Setting, quotes: seq<QuoteEntry>, a: Address, d: Position, c: Position)
    : Result<PairRecord, PairError>
  {
    var quote :- PairQuote(quotes, d.asset, c.asset);
    var stake :- StakeOf(inv, m, setting, a, d, c);
    Priced(stake, quote, setting.checkpointBlock, setting.checkpointHash)
  }

  function Staking(inv: Inventory, m: Move, setting: Setting): Assess<Stake> {
    (a: Address, d: Position, c: Position) => StakeOf(inv, m, setting, a, d, c)
  }

  function Pricing(inv: Inventory, m: Move, setting: Setting, quotes: seq<QuoteEntry>): Assess<PairRecord> {
    (a: Address, d: Position, c: Position) => AssessPair(inv, m, setting, quotes, a, d, c)
  }

  /** The pairs looked at: each debt with each enabled, non-empty supply of an address below one after the move. */
  lemma CandidateIff(inv: Inventory, m: Move, a: Address, d: Position, c: Position)
    requires Factors(inv, m, a).Ok?
    ensures Candidate(inv, m, a, d, c) <==>
            && Factors(inv, m, a).value.1 < WAD
            && d in BorrowerMap(inv.borrowers)[a].positions && c in BorrowerMap(inv.borrowers)[a].positions
            && ((d.variableDebt.Some? && d.variableDebt.value > 0) || d.stableDebt > 0)
            && c.collateralEnabled && c.supplied.Some? && c.supplied.value > 0
  {}

  /** A stake is the debt and collateral of two positions at the prices after the move, in the state of the account. */
  lemma StakeExact(inv: Inventory, m: Move, setting: Setting, a: Address, d: Position, c: Position)
    requires StakeOf(inv, m, setting, a, d, c).Ok?
    ensures var x := StakeOf(inv, m, setting, a, d, c).value.pair;
            && x.debt == (if d.variableDebt.Some? then d.variableDebt.value else 0) + d.stableDebt
            && x.collateral == (if c.supplied.Some? then c.supplied.value else 0)
            && PriceOf(After(m), d.asset) == Ok(x.debtPrice) && PriceOf(After(m), c.asset) == Ok(x.collateralPrice)
            && x.debtDecimals == inv.reserves[d.asset].decimals
            && x.collateralDecimals == inv.reserves[c.asset].decimals
            && HealthFactorAt(inv, a, After(m)) == Ok(x.healthFactor)
            && x.rules == setting.rules && setting.terms(c.asset).feeBps == Some(x.feeBps)
    ensures var b := BorrowerMap(inv.borrowers)[a];
            var x := StakeOf(inv, m, setting, a, d, c).value.pair;
            && (exists totals :: Sum(b.positions, inv.reserves, CategoryOf(inv, b), After(m)) == Ok(totals)
                  && totals.debt == x.totalDebtBase)
            && (b.emode in inv.emodes && c.asset in inv.emodes[b.emode].collateralAssets ==>
                  setting.categoryBonus(b.emode) == Some(x.bonusBps))
            && (!(b.emode in inv.emodes && c.asset in inv.emodes[b.emode].collateralAssets) ==>
                  setting.terms(c.asset).bonusBps == Some(x.bonusBps))
    ensures var s := StakeOf(inv, m, setting, a, d, c).value;
            && (s.flagsOk <==>
                  && setting.terms(d.asset).active && !setting.terms(d.asset).paused
                  && setting.terms(c.asset).active && !setting.terms(c.asset).paused)
            && (s.graceOk <==>
                  && setting.terms(d.asset).graceUntil.Some?
                  && setting.terms(d.asset).graceUntil.value < setting.timestamp
                  && setting.terms(c.asset).graceUntil.Some?
                  && setting.terms(c.asset).graceUntil.value < setting.timestamp)
  {}

  ghost predicate OnlyQuoteAt(quotes: seq<QuoteEntry>, debt: Asset, collateral: Asset, i: nat) {
    && i < |quotes| && quotes[i].debtAsset == debt && quotes[i].collateralAsset == collateral
    && forall j :: 0 <= j < |quotes| && j != i ==>
         quotes[j].debtAsset != debt || quotes[j].collateralAsset != collateral
  }

  lemma {:induction false} QuotedNoneIff(quotes: seq<QuoteEntry>, debt: Asset, collateral: Asset)
    ensures Quoted(quotes, debt, collateral) == [] <==>
            forall j :: 0 <= j < |quotes| ==> quotes[j].debtAsset != debt || quotes[j].collateralAsset != collateral
    ensures PairQuote(quotes, debt, collateral) == Ok(None) <==> Quoted(quotes, debt, collateral) == []
  {
    if quotes != [] {
      QuotedNoneIff(quotes[1..], debt, collateral);
      assert forall j :: 1 <= j < |quotes| ==> quotes[j] == quotes[1..][j - 1];
    }
  }

  /** A quote is found exactly when it is the only one for the two assets. */
  lemma {:induction false} QuoteOf(quotes: seq<QuoteEntry>, debt: Asset, collateral: Asset, i: nat)
    requires OnlyQuoteAt(quotes, debt, collateral, i)
    ensures PairQuote(quotes, debt, collateral) == Ok(Some(quotes[i].quote))
  {
    QuotedNoneIff(quotes[1..], debt, collateral);
    assert forall j :: 1 <= j < |quotes| ==> quotes[j] == quotes[1..][j - 1];
    if i > 0 {
      QuoteOf(quotes[1..], debt, collateral, i - 1);
    }
  }

  /** Two quotes for the same two assets are refused. */
  lemma {:induction false} QuoteClash(quotes: seq<QuoteEntry>, debt: Asset, collateral: Asset, i: nat, j: nat)
    requires i < j < |quotes|
    requires quotes[i].debtAsset == quotes[j].debtAsset == debt
    requires quotes[i].collateralAsset == quotes[j].collateralAsset == collateral
    ensures PairQuote(quotes, debt, collateral) == Err(DuplicateQuote)
  {
    assert quotes[1..][j - 1] == quotes[j];
    if i > 0 {
      QuoteClash(quotes[1..], debt, collateral, i - 1, j - 1);
    } else {
      QuotedNoneIff(quotes[1..], debt, collateral);
    }
  }

  datatype ResultStatus = NoRiskChange | InventoryIncomplete | PairsIncomplete | AllComplete

  datatype AuctionResult = AuctionResult(status: ResultStatus, lists: Lists, pairs: seq<PairRecord>)

  function Concluded(report: Report<PairRecord>): AuctionResult {
    AuctionResult(if AllExact(report.items) then AllComplete else PairsIncomplete, report.lists, report.items)
  }

  ghost function EvaluateWith(inv: Inventory, m: Move, setting: Setting, quotes: seq<QuoteEntry>)
    : Result<AuctionResult, Failure>
  {
    if !MoveValid(inv, m) then Err(Evidence(AuctionInvalid))
    else if m.before == m.after then Ok(AuctionResult(NoRiskChange, Lists([], []), []))
    else if !inv.complete then Ok(AuctionResult(InventoryIncomplete, Lists([], []), []))
    else if !PricesValid(m.prices) then Err(Evidence(AuctionInvalid))
    else
      var report :- Turns(inv, m, Pricing(inv, m, setting, quotes), Sorted(Indexed(inv.feedIndex, m.feed)));
      Ok(Concluded(report))
  }

  /** `evaluate_auction` with the pairs and the status they decide. */
  method EvaluateAuctionPairs(inv: Inventory, m: Move, setting: Setting, quotes: seq<QuoteEntry>)
    returns (r: Result<AuctionResult, Failure>)
    ensures r == EvaluateWith(inv, m, setting, quotes)
  {
    if !MoveValid(inv, m) {
      return Err(Evidence(AuctionInvalid));
    }
    if m.before == m.after {
      return Ok(AuctionResult(NoRiskChange, Lists([], []), []));
    }
    if !inv.complete {
      return Ok(AuctionResult(InventoryIncomplete, Lists([], []), []));
    }
    if !PricesValid(m.prices) {
      return Err(Evidence(AuctionInvalid));
    }
    var report := TakeTurns(inv, m, Pricing(inv, m, setting, quotes), Indexed(inv.feedIndex, m.feed));
    if report.Err? {
      return Err(report.error);
    }
    r := Ok(Concluded(report.value));
  }

  /** The pairs change nothing about the borrowers reported. */
  lemma PairsKeepLists(inv: Inventory, m: Move, setting: Setting, quotes: seq<QuoteEntry>)
    requires EvaluateWith(inv, m, setting, quotes).Ok?
    ensures Auction.Evaluate(inv, m).Ok?
    ensures Auction.Evaluate(inv, m).value.lists == EvaluateWith(inv, m, setting, quotes).value.lists
  {
    if m.before != m.after && inv.complete {
      TurnsScan(inv, m, Pricing(inv, m, setting, quotes), Sorted(Indexed(inv.feedIndex, m.feed)));
    }
  }

  // ----- Every pair stands alone -----

  ghost predicate DistinctPairs(pairs: seq<PairRecord>) {
    forall i, j :: 0 <= i < j < |pairs| ==> !SamePair(pairs[i], pairs[j])
  }

  /** Every record carries the address and the two assets it was made for. */
  ghost predicate Labels(f: Assess<PairRecord>) {
    forall a, d, c :: f(a, d, c).Ok? ==>
      var r := f(a, d, c).value;
      r.borrower == a && r.debtAsset == d.asset && r.collateralAsset == c.asset
  }

  lemma {:induction false} FilterDistinct(ps: seq<Position>, keep: Position -> bool)
    requires DistinctAssets(ps)
    ensures DistinctAssets(Filter(ps, keep))
  {
    if ps != [] {
      FilterDistinct(ps[1..], keep);
      assert forall p :: p in Filter(ps[1..], keep) ==> p in ps[1..];
      assert forall p :: p in ps[1..] ==> p.asset != ps[0].asset;
    }
  }

  lemma DistinctTogether(front: seq<PairRecord>, back: seq<PairRecord>)
    requires DistinctPairs(front) && DistinctPairs(back)
    requires forall x, y :: x in front && y in back ==> !SamePair(x, y)
    ensures DistinctPairs(front + back)
  {
    var all := front + back;
    forall i, j | 0 <= i < j < |all| ensures !SamePair(all[i], all[j]) {
      if i < |front| <= j {
        assert all[i] in front && all[j] in back;
      }
    }
  }

  lemma {:induction false} RowDistinct(f: Assess<PairRecord>, a: Address, debt: Position, collaterals: seq<Position>)
    requires Labels(f) && DistinctAssets(collaterals) && Row(f, a, debt, collaterals).Ok?
    ensures DistinctPairs(Row(f, a, debt, collaterals).value)
  {
    if collaterals != [] {
      var front, last := collaterals[..|collaterals| - 1], collaterals[|collaterals| - 1];
      RowDistinct(f, a, debt, front);
      RowIff(f, a, debt, front);
      DistinctTogether(Row(f, a, debt, front).value, [f(a, debt, last).value]);
    }
  }

  lemma {:induction false} GridDistinct(
      f: Assess<PairRecord>, a: Address, debts: seq<Position>, collaterals: seq<Position>)
    requires Labels(f) && DistinctAssets(debts) && DistinctAssets(collaterals) && Grid(f, a, debts, collaterals).Ok?
    ensures DistinctPairs(Grid(f, a, debts, collaterals).value)
  {
    if debts != [] {
      var front, last := debts[..|debts| - 1], debts[|debts| - 1];
      GridDistinct(f, a, front, collaterals);
      RowDistinct(f, a, last, collaterals);
      GridIff(f, a, front, collaterals);
      RowIff(f, a, last, collaterals);
      DistinctTogether(Grid(f, a, front, collaterals).value, Row(f, a, last, collaterals).value);
    }
  }

  lemma TurnDistinct(inv: Inventory, m: Move, f: Assess<PairRecord>, a: Address)
    requires Labels(f) && EachAssetOnce(inv) && Turn(inv, m, f, a).Ok?
    ensures DistinctPairs(Turn(inv, m, f, a).value.items)
    ensures forall r :: r in Turn(inv, m, f, a).value.items ==> r.borrower == a
  {
    TurnIff(inv, m, f, a);
    if Liquidatable(inv, m, a) {
      var b := BorrowerMap(inv.borrowers)[a];
      FilterDistinct(b.positions, p => IsDebt(p));
      FilterDistinct(b.positions, p => IsCollateral(p));
      GridDistinct(f, a, Debts(b), Collaterals(b));
    }
  }

  lemma {:induction false} TurnsDistinct(inv: Inventory, m: Move, f: Assess<PairRecord>, addresses: seq<Address>)
    requires Labels(f) && EachAssetOnce(inv) && Turns(inv, m, f, addresses).Ok?
    requires forall i, j :: 0 <= i < j < |addresses| ==> addresses[i] != addresses[j]
    ensures DistinctPairs(Turns(inv, m, f, addresses).value.items)
  {
    if addresses != [] {
      TurnDistinct(inv, m, f, addresses[0]);
      TurnsDistinct(inv, m, f, addresses[1..]);
      TurnsIff(inv, m, f, addresses[1..]);
      var rest := Turns(inv, m, f, addresses[1..]).value.items;
      assert forall r :: r in rest ==> r.borrower in addresses[1..];
      DistinctTogether(Turn(inv, m, f, addresses[0]).value.items, rest);
    }
  }

  lemma PricingLabels(inv: Inventory, m: Move, setting: Setting, quotes: seq<QuoteEntry>)
    ensures Labels(Pricing(inv, m, setting, quotes))
  {
    forall a: Address, d, c | AssessPair(inv, m, setting, quotes, a, d, c).Ok?
      ensures var r := AssessPair(inv, m, setting, quotes, a, d, c).value;
              r.borrower == a && r.debtAsset == d.asset && r.collateralAsset == c.asset
    {
      StakeLabels(inv, m, setting, a, d, c);
    }
  }

  lemma StakeLabels(inv: Inventory, m: Move, setting: Setting, a: Address, d: Position, c: Position)
    ensures StakeOf(inv, m, setting, a, d, c).Ok? ==>
            var s := StakeOf(inv, m, setting, a, d, c).value;
            s.borrower == a && s.debtAsset == d.asset && s.collateralAsset == c.asset && s.pair.Valid()
  {}

  lemma DistinctStandAlone(pairs: seq<PairRecord>, r: PairRecord)
    requires DistinctPairs(pairs) && r in pairs
    ensures StandsAlone(pairs, r)
  {
    var i :| 0 <= i < |pairs| && pairs[i] == r;
    forall j | 0 <= j < |pairs| && j != i ensures !SamePair(pairs[j], r) {
      assert if i < j then !SamePair(pairs[i], pairs[j]) else !SamePair(pairs[j], pairs[i]);
    }
    assert StandsAloneAt(pairs, r, i);
  }

  /**
   * Where no borrower has two positions in one asset, no two pairs of a result have one borrower and the same assets.
   */
  lemma EveryPairAlone(inv: Inventory, m: Move, setting: Setting, quotes: seq<QuoteEntry>)
    requires EachAssetOnce(inv) && EvaluateWith(inv, m, setting, quotes).Ok?
    ensures DistinctPairs(EvaluateWith(inv, m, setting, quotes).value.pairs)
  {
    var affected := Indexed(inv.feedIndex, m.feed);
    PricingLabels(inv, m, setting, quotes);
    SortedIncreases(affected);
    if m.before != m.after && inv.complete {
      TurnsDistinct(inv, m, Pricing(inv, m, setting, quotes), Sorted(affected));
    }
  }

  lemma PairEvaluated(inv: Inventory, m: Move, setting: Setting, quotes: seq<QuoteEntry>, r: PairRecord)
    returns (s: Stake, quote: Option<PairEconomics.Quote>)
    requires EvaluateWith(inv, m, setting, quotes).Ok? && r in EvaluateWith(inv, m, setting, quotes).value.pairs
    ensures Priced(s, quote, setting.checkpointBlock, setting.checkpointHash) == Ok(r)
  {
    var a, d, c := ItemSource(inv, m, Pricing(inv, m, setting, quotes), Sorted(Indexed(inv.feedIndex, m.feed)), r);
    s := StakeOf(inv, m, setting, a, d, c).value;
    quote := PairQuote(quotes, d.asset, c.asset).value;
  }

  /** Every reported pair is a debt against a collateral of its borrower, valued by their stake and their quote. */
  lemma PairExplained(inv: Inventory, m: Move, setting: Setting, quotes: seq<QuoteEntry>, r: PairRecord)
    returns (d: Position, c: Position)
    requires EvaluateWith(inv, m, setting, quotes).Ok? && r in EvaluateWith(inv, m, setting, quotes).value.pairs
    ensures r.borrower in Indexed(inv.feedIndex, m.feed) && Candidate(inv, m, r.borrower, d, c)
    ensures d.asset == r.debtAsset && c.asset == r.collateralAsset
    ensures var s, quote := StakeOf(inv, m, setting, r.borrower, d, c), PairQuote(quotes, d.asset, c.asset);
            && s.Ok? && quote.Ok?
            && PairEconomics.Evaluate(s.value.pair, s.value.flagsOk, s.value.graceOk, quote.value,
                                      setting.checkpointBlock, setting.checkpointHash) == Ok(r.economics)
  {
    var a;
    a, d, c := ItemSource(inv, m, Pricing(inv, m, setting, quotes), Sorted(Indexed(inv.feedIndex, m.feed)), r);
    StakeLabels(inv, m, setting, a, d, c);
  }

  /**
   * From an auction to a package: a pair of a result has an accepted plan if and only if the result is complete, the
   * checkpoint is not block zero and the outcomes of the pair clear the floor.
   */
  lemma AuctionGateIff(inv: Inventory, m: Move, setting: Setting, quotes: seq<QuoteEntry>, r: PairRecord)
    requires EachAssetOnce(inv) && EvaluateWith(inv, m, setting, quotes).Ok?
    requires r in EvaluateWith(inv, m, setting, quotes).value.pairs
    ensures var result := EvaluateWith(inv, m, setting, quotes).value;
            (exists plan :: Matches(r, plan)
              && BuildPackage(result.pairs, plan, setting.checkpointBlock, setting.checkpointHash) == Ok(r)) <==>
            setting.checkpointBlock >= 1 && result.status.AllComplete? && Clears(r.economics)
  {
    var result := EvaluateWith(inv, m, setting, quotes).value;
    EveryPairAlone(inv, m, setting, quotes);
    DistinctStandAlone(result.pairs, r);
    var s, quote := PairEvaluated(inv, m, setting, quotes, r);
    StatusIsExact(inv, m, setting, quotes, r);
    GateOpensIff(
      result.pairs, r, s.pair, s.flagsOk, s.graceOk, quote, setting.checkpointBlock, setting.checkpointHash);
  }

  lemma StatusIsExact(inv: Inventory, m: Move, setting: Setting, quotes: seq<QuoteEntry>, r: PairRecord)
    requires EvaluateWith(inv, m, setting, quotes).Ok? && r in EvaluateWith(inv, m, setting, quotes).value.pairs
    ensures var result := EvaluateWith(inv, m, setting, quotes).value;
            result.status.AllComplete? <==> AllExact(result.pairs)
  {}

  // ----- One quote for every borrower of a pair of assets -----

  /** What the unwind of a stake would sell. */
  function Claim(s: Stake): int { if s.pair.Valid() then s.pair.LiquidatorCollateral() else 0 }

  /** The protocol lets the stake be liquidated, and leaves the liquidator no less than nothing. */
  predicate Payable(s: Stake) {
    s.pair.Valid() && s.flagsOk && s.graceOk && s.pair.DustRule() && Claim(s) >= 0
  }

  predicate SameAssets(s: Stake, t: Stake) { s.debtAsset == t.debtAsset && s.collateralAsset == t.collateralAsset }

  /** Stakes in the same two assets would sell the same amount. */
  ghost predicate Agree(stakes: seq<Stake>) {
    forall s, t :: s in stakes && t in stakes && SameAssets(s, t) ==> Claim(s) == Claim(t)
  }

  ghost predicate AllPayable(stakes: seq<Stake>) {
    forall s :: s in stakes ==> Payable(s)
  }

  function Exact(r: Result<PairRecord, PairError>): bool { r.Ok? && r.value.economics.ExactFullCost? }

  lemma ExactStake(s: Stake, quote: Option<PairEconomics.Quote>, blockNumber: nat, blockHash: nat)
    requires Exact(Priced(s, quote, blockNumber, blockHash))
    ensures Payable(s) && quote.Some? && quote.value.unwindInput == Claim(s)
  {
    PairEconomics.ExactIff(s.pair, s.flagsOk, s.graceOk, quote, blockNumber, blockHash);
  }

  function RepayOf(s: Stake): nat { if s.pair.Valid() then s.pair.Repay() else 0 }

  /** A quote without costs that sells the given amount. */
  function FreeQuote(flash: nat, unwind: nat, blockNumber: nat, blockHash: nat): PairEconomics.Quote {
    var free := PairEconomics.Costs(0, 0, 0, 0, 0, 0, 0);
    PairEconomics.Quote(blockNumber, blockHash, flash, 0, unwind, true, 0, 0, 0, free, free, free, 0)
  }

  lemma FreeQuoteFits(s: Stake, flash: nat, blockNumber: nat, blockHash: nat)
    requires Payable(s) && flash >= RepayOf(s)
    ensures Exact(Priced(s, Some(FreeQuote(flash, Claim(s), blockNumber, blockHash)), blockNumber, blockHash))
  {
    var quote := Some(FreeQuote(flash, Claim(s), blockNumber, blockHash));
    PairEconomics.ExactIff(s.pair, s.flagsOk, s.graceOk, quote, blockNumber, blockHash);
  }

  /** One quote for each pair of assets among the stakes. */
  function QuotesFor(stakes: seq<Stake>, quote: Stake -> PairEconomics.Quote): seq<QuoteEntry> {
    if stakes == [] then []
    else
      var s, rest := stakes[0], QuotesFor(stakes[1..], quote);
      if Quoted(rest, s.debtAsset, s.collateralAsset) != [] then rest
      else [QuoteEntry(s.debtAsset, s.collateralAsset, quote(s))] + rest
  }

  lemma {:induction false} QuotesForOthers(
      stakes: seq<Stake>, quote: Stake -> PairEconomics.Quote, debt: Asset, collateral: Asset)
    requires forall s :: s in stakes ==> s.debtAsset != debt || s.collateralAsset != collateral
    ensures Quoted(QuotesFor(stakes, quote), debt, collateral) == []
  {
    if stakes != [] {
      QuotesForOthers(stakes[1..], quote, debt, collateral);
    }
  }

  lemma {:induction false} QuotesForFit(stakes: seq<Stake>, quote: Stake -> PairEconomics.Quote, s: Stake)
    requires s in stakes && forall t :: t in stakes && SameAssets(s, t) ==> quote(t) == quote(s)
    ensures Quoted(QuotesFor(stakes, quote), s.debtAsset, s.collateralAsset) == [quote(s)]
  {
    var rest := stakes[1..];
    if t :| t in rest && SameAssets(s, t) {
      QuotesForFit(rest, quote, t);
    } else {
      QuotesForOthers(rest, quote, s.debtAsset, s.collateralAsset);
    }
  }

  ghost function Affected(inv: Inventory, m: Move): seq<Address> { Sorted(Indexed(inv.feedIndex, m.feed)) }

  /** The stakes of all pairs, whatever the quotes. */
  ghost function Stakes(inv: Inventory, m: Move, setting: Setting): Result<Report<Stake>, Failure> {
    Turns(inv, m, Staking(inv, m, setting), Affected(inv, m))
  }

  ghost predicate Completes(inv: Inventory, m: Move, setting: Setting, quotes: seq<QuoteEntry>) {
    var report := Turns(inv, m, Pricing(inv, m, setting, quotes), Affected(inv, m));
    report.Ok? && AllExact(report.value.items)
  }

  /** The evaluation gets to its loop. */
  predicate Evaluable(inv: Inventory, m: Move) {
    MoveValid(inv, m) && m.before != m.after && inv.complete && PricesValid(m.prices)
  }

  /** The status COMPLETE. */
  ghost predicate EndsComplete(inv: Inventory, m: Move, setting: Setting, quotes: seq<QuoteEntry>) {
    var r := EvaluateWith(inv, m, setting, quotes);
    r.Ok? && r.value.status.AllComplete?
  }

  lemma EndsCompleteIff(inv: Inventory, m: Move, setting: Setting, quotes: seq<QuoteEntry>)
    ensures EndsComplete(inv, m, setting, quotes) <==> Evaluable(inv, m) && Completes(inv, m, setting, quotes)
  {}

  lemma CandidateExact(
      inv: Inventory, m: Move, setting: Setting, quotes: seq<QuoteEntry>, a: Address, d: Position, c: Position)
    requires Completes(inv, m, setting, quotes) && a in Affected(inv, m) && Candidate(inv, m, a, d, c)
    ensures StakeOf(inv, m, setting, a, d, c).Ok? && PairQuote(quotes, d.asset, c.asset).Ok?
    ensures Exact(Priced(StakeOf(inv, m, setting, a, d, c).value, PairQuote(quotes, d.asset, c.asset).value,
                         setting.checkpointBlock, setting.checkpointHash))
  {
    ItemListed(inv, m, Pricing(inv, m, setting, quotes), Affected(inv, m), a, d, c);
  }

  lemma StakesOk(inv: Inventory, m: Move, setting: Setting, quotes: seq<QuoteEntry>)
    requires Completes(inv, m, setting, quotes)
    ensures Stakes(inv, m, setting).Ok?
  {
    TurnsIff(inv, m, Pricing(inv, m, setting, quotes), Affected(inv, m));
    forall a, d, c | a in Affected(inv, m) && Candidate(inv, m, a, d, c)
      ensures Staking(inv, m, setting)(a, d, c).Ok?
    {
      CandidateExact(inv, m, setting, quotes, a, d, c);
    }
    TurnsIff(inv, m, Staking(inv, m, setting), Affected(inv, m));
  }

  lemma StakeQuoted(inv: Inventory, m: Move, setting: Setting, quotes: seq<QuoteEntry>, s: Stake)
    requires Completes(inv, m, setting, quotes)
    requires Stakes(inv, m, setting).Ok? && s in Stakes(inv, m, setting).value.items
    ensures Payable(s) && Quoted(quotes, s.debtAsset, s.collateralAsset) != []
    ensures Quoted(quotes, s.debtAsset, s.collateralAsset)[0].unwindInput == Claim(s)
  {
    var a, d, c := ItemSource(inv, m, Staking(inv, m, setting), Affected(inv, m), s);
    CandidateExact(inv, m, setting, quotes, a, d, c);
    StakeLabels(inv, m, setting, a, d, c);
    ExactStake(s, PairQuote(quotes, d.asset, c.asset).value, setting.checkpointBlock, setting.checkpointHash);
  }

  lemma CompletesAgree(inv: Inventory, m: Move, setting: Setting, quotes: seq<QuoteEntry>)
    requires Completes(inv, m, setting, quotes)
    ensures Stakes(inv, m, setting).Ok?
    ensures AllPayable(Stakes(inv, m, setting).value.items) && Agree(Stakes(inv, m, setting).value.items)
  {
    StakesOk(inv, m, setting, quotes);
    var stakes := Stakes(inv, m, setting).value.items;
    forall s | s in stakes
      ensures Payable(s) && Quoted(quotes, s.debtAsset, s.collateralAsset) != []
      ensures Quoted(quotes, s.debtAsset, s.collateralAsset)[0].unwindInput == Claim(s)
    {
      StakeQuoted(inv, m, setting, quotes, s);
    }
  }

  function TotalRepay(stakes: seq<Stake>): nat {
    if stakes == [] then 0 else RepayOf(stakes[0]) + TotalRepay(stakes[1..])
  }

  lemma {:induction false} RepayWithin(stakes: seq<Stake>, s: Stake)
    requires s in stakes
    ensures RepayOf(s) <= TotalRepay(stakes)
  {
    if s != stakes[0] {
      RepayWithin(stakes[1..], s);
    }
  }

  /** A quote for the claim of a stake, with enough to borrow for all of them. */
  function Offer(flash: nat, blockNumber: nat, blockHash: nat): Stake -> PairEconomics.Quote {
    s => FreeQuote(flash, if Claim(s) >= 0 then Claim(s) else 0, blockNumber, blockHash)
  }

  function Offers(stakes: seq<Stake>, blockNumber: nat, blockHash: nat): seq<QuoteEntry> {
    QuotesFor(stakes, Offer(TotalRepay(stakes), blockNumber, blockHash))
  }

  lemma OfferExact(stakes: seq<Stake>, s: Stake, blockNumber: nat, blockHash: nat)
    requires AllPayable(stakes) && Agree(stakes) && s in stakes
    ensures PairQuote(Offers(stakes, blockNumber, blockHash), s.debtAsset, s.collateralAsset)
            == Ok(Some(FreeQuote(TotalRepay(stakes), Claim(s), blockNumber, blockHash)))
    ensures Exact(Priced(s, Some(FreeQuote(TotalRepay(stakes), Claim(s), blockNumber, blockHash)), blockNumber,
            blockHash))
  {
    QuotesForFit(stakes, Offer(TotalRepay(stakes), blockNumber, blockHash), s);
    RepayWithin(stakes, s);
    FreeQuoteFits(s, TotalRepay(stakes), blockNumber, blockHash);
  }

  lemma CandidateOffered(inv: Inventory, m: Move, setting: Setting, a: Address, d: Position, c: Position)
    requires Stakes(inv, m, setting).Ok? && a in Affected(inv, m) && Candidate(inv, m, a, d, c)
    requires AllPayable(Stakes(inv, m, setting).value.items) && Agree(Stakes(inv, m, setting).value.items)
    ensures var quotes := Offers(Stakes(inv, m, setting).value.items, setting.checkpointBlock, setting.checkpointHash);
            Exact(AssessPair(inv, m, setting, quotes, a, d, c))
  {
    ItemListed(inv, m, Staking(inv, m, setting), Affected(inv, m), a, d, c);
    StakeLabels(inv, m, setting, a, d, c);
    OfferExact(Stakes(inv, m, setting).value.items, StakeOf(inv, m, setting, a, d, c).value,
               setting.checkpointBlock, setting.checkpointHash);
  }

  lemma OffersComplete(inv: Inventory, m: Move, setting: Setting)
    requires Stakes(inv, m, setting).Ok?
    requires AllPayable(Stakes(inv, m, setting).value.items) && Agree(Stakes(inv, m, setting).value.items)
    ensures Completes(inv, m, setting,
                      Offers(Stakes(inv, m, setting).value.items, setting.checkpointBlock, setting.checkpointHash))
  {
    var quotes := Offers(Stakes(inv, m, setting).value.items, setting.checkpointBlock, setting.checkpointHash);
    var f := Pricing(inv, m, setting, quotes);
    TurnsIff(inv, m, Staking(inv, m, setting), Affected(inv, m));
    forall a, d, c | a in Affected(inv, m) && Candidate(inv, m, a, d, c) ensures Exact(f(a, d, c)) {
      CandidateOffered(inv, m, setting, a, d, c);
    }
    TurnsIff(inv, m, f, Affected(inv, m));
    AllItemsExact(inv, m, f);
  }

  lemma AllItemsExact(inv: Inventory, m: Move, f: Assess<PairRecord>)
    requires Turns(inv, m, f, Affected(inv, m)).Ok?
    requires forall a, d, c :: a in Affected(inv, m) && Candidate(inv, m, a, d, c) ==> Exact(f(a, d, c))
    ensures AllExact(Turns(inv, m, f, Affected(inv, m)).value.items)
  {
    var items := Turns(inv, m, f, Affected(inv, m)).value.items;
    forall i | 0 <= i < |items| ensures items[i].economics.ExactFullCost? {
      var a, d, c := ItemSource(inv, m, f, Affected(inv, m), items[i]);
    }
  }

  /**
   * Some quotes make the result complete if and only if the evaluation gets to its loop, every stake is payable, and
   * stakes in the same two assets, of whichever borrowers, would sell the same amount.
   */
  lemma QuotableIff(inv: Inventory, m: Move, setting: Setting)
    ensures (exists quotes :: EndsComplete(inv, m, setting, quotes)) <==>
            && Evaluable(inv, m) && Stakes(inv, m, setting).Ok?
            && AllPayable(Stakes(inv, m, setting).value.items) && Agree(Stakes(inv, m, setting).value.items)
  {
    if quotes :| EndsComplete(inv, m, setting, quotes) {
      EndsCompleteIff(inv, m, setting, quotes);
      CompletesAgree(inv, m, setting, quotes);
    }
    if Evaluable(inv, m) && Stakes(inv, m, setting).Ok? &&
       AllPayable(Stakes(inv, m, setting).value.items) && Agree(Stakes(inv, m, setting).value.items) {
      OffersComplete(inv, m, setting);
      EndsCompleteIff(inv, m, setting,
                      Offers(Stakes(inv, m, setting).value.items, setting.checkpointBlock, setting.checkpointHash));
    }
  }

  /** Two candidates in the same assets that would sell different amounts: no quotes complete the result. */
  lemma DisagreementBlocks(
      inv: Inventory, m: Move, setting: Setting, a: Address, d: Position, c: Position, s: Stake,
      a': Address, d': Position, c': Position, s': Stake)
    requires a in Affected(inv, m) && Candidate(inv, m, a, d, c) && StakeOf(inv, m, setting, a, d, c) == Ok(s)
    requires a' in Affected(inv, m) && Candidate(inv, m, a', d', c') && StakeOf(inv, m, setting, a', d', c') == Ok(s')
    requires SameAssets(s, s') && Claim(s) != Claim(s')
    ensures forall quotes :: !Completes(inv, m, setting, quotes)
  {
    forall quotes ensures !Completes(inv, m, setting, quotes) {
      if Completes(inv, m, setting, quotes) {
        CompletesAgree(inv, m, setting, quotes);
        ItemListed(inv, m, Staking(inv, m, setting), Affected(inv, m), a, d, c);
        ItemListed(inv, m, Staking(inv, m, setting), Affected(inv, m), a', d', c');
        assert false;
      }
    }
  }

  lemma StakesAmong(inv: Inventory, m: Move, setting: Setting, s: Stake, t: Stake)
    requires forall a :: a in Affected(inv, m) ==> Factors(inv, m, a).Ok?
    requires forall a, d, c :: a in Affected(inv, m) && Candidate(inv, m, a, d, c) ==>
               StakeOf(inv, m, setting, a, d, c) == Ok(s) || StakeOf(inv, m, setting, a, d, c) == Ok(t)
    ensures Stakes(inv, m, setting).Ok? && forall u :: u in Stakes(inv, m, setting).value.items ==> u == s || u == t
  {
    TurnsIff(inv, m, Staking(inv, m, setting), Affected(inv, m));
    forall u | u in Stakes(inv, m, setting).value.items ensures u == s || u == t {
      var a, d, c := ItemSource(inv, m, Staking(inv, m, setting), Affected(inv, m), u);
    }
  }

  // ----- Two borrowers in one asset -----

  /** As much owed as supplied. */
  function Owing(units: nat): Position { Position(0, Some(units), true, Some(units), 0, 0) }

  function TwoBorrowers(x: nat, y: nat): Inventory {
    Inventory(
      map[0 := Reserve(0, 0, Some(0))], map[],
      [Borrower(0, 0, [Owing(x)], true), Borrower(1, 0, [Owing(y)], true)], map[0 := {0, 1}], true)
  }

  function HalvedPrice(): Move { Move(0, 0, 2, 1, map[]) }

  function PlainSetting(): Setting {
    Setting(_ => Terms(Some(10_000), Some(0), true, false, Some(0)), _ => None, CloseFactorRules(0, 0, 0, 0), 1, 0, 1)
  }

  function PlainStake(a: Address, units: nat): Stake {
    Stake(a, 0, 0, Pair(units, 1, 0, units, 1, 0, units, 0, CloseFactorRules(0, 0, 0, 0), 10_000, 0), true, true)
  }

  lemma PlainStakeClaims(a: Address, units: nat)
    requires units >= 1
    ensures Payable(PlainStake(a, units)) && Claim(PlainStake(a, units)) == units
  {
    assert PercentMulFloor(units, 10_000) == units;
    UnitPairAmounts(PlainStake(a, units).pair);
  }

  lemma TwoBorrowersIndexed(x: nat, y: nat)
    ensures WellIndexed(TwoBorrowers(x, y)) && EachAssetOnce(TwoBorrowers(x, y))
  {
    var inv := TwoBorrowers(x, y);
    assert inv.borrowers[0].positions[0] == Owing(x) && inv.borrowers[1].positions[0] == Owing(y);
  }

  lemma TwoBorrowersMap(x: nat, y: nat)
    ensures BorrowerMap(TwoBorrowers(x, y).borrowers)
            == map[0 := Borrower(0, 0, [Owing(x)], true), 1 := Borrower(1, 0, [Owing(y)], true)]
  {
    var borrowers := TwoBorrowers(x, y).borrowers;
    assert borrowers[..1] == [borrowers[0]] && [borrowers[0]][..0] == [];
    assert BorrowerMap([borrowers[0]]) == map[0 := borrowers[0]];
  }

  lemma OwingSums(units: nat, reserves: map<Asset, Reserve>, prices: Prices)
    requires 0 in reserves && reserves[0] == Reserve(0, 0, Some(0)) && units >= 1 && 0 in prices && prices[0] >= 1
    ensures Sum([Owing(units)], reserves, None, prices).Ok?
    ensures prices[0] == 1 ==> Sum([Owing(units)], reserves, None, prices) == Ok(Totals(units, units, 0))
  {
    SumAlone(Owing(units), reserves, None, prices);
    if prices[0] == 1 {
      UnitPosition(Owing(units), reserves, prices, units, units, 0);
    }
  }

  lemma NothingWeighted(units: nat)
    requires units >= 1
    ensures HealthFactor(0, units) == 0
  {
    assert 0 * WAD + units / 2 < units;
  }

  /** Any borrower who owes as much as they supply, where collateral counts nothing. */
  lemma OwingStake(inv: Inventory, a: Address, units: nat)
    requires inv.reserves == map[0 := Reserve(0, 0, Some(0))] && inv.emodes == map[] && units >= 1
    requires a in BorrowerMap(inv.borrowers) && BorrowerMap(inv.borrowers)[a] == Borrower(a, 0, [Owing(units)], true)
    ensures Liquidatable(inv, HalvedPrice(), a)
    ensures forall d, c :: Candidate(inv, HalvedPrice(), a, d, c) <==> d == c == Owing(units)
    ensures StakeOf(inv, HalvedPrice(), PlainSetting(), a, Owing(units), Owing(units)) == Ok(PlainStake(a, units))
  {
    OwingSums(units, inv.reserves, Before(HalvedPrice()));
    OwingSums(units, inv.reserves, After(HalvedPrice()));
    NothingWeighted(units);
    assert [Owing(units)][0] == Owing(units);
  }

  /** What matters of the two borrowers: who they are and that the move reaches both. */
  ghost predicate OnlyTwo(inv: Inventory, x: nat, y: nat) {
    && inv.reserves == map[0 := Reserve(0, 0, Some(0))] && inv.emodes == map[] && inv.complete
    && BorrowerMap(inv.borrowers) == map[0 := Borrower(0, 0, [Owing(x)], true), 1 := Borrower(1, 0, [Owing(y)], true)]
    && Indexed(inv.feedIndex, 0) == {0, 1}
  }

  lemma StakeOfEither(inv: Inventory, x: nat, y: nat, a: Address, d: Position, c: Position)
    requires OnlyTwo(inv, x, y) && x >= 1 && y >= 1 && a in Affected(inv, HalvedPrice())
    ensures Factors(inv, HalvedPrice(), a).Ok?
    ensures Candidate(inv, HalvedPrice(), a, d, c) ==>
              StakeOf(inv, HalvedPrice(), PlainSetting(), a, d, c) == Ok(PlainStake(0, x)) ||
              StakeOf(inv, HalvedPrice(), PlainSetting(), a, d, c) == Ok(PlainStake(1, y))
  {
    OwingStake(inv, a, if a == 0 then x else y);
  }

  lemma TwoStakes(inv: Inventory, x: nat, y: nat)
    requires OnlyTwo(inv, x, y) && x >= 1 && y >= 1
    ensures Stakes(inv, HalvedPrice(), PlainSetting()).Ok?
    ensures forall s :: s in Stakes(inv, HalvedPrice(), PlainSetting()).value.items ==>
              s == PlainStake(0, x) || s == PlainStake(1, y)
  {
    var m, setting := HalvedPrice(), PlainSetting();
    forall a | a in Affected(inv, m) ensures Factors(inv, m, a).Ok? {
      StakeOfEither(inv, x, y, a, Owing(x), Owing(x));
    }
    forall a, d, c | a in Affected(inv, m) && Candidate(inv, m, a, d, c)
      ensures StakeOf(inv, m, setting, a, d, c) == Ok(PlainStake(0, x)) ||
              StakeOf(inv, m, setting, a, d, c) == Ok(PlainStake(1, y))
    {
      StakeOfEither(inv, x, y, a, d, c);
    }
    StakesAmong(inv, m, setting, PlainStake(0, x), PlainStake(1, y));
  }

  lemma TwoPayable(stakes: seq<Stake>, s: Stake, t: Stake)
    requires Payable(s) && Payable(t) && forall u :: u in stakes ==> u == s || u == t
    ensures AllPayable(stakes)
  {}

  lemma BothPayable(inv: Inventory, x: nat, y: nat)
    requires OnlyTwo(inv, x, y) && x >= 1 && y >= 1
    ensures Stakes(inv, HalvedPrice(), PlainSetting()).Ok?
    ensures AllPayable(Stakes(inv, HalvedPrice(), PlainSetting()).value.items)
  {
    TwoStakes(inv, x, y);
    PlainStakeClaims(0, x);
    PlainStakeClaims(1, y);
    TwoPayable(Stakes(inv, HalvedPrice(), PlainSetting()).value.items, PlainStake(0, x), PlainStake(1, y));
  }

  lemma NoQuotesForBoth(inv: Inventory, x: nat, y: nat)
    requires OnlyTwo(inv, x, y) && 1 <= x && 1 <= y && x != y
    ensures forall quotes :: !Completes(inv, HalvedPrice(), PlainSetting(), quotes)
  {
    OwingStake(inv, 0, x);
    OwingStake(inv, 1, y);
    PlainStakeClaims(0, x);
    PlainStakeClaims(1, y);
    DisagreementBlocks(inv, HalvedPrice(), PlainSetting(),
                       0, Owing(x), Owing(x), PlainStake(0, x), 1, Owing(y), Owing(y), PlainStake(1, y));
  }

  /** Two borrowers owe different amounts of one asset: each stake is payable, and no quotes complete the result. */
  lemma SharedAssetsExample(x: nat, y: nat)
    requires 1 <= x && 1 <= y && x != y
    ensures var inv, m, setting := TwoBorrowers(x, y), HalvedPrice(), PlainSetting();
            && WellIndexed(inv) && EachAssetOnce(inv) && Evaluable(inv, m)
            && Stakes(inv, m, setting).Ok? && AllPayable(Stakes(inv, m, setting).value.items)
            && forall quotes :: !EndsComplete(inv, m, setting, quotes)
  {
    TwoBorrowersIndexed(x, y);
    TwoBorrowersMap(x, y);
    BothPayable(TwoBorrowers(x, y), x, y);
    NoQuotesForBoth(TwoBorrowers(x, y), x, y);
    forall quotes ensures !EndsComplete(TwoBorrowers(x, y), HalvedPrice(), PlainSetting(), quotes) {
      EndsCompleteIff(TwoBorrowers(x, y), HalvedPrice(), PlainSetting(), quotes);
    }
  }
}
