/** Balances rebuilt from a transcript's events (`_adjust`, `_apply_event`, `build_inventory`). */
module Replay {
  import opened Identifiers
  import opened Results
  import opened Transcript

  const ZERO_ADDRESS: Address := 0

  datatype Balances = Balances(supply: map<Asset, int>, variableDebt: map<Asset, int>, stableDebt: map<Asset, int>)
  {
    function Of(token: Token): map<Asset, int> {
      match token case Supply => supply case VariableDebt => variableDebt case StableDebt => stableDebt
    }

    function With(token: Token, balances: map<Asset, int>): Balances {
      match token
      case Supply => this.(supply := balances)
      case VariableDebt => this.(variableDebt := balances)
      case StableDebt => this.(stableDebt := balances)
    }
  }

  datatype Borrower = Borrower(
    balances: Balances, collateralEnabled: map<Asset, bool>, emode: nat, configuration: Option<(int, Hash)>)

  /** A reserve's market data; what the market file leaves open is None until an event sets it. */
  datatype Reserve = Reserve(
    priceFeed: nat, decimals: nat,
    id: Option<nat>, thresholdBps: Option<nat>, bonusBps: Option<nat>, feeBps: Option<nat>,
    liquidityIndex: Option<nat>, variableBorrowIndex: Option<nat>)

  datatype State = State(borrowers: map<Address, Borrower>, reserves: map<Asset, Reserve>)

  datatype ReplayError =
    UnknownReserve | MissingAddress | RoleUndeclared | InvalidAmount | NegativeBalance | UnhandledKind

  const EMPTY := Borrower(Balances(map[], map[], map[]), map[], 0, None)

  /** `_borrower`: the entry of an address, made empty on first mention. */
  function Entry(borrowers: map<Address, Borrower>, a: Address): Borrower {
    if a in borrowers then borrowers[a] else EMPTY
  }

  function Mention(borrowers: map<Address, Borrower>, a: Address): map<Address, Borrower> {
    borrowers[a := Entry(borrowers, a)]
  }

  function MentionAll(borrowers: map<Address, Borrower>, parties: seq<Address>): map<Address, Borrower> {
    if parties == [] then borrowers
    else Mention(MentionAll(borrowers, parties[..|parties| - 1]), parties[|parties| - 1])
  }

  function Held(balances: map<Asset, int>, asset: Asset): int {
    if asset in balances then balances[asset] else 0
  }

  /** `_adjust`: a balance of zero is removed, a negative one is an error. */
  function Adjusted(balances: map<Asset, int>, asset: Asset, delta: int): Result<map<Asset, int>, ReplayError> {
    var updated := Held(balances, asset) + delta;
    if updated < 0 then Err(NegativeBalance)
    else if updated == 0 then Ok(balances - {asset})
    else Ok(balances[asset := updated])
  }

  function Post(borrowers: map<Address, Borrower>, a: Address, token: Token, asset: Asset, delta: int)
    : Result<map<Address, Borrower>, ReplayError>
  {
    var item := Entry(borrowers, a);
    var balances :- Adjusted(item.balances.Of(token), asset, delta);
    Ok(borrowers[a := item.(balances := item.balances.With(token, balances))])
  }

  /** One balance: an owner's holding of one token of one asset. */
  datatype Account = Account(owner: Address, token: Token, asset: Asset)

  function Present(fields: seq<Option<Address>>): seq<Address> {
    if fields == [] then []
    else
      var rest := Present(fields[..|fields| - 1]);
      match fields[|fields| - 1]
      case None => rest
      case Some(a) => if a == ZERO_ADDRESS then rest else rest + [a]
  }

  function Needed(field: Option<Address>): Result<Address, ReplayError> {
    match field case None => Err(MissingAddress) case Some(a) => Ok(a)
  }

  /** Stable debt counts the raw adjusted amount, the other tokens the scaled amount. */
  function TokenAmount(e: Body): int
    requires e.TokenEvent?
  {
    if e.token.StableDebt? then e.adjustedAmount else e.scaledAmount
  }

  function ApplyToken(borrowers: map<Address, Borrower>, e: Body): Result<map<Address, Borrower>, ReplayError>
    requires e.TokenEvent?
  {
    if e.role.Mirror? then Ok(MentionAll(borrowers, Present([e.sender, e.receiver, e.user, e.onBehalfOf])))
    else if !e.role.Primary? then Err(RoleUndeclared)
    else if e.scaledAmount < 1 then Err(InvalidAmount)
    else
      match e.action
      case Mint =>
        var target :- Needed(if e.onBehalfOf.Some? then e.onBehalfOf else e.user);
        if TokenAmount(e) < 1 then Err(InvalidAmount) else Post(borrowers, target, e.token, e.asset, TokenAmount(e))
      case Burn =>
        var holder :- Needed(e.user);
        if TokenAmount(e) < 1 then Err(InvalidAmount) else Post(borrowers, holder, e.token, e.asset, -TokenAmount(e))
      case Transfer =>
        var source :- Needed(e.sender);
        var target :- Needed(e.receiver);
        var mentioned := MentionAll(borrowers, [source, target]);
        Exchange(mentioned, Account(source, e.token, e.asset), Account(target, e.token, e.asset), e.scaledAmount)
  }

  /** A debit, then a credit of the same amount; source and target may be one account. */
  function Exchange(borrowers: map<Address, Borrower>, source: Account, target: Account, amount: int)
    : Result<map<Address, Borrower>, ReplayError>
  {
    var debited :- Post(borrowers, source.owner, source.token, source.asset, -amount);
    Post(debited, target.owner, target.token, target.asset, amount)
  }

  function Apply(s: State, e: Event): Result<State, ReplayError> {
    match e.body
    case PoolEvidence(parties, assets) =>
      if exists a :: a in assets && a !in s.reserves then Err(UnknownReserve)
      else Ok(s.(borrowers := MentionAll(s.borrowers, parties)))
    case ReserveConfiguration(asset, id, threshold, bonus, fee) =>
      if asset !in s.reserves then Err(UnknownReserve)
      else if id < 0 || threshold < 0 || bonus < 0 || fee < 0 then Err(InvalidAmount)
      else
        var reserve := s.reserves[asset].(
          id := Some(id), thresholdBps := Some(threshold), bonusBps := Some(bonus), feeBps := Some(fee));
        Ok(s.(reserves := s.reserves[asset := reserve]))
    case ReserveDataUpdated(asset, liquidity, variableBorrow) =>
      if asset !in s.reserves then Err(UnknownReserve)
      else if liquidity < 1 || variableBorrow < 1 then Err(InvalidAmount)
      else
        var reserve :=
          s.reserves[asset].(liquidityIndex := Some(liquidity), variableBorrowIndex := Some(variableBorrow));
        Ok(s.(reserves := s.reserves[asset := reserve]))
    case CollateralFlag(asset, user, enabled) =>
      if asset !in s.reserves then Err(UnknownReserve)
      else
        var a :- Needed(user);
        var item := Entry(s.borrowers, a);
        Ok(s.(borrowers := s.borrowers[a := item.(collateralEnabled := item.collateralEnabled[asset := enabled])]))
    case EmodeSet(user, category) =>
      var a :- Needed(user);
      if category < 0 then Err(InvalidAmount)
      else Ok(s.(borrowers := s.borrowers[a := Entry(s.borrowers, a).(emode := category)]))
    case ConfigurationSnapshot(user, bitmap) =>
      var a :- Needed(user);
      if bitmap < 0 then Err(InvalidAmount)
      else
        var item := Entry(s.borrowers, a);
        Ok(s.(borrowers := s.borrowers[a := item.(configuration := Some((bitmap, e.blockHash)))]))
    case TokenEvent(_, _, asset, _, _, _, _, _, _, _) =>
      if asset !in s.reserves then Err(UnknownReserve)
      else
        var borrowers :- ApplyToken(s.borrowers, e.body);
        Ok(s.(borrowers := borrowers))
    case Unsupported => Err(UnhandledKind)
  }

  function Replayed(s: State, events: seq<Event>): Result<State, ReplayError> {
    if events == [] then Ok(s)
    else
      var before :- Replayed(s, events[..|events| - 1]);
      Apply(before, events[|events| - 1])
  }

  // ---- What the events say, account by account ----

  ghost function Balance(borrowers: map<Address, Borrower>, c: Account): int {
    Held(Entry(borrowers, c.owner).balances.Of(c.token), c.asset)
  }

  ghost predicate Moves(e: Body, token: Token, asset: Asset) {
    e.TokenEvent? && e.role.Primary? && e.token == token && e.asset == asset
  }

  /** The adjusted amount of stable debt, the scaled amount of the other tokens. */
  ghost function Counted(e: Body): int
    requires e.TokenEvent?
  {
    match e.token
    case Supply => e.scaledAmount
    case VariableDebt => e.scaledAmount
    case StableDebt => e.adjustedAmount
  }

  ghost function Credit(e: Body, c: Account): int {
    if !Moves(e, c.token, c.asset) then 0
    else if e.action.Mint? && (if e.onBehalfOf.Some? then e.onBehalfOf else e.user) == Some(c.owner) then Counted(e)
    else if e.action.Transfer? && e.receiver == Some(c.owner) then e.scaledAmount
    else 0
  }

  ghost function Debit(e: Body, c: Account): int {
    if !Moves(e, c.token, c.asset) then 0
    else if e.action.Burn? && e.user == Some(c.owner) then Counted(e)
    else if e.action.Transfer? && e.sender == Some(c.owner) then e.scaledAmount
    else 0
  }

  ghost function NetFlow(events: seq<Event>, c: Account): int {
    if events == [] then 0
    else
      var last := events[|events| - 1].body;
      NetFlow(events[..|events| - 1], c) + Credit(last, c) - Debit(last, c)
  }

  /** Mints minus burns: transfers and mirrored events do not count. */
  ghost function Issued(events: seq<Event>, token: Token, asset: Asset): int {
    if events == [] then 0
    else Issued(events[..|events| - 1], token, asset) + Issue(events[|events| - 1].body, token, asset)
  }

  ghost function Issue(e: Body, token: Token, asset: Asset): int {
    if !Moves(e, token, asset) || e.action.Transfer? then 0
    else if e.action.Mint? then Counted(e) else -Counted(e)
  }

  /** One token and asset, as a function of the owner. */
  ghost function Column(borrowers: map<Address, Borrower>, token: Token, asset: Asset): Address -> int {
    (a: Address) => Balance(borrowers, Account(a, token, asset))
  }

  ghost function Total(borrowers: map<Address, Borrower>, token: Token, asset: Asset): int {
    Sum(borrowers.Keys, Column(borrowers, token, asset))
  }

  /** What an event needs regardless of balances: known reserves, its addresses and positive amounts. */
  ghost predicate WellPosed(e: Body, reserves: set<Asset>) {
    match e
    case PoolEvidence(_, assets) => forall a :: a in assets ==> a in reserves
    case ReserveConfiguration(asset, id, threshold, bonus, fee) =>
      asset in reserves && id >= 0 && threshold >= 0 && bonus >= 0 && fee >= 0
    case ReserveDataUpdated(asset, liquidity, variableBorrow) =>
      asset in reserves && liquidity >= 1 && variableBorrow >= 1
    case CollateralFlag(asset, user, _) => asset in reserves && user.Some?
    case EmodeSet(user, category) => user.Some? && category >= 0
    case ConfigurationSnapshot(user, bitmap) => user.Some? && bitmap >= 0
    case TokenEvent(_, _, asset, role, _, _, _, _, _, _) =>
      asset in reserves && !role.Undeclared? && (role.Primary? ==> PrimaryPosed(e))
    case Unsupported => false
  }

  ghost predicate PrimaryPosed(e: Body)
    requires e.TokenEvent?
  {
    && e.scaledAmount >= 1
    && (e.token.StableDebt? && !e.action.Transfer? ==> e.adjustedAmount >= 1)
    && match e.action
       case Mint => e.onBehalfOf.Some? || e.user.Some?
       case Burn => e.user.Some?
       case Transfer => e.sender.Some? && e.receiver.Some?
  }

  /** No stored balance is zero or negative. */
  ghost predicate Positive(borrowers: map<Address, Borrower>) {
    forall a :: a in borrowers ==> PositiveBalances(borrowers[a].balances)
  }

  ghost predicate PositiveBalances(b: Balances) {
    forall token :: PositiveMap(b.Of(token))
  }

  ghost predicate PositiveMap(balances: map<Asset, int>) {
    forall x :: x in balances ==> balances[x] > 0
  }

  // ---- One step ----

  lemma AdjustedEffect(balances: map<Asset, int>, asset: Asset, delta: int)
    requires PositiveMap(balances)
    ensures var r := Adjusted(balances, asset, delta);
            && (r.Ok? <==> Held(balances, asset) + delta >= 0)
            && (r.Ok? ==> PositiveMap(r.value))
            && (r.Ok? ==> forall x :: Held(r.value, x) == Held(balances, x) + if x == asset then delta else 0)
  {}

  lemma PostEffect(borrowers: map<Address, Borrower>, c: Account, delta: int)
    requires Positive(borrowers)
    ensures var r := Post(borrowers, c.owner, c.token, c.asset, delta);
            && (r.Ok? <==> Balance(borrowers, c) + delta >= 0)
            && (r.Ok? ==> Positive(r.value))
            && (r.Ok? ==> forall d :: Balance(r.value, d) == Balance(borrowers, d) + if d == c then delta else 0)
  {
    var b := Entry(borrowers, c.owner).balances;
    assert PositiveBalances(b);
    AdjustedEffect(b.Of(c.token), c.asset, delta);
    var adjusted := Adjusted(b.Of(c.token), c.asset, delta);
    if adjusted.Ok? {
      assert forall t :: b.With(c.token, adjusted.value).Of(t) == if t == c.token then adjusted.value else b.Of(t);
      assert PositiveBalances(b.With(c.token, adjusted.value));
    }
  }

  lemma {:induction false} MentionEffect(borrowers: map<Address, Borrower>, parties: seq<Address>)
    requires Positive(borrowers)
    ensures var m := MentionAll(borrowers, parties);
            Positive(m) && forall d :: Balance(m, d) == Balance(borrowers, d)
  {
    if parties != [] {
      MentionEffect(borrowers, parties[..|parties| - 1]);
    }
  }

  /** No account is debited more than it holds. */
  ghost predicate Covered(e: Body, borrowers: map<Address, Borrower>) {
    forall d :: Debit(e, d) <= Balance(borrowers, d)
  }

  /** The book moved by exactly the event's credits and debits, and stores positive balances only. */
  ghost predicate Moved(e: Body, before: map<Address, Borrower>, after: map<Address, Borrower>) {
    Positive(after) && forall d :: Balance(after, d) == Balance(before, d) + Credit(e, d) - Debit(e, d)
  }

  /**
   * A token event is applied exactly when it is well posed and its debit is covered, and moves exactly what it says.
   */
  lemma TokenEffect(borrowers: map<Address, Borrower>, e: Body)
    requires e.TokenEvent? && Positive(borrowers)
    ensures ApplyToken(borrowers, e).Ok? <==>
            !e.role.Undeclared? && (e.role.Primary? ==> PrimaryPosed(e)) && Covered(e, borrowers)
    ensures ApplyToken(borrowers, e).Ok? ==> Moved(e, borrowers, ApplyToken(borrowers, e).value)
  {
    if e.role.Mirror? {
      NothingDebited(borrowers, e);
      MentionEffect(borrowers, Present([e.sender, e.receiver, e.user, e.onBehalfOf]));
    } else if e.role.Primary? && PrimaryPosed(e) {
      match e.action
      case Mint => MintEffect(borrowers, e);
      case Burn => BurnEffect(borrowers, e);
      case Transfer => TransferEffect(borrowers, e);
    }
  }

  lemma NotNegative(borrowers: map<Address, Borrower>, c: Account)
    requires Positive(borrowers)
    ensures Balance(borrowers, c) >= 0
  {
    assert PositiveBalances(Entry(borrowers, c.owner).balances);
  }

  /** Balances are never negative, so an event that debits nobody is covered. */
  lemma NothingDebited(borrowers: map<Address, Borrower>, e: Body)
    requires Positive(borrowers) && forall d :: Debit(e, d) == 0
    ensures Covered(e, borrowers)
  {
    forall d ensures Balance(borrowers, d) >= 0 {
      NotNegative(borrowers, d);
    }
  }

  lemma MintEffect(borrowers: map<Address, Borrower>, e: Body)
    requires e.TokenEvent? && Positive(borrowers) && e.role.Primary? && PrimaryPosed(e) && e.action.Mint?
    ensures Covered(e, borrowers) && ApplyToken(borrowers, e).Ok? && Moved(e, borrowers, ApplyToken(borrowers, e).value)
  {
    NothingDebited(borrowers, e);
    var target := if e.onBehalfOf.Some? then e.onBehalfOf.value else e.user.value;
    PostEffect(borrowers, Account(target, e.token, e.asset), TokenAmount(e));
    NotNegative(borrowers, Account(target, e.token, e.asset));
  }

  lemma BurnEffect(borrowers: map<Address, Borrower>, e: Body)
    requires e.TokenEvent? && Positive(borrowers) && e.role.Primary? && PrimaryPosed(e) && e.action.Burn?
    ensures ApplyToken(borrowers, e).Ok? <==> Covered(e, borrowers)
    ensures ApplyToken(borrowers, e).Ok? ==> Moved(e, borrowers, ApplyToken(borrowers, e).value)
  {
    var c := Account(e.user.value, e.token, e.asset);
    PostEffect(borrowers, c, -TokenAmount(e));
    CoveredAt(borrowers, e, c, TokenAmount(e));
  }

  /** An event that debits one account is covered exactly when that account holds the amount. */
  lemma CoveredAt(borrowers: map<Address, Borrower>, e: Body, c: Account, amount: nat)
    requires Positive(borrowers) && forall d :: Debit(e, d) == if d == c then amount else 0
    ensures Covered(e, borrowers) <==> amount <= Balance(borrowers, c)
  {
    forall d ensures Balance(borrowers, d) >= 0 {
      NotNegative(borrowers, d);
    }
    assert Debit(e, c) == amount;
  }

  lemma TransferEffect(borrowers: map<Address, Borrower>, e: Body)
    requires e.TokenEvent? && Positive(borrowers) && e.role.Primary? && PrimaryPosed(e) && e.action.Transfer?
    ensures ApplyToken(borrowers, e).Ok? <==> Covered(e, borrowers)
    ensures ApplyToken(borrowers, e).Ok? ==> Moved(e, borrowers, ApplyToken(borrowers, e).value)
  {
    var source, target := Account(e.sender.value, e.token, e.asset), Account(e.receiver.value, e.token, e.asset);
    var mentioned := MentionAll(borrowers, [source.owner, target.owner]);
    MentionEffect(borrowers, [source.owner, target.owner]);
    TwoPosts(mentioned, source, target, e.scaledAmount);
    CoveredAt(borrowers, e, source, e.scaledAmount);
  }

  lemma TwoPosts(borrowers: map<Address, Borrower>, source: Account, target: Account, amount: int)
    requires Positive(borrowers) && amount >= 0
    ensures var r := Exchange(borrowers, source, target, amount);
            && (r.Ok? <==> amount <= Balance(borrowers, source))
            && (r.Ok? ==> Exchanged(borrowers, r.value, source, target, amount))
  {
    PostEffect(borrowers, source, -amount);
    var debited := Post(borrowers, source.owner, source.token, source.asset, -amount);
    if debited.Ok? {
      SecondPost(borrowers, debited.value, source, target, amount);
      assert Exchange(borrowers, source, target, amount)
             == Post(debited.value, target.owner, target.token, target.asset, amount);
    }
  }

  ghost predicate Exchanged(
      before: map<Address, Borrower>, after: map<Address, Borrower>, source: Account, target: Account, amount: int)
  {
    && Positive(after)
    && forall d :: Balance(after, d) ==
         Balance(before, d) + (if d == target then amount else 0) - (if d == source then amount else 0)
  }

  lemma SecondPost(
      borrowers: map<Address, Borrower>, debited: map<Address, Borrower>, source: Account, target: Account, amount: int)
    requires Positive(debited) && amount >= 0
    requires forall d :: Balance(debited, d) == Balance(borrowers, d) - (if d == source then amount else 0)
    ensures var r := Post(debited, target.owner, target.token, target.asset, amount);
            r.Ok? && Exchanged(borrowers, r.value, source, target, amount)
  {
    NotNegative(debited, target);
    PostEffect(debited, target, amount);
  }

  lemma StepEffect(s: State, e: Event)
    requires Positive(s.borrowers)
    ensures Apply(s, e).Ok? <==> WellPosed(e.body, s.reserves.Keys) && Covered(e.body, s.borrowers)
    ensures Apply(s, e).Ok? ==>
              var after := Apply(s, e).value;
              after.reserves.Keys == s.reserves.Keys && Moved(e.body, s.borrowers, after.borrowers)
  {
    if e.body.TokenEvent? {
      TokenEffect(s.borrowers, e.body);
    } else {
      QuietEffect(s, e);
    }
  }

  /** Events that are no token events move no balance. */
  lemma QuietEffect(s: State, e: Event)
    requires Positive(s.borrowers) && !e.body.TokenEvent?
    ensures Covered(e.body, s.borrowers) && (Apply(s, e).Ok? <==> WellPosed(e.body, s.reserves.Keys))
    ensures Apply(s, e).Ok? ==>
              var after := Apply(s, e).value;
              after.reserves.Keys == s.reserves.Keys && Moved(e.body, s.borrowers, after.borrowers)
  {
    NothingDebited(s.borrowers, e.body);
    if Apply(s, e).Ok? {
      QuietBalances(s, e);
    }
  }

  lemma QuietBalances(s: State, e: Event)
    requires Positive(s.borrowers) && !e.body.TokenEvent? && Apply(s, e).Ok?
    ensures Positive(Apply(s, e).value.borrowers)
    ensures forall d :: Balance(Apply(s, e).value.borrowers, d) == Balance(s.borrowers, d)
  {
    if e.body.PoolEvidence? {
      MentionEffect(s.borrowers, e.body.parties);
    }
  }

  // ---- Every run ----

  /** From an empty book, every balance is the net flow of its account, and no stored balance is zero or negative. */
  lemma {:induction false} BalancesAreNetFlows(reserves: map<Asset, Reserve>, events: seq<Event>)
    requires Replayed(State(map[], reserves), events).Ok?
    ensures var s := Replayed(State(map[], reserves), events).value;
            && Positive(s.borrowers) && s.reserves.Keys == reserves.Keys
            && forall c :: Balance(s.borrowers, c) == NetFlow(events, c)
  {
    if events != [] {
      var front := events[..|events| - 1];
      BalancesAreNetFlows(reserves, front);
      StepEffect(Replayed(State(map[], reserves), front).value, events[|events| - 1]);
    }
  }

  // ---- What the events say of flags, categories, snapshots and reserves ----

  /** Whether the last collateral flag of the user for the asset enables it. */
  ghost function FlagOf(events: seq<Event>, a: Address, asset: Asset): bool {
    if events == [] then false
    else
      var last := events[|events| - 1].body;
      if last.CollateralFlag? && last.user == Some(a) && last.asset == asset then last.enabled
      else FlagOf(events[..|events| - 1], a, asset)
  }

  /** The category of the user's last eMode event, else 0. */
  ghost function EmodeOf(events: seq<Event>, a: Address): int {
    if events == [] then 0
    else
      var last := events[|events| - 1].body;
      if last.EmodeSet? && last.user == Some(a) then last.category else EmodeOf(events[..|events| - 1], a)
  }

  /** The bitmap of the user's last configuration snapshot and the hash of its block. */
  ghost function SnapshotOf(events: seq<Event>, a: Address): Option<(int, Hash)> {
    if events == [] then None
    else
      var last := events[|events| - 1];
      if last.body.ConfigurationSnapshot? && last.body.user == Some(a) then Some((last.body.bitmap, last.blockHash))
      else SnapshotOf(events[..|events| - 1], a)
  }

  /** The indexes of the asset's last data update, else those of the market. */
  ghost function IndexesOf(events: seq<Event>, asset: Asset, market: Reserve): (Option<int>, Option<int>) {
    if events == [] then (market.liquidityIndex, market.variableBorrowIndex)
    else
      var last := events[|events| - 1].body;
      if last.ReserveDataUpdated? && last.asset == asset then
        (Some(last.liquidityIndex), Some(last.variableBorrowIndex))
      else IndexesOf(events[..|events| - 1], asset, market)
  }

  /** Id, threshold, bonus and fee of the asset's last configuration, else those of the market. */
  ghost function TermsOf(events: seq<Event>, asset: Asset, market: Reserve)
    : (Option<int>, Option<int>, Option<int>, Option<int>)
  {
    if events == [] then (market.id, market.thresholdBps, market.bonusBps, market.feeBps)
    else
      var last := events[|events| - 1].body;
      if last.ReserveConfiguration? && last.asset == asset then
        (Some(last.reserveId), Some(last.thresholdBps), Some(last.bonusBps), Some(last.feeBps))
      else TermsOf(events[..|events| - 1], asset, market)
  }

  ghost predicate FlagOn(item: Borrower, asset: Asset) {
    asset in item.collateralEnabled && item.collateralEnabled[asset]
  }

  /** All of an entry but its balances. */
  ghost predicate SameRest(item: Borrower, item': Borrower) {
    && item.collateralEnabled == item'.collateralEnabled && item.emode == item'.emode
    && item.configuration == item'.configuration
  }

  ghost predicate KeepsRest(before: map<Address, Borrower>, after: map<Address, Borrower>) {
    forall a :: SameRest(Entry(before, a), Entry(after, a))
  }

  lemma {:induction false} MentionKeepsRest(borrowers: map<Address, Borrower>, parties: seq<Address>)
    ensures KeepsRest(borrowers, MentionAll(borrowers, parties))
  {
    if parties != [] {
      MentionKeepsRest(borrowers, parties[..|parties| - 1]);
    }
  }

  lemma PostKeepsRest(borrowers: map<Address, Borrower>, a: Address, token: Token, asset: Asset, delta: int)
    ensures Post(borrowers, a, token, asset, delta).Ok? ==>
              KeepsRest(borrowers, Post(borrowers, a, token, asset, delta).value)
  {}

  lemma TokenKeepsRest(borrowers: map<Address, Borrower>, e: Body)
    requires e.TokenEvent? && ApplyToken(borrowers, e).Ok?
    ensures KeepsRest(borrowers, ApplyToken(borrowers, e).value)
  {
    if e.role.Mirror? {
      MentionKeepsRest(borrowers, Present([e.sender, e.receiver, e.user, e.onBehalfOf]));
    } else if e.action.Mint? {
      var target := if e.onBehalfOf.Some? then e.onBehalfOf.value else e.user.value;
      PostKeepsRest(borrowers, target, e.token, e.asset, TokenAmount(e));
    } else if e.action.Burn? {
      PostKeepsRest(borrowers, e.user.value, e.token, e.asset, -TokenAmount(e));
    } else {
      var mentioned := MentionAll(borrowers, [e.sender.value, e.receiver.value]);
      MentionKeepsRest(borrowers, [e.sender.value, e.receiver.value]);
      PostKeepsRest(mentioned, e.sender.value, e.token, e.asset, -e.scaledAmount);
      var debited := Post(mentioned, e.sender.value, e.token, e.asset, -e.scaledAmount).value;
      PostKeepsRest(debited, e.receiver.value, e.token, e.asset, e.scaledAmount);
    }
  }

  /** The entry says what the events say of the user. */
  ghost predicate SaysOf(item: Borrower, events: seq<Event>, a: Address) {
    && item.emode == EmodeOf(events, a) && item.configuration == SnapshotOf(events, a)
    && forall asset :: FlagOn(item, asset) == FlagOf(events, a, asset)
  }

  ghost predicate ReserveSays(r: Reserve, events: seq<Event>, asset: Asset, market: Reserve) {
    && (r.liquidityIndex, r.variableBorrowIndex) == IndexesOf(events, asset, market)
    && (r.id, r.thresholdBps, r.bonusBps, r.feeBps) == TermsOf(events, asset, market)
    && r.priceFeed == market.priceFeed && r.decimals == market.decimals
  }

  lemma EntrySays(s: State, events: seq<Event>, a: Address)
    requires events != [] && Apply(s, events[|events| - 1]).Ok?
    requires SaysOf(Entry(s.borrowers, a), events[..|events| - 1], a)
    ensures SaysOf(Entry(Apply(s, events[|events| - 1]).value.borrowers, a), events, a)
  {
    var last := events[|events| - 1];
    if last.body.TokenEvent? {
      TokenKeepsRest(s.borrowers, last.body);
    } else if last.body.PoolEvidence? {
      MentionKeepsRest(s.borrowers, last.body.parties);
    }
    var item, item' := Entry(s.borrowers, a), Entry(Apply(s, last).value.borrowers, a);
    forall asset ensures FlagOn(item', asset) == FlagOf(events, a, asset) {
      assert FlagOn(item, asset) == FlagOf(events[..|events| - 1], a, asset);
    }
  }

  /** The addresses an event mentions: each gets an entry. */
  ghost function Mentions(e: Body): set<Address> {
    match e
    case PoolEvidence(parties, _) => set a | a in parties
    case CollateralFlag(_, user, _) => Named(user)
    case EmodeSet(user, _) => Named(user)
    case ConfigurationSnapshot(user, _) => Named(user)
    case TokenEvent(action, _, _, role, _, _, user, onBehalfOf, sender, receiver) =>
      if role.Mirror? then Named(sender) + Named(receiver) + Named(user) + Named(onBehalfOf) - {0}
      else if action.Mint? then (if onBehalfOf.Some? then Named(onBehalfOf) else Named(user))
      else if action.Burn? then Named(user)
      else Named(sender) + Named(receiver)
    case _ => {}
  }

  ghost function Named(field: Option<Address>): set<Address> {
    if field.Some? then {field.value} else {}
  }

  ghost function MentionedBy(events: seq<Event>): set<Address> {
    if events == [] then {} else MentionedBy(events[..|events| - 1]) + Mentions(events[|events| - 1].body)
  }

  lemma {:induction false} MentionKeys(borrowers: map<Address, Borrower>, parties: seq<Address>)
    ensures MentionAll(borrowers, parties).Keys == borrowers.Keys + set a | a in parties
  {
    if parties != [] {
      var front, last := parties[..|parties| - 1], parties[|parties| - 1];
      MentionKeys(borrowers, front);
      assert (set a | a in parties) == (set a | a in front) + {last};
    }
  }

  lemma {:induction false} PresentHolds(fields: seq<Option<Address>>)
    ensures forall a :: a in Present(fields) <==> a != 0 && Some(a) in fields
  {
    if fields != [] {
      PresentHolds(fields[..|fields| - 1]);
    }
  }

  lemma PresentNamed(f: Option<Address>, g: Option<Address>, h: Option<Address>, i: Option<Address>)
    ensures (set a | a in Present([f, g, h, i])) == Named(f) + Named(g) + Named(h) + Named(i) - {0}
  {
    PresentHolds([f, g, h, i]);
    assert forall a :: Some(a) in [f, g, h, i] <==> a in Named(f) + Named(g) + Named(h) + Named(i);
  }

  lemma TokenKeys(borrowers: map<Address, Borrower>, e: Body)
    requires e.TokenEvent? && ApplyToken(borrowers, e).Ok?
    ensures ApplyToken(borrowers, e).value.Keys == borrowers.Keys + Mentions(e)
  {
    if e.role.Mirror? {
      MentionKeys(borrowers, Present([e.sender, e.receiver, e.user, e.onBehalfOf]));
      PresentNamed(e.sender, e.receiver, e.user, e.onBehalfOf);
    } else if e.action.Transfer? {
      MentionKeys(borrowers, [e.sender.value, e.receiver.value]);
    }
  }

  lemma StepKeys(s: State, e: Event)
    requires Apply(s, e).Ok?
    ensures Apply(s, e).value.borrowers.Keys == s.borrowers.Keys + Mentions(e.body)
  {
    if e.body.TokenEvent? {
      TokenKeys(s.borrowers, e.body);
    } else if e.body.PoolEvidence? {
      MentionKeys(s.borrowers, e.body.parties);
    }
  }

  /** Exactly the addresses that some event mentions have an entry. */
  lemma {:induction false} EntriesAreMentioned(reserves: map<Asset, Reserve>, events: seq<Event>)
    requires Replayed(State(map[], reserves), events).Ok?
    ensures Replayed(State(map[], reserves), events).value.borrowers.Keys == MentionedBy(events)
  {
    if events != [] {
      EntriesAreMentioned(reserves, events[..|events| - 1]);
      StepKeys(Replayed(State(map[], reserves), events[..|events| - 1]).value, events[|events| - 1]);
    }
  }

  /** After any accepted replay every entry and every reserve is what the last events about it say. */
  lemma {:induction false} EntriesFollowEvents(reserves: map<Asset, Reserve>, events: seq<Event>)
    requires Replayed(State(map[], reserves), events).Ok?
    ensures var s := Replayed(State(map[], reserves), events).value;
            && s.reserves.Keys == reserves.Keys
            && (forall a :: SaysOf(Entry(s.borrowers, a), events, a))
            && forall asset :: asset in reserves ==> ReserveSays(s.reserves[asset], events, asset, reserves[asset])
  {
    if events != [] {
      var front := events[..|events| - 1];
      EntriesFollowEvents(reserves, front);
      var s := Replayed(State(map[], reserves), front).value;
      forall a ensures SaysOf(Entry(Replayed(State(map[], reserves), events).value.borrowers, a), events, a) {
        EntrySays(s, events, a);
      }
    }
  }

  ghost predicate AssetsKnown(s: State) {
    forall c :: Balance(s.borrowers, c) != 0 ==> c.asset in s.reserves
  }

  /** Only assets of the market are ever held. */
  lemma {:induction false} HeldAssetsKnown(reserves: map<Asset, Reserve>, events: seq<Event>, c: Account)
    requires Replayed(State(map[], reserves), events).Ok? && NetFlow(events, c) != 0
    ensures c.asset in reserves
  {
    ReplayAcceptedIff(reserves, events);
    var front, last := events[..|events| - 1], events[|events| - 1].body;
    if NetFlow(front, c) != 0 {
      HeldAssetsKnown(reserves, front, c);
    } else {
      assert Moves(last, c.token, c.asset);
    }
  }

  /**
   * A replay succeeds exactly when every event is well posed and never debits more than its account's net flow so far.
   */
  lemma {:induction false} ReplayAcceptedIff(reserves: map<Asset, Reserve>, events: seq<Event>)
    ensures Replayed(State(map[], reserves), events).Ok? <==>
            forall i :: 0 <= i < |events| ==>
              && WellPosed(events[i].body, reserves.Keys)
              && forall c :: Debit(events[i].body, c) <= NetFlow(events[..i], c)
  {
    if events != [] {
      var n := |events| - 1;
      var front := events[..n];
      ReplayAcceptedIff(reserves, front);
      assert forall i :: 0 <= i < n ==> front[i] == events[i] && front[..i] == events[..i];
      if Replayed(State(map[], reserves), front).Ok? {
        BalancesAreNetFlows(reserves, front);
        StepEffect(Replayed(State(map[], reserves), front).value, events[n]);
      }
    }
  }

  // ---- Conservation ----

  ghost function Sum(owners: set<Address>, f: Address -> int): int {
    if owners == {} then 0
    else
      var a :| a in owners;
      f(a) + Sum(owners - {a}, f)
  }

  lemma {:induction false} SumSplit(owners: set<Address>, f: Address -> int, a: Address)
    requires a in owners
    ensures Sum(owners, f) == f(a) + Sum(owners - {a}, f)
  {
    var b :| b in owners && Sum(owners, f) == f(b) + Sum(owners - {b}, f);
    if a != b {
      SumSplit(owners - {b}, f, a);
      SumSplit(owners - {a}, f, b);
      assert owners - {b} - {a} == owners - {a} - {b};
    }
  }

  lemma {:induction false} SumAdd(owners: set<Address>, f: Address -> int, g: Address -> int, h: Address -> int)
    requires forall a :: a in owners ==> h(a) == f(a) + g(a)
    ensures Sum(owners, h) == Sum(owners, f) + Sum(owners, g)
  {
    if owners != {} {
      var a :| a in owners;
      SumSplit(owners, f, a);
      SumSplit(owners, g, a);
      SumSplit(owners, h, a);
      SumAdd(owners - {a}, f, g, h);
    }
  }

  lemma {:induction false} SumZeros(few: set<Address>, many: set<Address>, f: Address -> int)
    requires few <= many && forall a :: a in many - few ==> f(a) == 0
    ensures Sum(many, f) == Sum(few, f)
    decreases many
  {
    if many <= few {
      assert many == few;
    } else {
      var a :| a in many && a !in few;
      SumSplit(many, f, a);
      SumZeros(few, many - {a}, f);
    }
  }

  lemma SumAt(owners: set<Address>, f: Address -> int, a: Address)
    requires a in owners && forall b :: b in owners && b != a ==> f(b) == 0
    ensures Sum(owners, f) == f(a)
  {
    SumZeros({a}, owners, f);
    SumSplit({a}, f, a);
    assert {a} - {a} == {};
  }

  lemma SumCredits(owners: set<Address>, e: Body, token: Token, asset: Asset)
    requires forall a: Address :: Credit(e, Account(a, token, asset)) != 0 ==> a in owners
    requires e.TokenEvent? && e.role.Primary? ==> PrimaryPosed(e)
    ensures Sum(owners, (a: Address) => Credit(e, Account(a, token, asset)))
            == if Moves(e, token, asset) && !e.action.Burn? then TokenAmountMoved(e) else 0
  {
    var f := (a: Address) => Credit(e, Account(a, token, asset));
    if Moves(e, token, asset) && !e.action.Burn? {
      var target :=
        if e.action.Transfer? then e.receiver.value
        else if e.onBehalfOf.Some? then e.onBehalfOf.value
        else e.user.value;
      assert f(target) == TokenAmountMoved(e);
      SumAt(owners, f, target);
    } else {
      SumZeros({}, owners, f);
    }
  }

  lemma SumDebits(owners: set<Address>, e: Body, token: Token, asset: Asset)
    requires forall a: Address :: Debit(e, Account(a, token, asset)) != 0 ==> a in owners
    requires e.TokenEvent? && e.role.Primary? ==> PrimaryPosed(e)
    ensures Sum(owners, (a: Address) => -Debit(e, Account(a, token, asset)))
            == if Moves(e, token, asset) && !e.action.Mint? then -TokenAmountMoved(e) else 0
  {
    var f := (a: Address) => -Debit(e, Account(a, token, asset));
    if Moves(e, token, asset) && !e.action.Mint? {
      var source := if e.action.Transfer? then e.sender.value else e.user.value;
      assert f(source) == -TokenAmountMoved(e);
      SumAt(owners, f, source);
    } else {
      SumZeros({}, owners, f);
    }
  }

  ghost function TokenAmountMoved(e: Body): int
    requires e.TokenEvent?
  {
    if e.action.Transfer? then e.scaledAmount else TokenAmount(e)
  }

  ghost function Parties(e: Body): set<Address> {
    if !e.TokenEvent? then {}
    else
      (if e.user.Some? then {e.user.value} else {}) + (if e.onBehalfOf.Some? then {e.onBehalfOf.value} else {}) +
      (if e.sender.Some? then {e.sender.value} else {}) + (if e.receiver.Some? then {e.receiver.value} else {})
  }

  /** One event changes a total by what it issues and nothing else. */
  lemma StepConserves(s: State, e: Event, token: Token, asset: Asset)
    requires Positive(s.borrowers) && Apply(s, e).Ok?
    ensures Total(Apply(s, e).value.borrowers, token, asset)
            == Total(s.borrowers, token, asset) + Issue(e.body, token, asset)
  {
    var after := Apply(s, e).value.borrowers;
    StepEffect(s, e);
    var all := s.borrowers.Keys + after.Keys + Parties(e.body);
    SumZeros(s.borrowers.Keys, all, Column(s.borrowers, token, asset));
    SumZeros(after.Keys, all, Column(after, token, asset));
    SumMoved(all, Column(s.borrowers, token, asset), Column(after, token, asset), e.body, token, asset);
  }

  lemma SumMoved(owners: set<Address>, f: Address -> int, g: Address -> int, e: Body, token: Token, asset: Asset)
    requires Parties(e) <= owners && (e.TokenEvent? && e.role.Primary? ==> PrimaryPosed(e))
    requires forall a: Address ::
               g(a) == f(a) + Credit(e, Account(a, token, asset)) - Debit(e, Account(a, token, asset))
    ensures Sum(owners, g) == Sum(owners, f) + Issue(e, token, asset)
  {
    SumCredits(owners, e, token, asset);
    SumDebits(owners, e, token, asset);
    var credits := (a: Address) => Credit(e, Account(a, token, asset));
    var debits := (a: Address) => -Debit(e, Account(a, token, asset));
    var moved := (a: Address) => credits(a) + debits(a);
    SumAdd(owners, credits, debits, moved);
    SumAdd(owners, f, moved, g);
  }

  /** For every token and asset, the balances of all borrowers add up to primary mints minus burns. */
  lemma {:induction false} ReplayConserves(
      reserves: map<Asset, Reserve>, events: seq<Event>, token: Token, asset: Asset)
    requires Replayed(State(map[], reserves), events).Ok?
    ensures Total(Replayed(State(map[], reserves), events).value.borrowers, token, asset)
            == Issued(events, token, asset)
  {
    if events != [] {
      var front := events[..|events| - 1];
      ReplayConserves(reserves, front, token, asset);
      BalancesAreNetFlows(reserves, front);
      StepConserves(Replayed(State(map[], reserves), front).value, events[|events| - 1], token, asset);
    }
  }

  // ---- The ledger that the source updates in place ----

  class Ledger {
    var borrowers: map<Address, Borrower>
    var reserves: map<Asset, Reserve>

    ghost function Contents(): State
      reads this
    {
      State(borrowers, reserves)
    }

    constructor (initial: map<Asset, Reserve>)
      ensures Contents() == State(map[], initial)
    {
      borrowers, reserves := map[], initial;
    }

    /** `_borrower` and `_touch` over a list of parties. */
    method Touch(parties: seq<Address>)
      modifies this`borrowers
      ensures borrowers == MentionAll(old(borrowers), parties)
    {
      for i := 0 to |parties|
        invariant borrowers == MentionAll(old(borrowers), parties[..i])
      {
        if parties[i] !in borrowers {
          borrowers := borrowers[parties[i] := EMPTY];
        }
        assert parties[..i + 1][..i] == parties[..i];
        assert borrowers == Mention(MentionAll(old(borrowers), parties[..i]), parties[i]);
      }
      assert parties[..|parties|] == parties;
    }

    /** `_adjust` on one of a borrower's maps. */
    method Adjust(owner: Address, token: Token, asset: Asset, delta: int) returns (r: Result<(), ReplayError>)
      modifies this`borrowers
      ensures var spec := Post(old(borrowers), owner, token, asset, delta);
              if spec.Ok? then r.Ok? && borrowers == spec.value else r.Err? && r.error == spec.error
    {
      var item := if owner in borrowers then borrowers[owner] else EMPTY;
      var mapping := item.balances.Of(token);
      var updated := (if asset in mapping then mapping[asset] else 0) + delta;
      if updated < 0 {
        return Err(NegativeBalance);
      }
      if updated == 0 {
        mapping := mapping - {asset};
      } else {
        mapping := mapping[asset := updated];
      }
      borrowers := borrowers[owner := item.(balances := item.balances.With(token, mapping))];
      r := Ok(());
    }

    method ApplyTokenEvent(e: Body) returns (r: Result<(), ReplayError>)
      requires e.TokenEvent?
      modifies this`borrowers
      ensures var spec := ApplyToken(old(borrowers), e);
              if spec.Ok? then r.Ok? && borrowers == spec.value else r.Err? && r.error == spec.error
    {
      if e.role.Mirror? {
        Touch(Present([e.sender, e.receiver, e.user, e.onBehalfOf]));
        return Ok(());
      }
      if !e.role.Primary? {
        return Err(RoleUndeclared);
      }
      if e.scaledAmount < 1 {
        return Err(InvalidAmount);
      }
      match e.action
      case Mint =>
        var target :- Needed(if e.onBehalfOf.Some? then e.onBehalfOf else e.user);
        if TokenAmount(e) < 1 {
          return Err(InvalidAmount);
        }
        r := Adjust(target, e.token, e.asset, TokenAmount(e));
      case Burn =>
        var holder :- Needed(e.user);
        if TokenAmount(e) < 1 {
          return Err(InvalidAmount);
        }
        r := Adjust(holder, e.token, e.asset, -TokenAmount(e));
      case Transfer =>
        var source :- Needed(e.sender);
        var target :- Needed(e.receiver);
        r := Transfer(source, target, e.token, e.asset, e.scaledAmount);
    }

    method Transfer(source: Address, target: Address, token: Token, asset: Asset, amount: int)
      returns (r: Result<(), ReplayError>)
      modifies this`borrowers
      ensures var mentioned := MentionAll(old(borrowers), [source, target]);
              var spec := Exchange(mentioned, Account(source, token, asset), Account(target, token, asset), amount);
              if spec.Ok? then r.Ok? && borrowers == spec.value else r.Err? && r.error == spec.error
    {
      Touch([source, target]);
      var _ :- Adjust(source, token, asset, -amount);
      r := Adjust(target, token, asset, amount);
    }

    method ApplyEvent(e: Event) returns (r: Result<(), ReplayError>)
      modifies this
      ensures var spec := Apply(old(Contents()), e);
              if spec.Ok? then r.Ok? && Contents() == spec.value else r.Err? && r.error == spec.error
    {
      match e.body {
        case PoolEvidence(parties, assets) =>
          Touch(parties);
          if exists a :: a in assets && a !in reserves {
            return Err(UnknownReserve);
          }
        case ReserveConfiguration(asset, id, threshold, bonus, fee) =>
          if asset !in reserves {
            return Err(UnknownReserve);
          }
          if id < 0 || threshold < 0 || bonus < 0 || fee < 0 {
            return Err(InvalidAmount);
          }
          reserves := reserves[asset :=
            reserves[asset].(
              id := Some(id), thresholdBps := Some(threshold), bonusBps := Some(bonus), feeBps := Some(fee))];
        case ReserveDataUpdated(asset, liquidity, variableBorrow) =>
          if asset !in reserves {
            return Err(UnknownReserve);
          }
          if liquidity < 1 || variableBorrow < 1 {
            return Err(InvalidAmount);
          }
          reserves := reserves[asset :=
            reserves[asset].(liquidityIndex := Some(liquidity), variableBorrowIndex := Some(variableBorrow))];
        case CollateralFlag(asset, user, enabled) =>
          if asset !in reserves {
            return Err(UnknownReserve);
          }
          var a :- Needed(user);
          Touch([a]);
          var item := borrowers[a];
          borrowers := borrowers[a := item.(collateralEnabled := item.collateralEnabled[asset := enabled])];
        case EmodeSet(user, category) =>
          var a :- Needed(user);
          if category < 0 {
            return Err(InvalidAmount);
          }
          Touch([a]);
          borrowers := borrowers[a := borrowers[a].(emode := category)];
        case ConfigurationSnapshot(user, bitmap) =>
          var a :- Needed(user);
          if bitmap < 0 {
            return Err(InvalidAmount);
          }
          Touch([a]);
          borrowers := borrowers[a := borrowers[a].(configuration := Some((bitmap, e.blockHash)))];
        case TokenEvent(_, _, asset, _, _, _, _, _, _, _) =>
          if asset !in reserves {
            return Err(UnknownReserve);
          }
          var _ :- ApplyTokenEvent(e.body);
        case Unsupported => return Err(UnhandledKind);
      }
      r := Ok(());
    }

    /** The replay loop of `build_inventory`. */
    method ReplayAll(events: seq<Event>) returns (r: Result<(), ReplayError>)
      modifies this
      ensures var spec := Replayed(old(Contents()), events);
              if spec.Ok? then r.Ok? && Contents() == spec.value else r.Err? && r.error == spec.error
    {
      ghost var initial := Contents();
      for i := 0 to |events|
        invariant Replayed(initial, events[..i]) == Ok(Contents())
      {
        assert events[..i + 1][..i] == events[..i];
        var step := ApplyEvent(events[i]);
        if step.Err? {
          FailedPrefix(initial, events, i + 1);
          return step;
        }
      }
      assert events[..|events|] == events;
      r := Ok(());
    }
  }

  lemma {:induction false} FailedPrefix(s: State, events: seq<Event>, k: nat)
    requires k <= |events| && Replayed(s, events[..k]).Err?
    ensures Replayed(s, events) == Replayed(s, events[..k])
  {
    if k == |events| {
      assert events[..k] == events;
    } else {
      assert events[..|events| - 1][..k] == events[..k];
      FailedPrefix(s, events[..|events| - 1], k);
    }
  }

  datatype BuildError = RejectedTranscript(reason: TranscriptError) | RejectedEvent(why: ReplayError)

  /** The first half of `build_inventory`: validate the transcript, then replay its events into an empty ledger. */
  method BuildLedger(t: Archive, digest: Event -> Digest, reserves: map<Asset, Reserve>)
    returns (r: Result<State, BuildError>)
    ensures Acceptable(t) ==> (r.Ok? <==> Replayed(State(map[], reserves), AllEvents(t.blocks)).Ok?)
    ensures Acceptable(t) && r.Ok? ==> Replayed(State(map[], reserves), AllEvents(t.blocks)) == Ok(r.value)
    ensures r.Ok? ==> Positive(r.value.borrowers) && AssetsKnown(r.value) && r.value.reserves.Keys == reserves.Keys
    ensures r.Ok? && CollisionFree(digest, AllEvents(t.blocks)) ==>
              && Acceptable(t)
              && (forall c :: Balance(r.value.borrowers, c) == NetFlow(AllEvents(t.blocks), c))
              && (forall token, asset ::
                    Total(r.value.borrowers, token, asset) == Issued(AllEvents(t.blocks), token, asset))
  {
    var events := ValidateTranscript(t, digest);
    if events.Err? {
      return Err(RejectedTranscript(events.error));
    }
    var ledger := new Ledger(reserves);
    var outcome := ledger.ReplayAll(events.value);
    if outcome.Err? {
      return Err(RejectedEvent(outcome.error));
    }
    BalancesAreNetFlows(reserves, events.value);
    forall c | NetFlow(events.value, c) != 0 ensures c.asset in ledger.reserves {
      HeldAssetsKnown(reserves, events.value, c);
    }
    forall token, asset: Asset
      ensures Total(ledger.borrowers, token, asset) == Issued(events.value, token, asset)
    {
      ReplayConserves(reserves, events.value, token, asset);
    }
    r := Ok(State(ledger.borrowers, ledger.reserves));
  }
}
