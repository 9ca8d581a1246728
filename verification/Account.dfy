/** Account totals and the health factor (`calculate_account`). */
module Account {
  import opened Identifiers
  import opened Results
  import opened FixedPoint

  type Feed = nat
  type Prices = map<Asset, int>

  /** Amounts are absent when a reserve index was missing at inventory time. */
  datatype Position = Position(
    asset: Asset,
    supplied: Option<nat>,
    collateralEnabled: bool,
    variableDebt: Option<nat>,
    stableDebt: nat,
    priceFeed: Feed)

  datatype Reserve = Reserve(priceFeed: Feed, decimals: nat, thresholdBps: Option<nat>)

  datatype Category = Category(collateralAssets: set<Asset>, thresholdBps: Option<nat>)

  datatype EvidenceError =
    | ReserveUnknown
    | PriceMissing
    | AmountMissing
    | ThresholdMissing
    | AuctionInvalid
    | BorrowerIncomplete

  datatype Totals = Totals(collateral: nat, debt: nat, weighted: nat)

  function PriceOf(prices: Prices, asset: Asset): (r: Result<nat, EvidenceError>)
    ensures r.Ok? ==> r.value >= 1
  {
    if asset !in prices || prices[asset] < 1 then Err(PriceMissing) else Ok(prices[asset])
  }

  /** The threshold of the account's eMode category where it covers the asset, else that of the reserve. */
  function ThresholdOf(reserve: Reserve, category: Option<Category>, asset: Asset): Option<nat> {
    if category.Some? && asset in category.value.collateralAssets then category.value.thresholdBps
    else reserve.thresholdBps
  }

  /** Collateral values round down. */
  function PositionValue(amount: nat, price: nat, decimals: nat): nat {
    MulDivFloor(amount, price, Pow10(decimals))
  }

  /** Debt values round up. */
  function DebtPositionValue(amount: nat, price: nat, decimals: nat): nat {
    MulDivCeil(amount, price, Pow10(decimals))
  }

  function AddPosition(
      sums: Totals, p: Position, reserves: map<Asset, Reserve>, category: Option<Category>, prices: Prices)
    : Result<Totals, EvidenceError>
  {
    if p.asset !in reserves then Err(ReserveUnknown)
    else
      var reserve := reserves[p.asset];
      var price :- PriceOf(prices, p.asset);
      if p.supplied.None? || p.variableDebt.None? then Err(AmountMissing)
      else
        var debt := DebtPositionValue(p.variableDebt.value + p.stableDebt, price, reserve.decimals);
        if p.collateralEnabled && p.supplied.value != 0 then
          var value := PositionValue(p.supplied.value, price, reserve.decimals);
          match ThresholdOf(reserve, category, p.asset)
          case None => Err(ThresholdMissing)
          case Some(threshold) =>
            Ok(Totals(sums.collateral + value, sums.debt + debt, sums.weighted + value * threshold))
        else Ok(Totals(sums.collateral, sums.debt + debt, sums.weighted))
  }

  function Sum(ps: seq<Position>, reserves: map<Asset, Reserve>, category: Option<Category>, prices: Prices)
    : Result<Totals, EvidenceError>
  {
    if ps == [] then Ok(Totals(0, 0, 0))
    else
      var sums :- Sum(ps[..|ps| - 1], reserves, category, prices);
      AddPosition(sums, ps[|ps| - 1], reserves, category, prices)
  }

  /** An account without debt has the largest 256-bit integer as its health factor. */
  const NO_DEBT: nat :=
    0x1_0000_0000_0000_0000 * 0x1_0000_0000_0000_0000 * 0x1_0000_0000_0000_0000 * 0x1_0000_0000_0000_0000 - 1

  function HealthFactor(weighted: nat, debt: nat): nat {
    if debt == 0 then NO_DEBT else WadDiv(weighted, debt) / PERCENTAGE_FACTOR
  }

  function HealthFactorOf(ps: seq<Position>, reserves: map<Asset, Reserve>, category: Option<Category>, prices: Prices)
    : Result<nat, EvidenceError>
  {
    var sums :- Sum(ps, reserves, category, prices);
    Ok(HealthFactor(sums.weighted, sums.debt))
  }

  /** `calculate_account` as written: one pass with three accumulators. */
  method CalculateAccount(ps: seq<Position>, reserves: map<Asset, Reserve>, category: Option<Category>, prices: Prices)
    returns (r: Result<(Totals, nat), EvidenceError>)
    ensures r.Ok? ==> Sum(ps, reserves, category, prices) == Ok(r.value.0)
                      && HealthFactorOf(ps, reserves, category, prices) == Ok(r.value.1)
    ensures r.Err? ==> HealthFactorOf(ps, reserves, category, prices) == Err(r.error)
  {
    var sums := Totals(0, 0, 0);
    for i := 0 to |ps|
      invariant Sum(ps[..i], reserves, category, prices) == Ok(sums)
    {
      assert ps[..i + 1][..i] == ps[..i];
      var next := AddPosition(sums, ps[i], reserves, category, prices);
      if next.Err? {
        SumPrefix(ps, reserves, category, prices, i + 1);
        return Err(next.error);
      }
      sums := next.value;
    }
    assert ps[..|ps|] == ps;
    return Ok((sums, HealthFactor(sums.weighted, sums.debt)));
  }

  lemma {:induction false} SumPrefix(
      ps: seq<Position>, reserves: map<Asset, Reserve>, category: Option<Category>, prices: Prices, n: nat)
    requires n <= |ps| && Sum(ps[..n], reserves, category, prices).Err?
    ensures Sum(ps, reserves, category, prices) == Sum(ps[..n], reserves, category, prices)
    decreases |ps|
  {
    if n == |ps| {
      assert ps[..n] == ps;
    } else {
      assert ps[..|ps| - 1][..n] == ps[..n];
      SumPrefix(ps[..|ps| - 1], reserves, category, prices, n);
    }
  }

  // ----- What the totals are -----

  /** The account of one position. */
  function Alone(p: Position, reserves: map<Asset, Reserve>, category: Option<Category>, prices: Prices)
    : Result<Totals, EvidenceError>
  {
    AddPosition(Totals(0, 0, 0), p, reserves, category, prices)
  }

  /** A position counts exactly when its reserve, price, amounts and, for collateral, its threshold are known. */
  lemma AloneOkIff(p: Position, reserves: map<Asset, Reserve>, category: Option<Category>, prices: Prices)
    ensures Alone(p, reserves, category, prices).Ok? <==>
            && p.asset in reserves && p.asset in prices && prices[p.asset] >= 1
            && p.supplied.Some? && p.variableDebt.Some?
            && (p.collateralEnabled && p.supplied != Some(0) ==>
                  if category.Some? && p.asset in category.value.collateralAssets then category.value.thresholdBps.Some?
                  else reserves[p.asset].thresholdBps.Some?)
  {}

  /** The debt is the smallest number of base units that covers variable and stable debt at the price. */
  lemma AloneDebt(p: Position, reserves: map<Asset, Reserve>, category: Option<Category>, prices: Prices, q: nat)
    requires Alone(p, reserves, category, prices).Ok?
    ensures Alone(p, reserves, category, prices).value.debt <= q <==>
            prices[p.asset] * (p.variableDebt.value + p.stableDebt) <= q * Pow10(reserves[p.asset].decimals)
  {
    MulDivExact(p.variableDebt.value + p.stableDebt, prices[p.asset], Pow10(reserves[p.asset].decimals), q);
  }

  /** The collateral is the largest number of base units within the enabled supply at the price. */
  lemma AloneCollateral(p: Position, reserves: map<Asset, Reserve>, category: Option<Category>, prices: Prices, q: nat)
    requires Alone(p, reserves, category, prices).Ok?
    ensures p.collateralEnabled ==>
              (q <= Alone(p, reserves, category, prices).value.collateral <==>
               q * Pow10(reserves[p.asset].decimals) <= prices[p.asset] * p.supplied.value)
    ensures !p.collateralEnabled ==> Alone(p, reserves, category, prices).value.collateral == 0
  {
    var unit := Pow10(reserves[p.asset].decimals);
    MulDivExact(p.supplied.value, prices[p.asset], unit, q);
    if p.supplied.value == 0 {
      DivAtLeast(0, unit, q);
      NoneOfZero(prices[p.asset], q, unit);
    }
  }

  lemma NoneOfZero(price: nat, q: nat, unit: nat)
    requires unit >= 1
    ensures q <= 0 <==> q * unit <= price * 0
  {
    if q >= 1 {
      MulMonotone(1, q, unit);
    }
  }

  /** Collateral weighs by the threshold of the category where it covers the asset, else of the reserve. */
  lemma AloneWeighted(p: Position, reserves: map<Asset, Reserve>, category: Option<Category>, prices: Prices)
    requires Alone(p, reserves, category, prices).Ok?
    ensures var t := Alone(p, reserves, category, prices).value;
            && (t.collateral == 0 ==> t.weighted == 0)
            && (t.collateral > 0 && category.Some? && p.asset in category.value.collateralAssets ==>
                  category.value.thresholdBps.Some? && t.weighted == t.collateral * category.value.thresholdBps.value)
            && (t.collateral > 0 && !(category.Some? && p.asset in category.value.collateralAssets) ==>
                  && reserves[p.asset].thresholdBps.Some?
                  && t.weighted == t.collateral * reserves[p.asset].thresholdBps.value)
  {}

  /** Two totals added; the first that fails. */
  function Both(p: Result<Totals, EvidenceError>, q: Result<Totals, EvidenceError>): Result<Totals, EvidenceError> {
    if p.Err? then p
    else if q.Err? then q
    else
      var s, t := p.value, q.value;
      Ok(Totals(s.collateral + t.collateral, s.debt + t.debt, s.weighted + t.weighted))
  }

  lemma BothAssociates(
      p: Result<Totals, EvidenceError>, q: Result<Totals, EvidenceError>, r: Result<Totals, EvidenceError>)
    ensures Both(Both(p, q), r) == Both(p, Both(q, r))
  {}

  lemma AddsAlone(
      sums: Totals, p: Position, reserves: map<Asset, Reserve>, category: Option<Category>, prices: Prices)
    ensures AddPosition(sums, p, reserves, category, prices) == Both(Ok(sums), Alone(p, reserves, category, prices))
  {}

  lemma SumLast(ps: seq<Position>, reserves: map<Asset, Reserve>, category: Option<Category>, prices: Prices)
    requires ps != []
    ensures Sum(ps, reserves, category, prices)
            == Both(Sum(ps[..|ps| - 1], reserves, category, prices), Alone(ps[|ps| - 1], reserves, category, prices))
  {
    var front := Sum(ps[..|ps| - 1], reserves, category, prices);
    if front.Ok? {
      AddsAlone(front.value, ps[|ps| - 1], reserves, category, prices);
    }
  }

  /** The totals of two lists of positions are those of each, added, or the first error of either. */
  lemma {:induction false} SumOfBoth(
      ps: seq<Position>, qs: seq<Position>, reserves: map<Asset, Reserve>, category: Option<Category>, prices: Prices)
    ensures Sum(ps + qs, reserves, category, prices)
            == Both(Sum(ps, reserves, category, prices), Sum(qs, reserves, category, prices))
    decreases |qs|
  {
    if qs == [] {
      assert ps + qs == ps;
    } else {
      var front, last := qs[..|qs| - 1], qs[|qs| - 1];
      assert (ps + qs)[..|ps + qs| - 1] == ps + front;
      calc {
        Sum(ps + qs, reserves, category, prices);
        { SumLast(ps + qs, reserves, category, prices); }
        Both(Sum(ps + front, reserves, category, prices), Alone(last, reserves, category, prices));
        { SumOfBoth(ps, front, reserves, category, prices); }
        Both(Both(Sum(ps, reserves, category, prices), Sum(front, reserves, category, prices)),
             Alone(last, reserves, category, prices));
        { BothAssociates(Sum(ps, reserves, category, prices), Sum(front, reserves, category, prices),
                         Alone(last, reserves, category, prices)); }
        Both(Sum(ps, reserves, category, prices),
             Both(Sum(front, reserves, category, prices), Alone(last, reserves, category, prices)));
        { SumLast(qs, reserves, category, prices); }
        Both(Sum(ps, reserves, category, prices), Sum(qs, reserves, category, prices));
      }
    }
  }

  lemma SumAlone(p: Position, reserves: map<Asset, Reserve>, category: Option<Category>, prices: Prices)
    ensures Sum([p], reserves, category, prices) == Alone(p, reserves, category, prices)
  {
    assert [p][..0] == [];
  }

  // ----- The liquidation threshold -----

  /** Without debt the health factor is the largest 256-bit integer. */
  lemma NoDebtIsHealthy(weighted: nat)
    ensures HealthFactor(weighted, 0)
            == 0xFFFF_FFFF_FFFF_FFFF_FFFF_FFFF_FFFF_FFFF_FFFF_FFFF_FFFF_FFFF_FFFF_FFFF_FFFF_FFFF
  {}

  lemma HealthFactorBelow(weighted: nat, debt: nat)
    requires debt > 0
    ensures HealthFactor(weighted, debt) < WAD <==> weighted * WAD + debt / 2 < PERCENTAGE_FACTOR * WAD * debt
  {
    var limit := PERCENTAGE_FACTOR * WAD;
    DivAtLeast(WadDiv(weighted, debt), PERCENTAGE_FACTOR, WAD);
    DivAtLeast(weighted * WAD + debt / 2, debt, limit);
  }

  /** The rounded health factor is below one exactly when the weighted collateral is below the debt,
      for every account with less than 2 * 10^18 base units of debt. */
  lemma ThresholdExact(weighted: nat, debt: nat)
    requires 0 < debt < 2 * WAD
    ensures HealthFactor(weighted, debt) < WAD <==> weighted < PERCENTAGE_FACTOR * debt
  {
    HealthFactorBelow(weighted, debt);
  }

  /** At a debt of 2 * 10^18 a shortfall of one unit of the numerator is rounded away. */
  lemma ThresholdExample()
    ensures HealthFactor(PERCENTAGE_FACTOR * (2 * WAD) - 1, 2 * WAD) >= WAD
  {
    HealthFactorBelow(PERCENTAGE_FACTOR * (2 * WAD) - 1, 2 * WAD);
  }

  ghost predicate ThresholdExactAt(debt: nat) {
    forall weighted: nat :: HealthFactor(weighted, debt) < WAD <==> weighted < PERCENTAGE_FACTOR * debt
  }

  /** The bound is tight: from 2 * 10^18 on, rounding up hides a shortfall of one unit. */
  lemma ThresholdExactIff(debt: nat)
    requires debt > 0
    ensures ThresholdExactAt(debt) <==> debt < 2 * WAD
  {
    if debt < 2 * WAD {
      forall weighted: nat ensures HealthFactor(weighted, debt) < WAD <==> weighted < PERCENTAGE_FACTOR * debt {
        ThresholdExact(weighted, debt);
      }
    } else {
      var weighted := PERCENTAGE_FACTOR * debt - 1;
      HealthFactorBelow(weighted, debt);
      assert HealthFactor(weighted, debt) >= WAD;
    }
  }

  // ----- Monotonicity in the prices -----

  predicate HoldsCollateral(p: Position) {
    p.collateralEnabled && p.supplied.Some? && p.supplied.value != 0
  }

  predicate HoldsDebt(p: Position) {
    p.stableDebt != 0 || (p.variableDebt.Some? && p.variableDebt.value != 0)
  }

  /**
   * Seen from a position the price moved in its favour: up where there is no debt, down where there is no collateral.
   */
  ghost predicate Favours(before: Prices, after: Prices, p: Position) {
    p.asset in before && p.asset in after ==>
      && (before[p.asset] < after[p.asset] ==> !HoldsDebt(p))
      && (after[p.asset] < before[p.asset] ==> !HoldsCollateral(p))
  }

  lemma AddFavourable(
      s: Totals, s': Totals, p: Position, reserves: map<Asset, Reserve>, category: Option<Category>, before: Prices,
      after: Prices)
    requires s.weighted <= s'.weighted && s'.debt <= s.debt && (s.debt == 0 <==> s'.debt == 0)
    requires Favours(before, after, p)
    requires AddPosition(s, p, reserves, category, before).Ok? && AddPosition(s', p, reserves, category, after).Ok?
    ensures var t := AddPosition(s, p, reserves, category, before).value;
            var t' := AddPosition(s', p, reserves, category, after).value;
            t.weighted <= t'.weighted && t'.debt <= t.debt && (t.debt == 0 <==> t'.debt == 0)
  {
    var unit := Pow10(reserves[p.asset].decimals);
    var amount, x, x' := p.variableDebt.value + p.stableDebt, before[p.asset], after[p.asset];
    CeilZero(amount * x, unit);
    CeilZero(amount * x', unit);
    ProductZero(amount, x);
    ProductZero(amount, x');
    if x' <= x {
      MulMonotone(x', x, amount);
      DivMonotone(amount * x' + unit - 1, amount * x + unit - 1, unit);
    }
    if HoldsCollateral(p) {
      MulMonotone(x, x', p.supplied.value);
      DivMonotone(p.supplied.value * x, p.supplied.value * x', unit);
      var threshold := ThresholdOf(reserves[p.asset], category, p.asset).value;
      MulMonotone(p.supplied.value * x / unit, p.supplied.value * x' / unit, threshold);
    }
  }

  lemma ProductZero(a: nat, b: nat)
    requires b >= 1
    ensures a * b == 0 <==> a == 0
  {}

  lemma {:induction false} SumFavourable(
      ps: seq<Position>, reserves: map<Asset, Reserve>, category: Option<Category>, before: Prices, after: Prices)
    requires forall p :: p in ps ==> Favours(before, after, p)
    requires Sum(ps, reserves, category, before).Ok? && Sum(ps, reserves, category, after).Ok?
    ensures var s, s' := Sum(ps, reserves, category, before).value, Sum(ps, reserves, category, after).value;
            s.weighted <= s'.weighted && s'.debt <= s.debt && (s.debt == 0 <==> s'.debt == 0)
    decreases |ps|
  {
    if ps != [] {
      var front, last := ps[..|ps| - 1], ps[|ps| - 1];
      SumFavourable(front, reserves, category, before, after);
      AddFavourable(Sum(front, reserves, category, before).value, Sum(front, reserves, category, after).value,
                    last, reserves, category, before, after);
    }
  }

  /** Through every floor and ceiling: price moves in the account's favour never lower its health factor,
      so they never make it liquidatable. */
  lemma HealthFactorMonotone(
      ps: seq<Position>, reserves: map<Asset, Reserve>, category: Option<Category>, before: Prices, after: Prices)
    requires forall p :: p in ps ==> Favours(before, after, p)
    requires HealthFactorOf(ps, reserves, category, before).Ok? && HealthFactorOf(ps, reserves, category, after).Ok?
    ensures HealthFactorOf(ps, reserves, category, before).value <= HealthFactorOf(ps, reserves, category, after).value
  {
    SumFavourable(ps, reserves, category, before, after);
    var s, s' := Sum(ps, reserves, category, before).value, Sum(ps, reserves, category, after).value;
    if s.debt != 0 {
      WadDivMonotone(s.weighted, s.debt, s'.weighted, s'.debt);
      DivMonotone(WadDiv(s.weighted, s.debt), WadDiv(s'.weighted, s'.debt), PERCENTAGE_FACTOR);
    }
  }

  /** A price rise in an asset held only as collateral, or a fall in one held only as debt. */
  lemma OneSidedPriceMove(
      ps: seq<Position>, reserves: map<Asset, Reserve>, category: Option<Category>, prices: Prices, asset: Asset,
      before: int, after: int)
    requires (before <= after && forall p :: p in ps && p.asset == asset ==> !HoldsDebt(p))
          || (after <= before && forall p :: p in ps && p.asset == asset ==> !HoldsCollateral(p))
    requires HealthFactorOf(ps, reserves, category, prices[asset := before]).Ok?
    requires HealthFactorOf(ps, reserves, category, prices[asset := after]).Ok?
    ensures var hf, hf' := HealthFactorOf(ps, reserves, category, prices[asset := before]).value,
                           HealthFactorOf(ps, reserves, category, prices[asset := after]).value;
            hf <= hf' && !(hf >= WAD && hf' < WAD)
  {
    HealthFactorMonotone(ps, reserves, category, prices[asset := before], prices[asset := after]);
  }

  // ----- Accounts that do not hold the asset -----

  lemma {:induction false} SumUnaffected(
      ps: seq<Position>, reserves: map<Asset, Reserve>, category: Option<Category>, before: Prices, after: Prices)
    requires forall p :: p in ps ==>
             (p.asset in before <==> p.asset in after) && (p.asset in before ==> before[p.asset] == after[p.asset])
    ensures Sum(ps, reserves, category, before) == Sum(ps, reserves, category, after)
    decreases |ps|
  {
    if ps != [] {
      SumUnaffected(ps[..|ps| - 1], reserves, category, before, after);
    }
  }
}
