/** The full-cost economics of a pair (second half of `_pair_economics`). */
module PairEconomics {
  import opened Results
  import opened FixedPoint
  import opened Liquidation

  /** The costs of one scenario; DEX fee and price impact are already in the unwind output. */
  datatype Costs = Costs(
    gas: nat, l1Fee: nat, atlasBid: nat, ordering: nat, failureReserve: nat, latencyReserve: nat, driftReserve: nat)

  datatype Quote = Quote(
    blockNumber: nat, blockHash: nat,
    flashMaxAmount: nat, flashPremiumBps: nat,
    unwindInput: nat,
    netOfFeesAndImpact: bool,
    expectedOutput: nat, conservativeOutput: nat, severeOutput: nat,
    expectedCosts: Costs, conservativeCosts: Costs, severeCosts: Costs,
    retainedFloor: nat)

  datatype Validity = Validity(reserveFlags: bool, graceElapsed: bool, dustRule: bool)

  datatype Economics =
    | InvalidProtocolConstraint(validity: Validity)
    | IncompletePairQuote(validity: Validity)
    | IncompleteFlashCapacity(validity: Validity)
    | ExactFullCost(
        validity: Validity,
        repay: nat, liquidatorCollateral: int,
        expectedPnl: int, conservativePnl: int, severePnl: int,
        atlasBid: nat, maxRationalBid: nat, retainedFloor: nat, marginToGate: int)

  datatype EconomicsError =
    | PriceOrBonusInvalid
    | QuoteBlockMismatch
    | UnwindInputMismatch
    | OutputNotNet
    | BidVariesByScenario

  function TotalCosts(c: Costs): nat {
    c.gas + c.l1Fee + c.atlasBid + c.ordering + c.failureReserve + c.latencyReserve + c.driftReserve
  }

  function FlashPremiumBase(x: Pair, q: Quote): nat
    requires x.Valid()
  {
    MulDivCeil(PercentMulCeil(x.Repay(), q.flashPremiumBps), x.debtPrice, x.DebtUnit())
  }

  function Pnl(x: Pair, q: Quote, output: nat, costs: Costs): int
    requires x.Valid()
  {
    MulDivFloor(output, x.debtPrice, x.DebtUnit()) - x.RepayBase() - FlashPremiumBase(x, q) - TotalCosts(costs)
  }

  /** The conservative outcome if the Atlas bid were `bid` and nothing else changed. */
  function ConservativePnlAt(x: Pair, q: Quote, bid: nat): int
    requires x.Valid()
  {
    Pnl(x, q, q.conservativeOutput, q.conservativeCosts.(atlasBid := bid))
  }

  function MaxRationalBid(pnl: int, bid: nat, floor: nat): nat {
    if pnl + bid - floor >= 0 then pnl + bid - floor else 0
  }

  function Evaluate(x: Pair, flagsOk: bool, graceOk: bool, quote: Option<Quote>, blockNumber: nat, blockHash: nat)
    : Result<Economics, EconomicsError>
  {
    if !x.Valid() then Err(PriceOrBonusInvalid)
    else
      var validity := Validity(flagsOk, graceOk, x.DustRule());
      if !(flagsOk && graceOk && x.DustRule()) then Ok(InvalidProtocolConstraint(validity))
      else
        match quote
        case None => Ok(IncompletePairQuote(validity))
        case Some(q) =>
          if q.blockNumber != blockNumber || q.blockHash != blockHash then Err(QuoteBlockMismatch)
          else if q.flashMaxAmount < x.Repay() then Ok(IncompleteFlashCapacity(validity))
          else if q.unwindInput != x.LiquidatorCollateral() then Err(UnwindInputMismatch)
          else if !q.netOfFeesAndImpact then Err(OutputNotNet)
          else if !(q.expectedCosts.atlasBid == q.conservativeCosts.atlasBid == q.severeCosts.atlasBid) then
            Err(BidVariesByScenario)
          else
            var conservative := Pnl(x, q, q.conservativeOutput, q.conservativeCosts);
            var bid := q.conservativeCosts.atlasBid;
            Ok(ExactFullCost(
              validity, x.Repay(), x.LiquidatorCollateral(),
              Pnl(x, q, q.expectedOutput, q.expectedCosts), conservative, Pnl(x, q, q.severeOutput, q.severeCosts),
              bid, MaxRationalBid(conservative, bid, q.retainedFloor), q.retainedFloor, conservative - q.retainedFloor))
  }

  /** The quote is for the checkpoint and for exactly this pair's amounts. */
  predicate Suits(x: Pair, q: Quote, blockNumber: nat, blockHash: nat)
    requires x.Valid()
  {
    && q.blockNumber == blockNumber && q.blockHash == blockHash
    && q.flashMaxAmount >= x.Repay() && q.unwindInput == x.LiquidatorCollateral() && q.netOfFeesAndImpact
    && q.expectedCosts.atlasBid == q.conservativeCosts.atlasBid == q.severeCosts.atlasBid
  }

  lemma ExactIff(x: Pair, flagsOk: bool, graceOk: bool, quote: Option<Quote>, blockNumber: nat, blockHash: nat)
    ensures var r := Evaluate(x, flagsOk, graceOk, quote, blockNumber, blockHash);
            r.Ok? && r.value.ExactFullCost? <==>
            && x.Valid() && flagsOk && graceOk && x.DustRule()
            && quote.Some? && Suits(x, quote.value, blockNumber, blockHash)
  {}

  /** Which status a pair gets without an exact cost, and when it fails. */
  lemma StatusIff(x: Pair, flagsOk: bool, graceOk: bool, quote: Option<Quote>, blockNumber: nat, blockHash: nat)
    requires x.Valid()
    ensures var r := Evaluate(x, flagsOk, graceOk, quote, blockNumber, blockHash);
            var allowed := flagsOk && graceOk && x.DustRule();
            && (r == Ok(InvalidProtocolConstraint(Validity(flagsOk, graceOk, x.DustRule()))) <==> !allowed)
            && (r.Ok? && r.value.IncompletePairQuote? <==> allowed && quote.None?)
            && (allowed && quote.Some? ==>
                  var q := quote.value;
                  && (r == Err(QuoteBlockMismatch) <==> q.blockNumber != blockNumber || q.blockHash != blockHash)
                  && (q.blockNumber == blockNumber && q.blockHash == blockHash ==>
                        && (r.Ok? && r.value.IncompleteFlashCapacity? <==> q.flashMaxAmount < x.Repay())
                        && (r == Err(UnwindInputMismatch) <==>
                              q.flashMaxAmount >= x.Repay() && q.unwindInput != x.LiquidatorCollateral())))
    ensures var r := Evaluate(x, flagsOk, graceOk, quote, blockNumber, blockHash);
            r.Ok? ==> r.value.validity == Validity(flagsOk, graceOk, x.DustRule())
  {}

  lemma PnlFallsWithBid(x: Pair, q: Quote, bid: nat)
    requires x.Valid()
    ensures ConservativePnlAt(x, q, bid)
            == Pnl(x, q, q.conservativeOutput, q.conservativeCosts) + q.conservativeCosts.atlasBid - bid
  {}

  /**
   * An outcome is the output's worth, `worth`, rounded down, less what is repaid, less the worth, `premiumBase`, of the
   * flash premium, both rounded up, less each of the seven costs.
   */
  lemma PnlExact(x: Pair, q: Quote, output: nat, c: Costs) returns (worth: nat, premium: nat, premiumBase: nat)
    requires x.Valid()
    ensures worth * Pow10(x.debtDecimals) <= output * x.debtPrice < (worth + 1) * Pow10(x.debtDecimals)
    ensures x.Repay() * q.flashPremiumBps <= premium * 10_000 < x.Repay() * q.flashPremiumBps + 10_000
    ensures premium * x.debtPrice <= premiumBase * Pow10(x.debtDecimals) < premium * x.debtPrice + Pow10(x.debtDecimals)
    ensures Pnl(x, q, output, c) == worth - x.RepayBase() - premiumBase
            - c.gas - c.l1Fee - c.atlasBid - c.ordering - c.failureReserve - c.latencyReserve - c.driftReserve
  {
    var unit := Pow10(x.debtDecimals);
    worth := MulDivFloor(output, x.debtPrice, unit);
    Bracket(output * x.debtPrice, unit);
    premium := PercentMulCeil(x.Repay(), q.flashPremiumBps);
    CeilBracket(x.Repay() * q.flashPremiumBps, 10_000);
    premiumBase := MulDivCeil(premium, x.debtPrice, unit);
    CeilBracket(premium * x.debtPrice, unit);
  }

  lemma CeilBracket(a: int, d: int)
    requires d > 0
    ensures a <= (a + d - 1) / d * d < a + d
  {
    Bracket(a + d - 1, d);
  }

  /** Each scenario's outcome is that of its own output and costs; the bid is the same in all three. */
  lemma ScenarioOutcomes(
      x: Pair, flagsOk: bool, graceOk: bool, q: Quote, blockNumber: nat, blockHash: nat, e: Economics)
    requires Evaluate(x, flagsOk, graceOk, Some(q), blockNumber, blockHash) == Ok(e) && e.ExactFullCost?
    ensures e.repay == x.Repay() && e.liquidatorCollateral == x.LiquidatorCollateral() == q.unwindInput
    ensures e.expectedPnl == Pnl(x, q, q.expectedOutput, q.expectedCosts)
    ensures e.conservativePnl == Pnl(x, q, q.conservativeOutput, q.conservativeCosts)
    ensures e.severePnl == Pnl(x, q, q.severeOutput, q.severeCosts)
    ensures e.atlasBid == q.expectedCosts.atlasBid == q.conservativeCosts.atlasBid == q.severeCosts.atlasBid
    ensures e.retainedFloor == q.retainedFloor && e.marginToGate == e.conservativePnl - q.retainedFloor
    ensures e.maxRationalBid == if e.marginToGate + e.atlasBid >= 0 then e.marginToGate + e.atlasBid else 0
  {}

  /**
   * Every bid up to the rational maximum leaves the floor, exactly when bidding nothing would leave it;
   * every bid above the maximum loses the floor.
   */
  lemma RationalBidsSafeIff(x: Pair, q: Quote)
    requires x.Valid()
    ensures var pnl := Pnl(x, q, q.conservativeOutput, q.conservativeCosts);
            (forall bid :: 0 <= bid <= MaxRationalBid(pnl, q.conservativeCosts.atlasBid, q.retainedFloor) ==>
               ConservativePnlAt(x, q, bid) >= q.retainedFloor)
            <==> pnl + q.conservativeCosts.atlasBid >= q.retainedFloor
    ensures var pnl := Pnl(x, q, q.conservativeOutput, q.conservativeCosts);
            forall bid :: bid > MaxRationalBid(pnl, q.conservativeCosts.atlasBid, q.retainedFloor) ==>
              ConservativePnlAt(x, q, bid) < q.retainedFloor
  {
    var pnl := Pnl(x, q, q.conservativeOutput, q.conservativeCosts);
    forall bid: nat ensures ConservativePnlAt(x, q, bid) == pnl + q.conservativeCosts.atlasBid - bid {
      PnlFallsWithBid(x, q, bid);
    }
    assert ConservativePnlAt(x, q, 0) == pnl + q.conservativeCosts.atlasBid;
  }
}

/** The gate that turns an evaluated pair into a fork qualification package (`atlas_aave_fork_package.py`). */
module ForkPackage {
  import opened Results
  import opened FixedPoint
  import opened Liquidation
  import opened PairEconomics

  const CHAIN_ID := 42161
  /** Flash amount and premium, minimum unwind output, gas limit, fee per gas, data fee and deadline. */
  const REQUIRED_AMOUNTS := 7

  datatype PairRecord = PairRecord(borrower: nat, debtAsset: nat, collateralAsset: nat, economics: Economics)

  datatype Plan = Plan(
    chainId: nat, blockNumber: nat, blockHash: nat,
    borrower: nat, debtAsset: nat, collateralAsset: nat,
    repay: int, maxRepay: int, seizedCollateral: int,
    atlasBid: int, maxAtlasBid: int, minimumProfitBase: int, minimumProfit: int,
    atomicBoundsEnforced: bool, calldataBound: bool,
    amounts: seq<int>,
    nonceAssumption: bool, allCostsIncluded: bool,
    predictionErrorBps: int, maximumErrorBps: int,
    detectedAt: int, expiresAt: int, latency: int,
    grantsAuthority: bool)

  datatype PackageError =
    | ResultIncomplete
    | PairNotUnique
    | NotExact
    | ConstraintViolated
    | FloorNotCleared
    | CheckpointInvalid
    | PlanChain
    | PlanIdentity
    | PlanAmounts
    | PlanBid
    | PlanProfit
    | PlanShape

  predicate Matches(r: PairRecord, plan: Plan) {
    r.borrower == plan.borrower && r.debtAsset == plan.debtAsset && r.collateralAsset == plan.collateralAsset
  }

  function Matching(pairs: seq<PairRecord>, plan: Plan): seq<PairRecord> {
    if pairs == [] then []
    else if Matches(pairs[0], plan) then [pairs[0]] + Matching(pairs[1..], plan)
    else Matching(pairs[1..], plan)
  }

  function SelectPair(pairs: seq<PairRecord>, plan: Plan): Result<PairRecord, PackageError> {
    var matches := Matching(pairs, plan);
    if |matches| != 1 then Err(PairNotUnique) else Ok(matches[0])
  }

  ghost predicate OnlyMatchAt(pairs: seq<PairRecord>, plan: Plan, i: nat) {
    i < |pairs| && Matches(pairs[i], plan) && forall j :: 0 <= j < |pairs| && j != i ==> !Matches(pairs[j], plan)
  }

  /** `select_pair` answers with the pair that no other pair of the result matches. */
  lemma {:induction false} SelectPairUnique(pairs: seq<PairRecord>, plan: Plan)
    ensures SelectPair(pairs, plan).Ok? <==>
            exists i :: OnlyMatchAt(pairs, plan, i)
    ensures SelectPair(pairs, plan).Ok? ==>
            SelectPair(pairs, plan).value in pairs && Matches(SelectPair(pairs, plan).value, plan)
  {
    MatchingCounts(pairs, plan);
    if |Matching(pairs, plan)| == 1 {
      var i := OnlyMatch(pairs, plan);
    }
    if i :| OnlyMatchAt(pairs, plan, i) {
      OnlyMatchCounts(pairs, plan, i);
    }
  }

  lemma {:induction false} MatchingCounts(pairs: seq<PairRecord>, plan: Plan)
    ensures forall r :: r in Matching(pairs, plan) ==> r in pairs && Matches(r, plan)
    ensures Matching(pairs, plan) == [] <==> forall j :: 0 <= j < |pairs| ==> !Matches(pairs[j], plan)
  {
    if pairs != [] {
      MatchingCounts(pairs[1..], plan);
      if Matching(pairs, plan) == [] {
        forall j | 0 <= j < |pairs| ensures !Matches(pairs[j], plan) {
          assert j > 0 ==> pairs[j] == pairs[1..][j - 1];
        }
      }
      if forall j :: 0 <= j < |pairs| ==> !Matches(pairs[j], plan) {
        assert forall j :: 0 <= j < |pairs[1..]| ==> pairs[1..][j] == pairs[j + 1];
      }
    }
  }

  lemma {:induction false} OnlyMatch(pairs: seq<PairRecord>, plan: Plan) returns (i: nat)
    requires |Matching(pairs, plan)| == 1
    ensures OnlyMatchAt(pairs, plan, i)
  {
    if Matches(pairs[0], plan) {
      i := 0;
      MatchingCounts(pairs[1..], plan);
      assert forall j :: 1 <= j < |pairs| ==> pairs[j] == pairs[1..][j - 1];
    } else {
      var k := OnlyMatch(pairs[1..], plan);
      i := k + 1;
      assert forall j :: 1 <= j < |pairs| ==> pairs[j] == pairs[1..][j - 1];
    }
  }

  lemma {:induction false} OnlyMatchCounts(pairs: seq<PairRecord>, plan: Plan, i: nat)
    requires OnlyMatchAt(pairs, plan, i)
    ensures |Matching(pairs, plan)| == 1
  {
    MatchingCounts(pairs[1..], plan);
    if i == 0 {
      assert forall j :: 0 <= j < |pairs[1..]| ==> pairs[1..][j] == pairs[j + 1];
    } else {
      assert pairs[1..][i - 1] == pairs[i];
      assert forall j :: 0 <= j < |pairs[1..]| ==> pairs[1..][j] == pairs[j + 1];
      OnlyMatchCounts(pairs[1..], plan, i - 1);
    }
  }

  /** The first rule of `verify_plan` that the plan breaks. */
  function PlanFault(plan: Plan, e: Economics, blockNumber: nat, blockHash: nat): Option<PackageError>
    requires e.ExactFullCost?
  {
    if plan.chainId != CHAIN_ID then Some(PlanChain)
    else if plan.blockNumber != blockNumber || plan.blockHash != blockHash then Some(PlanIdentity)
    else if plan.repay < 1 || plan.repay != e.repay || plan.maxRepay != e.repay ||
            plan.seizedCollateral < 1 || plan.seizedCollateral != e.liquidatorCollateral then Some(PlanAmounts)
    else if plan.atlasBid < 0 || plan.maxAtlasBid < 0 || plan.atlasBid != e.atlasBid ||
            plan.maxAtlasBid > e.maxRationalBid || plan.atlasBid > plan.maxAtlasBid then Some(PlanBid)
    else if plan.minimumProfitBase < 1 || plan.minimumProfitBase < e.retainedFloor || plan.minimumProfit < 1 then
      Some(PlanProfit)
    else if !plan.atomicBoundsEnforced || !plan.calldataBound ||
            |plan.amounts| != REQUIRED_AMOUNTS || (exists i :: 0 <= i < |plan.amounts| && plan.amounts[i] < 1) ||
            !plan.nonceAssumption || !plan.allCostsIncluded ||
            plan.predictionErrorBps < 0 || plan.maximumErrorBps < 0 || plan.predictionErrorBps > plan.maximumErrorBps ||
            plan.detectedAt < 1 || plan.expiresAt < plan.detectedAt + 1 || plan.latency < 1 ||
            plan.expiresAt - plan.detectedAt <= plan.latency || plan.grantsAuthority then Some(PlanShape)
    else None
  }

  /** The status COMPLETE of an auction result: no pair of any borrower lacks an exact full cost. */
  predicate AllExact(pairs: seq<PairRecord>) {
    forall i :: 0 <= i < |pairs| ==> pairs[i].economics.ExactFullCost?
  }

  function BuildPackage(
      pairs: seq<PairRecord>, plan: Plan, blockNumber: nat, blockHash: nat): Result<PairRecord, PackageError>
  {
    if !AllExact(pairs) then Err(ResultIncomplete) else
    var pair :- SelectPair(pairs, plan);
    var e := pair.economics;
    if !e.ExactFullCost? then Err(NotExact)
    else if !(e.validity.reserveFlags && e.validity.graceElapsed && e.validity.dustRule) then Err(ConstraintViolated)
    else if e.expectedPnl < 0 || e.conservativePnl < 0 ||
            e.expectedPnl <= e.retainedFloor || e.conservativePnl <= e.retainedFloor ||
            e.marginToGate < 1 || e.marginToGate != e.conservativePnl - e.retainedFloor then Err(FloorNotCleared)
    else if blockNumber < 1 then Err(CheckpointInvalid)
    else
      match PlanFault(plan, e, blockNumber, blockHash)
      case Some(fault) => Err(fault)
      case None => Ok(pair)
  }

  /** The plan is for this checkpoint, and repays and seizes exactly what was evaluated, at least one unit each. */
  predicate BoundTo(plan: Plan, e: Economics, blockNumber: nat, blockHash: nat)
    requires e.ExactFullCost?
  {
    && plan.chainId == 42161 && plan.blockNumber == blockNumber && plan.blockHash == blockHash
    && 1 <= plan.repay == plan.maxRepay == e.repay && 1 <= plan.seizedCollateral == e.liquidatorCollateral
  }

  predicate BidsRationally(plan: Plan, e: Economics)
    requires e.ExactFullCost?
  {
    0 <= plan.atlasBid == e.atlasBid <= plan.maxAtlasBid <= e.maxRationalBid
  }

  predicate KeepsFloor(plan: Plan, e: Economics)
    requires e.ExactFullCost?
  {
    plan.minimumProfitBase >= 1 && plan.minimumProfit >= 1 && plan.minimumProfitBase >= e.retainedFloor
  }

  /** Every bound, cost and assumption is stated, and the prediction error is within its limit. */
  predicate Stated(plan: Plan) {
    && plan.atomicBoundsEnforced && plan.calldataBound && plan.nonceAssumption && plan.allCostsIncluded
    && |plan.amounts| == 7 && (forall i :: 0 <= i < 7 ==> plan.amounts[i] >= 1)
    && 0 <= plan.predictionErrorBps <= plan.maximumErrorBps && !plan.grantsAuthority
  }

  /** The opportunity outlives the latency. */
  predicate InTime(plan: Plan) {
    plan.detectedAt >= 1 && plan.latency >= 1 && plan.expiresAt > plan.detectedAt + plan.latency
  }

  /** The protocol lets the pair be liquidated and its outcomes clear the floor by the recorded margin. */
  predicate Profitable(e: Economics)
    requires e.ExactFullCost?
  {
    && e.validity.reserveFlags && e.validity.graceElapsed && e.validity.dustRule
    && e.expectedPnl > e.retainedFloor && e.conservativePnl > e.retainedFloor
    && e.marginToGate == e.conservativePnl - e.retainedFloor
  }

  lemma NoFaultIff(plan: Plan, e: Economics, blockNumber: nat, blockHash: nat)
    requires e.ExactFullCost?
    ensures PlanFault(plan, e, blockNumber, blockHash) == None <==>
            && BoundTo(plan, e, blockNumber, blockHash) && BidsRationally(plan, e) && KeepsFloor(plan, e)
            && Stated(plan) && InTime(plan)
  {}

  /** A package is built from a result and a plan exactly for the only pair they name, under all these conditions. */
  lemma PackageAcceptedIff(pairs: seq<PairRecord>, plan: Plan, blockNumber: nat, blockHash: nat, r: PairRecord)
    ensures BuildPackage(pairs, plan, blockNumber, blockHash) == Ok(r) <==>
            && AllExact(pairs) && blockNumber >= 1
            && Matches(r, plan) && StandsAlone(pairs, r)
            && r.economics.ExactFullCost? && Profitable(r.economics)
            && BoundTo(plan, r.economics, blockNumber, blockHash) && BidsRationally(plan, r.economics)
            && KeepsFloor(plan, r.economics) && Stated(plan) && InTime(plan)
  {
    if Matches(r, plan) {
      SelectedIffAlone(pairs, plan, r);
    }
    MatchingCounts(pairs, plan);
    if r.economics.ExactFullCost? {
      NoFaultIff(plan, r.economics, blockNumber, blockHash);
    }
  }

  /**
   * For every accepted package built from an evaluated pair, every bid the plan allows leaves at least the retained
   * floor.
   */
  lemma BidSafety(pairs: seq<PairRecord>, plan: Plan, blockNumber: nat, blockHash: nat,
                  x: Pair, flagsOk: bool, graceOk: bool, q: Quote, bid: nat)
    requires BuildPackage(pairs, plan, blockNumber, blockHash).Ok?
    requires Evaluate(x, flagsOk, graceOk, Some(q), blockNumber, blockHash)
             == Ok(BuildPackage(pairs, plan, blockNumber, blockHash).value.economics)
    requires bid <= plan.maxAtlasBid
    ensures plan.atlasBid >= 0
    ensures ConservativePnlAt(x, q, bid) >= q.retainedFloor
    ensures ConservativePnlAt(x, q, plan.atlasBid) > q.retainedFloor
    ensures plan.atlasBid <= plan.maxAtlasBid && plan.minimumProfitBase >= q.retainedFloor
    ensures plan.repay == x.Repay() && plan.seizedCollateral == x.LiquidatorCollateral()
  {
    PnlFallsWithBid(x, q, bid);
    PnlFallsWithBid(x, q, plan.atlasBid);
  }

  /** A plan that repays and seizes the evaluated amounts and bids up to the rational maximum. */
  function FittingPlan(r: PairRecord, blockNumber: nat, blockHash: nat): Plan
    requires r.economics.ExactFullCost?
  {
    var e := r.economics;
    Plan(CHAIN_ID, blockNumber, blockHash, r.borrower, r.debtAsset, r.collateralAsset,
         e.repay, e.repay, e.liquidatorCollateral, e.atlasBid, e.maxRationalBid, e.retainedFloor + 1, 1,
         true, true, [1, 1, 1, 1, 1, 1, 1], true, true, 0, 0, 1, 3, 1, false)
  }

  predicate SamePair(a: PairRecord, b: PairRecord) {
    a.borrower == b.borrower && a.debtAsset == b.debtAsset && a.collateralAsset == b.collateralAsset
  }

  /** The record stands once in the result, and no other record has its borrower and assets. */
  ghost predicate StandsAlone(pairs: seq<PairRecord>, r: PairRecord) {
    exists i :: StandsAloneAt(pairs, r, i)
  }

  ghost predicate StandsAloneAt(pairs: seq<PairRecord>, r: PairRecord, i: nat) {
    i < |pairs| && pairs[i] == r && forall j :: 0 <= j < |pairs| && j != i ==> !SamePair(pairs[j], r)
  }

  lemma SelectedIffAlone(pairs: seq<PairRecord>, plan: Plan, r: PairRecord)
    requires Matches(r, plan)
    ensures SelectPair(pairs, plan) == Ok(r) <==> StandsAlone(pairs, r)
  {
    MatchingCounts(pairs, plan);
    if SelectPair(pairs, plan) == Ok(r) {
      var i := OnlyMatch(pairs, plan);
      assert r in pairs;
      assert StandsAloneAt(pairs, r, i);
    }
    if StandsAlone(pairs, r) {
      var i :| StandsAloneAt(pairs, r, i);
      assert OnlyMatchAt(pairs, plan, i);
      OnlyMatchCounts(pairs, plan, i);
      assert Matching(pairs, plan)[0] in pairs;
    }
  }

  /** The outcomes of the record clear the floor and its amounts are at least 1. */
  predicate Clears(e: Economics) {
    && e.ExactFullCost? && e.repay >= 1 && e.liquidatorCollateral >= 1
    && e.expectedPnl > e.retainedFloor && e.conservativePnl > e.retainedFloor
  }

  /**
   * The gate is not too strict: an evaluated record of any result has an accepted plan if and only if the checkpoint is
   * not block zero, every pair of the result is exact, the record stands alone and its outcomes clear the floor.
   */
  lemma GateOpensIff(
      pairs: seq<PairRecord>, r: PairRecord, x: Pair, flagsOk: bool, graceOk: bool, q: Option<Quote>,
      blockNumber: nat, blockHash: nat)
    requires Evaluate(x, flagsOk, graceOk, q, blockNumber, blockHash) == Ok(r.economics)
    ensures (exists plan :: Matches(r, plan) && BuildPackage(pairs, plan, blockNumber, blockHash) == Ok(r)) <==>
            blockNumber >= 1 && AllExact(pairs) && StandsAlone(pairs, r) && Clears(r.economics)
  {
    forall plan | Matches(r, plan) && BuildPackage(pairs, plan, blockNumber, blockHash) == Ok(r)
      ensures blockNumber >= 1 && AllExact(pairs) && StandsAlone(pairs, r) && Clears(r.economics)
    {
      SelectedIffAlone(pairs, plan, r);
    }
    if blockNumber >= 1 && AllExact(pairs) && StandsAlone(pairs, r) && Clears(r.economics) {
      var plan := FittingPlan(r, blockNumber, blockHash);
      SelectedIffAlone(pairs, plan, r);
      assert PlanFault(plan, r.economics, blockNumber, blockHash) == None;
      assert Matches(r, plan) && BuildPackage(pairs, plan, blockNumber, blockHash) == Ok(r);
    }
  }

  /** One unit is repaid and one unit of collateral is the liquidator's. */
  ghost predicate OneUnit(x: Pair) {
    x.Valid() && x.Repay() == 1 && x.RepayBase() == 1 && x.LiquidatorCollateral() == 1 && x.DustRule()
  }

  /** An unwind that returns nothing, without costs or floor. */
  ghost predicate LosingQuote(q: Quote) {
    var free := Costs(0, 0, 0, 0, 0, 0, 0);
    q == Quote(1, 0, 1, 0, 1, true, 0, 0, 0, free, free, free, 0)
  }

  lemma OneUnitPair(x: Pair)
    requires UnitPair(x) && x.debt == 1 && x.bonusBps == PERCENTAGE_FACTOR && x.feeBps == 0
    ensures OneUnit(x)
  {
    UnitPairAmounts(x);
    assert PercentMulFloor(1, PERCENTAGE_FACTOR) == 1;
  }

  lemma SamplePair() returns (x: Pair)
    ensures x == Pair(1, 1, 0, 1, 1, 0, 1, 0, CloseFactorRules(0, 0, 0, 0), 10_000, 0)
    ensures OneUnit(x)
  {
    x := Pair(1, 1, 0, 1, 1, 0, 1, 0, CloseFactorRules(0, 0, 0, 0), 10_000, 0);
    assert PercentMulFloor(1, PERCENTAGE_FACTOR) == 1;
    OneUnitPair(x);
  }

  /** Without a premium rate there is no flash premium. */
  lemma NoPremium(x: Pair, q: Quote)
    requires x.Valid() && q.flashPremiumBps == 0
    ensures FlashPremiumBase(x, q) == 0
  {
    CeilZero(x.Repay() * 0, PERCENTAGE_FACTOR);
    CeilZero(0 * x.debtPrice, x.DebtUnit());
  }

  /** An unwind that returns nothing loses the one unit repaid. */
  lemma OneUnitLost(x: Pair, q: Quote)
    requires x.Valid() && x.RepayBase() == 1 && q.flashPremiumBps == 0
    ensures Pnl(x, q, 0, Costs(0, 0, 0, 0, 0, 0, 0)) == -1
  {
    NoPremium(x, q);
    assert MulDivFloor(0, x.debtPrice, x.DebtUnit()) == 0;
  }

  /** The result for such a pair and quote: one unit lost in every scenario, and a rational maximum of zero. */
  function OneUnitLostResult(): Economics {
    ExactFullCost(Validity(true, true, true), 1, 1, -1, -1, -1, 0, 0, 0, -1)
  }

  lemma ClampedBid(x: Pair, q: Quote)
    requires OneUnit(x) && LosingQuote(q)
    ensures Evaluate(x, true, true, Some(q), 1, 0) == Ok(OneUnitLostResult())
    ensures ConservativePnlAt(x, q, 0) == -1
  {
    OneUnitLost(x, q);
  }

  /**
   * Without the gate the clamp at zero misleads: one unit of debt against one unit of collateral that unwinds to
   * nothing has a rational maximum of zero, and a bid of zero already loses the floor of zero.
   */
  lemma ClampedBidExample() returns (x: Pair, q: Quote)
    ensures x == Pair(1, 1, 0, 1, 1, 0, 1, 0, CloseFactorRules(0, 0, 0, 0), 10_000, 0) && x.Valid()
    ensures LosingQuote(q) && Evaluate(x, true, true, Some(q), 1, 0) == Ok(OneUnitLostResult())
    ensures ConservativePnlAt(x, q, 0) == -1
    ensures OneUnitLostResult().maxRationalBid == 0 == q.retainedFloor
  {
    var free := Costs(0, 0, 0, 0, 0, 0, 0);
    q := Quote(1, 0, 1, 0, 1, true, 0, 0, 0, free, free, free, 0);
    x := SamplePair();
    ClampedBid(x, q);
  }
}
