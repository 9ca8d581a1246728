/** Repay and seizure amounts of one debt/collateral pair (`_pair_economics`). */
module Liquidation {
  import opened FixedPoint

  datatype CloseFactorRules = CloseFactorRules(
    defaultBps: nat,
    healthFactorThreshold: nat,
    minimumReserveBase: nat,
    minimumLeftoverBase: nat)

  /** One debt and one collateral position with their prices, in an account below a health factor of one. */
  datatype Pair = Pair(
    debt: nat, debtPrice: nat, debtDecimals: nat,
    collateral: nat, collateralPrice: nat, collateralDecimals: nat,
    totalDebtBase: nat, healthFactor: nat,
    rules: CloseFactorRules,
    bonusBps: nat, feeBps: nat)
  {
    /** What the evaluator demands before it computes: prices of at least 1 and a bonus of at least 100%. */
    predicate Valid() {
      debtPrice >= 1 && collateralPrice >= 1 && bonusBps >= PERCENTAGE_FACTOR
    }

    function DebtUnit(): (u: nat) ensures u >= 1 { Pow10(debtDecimals) }

    function CollateralUnit(): (u: nat) ensures u >= 1 { Pow10(collateralDecimals) }

    function DebtReserveBase(): nat { MulDivCeil(debt, debtPrice, DebtUnit()) }

    function CollateralReserveBase(): nat { MulDivFloor(collateral, collateralPrice, CollateralUnit()) }

    /** The default close factor applies to large reserves of accounts close to health. */
    predicate CloseFactorApplies() {
      && CollateralReserveBase() >= rules.minimumReserveBase
      && DebtReserveBase() >= rules.minimumReserveBase
      && healthFactor > rules.healthFactorThreshold
    }

    function CloseFactorBase(): nat { PercentMul(totalDebtBase, rules.defaultBps) }

    function MaxDebt(): nat
      requires Valid()
    {
      if CloseFactorApplies() && DebtReserveBase() > CloseFactorBase()
      then MulDivFloor(CloseFactorBase(), DebtUnit(), debtPrice) else debt
    }

    /** The repayment before collateral is looked at. */
    function IntendedRepay(): nat
      requires Valid()
    {
      if debt <= MaxDebt() then debt else MaxDebt()
    }

    /** Weights that turn both amounts into one unit of value: a debt unit is worth Q, a collateral unit P. */
    function Q(): (q: nat)
      ensures debtPrice >= 1 ==> q >= 1
    {
      Positive(debtPrice, CollateralUnit());
      debtPrice * CollateralUnit()
    }

    function P(): (p: nat)
      ensures collateralPrice >= 1 ==> p >= 1
    {
      Positive(collateralPrice, DebtUnit());
      collateralPrice * DebtUnit()
    }

    function MaxCollateral(): nat
      requires Valid()
    {
      PercentMulFloor(MulDivFloor(IntendedRepay(), Q(), P()), bonusBps)
    }

    predicate Capped()
      requires Valid()
    {
      MaxCollateral() > collateral
    }

    function Seized(): nat
      requires Valid()
    {
      if Capped() then collateral else MaxCollateral()
    }

    function Repay(): nat
      requires Valid()
    {
      if Capped() then PercentDivCeil(MulDivFloor(collateral, P(), Q()), bonusBps) else IntendedRepay()
    }

    function RepayBase(): nat
      requires Valid()
    {
      MulDivCeil(Repay(), debtPrice, DebtUnit())
    }

    /** The part of the seized collateral that is not the bonus. */
    function SeizedWithoutBonus(): nat
      requires Valid()
    {
      PercentDivFloor(Seized(), bonusBps)
    }

    function ProtocolFee(): nat
      requires Valid()
    {
      WithoutBonusAtMost(Seized(), bonusBps);
      if feeBps == 0 then 0 else PercentMulCeil(Seized() - SeizedWithoutBonus(), feeBps)
    }

    function LiquidatorCollateral(): int
      requires Valid()
    {
      Seized() - ProtocolFee()
    }

    /** Either side is used up, or both leave at least the minimum behind. */
    predicate DustRule()
      requires Valid()
    {
      AmountsBounded(this);
      var remainingDebt: nat, remainingCollateral: nat := debt - Repay(), collateral - Seized();
      remainingDebt == 0 || remainingCollateral == 0 ||
      (MulDivCeil(remainingDebt, debtPrice, DebtUnit()) >= rules.minimumLeftoverBase &&
       MulDivFloor(remainingCollateral, collateralPrice, CollateralUnit()) >= rules.minimumLeftoverBase)
    }
  }

  lemma Positive(a: nat, b: nat)
    requires b >= 1
    ensures a * b >= 0 && (a >= 1 ==> a * b >= 1)
  {}

  lemma WithoutBonusAtMost(seized: nat, bonusBps: nat)
    requires bonusBps >= PERCENTAGE_FACTOR
    ensures PercentDivFloor(seized, bonusBps) <= seized
  {
    DivAtLeast(seized * PERCENTAGE_FACTOR, bonusBps, seized + 1);
    MulMonotone(PERCENTAGE_FACTOR, bonusBps, seized);
    assert (seized + 1) * bonusBps == seized * bonusBps + bonusBps;
  }

  // ----- Bounds on the amounts -----

  /** Recomputing the repayment from the capped collateral never increases it. */
  lemma CappedRepayShrinks(repay: nat, c: nat, p: nat, q: nat, bonus: nat)
    requires p >= 1 && q >= 1 && bonus >= PERCENTAGE_FACTOR
    requires PercentMulFloor(MulDivFloor(repay, q, p), bonus) > c
    ensures PercentDivCeil(MulDivFloor(c, p, q), bonus) <= repay
  {
    var base, x := MulDivFloor(repay, q, p), MulDivFloor(c, p, q);
    DivAtLeast(base * bonus, PERCENTAGE_FACTOR, c + 1);
    DivAtLeast(repay * q, p, base);
    DivAtLeast(c * p, q, x);
    CeilAtMost(x * PERCENTAGE_FACTOR, bonus, repay);
    if repay * bonus < x * PERCENTAGE_FACTOR {
      // Scaling by q: the capped value is below repay * bonus * q, against x * q <= c * p.
      MulMonotone(repay * bonus + 1, x * PERCENTAGE_FACTOR, q);
      MulMonotone((c + 1) * PERCENTAGE_FACTOR, base * bonus, p);
      MulMonotone(base * p, repay * q, bonus);
      Rearranged(repay, c, p, q, bonus, base, x);
    }
  }

  lemma Rearranged(repay: nat, c: nat, p: nat, q: nat, bonus: nat, base: nat, x: nat)
    ensures (repay * bonus + 1) * q == repay * q * bonus + q
    ensures (x * PERCENTAGE_FACTOR) * q == (x * q) * PERCENTAGE_FACTOR
    ensures ((c + 1) * PERCENTAGE_FACTOR) * p == (c * p) * PERCENTAGE_FACTOR + PERCENTAGE_FACTOR * p
    ensures (base * bonus) * p == (base * p) * bonus
  {}

  lemma AmountsBounded(x: Pair)
    requires x.Valid()
    ensures x.Repay() <= x.IntendedRepay() <= x.debt
    ensures x.Seized() <= x.collateral
  {
    if x.Capped() {
      CappedRepayShrinks(x.IntendedRepay(), x.collateral, x.P(), x.Q(), x.bonusBps);
    }
  }

  /** Across all roundings, a repayment under the close factor is worth at most the close factor share of the debt. */
  lemma CloseFactorRespected(x: Pair)
    requires x.Valid() && x.CloseFactorApplies()
    ensures x.RepayBase() <= PercentMul(x.totalDebtBase, x.rules.defaultBps)
  {
    AmountsBounded(x);
    var share, repay, unit := x.CloseFactorBase(), x.Repay(), x.DebtUnit();
    CeilAtMost(repay * x.debtPrice, unit, share);
    if x.DebtReserveBase() > share {
      DivAtLeast(share * unit, x.debtPrice, repay);
    } else {
      CeilAtMost(x.debt * x.debtPrice, unit, share);
      MulMonotone(repay, x.debt, x.debtPrice);
    }
  }

  // ----- What the amounts are, without a division -----

  /** A ceiling reaches m exactly when the dividend exceeds m - 1 whole divisors. */
  lemma CeilAtLeast(a: nat, d: int, m: nat)
    requires d > 0
    ensures (a + d - 1) / d >= m <==> m == 0 || a > (m - 1) * d
  {
    if m > 0 {
      CeilAtMost(a, d, m - 1);
    } else {
      DivAtLeast(a + d - 1, d, 0);
    }
  }

  /** The close factor applies to reserves of at least the minimum value of accounts above the threshold. */
  lemma CloseFactorAppliesIff(x: Pair)
    ensures x.CloseFactorApplies() <==>
            && x.collateral * x.collateralPrice >= x.rules.minimumReserveBase * Pow10(x.collateralDecimals)
            && (x.rules.minimumReserveBase == 0 ||
                x.debt * x.debtPrice > (x.rules.minimumReserveBase - 1) * Pow10(x.debtDecimals))
            && x.healthFactor > x.rules.healthFactorThreshold
  {
    DivAtLeast(x.collateral * x.collateralPrice, Pow10(x.collateralDecimals), x.rules.minimumReserveBase);
    CeilAtLeast(x.debt * x.debtPrice, Pow10(x.debtDecimals), x.rules.minimumReserveBase);
  }

  /**
   * The intended repayment is the whole debt, or, under the close factor, the largest part of it worth at most the
   * close factor share of the total debt.
   */
  lemma IntendedRepayLargest(x: Pair, amount: nat)
    requires x.Valid() && amount <= x.debt
    ensures !x.CloseFactorApplies() ==> x.IntendedRepay() == x.debt
    ensures x.CloseFactorApplies() ==>
              (amount <= x.IntendedRepay() <==>
               amount * x.debtPrice <= PercentMul(x.totalDebtBase, x.rules.defaultBps) * Pow10(x.debtDecimals))
  {
    var share, unit := x.CloseFactorBase(), Pow10(x.debtDecimals);
    DivAtLeast(share * unit, x.debtPrice, amount);
    CeilAtMost(x.debt * x.debtPrice, unit, share);
    MulMonotone(amount, x.debt, x.debtPrice);
  }

  /**
   * The seizure is capped exactly when the bonus on the collateral the repayment buys, `base`, exceeds the collateral;
   * else all of that is seized for the intended repayment.
   */
  lemma UncappedExact(x: Pair) returns (base: nat)
    requires x.Valid()
    ensures base * (x.collateralPrice * Pow10(x.debtDecimals))
            <= x.IntendedRepay() * (x.debtPrice * Pow10(x.collateralDecimals))
            < (base + 1) * (x.collateralPrice * Pow10(x.debtDecimals))
    ensures x.Capped() <==> (x.collateral + 1) * 10_000 <= base * x.bonusBps
    ensures !x.Capped() ==>
              && x.Repay() == x.IntendedRepay()
              && x.Seized() * 10_000 <= base * x.bonusBps < (x.Seized() + 1) * 10_000
  {
    base := MulDivFloor(x.IntendedRepay(), x.Q(), x.P());
    Bracket(x.IntendedRepay() * x.Q(), x.P());
    Bracket(base * x.bonusBps, 10_000);
    DivAtLeast(base * x.bonusBps, 10_000, x.collateral + 1);
  }

  /** A quotient and its successor enclose the dividend. */
  lemma Bracket(a: int, d: int)
    requires d > 0
    ensures a / d * d <= a < (a / d + 1) * d
  {
    DivAtLeast(a, d, a / d);
    DivAtLeast(a, d, a / d + 1);
  }

  /** Capped, all collateral goes, for the smallest repayment whose bonus covers what it is worth, `worth`. */
  lemma CappedExact(x: Pair) returns (worth: nat)
    requires x.Valid() && x.Capped()
    ensures x.Seized() == x.collateral
    ensures worth * (x.debtPrice * Pow10(x.collateralDecimals))
            <= x.collateral * (x.collateralPrice * Pow10(x.debtDecimals))
            < (worth + 1) * (x.debtPrice * Pow10(x.collateralDecimals))
    ensures worth * 10_000 <= x.Repay() * x.bonusBps
    ensures x.Repay() == 0 || (x.Repay() - 1) * x.bonusBps < worth * 10_000
  {
    worth := MulDivFloor(x.collateral, x.P(), x.Q());
    Bracket(x.collateral * x.P(), x.Q());
    CeilAtMost(worth * 10_000, x.bonusBps, x.Repay());
    CeilAtLeast(worth * 10_000, x.bonusBps, x.Repay());
  }

  /** The fee is the share of the bonus, rounded up; what is left is the liquidator's. */
  lemma FeeExact(x: Pair) returns (principal: nat, fee: nat)
    requires x.Valid()
    ensures principal * x.bonusBps <= x.Seized() * 10_000 < (principal + 1) * x.bonusBps && principal <= x.Seized()
    ensures (x.Seized() - principal) * x.feeBps <= fee * 10_000 < (x.Seized() - principal) * x.feeBps + 10_000
    ensures x.LiquidatorCollateral() == x.Seized() - fee
  {
    principal := x.SeizedWithoutBonus();
    WithoutBonusAtMost(x.Seized(), x.bonusBps);
    Bracket(x.Seized() * 10_000, x.bonusBps);
    fee := x.ProtocolFee();
    var share := (x.Seized() - principal) * x.feeBps;
    Bracket(share + 10_000 - 1, 10_000);
    CeilAtMost(share, 10_000, fee);
  }

  /** What the repayment is worth, rounded up. */
  lemma RepayBaseExact(x: Pair, q: nat)
    requires x.Valid()
    ensures x.RepayBase() <= q <==> x.Repay() * x.debtPrice <= q * Pow10(x.debtDecimals)
  {
    CeilAtMost(x.Repay() * x.debtPrice, Pow10(x.debtDecimals), q);
  }

  /** Nothing is left of one side, or at least the minimum value of both. */
  lemma DustRuleIff(x: Pair)
    requires x.Valid()
    ensures x.DustRule() <==>
            || x.Repay() == x.debt || x.Seized() == x.collateral || x.rules.minimumLeftoverBase == 0
            || (&& (x.debt - x.Repay()) * x.debtPrice > (x.rules.minimumLeftoverBase - 1) * Pow10(x.debtDecimals)
                && (x.collateral - x.Seized()) * x.collateralPrice
                   >= x.rules.minimumLeftoverBase * Pow10(x.collateralDecimals))
  {
    AmountsBounded(x);
    DebtWorthAtLeast(x.debt - x.Repay(), x.debtPrice, Pow10(x.debtDecimals), x.rules.minimumLeftoverBase);
    CollateralWorthAtLeast(
      x.collateral - x.Seized(), x.collateralPrice, Pow10(x.collateralDecimals), x.rules.minimumLeftoverBase);
  }

  lemma DebtWorthAtLeast(amount: nat, price: nat, unit: nat, m: nat)
    requires unit >= 1
    ensures MulDivCeil(amount, price, unit) >= m <==> m == 0 || amount * price > (m - 1) * unit
  {
    CeilAtLeast(amount * price, unit, m);
  }

  lemma CollateralWorthAtLeast(amount: nat, price: nat, unit: nat, m: nat)
    requires unit >= 1
    ensures MulDivFloor(amount, price, unit) >= m <==> amount * price >= m * unit
  {
    DivAtLeast(amount * price, unit, m);
  }

  // ----- The value of what is seized -----

  lemma UncappedWeighted(seized: nat, repay: nat, p: nat, q: nat, bonus: nat)
    requires p >= 1 && seized == PercentMulFloor(MulDivFloor(repay, q, p), bonus)
    ensures seized * p * PERCENTAGE_FACTOR <= repay * q * bonus
  {
    var base := MulDivFloor(repay, q, p);
    DivAtLeast(base * bonus, PERCENTAGE_FACTOR, seized);
    DivAtLeast(repay * q, p, base);
    MulMonotone(seized * PERCENTAGE_FACTOR, base * bonus, p);
    MulMonotone(base * p, repay * q, bonus);
    Regroup(base, bonus, p);
    Regroup(seized, PERCENTAGE_FACTOR, p);
  }

  lemma CappedWeighted(c: nat, repay: nat, p: nat, q: nat, bonus: nat)
    requires q >= 1 && bonus >= 1 && repay == PercentDivCeil(MulDivFloor(c, p, q), bonus)
    ensures c * p * PERCENTAGE_FACTOR < (repay * bonus + PERCENTAGE_FACTOR) * q
  {
    var worth := MulDivFloor(c, p, q);
    DivAtLeast(c * p, q, worth + 1);
    CeilAtMost(worth * PERCENTAGE_FACTOR, bonus, repay);
    MulMonotone((worth + 1) * PERCENTAGE_FACTOR, repay * bonus + PERCENTAGE_FACTOR, q);
    Regroup(worth + 1, PERCENTAGE_FACTOR, q);
  }

  /** Uncapped, the seized value is at most the repaid value plus the bonus. */
  lemma SeizureBoundUncapped(x: Pair)
    requires x.Valid() && !x.Capped()
    ensures x.Seized() * x.collateralPrice * x.DebtUnit() * PERCENTAGE_FACTOR
            <= x.Repay() * x.debtPrice * x.CollateralUnit() * x.bonusBps
  {
    UncappedWeighted(x.Seized(), x.Repay(), x.P(), x.Q(), x.bonusBps);
    Products(x.Seized(), x.collateralPrice, x.DebtUnit());
    Products(x.Repay(), x.debtPrice, x.CollateralUnit());
  }

  /** Capped, rounding costs less than one more unit of repaid debt. */
  lemma SeizureBoundCapped(x: Pair)
    requires x.Valid() && x.Capped()
    ensures x.Seized() * x.collateralPrice * x.DebtUnit() * PERCENTAGE_FACTOR
            < (x.Repay() * x.bonusBps + PERCENTAGE_FACTOR) * x.debtPrice * x.CollateralUnit()
  {
    CappedWeighted(x.collateral, x.Repay(), x.P(), x.Q(), x.bonusBps);
    Products(x.Seized(), x.collateralPrice, x.DebtUnit());
    Products(x.Repay() * x.bonusBps + PERCENTAGE_FACTOR, x.debtPrice, x.CollateralUnit());
  }

  lemma Regroup(a: int, b: int, c: int)
    ensures (a * b) * c == (a * c) * b
  {}

  lemma Products(a: nat, b: nat, c: nat)
    ensures a * b * c == a * (b * c)
  {}

  /** There is a bonus part exactly when the bonus rate is above 100% and something is seized. */
  lemma NoBonusIff(seized: nat, bonusBps: nat)
    requires bonusBps >= PERCENTAGE_FACTOR
    ensures PercentDivFloor(seized, bonusBps) == seized <==> bonusBps == PERCENTAGE_FACTOR || seized == 0
  {
    WithoutBonusAtMost(seized, bonusBps);
    DivAtLeast(seized * PERCENTAGE_FACTOR, bonusBps, seized);
    if bonusBps > PERCENTAGE_FACTOR && seized > 0 {
      MulMonotone(PERCENTAGE_FACTOR + 1, bonusBps, seized);
    }
  }

  /**
   * The protocol takes its fee from the bonus alone exactly when the fee is at most 100%, there is no bonus or nothing
   * is seized.
   */
  lemma LiquidatorKeepsPrincipalIff(x: Pair)
    requires x.Valid()
    ensures x.LiquidatorCollateral() >= x.SeizedWithoutBonus() <==>
            x.feeBps <= PERCENTAGE_FACTOR || x.bonusBps == PERCENTAGE_FACTOR || x.Seized() == 0
  {
    WithoutBonusAtMost(x.Seized(), x.bonusBps);
    NoBonusIff(x.Seized(), x.bonusBps);
    FeeWithinBonusIff(x.Seized() - x.SeizedWithoutBonus(), x.feeBps);
  }

  lemma FeeWithinBonusIff(bonus: nat, feeBps: nat)
    ensures PercentMulCeil(bonus, feeBps) <= bonus <==> feeBps <= PERCENTAGE_FACTOR || bonus == 0
  {
    CeilAtMost(bonus * feeBps, PERCENTAGE_FACTOR, bonus);
    if feeBps <= PERCENTAGE_FACTOR {
      MulMonotone(feeBps, PERCENTAGE_FACTOR, bonus);
    } else if bonus > 0 {
      MulMonotone(PERCENTAGE_FACTOR + 1, feeBps, bonus);
    }
  }

  /** Prices and units of one, and an account too far gone for the close factor. */
  predicate UnitPair(x: Pair) {
    && x.Valid() && x.debtPrice == 1 && x.collateralPrice == 1 && x.debtDecimals == 0 && x.collateralDecimals == 0
    && x.healthFactor == 0 && PercentMulFloor(x.debt, x.bonusBps) <= x.collateral
  }

  lemma UnitValue(a: nat)
    ensures MulDivFloor(a, 1, 1) == a && MulDivCeil(a, 1, 1) == a
  {}

  /** Such a pair repays its whole debt and seizes its worth with the bonus. */
  lemma UnitPairAmounts(x: Pair)
    requires UnitPair(x)
    ensures x.Repay() == x.debt && x.RepayBase() == x.debt && x.Seized() == PercentMulFloor(x.debt, x.bonusBps)
    ensures x.DebtUnit() == 1 && x.DustRule()
  {
    assert x.DebtUnit() == 1 && x.CollateralUnit() == 1;
    assert x.P() == 1 && x.Q() == 1;
    assert x.IntendedRepay() == x.debt;
    UnitValue(x.debt);
    AmountsBounded(x);
  }

  lemma FeeOfTwoHundredPercent()
    ensures PercentMulFloor(1, 20_000) == 2 && PercentDivFloor(2, 20_000) == 1 && PercentMulCeil(1, 20_000) == 2
  {}

  lemma FeeAboveBonus(x: Pair)
    requires UnitPair(x) && x.debt == 1 && x.bonusBps == 20_000 && x.feeBps == 20_000
    ensures x.Seized() == 2 && x.SeizedWithoutBonus() == 1 && x.LiquidatorCollateral() == 0
  {
    UnitPairAmounts(x);
    FeeOfTwoHundredPercent();
  }

  /** A fee of 200% on a bonus of one unit takes two: the liquidator gets nothing of the two units seized. */
  lemma FeeAboveBonusExample() returns (x: Pair)
    ensures x == Pair(1, 1, 0, 2, 1, 0, 1, 0, CloseFactorRules(0, 0, 0, 0), 20_000, 20_000)
    ensures x.Valid() && x.Seized() == 2 && x.SeizedWithoutBonus() == 1 && x.LiquidatorCollateral() == 0
  {
    x := Pair(1, 1, 0, 2, 1, 0, 1, 0, CloseFactorRules(0, 0, 0, 0), 20_000, 20_000);
    FeeOfTwoHundredPercent();
    FeeAboveBonus(x);
  }
}
