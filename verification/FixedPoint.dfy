/** The rounding helpers of `atlas_borrower_index.py` and the division facts they rest on. */
module FixedPoint {
  const WAD := 1_000_000_000_000_000_000
  const RAY := 1_000_000_000_000_000_000_000_000_000
  const PERCENTAGE_FACTOR := 10_000

  function PercentMul(value: nat, percentage: nat): nat {
    (value * percentage + 5_000) / PERCENTAGE_FACTOR
  }

  function PercentMulFloor(value: nat, percentage: nat): nat {
    value * percentage / PERCENTAGE_FACTOR
  }

  function Min(a: int, b: int): int {
    if a <= b then a else b
  }

  function PercentMulCeil(value: nat, percentage: nat): nat {
    (value * percentage + PERCENTAGE_FACTOR - 1) / PERCENTAGE_FACTOR
  }

  function PercentDivFloor(value: nat, percentage: nat): nat
    requires percentage > 0
  {
    value * PERCENTAGE_FACTOR / percentage
  }

  function PercentDivCeil(value: nat, percentage: nat): nat
    requires percentage > 0
  {
    (value * PERCENTAGE_FACTOR + percentage - 1) / percentage
  }

  function RayMulFloor(value: nat, index: nat): nat {
    value * index / RAY
  }

  function RayMulCeil(value: nat, index: nat): nat {
    (value * index + RAY - 1) / RAY
  }

  function MulDivFloor(value: nat, multiplier: nat, divisor: nat): nat
    requires divisor > 0
  {
    DivAtLeast(value * multiplier, divisor, 0);
    value * multiplier / divisor
  }

  function MulDivCeil(value: nat, multiplier: nat, divisor: nat): nat
    requires divisor > 0
  {
    (value * multiplier + divisor - 1) / divisor
  }

  /** Division rounded half up. */
  function WadDiv(value: nat, divisor: nat): nat
    requires divisor > 0
  {
    (value * WAD + divisor / 2) / divisor
  }

  function Pow10(n: nat): (r: nat)
    ensures r >= 1
  {
    if n == 0 then 1 else 10 * Pow10(n - 1)
  }

  // ----- Division by multiplication -----

  lemma MulMonotone(a: int, b: int, c: int)
    requires a <= b && c >= 0
    ensures a * c <= b * c
    ensures c * a <= c * b
  {
    assert (b - a) * c >= 0;
  }

  /** q is at most the quotient exactly when q times the divisor is at most the dividend. */
  lemma DivAtLeast(a: int, d: int, q: int)
    requires d > 0
    ensures q <= a / d <==> q * d <= a
  {
    if q <= a / d {
      MulMonotone(q, a / d, d);
    } else {
      MulMonotone(a / d + 1, q, d);
      assert (a / d + 1) * d == a / d * d + d;
    }
  }

  lemma DivMonotone(a: int, b: int, d: int)
    requires d > 0 && a <= b
    ensures a / d <= b / d
  {
    DivAtLeast(a, d, a / d);
    DivAtLeast(b, d, a / d);
  }

  /** The ceiling is at most q exactly when q times the divisor covers the dividend. */
  lemma CeilAtMost(a: int, d: int, q: int)
    requires d > 0
    ensures (a + d - 1) / d <= q <==> a <= q * d
  {
    DivAtLeast(a + d - 1, d, q + 1);
    assert (q + 1) * d == q * d + d;
  }

  lemma CeilZero(a: nat, d: int)
    requires d > 0
    ensures (a + d - 1) / d == 0 <==> a == 0
  {
    CeilAtMost(a, d, 0);
    DivAtLeast(a + d - 1, d, 0);
  }

  lemma HalfUpAtLeast(x: int, d: int, q: int)
    requires d > 0
    ensures q <= (x + d / 2) / d <==> (2 * q - 1) * d <= 2 * x
  {
    DivAtLeast(x + d / 2, d, q);
    var p := q * d;
    assert (2 * q - 1) * d == 2 * p - d;
  }

  /** Half-up division grows with the dividend and shrinks with the divisor. */
  lemma WadDivMonotone(v: nat, d: nat, v': nat, d': nat)
    requires 0 < d' <= d && v <= v'
    ensures WadDiv(v, d) <= WadDiv(v', d')
  {
    var q := WadDiv(v, d);
    if q > 0 {
      HalfUpAtLeast(v * WAD, d, q);
      MulMonotone(d', d, 2 * q - 1);
      HalfUpAtLeast(v' * WAD, d', q);
    } else {
      DivAtLeast(v' * WAD + d' / 2, d', 0);
    }
  }

  // ----- What each rounding gives, without a division -----

  /** The largest integer not above value * multiplier / divisor, and the smallest not below it. */
  lemma MulDivExact(value: nat, multiplier: nat, divisor: nat, q: nat)
    requires divisor > 0
    ensures q <= MulDivFloor(value, multiplier, divisor) <==> q * divisor <= value * multiplier
    ensures MulDivCeil(value, multiplier, divisor) <= q <==> value * multiplier <= q * divisor
  {
    DivAtLeast(value * multiplier, divisor, q);
    CeilAtMost(value * multiplier, divisor, q);
  }

  lemma PercentMulExact(value: nat, percentage: nat, q: nat)
    ensures q <= PercentMulFloor(value, percentage) <==> q * 10_000 <= value * percentage
    ensures PercentMulCeil(value, percentage) <= q <==> value * percentage <= q * 10_000
    ensures q <= PercentMul(value, percentage) <==> (2 * q - 1) * 10_000 <= 2 * (value * percentage)
  {
    DivAtLeast(value * percentage, 10_000, q);
    CeilAtMost(value * percentage, 10_000, q);
    HalfUpAtLeast(value * percentage, 10_000, q);
  }

  lemma PercentDivExact(value: nat, percentage: nat, q: nat)
    requires percentage > 0
    ensures q <= PercentDivFloor(value, percentage) <==> q * percentage <= value * 10_000
    ensures PercentDivCeil(value, percentage) <= q <==> value * 10_000 <= q * percentage
  {
    DivAtLeast(value * 10_000, percentage, q);
    CeilAtMost(value * 10_000, percentage, q);
  }

  lemma RayMulExact(value: nat, index: nat, q: nat)
    ensures q <= RayMulFloor(value, index) <==> q * RAY <= value * index
    ensures RayMulCeil(value, index) <= q <==> value * index <= q * RAY
  {
    DivAtLeast(value * index, RAY, q);
    CeilAtMost(value * index, RAY, q);
  }

  lemma WadDivExact(value: nat, divisor: nat, q: nat)
    requires divisor > 0
    ensures q <= WadDiv(value, divisor) <==> (2 * q - 1) * divisor <= 2 * (value * WAD)
  {
    HalfUpAtLeast(value * WAD, divisor, q);
  }

  /** The units of the source are powers of ten. */
  lemma UnitsArePowers()
    ensures Pow10(0) == 1 && Pow10(4) == PERCENTAGE_FACTOR && Pow10(18) == WAD && Pow10(27) == RAY
  {}

  lemma {:induction false} Pow10Adds(m: nat, n: nat)
    ensures Pow10(m + n) == Pow10(m) * Pow10(n)
  {
    if m > 0 {
      Pow10Adds(m - 1, n);
      assert 10 * (Pow10(m - 1) * Pow10(n)) == 10 * Pow10(m - 1) * Pow10(n);
    }
  }
}
