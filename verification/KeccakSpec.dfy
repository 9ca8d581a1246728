/** Keccak-f[1600] as sections 3.2 and 3.3 of FIPS 202 define it, on 25 lanes with index x + 5y.
    The step mappings are written over the operations on one lane, so that the order in which lanes
    move can be studied apart from their bits. */
module KeccakSpec {
  type Lane = bv64
  type Shift = s: bv8 | 1 <= s <= 63 witness 1

  /** The operations that the step mappings apply to lanes. */
  datatype Ops<!T> = Ops(xor: (T, T) -> T, rotate: (T, Shift) -> T, chi: (T, T, T) -> T)

  function XorLane(a: Lane, b: Lane): Lane { a ^ b }

  function RotateLeft(v: Lane, s: Shift): Lane {
    (v << (s as bv7)) | (v >> ((64 - s) as bv7))
  }

  function ChiLane(a: Lane, b: Lane, c: Lane): Lane {
    a ^ ((!b) & c)
  }

  /** 64-bit lanes. */
  function LaneOps(): Ops<Lane> {
    Ops(XorLane, RotateLeft, ChiLane)
  }

  // ----- The step mappings -----

  function Column<T>(ops: Ops<T>, a: seq<T>, x: nat): T
    requires |a| == 25 && x < 5
  {
    ops.xor(ops.xor(ops.xor(ops.xor(a[x], a[x + 5]), a[x + 10]), a[x + 15]), a[x + 20])
  }

  function Delta<T>(ops: Ops<T>, a: seq<T>, x: nat): T
    requires |a| == 25 && x < 5
  {
    ops.xor(Column(ops, a, (x + 4) % 5), ops.rotate(Column(ops, a, (x + 1) % 5), 1))
  }

  function Theta<T>(ops: Ops<T>, a: seq<T>): (b: seq<T>)
    requires |a| == 25
    ensures |b| == 25
  {
    seq(25, i requires 0 <= i < 25 => ops.xor(a[i], Delta(ops, a, i % 5)))
  }

  /** The offsets of table 2 modulo the lane width; lane 0 is not rotated. */
  const RHO_OFFSETS: seq<bv8> := [
    0, 1, 62, 28, 27,
    36, 44, 6, 55, 20,
    3, 10, 43, 25, 39,
    41, 45, 15, 21, 8,
    18, 2, 61, 56, 14]

  function RotateLane<T>(ops: Ops<T>, v: T, s: bv8): T {
    if 1 <= s <= 63 then ops.rotate(v, s) else v
  }

  function Rho<T>(ops: Ops<T>, a: seq<T>): (b: seq<T>)
    requires |a| == 25
    ensures |b| == 25
  {
    seq(25, i requires 0 <= i < 25 => RotateLane(ops, a[i], RHO_OFFSETS[i]))
  }

  /** Pi moves lane (x + 3y, x) to lane (x, y). */
  function PiSource(i: nat): (j: nat)
    requires i < 25
    ensures j < 25
  {
    var x, y := i % 5, i / 5;
    (x + 3 * y) % 5 + 5 * x
  }

  function Pi<T>(a: seq<T>): (b: seq<T>)
    requires |a| == 25
    ensures |b| == 25
  {
    seq(25, i requires 0 <= i < 25 => a[PiSource(i)])
  }

  /** The lane d places further in the row of lane i. */
  function InRow(i: nat, d: nat): (j: nat)
    requires i < 25
    ensures j < 25
  {
    i / 5 * 5 + (i % 5 + d) % 5
  }

  function Chi<T>(ops: Ops<T>, a: seq<T>): (b: seq<T>)
    requires |a| == 25
    ensures |b| == 25
  {
    seq(25, i requires 0 <= i < 25 => ops.chi(a[i], a[InRow(i, 1)], a[InRow(i, 2)]))
  }

  function Iota<T>(ops: Ops<T>, a: seq<T>, constant: T): (b: seq<T>)
    requires |a| == 25
    ensures |b| == 25
  {
    a[0 := ops.xor(a[0], constant)]
  }

  function Round<T>(ops: Ops<T>, a: seq<T>, constant: T): (b: seq<T>)
    requires |a| == 25
    ensures |b| == 25
  {
    Iota(ops, Chi(ops, Pi(Rho(ops, Theta(ops, a)))), constant)
  }

  /** The first n rounds. */
  function Rounds<T>(ops: Ops<T>, a: seq<T>, constants: seq<T>, n: nat): (b: seq<T>)
    requires |a| == 25 && n <= |constants|
    ensures |b| == 25
  {
    if n == 0 then a else Round(ops, Rounds(ops, a, constants, n - 1), constants[n - 1])
  }

  // ----- The round constants of algorithm 5 -----

  /** One step of the linear feedback shift register. */
  function LfsrStep(r: bv8): bv8 {
    (r << 1) ^ (if r & 0x80 != 0 then 0x71 else 0)
  }

  function LfsrSteps(r: bv8, n: nat): bv8
    decreases n
  {
    if n == 0 then r else LfsrSteps(LfsrStep(r), n - 1)
  }

  function OutputBit(r: bv8): Lane {
    if r & 1 == 1 then 1 else 0
  }

  /** Seven successive output bits go to bits 2^j - 1 of the constant. */
  function ConstantFrom(r: bv8): Lane {
    var r1 := LfsrStep(r);
    var r2 := LfsrStep(r1);
    var r3 := LfsrStep(r2);
    var r4 := LfsrStep(r3);
    var r5 := LfsrStep(r4);
    var r6 := LfsrStep(r5);
    OutputBit(r) | (OutputBit(r1) << 1) | (OutputBit(r2) << 3) | (OutputBit(r3) << 7)
    | (OutputBit(r4) << 15) | (OutputBit(r5) << 31) | (OutputBit(r6) << 63)
  }

  /** The constant of round n: the register starts at 1 and moves seven steps a round. */
  function RoundConstant(n: nat): Lane {
    ConstantFrom(LfsrSteps(1, 7 * n))
  }

  // ----- The walk of algorithm 2 -----

  /** (x, y) goes to (y, 2x + 3y). */
  function NextLane(i: nat): (j: nat)
    requires i < 25
    ensures j < 25
  {
    var x, y := i % 5, i / 5;
    y + 5 * ((2 * x + 3 * y) % 5)
  }

  /** The lane of step t, from (1, 0). */
  function WalkLane(t: nat): (i: nat)
    ensures i < 25
  {
    if t == 0 then 1 else NextLane(WalkLane(t - 1))
  }
}
