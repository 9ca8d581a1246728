/** Keccak-256 bit by bit, as sections 3 and 4 of FIPS 202 define it on the state array A[x, y, z]. */
module KeccakBits {
  import opened KeccakSpec
  import opened KeccakTables
  import opened KeccakIntegers
  import opened KeccakSponge

  /** The state arrays that come about: zeros, the steps of a round, and a block taken in. */
  datatype Array =
    | Zero
    | ThetaOf(before: Array)
    | RhoOf(before: Array)
    | PiOf(before: Array)
    | ChiOf(before: Array)
    | IotaOf(before: Array, constant: Lane)
    | XorOf(before: Array, block: Octets)

  /** z - s modulo 64. */
  function Back(z: Lane, s: Lane): (r: Lane)
    ensures r < 64
  {
    (z - s) & 63
  }

  function Xor(p: bool, q: bool): bool { p != q }

  // ----- The step mappings of section 3.2 -----

  /** Table 2. */
  const OFFSETS: seq<Lane> := [
    0, 1, 190, 28, 91,
    36, 300, 6, 55, 276,
    3, 10, 171, 153, 231,
    105, 45, 15, 21, 136,
    210, 66, 253, 120, 78]

  /** A[x, y, z], for x, y < 5 and z < 64. */
  function At(A: Array, x: nat, y: nat, z: Lane): bool
    requires z < 64
    decreases A, 0
  {
    match A
    case Zero => false
    case ThetaOf(B) => Xor(At(B, x, y, z), Xor(ColumnAt(B, (x + 4) % 5, z), ColumnAt(B, (x + 1) % 5, Back(z, 1))))
    case RhoOf(B) => if x < 5 && y < 5 then At(B, x, y, Back(z, OFFSETS[x + 5 * y])) else false
    case PiOf(B) => At(B, (x + 3 * y) % 5, x, z)
    case ChiOf(B) => Xor(At(B, x, y, z), !At(B, (x + 1) % 5, y, z) && At(B, (x + 2) % 5, y, z))
    case IotaOf(B, c) => if x == 0 && y == 0 then Xor(At(B, 0, 0, z), Bit(c, z)) else At(B, x, y, z)
    case XorOf(B, block) =>
      var i := x + 5 * y;
      if |block| == 136 && i < 17 then Xor(At(B, x, y, z), OctetBit(block[8 * i..8 * i + 8], z)) else At(B, x, y, z)
  }

  function ColumnAt(A: Array, x: nat, z: Lane): bool
    requires z < 64
    decreases A, 1
  {
    Xor(Xor(Xor(Xor(At(A, x, 0, z), At(A, x, 1, z)), At(A, x, 2, z)), At(A, x, 3, z)), At(A, x, 4, z))
  }

  function RoundOf(A: Array, constant: Lane): Array {
    IotaOf(ChiOf(PiOf(RhoOf(ThetaOf(A)))), constant)
  }

  /** The first n rounds of section 3.3. */
  function RoundsOf(A: Array, constants: seq<Lane>, n: nat): Array
    requires n <= |constants|
  {
    if n == 0 then A else RoundOf(RoundsOf(A, constants, n - 1), constants[n - 1])
  }

  /** The round constants of section 3.2.5, from their shift register. */
  function Constants(): (c: seq<Lane>)
    ensures |c| == 24
  {
    seq(24, n requires 0 <= n < 24 => RoundConstant(n))
  }

  /** Bit z of a lane, the least significant first. */
  function Bit(v: Lane, z: Lane): bool
    requires z < 64
  {
    (v >> z) & 1 == 1
  }

  /** Bit z of eight octets, the least significant of each first. */
  function OctetBit(octets: Octets, z: Lane): bool
    requires |octets| == 8 && z < 64
  {
    ((octets[(z >> 3) as nat] as Lane) >> (z & 7)) & 1 == 1
  }

  // ----- The step mappings on lanes, whatever a lane is -----

  ghost predicate BitwiseXor<T(!new)>(ops: Ops<T>, bit: (T, Lane) -> bool) {
    forall a, b, z: Lane {:trigger bit(ops.xor(a, b), z)} :: z < 64 ==>
      bit(ops.xor(a, b), z) == Xor(bit(a, z), bit(b, z))
  }

  ghost predicate BitwiseChi<T(!new)>(ops: Ops<T>, bit: (T, Lane) -> bool) {
    forall a, b, c, z: Lane {:trigger bit(ops.chi(a, b, c), z)} :: z < 64 ==>
      bit(ops.chi(a, b, c), z) == Xor(bit(a, z), !bit(b, z) && bit(c, z))
  }

  ghost predicate BitwiseRotate<T(!new)>(ops: Ops<T>, bit: (T, Lane) -> bool) {
    forall v, i: nat, z: Lane {:trigger bit(RotateLane(ops, v, RHO_OFFSETS[i]), z)} :: i < 25 && z < 64 ==>
      bit(RotateLane(ops, v, RHO_OFFSETS[i]), z) == bit(v, Back(z, OFFSETS[i]))
  }

  /** The operations act on each bit of a lane as section 3.2 says. */
  ghost predicate Bitwise<T(!new)>(ops: Ops<T>, bit: (T, Lane) -> bool) {
    BitwiseXor(ops, bit) && BitwiseChi(ops, bit) && BitwiseRotate(ops, bit)
  }

  /** The lanes hold the state array. */
  ghost predicate Shows<T>(a: seq<T>, bit: (T, Lane) -> bool, A: Array) {
    |a| == 25 && forall x: nat, y: nat, z: Lane :: x < 5 && y < 5 && z < 64 ==> At(A, x, y, z) == bit(a[x + 5 * y], z)
  }

  lemma ColumnShows<T(!new)>(ops: Ops<T>, bit: (T, Lane) -> bool, a: seq<T>, A: Array, x: nat, z: Lane)
    requires Bitwise(ops, bit) && Shows(a, bit, A) && x < 5 && z < 64
    ensures bit(Column(ops, a, x), z) == ColumnAt(A, x, z)
  {
    assert At(A, x, 0, z) == bit(a[x], z) && At(A, x, 1, z) == bit(a[x + 5], z) && At(A, x, 2, z) == bit(a[x + 10], z);
    assert At(A, x, 3, z) == bit(a[x + 15], z) && At(A, x, 4, z) == bit(a[x + 20], z);
  }

  lemma OneBack<T(!new)>(ops: Ops<T>, bit: (T, Lane) -> bool, v: T, z: Lane)
    requires Bitwise(ops, bit) && z < 64
    ensures bit(ops.rotate(v, 1), z) == bit(v, Back(z, 1))
  {
    assert RHO_OFFSETS[1] == 1 && OFFSETS[1] == 1;
    assert RotateLane(ops, v, RHO_OFFSETS[1]) == ops.rotate(v, 1);
  }

  lemma DeltaShows<T(!new)>(
      ops: Ops<T>, bit: (T, Lane) -> bool, a: seq<T>, A: Array, left: nat, right: nat, z: Lane)
    requires Bitwise(ops, bit) && Shows(a, bit, A) && left < 5 && right < 5 && z < 64
    ensures bit(ops.xor(Column(ops, a, left), ops.rotate(Column(ops, a, right), 1)), z)
            == Xor(ColumnAt(A, left, z), ColumnAt(A, right, Back(z, 1)))
  {
    ColumnShows(ops, bit, a, A, left, z);
    ColumnShows(ops, bit, a, A, right, Back(z, 1));
    OneBack(ops, bit, Column(ops, a, right), z);
  }

  lemma Coordinates(x: nat, y: nat)
    requires x < 5 && y < 5
    ensures (x + 5 * y) % 5 == x && (x + 5 * y) / 5 == y
  {}

  lemma ThetaLane<T>(ops: Ops<T>, a: seq<T>, x: nat, y: nat)
    requires |a| == 25 && x < 5 && y < 5
    ensures Theta(ops, a)[x + 5 * y] == ops.xor(a[x + 5 * y], Delta(ops, a, x))
  {
    Coordinates(x, y);
  }

  lemma ThetaAt<T(!new)>(ops: Ops<T>, bit: (T, Lane) -> bool, a: seq<T>, A: Array, x: nat, y: nat, z: Lane)
    requires Bitwise(ops, bit) && Shows(a, bit, A) && x < 5 && y < 5 && z < 64
    ensures At(ThetaOf(A), x, y, z) == bit(Theta(ops, a)[x + 5 * y], z)
  {
    ThetaLane(ops, a, x, y);
    DeltaShows(ops, bit, a, A, (x + 4) % 5, (x + 1) % 5, z);
    assert At(A, x, y, z) == bit(a[x + 5 * y], z);
  }

  lemma ThetaShows<T(!new)>(ops: Ops<T>, bit: (T, Lane) -> bool, a: seq<T>, A: Array)
    requires Bitwise(ops, bit) && Shows(a, bit, A)
    ensures Shows(Theta(ops, a), bit, ThetaOf(A))
  {
    forall x: nat, y: nat, z: Lane | x < 5 && y < 5 && z < 64
      ensures At(ThetaOf(A), x, y, z) == bit(Theta(ops, a)[x + 5 * y], z)
    {
      ThetaAt(ops, bit, a, A, x, y, z);
    }
  }

  lemma RhoAt<T(!new)>(ops: Ops<T>, bit: (T, Lane) -> bool, a: seq<T>, A: Array, x: nat, y: nat, z: Lane)
    requires Bitwise(ops, bit) && Shows(a, bit, A) && x < 5 && y < 5 && z < 64
    ensures At(RhoOf(A), x, y, z) == bit(Rho(ops, a)[x + 5 * y], z)
  {
    var i := x + 5 * y;
    assert Rho(ops, a)[i] == RotateLane(ops, a[i], RHO_OFFSETS[i]);
    var w := Back(z, OFFSETS[i]);
    assert bit(RotateLane(ops, a[i], RHO_OFFSETS[i]), z) == bit(a[i], w);
    assert At(A, x, y, w) == bit(a[x + 5 * y], w);
  }

  lemma RhoShows<T(!new)>(ops: Ops<T>, bit: (T, Lane) -> bool, a: seq<T>, A: Array)
    requires Bitwise(ops, bit) && Shows(a, bit, A)
    ensures Shows(Rho(ops, a), bit, RhoOf(A))
  {
    forall x: nat, y: nat, z: Lane | x < 5 && y < 5 && z < 64
      ensures At(RhoOf(A), x, y, z) == bit(Rho(ops, a)[x + 5 * y], z)
    {
      RhoAt(ops, bit, a, A, x, y, z);
    }
  }

  lemma PiLane<T>(a: seq<T>, x: nat, y: nat, u: nat)
    requires |a| == 25 && x < 5 && y < 5 && u == (x + 3 * y) % 5
    ensures Pi(a)[x + 5 * y] == a[u + 5 * x]
  {
    Coordinates(x, y);
  }

  lemma PiPoint<T>(bit: (T, Lane) -> bool, a: seq<T>, A: Array, i: nat, x: nat, u: nat, z: Lane)
    requires Shows(a, bit, A) && i < 25 && x < 5 && u < 5 && z < 64 && Pi(a)[i] == a[u + 5 * x]
    ensures At(A, u, x, z) == bit(Pi(a)[i], z)
  {}

  lemma PiAt<T>(bit: (T, Lane) -> bool, a: seq<T>, A: Array, x: nat, y: nat, z: Lane)
    requires Shows(a, bit, A) && x < 5 && y < 5 && z < 64
    ensures At(PiOf(A), x, y, z) == bit(Pi(a)[x + 5 * y], z)
  {
    PiLane(a, x, y, (x + 3 * y) % 5);
    PiPoint(bit, a, A, x + 5 * y, x, (x + 3 * y) % 5, z);
  }

  lemma PiShows<T>(bit: (T, Lane) -> bool, a: seq<T>, A: Array)
    requires Shows(a, bit, A)
    ensures Shows(Pi(a), bit, PiOf(A))
  {
    forall x: nat, y: nat, z: Lane | x < 5 && y < 5 && z < 64
      ensures At(PiOf(A), x, y, z) == bit(Pi(a)[x + 5 * y], z)
    {
      PiAt(bit, a, A, x, y, z);
    }
  }

  lemma RowCoordinates(x: nat, y: nat, d: nat)
    requires x < 5 && y < 5
    ensures InRow(x + 5 * y, d) == (x + d) % 5 + 5 * y
  {
    Coordinates(x, y);
  }

  lemma ChiInRow<T>(ops: Ops<T>, a: seq<T>, i: nat, j: nat, k: nat)
    requires |a| == 25 && i < 25 && j == InRow(i, 1) && k == InRow(i, 2)
    ensures Chi(ops, a)[i] == ops.chi(a[i], a[j], a[k])
  {}

  lemma ChiLanes<T>(ops: Ops<T>, a: seq<T>, x: nat, y: nat, u: nat, v: nat)
    requires |a| == 25 && x < 5 && y < 5 && u == (x + 1) % 5 && v == (x + 2) % 5
    ensures Chi(ops, a)[x + 5 * y] == ops.chi(a[x + 5 * y], a[u + 5 * y], a[v + 5 * y])
  {
    RowCoordinates(x, y, 1);
    RowCoordinates(x, y, 2);
    ChiInRow(ops, a, x + 5 * y, u + 5 * y, v + 5 * y);
  }

  lemma ChiPoint<T(!new)>(
      ops: Ops<T>, bit: (T, Lane) -> bool, a: seq<T>, A: Array, x: nat, y: nat, u: nat, v: nat, z: Lane)
    requires BitwiseChi(ops, bit) && Shows(a, bit, A) && x < 5 && y < 5 && u < 5 && v < 5 && z < 64
    ensures bit(ops.chi(a[x + 5 * y], a[u + 5 * y], a[v + 5 * y]), z)
            == Xor(At(A, x, y, z), !At(A, u, y, z) && At(A, v, y, z))
  {}

  lemma ChiUnfold(A: Array, x: nat, y: nat, u: nat, v: nat, z: Lane)
    requires u == (x + 1) % 5 && v == (x + 2) % 5 && z < 64
    ensures At(ChiOf(A), x, y, z) == Xor(At(A, x, y, z), !At(A, u, y, z) && At(A, v, y, z))
  {}

  lemma ChiAt<T(!new)>(ops: Ops<T>, bit: (T, Lane) -> bool, a: seq<T>, A: Array, x: nat, y: nat, z: Lane)
    requires BitwiseChi(ops, bit) && Shows(a, bit, A) && x < 5 && y < 5 && z < 64
    ensures At(ChiOf(A), x, y, z) == bit(Chi(ops, a)[x + 5 * y], z)
  {
    var u, v := (x + 1) % 5, (x + 2) % 5;
    calc {
      At(ChiOf(A), x, y, z);
      { ChiUnfold(A, x, y, u, v, z); }
      Xor(At(A, x, y, z), !At(A, u, y, z) && At(A, v, y, z));
      { ChiPoint(ops, bit, a, A, x, y, u, v, z); }
      bit(ops.chi(a[x + 5 * y], a[u + 5 * y], a[v + 5 * y]), z);
      { ChiLanes(ops, a, x, y, u, v); }
      bit(Chi(ops, a)[x + 5 * y], z);
    }
  }

  lemma ChiShows<T(!new)>(ops: Ops<T>, bit: (T, Lane) -> bool, a: seq<T>, A: Array)
    requires Bitwise(ops, bit) && Shows(a, bit, A)
    ensures Shows(Chi(ops, a), bit, ChiOf(A))
  {
    forall x: nat, y: nat, z: Lane | x < 5 && y < 5 && z < 64
      ensures At(ChiOf(A), x, y, z) == bit(Chi(ops, a)[x + 5 * y], z)
    {
      ChiAt(ops, bit, a, A, x, y, z);
    }
  }

  lemma IotaAt<T(!new)>(
      ops: Ops<T>, bit: (T, Lane) -> bool, a: seq<T>, A: Array, constant: T, c: Lane, x: nat, y: nat, z: Lane)
    requires BitwiseXor(ops, bit) && Shows(a, bit, A) && x < 5 && y < 5 && z < 64 && bit(constant, z) == Bit(c, z)
    ensures At(IotaOf(A, c), x, y, z) == bit(Iota(ops, a, constant)[x + 5 * y], z)
  {
    assert At(A, x, y, z) == bit(a[x + 5 * y], z);
    if x == 0 && y == 0 {
      assert bit(ops.xor(a[0], constant), z) == Xor(bit(a[0], z), bit(constant, z));
    } else {
      assert Iota(ops, a, constant)[x + 5 * y] == a[x + 5 * y];
    }
  }

  lemma IotaShows<T(!new)>(ops: Ops<T>, bit: (T, Lane) -> bool, a: seq<T>, A: Array, constant: T, c: Lane)
    requires BitwiseXor(ops, bit) && Shows(a, bit, A) && forall z: Lane :: z < 64 ==> bit(constant, z) == Bit(c, z)
    ensures Shows(Iota(ops, a, constant), bit, IotaOf(A, c))
  {
    forall x: nat, y: nat, z: Lane | x < 5 && y < 5 && z < 64
      ensures At(IotaOf(A, c), x, y, z) == bit(Iota(ops, a, constant)[x + 5 * y], z)
    {
      IotaAt(ops, bit, a, A, constant, c, x, y, z);
    }
  }

  /** One round on lanes is one round on bits. */
  lemma RoundShows<T(!new)>(ops: Ops<T>, bit: (T, Lane) -> bool, a: seq<T>, A: Array, constant: T, c: Lane)
    requires Bitwise(ops, bit) && Shows(a, bit, A) && forall z: Lane :: z < 64 ==> bit(constant, z) == Bit(c, z)
    ensures Shows(Round(ops, a, constant), bit, RoundOf(A, c))
  {
    ThetaShows(ops, bit, a, A);
    RhoShows(ops, bit, Theta(ops, a), ThetaOf(A));
    PiShows(bit, Rho(ops, Theta(ops, a)), RhoOf(ThetaOf(A)));
    ChiShows(ops, bit, Pi(Rho(ops, Theta(ops, a))), PiOf(RhoOf(ThetaOf(A))));
    IotaShows(ops, bit, Chi(ops, Pi(Rho(ops, Theta(ops, a)))), ChiOf(PiOf(RhoOf(ThetaOf(A)))), constant, c);
  }

  /** The constants have the bits of the lanes `c`. */
  ghost predicate ConstantsShow<T>(constants: seq<T>, bit: (T, Lane) -> bool, c: seq<Lane>) {
    |constants| == |c| && forall k, z: Lane :: 0 <= k < |c| && z < 64 ==> bit(constants[k], z) == Bit(c[k], z)
  }

  lemma RoundStep<T(!new)>(
      ops: Ops<T>, bit: (T, Lane) -> bool, a: seq<T>, A: Array, constants: seq<T>, c: seq<Lane>, k: nat)
    requires Bitwise(ops, bit) && Shows(a, bit, A) && ConstantsShow(constants, bit, c) && k < |c|
    ensures Shows(Round(ops, a, constants[k]), bit, RoundOf(A, c[k]))
  {
    RoundShows(ops, bit, a, A, constants[k], c[k]);
  }

  /** What every round keeps, all rounds keep. */
  lemma {:induction false} RoundsKeep<T(!new)>(
      ops: Ops<T>, shows: (seq<T>, Array) -> bool, a: seq<T>, A: Array, constants: seq<T>, c: seq<Lane>, n: nat)
    requires |a| == 25 && shows(a, A) && n <= |constants| == |c|
    requires forall b, B, k :: |b| == 25 && shows(b, B) && 0 <= k < |c| ==>
               shows(Round(ops, b, constants[k]), RoundOf(B, c[k]))
    ensures shows(Rounds(ops, a, constants, n), RoundsOf(A, c, n))
  {
    if n > 0 {
      RoundsKeep(ops, shows, a, A, constants, c, n - 1);
    }
  }

  lemma RoundsShow<T(!new)>(
      ops: Ops<T>, bit: (T, Lane) -> bool, a: seq<T>, A: Array, constants: seq<T>, c: seq<Lane>, n: nat)
    requires Bitwise(ops, bit) && Shows(a, bit, A) && ConstantsShow(constants, bit, c) && n <= |c|
    ensures Shows(Rounds(ops, a, constants, n), bit, RoundsOf(A, c, n))
  {
    var shows := (b: seq<T>, B: Array) => Shows(b, bit, B);
    forall b, B, k | |b| == 25 && shows(b, B) && 0 <= k < |c|
      ensures shows(Round(ops, b, constants[k]), RoundOf(B, c[k]))
    {
      RoundStep(ops, bit, b, B, constants, c, k);
    }
    RoundsKeep(ops, shows, a, A, constants, c, n);
    assert shows(Rounds(ops, a, constants, n), RoundsOf(A, c, n));
  }

  // ----- The lane operations -----

  lemma BitOfXor(a: Lane, b: Lane, z: Lane)
    requires z < 64
    ensures Bit(a ^ b, z) == (Bit(a, z) != Bit(b, z))
  {}

  lemma BitOfChi(a: Lane, b: Lane, c: Lane, z: Lane)
    requires z < 64
    ensures Bit(a ^ (!b & c), z) == (Bit(a, z) != (!Bit(b, z) && Bit(c, z)))
  {}

  // Sixteen shifts at a time keep the barrel shifter small.
  lemma BitOfRotated0(v: Lane, s: Shift, z: Lane)
    requires z < 64 && s < 16
    ensures Bit((v << (s as bv7)) | (v >> ((64 - s) as bv7)), z) == Bit(v, (z - (s as Lane)) & 63)
  {}

  lemma BitOfRotated16(v: Lane, s: Shift, z: Lane)
    requires z < 64 && 16 <= s < 32
    ensures Bit((v << (s as bv7)) | (v >> ((64 - s) as bv7)), z) == Bit(v, (z - (s as Lane)) & 63)
  {}

  lemma BitOfRotated32(v: Lane, s: Shift, z: Lane)
    requires z < 64 && 32 <= s < 48
    ensures Bit((v << (s as bv7)) | (v >> ((64 - s) as bv7)), z) == Bit(v, (z - (s as Lane)) & 63)
  {}

  lemma BitOfRotated48(v: Lane, s: Shift, z: Lane)
    requires z < 64 && 48 <= s
    ensures Bit((v << (s as bv7)) | (v >> ((64 - s) as bv7)), z) == Bit(v, (z - (s as Lane)) & 63)
  {}

  lemma BitOfRotated(v: Lane, s: Shift, z: Lane)
    requires z < 64
    ensures Bit((v << (s as bv7)) | (v >> ((64 - s) as bv7)), z) == Bit(v, (z - (s as Lane)) & 63)
  {
    if s < 16 {
      BitOfRotated0(v, s, z);
    } else if s < 32 {
      BitOfRotated16(v, s, z);
    } else if s < 48 {
      BitOfRotated32(v, s, z);
    } else {
      BitOfRotated48(v, s, z);
    }
  }

  /** Bit z of a lane rotated by s is bit z - s, modulo 64, of the lane. */
  lemma RotateBit(v: Lane, s: Shift, z: Lane)
    requires z < 64
    ensures Bit(RotateLeft(v, s), z) == Bit(v, Back(z, s as Lane))
  {
    calc {
      Bit(RotateLeft(v, s), z);
      Bit((v << (s as bv7)) | (v >> ((64 - s) as bv7)), z);
      { BitOfRotated(v, s, z); }
      Bit(v, (z - (s as Lane)) & 63);
      Bit(v, Back(z, s as Lane));
    }
  }

  lemma XorBit(a: Lane, b: Lane, z: Lane)
    requires z < 64
    ensures Bit(XorLane(a, b), z) == (Bit(a, z) != Bit(b, z))
  {
    calc {
      Bit(XorLane(a, b), z);
      Bit(a ^ b, z);
      { BitOfXor(a, b, z); }
      Bit(a, z) != Bit(b, z);
    }
  }

  lemma ChiBit(a: Lane, b: Lane, c: Lane, z: Lane)
    requires z < 64
    ensures Bit(ChiLane(a, b, c), z) == (Bit(a, z) != (!Bit(b, z) && Bit(c, z)))
  {
    calc {
      Bit(ChiLane(a, b, c), z);
      Bit(a ^ (!b & c), z);
      { BitOfChi(a, b, c, z); }
      Bit(a, z) != (!Bit(b, z) && Bit(c, z));
    }
  }

  // ----- Lanes under the permutation -----

  function LaneBit(v: Lane, z: Lane): bool { z < 64 && Bit(v, z) }

  lemma OffsetsAgree0(i: nat)
    requires i < 8
    ensures RHO_OFFSETS[i] < 64 && OFFSETS[i] & 63 == RHO_OFFSETS[i] as Lane
  {}

  lemma OffsetsAgree8(i: nat)
    requires 8 <= i < 16
    ensures RHO_OFFSETS[i] < 64 && OFFSETS[i] & 63 == RHO_OFFSETS[i] as Lane
  {}

  lemma OffsetsAgree16(i: nat)
    requires 16 <= i < 25
    ensures RHO_OFFSETS[i] < 64 && OFFSETS[i] & 63 == RHO_OFFSETS[i] as Lane
  {}

  lemma OffsetsAgree(i: nat)
    requires i < 25
    ensures RHO_OFFSETS[i] < 64 && OFFSETS[i] & 63 == RHO_OFFSETS[i] as Lane
  {
    if i < 8 {
      OffsetsAgree0(i);
    } else if i < 16 {
      OffsetsAgree8(i);
    } else {
      OffsetsAgree16(i);
    }
  }

  lemma BackModulo(z: Lane, s: Lane, t: Lane)
    requires s & 63 == t
    ensures Back(z, s) == Back(z, t)
  {}

  lemma BackNone(z: Lane)
    requires z < 64
    ensures Back(z, 0) == z
  {}

  lemma RotateLaneBit(v: Lane, i: nat, z: Lane)
    requires i < 25 && z < 64
    ensures LaneBit(RotateLane(LaneOps(), v, RHO_OFFSETS[i]), z) == LaneBit(v, Back(z, OFFSETS[i]))
  {
    var s := RHO_OFFSETS[i];
    OffsetsAgree(i);
    BackModulo(z, OFFSETS[i], s as Lane);
    if s == 0 {
      BackNone(z);
    } else {
      RotateBit(v, s, z);
    }
  }

  lemma LanesBitwiseXor()
    ensures BitwiseXor(LaneOps(), LaneBit)
  {
    forall a, b, z: Lane | z < 64 ensures LaneBit(XorLane(a, b), z) == Xor(LaneBit(a, z), LaneBit(b, z)) {
      XorBit(a, b, z);
    }
  }

  lemma LanesBitwiseChi()
    ensures BitwiseChi(LaneOps(), LaneBit)
  {
    forall a, b, c, z: Lane | z < 64
      ensures LaneBit(ChiLane(a, b, c), z) == Xor(LaneBit(a, z), !LaneBit(b, z) && LaneBit(c, z))
    {
      ChiBit(a, b, c, z);
    }
  }

  lemma LanesBitwiseRotate()
    ensures BitwiseRotate(LaneOps(), LaneBit)
  {
    forall v, i: nat, z: Lane | i < 25 && z < 64
      ensures LaneBit(RotateLane(LaneOps(), v, RHO_OFFSETS[i]), z) == LaneBit(v, Back(z, OFFSETS[i]))
    {
      RotateLaneBit(v, i, z);
    }
  }

  /** The lane operations of the permutation are those of section 3.2 on every bit. */
  lemma LanesBitwise()
    ensures Bitwise(LaneOps(), LaneBit)
  {
    LanesBitwiseXor();
    LanesBitwiseChi();
    LanesBitwiseRotate();
  }

  /** The lanes hold the state array, bit by bit. */
  ghost predicate Holds(a: seq<Lane>, A: Array) {
    Shows(a, LaneBit, A)
  }

  lemma ConstantsAreTable()
    ensures Constants() == ROUND_CONSTANTS
  {
    forall n | 0 <= n < 24 ensures Constants()[n] == ROUND_CONSTANTS[n] {
      ConstantsFollowRegister(n);
    }
  }

  /** The permutation on lanes is the 24 rounds on bits. */
  lemma KeccakFHolds(a: seq<Lane>, A: Array)
    requires Holds(a, A)
    ensures Holds(KeccakF(a), RoundsOf(A, Constants(), 24))
  {
    ConstantsAreTable();
    LanesBitwise();
    RoundsShow(LaneOps(), LaneBit, a, A, ROUND_CONSTANTS, ROUND_CONSTANTS, 24);
  }

  // ----- Octets -----

  lemma LoadBit(b: Octets, z: Lane)
    requires |b| == 8 && z < 64
    ensures Bit(LoadLane(b), z) == OctetBit(b, z)
  {}

  lemma StoreBit(v: Lane, z: Lane)
    requires z < 64
    ensures OctetBit(StoreLane(v), z) == Bit(v, z)
  {
    LoadOfStore(v);
    LoadBit(StoreLane(v), z);
  }

  /** The padding is a one bit, zeros and a final one bit, the least significant bit of an octet first. */
  lemma PaddedBits(payload: Octets, i: nat, j: bv8)
    requires i < |Padded(payload)| && j < 8
    ensures |Padded(payload)| == (|payload| / 136 + 1) * 136
    ensures (Padded(payload)[i] >> j) & 1 == 1 <==>
            if i < |payload| then (payload[i] >> j) & 1 == 1
            else (i == |payload| && j == 0) || (i == |Padded(payload)| - 1 && j == 7)
  {
    if i >= |payload| {
      PaddedByte(payload, i);
    }
  }

  // ----- The sponge of section 4 -----

  /** Each block is added to the first 1088 bits of the state, and the state is permuted. */
  function AbsorbOf(A: Array, blocks: seq<Octets>): Array
    decreases |blocks|
  {
    if blocks == [] then A else AbsorbOf(RoundsOf(XorOf(A, blocks[0]), Constants(), 24), blocks[1..])
  }

  lemma XorBlockAt(a: seq<Lane>, A: Array, block: Octets, x: nat, y: nat, z: Lane)
    requires Holds(a, A) && |block| == RATE && x < 5 && y < 5 && z < 64
    ensures At(XorOf(A, block), x, y, z) == LaneBit(XorBlock(a, block)[x + 5 * y], z)
  {
    var i := x + 5 * y;
    assert At(A, x, y, z) == LaneBit(a[i], z);
    if i < 17 {
      XorAt(A, block, x, y, z);
      XorLoadBit(a[i], Word(block, i), z);
    }
  }

  lemma XorAt(A: Array, block: Octets, x: nat, y: nat, z: Lane)
    requires |block| == RATE && x < 5 && y < 5 && x + 5 * y < 17 && z < 64
    ensures At(XorOf(A, block), x, y, z) == Xor(At(A, x, y, z), OctetBit(Word(block, x + 5 * y), z))
  {}

  lemma XorLoadBit(v: Lane, b: Octets, z: Lane)
    requires |b| == 8 && z < 64
    ensures LaneBit(XorLane(v, LoadLane(b)), z) == Xor(LaneBit(v, z), OctetBit(b, z))
  {
    LoadBit(b, z);
    XorBit(v, LoadLane(b), z);
  }

  lemma XorBlockHolds(a: seq<Lane>, A: Array, block: Octets)
    requires Holds(a, A) && |block| == RATE
    ensures Holds(XorBlock(a, block), XorOf(A, block))
  {
    forall x: nat, y: nat, z: Lane | x < 5 && y < 5 && z < 64
      ensures At(XorOf(A, block), x, y, z) == LaneBit(XorBlock(a, block)[x + 5 * y], z)
    {
      XorBlockAt(a, A, block, x, y, z);
    }
  }

  lemma {:induction false} AbsorbHolds(a: seq<Lane>, A: Array, blocks: seq<Octets>)
    requires Holds(a, A) && AreBlocks(blocks)
    ensures Holds(Absorb(a, blocks), AbsorbOf(A, blocks))
    decreases |blocks|
  {
    if blocks != [] {
      XorBlockHolds(a, A, blocks[0]);
      KeccakFHolds(XorBlock(a, blocks[0]), XorOf(A, blocks[0]));
      AbsorbHolds(KeccakF(XorBlock(a, blocks[0])), RoundsOf(XorOf(A, blocks[0]), Constants(), 24), blocks[1..]);
    }
  }

  lemma ZerosHold()
    ensures Holds(Zeros(), Zero)
  {
    forall x: nat, y: nat, z: Lane | x < 5 && y < 5 && z < 64
      ensures At(Zero, x, y, z) == LaneBit(Zeros()[x + 5 * y], z)
    {
      ZeroBit(z);
    }
  }

  lemma ZeroBit(z: Lane)
    requires z < 64
    ensures !Bit(0, z)
  {}

  /** The 32 octets of the digest are the first 256 bits of the state after all blocks of the padded payload. */
  lemma DigestBits(payload: Octets, lane: nat, z: Lane)
    requires lane < 4 && z < 64
    ensures OctetBit(Digest(payload)[8 * lane..8 * lane + 8], z)
            == At(AbsorbOf(Zero, Blocks(Padded(payload))), lane, 0, z)
  {
    ZerosHold();
    AbsorbHolds(Zeros(), Zero, Blocks(Padded(payload)));
    DigestLane(payload, lane);
    StoreBit(FinalState(payload)[lane], z);
  }

  lemma DigestLane(payload: Octets, lane: nat)
    requires lane < 4
    ensures Digest(payload)[8 * lane..8 * lane + 8] == StoreLane(FinalState(payload)[lane])
  {
    var a := FinalState(payload);
    SerializePrefix(a, lane + 1);
    assert a[..lane + 1][..lane] == a[..lane];
    assert Serialize(a)[8 * lane..8 * lane + 8] == Serialize(a)[..8 * (lane + 1)][8 * lane..];
  }
}
