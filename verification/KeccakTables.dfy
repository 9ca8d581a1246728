/** The three tables of the permutation, checked against the algorithms of FIPS 202 that generate them. */
module KeccakTables {
  import opened KeccakSpec

  const ROUND_CONSTANTS: seq<Lane> := [
    0x0000000000000001, 0x0000000000008082, 0x800000000000808A,
    0x8000000080008000, 0x000000000000808B, 0x0000000080000001,
    0x8000000080008081, 0x8000000000008009, 0x000000000000008A,
    0x0000000000000088, 0x0000000080008009, 0x000000008000000A,
    0x000000008000808B, 0x800000000000008B, 0x8000000000008089,
    0x8000000000008003, 0x8000000000008002, 0x8000000000000080,
    0x000000000000800A, 0x800000008000000A, 0x8000000080008081,
    0x8000000000008080, 0x0000000080000001, 0x8000000080008008]

  const ROTATIONS: seq<Shift> := [
    1, 3, 6, 10, 15, 21, 28, 36, 45, 55, 2, 14,
    27, 41, 56, 8, 25, 43, 62, 18, 39, 61, 20, 44]

  const PI: seq<nat> := [
    10, 7, 11, 17, 18, 3, 5, 16, 8, 21, 24, 4,
    15, 23, 19, 13, 12, 2, 20, 14, 22, 9, 6, 1]

  /** The lane that step t of the in-place walk reads: lane 1, then the last destination. */
  function Source(t: nat): (i: nat)
    requires t <= 24
    ensures i < 25
  {
    if t == 0 then 1 else PI[t - 1]
  }

  lemma PiNext0(t: nat)
    requires 0 <= t < 12
    ensures PI[t] == NextLane(Source(t))
  {}

  lemma PiNext1(t: nat)
    requires 12 <= t < 24
    ensures PI[t] == NextLane(Source(t))
  {}

  lemma PiNext(t: nat)
    requires t < 24
    ensures PI[t] == NextLane(Source(t))
  {
    if t < 12 { PiNext0(t); } else { PiNext1(t); }
  }

  lemma PiBack(t: nat)
    requires t < 24
    ensures PiSource(PI[t]) == Source(t)
  {}

  lemma OffsetTable0(t: nat)
    requires 0 <= t < 8
    ensures RHO_OFFSETS[Source(t)] == ROTATIONS[t]
  {}

  lemma OffsetTable1(t: nat)
    requires 8 <= t < 16
    ensures RHO_OFFSETS[Source(t)] == ROTATIONS[t]
  {}

  lemma OffsetTable2(t: nat)
    requires 16 <= t < 24
    ensures RHO_OFFSETS[Source(t)] == ROTATIONS[t]
  {}

  lemma OffsetTable(t: nat)
    requires t < 24
    ensures RHO_OFFSETS[Source(t)] == ROTATIONS[t]
  {
    if t < 8 { OffsetTable0(t); } else if t < 16 { OffsetTable1(t); } else { OffsetTable2(t); }
  }

  /** The in-place order is the walk of algorithm 2. */
  lemma {:induction false} TablesFollowWalk(t: nat)
    requires t < 24
    ensures Source(t) == WalkLane(t) && PI[t] == WalkLane(t + 1)
  {
    PiNext(t);
    if t > 0 { TablesFollowWalk(t - 1); }
  }

  lemma TriangularOffsets0(t: nat)
    requires 0 <= t < 12
    ensures ROTATIONS[t] as nat == (t + 1) * (t + 2) / 2 % 64
  {}

  lemma TriangularOffsets1(t: nat)
    requires 12 <= t < 24
    ensures ROTATIONS[t] as nat == (t + 1) * (t + 2) / 2 % 64
  {}

  lemma TriangularOffsets(t: nat)
    requires t < 24
    ensures ROTATIONS[t] as nat == (t + 1) * (t + 2) / 2 % 64
  {
    if t < 12 { TriangularOffsets0(t); } else { TriangularOffsets1(t); }
  }

  /** The register state at the start of each round. */
  const REGISTER: seq<bv8> := [
    0x01, 0x80, 0xD8, 0x1A, 0xDF, 0x09, 0x35, 0x4F, 0xCA, 0x70, 0x41, 0xEC,
    0xD5, 0xCD, 0x63, 0xAB, 0xAA, 0x2A, 0xF2, 0xE8, 0x37, 0x3E, 0x0B, 0x44]

  lemma RegisterConstant0(n: nat)
    requires 0 <= n < 8
    ensures ROUND_CONSTANTS[n] == ConstantFrom(REGISTER[n])
  {}

  lemma RegisterConstant1(n: nat)
    requires 8 <= n < 16
    ensures ROUND_CONSTANTS[n] == ConstantFrom(REGISTER[n])
  {}

  lemma RegisterConstant2(n: nat)
    requires 16 <= n < 24
    ensures ROUND_CONSTANTS[n] == ConstantFrom(REGISTER[n])
  {}

  lemma RegisterConstant(n: nat)
    requires n < 24
    ensures ROUND_CONSTANTS[n] == ConstantFrom(REGISTER[n])
  {
    if n < 8 { RegisterConstant0(n); } else if n < 16 { RegisterConstant1(n); } else { RegisterConstant2(n); }
  }

  lemma RegisterAdvance0(n: nat)
    requires 0 <= n < 11
    ensures REGISTER[n + 1] == LfsrSteps(REGISTER[n], 7)
  {}

  lemma RegisterAdvance1(n: nat)
    requires 11 <= n < 23
    ensures REGISTER[n + 1] == LfsrSteps(REGISTER[n], 7)
  {}

  lemma RegisterAdvance(n: nat)
    requires n < 23
    ensures REGISTER[n + 1] == LfsrSteps(REGISTER[n], 7)
  {
    if n < 11 { RegisterAdvance0(n); } else { RegisterAdvance1(n); }
  }

  lemma {:induction false} LfsrCompose(r: bv8, m: nat, n: nat)
    ensures LfsrSteps(r, m + n) == LfsrSteps(LfsrSteps(r, m), n)
    decreases m
  {
    if m > 0 { LfsrCompose(LfsrStep(r), m - 1, n); }
  }

  lemma {:induction false} RegisterAt(n: nat)
    requires n < 24
    ensures LfsrSteps(1, 7 * n) == REGISTER[n]
  {
    if n > 0 {
      RegisterAt(n - 1);
      LfsrCompose(1, 7 * (n - 1), 7);
      RegisterAdvance(n - 1);
    }
  }

  /** The round constants are those that the shift register of algorithm 5 produces. */
  lemma ConstantsFollowRegister(n: nat)
    requires n < 24
    ensures ROUND_CONSTANTS[n] == RoundConstant(n)
  {
    RegisterAt(n);
    RegisterConstant(n);
  }
}
