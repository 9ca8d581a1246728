/** `keccak256`: absorbing, padding and squeezing with a rate of 136 bytes. */
module KeccakSponge {
  import opened KeccakSpec
  import opened KeccakIntegers

  type Octets = seq<bv8>

  const RATE := 136

  // ----- The padding pad10*1 of section 5.1 of FIPS 202 -----

  /** One bit, zeros, and a final one bit, up to a whole block; the least significant bit comes first. */
  function Padding(n: nat): (p: Octets)
    ensures |p| >= 1 && (n + |p|) % RATE == 0 && |p| <= RATE
  {
    var q := RATE - n % RATE;
    if q == 1 then [0x81] else [0x01] + seq(q - 2, i => 0) + [0x80]
  }

  function Padded(payload: Octets): (m: Octets)
    ensures |m| % RATE == 0 && |payload| < |m| <= |payload| + RATE
  {
    payload + Padding(|payload|)
  }

  lemma PaddedByte(payload: Octets, i: nat)
    requires |payload| <= i < |Padded(payload)|
    ensures i == |payload| && i < |Padded(payload)| - 1 ==> Padded(payload)[i] == 0x01
    ensures i == |payload| && i == |Padded(payload)| - 1 ==> Padded(payload)[i] == 0x81
    ensures |payload| < i < |Padded(payload)| - 1 ==> Padded(payload)[i] == 0x00
    ensures |payload| < i && i == |Padded(payload)| - 1 ==> Padded(payload)[i] == 0x80
  {}

  /** The payload can be read off its padded form. */
  lemma PaddedInjective(a: Octets, b: Octets)
    requires Padded(a) == Padded(b)
    ensures a == b
  {
    if |a| < |b| {
      PaddedByte(a, |b|);
      PaddedByte(b, |b|);
    } else if |b| < |a| {
      PaddedByte(a, |a|);
      PaddedByte(b, |a|);
    }
    assert a == Padded(a)[..|a|] && b == Padded(b)[..|b|];
  }

  // ----- Words -----

  /** `int.from_bytes(b, "little")` on eight bytes, as a lane and as an integer. */
  function LoadLane(b: Octets): Lane
    requires |b| == 8
  {
    (b[0] as Lane) | (b[1] as Lane << 8) | (b[2] as Lane << 16) | (b[3] as Lane << 24) |
    (b[4] as Lane << 32) | (b[5] as Lane << 40) | (b[6] as Lane << 48) | (b[7] as Lane << 56)
  }

  function LoadInt(b: Octets): Int
    requires |b| == 8
  {
    (b[0] as Int) | (b[1] as Int << 8) | (b[2] as Int << 16) | (b[3] as Int << 24) |
    (b[4] as Int << 32) | (b[5] as Int << 40) | (b[6] as Int << 48) | (b[7] as Int << 56)
  }

  lemma LoadWide(b: Octets)
    requires |b| == 8
    ensures LoadInt(b) == Wide(LoadLane(b))
  {}

  /** `value.to_bytes(8, "little")`: defined for 64-bit lanes only. */
  function StoreLane(v: Lane): (b: Octets)
    ensures |b| == 8
  {
    [(v & 0xFF) as bv8, ((v >> 8) & 0xFF) as bv8, ((v >> 16) & 0xFF) as bv8, ((v >> 24) & 0xFF) as bv8,
     ((v >> 32) & 0xFF) as bv8, ((v >> 40) & 0xFF) as bv8, ((v >> 48) & 0xFF) as bv8, ((v >> 56) & 0xFF) as bv8]
  }

  function StoreInt(v: Int): (b: Octets)
    requires v <= MASK_64
    ensures |b| == 8
  {
    [(v & 0xFF) as bv8, ((v >> 8) & 0xFF) as bv8, ((v >> 16) & 0xFF) as bv8, ((v >> 24) & 0xFF) as bv8,
     ((v >> 32) & 0xFF) as bv8, ((v >> 40) & 0xFF) as bv8, ((v >> 48) & 0xFF) as bv8, ((v >> 56) & 0xFF) as bv8]
  }

  lemma StoreWide(v: Lane)
    ensures Wide(v) <= MASK_64 && StoreInt(Wide(v)) == StoreLane(v)
  {}

  lemma LoadOfStore(v: Lane)
    ensures LoadLane(StoreLane(v)) == v
  {}

  // ----- The sponge -----

  function Word(block: Octets, lane: nat): (b: Octets)
    requires |block| == RATE && lane < 17
    ensures |b| == 8
  {
    block[8 * lane..8 * lane + 8]
  }

  function XorBlock(a: seq<Lane>, block: Octets): (b: seq<Lane>)
    requires |a| == 25 && |block| == RATE
    ensures |b| == 25
  {
    seq(25, i requires 0 <= i < 25 => if i < 17 then XorLane(a[i], LoadLane(Word(block, i))) else a[i])
  }

  /** The blocks of a padded message. */
  function Blocks(m: Octets): (blocks: seq<Octets>)
    requires |m| % RATE == 0
    ensures |blocks| * RATE == |m|
    ensures forall k :: 0 <= k < |blocks| ==> |blocks[k]| == RATE
  {
    seq(|m| / RATE, k requires 0 <= k < |m| / RATE => m[k * RATE..(k + 1) * RATE])
  }

  predicate AreBlocks(blocks: seq<Octets>) {
    forall k :: 0 <= k < |blocks| ==> |blocks[k]| == RATE
  }

  /** Folds blocks into the state. */
  function Absorb(a: seq<Lane>, blocks: seq<Octets>): (b: seq<Lane>)
    requires |a| == 25 && AreBlocks(blocks)
    ensures |b| == 25
    decreases |blocks|
  {
    if blocks == [] then a else Absorb(KeccakF(XorBlock(a, blocks[0])), blocks[1..])
  }

  function Serialize(a: seq<Lane>): (b: Octets)
    ensures |b| == 8 * |a|
  {
    if a == [] then [] else Serialize(a[..|a| - 1]) + StoreLane(a[|a| - 1])
  }

  function Zeros(): (a: seq<Lane>)
    ensures |a| == 25
  {
    seq(25, i => 0)
  }

  /** Keccak-256: the first 32 bytes of the state after all padded blocks. */
  function Digest(payload: Octets): (d: Octets)
    ensures |d| == 32
  {
    Serialize(FinalState(payload))[..32]
  }

  /** The state after all padded blocks. */
  function FinalState(payload: Octets): (a: seq<Lane>)
    ensures |a| == 25
  {
    Absorb(Zeros(), Blocks(Padded(payload)))
  }

  lemma {:induction false} SerializePrefix(a: seq<Lane>, k: nat)
    requires k <= |a|
    ensures Serialize(a)[..8 * k] == Serialize(a[..k])
  {
    if k == |a| {
      assert a[..k] == a;
    } else {
      var front := a[..|a| - 1];
      SerializePrefix(front, k);
      assert front[..k] == a[..k];
    }
  }

  /** Serialized lanes can be read back. */
  lemma {:induction false} SerializeInjective(a: seq<Lane>, b: seq<Lane>)
    requires |a| == |b| && Serialize(a) == Serialize(b)
    ensures a == b
  {
    if a != [] {
      var n := |a| - 1;
      assert Serialize(a)[..8 * n] == Serialize(a[..n]) && Serialize(b)[..8 * n] == Serialize(b[..n]);
      assert Serialize(a)[8 * n..] == StoreLane(a[n]) && Serialize(b)[8 * n..] == StoreLane(b[n]);
      LoadOfStore(a[n]);
      LoadOfStore(b[n]);
      SerializeInjective(a[..n], b[..n]);
      assert a == a[..n] + [a[n]] && b == b[..n] + [b[n]];
    }
  }

  /**
   * Two payloads have one digest exactly when their final states agree in the first four lanes: the squeeze loses
   * nothing else.
   */
  lemma DigestIsFourLanes(p: Octets, q: Octets)
    ensures Digest(p) == Digest(q) <==> FinalState(p)[..4] == FinalState(q)[..4]
  {
    var a, b := FinalState(p), FinalState(q);
    SerializePrefix(a, 4);
    SerializePrefix(b, 4);
    if Digest(p) == Digest(q) {
      SerializeInjective(a[..4], b[..4]);
    }
  }

  /** `state[lane] ^= int.from_bytes(...)` over the 17 lanes of a block. */
  method XorBlockInPlace(state: array<Int>, block: Octets, ghost a: seq<Lane>)
    requires state.Length == 25 && Represents(state[..], a) && |block| == RATE
    modifies state
    ensures Represents(state[..], XorBlock(a, block))
  {
    for lane := 0 to 17
      invariant forall i :: 0 <= i < 25 ==> state[i] == Wide(if i < lane then XorBlock(a, block)[i] else a[i])
    {
      LoadWide(Word(block, lane));
      WideXor(a[lane], LoadLane(Word(block, lane)));
      state[lane] := XorInt(state[lane], LoadInt(block[8 * lane..8 * lane + 8]));
    }
  }

  /** Zeros with one bit behind the n bytes of the last block and one on the last byte. */
  function PadMask(n: nat, k: nat): bv8
    requires n < RATE && k < RATE
  {
    (if k == n then 0x01 else 0) ^ (if k == RATE - 1 then 0x80 else 0)
  }

  lemma PaddingIsMask(n: nat, k: nat)
    requires n % RATE <= k < RATE
    ensures Padding(n)[k - n % RATE] == PadMask(n % RATE, k)
  {}

  /** The last block: the remaining bytes, 0x01 behind them and 0x80 on the last byte. */
  method FinalBlock(remaining: Octets, ghost payload: Octets) returns (block: Octets)
    requires |remaining| < RATE && |remaining| == |payload| % RATE
    ensures block == remaining + Padding(|payload|)
  {
    var n := |remaining|;
    var final := new bv8[RATE](i => 0);
    for i := 0 to n
      invariant forall k :: 0 <= k < RATE ==> final[k] == if k < i then remaining[k] else 0
    {
      final[i] := remaining[i];
    }
    final[n] := final[n] ^ 0x01;
    final[RATE - 1] := final[RATE - 1] ^ 0x80;
    block := final[..];
    forall k | n <= k < RATE
      ensures block[k] == Padding(|payload|)[k - n]
    {
      PaddingIsMask(|payload|, k);
    }
  }

  method SerializeState(state: array<Int>, ghost a: seq<Lane>) returns (output: Octets)
    requires state.Length == 25 && Represents(state[..], a)
    ensures output == Serialize(a)
  {
    output := [];
    for i := 0 to 25
      invariant output == Serialize(a[..i])
    {
      StoreWide(a[i]);
      assert a[..i + 1][..i] == a[..i];
      output := output + StoreInt(state[i]);
    }
    assert a[..25] == a;
  }

  /** The first k blocks are in the state. */
  ghost predicate Absorbed(state: seq<Int>, a: seq<Lane>, blocks: seq<Octets>, k: nat) {
    && Represents(state, a)
    && AreBlocks(blocks) && k <= |blocks|
    && Absorb(a, blocks[k..]) == Absorb(Zeros(), blocks)
  }

  lemma AbsorbedNone(state: seq<Int>, blocks: seq<Octets>)
    requires |state| == 25 && forall i :: 0 <= i < 25 ==> state[i] == 0
    requires AreBlocks(blocks)
    ensures Absorbed(state, Zeros(), blocks, 0)
  {
    ZeroRepresented(state);
    assert blocks[0..] == blocks;
  }

  lemma AbsorbedAll(state: seq<Int>, a: seq<Lane>, blocks: seq<Octets>)
    requires Absorbed(state, a, blocks, |blocks|)
    ensures Represents(state, a) && a == Absorb(Zeros(), blocks)
  {}

  method AbsorbBlock(state: array<Int>, block: Octets, ghost a: seq<Lane>, ghost blocks: seq<Octets>, ghost k: nat)
    returns (ghost next: seq<Lane>)
    requires state.Length == 25 && Absorbed(state[..], a, blocks, k)
    requires k < |blocks| && blocks[k] == block
    modifies state
    ensures Absorbed(state[..], next, blocks, k + 1)
  {
    XorBlockInPlace(state, block, a);
    KeccakF1600(state, XorBlock(a, block));
    next := KeccakF(XorBlock(a, block));
    assert blocks[k..][1..] == blocks[k + 1..];
  }

  lemma PaddedBlocks(payload: Octets, k: nat)
    requires k * RATE <= |payload|
    ensures k < |Blocks(Padded(payload))|
    ensures |payload| - k * RATE >= RATE ==> Blocks(Padded(payload))[k] == payload[k * RATE..(k + 1) * RATE]
    ensures var blocks := Blocks(Padded(payload));
            |payload| - k * RATE < RATE ==>
              && |blocks| == k + 1 && |payload| % RATE == |payload| - k * RATE
              && blocks[k] == payload[k * RATE..] + Padding(|payload|)
  {}

  /** `keccak256` as written computes Keccak-256. */
  method Keccak256(payload: Octets) returns (digest: Octets)
    ensures digest == Digest(payload)
  {
    var state := new Int[25](i => 0);
    ghost var a, blocks, k := Zeros(), Blocks(Padded(payload)), 0;
    AbsorbedNone(state[..], blocks);
    var offset := 0;
    while |payload| - offset >= RATE
      invariant 0 <= offset <= |payload| && offset == k * RATE
      invariant Absorbed(state[..], a, blocks, k)
    {
      PaddedBlocks(payload, k);
      a := AbsorbBlock(state, payload[offset..offset + RATE], a, blocks, k);
      offset, k := offset + RATE, k + 1;
    }
    PaddedBlocks(payload, k);
    var final := FinalBlock(payload[offset..], payload);
    a := AbsorbBlock(state, final, a, blocks, k);
    AbsorbedAll(state[..], a, blocks);
    var output := SerializeState(state, a);
    digest := output[..32];
  }

  lemma ZeroRepresented(state: seq<Int>)
    requires |state| == 25 && forall i :: 0 <= i < 25 ==> state[i] == 0
    ensures Represents(state, Zeros())
  {}
}
