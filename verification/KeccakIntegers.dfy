/** The Python integers under the permutation: no lane ever leaves 64 bits. */
module KeccakIntegers {
  import opened KeccakSpec
  import opened KeccakTables
  import opened KeccakInPlace

  /** Python integers, wide enough for every intermediate of a 64-bit rotation. */
  type Int = bv128

  const MASK_64: Int := 0xFFFF_FFFF_FFFF_FFFF

  function XorInt(a: Int, b: Int): Int { a ^ b }

  /** `_rotate_left_64`. */
  function RotateInt(value: Int, shift: Shift): Int {
    ((value << shift) | (value >> (64 - shift))) & MASK_64
  }

  /** Python's `~b` is negative; the conjunction with a lane brings it back. */
  function ChiInt(a: Int, b: Int, c: Int): Int {
    a ^ ((!b) & c)
  }

  function IntOps(): Ops<Int> {
    Ops(XorInt, RotateInt, ChiInt)
  }

  function Wide(v: Lane): Int { v as Int }

  // ----- Integer operations on lanes -----

  lemma WideXor(a: Lane, b: Lane)
    ensures XorInt(Wide(a), Wide(b)) == Wide(XorLane(a, b))
  {}

  lemma WideChi(a: Lane, b: Lane, c: Lane)
    ensures ChiInt(Wide(a), Wide(b), Wide(c)) == Wide(ChiLane(a, b, c))
  {}

  // One lemma per shift of the table keeps each a question about fixed wiring.
  lemma Rotates1(v: Lane) ensures RotateInt(Wide(v), 1) == Wide(RotateLeft(v, 1)) {}
  lemma Rotates2(v: Lane) ensures RotateInt(Wide(v), 2) == Wide(RotateLeft(v, 2)) {}
  lemma Rotates3(v: Lane) ensures RotateInt(Wide(v), 3) == Wide(RotateLeft(v, 3)) {}
  lemma Rotates6(v: Lane) ensures RotateInt(Wide(v), 6) == Wide(RotateLeft(v, 6)) {}
  lemma Rotates8(v: Lane) ensures RotateInt(Wide(v), 8) == Wide(RotateLeft(v, 8)) {}
  lemma Rotates10(v: Lane) ensures RotateInt(Wide(v), 10) == Wide(RotateLeft(v, 10)) {}
  lemma Rotates14(v: Lane) ensures RotateInt(Wide(v), 14) == Wide(RotateLeft(v, 14)) {}
  lemma Rotates15(v: Lane) ensures RotateInt(Wide(v), 15) == Wide(RotateLeft(v, 15)) {}
  lemma Rotates18(v: Lane) ensures RotateInt(Wide(v), 18) == Wide(RotateLeft(v, 18)) {}
  lemma Rotates20(v: Lane) ensures RotateInt(Wide(v), 20) == Wide(RotateLeft(v, 20)) {}
  lemma Rotates21(v: Lane) ensures RotateInt(Wide(v), 21) == Wide(RotateLeft(v, 21)) {}
  lemma Rotates25(v: Lane) ensures RotateInt(Wide(v), 25) == Wide(RotateLeft(v, 25)) {}
  lemma Rotates27(v: Lane) ensures RotateInt(Wide(v), 27) == Wide(RotateLeft(v, 27)) {}
  lemma Rotates28(v: Lane) ensures RotateInt(Wide(v), 28) == Wide(RotateLeft(v, 28)) {}
  lemma Rotates36(v: Lane) ensures RotateInt(Wide(v), 36) == Wide(RotateLeft(v, 36)) {}
  lemma Rotates39(v: Lane) ensures RotateInt(Wide(v), 39) == Wide(RotateLeft(v, 39)) {}
  lemma Rotates41(v: Lane) ensures RotateInt(Wide(v), 41) == Wide(RotateLeft(v, 41)) {}
  lemma Rotates43(v: Lane) ensures RotateInt(Wide(v), 43) == Wide(RotateLeft(v, 43)) {}
  lemma Rotates44(v: Lane) ensures RotateInt(Wide(v), 44) == Wide(RotateLeft(v, 44)) {}
  lemma Rotates45(v: Lane) ensures RotateInt(Wide(v), 45) == Wide(RotateLeft(v, 45)) {}
  lemma Rotates55(v: Lane) ensures RotateInt(Wide(v), 55) == Wide(RotateLeft(v, 55)) {}
  lemma Rotates56(v: Lane) ensures RotateInt(Wide(v), 56) == Wide(RotateLeft(v, 56)) {}
  lemma Rotates61(v: Lane) ensures RotateInt(Wide(v), 61) == Wide(RotateLeft(v, 61)) {}
  lemma Rotates62(v: Lane) ensures RotateInt(Wide(v), 62) == Wide(RotateLeft(v, 62)) {}

  predicate InTable(s: Shift) {
    || s == 1 || s == 2 || s == 3 || s == 6 || s == 8 || s == 10 || s == 14 || s == 15
    || s == 18 || s == 20 || s == 21 || s == 25 || s == 27 || s == 28 || s == 36 || s == 39
    || s == 41 || s == 43 || s == 44 || s == 45 || s == 55 || s == 56 || s == 61 || s == 62
  }

  lemma OffsetsInTable(s: Shift)
    requires s in RHO_OFFSETS
    ensures InTable(s)
  {}

  lemma RotatesBy(v: Lane, s: Shift)
    requires InTable(s)
    ensures RotateInt(Wide(v), s) == Wide(RotateLeft(v, s))
  {
    if s == 1 { Rotates1(v); }
    else if s == 2 { Rotates2(v); }
    else if s == 3 { Rotates3(v); }
    else if s == 6 { Rotates6(v); }
    else if s == 8 { Rotates8(v); }
    else if s == 10 { Rotates10(v); }
    else if s == 14 { Rotates14(v); }
    else if s == 15 { Rotates15(v); }
    else if s == 18 { Rotates18(v); }
    else if s == 20 { Rotates20(v); }
    else if s == 21 { Rotates21(v); }
    else if s == 25 { Rotates25(v); }
    else if s == 27 { Rotates27(v); }
    else if s == 28 { Rotates28(v); }
    else if s == 36 { Rotates36(v); }
    else if s == 39 { Rotates39(v); }
    else if s == 41 { Rotates41(v); }
    else if s == 43 { Rotates43(v); }
    else if s == 44 { Rotates44(v); }
    else if s == 45 { Rotates45(v); }
    else if s == 55 { Rotates55(v); }
    else if s == 56 { Rotates56(v); }
    else if s == 61 { Rotates61(v); }
    else { Rotates62(v); }
  }

  // ----- The step mappings commute with the embedding of lanes in integers -----

  function Image<A, B>(h: A -> B, s: seq<A>): (r: seq<B>)
    ensures |r| == |s|
    ensures forall i :: 0 <= i < |s| ==> r[i] == h(s[i])
  {
    seq(|s|, i requires 0 <= i < |s| => h(s[i]))
  }

  ghost predicate Commutes<A(!new), B>(h: A -> B, from: Ops<A>, to: Ops<B>) {
    && (forall a, b :: h(from.xor(a, b)) == to.xor(h(a), h(b)))
    && (forall a, b, c :: h(from.chi(a, b, c)) == to.chi(h(a), h(b), h(c)))
    && (forall a, s: Shift :: s in RHO_OFFSETS ==> h(from.rotate(a, s)) == to.rotate(h(a), s))
  }

  lemma ColumnCommutes<A(!new), B>(h: A -> B, from: Ops<A>, to: Ops<B>, a: seq<A>, x: nat)
    requires Commutes(h, from, to) && |a| == 25 && x < 5
    ensures Column(to, Image(h, a), x) == h(Column(from, a, x))
  {}

  lemma DeltaCommutes<A(!new), B>(h: A -> B, from: Ops<A>, to: Ops<B>, a: seq<A>, x: nat)
    requires Commutes(h, from, to) && |a| == 25 && x < 5
    ensures Delta(to, Image(h, a), x) == h(Delta(from, a, x))
  {
    assert RHO_OFFSETS[1] == 1;
    var left, right := (x + 4) % 5, (x + 1) % 5;
    ColumnCommutes(h, from, to, a, left);
    ColumnCommutes(h, from, to, a, right);
    assert h(from.rotate(Column(from, a, right), 1)) == to.rotate(h(Column(from, a, right)), 1);
  }

  lemma ThetaCommutes<A(!new), B>(h: A -> B, from: Ops<A>, to: Ops<B>, a: seq<A>)
    requires Commutes(h, from, to) && |a| == 25
    ensures Theta(to, Image(h, a)) == Image(h, Theta(from, a))
  {
    forall i | 0 <= i < 25
      ensures Theta(to, Image(h, a))[i] == h(Theta(from, a)[i])
    {
      DeltaCommutes(h, from, to, a, i % 5);
      assert h(from.xor(a[i], Delta(from, a, i % 5))) == to.xor(h(a[i]), h(Delta(from, a, i % 5)));
    }
  }

  lemma ChiCommutes<A(!new), B>(h: A -> B, from: Ops<A>, to: Ops<B>, a: seq<A>)
    requires Commutes(h, from, to) && |a| == 25
    ensures Chi(to, Image(h, a)) == Image(h, Chi(from, a))
  {
    forall i | 0 <= i < 25
      ensures Chi(to, Image(h, a))[i] == h(Chi(from, a)[i])
    {
      var x, y, z := a[i], a[InRow(i, 1)], a[InRow(i, 2)];
      assert h(from.chi(x, y, z)) == to.chi(h(x), h(y), h(z));
    }
  }

  lemma RoundCommutes<A(!new), B>(h: A -> B, from: Ops<A>, to: Ops<B>, a: seq<A>, constant: A)
    requires Commutes(h, from, to) && |a| == 25
    ensures Round(to, Image(h, a), h(constant)) == Image(h, Round(from, a, constant))
  {
    ThetaCommutes(h, from, to, a);
    var theta := Theta(from, a);
    assert Rho(to, Image(h, theta)) == Image(h, Rho(from, theta));
    var rho := Rho(from, theta);
    assert Pi(Image(h, rho)) == Image(h, Pi(rho));
    ChiCommutes(h, from, to, Pi(rho));
  }

  lemma {:induction false} RoundsCommute<A(!new), B>(
      h: A -> B, from: Ops<A>, to: Ops<B>, a: seq<A>, constants: seq<A>, n: nat)
    requires Commutes(h, from, to) && |a| == 25 && n <= |constants|
    ensures Rounds(to, Image(h, a), Image(h, constants), n) == Image(h, Rounds(from, a, constants, n))
  {
    if n > 0 {
      RoundsCommute(h, from, to, a, constants, n - 1);
      RoundCommutes(h, from, to, Rounds(from, a, constants, n - 1), constants[n - 1]);
    }
  }

  lemma WideCommutes()
    ensures Commutes(Wide, LaneOps(), IntOps())
  {
    forall a, b ensures Wide(XorLane(a, b)) == XorInt(Wide(a), Wide(b)) { WideXor(a, b); }
    forall a, b, c ensures Wide(ChiLane(a, b, c)) == ChiInt(Wide(a), Wide(b), Wide(c)) { WideChi(a, b, c); }
    forall a, s: Shift | s in RHO_OFFSETS ensures Wide(RotateLeft(a, s)) == RotateInt(Wide(a), s) {
      OffsetsInTable(s);
      RotatesBy(a, s);
    }
  }

  // ----- The permutation on integers -----

  /** Keccak-f[1600] of FIPS 202. */
  function KeccakF(a: seq<Lane>): (b: seq<Lane>)
    requires |a| == 25
    ensures |b| == 25
  {
    Rounds(LaneOps(), a, ROUND_CONSTANTS, 24)
  }

  /** Every integer of the state is a 64-bit lane, and they are the lanes `a`. */
  ghost predicate Represents(state: seq<Int>, a: seq<Lane>) {
    |a| == 25 && state == Image(Wide, a)
  }

  lemma WideBelowMask(v: Lane)
    ensures Wide(v) <= MASK_64
  {}

  /** After every round, every integer of the state is below 2^64. */
  lemma LanesStayBelowMask(a: seq<Lane>, n: nat, i: nat)
    requires |a| == 25 && n <= 24 && i < 25
    ensures Rounds(IntOps(), Image(Wide, a), Image(Wide, ROUND_CONSTANTS), n)[i] <= MASK_64
  {
    WideCommutes();
    RoundsCommute(Wide, LaneOps(), IntOps(), a, ROUND_CONSTANTS, n);
    WideBelowMask(Rounds(LaneOps(), a, ROUND_CONSTANTS, n)[i]);
  }

  /** `_keccak_f1600` on integers: lanes go in, lanes come out of every round, and the result is Keccak-f[1600]. */
  method KeccakF1600(state: array<Int>, ghost a: seq<Lane>)
    requires state.Length == 25 && Represents(state[..], a)
    modifies state
    ensures Represents(state[..], KeccakF(a))
  {
    WideCommutes();
    RoundsCommute(Wide, LaneOps(), IntOps(), a, ROUND_CONSTANTS, 24);
    Permute(IntOps(), state, Image(Wide, ROUND_CONSTANTS));
  }
}
