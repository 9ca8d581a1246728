/** `_keccak_f1600`: the in-place permutation, and the Python integers it works on. */
module KeccakInPlace {
  import opened KeccakSpec
  import opened KeccakTables

  // ----- Theta -----

  /** `now` is `was` with theta applied to the columns before x and the first y lanes of column x. */
  ghost predicate ThetaDone<T>(ops: Ops<T>, was: seq<T>, now: seq<T>, x: nat, y: nat)
    requires |was| == 25
  {
    && |now| == 25
    && forall i :: 0 <= i < 25 ==>
         now[i] == if i % 5 < x || (i % 5 == x && i / 5 < y) then Theta(ops, was)[i] else was[i]
  }

  method ThetaInPlace<T>(ops: Ops<T>, state: array<T>)
    requires state.Length == 25
    modifies state
    ensures state[..] == Theta(ops, old(state[..]))
  {
    ghost var was := state[..];
    var columns := [];
    for x := 0 to 5
      invariant |columns| == x && forall i :: 0 <= i < x ==> columns[i] == Column(ops, was, i)
    {
      columns := columns +
        [ops.xor(ops.xor(ops.xor(ops.xor(state[x], state[x + 5]), state[x + 10]), state[x + 15]), state[x + 20])];
    }
    for x := 0 to 5
      invariant ThetaDone(ops, was, state[..], x, 0)
    {
      var delta := ops.xor(columns[(x + 4) % 5], ops.rotate(columns[(x + 1) % 5], 1));
      assert delta == Delta(ops, was, x);
      for y := 0 to 5
        invariant ThetaDone(ops, was, state[..], x, y)
      {
        assert (5 * y + x) % 5 == x && (5 * y + x) / 5 == y;
        state[5 * y + x] := ops.xor(state[5 * y + x], delta);
      }
    }
  }

  // ----- Rho and pi -----

  /** The lanes the steps read: lane 1, then each destination. */
  function Sources(pi: seq<nat>): (sources: seq<nat>) {
    [1] + pi
  }

  /** After n steps of the walk: n destinations hold their rotated lane, the others are untouched. */
  ghost predicate WalkDone<T>(ops: Ops<T>, pi: seq<nat>, rotations: seq<Shift>, was: seq<T>, now: seq<T>, n: nat)
    requires |was| == 25 && n <= |pi| <= |rotations| && IsRoute(pi)
  {
    && |now| == 25
    && (forall t :: 0 <= t < n ==> now[pi[t]] == ops.rotate(was[Sources(pi)[t]], rotations[t]))
    && (forall i :: 0 <= i < 25 && !Written(pi, n, i) ==> now[i] == was[i])
  }

  /** One of the first n steps writes lane i. */
  ghost predicate Written(pi: seq<nat>, n: nat, i: nat)
    requires n <= |pi|
  {
    exists t :: 0 <= t < n && pi[t] == i
  }

  /** No lane is a destination twice. */
  predicate IsRoute(pi: seq<nat>) {
    && (forall t :: 0 <= t < |pi| ==> pi[t] < 25)
    && (forall t, u :: 0 <= t < u < |pi| ==> pi[t] != pi[u])
  }

  lemma {:induction false} WalkStep<T>(
      ops: Ops<T>, pi: seq<nat>, rotations: seq<Shift>, was: seq<T>, now: seq<T>, n: nat)
    requires |was| == 25 && n < |pi| <= |rotations| && IsRoute(pi)
    requires WalkDone(ops, pi, rotations, was, now, n)
    ensures now[pi[n]] == was[pi[n]]
    ensures WalkDone(ops, pi, rotations, was, now[pi[n] := ops.rotate(was[Sources(pi)[n]], rotations[n])], n + 1)
  {
    assert !Written(pi, n, pi[n]);
    var lane := ops.rotate(was[Sources(pi)[n]], rotations[n]);
    var next := now[pi[n] := lane];
    forall t | 0 <= t < n + 1 ensures next[pi[t]] == ops.rotate(was[Sources(pi)[t]], rotations[t]) {
      if t < n {
        assert pi[t] != pi[n];
      }
    }
    forall i | 0 <= i < 25 && !Written(pi, n + 1, i) ensures next[i] == was[i] {
      WrittenNext(pi, n, i);
    }
  }

  lemma WrittenNext(pi: seq<nat>, n: nat, i: nat)
    requires n < |pi|
    ensures Written(pi, n + 1, i) <==> Written(pi, n, i) || i == pi[n]
  {}

  /** The order matters: one lane is carried and every destination is read just before it is overwritten. */
  method RhoPiInPlace<T>(ops: Ops<T>, state: array<T>, pi: seq<nat>, rotations: seq<Shift>)
    requires state.Length == 25 && |pi| <= |rotations| && IsRoute(pi)
    modifies state
    ensures WalkDone(ops, pi, rotations, old(state[..]), state[..], |pi|)
  {
    ghost var was := state[..];
    var carried := state[1];
    for t := 0 to |pi|
      invariant WalkDone(ops, pi, rotations, was, state[..], t)
      invariant carried == was[Sources(pi)[t]]
    {
      WalkStep(ops, pi, rotations, was, state[..], t);
      ghost var before := state[..];
      var current := state[pi[t]];
      state[pi[t]] := ops.rotate(carried, rotations[t]);
      assert state[..] == before[pi[t] := ops.rotate(carried, rotations[t])];
      carried := current;
    }
  }

  // ----- Chi and iota -----

  lemma RowIndex(x: nat, y: nat, d: nat)
    requires x < 5 && y < 5
    ensures InRow(5 * y + x, d) == 5 * y + (x + d) % 5
  {}

  /** One row: its five lanes are copied before they are overwritten. */
  method ChiRow<T>(ops: Ops<T>, state: array<T>, y: nat)
    requires state.Length == 25 && y < 5
    modifies state
    ensures forall i :: 0 <= i < 25 ==>
              state[i] == if 5 * y <= i < 5 * y + 5 then Chi(ops, old(state[..]))[i] else old(state[i])
  {
    ghost var was := state[..];
    var values := state[5 * y..5 * y + 5];
    for x := 0 to 5
      invariant forall i :: 0 <= i < 25 ==> state[i] == if 5 * y <= i < 5 * y + x then Chi(ops, was)[i] else was[i]
    {
      RowIndex(x, y, 1);
      RowIndex(x, y, 2);
      state[5 * y + x] := ops.chi(values[x], values[(x + 1) % 5], values[(x + 2) % 5]);
    }
  }

  lemma ChiIsRowLocal<T>(ops: Ops<T>, a: seq<T>, b: seq<T>, i: nat)
    requires |a| == |b| == 25 && i < 25
    requires forall j :: i / 5 * 5 <= j < i / 5 * 5 + 5 ==> a[j] == b[j]
    ensures Chi(ops, a)[i] == Chi(ops, b)[i]
  {
    var row := i / 5 * 5;
    assert row <= i < row + 5 && row <= InRow(i, 1) < row + 5 && row <= InRow(i, 2) < row + 5;
  }

  method ChiInPlace<T>(ops: Ops<T>, state: array<T>)
    requires state.Length == 25
    modifies state
    ensures state[..] == Chi(ops, old(state[..]))
  {
    ghost var was := state[..];
    for y := 0 to 5
      invariant forall i :: 0 <= i < 25 ==> state[i] == if i < 5 * y then Chi(ops, was)[i] else was[i]
    {
      ghost var before := state[..];
      ChiRow(ops, state, y);
      forall i | 5 * y <= i < 5 * y + 5 ensures Chi(ops, before)[i] == Chi(ops, was)[i] {
        ChiIsRowLocal(ops, before, was, i);
      }
    }
  }

  // ----- One carried lane against the simultaneous mapping -----

  /** The step of the walk that writes a lane. */
  const STEP_OF: seq<nat> := [
    24, 23, 17, 5, 11, 6, 22, 1, 8, 21, 0, 2, 16,
    15, 19, 12, 7, 3, 4, 14, 18, 9, 20, 13, 10]

  lemma StepOfPi(t: nat)
    requires t < 24
    ensures PI[t] < 25 && STEP_OF[PI[t]] == t
  {}

  lemma PiOfStep(i: nat)
    requires 0 < i < 25
    ensures STEP_OF[i] < 24 && PI[STEP_OF[i]] == i
  {}

  lemma PiIsRoute()
    ensures |PI| == |ROTATIONS| == 24 && IsRoute(PI)
  {
    forall t | 0 <= t < 24 ensures PI[t] < 25 && STEP_OF[PI[t]] == t { StepOfPi(t); }
  }

  /** The walk over the table computes pi after rho of FIPS 202. */
  lemma {:induction false} WalkIsRhoPi<T>(ops: Ops<T>, was: seq<T>, now: seq<T>)
    requires |was| == 25 && |PI| == |ROTATIONS| == 24 && IsRoute(PI)
    requires WalkDone(ops, PI, ROTATIONS, was, now, 24)
    ensures now == Pi(Rho(ops, was))
  {
    forall i | 0 <= i < 25
      ensures now[i] == Pi(Rho(ops, was))[i]
    {
      if i == 0 {
        ZeroIsFixed();
      } else {
        PiOfStep(i);
        WalkLaneIsRhoPi(ops, was, now, STEP_OF[i]);
      }
    }
  }

  lemma ZeroIsFixed()
    ensures !Written(PI, 24, 0) && PiSource(0) == 0 && RHO_OFFSETS[0] == 0
  {}

  lemma {:induction false} WalkLaneIsRhoPi<T>(ops: Ops<T>, was: seq<T>, now: seq<T>, t: nat)
    requires |was| == 25 && |PI| == |ROTATIONS| == 24 && IsRoute(PI) && t < 24
    requires WalkDone(ops, PI, ROTATIONS, was, now, 24)
    ensures now[PI[t]] == Pi(Rho(ops, was))[PI[t]]
  {
    PiBack(t);
    OffsetTable(t);
    assert Sources(PI)[t] == Source(t);
  }

  /** One round in place. */
  method RoundInPlace<T>(ops: Ops<T>, state: array<T>, constant: T)
    requires state.Length == 25
    modifies state
    ensures state[..] == Round(ops, old(state[..]), constant)
  {
    ThetaInPlace(ops, state);
    ghost var theta := state[..];
    PiIsRoute();
    RhoPiInPlace(ops, state, PI, ROTATIONS);
    WalkIsRhoPi(ops, theta, state[..]);
    ChiInPlace(ops, state);
    state[0] := ops.xor(state[0], constant);
  }

  /** `_keccak_f1600` over any lane operations equals the rounds of FIPS 202. */
  method Permute<T>(ops: Ops<T>, state: array<T>, constants: seq<T>)
    requires state.Length == 25
    modifies state
    ensures state[..] == Rounds(ops, old(state[..]), constants, |constants|)
  {
    ghost var was := state[..];
    for n := 0 to |constants|
      invariant state[..] == Rounds(ops, was, constants, n)
    {
      RoundInPlace(ops, state, constants[n]);
    }
  }
}
