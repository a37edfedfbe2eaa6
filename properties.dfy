/**
 * What the engine's routines do, stated in closed form: the suffix a prefix check clamps, the
 * carry, the listener's frame, and the idempotence of the adjust pass and of `reset`.
 */
module EngineProperties {
  import opened Propagation

  /** Slot `m`'s live range is the clamped one for the given side. */
  predicate ClampedAt(b: Bounds, side: Side, w: Wheels, m: nat)
    requires Fits(b, w) && m < |b.boundMax|
  {
    w.liveMin[m] == (if side == Upper then 0 else b.boundMin[m]) &&
    w.liveMax[m] == (if side == Upper then b.boundMax[m] else 9)
  }

  /** Slot `m`'s live range is the full 0..9. */
  predicate RelaxedAt(w: Wheels, m: nat)
    requires m < |w.liveMin| && m < |w.liveMax|
  {
    w.liveMin[m] == 0 && w.liveMax[m] == 9
  }

  /** The first slot from `j` on whose value is not its bound digit, or the last slot if there is none. */
  function FirstMismatch(b: Bounds, side: Side, w: Wheels, j: nat): (k: nat)
    requires Fits(b, w) && j < |b.boundMax|
    ensures j <= k < |b.boundMax|
    ensures forall m :: j <= m < k ==> w.value[m] == Bound(b, side, m)
    ensures k + 1 < |b.boundMax| ==> w.value[k] != Bound(b, side, k)
    decreases |b.boundMax| - j
  {
    if j + 1 == |b.boundMax| || w.value[j] != Bound(b, side, j) then j
    else FirstMismatch(b, side, w, j + 1)
  }

  /** The clamping walk from `j` clamps slots j..k and relaxes every slot after k, k the first mismatch. */
  lemma {:induction false} ClampFromShape(b: Bounds, side: Side, w: Wheels, j: nat)
    requires Fits(b, w) && j < |b.boundMax|
    ensures var r, k := ClampFrom(b, side, w, j), FirstMismatch(b, side, w, j);
      (forall m :: j <= m <= k ==> ClampedAt(b, side, r, m)) &&
      (forall m :: k < m < |b.boundMax| ==> RelaxedAt(r, m))
    decreases |b.boundMax| - j
  {
    var w' := Clamp(b, side, w, j);
    var r, k := ClampFrom(b, side, w, j), FirstMismatch(b, side, w, j);
    assert ClampedAt(b, side, w', j);
    if w.value[j] == Bound(b, side, j) && j + 1 < |b.boundMax| {
      assert r == ClampFrom(b, side, w', j + 1);
      ClampFromShape(b, side, w', j + 1);
      assert k == FirstMismatch(b, side, w', j + 1);
      assert ClampedAt(b, side, r, j);
    } else if w.value[j] == Bound(b, side, j) {
      assert r == ClampFrom(b, side, w', j + 1) == w';
    } else {
      assert r == Relax(w', j + 1) && k == j;
      assert ClampedAt(b, side, r, j);
    }
  }

  /**
   * A prefix check on slot `i` whose earlier slots all show their bound digits (and which is not
   * the last slot) reports false, changes no value and nothing in slots 0..i, clamps slots
   * i+1..k and relaxes every slot after k, where k is the first later slot off its bound digit
   * (or the last slot).
   */
  lemma {:induction false} CheckShouldChangeClamps(b: Bounds, side: Side, w: Wheels, i: nat)
    requires Fits(b, w) && i + 1 < |b.boundMax| && PrefixMatches(b, side, w, i)
    ensures var r, k := CheckShouldChange(b, side, w, i), FirstMismatch(b, side, w, i + 1);
      !r.shouldContinue && r.wheels.value == w.value &&
      (forall m :: 0 <= m <= i ==> r.wheels.liveMin[m] == w.liveMin[m] && r.wheels.liveMax[m] == w.liveMax[m]) &&
      (forall m :: i < m <= k ==> ClampedAt(b, side, r.wheels, m)) &&
      (forall m :: k < m < |b.boundMax| ==> RelaxedAt(r.wheels, m))
  {
    assert CheckShouldChange(b, side, w, i).wheels == ClampFrom(b, side, w, i + 1);
    ClampFromShape(b, side, w, i + 1);
  }

  /**
   * The carry of `onMoveUpValue` into slot i-1: when that wheel is below its live maximum it goes
   * up by exactly one and no other value changes; when it is at its live maximum it becomes 0
   * (the carry moving on), or, for the first slot, nothing changes value at all.
   */
  lemma {:induction false} MoveUpCarry(b: Bounds, w: Wheels, i: nat)
    requires Fits(b, w) && 0 < i < |b.boundMax|
    ensures var r := MoveUp(b, w, i);
      r.liveMin[i] == 0 &&
      (w.value[i - 1] != w.liveMax[i - 1] ==> r.value == w.value[i - 1 := w.value[i - 1] + 1]) &&
      (w.value[i - 1] == w.liveMax[i - 1] && 1 < i ==>
        r.value[i - 1] == 0 &&
        r.value == MoveUp(b, w.(liveMin := w.liveMin[i := 0], value := w.value[i - 1 := 0]), i - 1).value) &&
      (w.value[i - 1] == w.liveMax[i - 1] && i == 1 ==> r.value == w.value)
  {
    var p := i - 1;
    var w1 := w.(liveMin := w.liveMin[i := 0]);
    if w.value[p] == w.liveMax[p] && 1 < i {
      var w2 := MoveUp(b, w1.(value := w1.value[p := 0]), p);
      assert w2.value[p] == 0;
    }
  }

  /** `onMoveUpValue` on the first slot does nothing. */
  lemma MoveUpFirstSlot(b: Bounds, w: Wheels)
    requires Fits(b, w) && 0 < |b.boundMax|
    ensures MoveUp(b, w, 0) == w
  {
  }

  /**
   * Without a wrap, the listener changes no value and nothing in slots 0..i; only the live
   * ranges of later slots move.
   */
  lemma {:induction false} ValueChangedWithoutWrap(b: Bounds, w: Wheels, i: nat, oldVal: int, newVal: int)
    requires Fits(b, w) && i < |b.boundMax| && !Wrapped(w, i, oldVal, newVal)
    ensures var r := ValueChanged(b, w, i, oldVal, newVal);
      r.value == w.value &&
      forall m :: 0 <= m <= i ==> r.liveMin[m] == w.liveMin[m] && r.liveMax[m] == w.liveMax[m]
  {
  }

  /**
   * A wrap from 9 on slot i whose neighbour i-1 is below its live maximum carries exactly one
   * into that neighbour and changes no other value.
   */
  lemma {:induction false} WrapCarriesOne(b: Bounds, w: Wheels, i: nat, oldVal: int, newVal: int)
    requires Fits(b, w) && 0 < i < |b.boundMax| && Wrapped(w, i, oldVal, newVal)
    requires w.value[i - 1] != w.liveMax[i - 1]
    ensures ValueChanged(b, w, i, oldVal, newVal).value == w.value[i - 1 := w.value[i - 1] + 1]
  {
    MoveUpCarry(b, w, i);
  }

  /**
   * Without a wrap, a wheel (not the last) turned to its live maximum while every earlier wheel
   * shows its bound maximum runs the maximum check, which clamps the later slots on the maximum
   * side and stops the listener; this also decides the case where the new value is the bound
   * minimum as well.
   */
  lemma ValueChangedReachesMax(b: Bounds, w: Wheels, i: nat, oldVal: int, newVal: int)
    requires Fits(b, w) && i + 1 < |b.boundMax| && !Wrapped(w, i, oldVal, newVal)
    requires newVal == w.liveMax[i] && PrefixMatches(b, Upper, w, i)
    ensures ValueChanged(b, w, i, oldVal, newVal) == ClampFrom(b, Upper, w, i + 1)
  {
  }

  /**
   * Without a wrap, when the maximum check does not run or goes on, a wheel (not the last)
   * turned to its bound minimum while every earlier wheel shows its bound minimum runs the
   * minimum check, which clamps the later slots on the minimum side and stops the listener.
   */
  lemma ValueChangedReachesMin(b: Bounds, w: Wheels, i: nat, oldVal: int, newVal: int)
    requires Fits(b, w) && i + 1 < |b.boundMax| && !Wrapped(w, i, oldVal, newVal)
    requires newVal != w.liveMax[i] || !PrefixMatches(b, Upper, w, i)
    requires newVal == b.boundMin[i] && PrefixMatches(b, Lower, w, i)
    ensures ValueChanged(b, w, i, oldVal, newVal) == ClampFrom(b, Lower, w, i + 1)
  {
  }

  /**
   * A move between two digits that are neither bound digit nor the live maximum, without a
   * wrap, changes nothing at all.
   */
  lemma ValueChangedInside(b: Bounds, w: Wheels, i: nat, oldVal: int, newVal: int)
    requires Fits(b, w) && i < |b.boundMax| && !Wrapped(w, i, oldVal, newVal)
    requires oldVal != b.boundMin[i] && oldVal != b.boundMax[i]
    requires newVal != w.liveMax[i] && newVal != b.boundMin[i]
    ensures ValueChanged(b, w, i, oldVal, newVal) == w
  {
  }

  /**
   * Leaving a bound digit for a digit that is neither bound digit nor the live maximum, without
   * a wrap, relaxes every later slot to 0..9.
   */
  lemma ValueChangedLeavesBound(b: Bounds, w: Wheels, i: nat, oldVal: int, newVal: int)
    requires Fits(b, w) && i < |b.boundMax| && !Wrapped(w, i, oldVal, newVal)
    requires oldVal == b.boundMin[i] || oldVal == b.boundMax[i]
    requires newVal != w.liveMax[i] && newVal != b.boundMin[i] && newVal != b.boundMax[i]
    ensures var r := ValueChanged(b, w, i, oldVal, newVal);
      r.value == w.value && forall m :: i < m < |b.boundMax| ==> RelaxedAt(r, m)
  {
  }

  // ---- Idempotence of the adjust pass and of reset ----

  predicate Sized(n: nat, x: Wheels)
  {
    |x.value| == n && |x.liveMin| == n && |x.liveMax| == n
  }

  /**
   * `u'` and `w'` are what one value-driven step made of `u` and `w`: equal values, and each live
   * bound either equal in both results or left untouched in both.
   */
  predicate Shadow(u: Wheels, w: Wheels, u': Wheels, w': Wheels)
  {
    var n := |u.value|;
    Sized(n, u) && Sized(n, w) && Sized(n, u') && Sized(n, w') &&
    u'.value == w'.value &&
    (forall k :: 0 <= k < n ==>
      u'.liveMin[k] == w'.liveMin[k] || (u'.liveMin[k] == u.liveMin[k] && w'.liveMin[k] == w.liveMin[k])) &&
    (forall k :: 0 <= k < n ==>
      u'.liveMax[k] == w'.liveMax[k] || (u'.liveMax[k] == u.liveMax[k] && w'.liveMax[k] == w.liveMax[k]))
  }

  lemma ShadowThen(u: Wheels, w: Wheels, u1: Wheels, w1: Wheels, u2: Wheels, w2: Wheels)
    requires Shadow(u, w, u1, w1) && Shadow(u1, w1, u2, w2)
    ensures Shadow(u, w, u2, w2)
  {
  }

  lemma ShadowClampFrom(b: Bounds, side: Side, u: Wheels, w: Wheels, j: nat)
    requires Fits(b, u) && Fits(b, w) && u.value == w.value && j <= |b.boundMax|
    ensures Shadow(u, w, ClampFrom(b, side, u, j), ClampFrom(b, side, w, j))
    decreases |b.boundMax| - j
  {
    if j < |b.boundMax| {
      var u1, w1 := Clamp(b, side, u, j), Clamp(b, side, w, j);
      assert Shadow(u, w, u1, w1);
      if u.value[j] == Bound(b, side, j) {
        ShadowClampFrom(b, side, u1, w1, j + 1);
        ShadowThen(u, w, u1, w1, ClampFrom(b, side, u1, j + 1), ClampFrom(b, side, w1, j + 1));
      } else {
        assert Shadow(u1, w1, Relax(u1, j + 1), Relax(w1, j + 1));
        ShadowThen(u, w, u1, w1, Relax(u1, j + 1), Relax(w1, j + 1));
      }
    }
  }

  lemma ShadowAdjust(b: Bounds, u: Wheels, w: Wheels, i: nat)
    requires Fits(b, u) && Fits(b, w) && u.value == w.value && i < |b.boundMax|
    ensures Shadow(u, w, Adjust(b, u, i), Adjust(b, w, i))
  {
    if u.value[i] == b.boundMax[i] || u.value[i] == b.boundMin[i] {
      var side := if u.value[i] == b.boundMax[i] then Upper else Lower;
      if i + 1 < |b.boundMax| && PrefixMatches(b, side, u, i) {
        ShadowClampFrom(b, side, u, w, i + 1);
      }
    }
  }

  lemma {:induction false} ShadowAdjustFrom(b: Bounds, u: Wheels, w: Wheels, k: nat)
    requires Fits(b, u) && Fits(b, w) && u.value == w.value && k <= |b.boundMax|
    ensures Shadow(u, w, AdjustFrom(b, u, k), AdjustFrom(b, w, k))
    decreases |b.boundMax| - k
  {
    if k < |b.boundMax| {
      var u1, w1 := Adjust(b, u, k), Adjust(b, w, k);
      ShadowAdjust(b, u, w, k);
      ShadowAdjustFrom(b, u1, w1, k + 1);
      ShadowThen(u, w, u1, w1, AdjustFrom(b, u1, k + 1), AdjustFrom(b, w1, k + 1));
    }
  }

  /** Running the adjust pass a second time changes nothing. */
  lemma {:induction false} AdjustFromIdempotent(b: Bounds, w: Wheels, k: nat)
    requires Fits(b, w) && k <= |b.boundMax|
    ensures AdjustFrom(b, AdjustFrom(b, w, k), k) == AdjustFrom(b, w, k)
  {
    var once := AdjustFrom(b, w, k);
    ShadowAdjustFrom(b, once, w, k);
  }

  /** `reset` twice is `reset` once: the pass depends only on the values, which reset restores. */
  lemma {:induction false} ResetIdempotent(b: Bounds, w: Wheels)
    requires Fits(b, w)
    ensures Reset(b, Reset(b, w)) == Reset(b, w)
  {
    var once := Reset(b, w);
    ShadowAdjustFrom(b, Restore(b, once), Restore(b, w), 0);
  }

  /** Resetting a freshly built dialog changes nothing. */
  lemma {:induction false} ResetAfterConstruction(b: Bounds, initialMax: seq<int>)
    requires |b.boundMin| == |b.boundMax| && |b.dflt| == |b.boundMax| && |initialMax| == |b.boundMax|
    ensures Reset(b, Constructed(b, initialMax)) == Constructed(b, initialMax)
  {
    var start := Wheels(b.dflt, Zeros(|b.boundMax|), initialMax);
    assert Restore(b, start) == start;
    ResetIdempotent(b, start);
    assert Constructed(b, initialMax) == Reset(b, start);
  }
}
