/**
 * The digit-wheel bound engine as functions on values. A dialog has n slots (index 0 is the most
 * significant digit); each slot has two immutable bound digits and a default digit (`Bounds`)
 * and three mutable integers: the wheel's value and its live minimum and maximum (`Wheels`).
 * Each function here is the effect of one routine of the dialog on the whole state; the class in
 * module Picker runs the same routines in place and is proved equal to these.
 */
module Propagation {
  import opened Wrappers

  datatype Bounds = Bounds(boundMax: seq<int>, boundMin: seq<int>, dflt: seq<int>)

  datatype Wheels = Wheels(value: seq<int>, liveMin: seq<int>, liveMax: seq<int>)

  /** Which bound a prefix check compares against: `checkShouldChangeMaxValue` or `...MinValue`. */
  datatype Side = Upper | Lower

  /** The result of a prefix check: the new state and the `ShouldCheckContinue` flag. */
  datatype Checked = Checked(wheels: Wheels, shouldContinue: bool)

  predicate Fits(b: Bounds, w: Wheels)
  {
    |b.boundMin| == |b.boundMax| && |b.dflt| == |b.boundMax| &&
    |w.value| == |b.boundMax| && |w.liveMin| == |b.boundMax| && |w.liveMax| == |b.boundMax|
  }

  /** `prevPickerConfig`: the slot before `i`, none for the first. */
  function PrevIndex(i: nat): (r: Option<nat>)
    ensures r.None? <==> i == 0
    ensures r.Some? ==> r.value < i && r.value + 1 == i
  {
    if i == 0 then None else Some(i - 1)
  }

  /** `nextPickerConfig`: the slot after `i` among `n`, none for the last. */
  function NextIndex(i: nat, n: nat): (r: Option<nat>)
    ensures r.None? <==> n <= i + 1
    ensures r.Some? ==> i < r.value < n && r.value == i + 1
  {
    if i + 1 < n then Some(i + 1) else None
  }

  function Zeros(n: nat): (r: seq<int>)
    ensures |r| == n && forall k :: 0 <= k < n ==> r[k] == 0
  {
    seq(n, _ => 0)
  }

  /** The bound digit of slot `k` on the given side. */
  function Bound(b: Bounds, side: Side, k: nat): int
    requires k < |b.boundMax| && k < |b.boundMin|
  {
    if side == Upper then b.boundMax[k] else b.boundMin[k]
  }

  /**
   * Slot `k` clamped to its bound digit: 0..boundMax for the maximum, boundMin..9 for the minimum.
   * No wheel moves and no other slot's live range changes.
   */
  function Clamp(b: Bounds, side: Side, w: Wheels, k: nat): (r: Wheels)
    requires Fits(b, w) && k < |b.boundMax|
    ensures Fits(b, r) && r.value == w.value
    ensures forall m :: 0 <= m < |b.boundMax| && m != k ==> r.liveMin[m] == w.liveMin[m] && r.liveMax[m] == w.liveMax[m]
    ensures side == Upper ==> r.liveMin[k] == 0 && r.liveMax[k] == Bound(b, side, k)
    ensures side == Lower ==> r.liveMin[k] == Bound(b, side, k) && r.liveMax[k] == 9
  {
    if side == Upper then w.(liveMax := w.liveMax[k := b.boundMax[k]], liveMin := w.liveMin[k := 0])
    else w.(liveMin := w.liveMin[k := b.boundMin[k]], liveMax := w.liveMax[k := 9])
  }

  /**
   * `adjustValue` from slot `j`: slot j and every later slot get live range 0..9; the slots
   * before `j` and every wheel's value stay as they were.
   */
  function Relax(w: Wheels, j: nat): (r: Wheels)
    requires |w.liveMin| == |w.liveMax|
    ensures r.value == w.value && |r.liveMin| == |w.liveMin| && |r.liveMax| == |w.liveMax|
    ensures forall k :: 0 <= k < j && k < |w.liveMin| ==> r.liveMin[k] == w.liveMin[k] && r.liveMax[k] == w.liveMax[k]
    ensures forall k :: j <= k < |w.liveMin| ==> r.liveMin[k] == 0 && r.liveMax[k] == 9
  {
    w.(liveMin := seq(|w.liveMin|, k requires 0 <= k < |w.liveMin| => if k < j then w.liveMin[k] else 0),
       liveMax := seq(|w.liveMax|, k requires 0 <= k < |w.liveMax| => if k < j then w.liveMax[k] else 9))
  }

  /** Every slot before `i` shows its bound digit on the given side. */
  predicate PrefixMatches(b: Bounds, side: Side, w: Wheels, i: nat)
    requires Fits(b, w) && i <= |b.boundMax|
  {
    forall m :: 0 <= m < i ==> w.value[m] == Bound(b, side, m)
  }

  /**
   * The second loop of a prefix check, from slot `j`: clamp slot j; go on while its value is the
   * bound digit; at the first slot that differs, relax everything after it.
   */
  function ClampFrom(b: Bounds, side: Side, w: Wheels, j: nat): (r: Wheels)
    requires Fits(b, w) && j <= |b.boundMax|
    ensures Fits(b, r) && r.value == w.value
    ensures forall m :: 0 <= m < j ==> r.liveMin[m] == w.liveMin[m] && r.liveMax[m] == w.liveMax[m]
    ensures side == Upper ==> forall m :: 0 <= m < |r.liveMin| ==> r.liveMin[m] == w.liveMin[m] || r.liveMin[m] == 0
    decreases |b.boundMax| - j
  {
    if j == |b.boundMax| then w
    else
      var w' := Clamp(b, side, w, j);
      if w.value[j] == Bound(b, side, j) then ClampFrom(b, side, w', j + 1) else Relax(w', j + 1)
  }

  /**
   * `checkShouldChangeMaxValue` (Upper) / `checkShouldChangeMinValue` (Lower) on slot `i`.
   * It never changes a value nor the live range of slots 0..i. It reports false, changing
   * nothing, for the last slot; true, changing nothing, when some earlier slot is off its bound
   * digit; otherwise it clamps the suffix and reports false.
   */
  function CheckShouldChange(b: Bounds, side: Side, w: Wheels, i: nat): (r: Checked)
    requires Fits(b, w) && i < |b.boundMax|
    ensures Fits(b, r.wheels) && r.wheels.value == w.value
    ensures forall m :: 0 <= m <= i ==>
      r.wheels.liveMin[m] == w.liveMin[m] && r.wheels.liveMax[m] == w.liveMax[m]
    ensures side == Upper ==> forall m :: 0 <= m < |w.liveMin| ==>
      r.wheels.liveMin[m] == w.liveMin[m] || r.wheels.liveMin[m] == 0
    ensures i + 1 == |b.boundMax| ==> r == Checked(w, false)
    ensures i + 1 < |b.boundMax| && !PrefixMatches(b, side, w, i) ==> r == Checked(w, true)
    ensures i + 1 < |b.boundMax| && PrefixMatches(b, side, w, i) ==> !r.shouldContinue
  {
    if NextIndex(i, |b.boundMax|).None? then Checked(w, false)
    else if !PrefixMatches(b, side, w, i) then Checked(w, true)
    else Checked(ClampFrom(b, side, w, i + 1), false)
  }

  /**
   * `onMoveUpValue` on slot `i`: a carry out of slot i into the slots before it. It never changes
   * the value of slot i or of a later slot, and only ever lowers live minimums to 0.
   */
  function MoveUp(b: Bounds, w: Wheels, i: nat): (r: Wheels)
    requires Fits(b, w) && i < |b.boundMax|
    ensures Fits(b, r)
    ensures forall m :: i <= m < |w.value| ==> r.value[m] == w.value[m]
    ensures forall m :: 0 <= m < |w.liveMin| ==> r.liveMin[m] == w.liveMin[m] || r.liveMin[m] == 0
    ensures 0 < i ==> r.liveMin[i] == 0
    decreases i
  {
    if PrevIndex(i).None? then w
    else
      var p := i - 1;
      var w1 := w.(liveMin := w.liveMin[i := 0]);
      var w2 :=
        if w1.liveMax[p] != w1.value[p] then w1.(value := w1.value[p := w1.value[p] + 1])
        else if PrevIndex(p).Some? then MoveUp(b, w1.(value := w1.value[p := 0]), p)
        else CheckShouldChange(b, Upper, w1, p).wheels;
      if w2.liveMax[p] == w2.value[p] then CheckShouldChange(b, Upper, w2, p).wheels else w2
  }

  /** The carry condition of the value-change listener: the wheel wrapped from 9 to its live minimum. */
  predicate Wrapped(w: Wheels, i: nat, oldVal: int, newVal: int)
    requires i < |w.liveMin|
  {
    oldVal == 9 && newVal == w.liveMin[i]
  }

  /**
   * The value-change listener of slot `i`: carry on a wrap, then the maximum check when the new
   * value is the live maximum, then the minimum check when still continuing and the new value is
   * the bound minimum digit, then relaxation of the later slots when still continuing and the
   * wheel moved off a bound digit.
   */
  function ValueChanged(b: Bounds, w: Wheels, i: nat, oldVal: int, newVal: int): (r: Wheels)
    requires Fits(b, w) && i < |b.boundMax|
    ensures Fits(b, r)
    ensures forall m :: i <= m < |w.value| ==> r.value[m] == w.value[m]
  {
    var w1 := if Wrapped(w, i, oldVal, newVal) then MoveUp(b, w, i) else w;
    var c1 := if newVal == w1.liveMax[i] then CheckShouldChange(b, Upper, w1, i) else Checked(w1, true);
    var c2 := if c1.shouldContinue && newVal == b.boundMin[i] then CheckShouldChange(b, Lower, c1.wheels, i) else c1;
    if c2.shouldContinue && (oldVal == b.boundMin[i] || oldVal == b.boundMax[i]) &&
       newVal != b.boundMin[i] && newVal != b.boundMax[i]
    then Relax(c2.wheels, i + 1)
    else c2.wheels
  }

  /** `adjust` of slot `i`: the maximum check when it shows its bound maximum, else the minimum check when it shows its bound minimum. */
  function Adjust(b: Bounds, w: Wheels, i: nat): (r: Wheels)
    requires Fits(b, w) && i < |b.boundMax|
    ensures Fits(b, r) && r.value == w.value
  {
    if w.value[i] == b.boundMax[i] then CheckShouldChange(b, Upper, w, i).wheels
    else if w.value[i] == b.boundMin[i] then CheckShouldChange(b, Lower, w, i).wheels
    else w
  }

  /** `adjust` on slots k, k+1, ..., n-1 in index order. */
  function AdjustFrom(b: Bounds, w: Wheels, k: nat): (r: Wheels)
    requires Fits(b, w) && k <= |b.boundMax|
    ensures Fits(b, r) && r.value == w.value
    decreases |b.boundMax| - k
  {
    if k == |b.boundMax| then w else AdjustFrom(b, Adjust(b, w, k), k + 1)
  }

  /** The first pass of `reset`: every wheel back to its default digit with live minimum 0. */
  function Restore(b: Bounds, w: Wheels): (r: Wheels)
    requires Fits(b, w)
    ensures Fits(b, r) && r.value == b.dflt && r.liveMax == w.liveMax
    ensures forall k :: 0 <= k < |r.liveMin| ==> r.liveMin[k] == 0
  {
    Wheels(b.dflt, Zeros(|b.boundMax|), w.liveMax)
  }

  /** `reset`: restore every wheel, then `adjust` each slot in index order; every wheel then shows its default digit. */
  function Reset(b: Bounds, w: Wheels): (r: Wheels)
    requires Fits(b, w)
    ensures Fits(b, r) && r.value == b.dflt
  {
    AdjustFrom(b, Restore(b, w), 0)
  }

  /** The state the construction pass leaves: defaults, live minimum 0, the initial live maxima, then `adjust` on every slot. */
  function Constructed(b: Bounds, initialMax: seq<int>): (r: Wheels)
    requires |b.boundMin| == |b.boundMax| && |b.dflt| == |b.boundMax| && |initialMax| == |b.boundMax|
    ensures Fits(b, r) && r.value == b.dflt
  {
    AdjustFrom(b, Wheels(b.dflt, Zeros(|b.boundMax|), initialMax), 0)
  }
}
