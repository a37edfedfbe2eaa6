/**
 * The dialog's wheels as the source keeps them: one `NumberPicker` per slot, whose `value`,
 * `minValue` and `maxValue` the routines below overwrite in place (here three arrays indexed by
 * slot), beside the immutable per-slot bound and default digits. Every routine is proved to
 * leave exactly the state that the matching function of module Propagation describes.
 */
module Picker {
  import opened Wrappers
  import opened Decomposition
  import opened Propagation
  import Assembly

  /** The initial live maxima the construction loop gives the wheels. */
  function InitialMax(slots: seq<SlotConfig>): (r: seq<int>)
    ensures |r| == |slots|
  {
    seq(|slots|, k requires 0 <= k < |slots| => slots[k].initialMax)
  }

  /** The bound maximum, bound minimum and default digit of every slot, as three lists. */
  function BoundsOf(slots: seq<SlotConfig>): (b: Bounds)
    ensures |b.boundMax| == |slots| && |b.boundMin| == |slots| && |b.dflt| == |slots|
    ensures forall k :: 0 <= k < |slots| ==>
      b.boundMax[k] == slots[k].boundMax && b.boundMin[k] == slots[k].boundMin && b.dflt[k] == slots[k].dflt
  {
    Bounds(
      seq(|slots|, k requires 0 <= k < |slots| => slots[k].boundMax),
      seq(|slots|, k requires 0 <= k < |slots| => slots[k].boundMin),
      seq(|slots|, k requires 0 <= k < |slots| => slots[k].dflt))
  }

  /** The construction loop over the maximum's characters: one slot per non-'.' character. */
  method Decompose(maxS: string, minS: string, dfltS: string) returns (slots: seq<SlotConfig>)
    ensures slots == Slots(maxS, minS, dfltS)
  {
    var minP := PadStart(minS, |maxS|, '-');
    var dfltP := PadStart(dfltS, |maxS|, '-');
    slots := [];
    var i := 0;
    while i < |maxS|
      invariant 0 <= i <= |maxS|
      invariant slots == SlotsUpTo(maxS, minP, dfltP, i)
    {
      SlotsUpToStep(maxS, minP, dfltP, i);
      if maxS[i] != '.' {
        var config := SlotConfig(
          DigitOr(maxS[i], 9), DigitOr(minP[i], 0), DigitOr(dfltP[i], 0),
          if i != 0 then 9 else DigitOr(maxS[i], 0));
        slots := slots + [config];
      }
      i := i + 1;
    }
  }

  /** A fresh array holding `s`: one `NumberPicker` field per slot. */
  method NewWheelArray(s: seq<int>) returns (a: array<int>)
    ensures fresh(a) && a[..] == s
  {
    a := new int[|s|](k requires 0 <= k < |s| => s[k]);
  }

  class NumberPickerDialog {
    /** Bound maximum, bound minimum and default digit of each slot. */
    const boundMax: seq<int>
    const boundMin: seq<int>
    const dflt: seq<int>
    /** How many of the last slots are fractional digits. */
    const decimalPoint: nat
    /** Each wheel's `value`, `minValue` and `maxValue`. */
    const value: array<int>
    const liveMin: array<int>
    const liveMax: array<int>

    ghost predicate Valid()
    {
      |boundMin| == |boundMax| && |dflt| == |boundMax| &&
      value.Length == |boundMax| && liveMin.Length == |boundMax| && liveMax.Length == |boundMax| &&
      value != liveMin && value != liveMax && liveMin != liveMax
    }

    function Config(): Bounds
    {
      Bounds(boundMax, boundMin, dflt)
    }

    function Model(): Wheels
      reads value, liveMin, liveMax
    {
      Wheels(value[..], liveMin[..], liveMax[..])
    }

    /**
     * Builds the slots from the rendered maximum and the rendered minimum and default (padded
     * here), one per non-'.' character, then runs `adjust` on every slot.
     */
    constructor (maxS: string, minS: string, dfltS: string, decimalPoint: nat)
      ensures Valid() && fresh(value) && fresh(liveMin) && fresh(liveMax)
      ensures this.decimalPoint == decimalPoint
      ensures Config() == BoundsOf(Slots(maxS, minS, dfltS))
      ensures Model() == Constructed(Config(), InitialMax(Slots(maxS, minS, dfltS)))
    {
      var slots := Decompose(maxS, minS, dfltS);
      var b := BoundsOf(slots);
      var imax := InitialMax(slots);
      var n := |slots|;
      boundMax, boundMin, dflt := b.boundMax, b.boundMin, b.dflt;
      this.decimalPoint := decimalPoint;
      var values := NewWheelArray(b.dflt);
      var mins := NewWheelArray(Zeros(n));
      var maxs := NewWheelArray(imax);
      value, liveMin, liveMax := values, mins, maxs;
      new;
      AdjustAll();
    }

    /** `adjustValue` on slot `j`: it and every later wheel get live range 0..9. */
    method AdjustValue(j: nat)
      requires Valid() && j < value.Length
      modifies liveMin, liveMax
      ensures Model() == Relax(old(Model()), j)
    {
      var n := value.Length;
      var picker: Option<nat> := Some(j);
      while picker.Some?
        invariant picker.Some? ==> j <= picker.value < n
        invariant forall m :: 0 <= m < n ==>
          liveMin[m] == if j <= m < (if picker.Some? then picker.value else n) then 0 else old(liveMin[m])
        invariant forall m :: 0 <= m < n ==>
          liveMax[m] == if j <= m < (if picker.Some? then picker.value else n) then 9 else old(liveMax[m])
        decreases n - if picker.Some? then picker.value else n
      {
        var k := picker.value;
        liveMax[k] := 9;
        liveMin[k] := 0;
        picker := NextIndex(k, n);
      }
    }

    /** The first loop of a prefix check: walk back from slot `i`, stopping at the first wheel off its bound digit. */
    method PrefixAtBound(side: Side, i: nat) returns (atBound: bool)
      requires Valid() && i < value.Length
      ensures atBound == PrefixMatches(Config(), side, Model(), i)
    {
      var prev := PrevIndex(i);
      while prev.Some?
        invariant prev.Some? ==> 0 <= prev.value < i
        invariant forall m :: 0 <= m && (if prev.Some? then prev.value + 1 else 0) <= m < i ==>
          value[m] == Bound(Config(), side, m)
        decreases if prev.Some? then prev.value + 1 else 0
      {
        var p := prev.value;
        if value[p] == Bound(Config(), side, p) {
          prev := PrevIndex(p);
        } else {
          return false;
        }
      }
      return true;
    }

    /** One step of the second loop of a prefix check: wheel `k`'s live range becomes 0..bound (Upper) or bound..9 (Lower). */
    method ClampSlot(side: Side, k: nat)
      requires Valid() && k < value.Length
      modifies liveMin, liveMax
      ensures Model() == Clamp(Config(), side, old(Model()), k)
    {
      if side == Upper {
        liveMax[k] := boundMax[k];
        liveMin[k] := 0;
      } else {
        liveMin[k] := boundMin[k];
        liveMax[k] := 9;
      }
    }

    /**
     * One pass of the second loop of a prefix check: clamp slot `k`; when it shows its bound digit
     * the loop goes on at the next slot, otherwise every later slot is relaxed and the loop ends.
     */
    method ClampStep(side: Side, k: nat) returns (next: Option<nat>)
      requires Valid() && k < value.Length
      modifies liveMin, liveMax
      ensures next.Some? ==> k < next.value < value.Length
      ensures Fits(Config(), Model())
      ensures ClampFrom(Config(), side, old(Model()), k) ==
              if next.Some? then ClampFrom(Config(), side, Model(), next.value) else Model()
    {
      var n := value.Length;
      ClampSlot(side, k);
      if value[k] == Bound(Config(), side, k) {
        next := NextIndex(k, n);
      } else {
        var after := NextIndex(k, n);
        if after.Some? {
          AdjustValue(after.value);
        } else {
          assert Relax(Model(), n) == Model();
        }
        next := None;
      }
    }

    /** The second loop of a prefix check: clamp from slot `j` on while the wheels show their bound digits, then relax the rest. */
    method ClampSuffix(side: Side, j: nat)
      requires Valid() && j < value.Length
      modifies liveMin, liveMax
      ensures Model() == ClampFrom(Config(), side, old(Model()), j)
    {
      var n := value.Length;
      var next: Option<nat> := Some(j);
      while next.Some?
        invariant next.Some? ==> j <= next.value < n
        invariant Fits(Config(), Model())
        invariant (if next.Some? then ClampFrom(Config(), side, Model(), next.value) else Model()) ==
                  ClampFrom(Config(), side, old(Model()), j)
        decreases n - if next.Some? then next.value else n
      {
        next := ClampStep(side, next.value);
      }
    }

    /** The shared body of `checkShouldChangeMaxValue` (Upper) and `checkShouldChangeMinValue` (Lower). */
    method CheckShouldChange(side: Side, i: nat) returns (shouldContinue: bool)
      requires Valid() && i < value.Length
      modifies liveMin, liveMax
      ensures Checked(Model(), shouldContinue) == Propagation.CheckShouldChange(Config(), side, old(Model()), i)
    {
      var next := NextIndex(i, value.Length);
      if next.None? {
        return false;
      }
      var atBound := PrefixAtBound(side, i);
      if !atBound {
        return true;
      }
      ClampSuffix(side, next.value);
      return false;
    }

    /** `checkShouldChangeMaxValue` on slot `i`. */
    method CheckShouldChangeMaxValue(i: nat) returns (shouldContinue: bool)
      requires Valid() && i < value.Length
      modifies liveMin, liveMax
      ensures Checked(Model(), shouldContinue) == Propagation.CheckShouldChange(Config(), Upper, old(Model()), i)
    {
      shouldContinue := CheckShouldChange(Upper, i);
    }

    /** `checkShouldChangeMinValue` on slot `i`. */
    method CheckShouldChangeMinValue(i: nat) returns (shouldContinue: bool)
      requires Valid() && i < value.Length
      modifies liveMin, liveMax
      ensures Checked(Model(), shouldContinue) == Propagation.CheckShouldChange(Config(), Lower, old(Model()), i)
    {
      shouldContinue := CheckShouldChange(Lower, i);
    }

    /** `onMoveUpValue` on slot `i`: carry one into the slot before it, cascading over wheels at their live maximum. */
    method OnMoveUpValue(i: nat)
      requires Valid() && i < value.Length
      modifies value, liveMin, liveMax
      ensures Model() == MoveUp(Config(), old(Model()), i)
      decreases i
    {
      var prevPicker := PrevIndex(i);
      if prevPicker.None? {
        return;
      }
      var p := prevPicker.value;
      liveMin[i] := 0;
      ghost var w1 := Model();
      if liveMax[p] != value[p] {
        value[p] := value[p] + 1;
      } else {
        var morePrev := PrevIndex(p);
        if morePrev.Some? {
          value[p] := 0;
          OnMoveUpValue(p);
        } else {
          var _ := CheckShouldChangeMaxValue(p);
        }
      }
      ghost var w2 := Model();
      if liveMax[p] == value[p] {
        var _ := CheckShouldChangeMaxValue(p);
      }
    }

    /** The value-change listener of wheel `i`, called after the wheel moved from `oldVal` to `newVal`. */
    method OnValueChanged(i: nat, oldVal: int, newVal: int)
      requires Valid() && i < value.Length && value[i] == newVal
      modifies value, liveMin, liveMax
      ensures Model() == ValueChanged(Config(), old(Model()), i, oldVal, newVal)
    {
      if oldVal == 9 && newVal == liveMin[i] {
        OnMoveUpValue(i);
      }
      ghost var w1 := Model();
      assert w1 == if Wrapped(old(Model()), i, oldVal, newVal) then MoveUp(Config(), old(Model()), i) else old(Model());
      var shouldCheckContinue := true;
      if newVal == liveMax[i] {
        shouldCheckContinue := CheckShouldChangeMaxValue(i);
      }
      ghost var c1 := Checked(Model(), shouldCheckContinue);
      assert c1 == if newVal == w1.liveMax[i] then Propagation.CheckShouldChange(Config(), Upper, w1, i) else Checked(w1, true);
      if shouldCheckContinue && newVal == boundMin[i] {
        shouldCheckContinue := CheckShouldChangeMinValue(i);
      }
      assert Checked(Model(), shouldCheckContinue) == if c1.shouldContinue && newVal == boundMin[i]
        then Propagation.CheckShouldChange(Config(), Lower, c1.wheels, i) else c1;
      if shouldCheckContinue && (oldVal == boundMin[i] || oldVal == boundMax[i]) &&
         newVal != boundMin[i] && newVal != boundMax[i] {
        var next := NextIndex(i, value.Length);
        if next.Some? {
          AdjustValue(next.value);
        } else {
          assert Relax(Model(), value.Length) == Model();
        }
      }
    }

    /** `adjust` of slot `i`. */
    method Adjust(i: nat)
      requires Valid() && i < value.Length
      modifies liveMin, liveMax
      ensures Model() == Propagation.Adjust(Config(), old(Model()), i)
    {
      if value[i] == boundMax[i] {
        var _ := CheckShouldChangeMaxValue(i);
      } else if value[i] == boundMin[i] {
        var _ := CheckShouldChangeMinValue(i);
      }
    }

    /** `forEach { adjust() }` over all slots in index order. */
    method AdjustAll()
      requires Valid()
      modifies liveMin, liveMax
      ensures Model() == AdjustFrom(Config(), old(Model()), 0)
    {
      var k := 0;
      while k < value.Length
        invariant 0 <= k <= value.Length
        invariant Fits(Config(), Model())
        invariant AdjustFrom(Config(), Model(), k) == AdjustFrom(Config(), old(Model()), 0)
      {
        Adjust(k);
        k := k + 1;
      }
    }

    /** `reset`: every wheel back to its default with live minimum 0, then `adjust` on every slot. */
    method Reset()
      requires Valid()
      modifies value, liveMin, liveMax
      ensures Model() == Propagation.Reset(Config(), old(Model()))
    {
      var k := 0;
      while k < value.Length
        invariant 0 <= k <= value.Length
        invariant forall m :: 0 <= m < k ==> liveMin[m] == 0 && value[m] == dflt[m]
        invariant forall m :: k <= m < value.Length ==> liveMin[m] == old(liveMin[m]) && value[m] == old(value[m])
        invariant liveMax[..] == old(liveMax[..])
      {
        liveMin[k] := 0;
        value[k] := dflt[k];
        k := k + 1;
      }
      assert Model() == Restore(Config(), old(Model()));
      AdjustAll();
    }

    /**
     * `getCombinedValue` before `toFloat`. While every wheel shows one digit, the string is the
     * reversal of the most-significant-first rendering.
     */
    function GetCombinedValue(): (s: string)
      reads value
      requires Valid() && decimalPoint <= value.Length
      ensures s == Assembly.CombinedString(value[..], decimalPoint)
      ensures Assembly.AllDigits(value[..]) ==>
        s == Assembly.Reverse(Assembly.IntendedCombinedString(value[..], decimalPoint))
    {
      var s := Assembly.CombinedString(value[..], decimalPoint);
      if Assembly.AllDigits(value[..]) then
        Assembly.CombinedStringIsReversed(value[..], decimalPoint);
        s
      else s
    }
  }
}
