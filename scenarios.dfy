/**
 * Concrete dialogs worked through the engine: the maximum clamp of 0..25, the minimum clamp of
 * 18..99, and the one-fractional-digit dialog 0.0..9.5 with its joined string.
 */
module Scenarios {
  import opened Decomposition
  import opened Propagation
  import Picker
  import Assembly

  /** The user turns wheel `i` to `newVal`: the wheel shows it, then the listener runs with the old value. */
  function Turn(b: Bounds, w: Wheels, i: nat, newVal: int): (r: Wheels)
    requires Fits(b, w) && i < |b.boundMax|
    ensures Fits(b, r)
  {
    ValueChanged(b, w.(value := w.value[i := newVal]), i, w.value[i], newVal)
  }

  /** The two slots of the dialog 0..25 (no fractional digit, default the minimum). */
  lemma {:induction false} SlotsZeroToTwentyFive()
    ensures Picker.BoundsOf(Slots("25", "0", "0")) == Bounds([2, 5], [0, 0], [0, 0])
    ensures Picker.InitialMax(Slots("25", "0", "0")) == [2, 9]
  {
    var minP, dfltP := PadStart("0", 2, '-'), PadStart("0", 2, '-');
    assert minP == "-0" && dfltP == "-0";
    SlotsUpToStep("25", minP, dfltP, 0);
    SlotsUpToStep("25", minP, dfltP, 1);
    assert Slots("25", "0", "0") == [SlotOf("25", minP, dfltP, 0), SlotOf("25", minP, dfltP, 1)];
    assert SlotOf("25", minP, dfltP, 0) == SlotConfig(2, 0, 0, 2);
    assert SlotOf("25", minP, dfltP, 1) == SlotConfig(5, 0, 0, 9);
  }

  /** Dialog 0..25 built at its default 0: `adjust` changes nothing, so the units wheel ranges over 0..9. */
  lemma {:induction false} BuiltTwentyFive()
    ensures Constructed(Bounds([2, 5], [0, 0], [0, 0]), [2, 9]) == Wheels([0, 0], [0, 0], [2, 9])
  {
    var b := Bounds([2, 5], [0, 0], [0, 0]);
    var start := Wheels([0, 0], [0, 0], [2, 9]);
    assert Zeros(2) == [0, 0];
    assert Adjust(b, start, 0) == start by {
      assert ClampFrom(b, Lower, start, 1) == ClampFrom(b, Lower, Clamp(b, Lower, start, 1), 2);
      assert Clamp(b, Lower, start, 1) == start;
    }
    assert Adjust(b, start, 1) == start;
    assert AdjustFrom(b, start, 0) == start by {
      assert AdjustFrom(b, start, 2) == start;
    }
  }

  /**
   * Dialog 0..25: built, the units wheel ranges over 0..9. Turning the tens wheel to 1 and then to
   * 2 limits the units wheel to 0..5; turning the tens wheel back to 1 gives it 0..9 again.
   */
  lemma {:induction false} MaxClampTwentyFive()
    ensures var b := Bounds([2, 5], [0, 0], [0, 0]);
      var w0 := Constructed(b, [2, 9]);
      var w1 := Turn(b, w0, 0, 1);
      var w2 := Turn(b, w1, 0, 2);
      var w3 := Turn(b, w2, 0, 1);
      w0 == Wheels([0, 0], [0, 0], [2, 9]) &&
      w1 == Wheels([1, 0], [0, 0], [2, 9]) &&
      w2 == Wheels([2, 0], [0, 0], [2, 5]) &&
      w3 == Wheels([1, 0], [0, 0], [2, 9])
  {
    var b := Bounds([2, 5], [0, 0], [0, 0]);
    var start := Wheels([0, 0], [0, 0], [2, 9]);
    BuiltTwentyFive();
    var v1 := Wheels([1, 0], [0, 0], [2, 9]);
    assert Turn(b, start, 0, 1) == Relax(v1, 1) == v1;
    var v2 := Wheels([2, 0], [0, 0], [2, 5]);
    assert Turn(b, v1, 0, 2) == v2 by {
      var moved := Wheels([2, 0], [0, 0], [2, 9]);
      assert CheckShouldChange(b, Upper, moved, 0).wheels == ClampFrom(b, Upper, moved, 1);
      assert ClampFrom(b, Upper, moved, 1) == Relax(Clamp(b, Upper, moved, 1), 2) == v2;
    }
    var v3 := Wheels([1, 0], [0, 0], [2, 9]);
    assert Turn(b, v2, 0, 1) == Relax(Wheels([1, 0], [0, 0], [2, 5]), 1) == v3;
  }

  /** The two slots of the dialog 18..99 (no fractional digit, default the minimum). */
  lemma {:induction false} SlotsEighteenToNinetyNine()
    ensures Picker.BoundsOf(Slots("99", "18", "18")) == Bounds([9, 9], [1, 8], [1, 8])
    ensures Picker.InitialMax(Slots("99", "18", "18")) == [9, 9]
  {
    var minP, dfltP := PadStart("18", 2, '-'), PadStart("18", 2, '-');
    assert minP == "18" && dfltP == "18";
    SlotsUpToStep("99", minP, dfltP, 0);
    SlotsUpToStep("99", minP, dfltP, 1);
    assert Slots("99", "18", "18") == [SlotOf("99", minP, dfltP, 0), SlotOf("99", minP, dfltP, 1)];
    assert SlotOf("99", minP, dfltP, 0) == SlotConfig(9, 1, 1, 9);
    assert SlotOf("99", minP, dfltP, 1) == SlotConfig(9, 8, 8, 9);
  }

  /**
   * Dialog 18..99: built at its default 18, the units wheel ranges over 8..9. Turning the tens
   * wheel to 2 gives it 0..9; turning the tens wheel back to 1 limits it to 8..9 again.
   */
  lemma {:induction false} MinClampEighteen()
    ensures var b := Bounds([9, 9], [1, 8], [1, 8]);
      var w0 := Constructed(b, [9, 9]);
      var w1 := Turn(b, w0, 0, 2);
      var w2 := Turn(b, w1, 0, 1);
      w0 == Wheels([1, 8], [0, 8], [9, 9]) &&
      w1 == Wheels([2, 8], [0, 0], [9, 9]) &&
      w2 == Wheels([1, 8], [0, 8], [9, 9])
  {
    var b := Bounds([9, 9], [1, 8], [1, 8]);
    var start := Wheels([1, 8], [0, 0], [9, 9]);
    var built := Wheels([1, 8], [0, 8], [9, 9]);
    assert Zeros(2) == [0, 0];
    assert Adjust(b, start, 0) == built by {
      assert CheckShouldChange(b, Lower, start, 0).wheels == ClampFrom(b, Lower, start, 1);
      assert ClampFrom(b, Lower, start, 1) == ClampFrom(b, Lower, Clamp(b, Lower, start, 1), 2);
      assert Clamp(b, Lower, start, 1) == built;
    }
    assert Adjust(b, built, 1) == built;
    assert AdjustFrom(b, start, 0) == built by {
      assert AdjustFrom(b, start, 0) == AdjustFrom(b, built, 1);
      assert AdjustFrom(b, built, 1) == AdjustFrom(b, built, 2) == built;
    }
    var v1 := Wheels([2, 8], [0, 0], [9, 9]);
    assert Turn(b, built, 0, 2) == Relax(Wheels([2, 8], [0, 8], [9, 9]), 1) == v1;
    assert Turn(b, v1, 0, 1) == built by {
      var moved := Wheels([1, 8], [0, 0], [9, 9]);
      assert CheckShouldChange(b, Lower, moved, 0).wheels == ClampFrom(b, Lower, moved, 1);
      assert ClampFrom(b, Lower, moved, 1) == ClampFrom(b, Lower, Clamp(b, Lower, moved, 1), 2);
    }
  }

  /** Dialog 0.0..9.5 with one fractional digit: the '.' is no slot, leaving the ones and the tenths. */
  lemma {:induction false} SlotsNinePointFive()
    ensures Picker.BoundsOf(Slots("9.5", "0.0", "0.0")) == Bounds([9, 5], [0, 0], [0, 0])
    ensures Picker.InitialMax(Slots("9.5", "0.0", "0.0")) == [9, 9]
  {
    var minP, dfltP := PadStart("0.0", 3, '-'), PadStart("0.0", 3, '-');
    assert minP == "0.0" && dfltP == "0.0";
    SlotsUpToStep("9.5", minP, dfltP, 0);
    SlotsUpToStep("9.5", minP, dfltP, 1);
    SlotsUpToStep("9.5", minP, dfltP, 2);
    assert Slots("9.5", "0.0", "0.0") == [SlotOf("9.5", minP, dfltP, 0), SlotOf("9.5", minP, dfltP, 2)];
    assert SlotOf("9.5", minP, dfltP, 0) == SlotConfig(9, 0, 0, 9);
    assert SlotOf("9.5", minP, dfltP, 2) == SlotConfig(5, 0, 0, 9);
  }

  /**
   * Dialog 0.0..9.5 with one fractional digit: turning the ones wheel to 9 limits the tenths
   * wheel to 0..5; the wheels then showing 9 and 5 join, as written, to "5.9".
   */
  lemma {:induction false} DecimalNinePointFive()
    ensures var b := Bounds([9, 5], [0, 0], [0, 0]);
      var w1 := Turn(b, Wheels([8, 0], [0, 0], [9, 9]), 0, 9);
      w1 == Wheels([9, 0], [0, 0], [9, 5]) &&
      Assembly.CombinedString([9, 5], 1) == "5.9"
  {
    var b := Bounds([9, 5], [0, 0], [0, 0]);
    var moved := Wheels([9, 0], [0, 0], [9, 9]);
    assert CheckShouldChange(b, Upper, moved, 0).wheels == ClampFrom(b, Upper, moved, 1);
    assert ClampFrom(b, Upper, moved, 1) == Relax(Clamp(b, Upper, moved, 1), 2);
    Assembly.CombinedStringNinePointFive();
  }
}
