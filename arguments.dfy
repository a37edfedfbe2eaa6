/**
 * Argument validation of `NumberPickerDialog.newInstance`: the two bounds and the optional
 * default are decimals (a `BigDecimal` is an unscaled integer times ten to minus its scale);
 * the call fails when the range is inverted or the default lies outside it, and otherwise
 * fixes the number of fractional digits the wheels show.
 */
module Arguments {
  import opened Wrappers

  /** A `BigDecimal`: the number `unscaled * 10^(-scale)`. */
  datatype Decimal = Decimal(unscaled: int, scale: int)

  datatype ArgumentError = MaxBelowMin | DefaultOutOfRange

  /** What `newInstance` stores in the dialog's arguments (the float conversions left out). */
  datatype DialogArguments = DialogArguments(
    minValue: Decimal, maxValue: Decimal, defaultValue: Option<Decimal>, decimalPoint: int)

  function Pow10(e: nat): (r: nat)
    ensures r >= 1
  {
    if e == 0 then 1 else 10 * Pow10(e - 1)
  }

  function Abs(x: int): nat { if x < 0 then -x else x }

  function Max(a: int, b: int): int { if a < b then b else a }

  /**
   * The number a decimal denotes, unscaled / 10^scale; `compareTo` (and so `<`, `>`) compares
   * these. It has the sign of the unscaled value.
   */
  function ValueOf(d: Decimal): (r: real)
    ensures d.scale >= 0 ==> r * Pow10(d.scale) as real == d.unscaled as real
    ensures d.scale < 0 ==> r == d.unscaled as real * Pow10(-d.scale) as real
    ensures (r < 0.0 <==> d.unscaled < 0) && (r == 0.0 <==> d.unscaled == 0)
  {
    if d.scale >= 0 then
      QuotientSign(d.unscaled, Pow10(d.scale));
      d.unscaled as real / Pow10(d.scale) as real
    else
      ProductSign(d.unscaled, Pow10(-d.scale));
      (d.unscaled * Pow10(-d.scale)) as real
  }

  /** Dividing by a positive power of ten keeps the sign and undoes the multiplication. */
  lemma QuotientSign(u: int, p: nat)
    requires p >= 1
    ensures var q := u as real / p as real;
      q * p as real == u as real && (q < 0.0 <==> u < 0) && (q == 0.0 <==> u == 0)
  {
  }

  /** Multiplying by a positive power of ten keeps the sign. */
  lemma ProductSign(u: int, p: nat)
    requires p >= 1
    ensures (u * p) as real == u as real * p as real && (u * p < 0 <==> u < 0) && (u * p == 0 <==> u == 0)
  {
    if u < 0 {
      assert u * p <= u;
    } else if u > 0 {
      assert u * p >= u;
    }
  }

  /** Dropping one trailing zero of the unscaled value and lowering the scale by one keeps the value. */
  lemma DropZeroKeepsValue(u: int, s: int)
    requires u % 10 == 0
    ensures ValueOf(Decimal(u / 10, s - 1)) == ValueOf(Decimal(u, s))
  {
    var q := u / 10;
    assert u == 10 * q;
    if s >= 1 {
      var p := Pow10(s - 1);
      assert Pow10(s) == 10 * p;
      calc {
        ValueOf(Decimal(u, s));
        (10 * q) as real / (10 * p) as real;
        { assert (10 * q) as real == 10.0 * q as real; assert (10 * p) as real == 10.0 * p as real; }
        (10.0 * q as real) / (10.0 * p as real);
        q as real / p as real;
      }
    } else {
      assert Pow10(-(s - 1)) == 10 * Pow10(-s);
      assert q * (10 * Pow10(-s)) == (10 * q) * Pow10(-s);
    }
  }

  /** `BigDecimal.stripTrailingZeros()`: the same number with the smallest scale (zero becomes scale 0). */
  function StripTrailingZeros(d: Decimal): (r: Decimal)
    ensures ValueOf(r) == ValueOf(d)
    ensures r.unscaled == 0 ==> r.scale == 0
    ensures r.unscaled != 0 ==> r.unscaled % 10 != 0 && r.scale <= d.scale
    decreases Abs(d.unscaled)
  {
    if d.unscaled == 0 then Decimal(0, 0)
    else if d.unscaled % 10 == 0 then
      DropZeroKeepsValue(d.unscaled, d.scale);
      StripTrailingZeros(Decimal(d.unscaled / 10, d.scale - 1))
    else d
  }

  /** `newInstance`: reject an inverted range, then a default outside the range; else record the larger stripped scale. */
  function NewInstance(maxValue: Decimal, minValue: Decimal, default: Option<Decimal>)
    : (r: Result<DialogArguments, ArgumentError>)
    ensures r == Failure(MaxBelowMin) <==> ValueOf(maxValue) < ValueOf(minValue)
    ensures r == Failure(DefaultOutOfRange) <==>
      ValueOf(minValue) <= ValueOf(maxValue) && default.Some? &&
      (ValueOf(default.value) < ValueOf(minValue) || ValueOf(maxValue) < ValueOf(default.value))
    ensures r.Success? ==>
      r.value.minValue == minValue && r.value.maxValue == maxValue && r.value.defaultValue == default
  {
    if ValueOf(maxValue) < ValueOf(minValue) then Failure(MaxBelowMin)
    else if default.Some? && (ValueOf(default.value) > ValueOf(maxValue) || ValueOf(default.value) < ValueOf(minValue)) then
      Failure(DefaultOutOfRange)
    else
      Success(DialogArguments(minValue, maxValue, default,
        Max(StripTrailingZeros(minValue).scale, StripTrailingZeros(maxValue).scale)))
  }

  /** The number `m * 10^(-digits)`. */
  function Scaled(m: int, digits: nat): real
  {
    m as real / Pow10(digits) as real
  }

  /** `d` can be written exactly with `digits` fractional digits. */
  ghost predicate Representable(d: Decimal, digits: nat)
  {
    exists m: int :: ValueOf(d) == Scaled(m, digits)
  }

  lemma CancelCommonFactor(a: int, b: int, c: int)
    requires b > 0 && c > 0
    ensures (a * c) as real / (b * c) as real == a as real / b as real
  {
    var A, B, C := a as real, b as real, c as real;
    assert (a * c) as real == A * C;
    assert (b * c) as real == B * C;
    assert (A / B) * (B * C) == A * C;
  }

  lemma {:induction false} Pow10Add(a: nat, b: nat)
    ensures Pow10(a + b) == Pow10(a) * Pow10(b)
  {
    if a > 0 {
      Pow10Add(a - 1, b);
    }
  }

  /** A decimal of scale at most `digits` is exact with `digits` fractional digits. */
  lemma ScaleSuffices(d: Decimal, digits: nat)
    requires d.scale <= digits
    ensures Representable(d, digits)
  {
    var P := Pow10(digits);
    if d.scale >= 0 {
      var e: nat := digits - d.scale;
      Pow10Add(d.scale, e);
      CancelCommonFactor(d.unscaled, Pow10(d.scale), Pow10(e));
      assert ValueOf(d) == Scaled(d.unscaled * Pow10(e), digits);
    } else {
      var v := d.unscaled * Pow10(-d.scale);
      CancelCommonFactor(v, 1, P);
      assert ValueOf(d) == Scaled(v * P, digits);
    }
  }

  /** A decimal whose stripped scale is at most `digits` is exact with `digits` fractional digits. */
  lemma StrippedScaleSuffices(d: Decimal, digits: nat)
    requires StripTrailingZeros(d).scale <= digits
    ensures Representable(d, digits)
  {
    var s := StripTrailingZeros(d);
    ScaleSuffices(s, digits);
    var m :| ValueOf(s) == Scaled(m, digits);
    assert ValueOf(d) == Scaled(m, digits);
  }

  /** On success, the recorded decimal point is one of the two stripped scales and covers both bounds exactly. */
  lemma {:induction false} DecimalPointCoversBounds(maxValue: Decimal, minValue: Decimal, default: Option<Decimal>)
    requires NewInstance(maxValue, minValue, default).Success?
    requires NewInstance(maxValue, minValue, default).value.decimalPoint >= 0
    ensures var dp := NewInstance(maxValue, minValue, default).value.decimalPoint;
      dp >= StripTrailingZeros(minValue).scale && dp >= StripTrailingZeros(maxValue).scale &&
      (dp == StripTrailingZeros(minValue).scale || dp == StripTrailingZeros(maxValue).scale) &&
      Representable(minValue, dp) && Representable(maxValue, dp)
  {
    var dp := NewInstance(maxValue, minValue, default).value.decimalPoint;
    StrippedScaleSuffices(minValue, dp);
    StrippedScaleSuffices(maxValue, dp);
  }

  /**
   * As written, the default's own scale is not consulted: bounds 0.5 and 1.5 with default
   * 0.75 are accepted with one fractional digit, which cannot hold 0.75.
   */
  lemma DefaultScaleIgnored()
    ensures var r := NewInstance(Decimal(15, 1), Decimal(5, 1), Some(Decimal(75, 2)));
      r.Success? && r.value.decimalPoint == 1 && !Representable(Decimal(75, 2), 1)
  {
    assert Pow10(1) == 10 && Pow10(2) == 100;
    assert ValueOf(Decimal(15, 1)) == 1.5 && ValueOf(Decimal(5, 1)) == 0.5;
    assert ValueOf(Decimal(75, 2)) == 0.75;
    assert StripTrailingZeros(Decimal(15, 1)) == Decimal(15, 1);
    assert StripTrailingZeros(Decimal(5, 1)) == Decimal(5, 1);
    forall m: int ensures ValueOf(Decimal(75, 2)) != Scaled(m, 1) {
      if m <= 7 {
        assert Scaled(m, 1) <= 0.7;
      } else {
        assert Scaled(m, 1) >= 0.8;
      }
    }
    var r := NewInstance(Decimal(15, 1), Decimal(5, 1), Some(Decimal(75, 2)));
    assert r.Success?;
    assert r.value.decimalPoint == 1;
    assert !Representable(Decimal(75, 2), 1);
  }

  /** `newInstance` with the default's stripped scale taken into the decimal point as well. */
  function NewInstanceCoveringDefault(maxValue: Decimal, minValue: Decimal, default: Option<Decimal>)
    : (r: Result<DialogArguments, ArgumentError>)
    ensures r.Success? <==> NewInstance(maxValue, minValue, default).Success?
    ensures r.Failure? ==> r == NewInstance(maxValue, minValue, default)
  {
    match NewInstance(maxValue, minValue, default)
    case Failure(e) => Failure(e)
    case Success(args) =>
      var dp := if default.Some? then Max(args.decimalPoint, StripTrailingZeros(default.value).scale)
                else args.decimalPoint;
      Success(args.(decimalPoint := dp))
  }

  /** With the corrected decimal point, the default is exact on the wheels as well as both bounds. */
  lemma {:induction false} CoveringDefaultRepresentsAll(maxValue: Decimal, minValue: Decimal, default: Option<Decimal>)
    requires NewInstanceCoveringDefault(maxValue, minValue, default).Success?
    requires NewInstanceCoveringDefault(maxValue, minValue, default).value.decimalPoint >= 0
    ensures var dp := NewInstanceCoveringDefault(maxValue, minValue, default).value.decimalPoint;
      Representable(minValue, dp) && Representable(maxValue, dp) &&
      (default.Some? ==> Representable(default.value, dp))
  {
    var dp := NewInstanceCoveringDefault(maxValue, minValue, default).value.decimalPoint;
    StrippedScaleSuffices(minValue, dp);
    StrippedScaleSuffices(maxValue, dp);
    if default.Some? {
      StrippedScaleSuffices(default.value, dp);
    }
  }
}
