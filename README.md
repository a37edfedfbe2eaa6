# Number picker dialog: the digit-wheel bound engine

This project models the core of `NumberPickerDialog`, an Android dialog that lets the user pick
a decimal number between a minimum and a maximum. The dialog shows one wheel per digit. Each
wheel has a value, a live minimum and a live maximum. It also has three fixed digits taken from
the rendered bounds and default: its bound maximum, bound minimum and default digit.

The engine is meant to keep the wheels inside the range. When every more significant wheel shows its
bound-maximum digit, a wheel's live range shrinks to `0..boundMax`. When they all show their
bound-minimum digits, it shrinks to `boundMin..9`. A wheel that wraps from 9 carries one into the
wheel before it.

The model has these parts:

- `Arguments` (arguments.dfy): the checks `newInstance` makes on its arguments. It rejects an
  inverted range and a default outside the range. Otherwise it records the number of fractional
  digits, the larger of the two bounds' scales after `stripTrailingZeros`. A `BigDecimal` is
  modelled as an unscaled integer and a scale.
- `Decomposition` (decomposition.dfy): the functions that specify the construction loop; the loop
  itself is `Picker.Decompose`. They turn the rendered maximum and the minimum and default
  (left-padded with '-') into one slot per non-'.' character.
- `Propagation` (propagation.dfy): every routine of the engine as a function on a value state
  (`Wheels`: the three per-wheel integers) under fixed `Bounds`. These routines are
  `adjustValue`, `checkShouldChangeMaxValue`/`checkShouldChangeMinValue`, `onMoveUpValue`, the
  value-change listener, `adjust`, the construction pass and `reset`.
- `EngineProperties` (properties.dfy): what those functions do, in closed form. It covers which
  slots a prefix check clamps and which it relaxes, the carry, and the listener's frame. It also
  proves that the adjust pass and `reset` are idempotent.
- `Picker` (picker.dfy): the dialog as a class. The bound digits are immutable sequences. The
  wheels' `value`, `minValue` and `maxValue` are three arrays that the methods update in place.
  Each method is proved to leave exactly the state that the matching `Propagation` function
  describes.
- `Assembly` (assembly.dfy): `getCombinedValue` up to the final `toFloat`. It proves what the
  joined string is as written and what it was evidently meant to be.
- `Scenarios` (scenarios.dfy): three concrete dialogs worked through the engine. They are 0..25
  (maximum clamp), 18..99 (minimum clamp) and 0.0..9.5 with one fractional digit.
- `Wrappers` (wrappers.dfy): `Option` and `Result`.

`getCombinedValue` evidently means wheels showing 9 and 5, with one fractional digit, to combine
to 9.5: its result goes to `toFloat`, which reads the digits most significant first. The code's
`foldRight { s, acc -> "$s$acc" }` joins the reversed list in that reversed order, so it yields
"5.9". This model follows the code and logs the difference under "## Findings".

All paths below are relative to the repository root.

## Model

| member | source | states |
|---|---|---|
| Arguments.ValueOf | src/main/java/com/farmanlabo/numberpickerdialog/NumberPickerDialog.kt:345-349 | the decimal denotes unscaled / 10^scale, the number `compareTo` compares; it is negative exactly when the unscaled value is, and zero exactly when that is zero |
| Arguments.StripTrailingZeros | src/main/java/com/farmanlabo/numberpickerdialog/NumberPickerDialog.kt:358 | the stripped decimal denotes the same number; zero gets scale 0; otherwise its unscaled value has no trailing zero and its scale is not larger |
| Arguments.NewInstance | src/main/java/com/farmanlabo/numberpickerdialog/NumberPickerDialog.kt:345-358 | fails with MaxBelowMin exactly when max < min; fails with DefaultOutOfRange exactly when the range is ordered and a default lies outside it; on success it records the bounds and default unchanged |
| Arguments.DecimalPointCoversBounds | src/main/java/com/farmanlabo/numberpickerdialog/NumberPickerDialog.kt:358 | on success the decimal point is the larger of the two stripped scales, and both bounds can be written exactly with that many fractional digits |
| Arguments.DefaultScaleIgnored | src/main/java/com/farmanlabo/numberpickerdialog/NumberPickerDialog.kt:349-358 | bounds 0.5..1.5 with default 0.75 are accepted with one fractional digit, which cannot hold 0.75 |
| Arguments.NewInstanceCoveringDefault | src/main/java/com/farmanlabo/numberpickerdialog/NumberPickerDialog.kt:345-358 | the corrected call succeeds exactly when the original does and fails with the same error |
| Arguments.CoveringDefaultRepresentsAll | src/main/java/com/farmanlabo/numberpickerdialog/NumberPickerDialog.kt:358 | with the corrected decimal point, both bounds and the default are exact on the wheels |
| Decomposition.PadStart | src/main/java/com/farmanlabo/numberpickerdialog/NumberPickerDialog.kt:157-162 | the padded string has the target length (or stays as it is), ends with the original string, and has only the pad character in front |
| Decomposition.DigitOr | src/main/java/com/farmanlabo/numberpickerdialog/NumberPickerDialog.kt:173-175 | `toIntOrNull() ?: fallback` on one character: an ASCII digit gives its value, whose character is that digit; anything else gives the fallback |
| Decomposition.DigitIndices | src/main/java/com/farmanlabo/numberpickerdialog/NumberPickerDialog.kt:165-171 | every index of a slot is a position in the maximum's rendering |
| Decomposition.DigitIndicesExact | src/main/java/com/farmanlabo/numberpickerdialog/NumberPickerDialog.kt:165-171 | the slot indices are exactly the non-'.' indices of the maximum's rendering, strictly increasing |
| Decomposition.SlotOf | src/main/java/com/farmanlabo/numberpickerdialog/NumberPickerDialog.kt:172-180 | the slot at a non-'.' index: all four digits lie in 0..9; its bound maximum is the character's digit, or 9 when the character is no digit; its bound minimum and default are the digits of the padded strings at that index, or 0; its initial live maximum is 9 except at index 0, where it is the bound maximum, or 0 when the character is no digit |
| Decomposition.SlotsUpTo | src/main/java/com/farmanlabo/numberpickerdialog/NumberPickerDialog.kt:165-182 | the slots built from the first i characters number at most i, and each has digits in 0..9 |
| Decomposition.Slots | src/main/java/com/farmanlabo/numberpickerdialog/NumberPickerDialog.kt:165-182 | there are at most as many slots as characters in the maximum's rendering, and each has digits in 0..9 |
| Decomposition.SlotsAt | src/main/java/com/farmanlabo/numberpickerdialog/NumberPickerDialog.kt:165-182 | slot k comes from the k-th non-'.' character; its bound maximum is that digit (9 if none), its bound minimum and default are the padded strings' digits at that index (0 if none), and its live maximum starts at 9 except at index 0 |
| Picker.Decompose | src/main/java/com/farmanlabo/numberpickerdialog/NumberPickerDialog.kt:165-207 | the construction loop builds exactly the slot list described by `Slots` |
| Picker.NumberPickerDialog.constructor | src/main/java/com/farmanlabo/numberpickerdialog/NumberPickerDialog.kt:152-215 | the dialog's bound digits are those of the decomposed slots, and its wheels are the constructed state: defaults, live minimum 0, initial maxima, then `adjust` on every slot |
| Propagation.PrevIndex | src/main/java/com/farmanlabo/numberpickerdialog/NumberPickerDialog.kt:227-230 | there is no slot before the first slot; otherwise the slot before i is i-1 |
| Propagation.NextIndex | src/main/java/com/farmanlabo/numberpickerdialog/NumberPickerDialog.kt:232-235 | there is no slot after the last slot; otherwise the slot after i is i+1 |
| Propagation.Clamp | src/main/java/com/farmanlabo/numberpickerdialog/NumberPickerDialog.kt:273-274 | one slot clamped: its live range becomes 0..boundMax on the maximum side and, as lines 299-300 do, boundMin..9 on the minimum side; no value and no other slot changes |
| Propagation.Relax | src/main/java/com/farmanlabo/numberpickerdialog/NumberPickerDialog.kt:311-318 | slot j and every later slot get live range 0..9; values and the slots before j stay as they were |
| Propagation.ClampFrom | src/main/java/com/farmanlabo/numberpickerdialog/NumberPickerDialog.kt:272-281 | the clamping walk changes no value and no slot before where it starts; on the maximum side it only ever sets live minimums to 0 |
| Propagation.CheckShouldChange | src/main/java/com/farmanlabo/numberpickerdialog/NumberPickerDialog.kt:259-309 | a prefix check changes no value and nothing in slots 0..i; for the last slot it reports false and changes nothing; when an earlier slot is off its bound digit it reports true and changes nothing; otherwise it reports false |
| Propagation.MoveUp | src/main/java/com/farmanlabo/numberpickerdialog/NumberPickerDialog.kt:237-257 | the carry changes no value at or after slot i, sets slot i's live minimum to 0 (except at the first slot), and only ever lowers live minimums to 0 |
| Propagation.ValueChanged | src/main/java/com/farmanlabo/numberpickerdialog/NumberPickerDialog.kt:184-205 | the listener changes no value at or after the slot that moved |
| Propagation.Adjust | src/main/java/com/farmanlabo/numberpickerdialog/NumberPickerDialog.kt:219-225 | `adjust` changes no value |
| Propagation.AdjustFrom | src/main/java/com/farmanlabo/numberpickerdialog/NumberPickerDialog.kt:213-215 | the adjust pass changes no value |
| Propagation.Restore | src/main/java/com/farmanlabo/numberpickerdialog/NumberPickerDialog.kt:103-106 | the first pass of `reset`: every wheel shows its default digit with live minimum 0; live maxima stay |
| Propagation.Reset | src/main/java/com/farmanlabo/numberpickerdialog/NumberPickerDialog.kt:102-111 | after `reset` every wheel shows its default digit |
| Propagation.Constructed | src/main/java/com/farmanlabo/numberpickerdialog/NumberPickerDialog.kt:178-215 | a freshly built dialog shows the default digits |
| EngineProperties.FirstMismatch | src/main/java/com/farmanlabo/numberpickerdialog/NumberPickerDialog.kt:272-281 | the slot where the clamping walk stops: every slot from the start up to it shows its bound digit, and it does not unless it is the last slot |
| EngineProperties.ClampFromShape | src/main/java/com/farmanlabo/numberpickerdialog/NumberPickerDialog.kt:272-281 | the clamping walk clamps every slot from its start through the first mismatch and relaxes every later slot to 0..9 |
| EngineProperties.CheckShouldChangeClamps | src/main/java/com/farmanlabo/numberpickerdialog/NumberPickerDialog.kt:259-309 | when every earlier slot shows its bound digit, a prefix check reports false, keeps values and slots 0..i, clamps slots i+1 through the first mismatch and relaxes the rest |
| EngineProperties.MoveUpCarry | src/main/java/com/farmanlabo/numberpickerdialog/NumberPickerDialog.kt:237-257 | a carry into a wheel below its live maximum raises it by exactly one and changes no other value; a wheel at its live maximum becomes 0 and the carry goes on from that wheel, giving the values of `onMoveUpValue` on slot i-1; at the first slot no value changes |
| EngineProperties.MoveUpFirstSlot | src/main/java/com/farmanlabo/numberpickerdialog/NumberPickerDialog.kt:239 | `onMoveUpValue` on the first slot does nothing |
| EngineProperties.ValueChangedWithoutWrap | src/main/java/com/farmanlabo/numberpickerdialog/NumberPickerDialog.kt:184-205 | without a wrap the listener changes no value and nothing in slots 0..i |
| EngineProperties.ValueChangedReachesMax | src/main/java/com/farmanlabo/numberpickerdialog/NumberPickerDialog.kt:192-194 | without a wrap, a wheel other than the last turned to its live maximum while every earlier wheel shows its bound maximum leaves exactly the maximum-side clamping walk from the next slot; the minimum check and the relaxation do not run, even when the new value is also the bound minimum |
| EngineProperties.ValueChangedReachesMin | src/main/java/com/farmanlabo/numberpickerdialog/NumberPickerDialog.kt:196-198 | without a wrap, when the maximum check does not run or goes on, a wheel other than the last turned to its bound minimum while every earlier wheel shows its bound minimum leaves exactly the minimum-side clamping walk from the next slot |
| EngineProperties.WrapCarriesOne | src/main/java/com/farmanlabo/numberpickerdialog/NumberPickerDialog.kt:186-188 | a wrap from 9 whose neighbour is below its live maximum adds exactly one to the neighbour and changes no other value |
| EngineProperties.ValueChangedInside | src/main/java/com/farmanlabo/numberpickerdialog/NumberPickerDialog.kt:184-205 | a move between digits that are neither bound digit nor the live maximum changes nothing |
| EngineProperties.ValueChangedLeavesBound | src/main/java/com/farmanlabo/numberpickerdialog/NumberPickerDialog.kt:200-204 | leaving a bound digit for an inner digit relaxes every later wheel to 0..9 and changes no value |
| EngineProperties.AdjustFromIdempotent | src/main/java/com/farmanlabo/numberpickerdialog/NumberPickerDialog.kt:213-215 | running the adjust pass twice gives the same state as running it once |
| EngineProperties.ResetIdempotent | src/main/java/com/farmanlabo/numberpickerdialog/NumberPickerDialog.kt:102-111 | `reset` twice gives the same state as `reset` once |
| EngineProperties.ResetAfterConstruction | src/main/java/com/farmanlabo/numberpickerdialog/NumberPickerDialog.kt:102-111 | resetting a freshly built dialog changes nothing |
| Picker.NumberPickerDialog.AdjustValue | src/main/java/com/farmanlabo/numberpickerdialog/NumberPickerDialog.kt:311-318 | slot j and every later wheel get live range 0..9; nothing else changes |
| Picker.NumberPickerDialog.PrefixAtBound | src/main/java/com/farmanlabo/numberpickerdialog/NumberPickerDialog.kt:261-270 | the first loop of a prefix check answers whether every slot before i shows its bound digit |
| Picker.NumberPickerDialog.ClampSlot | src/main/java/com/farmanlabo/numberpickerdialog/NumberPickerDialog.kt:273-274 | one wheel's live range becomes 0..boundMax on the maximum side or boundMin..9 on the minimum side |
| Picker.NumberPickerDialog.ClampStep | src/main/java/com/farmanlabo/numberpickerdialog/NumberPickerDialog.kt:273-280 | one pass of the second loop: the clamping walk from slot k equals the walk from the next slot after this pass, or this pass's state when the loop ends |
| Picker.NumberPickerDialog.ClampSuffix | src/main/java/com/farmanlabo/numberpickerdialog/NumberPickerDialog.kt:272-281 | the second loop of a prefix check leaves exactly the state `ClampFrom` describes |
| Picker.NumberPickerDialog.CheckShouldChange | src/main/java/com/farmanlabo/numberpickerdialog/NumberPickerDialog.kt:259-309 | the new state and the returned flag are those of `Propagation.CheckShouldChange` |
| Picker.NumberPickerDialog.CheckShouldChangeMaxValue | src/main/java/com/farmanlabo/numberpickerdialog/NumberPickerDialog.kt:259-283 | the maximum-side prefix check, as `Propagation.CheckShouldChange` on the upper side |
| Picker.NumberPickerDialog.CheckShouldChangeMinValue | src/main/java/com/farmanlabo/numberpickerdialog/NumberPickerDialog.kt:285-309 | the minimum-side prefix check, as `Propagation.CheckShouldChange` on the lower side |
| Picker.NumberPickerDialog.OnMoveUpValue | src/main/java/com/farmanlabo/numberpickerdialog/NumberPickerDialog.kt:237-257 | the recursive carry leaves exactly the state `MoveUp` describes |
| Picker.NumberPickerDialog.OnValueChanged | src/main/java/com/farmanlabo/numberpickerdialog/NumberPickerDialog.kt:184-205 | the listener leaves exactly the state `ValueChanged` describes |
| Picker.NumberPickerDialog.Adjust | src/main/java/com/farmanlabo/numberpickerdialog/NumberPickerDialog.kt:219-225 | `adjust` leaves exactly the state `Propagation.Adjust` describes |
| Picker.NumberPickerDialog.AdjustAll | src/main/java/com/farmanlabo/numberpickerdialog/NumberPickerDialog.kt:213-215 | `adjust` on every slot in index order leaves exactly the state `AdjustFrom` describes |
| Picker.NumberPickerDialog.Reset | src/main/java/com/farmanlabo/numberpickerdialog/NumberPickerDialog.kt:102-111 | `reset` leaves exactly the state `Propagation.Reset` describes |
| Picker.NumberPickerDialog.GetCombinedValue | src/main/java/com/farmanlabo/numberpickerdialog/NumberPickerDialog.kt:320-324 | the joined string is the as-written `CombinedString` of the wheels for any values; while every wheel shows one digit, it is the reversal of the most-significant-first rendering |
| Assembly.NatToString | src/main/java/com/farmanlabo/numberpickerdialog/NumberPickerDialog.kt:320 | `toString` of a non-negative number is a non-empty string of decimal digits that reads back as the number and has no leading zero; a digit gives its one character |
| Assembly.IntToString | src/main/java/com/farmanlabo/numberpickerdialog/NumberPickerDialog.kt:320 | `toString` of a non-negative number reads back as that number; a negative one is '-' followed by decimal digits only, which read back as its magnitude |
| Assembly.Strings | src/main/java/com/farmanlabo/numberpickerdialog/NumberPickerDialog.kt:320 | one string per wheel; a wheel showing a digit gives that digit's one-character string |
| Assembly.Reverse | src/main/java/com/farmanlabo/numberpickerdialog/NumberPickerDialog.kt:321 | element k of the reversed list is element n-1-k of the list |
| Assembly.InsertAt | src/main/java/com/farmanlabo/numberpickerdialog/NumberPickerDialog.kt:322-323 | the new element is at the index; earlier elements stay in place and later ones move up by one |
| Assembly.FoldRight | src/main/java/com/farmanlabo/numberpickerdialog/NumberPickerDialog.kt:324 | the right fold with "$s$acc" joins the list in its own order in front of the accumulator |
| Assembly.CombinedString | src/main/java/com/farmanlabo/numberpickerdialog/NumberPickerDialog.kt:320-324 | as written, the joined string is the concatenation, in list order, of the reversed wheel strings with "." inserted at decimalPoint |
| Assembly.CombinedStringLeastSignificantFirst | src/main/java/com/farmanlabo/numberpickerdialog/NumberPickerDialog.kt:320-324 | as written, the string has '.' at index decimalPoint, the fractional digits before it in reverse and the integer digits after it in reverse |
| Assembly.IntendedMostSignificantFirst | src/main/java/com/farmanlabo/numberpickerdialog/NumberPickerDialog.kt:320-324 | the intended string lists the digits most significant first, with '.' after the integer digits |
| Assembly.CombinedStringIsReversed | src/main/java/com/farmanlabo/numberpickerdialog/NumberPickerDialog.kt:320-324 | for digit wheels, the string as written is exactly the reversal of the intended one |
| Assembly.CombinedStringNinePointFive | src/main/java/com/farmanlabo/numberpickerdialog/NumberPickerDialog.kt:320-324 | wheels 9 and 5 with one fractional digit join to "5.9" as written and to "9.5" as intended |
| Assembly.IntendedRestoresRendering | src/main/java/com/farmanlabo/numberpickerdialog/NumberPickerDialog.kt:320-324 | joining the bound-maximum digits the intended way gives back the maximum's rendering (with a trailing '.' when there is no fractional digit) |
| Scenarios.SlotsZeroToTwentyFive | src/main/java/com/farmanlabo/numberpickerdialog/NumberPickerDialog.kt:165-182 | the dialog 0..25 has bound maxima 2, 5, bound minima and defaults 0, 0, and initial live maxima 2, 9 |
| Scenarios.BuiltTwentyFive | src/main/java/com/farmanlabo/numberpickerdialog/NumberPickerDialog.kt:213-215 | the dialog 0..25 built at its default 0 keeps the units wheel at 0..9 |
| Scenarios.MaxClampTwentyFive | src/main/java/com/farmanlabo/numberpickerdialog/NumberPickerDialog.kt:184-205 | in 0..25, turning the tens wheel to 2 limits the units wheel to 0..5, and turning it back to 1 restores 0..9 |
| Scenarios.SlotsEighteenToNinetyNine | src/main/java/com/farmanlabo/numberpickerdialog/NumberPickerDialog.kt:165-182 | the dialog 18..99 has bound maxima 9, 9, bound minima and defaults 1, 8, and initial live maxima 9, 9 |
| Scenarios.MinClampEighteen | src/main/java/com/farmanlabo/numberpickerdialog/NumberPickerDialog.kt:184-205 | in 18..99, built at 18 the units wheel ranges over 8..9; the tens wheel at 2 frees it to 0..9, and back at 1 limits it to 8..9 again |
| Scenarios.SlotsNinePointFive | src/main/java/com/farmanlabo/numberpickerdialog/NumberPickerDialog.kt:165-182 | in 0.0..9.5 the '.' gets no slot; the ones and tenths slots have bound maxima 9 and 5 |
| Scenarios.DecimalNinePointFive | src/main/java/com/farmanlabo/numberpickerdialog/NumberPickerDialog.kt:184-205 | in 0.0..9.5, turning the ones wheel to 9 limits the tenths wheel to 0..5; wheels 9 and 5 join to "5.9" as written |

## Left out

- Android UI: inflating layouts, view widths, the global layout listener, the dialog buttons and their callbacks, `onCancel` and argument bundles. These are not engine logic.
- The float round trip: `newInstance` stores the bounds as `Float`, and the dialog reads them back with `toBigDecimal()`. The model passes the rendered strings to the constructor, and `getCombinedValue` stops before `toFloat`. Floating point is not modelled.
- `NumberPicker`'s own behaviour: the widget's setters clamp and wrap the value when its bounds change. The model writes `value`, `minValue` and `maxValue` as plain integers. Keeping a value inside its live range is therefore not an invariant of the model.
- Picker.NumberPickerDialog.OnValueChanged: it covers one listener call. A value written by a routine the listener runs does not re-trigger the listener, because the source's widget only calls it on user input.
- Negative numbers and negative scales: a '-' in the maximum's rendering becomes a slot with bound maximum 9, exactly as the code does it. No property is proved about negative ranges.
- Arguments.DecimalPointCoversBounds and Arguments.CoveringDefaultRepresentsAll: these require the recorded decimal point to be non-negative. A negative stripped scale (such as 100 stripped to 1E+2) is not covered.
- Arguments.StripTrailingZeros: zero becomes scale 0, as in Java SE 8 and later. Android's Harmony-based `BigDecimal` returns zero with its original scale.
- Picker.NumberPickerDialog.GetCombinedValue: it requires the decimal point to be at most the number of wheels. Beyond that, the source's `add(index, ".")` throws.
- Decomposition.DigitOr: only ASCII digits '0'..'9' count as digits. `toIntOrNull` on other Unicode digits is not modelled.
- The `indexOf`/`find` lookups by widget identity are modelled as slot indices, because the widgets in the list are distinct.

## Findings

| source | as written | input that shows it | evidently intended | confidence | as-written member | corrected member |
|---|---|---|---|---|---|---|
| src/main/java/com/farmanlabo/numberpickerdialog/NumberPickerDialog.kt:320-324 | the digit strings are reversed, "." is inserted at `decimalPoint`, and `foldRight { s, acc -> "$s$acc" }` joins the list in that reversed order, so the digits come out least significant first | wheels 9 and 5 with one fractional digit (maximum 9.5) give "5.9" | reverse the list back before joining, giving the most-significant-first "9.5" | high: a proved string identity; not executed | Assembly.CombinedStringNinePointFive | Assembly.IntendedRestoresRendering |
| src/main/java/com/farmanlabo/numberpickerdialog/NumberPickerDialog.kt:358 | the decimal point is the larger stripped scale of the two bounds only; the default's scale is ignored | min 0.5, max 1.5, default 0.75: accepted with decimal point 1; building the dialog then calls `setScale(1)` on 0.75 without a rounding mode (:160-162), which throws `ArithmeticException`, so the dialog fails to build | take the default's stripped scale into the maximum as well | medium: the source may intend to restrict defaults to the bounds' precision; not executed | Arguments.DefaultScaleIgnored | Arguments.CoveringDefaultRepresentsAll |
