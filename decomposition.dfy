/**
 * Decomposition of the rendered bounds into digit slots. The maximum is rendered as a plain
 * decimal string; the minimum and the default are rendered the same way and left-padded with
 * '-' to the maximum's length. Every character of the maximum other than '.' becomes one slot.
 */
module Decomposition {

  /**
   * `c.toString().toIntOrNull() ?: fallback` for one character of a plain decimal rendering: a
   * digit character yields the digit it writes, anything else the fallback.
   */
  function DigitOr(c: char, fallback: int): (r: int)
    ensures '0' <= c <= '9' ==> 0 <= r <= 9 && DigitChar(r) == c
    ensures !('0' <= c <= '9') ==> r == fallback
  {
    if '0' <= c <= '9' then (c as int) - ('0' as int) else fallback
  }

  /** The character that `Int.toString()` writes for a single digit. */
  function DigitChar(d: int): (r: char)
    requires 0 <= d <= 9
    ensures '0' <= r <= '9'
  {
    ((('0' as int) + d) as char)
  }

  /** `s.padStart(n, pad)`: `s` unchanged when it is long enough, else `pad` repeated in front of it. */
  function PadStart(s: string, n: nat, pad: char): (r: string)
    ensures |r| == if |s| < n then n else |s|
    ensures r[|r| - |s|..] == s
    ensures forall k :: 0 <= k < |r| - |s| ==> r[k] == pad
  {
    if n <= |s| then s else seq(n - |s|, _ => pad) + s
  }

  /** The string indices of `s` that become slots: every index not holding '.', in increasing order. */
  function DigitIndices(s: string): (r: seq<nat>)
    ensures forall k :: 0 <= k < |r| ==> r[k] < |s|
  {
    if |s| == 0 then []
    else DigitIndices(s[..|s| - 1]) + (if s[|s| - 1] != '.' then [|s| - 1] else [])
  }

  /** The slot indices are exactly the non-'.' indices of `s`, strictly increasing. */
  lemma {:induction false} DigitIndicesExact(s: string)
    ensures var r := DigitIndices(s);
      (forall k :: 0 <= k < |r| ==> s[r[k]] != '.') &&
      (forall k, l :: 0 <= k < l < |r| ==> r[k] < r[l]) &&
      (forall i :: 0 <= i < |s| && s[i] != '.' ==> i in r)
  {
    if |s| > 0 {
      var t := s[..|s| - 1];
      DigitIndicesExact(t);
      assert forall i :: 0 <= i < |t| ==> t[i] == s[i];
      var rest := DigitIndices(t);
      var r := DigitIndices(s);
      assert r == rest + (if s[|s| - 1] != '.' then [|s| - 1] else []);
      forall i | 0 <= i < |s| && s[i] != '.' ensures i in r {
        if i < |t| {
          assert i in rest;
        } else {
          assert r[|r| - 1] == i;
        }
      }
    }
  }

  /** What one slot holds: its two bound digits, its default digit and its initial live maximum. */
  datatype SlotConfig = SlotConfig(boundMax: int, boundMin: int, dflt: int, initialMax: int)

  /** Every number a slot holds is a single digit. */
  predicate DigitSlot(c: SlotConfig)
  {
    0 <= c.boundMax <= 9 && 0 <= c.boundMin <= 9 && 0 <= c.dflt <= 9 && 0 <= c.initialMax <= 9
  }

  /**
   * The slot made from string index `i` (the body of the construction loop for a non-'.'
   * character). Its numbers are single digits; its bound maximum writes the maximum's character
   * back when that is a digit and is 9 otherwise; only index 0 starts below a live maximum of 9.
   */
  function SlotOf(maxS: string, minP: string, dfltP: string, i: nat): (r: SlotConfig)
    requires i < |maxS| && i < |minP| && i < |dfltP|
    ensures DigitSlot(r)
    ensures '0' <= maxS[i] <= '9' ==> DigitChar(r.boundMax) == maxS[i]
    ensures !('0' <= maxS[i] <= '9') ==> r.boundMax == 9
    ensures '0' <= minP[i] <= '9' ==> DigitChar(r.boundMin) == minP[i]
    ensures !('0' <= minP[i] <= '9') ==> r.boundMin == 0
    ensures '0' <= dfltP[i] <= '9' ==> DigitChar(r.dflt) == dfltP[i]
    ensures !('0' <= dfltP[i] <= '9') ==> r.dflt == 0
    ensures i != 0 ==> r.initialMax == 9
    ensures i == 0 ==> r.initialMax == if '0' <= maxS[i] <= '9' then r.boundMax else 0
  {
    SlotConfig(
      DigitOr(maxS[i], 9),
      DigitOr(minP[i], 0),
      DigitOr(dfltP[i], 0),
      if i != 0 then 9 else DigitOr(maxS[i], 0))
  }

  /** The slots made from the first `i` characters of the maximum's rendering, in order: at most one per character, all digits. */
  function SlotsUpTo(maxS: string, minP: string, dfltP: string, i: nat): (r: seq<SlotConfig>)
    requires i <= |maxS| <= |minP| && |maxS| <= |dfltP|
    ensures |r| <= i
    ensures forall k :: 0 <= k < |r| ==> DigitSlot(r[k])
  {
    if i == 0 then []
    else SlotsUpTo(maxS, minP, dfltP, i - 1) +
         (if maxS[i - 1] != '.' then [SlotOf(maxS, minP, dfltP, i - 1)] else [])
  }

  /** All slots of a dialog built from the three rendered strings: at most one per character of the maximum, all digits. */
  function Slots(maxS: string, minS: string, dfltS: string): (r: seq<SlotConfig>)
    ensures |r| <= |maxS|
    ensures forall k :: 0 <= k < |r| ==> DigitSlot(r[k])
  {
    SlotsUpTo(maxS, PadStart(minS, |maxS|, '-'), PadStart(dfltS, |maxS|, '-'), |maxS|)
  }

  /** One more character of the maximum adds its slot when it is not the '.'. */
  lemma SlotsUpToStep(maxS: string, minP: string, dfltP: string, i: nat)
    requires i < |maxS| <= |minP| && |maxS| <= |dfltP|
    ensures SlotsUpTo(maxS, minP, dfltP, i + 1) == SlotsUpTo(maxS, minP, dfltP, i) +
      (if maxS[i] != '.' then [SlotOf(maxS, minP, dfltP, i)] else [])
  {
  }

  lemma {:induction false} SlotsUpToAt(maxS: string, minP: string, dfltP: string, i: nat)
    requires i <= |maxS| <= |minP| && |maxS| <= |dfltP|
    ensures |SlotsUpTo(maxS, minP, dfltP, i)| == |DigitIndices(maxS[..i])|
    ensures forall k :: 0 <= k < |DigitIndices(maxS[..i])| ==>
      SlotsUpTo(maxS, minP, dfltP, i)[k] == SlotOf(maxS, minP, dfltP, DigitIndices(maxS[..i])[k])
  {
    if i > 0 {
      SlotsUpToAt(maxS, minP, dfltP, i - 1);
      assert maxS[..i][..i - 1] == maxS[..i - 1];
    }
  }

  /**
   * Every non-'.' character of the maximum yields exactly one slot, in order: slot k comes from
   * string index i = DigitIndices(maxS)[k]; its bound maximum is that digit (9 if it is not one),
   * its bound minimum and default are the digits at index i of the padded strings (0 if none),
   * and its initial live maximum is 9 except at string index 0, which keeps its digit (or 0).
   */
  lemma {:induction false} SlotsAt(maxS: string, minS: string, dfltS: string)
    ensures |Slots(maxS, minS, dfltS)| == |DigitIndices(maxS)|
    ensures forall k :: 0 <= k < |DigitIndices(maxS)| ==>
      var i := DigitIndices(maxS)[k];
      var minP := PadStart(minS, |maxS|, '-');
      var dfltP := PadStart(dfltS, |maxS|, '-');
      var slot := Slots(maxS, minS, dfltS)[k];
      i < |minP| && i < |dfltP| &&
      slot.boundMax == DigitOr(maxS[i], 9) &&
      slot.boundMin == DigitOr(minP[i], 0) &&
      slot.dflt == DigitOr(dfltP[i], 0) &&
      slot.initialMax == (if i == 0 then DigitOr(maxS[0], 0) else 9)
  {
    SlotsUpToAt(maxS, PadStart(minS, |maxS|, '-'), PadStart(dfltS, |maxS|, '-'), |maxS|);
    assert maxS[..|maxS|] == maxS;
  }
}
