/**
 * `getCombinedValue`, up to the final `toFloat`: each wheel's value is turned into its decimal
 * string, the list is reversed, "." is inserted at index `decimalPoint`, and `foldRight` joins
 * the list. Because the join keeps list order, the string lists the digits least significant
 * first; `IntendedCombinedString` is the most-significant-first string the code evidently meant.
 */
module Assembly {
  import opened Decomposition

  /** Reading a string of decimal digits as a number, most significant digit first. */
  function ParseNat(s: string): nat
  {
    if |s| == 0 then 0 else ParseNat(s[..|s| - 1]) * 10 + DigitOr(s[|s| - 1], 0)
  }

  /** `Int.toString()` for a non-negative number: decimal digits only, which read back as `n`. */
  function NatToString(n: nat): (s: string)
    ensures |s| >= 1 && forall k :: 0 <= k < |s| ==> '0' <= s[k] <= '9'
    ensures n <= 9 ==> s == [DigitChar(n)]
    ensures n >= 10 ==> s[0] != '0'
    ensures ParseNat(s) == n
    decreases n
  {
    if n < 10 then [DigitChar(n)]
    else
      var t, c := NatToString(n / 10), DigitChar(n % 10);
      assert (t + [c])[..|t|] == t;
      t + [c]
  }

  /** `Int.toString()`: a '-' before the digits of a negative number; the digits read back as its magnitude. */
  function IntToString(n: int): (r: string)
    ensures n >= 0 ==> ParseNat(r) == n && forall k :: 0 <= k < |r| ==> '0' <= r[k] <= '9'
    ensures n < 0 ==> |r| >= 2 && r[0] == '-' && ParseNat(r[1..]) == -n
    ensures n < 0 ==> forall k :: 1 <= k < |r| ==> '0' <= r[k] <= '9'
    ensures 0 <= n <= 9 ==> r == [DigitChar(n)]
  {
    if n < 0 then
      var t := NatToString(-n);
      assert ("-" + t)[1..] == t;
      "-" + t
    else NatToString(n)
  }

  /** `map { it.toString() }`: one string per wheel; a wheel showing a digit gives that digit's one-character string. */
  function Strings(values: seq<int>): (r: seq<string>)
    ensures |r| == |values|
    ensures AllDigits(values) ==> forall k :: 0 <= k < |values| ==> r[k] == [DigitChar(values[k])]
  {
    seq(|values|, k requires 0 <= k < |values| => IntToString(values[k]))
  }

  /** `reversed()`. */
  function Reverse<T>(s: seq<T>): (r: seq<T>)
    ensures |r| == |s|
    ensures forall k :: 0 <= k < |s| ==> r[k] == s[|s| - 1 - k]
  {
    if s == [] then [] else Reverse(s[1..]) + [s[0]]
  }

  /** `MutableList.add(index, element)`. */
  function InsertAt<T>(s: seq<T>, index: nat, x: T): (r: seq<T>)
    requires index <= |s|
    ensures |r| == |s| + 1 && r[index] == x
    ensures forall k :: 0 <= k < index ==> r[k] == s[k]
    ensures forall k :: index < k <= |s| ==> r[k] == s[k - 1]
  {
    s[..index] + [x] + s[index..]
  }

  /**
   * `foldRight(acc) { s, acc -> "$s$acc" }`: the last element is prepended to `acc` first, so
   * the list is joined in its own order, in front of `acc`.
   */
  function FoldRight(parts: seq<string>, acc: string): (r: string)
    ensures r == Concat(parts) + acc
  {
    if parts == [] then acc
    else
      var init, last := parts[..|parts| - 1], parts[|parts| - 1];
      assert Concat(init) + (last + acc) == (Concat(init) + last) + acc;
      FoldRight(init, last + acc)
  }

  /** The elements of `parts` joined in list order. */
  function Concat(parts: seq<string>): string
  {
    if parts == [] then "" else Concat(parts[..|parts| - 1]) + parts[|parts| - 1]
  }

  /** Joining one-character strings gives the string of those characters. */
  lemma {:induction false} ConcatSingles(parts: seq<string>)
    requires forall k :: 0 <= k < |parts| ==> |parts[k]| == 1
    ensures |Concat(parts)| == |parts|
    ensures forall k :: 0 <= k < |parts| ==> Concat(parts)[k] == parts[k][0]
  {
    if parts != [] {
      ConcatSingles(parts[..|parts| - 1]);
    }
  }

  predicate AllDigits(values: seq<int>)
  {
    forall k :: 0 <= k < |values| ==> 0 <= values[k] <= 9
  }

  /**
   * `getCombinedValue` as written, before `toFloat`: the wheels' strings in reverse, with "."
   * inserted at `decimalPoint`, joined in that order.
   */
  function CombinedString(values: seq<int>, decimalPoint: nat): (r: string)
    requires decimalPoint <= |values|
    ensures r == Concat(InsertAt(Reverse(Strings(values)), decimalPoint, "."))
  {
    var parts := InsertAt(Reverse(Strings(values)), decimalPoint, ".");
    assert Concat(parts) + "" == Concat(parts);
    FoldRight(parts, "")
  }

  /** The joined string the code evidently meant: the reversed list with "." inserted is reversed back. */
  function IntendedCombinedString(values: seq<int>, decimalPoint: nat): string
    requires decimalPoint <= |values|
  {
    Concat(Reverse(InsertAt(Reverse(Strings(values)), decimalPoint, ".")))
  }

  /** The list `getCombinedValue` joins: the digit strings in reverse with "." at `decimalPoint`. */
  lemma PartsAt(values: seq<int>, decimalPoint: nat)
    requires decimalPoint <= |values| && AllDigits(values)
    ensures var parts, n := InsertAt(Reverse(Strings(values)), decimalPoint, "."), |values|;
      |parts| == n + 1 && parts[decimalPoint] == "." &&
      (forall k :: 0 <= k < decimalPoint ==> parts[k] == [DigitChar(values[n - 1 - k])]) &&
      (forall k :: decimalPoint < k <= n ==> parts[k] == [DigitChar(values[n - k])])
  {
    var n, rev := |values|, Reverse(Strings(values));
    assert forall k :: 0 <= k < n ==> rev[k] == [DigitChar(values[n - 1 - k])];
  }

  /**
   * As written, for wheels showing single digits, the string holds the least significant digit
   * first: "." at index `decimalPoint`, the `decimalPoint` fractional digits before it in reverse,
   * and the integer digits after it, also in reverse.
   */
  lemma {:induction false} CombinedStringLeastSignificantFirst(values: seq<int>, decimalPoint: nat)
    requires decimalPoint <= |values| && AllDigits(values)
    ensures var r, n := CombinedString(values, decimalPoint), |values|;
      |r| == n + 1 && r[decimalPoint] == '.' &&
      (forall k :: 0 <= k < decimalPoint ==> r[k] == DigitChar(values[n - 1 - k])) &&
      (forall k :: decimalPoint < k <= n ==> r[k] == DigitChar(values[n - k]))
  {
    var parts := InsertAt(Reverse(Strings(values)), decimalPoint, ".");
    PartsAt(values, decimalPoint);
    assert CombinedString(values, decimalPoint) == Concat(parts);
    ConcatSingles(parts);
  }

  /** Reversing, inserting at `index` and reversing back inserts at `|s| - index` instead. */
  lemma ReverseInsertReverse<T>(s: seq<T>, index: nat, x: T)
    requires index <= |s|
    ensures var back, n := Reverse(InsertAt(Reverse(s), index, x)), |s|;
      |back| == n + 1 && back[n - index] == x &&
      (forall k :: 0 <= k < n - index ==> back[k] == s[k]) &&
      (forall k :: n - index < k <= n ==> back[k] == s[k - 1])
  {
  }

  /** The list reversed back: the digit strings in order, with "." after the integer digits. */
  lemma PartsReversedAt(values: seq<int>, decimalPoint: nat)
    requires decimalPoint <= |values| && AllDigits(values)
    ensures var back, n := Reverse(InsertAt(Reverse(Strings(values)), decimalPoint, ".")), |values|;
      |back| == n + 1 && back[n - decimalPoint] == "." &&
      (forall k :: 0 <= k < n - decimalPoint ==> back[k] == [DigitChar(values[k])]) &&
      (forall k :: n - decimalPoint < k <= n ==> back[k] == [DigitChar(values[k - 1])])
  {
    ReverseInsertReverse(Strings(values), decimalPoint, ".");
  }

  /**
   * The intended string holds the digits most significant first, with "." after the first
   * `|values| - decimalPoint` of them.
   */
  lemma {:induction false} IntendedMostSignificantFirst(values: seq<int>, decimalPoint: nat)
    requires decimalPoint <= |values| && AllDigits(values)
    ensures var r, n := IntendedCombinedString(values, decimalPoint), |values|;
      |r| == n + 1 && r[n - decimalPoint] == '.' &&
      (forall k :: 0 <= k < n - decimalPoint ==> r[k] == DigitChar(values[k])) &&
      (forall k :: n - decimalPoint < k <= n ==> r[k] == DigitChar(values[k - 1]))
  {
    PartsReversedAt(values, decimalPoint);
    ConcatSingles(Reverse(InsertAt(Reverse(Strings(values)), decimalPoint, ".")));
  }

  /** For digit wheels, the string as written is exactly the reversal of the intended one. */
  lemma {:induction false} CombinedStringIsReversed(values: seq<int>, decimalPoint: nat)
    requires decimalPoint <= |values| && AllDigits(values)
    ensures CombinedString(values, decimalPoint) == Reverse(IntendedCombinedString(values, decimalPoint))
  {
    CombinedStringLeastSignificantFirst(values, decimalPoint);
    IntendedMostSignificantFirst(values, decimalPoint);
    LayoutsReversed(CombinedString(values, decimalPoint), IntendedCombinedString(values, decimalPoint), values, decimalPoint);
  }

  /** Two strings laid out as the as-written and the intended join of the same digits are each other's reversal. */
  lemma LayoutsReversed(r: string, i: string, values: seq<int>, decimalPoint: nat)
    requires decimalPoint <= |values| && AllDigits(values)
    requires var n := |values|;
      |r| == n + 1 && r[decimalPoint] == '.' &&
      (forall k :: 0 <= k < decimalPoint ==> r[k] == DigitChar(values[n - 1 - k])) &&
      (forall k :: decimalPoint < k <= n ==> r[k] == DigitChar(values[n - k]))
    requires var n := |values|;
      |i| == n + 1 && i[n - decimalPoint] == '.' &&
      (forall k :: 0 <= k < n - decimalPoint ==> i[k] == DigitChar(values[k])) &&
      (forall k :: n - decimalPoint < k <= n ==> i[k] == DigitChar(values[k - 1]))
    ensures r == Reverse(i)
  {
    var back, n := Reverse(i), |values|;
    assert |r| == |back|;
    forall k | 0 <= k <= n ensures r[k] == back[k] {
      assert back[k] == i[n - k];
    }
  }

  /** Wheels showing 9 and 5 with one fractional digit (the maximum 9.5) join to "5.9", not "9.5". */
  lemma CombinedStringNinePointFive()
    ensures CombinedString([9, 5], 1) == "5.9"
    ensures IntendedCombinedString([9, 5], 1) == "9.5"
  {
    CombinedStringLeastSignificantFirst([9, 5], 1);
    IntendedMostSignificantFirst([9, 5], 1);
  }

  /** A plain rendering with `decimalPoint` fractional digits: digits only, one '.' before the fraction. */
  predicate PlainRendering(s: string, decimalPoint: nat)
  {
    |s| > decimalPoint + (if decimalPoint > 0 then 1 else 0) &&
    forall k :: 0 <= k < |s| ==>
      if decimalPoint > 0 && k == |s| - 1 - decimalPoint then s[k] == '.' else '0' <= s[k] <= '9'
  }

  /** The bound-maximum digits of the slots made from a rendering. */
  function DigitsOf(s: string): (r: seq<int>)
  {
    var ix := DigitIndices(s);
    seq(|ix|, k requires 0 <= k < |ix| => DigitOr(s[ix[k]], 9))
  }

  /** One more character of a prefix adds its index when it is not the '.'. */
  lemma DigitIndicesStep(s: string, m: nat)
    requires 0 < m <= |s|
    ensures DigitIndices(s[..m]) == DigitIndices(s[..m - 1]) + (if s[m - 1] != '.' then [m - 1] else [])
  {
    assert s[..m][..m - 1] == s[..m - 1];
  }

  /** In a string whose only '.' is at `p` (none when `p >= |s|`), the slot indices skip exactly `p`. */
  lemma {:induction false} DigitIndicesSkip(s: string, p: nat, m: nat)
    requires m <= |s|
    requires forall k :: 0 <= k < |s| ==> (s[k] == '.' <==> k == p)
    ensures var ix := DigitIndices(s[..m]);
      |ix| == (if m <= p then m else m - 1) &&
      forall k :: 0 <= k < |ix| ==> ix[k] == if k < p then k else k + 1
  {
    if m > 0 {
      DigitIndicesSkip(s, p, m - 1);
      DigitIndicesStep(s, m);
      var rest := DigitIndices(s[..m - 1]);
      var ix := DigitIndices(s[..m]);
      if s[m - 1] == '.' {
        assert m - 1 == p;
      } else {
        assert m - 1 != p;
        forall k | 0 <= k < |ix| ensures ix[k] == if k < p then k else k + 1 {
          if k < |rest| {
            assert ix[k] == rest[k];
          }
        }
      }
    }
  }

  /** The bound-maximum digits of a rendering are its characters with the '.' at `p` skipped. */
  lemma DigitsOfSkip(s: string, p: nat)
    requires forall k :: 0 <= k < |s| ==> (s[k] == '.' <==> k == p)
    requires forall k :: 0 <= k < |s| && k != p ==> '0' <= s[k] <= '9'
    ensures |DigitsOf(s)| == (if p < |s| then |s| - 1 else |s|)
    ensures AllDigits(DigitsOf(s))
    ensures forall k :: 0 <= k < |DigitsOf(s)| ==>
      DigitChar(DigitsOf(s)[k]) == s[if k < p then k else k + 1]
  {
    DigitIndicesSkip(s, p, |s|);
    assert s[..|s|] == s;
    forall k | 0 <= k < |DigitsOf(s)|
      ensures 0 <= DigitsOf(s)[k] <= 9
      ensures DigitChar(DigitsOf(s)[k]) == s[if k < p then k else k + 1]
    {
      assert '0' <= s[if k < p then k else k + 1] <= '9';
    }
  }

  /**
   * Assembling the bound-maximum digits the intended way gives back the rendering they came from
   * (with a trailing '.' when there are no fractional digits).
   */
  lemma {:induction false} IntendedRestoresRendering(s: string, decimalPoint: nat)
    requires PlainRendering(s, decimalPoint)
    ensures |DigitsOf(s)| >= decimalPoint
    ensures IntendedCombinedString(DigitsOf(s), decimalPoint) == if decimalPoint == 0 then s + "." else s
  {
    var p := if decimalPoint > 0 then |s| - 1 - decimalPoint else |s|;
    DigitsOfSkip(s, p);
    var v := DigitsOf(s);
    var n := |v|;
    IntendedMostSignificantFirst(v, decimalPoint);
    var r := IntendedCombinedString(v, decimalPoint);
    var expected := if decimalPoint == 0 then s + "." else s;
    assert n - decimalPoint == p;
    forall k | 0 <= k < |r| ensures r[k] == expected[k] {
      if k < p {
        assert r[k] == DigitChar(v[k]);
      } else if k > p {
        assert r[k] == DigitChar(v[k - 1]);
      }
    }
  }
}
