/**
 * Font character sets (FontCharSet and the DefaultCharSet tables).
 *
 * A character set is a list of inclusive ranges [left, right] of UTF-16 code units. It is
 * expanded range by range into an array or a set of characters; getCharCount estimates the
 * number of characters.
 */
module FontCharSets {
  import opened Wrappers
  import opened JavaLang

  /** A Java `char`: one UTF-16 code unit. */
  type Char16 = x: int | 0 <= x < 0x1_0000

  /** An IntIntPair read as an inclusive range. */
  datatype Range = Range(left: Int32, right: Int32)

  /** The cast `(char) i`: keeps the low 16 bits. */
  function ToChar(i: int): Char16
  {
    i % 0x1_0000
  }

  /** The characters of one inclusive range, in ascending order. */
  function Span(left: int, right: int): (s: seq<Char16>)
    ensures |s| == if left <= right then right - left + 1 else 0
    decreases right - left
  {
    if right < left then [] else Span(left, right - 1) + [ToChar(right)]
  }

  /** What toArray lists: every range expanded, range by range. */
  function Expand(ranges: seq<Range>): seq<Char16>
    decreases |ranges|
  {
    if ranges == [] then []
    else
      var last := ranges[|ranges| - 1];
      Expand(ranges[..|ranges| - 1]) + Span(last.left, last.right)
  }

  /** The sum getCharCount computes: right - left for each range. */
  function WidthSum(ranges: seq<Range>): int
    decreases |ranges|
  {
    if ranges == [] then 0
    else
      var last := ranges[|ranges| - 1];
      WidthSum(ranges[..|ranges| - 1]) + (last.right - last.left)
  }

  /** The number of characters in the ranges: right - left + 1 for each non-empty range. */
  function CharCount(ranges: seq<Range>): int
    decreases |ranges|
  {
    if ranges == [] then 0
    else
      var last := ranges[|ranges| - 1];
      CharCount(ranges[..|ranges| - 1]) + (if last.left <= last.right then last.right - last.left + 1 else 0)
  }

  /** No range ends at Integer.MAX_VALUE, where the expanding loops would never stop. */
  predicate Expandable(ranges: seq<Range>)
  {
    forall k :: 0 <= k < |ranges| ==> ranges[k].right < 0x7FFF_FFFF
  }

  /** getCharCount, as written: the sum of right - left, in Java's wrapping int arithmetic. */
  function CharCountAsWritten(ranges: seq<Range>): Int32
  {
    Wrap32(WidthSum(ranges))
  }

  /** getCharCount, as written. */
  method GetCharCount(ranges: seq<Range>) returns (count: Int32)
    ensures count == CharCountAsWritten(ranges)
    ensures count == WidthSum(ranges) || WidthSum(ranges) < -0x8000_0000 || 0x8000_0000 <= WidthSum(ranges)
  {
    count := 0;
    var k := 0;
    while k < |ranges|
      invariant 0 <= k <= |ranges|
      invariant count == Wrap32(WidthSum(ranges[..k]))
    {
      assert ranges[..k + 1][..k] == ranges[..k];
      WrapAdd(WidthSum(ranges[..k]), ranges[k].right - ranges[k].left);
      count := Wrap32(count + Wrap32(ranges[k].right - ranges[k].left));
      k := k + 1;
    }
    assert ranges[..k] == ranges;
  }

  /** `a += b` on ints: wrapping the running total at each step wraps the whole sum. */
  lemma WrapAdd(a: int, b: int)
    ensures Wrap32(Wrap32(a) + Wrap32(b)) == Wrap32(a + b)
  {
    ModSum3(Wrap32(a) - a, Wrap32(b) - b, 0);
    Wrap32Congruent(Wrap32(a) + Wrap32(b), a + b);
  }

  /** getCharCount as its documentation describes it: the number of characters toArray lists. */
  method CountChars(ranges: seq<Range>) returns (count: int)
    ensures count == |Expand(ranges)|
  {
    count := 0;
    var k := 0;
    while k < |ranges|
      invariant 0 <= k <= |ranges|
      invariant count == CharCount(ranges[..k])
    {
      assert ranges[..k + 1][..k] == ranges[..k];
      if ranges[k].left <= ranges[k].right {
        count := count + (ranges[k].right - ranges[k].left + 1);
      }
      k := k + 1;
    }
    assert ranges[..k] == ranges;
    ExpandLength(ranges);
  }

  lemma {:induction false} ExpandLength(ranges: seq<Range>)
    ensures |Expand(ranges)| == CharCount(ranges)
    decreases |ranges|
  {
    if ranges != [] {
      ExpandLength(ranges[..|ranges| - 1]);
    }
  }

  /** When every range is non-empty, getCharCount falls short of the real count by one per range. */
  lemma {:induction false} GetCharCountMissesOnePerRange(ranges: seq<Range>)
    requires forall k :: 0 <= k < |ranges| ==> ranges[k].left <= ranges[k].right
    ensures |Expand(ranges)| == WidthSum(ranges) + |ranges|
    decreases |ranges|
  {
    ExpandLength(ranges);
    if ranges != [] {
      GetCharCountMissesOnePerRange(ranges[..|ranges| - 1]);
      ExpandLength(ranges[..|ranges| - 1]);
    }
  }

  /** The ASCII set holds 95 characters, but getCharCount reports 94. */
  lemma AsciiCountAsWritten()
    ensures WidthSum(Ascii()) == 94
    ensures |Expand(Ascii())| == 95
  {
    GetCharCountMissesOnePerRange(Ascii());
  }

  /**
   * The exception `new CharArrayList(capacity)` throws for a negative capacity (fastutil's
   * message).
   */
  function NegativeCapacity(capacity: Int32): string
  {
    "Initial capacity (" + DecimalString(capacity) + ") is negative"
  }

  /** The exception `new CharOpenHashSet(expected)` throws for a negative size (fastutil's message). */
  const NEGATIVE_EXPECTED := "The expected number of elements must be nonnegative"

  /**
   * toArray: a list sized by getCharCount, then every i from left to right of each range, cast
   * to char, range by range. A negative getCharCount makes the list constructor throw.
   */
  method ToArray(ranges: seq<Range>) returns (r: Result<seq<Char16>, string>)
    requires Expandable(ranges)
    ensures r.Err? <==> CharCountAsWritten(ranges) < 0
    ensures r.Err? ==> r.error == NegativeCapacity(CharCountAsWritten(ranges))
    ensures r.Ok? ==> r.value == Expand(ranges)
  {
    var capacity := GetCharCount(ranges);
    if capacity < 0 {
      return Err(NegativeCapacity(capacity));
    }
    var chars := [];
    var k := 0;
    while k < |ranges|
      invariant 0 <= k <= |ranges|
      invariant chars == Expand(ranges[..k])
    {
      var left, right := ranges[k].left, ranges[k].right;
      var i: int := left;
      ghost var before := chars;
      while i <= right
        invariant left <= i <= if left <= right then right + 1 else left
        invariant chars == before + Span(left, i - 1)
      {
        chars := chars + [ToChar(i)];
        i := i + 1;
      }
      assert ranges[..k + 1][..k] == ranges[..k];
      k := k + 1;
    }
    assert ranges[..k] == ranges;
    return Ok(chars);
  }

  /** The elements of a sequence, as a set. */
  function Elements(s: seq<Char16>): set<Char16>
  {
    set c | c in s
  }

  /**
   * toSet: a hash set sized by getCharCount, then the same characters as toArray. A negative
   * getCharCount makes the set constructor throw.
   */
  method ToSet(ranges: seq<Range>) returns (r: Result<set<Char16>, string>)
    requires Expandable(ranges)
    ensures r.Err? <==> CharCountAsWritten(ranges) < 0
    ensures r.Err? ==> r.error == NEGATIVE_EXPECTED
    ensures r.Ok? ==> r.value == Elements(Expand(ranges))
  {
    var expected := GetCharCount(ranges);
    if expected < 0 {
      return Err(NEGATIVE_EXPECTED);
    }
    var chars := {};
    var k := 0;
    while k < |ranges|
      invariant 0 <= k <= |ranges|
      invariant chars == Elements(Expand(ranges[..k]))
    {
      var left, right := ranges[k].left, ranges[k].right;
      var i: int := left;
      ghost var before := chars;
      while i <= right
        invariant left <= i <= if left <= right then right + 1 else left
        invariant chars == before + Elements(Span(left, i - 1))
      {
        chars := chars + {ToChar(i)};
        i := i + 1;
      }
      assert ranges[..k + 1][..k] == ranges[..k];
      k := k + 1;
    }
    assert ranges[..k] == ranges;
    return Ok(chars);
  }

  /** A single reversed range, such as [5, 3], gives getCharCount -2: toArray and toSet throw. */
  lemma ReversedRangeThrows()
    ensures CharCountAsWritten([Range(5, 3)]) == -2
    ensures NegativeCapacity(-2) == "Initial capacity (-2) is negative"
  {
    assert [Range(5, 3)][..0] == [];
    assert DecimalString(-2) == "-2";
  }

  /**
   * For an ascending table getCharCount does not wrap and is at least 0, so toArray and
   * toSet do not throw.
   */
  lemma AscendingCountNonNegative(ranges: seq<Range>)
    requires Ascending(ranges)
    ensures CharCountAsWritten(ranges) == WidthSum(ranges) >= 0
  {
    WidthSumBound(ranges);
  }

  lemma {:induction false} WidthSumBound(ranges: seq<Range>)
    requires Ascending(ranges)
    ensures 0 <= WidthSum(ranges)
    ensures ranges != [] ==> WidthSum(ranges) <= ranges[|ranges| - 1].right - ranges[0].left
    decreases |ranges|
  {
    if ranges != [] {
      var n := |ranges| - 1;
      var init := ranges[..n];
      assert Ascending(init);
      WidthSumBound(init);
      if n > 0 {
        assert init[n - 1] == ranges[n - 1] && init[0] == ranges[0];
      }
    }
  }

  // ---------------------------------------------------------------------------------------------
  // Ascending tables

  /** Each range is non-empty and within the char range, and ranges ascend without touching. */
  predicate Ascending(ranges: seq<Range>)
  {
    && (forall k :: 0 <= k < |ranges| ==> 0 <= ranges[k].left <= ranges[k].right < 0x1_0000)
    && (forall k :: 0 < k < |ranges| ==> ranges[k - 1].right < ranges[k].left)
  }

  lemma {:induction false} SpanMembers(left: int, right: int, c: int)
    requires 0 <= left && right < 0x1_0000
    ensures c in Span(left, right) <==> left <= c <= right
    decreases right - left
  {
    if left <= right {
      SpanMembers(left, right - 1, c);
    }
  }

  /** Within the char range, the expanded ranges hold exactly the characters of some range. */
  lemma {:induction false} ExpandMembers(ranges: seq<Range>, c: int)
    requires forall k :: 0 <= k < |ranges| ==> 0 <= ranges[k].left && ranges[k].right < 0x1_0000
    ensures c in Expand(ranges) <==> exists k :: 0 <= k < |ranges| && ranges[k].left <= c <= ranges[k].right
    decreases |ranges|
  {
    if ranges != [] {
      var n := |ranges| - 1;
      ExpandMembers(ranges[..n], c);
      SpanMembers(ranges[n].left, ranges[n].right, c);
      if exists k :: 0 <= k < |ranges| && ranges[k].left <= c <= ranges[k].right {
        var k :| 0 <= k < |ranges| && ranges[k].left <= c <= ranges[k].right;
        if k < n {
          assert ranges[..n][k] == ranges[k];
        }
      }
    }
  }

  predicate Increasing(s: seq<int>)
  {
    forall i, j :: 0 <= i < j < |s| ==> s[i] < s[j]
  }

  lemma {:induction false} SpanIncreasing(left: int, right: int)
    requires 0 <= left && right < 0x1_0000
    ensures Increasing(Span(left, right))
    ensures forall c :: c in Span(left, right) ==> left <= c <= right
    decreases right - left
  {
    if left <= right {
      SpanIncreasing(left, right - 1);
      var a := Span(left, right - 1);
      assert Span(left, right) == a + [right];
      forall i, j | 0 <= i < j < |a| + 1
        ensures (a + [right])[i] < (a + [right])[j]
      {
        if j == |a| {
          assert a[i] in a;
        }
      }
    }
  }

  /** Ascending ranges expand to a strictly increasing sequence of characters. */
  lemma {:induction false} ExpandIncreasing(ranges: seq<Range>)
    requires Ascending(ranges)
    ensures Increasing(Expand(ranges))
    ensures ranges != [] ==> forall c :: c in Expand(ranges) ==> c <= ranges[|ranges| - 1].right
    decreases |ranges|
  {
    if ranges != [] {
      var n := |ranges| - 1;
      var init := ranges[..n];
      assert Ascending(init);
      ExpandIncreasing(init);
      var last := ranges[n];
      SpanIncreasing(last.left, last.right);
      var a, b := Expand(init), Span(last.left, last.right);
      if n > 0 {
        assert init[n - 1] == ranges[n - 1];
        forall x | x in a
          ensures x < last.left
        {
        }
      }
      forall i, j | 0 <= i < j < |a + b|
        ensures (a + b)[i] < (a + b)[j]
      {
        if j >= |a| && i < |a| {
          assert a[i] in a;
          assert b[j - |a|] in b;
        }
      }
      assert Expand(ranges) == a + b;
    }
  }

  lemma {:induction false} DistinctSetSize(s: seq<int>)
    requires Increasing(s)
    ensures |set c | c in s| == |s|
    decreases |s|
  {
    if s != [] {
      var n := |s| - 1;
      DistinctSetSize(s[..n]);
      assert s == s[..n] + [s[n]];
      assert (set c | c in s) == (set c | c in s[..n]) + {s[n]};
      assert s[n] !in s[..n];
    }
  }

  /**
   * For an ascending table toSet holds exactly the characters of its ranges, and there are
   * as many as toArray lists.
   */
  lemma ToSetOfAscending(ranges: seq<Range>, c: int)
    requires Ascending(ranges)
    ensures c in (set x | x in Expand(ranges)) <==> exists k :: 0 <= k < |ranges| && ranges[k].left <= c <= ranges[k].right
    ensures |set x | x in Expand(ranges)| == |Expand(ranges)| == CharCount(ranges)
  {
    ExpandMembers(ranges, c);
    ExpandIncreasing(ranges);
    DistinctSetSize(Expand(ranges));
    ExpandLength(ranges);
  }

  // ---------------------------------------------------------------------------------------------
  // The DefaultCharSet tables

  function Ascii(): seq<Range>
  {
    [Range(0x20, 0x7E)]
  }

  function ExtendedAscii(): seq<Range>
  {
    [Range(0x20, 0x7E), Range(0xA0, 0xFF)]
  }

  function Unicode(): seq<Range>
  {
    [Range(0x0020, 0x007E), Range(0x00A0, 0x00FF), Range(0x0100, 0x017F), Range(0x0370, 0x03FF),
     Range(0x0400, 0x04FF), Range(0x0590, 0x05FF), Range(0x0600, 0x06FF), Range(0x0900, 0x097F),
     Range(0x4E00, 0x9FFF)]
  }

  /** Every table is ascending, and each larger table starts with the smaller one. */
  lemma TablesAreAscending()
    ensures Ascending(Ascii()) && Ascending(ExtendedAscii()) && Ascending(Unicode())
    ensures ExtendedAscii()[..1] == Ascii() && Unicode()[..2] == ExtendedAscii()
  {
    var u := Unicode();
    forall k | 0 <= k < |u|
      ensures 0 <= u[k].left <= u[k].right < 0x1_0000
    {
    }
    forall k | 0 < k < |u|
      ensures u[k - 1].right < u[k].left
    {
    }
  }

  /** The number of characters in each table. */
  lemma TableSizes()
    ensures CharCount(Ascii()) == 95
    ensures CharCount(ExtendedAscii()) == 191
    ensures CharCount(Unicode()) == 22207
  {
    var u := Unicode();
    CharCountPrefix(u, 1);
    CharCountPrefix(u, 2);
    CharCountPrefix(u, 3);
    CharCountPrefix(u, 4);
    CharCountPrefix(u, 5);
    CharCountPrefix(u, 6);
    CharCountPrefix(u, 7);
    CharCountPrefix(u, 8);
    CharCountPrefix(u, 9);
    assert u[..9] == u;
    assert u[..2] == ExtendedAscii();
    assert u[..1] == Ascii();
  }

  lemma CharCountPrefix(ranges: seq<Range>, k: nat)
    requires 0 < k <= |ranges|
    ensures CharCount(ranges[..k]) == CharCount(ranges[..k - 1])
              + (if ranges[k - 1].left <= ranges[k - 1].right then ranges[k - 1].right - ranges[k - 1].left + 1 else 0)
  {
    assert ranges[..k][..k - 1] == ranges[..k - 1];
  }
}
