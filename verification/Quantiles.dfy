/** The five-number summary of embed/widgets/chart-options.js, with numbers as reals. */
module Quantiles {

  predicate Ascending(s: seq<real>) {
    forall i, j :: 0 <= i < j < |s| ==> s[i] <= s[j]
  }

  function Insert(x: real, s: seq<real>): (r: seq<real>)
    requires Ascending(s)
    ensures Ascending(r) && |r| == |s| + 1
    ensures forall i :: 0 <= i < |r| ==> r[i] == x || r[i] in s
  {
    if s == [] || x <= s[0] then [x] + s else [s[0]] + Insert(x, s[1..])
  }

  lemma {:induction false} InsertElements(x: real, s: seq<real>)
    requires Ascending(s)
    ensures multiset(Insert(x, s)) == multiset(s) + multiset{x}
  {
    if !(s == [] || x <= s[0]) {
      InsertElements(x, s[1..]);
      assert s == [s[0]] + s[1..];
    }
  }

  /** `[...arr].sort((a, b) => a - b)` */
  function Sort(arr: seq<real>): (r: seq<real>)
    ensures Ascending(r) && |r| == |arr|
  {
    if arr == [] then [] else Insert(arr[0], Sort(arr[1..]))
  }

  lemma AddFirst(arr: seq<real>)
    requires arr != []
    ensures multiset(arr) == multiset(arr[1..]) + multiset{arr[0]}
  {
    assert arr == [arr[0]] + arr[1..];
  }

  lemma {:induction false} SortKeepsElements(arr: seq<real>)
    ensures multiset(Sort(arr)) == multiset(arr)
  {
    if arr != [] {
      SortKeepsElements(arr[1..]);
      InsertElements(arr[0], Sort(arr[1..]));
      AddFirst(arr);
    }
  }

  function Step(a: real, d: real, f: real): real {
    a + d * f
  }

  /** The number at a position between two whole ones: linear interpolation. */
  function ValueAt(s: seq<real>, idx: real): real
    requires 0.0 <= idx <= (|s| - 1) as real
  {
    var lo, hi := idx.Floor, Ceil(idx);
    if lo == hi then s[lo] else Step(s[lo], s[hi] - s[lo], idx - lo as real)
  }

  function Position(n: nat, p: real): (idx: real)
    requires n > 0 && 0.0 <= p <= 1.0
    ensures 0.0 <= idx <= (n - 1) as real
  {
    ScaleInRange((n - 1) as real, p);
    (n - 1) as real * p
  }

  lemma ScaleInRange(x: real, p: real)
    requires x >= 0.0 && 0.0 <= p <= 1.0
    ensures 0.0 <= x * p <= x
  {
  }

  /** The inner function `q`, on sorted numbers. */
  function Quantile(s: seq<real>, p: real): real
    requires s != [] && 0.0 <= p <= 1.0
  {
    ValueAt(s, Position(|s|, p))
  }

  function Ceil(x: real): int {
    if x.Floor as real == x then x.Floor else x.Floor + 1
  }

  function FiveNumberSummary(arr: seq<real>): (r: seq<real>)
    requires arr != []
    ensures |r| == 5
  {
    var s := Sort(arr);
    [s[0], Quantile(s, 0.25), Quantile(s, 0.5), Quantile(s, 0.75), s[|s| - 1]]
  }

  // ----- the interpolated quantile -----

  lemma StepBetween(a: real, d: real, f: real)
    requires d >= 0.0 && 0.0 <= f <= 1.0
    ensures a <= Step(a, d, f) <= a + d
  {
    ScaleInRange(d, f);
  }

  lemma StepMonotone(a: real, d: real, f: real, g: real)
    requires d >= 0.0 && f <= g
    ensures Step(a, d, f) <= Step(a, d, g)
  {
    ScaleMonotone(d, f, g);
  }

  /** A value lies between the two order statistics around its position. */
  lemma BetweenNeighbours(s: seq<real>, idx: real)
    requires Ascending(s) && 0.0 <= idx <= (|s| - 1) as real
    ensures 0 <= idx.Floor <= Ceil(idx) < |s| && s[idx.Floor] <= ValueAt(s, idx) <= s[Ceil(idx)]
  {
    if idx.Floor != Ceil(idx) {
      StepBetween(s[idx.Floor], s[Ceil(idx)] - s[idx.Floor], idx - idx.Floor as real);
    }
  }

  lemma ValueMonotone(s: seq<real>, i: real, j: real)
    requires Ascending(s) && 0.0 <= i <= j <= (|s| - 1) as real
    ensures ValueAt(s, i) <= ValueAt(s, j)
  {
    BetweenNeighbours(s, i);
    BetweenNeighbours(s, j);
    if i.Floor == j.Floor {
      if Ceil(i) != i.Floor {
        StepMonotone(s[i.Floor], s[i.Floor + 1] - s[i.Floor], i - i.Floor as real, j - j.Floor as real);
      }
    } else {
      assert Ceil(i) <= j.Floor;
    }
  }

  lemma ScaleMonotone(x: real, p: real, q: real)
    requires x >= 0.0 && p <= q
    ensures x * p <= x * q
  {
  }

  lemma PositionMonotone(n: nat, p: real, q: real)
    requires n > 0 && 0.0 <= p <= q <= 1.0
    ensures Position(n, p) <= Position(n, q)
  {
    ScaleMonotone((n - 1) as real, p, q);
  }

  /** The quantile never falls as the fraction grows. */
  lemma QuantileMonotone(s: seq<real>, p: real, q: real)
    requires s != [] && Ascending(s) && 0.0 <= p <= q <= 1.0
    ensures Quantile(s, p) <= Quantile(s, q)
  {
    PositionMonotone(|s|, p, q);
    ValueMonotone(s, Position(|s|, p), Position(|s|, q));
  }

  /** At fractions 0 and 1 the quantile is the least and the greatest number. */
  lemma QuantileEnds(s: seq<real>)
    requires s != []
    ensures Quantile(s, 0.0) == s[0] && Quantile(s, 1.0) == s[|s| - 1]
  {
    assert Position(|s|, 0.0) == 0.0 && Position(|s|, 1.0) == (|s| - 1) as real;
  }

  // ----- what a quantile means -----

  function CountIf(s: seq<real>, p: real -> bool): nat {
    if s == [] then 0 else (if p(s[0]) then 1 else 0) + CountIf(s[1..], p)
  }

  lemma {:induction false} CountRange(s: seq<real>, p: real -> bool, from: nat, to: nat)
    requires from <= to <= |s| && forall i :: from <= i < to ==> p(s[i])
    ensures CountIf(s, p) >= to - from
    decreases |s|
  {
    if s != [] && to > 0 {
      CountRange(s[1..], p, if from == 0 then 0 else from - 1, to - 1);
    }
  }

  lemma {:induction false} CountInsert(x: real, s: seq<real>, p: real -> bool)
    requires Ascending(s)
    ensures CountIf(Insert(x, s), p) == CountIf(s, p) + if p(x) then 1 else 0
  {
    if s == [] || x <= s[0] {
      assert ([x] + s)[1..] == s;
    } else {
      CountInsert(x, s[1..], p);
      assert ([s[0]] + Insert(x, s[1..]))[1..] == Insert(x, s[1..]);
    }
  }

  lemma {:induction false} CountSort(arr: seq<real>, p: real -> bool)
    ensures CountIf(Sort(arr), p) == CountIf(arr, p)
  {
    if arr != [] {
      CountSort(arr[1..], p);
      CountInsert(arr[0], Sort(arr[1..]), p);
    }
  }

  lemma ValueSplits(s: seq<real>, idx: real)
    requires Ascending(s) && 0.0 <= idx <= (|s| - 1) as real
    ensures CountIf(s, x => x <= ValueAt(s, idx)) >= idx.Floor + 1
    ensures CountIf(s, x => x >= ValueAt(s, idx)) >= |s| - Ceil(idx)
  {
    var q := ValueAt(s, idx);
    BetweenNeighbours(s, idx);
    CountRange(s, x => x <= q, 0, idx.Floor + 1);
    CountRange(s, x => x >= q, Ceil(idx), |s|);
  }

  /** The counts of numbers up to and from `q` exceed the steps to a position and the steps behind it. */
  predicate SplitsAt(arr: seq<real>, idx: real, q: real) {
    && CountIf(arr, x => x <= q) as real > idx
    && CountIf(arr, x => x >= q) as real > (|arr| - 1) as real - idx
  }

  /** More than a fraction p of the steps lie at or below the p-quantile of a sample, and the rest at or above it. */
  lemma QuantileSplits(arr: seq<real>, p: real)
    requires arr != [] && 0.0 <= p <= 1.0
    ensures SplitsAt(arr, Position(|arr|, p), Quantile(Sort(arr), p))
  {
    var s := Sort(arr);
    var q := Quantile(s, p);
    ValueSplits(s, Position(|s|, p));
    CountSort(arr, x => x <= q);
    CountSort(arr, x => x >= q);
  }

  lemma LeastFirst(s: seq<real>, x: real)
    requires Ascending(s) && x in s
    ensures s[0] <= x
  {
  }

  lemma InBoth(a: seq<real>, b: seq<real>, x: real)
    requires multiset(a) == multiset(b) && x in a
    ensures x in b
  {
    assert x in multiset(a);
    assert x in multiset(b);
  }

  lemma HeadsMatch(a: seq<real>, b: seq<real>)
    requires Ascending(a) && Ascending(b) && multiset(a) == multiset(b) && a != [] && b != []
    ensures a[0] == b[0]
  {
    InBoth(a, b, a[0]);
    InBoth(b, a, b[0]);
    LeastFirst(a, b[0]);
    LeastFirst(b, a[0]);
  }

  lemma TailsMatch(a: seq<real>, b: seq<real>)
    requires multiset(a) == multiset(b) && a != [] && b != [] && a[0] == b[0]
    ensures multiset(a[1..]) == multiset(b[1..])
  {
    AddFirst(a);
    AddFirst(b);
    assert multiset(a[1..]) == multiset(a) - multiset{a[0]};
    assert multiset(b[1..]) == multiset(b) - multiset{b[0]};
  }

  lemma SameLength(a: seq<real>, b: seq<real>)
    requires multiset(a) == multiset(b)
    ensures |a| == |b|
  {
    assert |a| == |multiset(a)| == |multiset(b)| == |b|;
  }

  lemma {:induction false} SortedIsUnique(a: seq<real>, b: seq<real>)
    requires Ascending(a) && Ascending(b) && multiset(a) == multiset(b)
    ensures a == b
    decreases |a|
  {
    SameLength(a, b);
    if a != [] {
      HeadsMatch(a, b);
      TailsMatch(a, b);
      SortedIsUnique(a[1..], b[1..]);
      assert a == [a[0]] + a[1..] && b == [b[0]] + b[1..];
    }
  }

  /** The summary depends on the numbers, not on their order. */
  lemma SummaryIgnoresOrder(a: seq<real>, b: seq<real>)
    requires a != [] && multiset(a) == multiset(b)
    ensures b != [] && FiveNumberSummary(a) == FiveNumberSummary(b)
  {
    assert a[0] in multiset(a);
    assert a[0] in multiset(b);
    SortKeepsElements(a);
    SortKeepsElements(b);
    SortedIsUnique(Sort(a), Sort(b));
  }

  /** Least, quartiles and greatest of every sample, in order. */
  lemma SummaryInOrder(arr: seq<real>)
    requires arr != []
    ensures var r := FiveNumberSummary(arr);
            && r[0] <= r[1] <= r[2] <= r[3] <= r[4]
            && r[0] in arr && r[4] in arr && forall x :: x in arr ==> r[0] <= x <= r[4]
  {
    var s := Sort(arr);
    QuartilesInOrder(s);
    SortKeepsElements(arr);
    SameElements(arr, s);
    EndsBound(s);
  }

  lemma EndsBound(s: seq<real>)
    requires s != [] && Ascending(s)
    ensures s[0] in s && s[|s| - 1] in s && forall x :: x in s ==> s[0] <= x <= s[|s| - 1]
  {
    forall x | x in s ensures s[0] <= x <= s[|s| - 1] {
      var i :| 0 <= i < |s| && s[i] == x;
    }
  }

  lemma QuartilesInOrder(s: seq<real>)
    requires s != [] && Ascending(s)
    ensures s[0] <= Quantile(s, 0.25) <= Quantile(s, 0.5) <= Quantile(s, 0.75) <= s[|s| - 1]
  {
    QuantileEnds(s);
    QuantileMonotone(s, 0.0, 0.25);
    QuantileMonotone(s, 0.25, 0.5);
    QuantileMonotone(s, 0.5, 0.75);
    QuantileMonotone(s, 0.75, 1.0);
  }

  lemma SameElements(arr: seq<real>, s: seq<real>)
    requires multiset(arr) == multiset(s)
    ensures forall x :: x in arr <==> x in s
  {
    forall x ensures x in arr <==> x in s {
      assert x in arr <==> x in multiset(arr);
      assert x in s <==> x in multiset(s);
    }
  }

  // ----- the three quartiles -----

  /** A position of the form (n - 1) i / 4, as a whole number of steps and quarters of one. */
  lemma QuarterPosition(n: nat, i: nat)
    requires n > 0 && i <= 4
    ensures var k, rest := ((n - 1) * i) / 4, ((n - 1) * i) % 4;
            && Position(n, i as real / 4.0) == k as real + rest as real / 4.0
            && Position(n, i as real / 4.0).Floor == k
  {
    var m := (n - 1) * i;
    var k, rest := m / 4, m % 4;
    assert m == 4 * k + rest;
    assert (n - 1) as real * (i as real / 4.0) == m as real / 4.0;
    assert m as real / 4.0 == k as real + rest as real / 4.0;
  }

  /** The number that many quarters of the way through sorted numbers, spelled out. */
  function QuarterOf(s: seq<real>, i: nat): real
    requires s != [] && i <= 4
  {
    var k, rest := ((|s| - 1) * i) / 4, ((|s| - 1) * i) % 4;
    if rest == 0 then s[k] else s[k] + (s[k + 1] - s[k]) * (rest as real / 4.0)
  }

  lemma QuarterIsQuantile(s: seq<real>, i: nat)
    requires s != [] && i <= 4
    ensures QuarterOf(s, i) == Quantile(s, i as real / 4.0)
  {
    QuarterPosition(|s|, i);
  }

  lemma QuarterEnds(s: seq<real>)
    requires s != []
    ensures QuarterOf(s, 0) == s[0] && QuarterOf(s, 4) == s[|s| - 1]
  {
    assert ((|s| - 1) * 4) / 4 == |s| - 1 && ((|s| - 1) * 4) % 4 == 0;
  }

  lemma InnerQuarters(s: seq<real>)
    requires s != []
    ensures QuarterOf(s, 1) == Quantile(s, 0.25)
    ensures QuarterOf(s, 2) == Quantile(s, 0.5)
    ensures QuarterOf(s, 3) == Quantile(s, 0.75)
  {
    QuarterIsQuantile(s, 1);
    QuarterIsQuantile(s, 2);
    QuarterIsQuantile(s, 3);
    assert 1 as real / 4.0 == 0.25 && 2 as real / 4.0 == 0.5 && 3 as real / 4.0 == 0.75;
  }

  /** The five numbers are those at none, one, two, three and four quarters of the sorted sample. */
  lemma QuartersOfSummary(arr: seq<real>, i: nat)
    requires arr != [] && i <= 4
    ensures FiveNumberSummary(arr)[i] == QuarterOf(Sort(arr), i)
  {
    QuarterEnds(Sort(arr));
    InnerQuarters(Sort(arr));
  }

  /** For a sample put in order in any way, each of the five numbers is the one so many quarters of the way through. */
  lemma SummaryExactly(arr: seq<real>, s: seq<real>, i: nat)
    requires arr != [] && Ascending(s) && multiset(s) == multiset(arr) && i <= 4
    ensures s != [] && FiveNumberSummary(arr)[i] == QuarterOf(s, i)
  {
    SortKeepsElements(arr);
    SortedIsUnique(Sort(arr), s);
    QuartersOfSummary(arr, i);
  }

  /** So many quarters of the steps from the first number to the last. */
  function QuarterSteps(n: nat, i: nat): real
    requires n > 0
  {
    ((n - 1) * i) as real / 4.0
  }

  lemma QuartersSplit(arr: seq<real>)
    requires arr != []
    ensures SplitsAt(arr, QuarterSteps(|arr|, 1), FiveNumberSummary(arr)[1])
    ensures SplitsAt(arr, QuarterSteps(|arr|, 2), FiveNumberSummary(arr)[2])
    ensures SplitsAt(arr, QuarterSteps(|arr|, 3), FiveNumberSummary(arr)[3])
  {
    QuantileSplits(arr, 0.25);
    QuantileSplits(arr, 0.5);
    QuantileSplits(arr, 0.75);
    assert QuarterSteps(|arr|, 1) == Position(|arr|, 0.25);
    assert QuarterSteps(|arr|, 2) == Position(|arr|, 0.5);
    assert QuarterSteps(|arr|, 3) == Position(|arr|, 0.75);
  }

  lemma SplitInQuarters(arr: seq<real>, i: nat, q: real)
    requires arr != [] && i <= 4 && SplitsAt(arr, QuarterSteps(|arr|, i), q)
    ensures QuarterSplit(arr, i, q)
  {
    assert (|arr| - 1) * (4 - i) == 4 * (|arr| - 1) - (|arr| - 1) * i;
  }

  /** At least so many quarters of the steps lie up to `q` and the rest from `q` on. */
  predicate QuarterSplit(arr: seq<real>, i: nat, q: real) {
    && 4 * CountIf(arr, x => x <= q) > (|arr| - 1) * i
    && 4 * CountIf(arr, x => x >= q) > (|arr| - 1) * (4 - i)
  }

  /** A quarter, half and three quarters of the steps lie below the three inner numbers, the rest above. */
  lemma QuartilesSplit(arr: seq<real>)
    requires arr != []
    ensures QuarterSplit(arr, 1, FiveNumberSummary(arr)[1])
    ensures QuarterSplit(arr, 2, FiveNumberSummary(arr)[2])
    ensures QuarterSplit(arr, 3, FiveNumberSummary(arr)[3])
  {
    QuartersSplit(arr);
    SplitInQuarters(arr, 1, FiveNumberSummary(arr)[1]);
    SplitInQuarters(arr, 2, FiveNumberSummary(arr)[2]);
    SplitInQuarters(arr, 3, FiveNumberSummary(arr)[3]);
  }
}
