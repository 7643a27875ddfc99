/** In-place percent stacking, embed/widgets/chart-options.js, with numbers as reals. */
module PercentStack {

  /** A data entry: a number, or anything that does not convert to one (a hole in the array included). */
  datatype Cell = Value(x: real) | NotANumber

  /** `Number(data[i]) || 0`, also past the end. */
  function NumberAt(data: seq<Cell>, i: nat): real {
    if i < |data| && data[i].Value? then data[i].x else 0.0
  }

  /** `data[i] = cell`: writing past the end grows the array, leaving holes. */
  function WriteAt(data: seq<Cell>, i: nat, cell: Cell): seq<Cell> {
    if i < |data| then data[i := cell] else data + seq(i - |data|, _ => NotANumber) + [cell]
  }

  /** The nearest whole number, halves away from zero. */
  function Nearest(x: real): int {
    if x >= 0.0 then (x + 0.5).Floor else -((-x + 0.5).Floor)
  }

  /** `+x.toFixed(2)` */
  function Fixed2(x: real): real {
    Nearest(x * 100.0) as real / 100.0
  }

  function Percent(v: real, total: real): real
    requires total != 0.0
  {
    Fixed2(v / total * 100.0)
  }

  /** A series' data with its i-th number turned into a percentage. */
  function Shown(data: seq<Cell>, i: nat, total: real): seq<Cell>
    requires total != 0.0
  {
    WriteAt(data, i, Value(Percent(NumberAt(data, i), total)))
  }

  function Sum(s: seq<real>): real {
    if s == [] then 0.0 else s[0] + Sum(s[1..])
  }

  type Table = seq<seq<Cell>>

  /** The i-th numbers of all series. */
  function Column(t: Table, i: nat): (c: seq<real>)
    ensures |c| == |t|
  {
    seq(|t|, j requires 0 <= j < |t| => NumberAt(t[j], i))
  }

  /** One round of the outer loop. */
  function StackColumn(t: Table, i: nat): (r: Table)
    ensures |r| == |t|
  {
    var total := Sum(Column(t, i));
    if total == 0.0 then t
    else seq(|t|, j requires 0 <= j < |t| => Shown(t[j], i, total))
  }

  function Stacked(t: Table, n: nat): (r: Table)
    ensures |r| == |t|
  {
    if n == 0 then t else StackColumn(Stacked(t, n - 1), n - 1)
  }

  // ----- the loops -----

  class Series {
    var data: seq<Cell>
    var stack: string

    constructor (data: seq<Cell>)
      ensures this.data == data && stack == ""
    {
      this.data, stack := data, "";
    }
  }

  function TableOf(series: seq<Series>): (t: Table)
    reads series
    ensures |t| == |series|
  {
    seq(|series|, j requires 0 <= j < |series| reads series => series[j].data)
  }

  ghost predicate Separate(series: seq<Series>) {
    forall i, j :: 0 <= i < j < |series| ==> series[i] != series[j]
  }

  method ColumnTotal(series: seq<Series>, i: nat) returns (total: real)
    ensures total == Sum(Column(TableOf(series), i))
  {
    total := 0.0;
    ghost var column := Column(TableOf(series), i);
    for j := 0 to |series|
      invariant total == Sum(column[..j])
    {
      SumSnoc(column[..j], column[j]);
      assert column[..j + 1] == column[..j] + [column[j]];
      total := total + NumberAt(series[j].data, i);
    }
    assert column[..|series|] == column;
  }

  method WriteColumn(series: seq<Series>, i: nat, total: real)
    requires Separate(series) && total != 0.0
    modifies series
    ensures forall j :: 0 <= j < |series| ==> series[j].data == Shown(old(series[j].data), i, total)
    ensures forall j :: 0 <= j < |series| ==> series[j].stack == old(series[j].stack)
  {
    for j := 0 to |series|
      invariant forall k :: 0 <= k < j ==> series[k].data == Shown(old(series[k].data), i, total)
      invariant forall k :: j <= k < |series| ==> series[k].data == old(series[k].data)
      invariant forall k :: 0 <= k < |series| ==> series[k].stack == old(series[k].stack)
    {
      var s := series[j];
      s.data := WriteAt(s.data, i, Value(Percent(NumberAt(s.data, i), total)));
    }
  }

  /** `applyPercentStack` */
  method ApplyPercentStack(series: seq<Series>)
    requires Separate(series)
    modifies series
    ensures TableOf(series) == Stacked(old(TableOf(series)), if series == [] then 0 else |old(series[0].data)|)
    ensures forall j :: 0 <= j < |series| ==> series[j].stack == "total"
  {
    ghost var before := TableOf(series);
    var len := if series == [] then 0 else |series[0].data|;
    for i := 0 to len
      invariant TableOf(series) == Stacked(before, i)
    {
      var total := ColumnTotal(series, i);
      if total != 0.0 {
        ghost var here := TableOf(series);
        WriteColumn(series, i, total);
        assert TableOf(series) == StackColumn(here, i);
      }
    }
    ghost var data := TableOf(series);
    for j := 0 to |series|
      invariant TableOf(series) == data
      invariant forall k :: 0 <= k < j ==> series[k].stack == "total"
    {
      series[j].stack := "total";
      assert TableOf(series) == data;
    }
  }

  // ----- what a column becomes -----

  lemma {:induction false} SumSnoc(s: seq<real>, x: real)
    ensures Sum(s + [x]) == Sum(s) + x
  {
    if s == [] {
      assert s + [x] == [x] && [x][1..] == [];
    } else {
      SumSnoc(s[1..], x);
      assert (s + [x])[1..] == s[1..] + [x];
    }
  }

  lemma WriteElsewhere(data: seq<Cell>, i: nat, cell: Cell, k: nat)
    ensures NumberAt(WriteAt(data, i, cell), k) ==
            if k == i then (if cell.Value? then cell.x else 0.0) else NumberAt(data, k)
  {
  }

  function Percents(c: seq<real>): (r: seq<real>)
    ensures |r| == |c|
  {
    if Sum(c) == 0.0 then c else seq(|c|, j requires 0 <= j < |c| => Percent(c[j], Sum(c)))
  }

  /** A round changes its own column only. */
  lemma StackColumnAt(t: Table, i: nat, k: nat)
    ensures Column(StackColumn(t, i), k) == if k == i then Percents(Column(t, i)) else Column(t, k)
  {
    var total := Sum(Column(t, i));
    if total != 0.0 {
      forall j | 0 <= j < |t|
        ensures Column(StackColumn(t, i), k)[j] == (if k == i then Percents(Column(t, i)) else Column(t, k))[j]
      {
        WriteElsewhere(t[j], i, Value(Percent(NumberAt(t[j], i), total)), k);
      }
    }
  }

  /** After stacking: columns within the first series are percentages, columns past its end are untouched. */
  lemma {:induction false} StackedAt(t: Table, n: nat, k: nat)
    ensures Column(Stacked(t, n), k) == if k < n then Percents(Column(t, k)) else Column(t, k)
  {
    if n > 0 {
      StackedAt(t, n - 1, k);
      StackColumnAt(Stacked(t, n - 1), n - 1, k);
    }
  }

  // ----- what the percentages are -----

  lemma NearestIsClose(x: real)
    ensures -0.5 <= Nearest(x) as real - x <= 0.5
  {
  }

  lemma Fixed2IsClose(x: real)
    ensures -0.005 <= Fixed2(x) - x <= 0.005
  {
    NearestIsClose(x * 100.0);
  }

  function Scaled(c: seq<real>, total: real): (r: seq<real>)
    requires total != 0.0
    ensures |r| == |c|
  {
    seq(|c|, j requires 0 <= j < |c| => c[j] / total * 100.0)
  }

  lemma {:induction false} SumScaled(c: seq<real>, total: real)
    requires total != 0.0
    ensures Sum(Scaled(c, total)) == Sum(c) / total * 100.0
  {
    if c != [] {
      SumScaled(c[1..], total);
      assert Scaled(c, total)[1..] == Scaled(c[1..], total);
    }
  }

  lemma {:induction false} RoundedSum(c: seq<real>, r: seq<real>)
    requires |c| == |r| && forall j :: 0 <= j < |c| ==> -0.005 <= r[j] - c[j] <= 0.005
    ensures -0.005 * |c| as real <= Sum(r) - Sum(c) <= 0.005 * |c| as real
  {
    if c != [] {
      RoundedSum(c[1..], r[1..]);
    }
  }

  lemma DivSelf(x: real)
    requires x != 0.0
    ensures x / x == 1.0
  {
  }

  lemma PercentIsClose(v: real, total: real)
    requires total != 0.0
    ensures -0.005 <= Percent(v, total) - v / total * 100.0 <= 0.005
  {
    Fixed2IsClose(v / total * 100.0);
  }

  lemma PercentsAreClose(c: seq<real>, total: real)
    requires total == Sum(c) && total != 0.0
    ensures forall j :: 0 <= j < |c| ==> -0.005 <= Percents(c)[j] - Scaled(c, total)[j] <= 0.005
  {
    forall j | 0 <= j < |c| ensures -0.005 <= Percents(c)[j] - Scaled(c, total)[j] <= 0.005 {
      PercentIsClose(c[j], total);
    }
  }

  /** A column with a total adds up to 100 within half a hundredth per series; one without is left alone. */
  lemma PercentsSum(c: seq<real>)
    ensures Sum(c) != 0.0 ==> -0.005 * |c| as real <= Sum(Percents(c)) - 100.0 <= 0.005 * |c| as real
    ensures Sum(c) == 0.0 ==> Percents(c) == c
  {
    var total := Sum(c);
    if total != 0.0 {
      SumScaled(c, total);
      DivSelf(total);
      PercentsAreClose(c, total);
      RoundedSum(Scaled(c, total), Percents(c));
    }
  }

  lemma {:induction false} SumBounds(c: seq<real>, j: nat)
    requires j < |c| && forall i :: 0 <= i < |c| ==> c[i] >= 0.0
    ensures 0.0 <= c[j] <= Sum(c)
  {
    SumNonNegative(c[1..]);
    if j > 0 {
      SumBounds(c[1..], j - 1);
    }
  }

  lemma {:induction false} SumNonNegative(c: seq<real>)
    requires forall i :: 0 <= i < |c| ==> c[i] >= 0.0
    ensures Sum(c) >= 0.0
  {
    if c != [] {
      SumNonNegative(c[1..]);
    }
  }

  lemma NearestMonotone(x: real, y: real)
    requires x <= y
    ensures Nearest(x) <= Nearest(y)
  {
  }

  lemma ShareMonotone(v: real, w: real, total: real)
    requires v <= w && total > 0.0
    ensures v / total * 100.0 <= w / total * 100.0
  {
    assert w / total - v / total == (w - v) / total >= 0.0;
  }

  /** Percentages of a positive total keep the order of the values. */
  lemma PercentMonotone(v: real, w: real, total: real)
    requires v <= w && total > 0.0
    ensures Percent(v, total) <= Percent(w, total)
  {
    ShareMonotone(v, w, total);
    NearestMonotone(v / total * 100.0 * 100.0, w / total * 100.0 * 100.0);
  }

  /** Values that are not negative end between 0 and 100. */
  lemma PercentsInRange(c: seq<real>, j: nat)
    requires j < |c| && Sum(c) != 0.0 && forall i :: 0 <= i < |c| ==> c[i] >= 0.0
    ensures 0.0 <= Percents(c)[j] <= 100.0
  {
    SumBounds(c, j);
    var total := Sum(c);
    PercentMonotone(0.0, c[j], total);
    PercentMonotone(c[j], total, total);
    DivSelf(total);
    assert 0.0 / total == 0.0;
    assert Percent(0.0, total) == 0.0 && Percent(total, total) == Fixed2(100.0) == 100.0;
  }

  /**
   * `applyPercentStack` on any series: within the length of the first one, a column with a total adds
   * up to 100 within 0.005 per series and one without stays; past that length nothing changes.
   */
  lemma StackedSums(t: Table, k: nat)
    requires t != []
    ensures var before, after := Column(t, k), Column(Stacked(t, |t[0]|), k);
            && (k < |t[0]| && Sum(before) != 0.0 ==>
                  -0.005 * |t| as real <= Sum(after) - 100.0 <= 0.005 * |t| as real)
            && (k < |t[0]| && Sum(before) != 0.0 && (forall j :: 0 <= j < |before| ==> before[j] >= 0.0) ==>
                  forall j :: 0 <= j < |after| ==> 0.0 <= after[j] <= 100.0)
            && (k >= |t[0]| || Sum(before) == 0.0 ==> after == before)
  {
    var before := Column(t, k);
    StackedAt(t, |t[0]|, k);
    PercentsSum(before);
    if Sum(before) != 0.0 && forall j :: 0 <= j < |before| ==> before[j] >= 0.0 {
      forall j | 0 <= j < |before| ensures 0.0 <= Percents(before)[j] <= 100.0 {
        PercentsInRange(before, j);
      }
    }
  }

  lemma Fixed2IsWhole(x: real)
    ensures (Fixed2(x) * 100.0).Floor as real == Fixed2(x) * 100.0
  {
    assert Fixed2(x) * 100.0 == Nearest(x * 100.0) as real;
  }

  /** The share of a number in a total, in percent. */
  function Share(v: real, total: real): real
    requires total != 0.0
  {
    v / total * 100.0
  }

  /** The number in percent, as a whole number of hundredths, and no other is nearer. */
  predicate IsNearest(shown: real, share: real) {
    -0.005 <= shown - share <= 0.005 && (shown * 100.0).Floor as real == shown * 100.0
  }

  lemma PercentIsNearest(v: real, total: real)
    requires total != 0.0
    ensures IsNearest(Percent(v, total), Share(v, total))
  {
    Fixed2IsClose(v / total * 100.0);
    Fixed2IsWhole(v / total * 100.0);
  }

  /** Each number becomes its share of the column's total in percent, to the nearest hundredth. */
  lemma ShareIsNearest(t: Table, j: nat, k: nat)
    requires t != [] && j < |t| && k < |t[0]| && Sum(Column(t, k)) != 0.0
    ensures IsNearest(NumberAt(Stacked(t, |t[0]|)[j], k), Share(NumberAt(t[j], k), Sum(Column(t, k))))
  {
    StackedAt(t, |t[0]|, k);
    assert Column(Stacked(t, |t[0]|), k)[j] == Percents(Column(t, k))[j];
    PercentIsNearest(NumberAt(t[j], k), Sum(Column(t, k)));
  }
}
