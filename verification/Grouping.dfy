/** Grouping rows by colour and reading grouped bars off the groups, embed/widgets/chart-options.js. */
module Grouping {
  import opened Wrappers

  datatype Group = Group(category: string, a: seq<string>, b: seq<real>)

  /** One row: its category on the axis, its colour, its number. */
  datatype Row = Row(cat: string, colour: string, val: real)

  /** A missing or null colour has a name of its own. */
  function ColourAt(colours: seq<Option<string>>, i: nat): string {
    if i < |colours| && colours[i].Some? then colours[i].value else "(null)"
  }

  function RowsOf(cats: seq<string>, vals: seq<real>, colours: seq<Option<string>>): (r: seq<Row>)
  {
    seq(if |cats| <= |vals| then |cats| else |vals|,
        i requires 0 <= i < |cats| && i < |vals| => Row(cats[i], ColourAt(colours, i), vals[i]))
  }

  /** Where the group of a colour is, or the number of groups. */
  function IndexOf(groups: seq<Group>, colour: string): (i: nat)
    ensures i <= |groups| && (i < |groups| ==> groups[i].category == colour)
    ensures forall k :: 0 <= k < i ==> groups[k].category != colour
  {
    if groups == [] || groups[0].category == colour then 0 else 1 + IndexOf(groups[1..], colour)
  }

  /** A row joins the group of its colour, or opens one at the end. */
  function AddRow(groups: seq<Group>, r: Row): seq<Group> {
    var i := IndexOf(groups, r.colour);
    if i == |groups| then groups + [Group(r.colour, [r.cat], [r.val])]
    else groups[i := Group(r.colour, groups[i].a + [r.cat], groups[i].b + [r.val])]
  }

  function GroupsOf(rows: seq<Row>): seq<Group> {
    if rows == [] then [] else AddRow(GroupsOf(rows[..|rows| - 1]), rows[|rows| - 1])
  }

  method GroupByCategory(primary: seq<string>, secondary: seq<real>, colorArr: seq<Option<string>>)
    returns (groups: seq<Group>)
    ensures groups == GroupsOf(RowsOf(primary, secondary, colorArr))
  {
    groups := [];
    ghost var rows := RowsOf(primary, secondary, colorArr);
    var n := if |primary| <= |secondary| then |primary| else |secondary|;
    for i := 0 to n
      invariant groups == GroupsOf(rows[..i])
    {
      var cat := ColourAt(colorArr, i);
      var g := IndexOf(groups, cat);
      ghost var before := groups;
      if g == |groups| {
        groups := groups + [Group(cat, [], [])];
      }
      var a, b := groups[g].a + [primary[i]], groups[g].b + [secondary[i]];
      assert g == |before| ==> a == [primary[i]] && b == [secondary[i]];
      groups := groups[g := Group(cat, a, b)];
      assert rows[..i + 1][..i] == rows[..i];
      assert rows[i] == Row(primary[i], cat, secondary[i]);
      assert groups == AddRow(before, rows[i]);
    }
    assert rows[..n] == rows;
  }

  // ----- bars -----

  /** The map from a group's categories to its numbers keeps the last number; a category it lacks is 0. */
  function Bar(g: Group, cat: string): real {
    BarOf(g.a, g.b, cat)
  }

  function BarOf(a: seq<string>, b: seq<real>, cat: string): real {
    if a == [] || b == [] then 0.0
    else if a[|a| - 1] == cat then b[|b| - 1]
    else BarOf(a[..|a| - 1], b[..|b| - 1], cat)
  }

  /** The number of the last row with this category and colour; 0 if there is none. */
  function LastValue(rows: seq<Row>, cat: string, colour: string): real {
    if rows == [] then 0.0
    else
      var last := rows[|rows| - 1];
      if last.cat == cat && last.colour == colour then last.val else LastValue(rows[..|rows| - 1], cat, colour)
  }

  function BarFor(groups: seq<Group>, cat: string, colour: string): real {
    var i := IndexOf(groups, colour);
    if i == |groups| then 0.0 else Bar(groups[i], cat)
  }

  lemma BarSnoc(a: seq<string>, b: seq<real>, c: string, x: real, cat: string)
    requires |a| == |b|
    ensures BarOf(a + [c], b + [x], cat) == if c == cat then x else BarOf(a, b, cat)
  {
    assert (a + [c])[..|a|] == a && (b + [x])[..|b|] == b;
  }

  predicate Paired(groups: seq<Group>) {
    forall i :: 0 <= i < |groups| ==> |groups[i].a| == |groups[i].b|
  }

  /** Adding a row changes one bar only: the one of its category and colour. */
  lemma AddRowBar(groups: seq<Group>, r: Row, cat: string, colour: string)
    requires Paired(groups)
    ensures Paired(AddRow(groups, r))
    ensures BarFor(AddRow(groups, r), cat, colour)
         == if r.cat == cat && r.colour == colour then r.val else BarFor(groups, cat, colour)
  {
    var i := IndexOf(groups, r.colour);
    var after := AddRow(groups, r);
    IndexAfter(groups, r, colour);
    if i == |groups| {
      BarSnoc([], [], r.cat, r.val, cat);
    } else {
      BarSnoc(groups[i].a, groups[i].b, r.cat, r.val, cat);
    }
  }

  lemma IndexAfter(groups: seq<Group>, r: Row, colour: string)
    ensures var i, after := IndexOf(groups, colour), AddRow(groups, r);
            IndexOf(after, colour) == (if i == |groups| && r.colour != colour then |after| else i)
  {
    var after := AddRow(groups, r);
    var at := IndexOf(groups, colour);
    IndexIs(after, colour, if at == |groups| && r.colour != colour then |after| else at);
  }

  lemma {:induction false} IndexIs(groups: seq<Group>, colour: string, i: nat)
    requires i <= |groups| && (i < |groups| ==> groups[i].category == colour)
    requires forall k :: 0 <= k < i ==> groups[k].category != colour
    ensures IndexOf(groups, colour) == i
  {
    if i > 0 {
      IndexIs(groups[1..], colour, i - 1);
    }
  }

  /** A grouped bar is the last number of its category and colour. */
  lemma {:induction false} BarIsLastValue(rows: seq<Row>, cat: string, colour: string)
    ensures Paired(GroupsOf(rows))
    ensures BarFor(GroupsOf(rows), cat, colour) == LastValue(rows, cat, colour)
  {
    if rows != [] {
      BarIsLastValue(rows[..|rows| - 1], cat, colour);
      AddRowBar(GroupsOf(rows[..|rows| - 1]), rows[|rows| - 1], cat, colour);
    }
  }

  /** Every colour has one group. */
  lemma {:induction false} OneGroupPerColour(rows: seq<Row>)
    ensures forall i, j :: 0 <= i < j < |GroupsOf(rows)| ==> GroupsOf(rows)[i].category != GroupsOf(rows)[j].category
  {
    if rows != [] {
      OneGroupPerColour(rows[..|rows| - 1]);
    }
  }

  // ----- what a category's bars add up to -----

  function BarTotal(groups: seq<Group>, cat: string): real {
    if groups == [] then 0.0 else BarTotal(groups[..|groups| - 1], cat) + Bar(groups[|groups| - 1], cat)
  }

  function ColumnTotal(rows: seq<Row>, cat: string): real {
    if rows == [] then 0.0
    else (if rows[0].cat == cat then rows[0].val else 0.0) + ColumnTotal(rows[1..], cat)
  }

  predicate Repeats(r: Row, later: seq<Row>) {
    exists i :: 0 <= i < |later| && later[i].cat == r.cat && later[i].colour == r.colour
  }

  /** The numbers of a category that a later row of the same colour replaces. */
  function Overwritten(rows: seq<Row>, cat: string): real {
    if rows == [] then 0.0
    else (if rows[0].cat == cat && Repeats(rows[0], rows[1..]) then rows[0].val else 0.0) + Overwritten(rows[1..], cat)
  }

  lemma {:induction false} ColumnTotalSnoc(rows: seq<Row>, r: Row, cat: string)
    ensures ColumnTotal(rows + [r], cat) == ColumnTotal(rows, cat) + if r.cat == cat then r.val else 0.0
  {
    if rows == [] {
      assert rows + [r] == [r] && [r][1..] == [];
    } else {
      ColumnTotalSnoc(rows[1..], r, cat);
      assert (rows + [r])[1..] == rows[1..] + [r];
    }
  }

  lemma RepeatsSnoc(x: Row, later: seq<Row>, r: Row)
    ensures Repeats(x, later + [r]) <==> Repeats(x, later) || (r.cat == x.cat && r.colour == x.colour)
  {
    if Repeats(x, later) {
      var i :| 0 <= i < |later| && later[i].cat == x.cat && later[i].colour == x.colour;
      assert (later + [r])[i] == later[i];
    }
    assert (later + [r])[|later|] == r;
  }

  /** Appending a row overwrites what was the last number of its pair. */
  lemma {:induction false} OverwrittenSnoc(rows: seq<Row>, r: Row, cat: string)
    ensures Overwritten(rows + [r], cat)
         == Overwritten(rows, cat) + if r.cat == cat then LastFromFront(rows, cat, r.colour) else 0.0
  {
    if rows == [] {
      assert rows + [r] == [r] && [r][1..] == [];
    } else {
      OverwrittenSnoc(rows[1..], r, cat);
      assert (rows + [r])[1..] == rows[1..] + [r];
      RepeatsSnoc(rows[0], rows[1..], r);
      if r.cat == cat {
        NoneLeft(rows[1..], rows[0], cat, r.colour);
      }
    }
  }

  /** The last number of a pair, found from the front. */
  function LastFromFront(rows: seq<Row>, cat: string, colour: string): real {
    if rows == [] then 0.0
    else if rows[0].cat == cat && rows[0].colour == colour && !Repeats(rows[0], rows[1..]) then rows[0].val
    else LastFromFront(rows[1..], cat, colour)
  }

  lemma {:induction false} NoneLeft(rows: seq<Row>, x: Row, cat: string, colour: string)
    ensures x.cat == cat && x.colour == colour && !Repeats(x, rows) ==> LastFromFront(rows, cat, colour) == 0.0
  {
    if rows != [] {
      if x.cat == cat && x.colour == colour && !Repeats(x, rows) {
        assert !(rows[0].cat == cat && rows[0].colour == colour);
        forall i | 0 <= i < |rows[1..]| ensures !(rows[1..][i].cat == cat && rows[1..][i].colour == colour) {
          assert rows[1..][i] == rows[i + 1];
        }
        NoneLeft(rows[1..], x, cat, colour);
      }
    }
  }

  lemma {:induction false} LastFromFrontSnoc(rows: seq<Row>, r: Row, cat: string, colour: string)
    ensures LastFromFront(rows + [r], cat, colour)
         == if r.cat == cat && r.colour == colour then r.val else LastFromFront(rows, cat, colour)
  {
    if rows == [] {
      assert rows + [r] == [r] && [r][1..] == [];
    } else {
      LastFromFrontSnoc(rows[1..], r, cat, colour);
      assert (rows + [r])[1..] == rows[1..] + [r];
      RepeatsSnoc(rows[0], rows[1..], r);
    }
  }

  lemma {:induction false} LastFromFrontIsLast(rows: seq<Row>, cat: string, colour: string)
    ensures LastFromFront(rows, cat, colour) == LastValue(rows, cat, colour)
  {
    if rows != [] {
      var n := |rows| - 1;
      LastFromFrontIsLast(rows[..n], cat, colour);
      assert rows == rows[..n] + [rows[n]];
      LastFromFrontSnoc(rows[..n], rows[n], cat, colour);
    }
  }

  lemma {:induction false} BarTotalUpdate(groups: seq<Group>, i: nat, g: Group, cat: string)
    requires i < |groups|
    ensures BarTotal(groups[i := g], cat) == BarTotal(groups, cat) - Bar(groups[i], cat) + Bar(g, cat)
  {
    var n := |groups| - 1;
    if i < n {
      BarTotalUpdate(groups[..n], i, g, cat);
      assert groups[i := g][..n] == groups[..n][i := g];
    } else {
      assert groups[i := g][..n] == groups[..n];
    }
  }

  lemma AddRowTotal(groups: seq<Group>, r: Row, cat: string)
    requires Paired(groups)
    ensures BarTotal(AddRow(groups, r), cat)
         == BarTotal(groups, cat) + if r.cat == cat then r.val - BarFor(groups, cat, r.colour) else 0.0
  {
    var i := IndexOf(groups, r.colour);
    if i == |groups| {
      BarSnoc([], [], r.cat, r.val, cat);
      assert AddRow(groups, r)[..|groups|] == groups;
    } else {
      BarSnoc(groups[i].a, groups[i].b, r.cat, r.val, cat);
      BarTotalUpdate(groups, i, AddRow(groups, r)[i], cat);
    }
  }

  /** The bars of a category and the numbers overwritten in it add up to the category's rows. */
  lemma {:induction false} NothingElseIsLost(rows: seq<Row>, cat: string)
    ensures BarTotal(GroupsOf(rows), cat) + Overwritten(rows, cat) == ColumnTotal(rows, cat)
  {
    if rows != [] {
      var n := |rows| - 1;
      var init, r := rows[..n], rows[n];
      assert rows == init + [r];
      NothingElseIsLost(init, cat);
      BarIsLastValue(init, cat, r.colour);
      LastFromFrontIsLast(init, cat, r.colour);
      AddRowTotal(GroupsOf(init), r, cat);
      OverwrittenSnoc(init, r, cat);
      ColumnTotalSnoc(init, r, cat);
    }
  }

  /** The bars conserve a category's total exactly when the overwritten numbers add up to nothing. */
  lemma BarsConserveExactly(rows: seq<Row>, cat: string)
    ensures BarTotal(GroupsOf(rows), cat) == ColumnTotal(rows, cat) <==> Overwritten(rows, cat) == 0.0
  {
    NothingElseIsLost(rows, cat);
  }

  /** With one row per category and colour nothing is overwritten. */
  lemma {:induction false} UniquePairsConserve(rows: seq<Row>, cat: string)
    requires forall i, j :: 0 <= i < j < |rows| ==> rows[i].cat != rows[j].cat || rows[i].colour != rows[j].colour
    ensures Overwritten(rows, cat) == 0.0
    ensures BarTotal(GroupsOf(rows), cat) == ColumnTotal(rows, cat)
  {
    if rows != [] {
      forall i | 0 <= i < |rows[1..]|
        ensures !(rows[1..][i].cat == rows[0].cat && rows[1..][i].colour == rows[0].colour)
      {
        assert rows[1..][i] == rows[i + 1];
      }
      UniquePairsConserve(rows[1..], cat);
    }
    NothingElseIsLost(rows, cat);
  }
}
