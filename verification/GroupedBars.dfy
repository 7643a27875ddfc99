/** Grouped bars over the three input arrays of embed/widgets/chart-options.js: what each group and each bar holds. */
module GroupedBars {
  import opened Grouping
  import opened Wrappers

  /** The name a colour goes by: its own, or one for missing and null colours. */
  function NameAt(colours: seq<Option<string>>, i: nat): string {
    if i < |colours| then
      match colours[i]
      case Some(name) => name
      case None => "(null)"
    else "(null)"
  }

  /** The arrays are read as far as both the categories and the numbers go. */
  function Common(cats: seq<string>, vals: seq<real>): nat {
    if |cats| <= |vals| then |cats| else |vals|
  }

  /** The categories of the first `n` entries with this colour. */
  function CatsWith(cats: seq<string>, colours: seq<Option<string>>, colour: string, n: nat): seq<string>
    requires n <= |cats|
  {
    if n == 0 then []
    else CatsWith(cats, colours, colour, n - 1) + if NameAt(colours, n - 1) == colour then [cats[n - 1]] else []
  }

  /** The numbers of the first `n` entries with this colour. */
  function ValsWith(vals: seq<real>, colours: seq<Option<string>>, colour: string, n: nat): seq<real>
    requires n <= |vals|
  {
    if n == 0 then []
    else ValsWith(vals, colours, colour, n - 1) + if NameAt(colours, n - 1) == colour then [vals[n - 1]] else []
  }

  /** The colours of the first `n` entries, each where it first appears. */
  function Colours(colours: seq<Option<string>>, n: nat): seq<string> {
    if n == 0 then []
    else
      var before, name := Colours(colours, n - 1), NameAt(colours, n - 1);
      if name in before then before else before + [name]
  }

  /** The number of the last of the first `n` entries with this category and colour; 0 if there is none. */
  function LastOf(cats: seq<string>, vals: seq<real>, colours: seq<Option<string>>, cat: string, colour: string, n: nat)
    : real
    requires n <= |cats| && n <= |vals|
  {
    if n == 0 then 0.0
    else if cats[n - 1] == cat && NameAt(colours, n - 1) == colour then vals[n - 1]
    else LastOf(cats, vals, colours, cat, colour, n - 1)
  }

  lemma RowsTake(cats: seq<string>, vals: seq<real>, colours: seq<Option<string>>, n: nat)
    requires 0 < n <= Common(cats, vals)
    ensures var rows := RowsOf(cats, vals, colours);
            && |rows| == Common(cats, vals)
            && rows[..n][..n - 1] == rows[..n - 1]
            && rows[..n][n - 1] == Row(cats[n - 1], NameAt(colours, n - 1), vals[n - 1])
  {
  }

  function GroupsUpTo(cats: seq<string>, vals: seq<real>, colours: seq<Option<string>>, n: nat): seq<Group>
    requires n <= Common(cats, vals)
  {
    GroupsOf(RowsOf(cats, vals, colours)[..n])
  }

  function NamesOf(groups: seq<Group>): (r: seq<string>)
    ensures |r| == |groups|
  {
    seq(|groups|, i requires 0 <= i < |groups| => groups[i].category)
  }

  lemma GroupsStep(cats: seq<string>, vals: seq<real>, colours: seq<Option<string>>, n: nat)
    requires 0 < n <= Common(cats, vals)
    ensures GroupsUpTo(cats, vals, colours, n) ==
            AddRow(GroupsUpTo(cats, vals, colours, n - 1), Row(cats[n - 1], NameAt(colours, n - 1), vals[n - 1]))
  {
    RowsTake(cats, vals, colours, n);
  }

  lemma AddedNames(groups: seq<Group>, r: Row)
    ensures NamesOf(AddRow(groups, r)) ==
            if r.colour in NamesOf(groups) then NamesOf(groups) else NamesOf(groups) + [r.colour]
  {
    var i := IndexOf(groups, r.colour);
    if i < |groups| {
      assert NamesOf(groups)[i] == r.colour;
    } else {
      forall k | 0 <= k < |groups| ensures NamesOf(groups)[k] != r.colour {
        assert NamesOf(groups)[k] == groups[k].category;
      }
    }
  }

  /** One group per colour, in the order in which the colours first appear. */
  lemma {:induction false} NamesInOrder(cats: seq<string>, vals: seq<real>, colours: seq<Option<string>>, n: nat)
    requires n <= Common(cats, vals)
    ensures NamesOf(GroupsUpTo(cats, vals, colours, n)) == Colours(colours, n)
  {
    if n > 0 {
      NamesInOrder(cats, vals, colours, n - 1);
      GroupsStep(cats, vals, colours, n);
      AddedNames(GroupsUpTo(cats, vals, colours, n - 1), Row(cats[n - 1], NameAt(colours, n - 1), vals[n - 1]));
    }
  }

  /** What a group of this name holds. */
  ghost predicate Holds(groups: seq<Group>, colour: string, a: seq<string>, b: seq<real>) {
    if IndexOf(groups, colour) == |groups| then a == [] && b == []
    else groups[IndexOf(groups, colour)] == Group(colour, a, b)
  }

  lemma AddedEntry(groups: seq<Group>, r: Row, colour: string, a: seq<string>, b: seq<real>)
    requires Holds(groups, colour, a, b)
    ensures r.colour == colour ==> Holds(AddRow(groups, r), colour, a + [r.cat], b + [r.val])
    ensures r.colour != colour ==> Holds(AddRow(groups, r), colour, a, b)
  {
    IndexAfter(groups, r, colour);
    assert [] + [r.cat] == [r.cat] && [] + [r.val] == [r.val];
  }

  /** Each group holds the categories and numbers of the entries with its colour, in order. */
  lemma {:induction false} EntriesInOrder(cats: seq<string>, vals: seq<real>, colours: seq<Option<string>>,
                                          colour: string, n: nat)
    requires n <= Common(cats, vals)
    ensures Holds(GroupsUpTo(cats, vals, colours, n), colour,
                  CatsWith(cats, colours, colour, n), ValsWith(vals, colours, colour, n))
  {
    if n > 0 {
      EntriesInOrder(cats, vals, colours, colour, n - 1);
      GroupsStep(cats, vals, colours, n);
      AddedEntry(GroupsUpTo(cats, vals, colours, n - 1), Row(cats[n - 1], NameAt(colours, n - 1), vals[n - 1]), colour,
                 CatsWith(cats, colours, colour, n - 1), ValsWith(vals, colours, colour, n - 1));
      assert CatsWith(cats, colours, colour, n - 1) + [] == CatsWith(cats, colours, colour, n - 1);
      assert ValsWith(vals, colours, colour, n - 1) + [] == ValsWith(vals, colours, colour, n - 1);
    }
  }

  /**
   * Grouping three arrays: one group per colour in the order of first appearance, each with exactly the
   * categories and numbers of its entries, as far as categories and numbers both go.
   */
  lemma GroupsExactly(cats: seq<string>, vals: seq<real>, colours: seq<Option<string>>, i: nat)
    ensures var groups, n := GroupsOf(RowsOf(cats, vals, colours)), Common(cats, vals);
            && NamesOf(groups) == Colours(colours, n)
            && (i < |groups| ==>
                  groups[i] == Group(Colours(colours, n)[i], CatsWith(cats, colours, Colours(colours, n)[i], n),
                                     ValsWith(vals, colours, Colours(colours, n)[i], n)))
  {
    var rows, n := RowsOf(cats, vals, colours), Common(cats, vals);
    var groups := GroupsOf(rows);
    assert rows[..n] == rows;
    NamesInOrder(cats, vals, colours, n);
    if i < |groups| {
      assert NamesOf(groups)[i] == groups[i].category;
      OneGroupPerColour(rows);
      IndexIs(groups, groups[i].category, i);
      EntriesInOrder(cats, vals, colours, groups[i].category, n);
    }
  }

  lemma {:induction false} LastUpTo(cats: seq<string>, vals: seq<real>, colours: seq<Option<string>>, cat: string,
                                    colour: string, n: nat)
    requires n <= Common(cats, vals)
    ensures LastValue(RowsOf(cats, vals, colours)[..n], cat, colour) == LastOf(cats, vals, colours, cat, colour, n)
  {
    if n > 0 {
      LastUpTo(cats, vals, colours, cat, colour, n - 1);
      RowsTake(cats, vals, colours, n);
    }
  }

  /** A bar shows the number of the last entry with its category and colour, or 0. */
  lemma BarsExactly(cats: seq<string>, vals: seq<real>, colours: seq<Option<string>>, cat: string, colour: string)
    ensures BarFor(GroupsOf(RowsOf(cats, vals, colours)), cat, colour)
         == LastOf(cats, vals, colours, cat, colour, Common(cats, vals))
  {
    var rows := RowsOf(cats, vals, colours);
    BarIsLastValue(rows, cat, colour);
    LastUpTo(cats, vals, colours, cat, colour, |rows|);
    assert rows[..|rows|] == rows;
  }
}
