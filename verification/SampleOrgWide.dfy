/** Seeding the sample bundle for a whole organisation: when its boards are safe, and what goes wrong otherwise. */
module SampleOrgWide {
  import opened Placeholders
  import opened Portable
  import opened Sample
  import opened SampleLinks
  import opened SampleRuns
  import opened SampleSafety
  import opened Wrappers

  /** The whole bundle of a scope removed. */
  function RemoveAll(s: Store, org: string, project: Option<string>): Store {
    RemovePart(s, org, project, |SampleRows(s.boards, org, project)|, |SampleRows(s.queries, org, project)|,
               |SampleRows(s.datastores, org, project)|)
  }

  ghost predicate DistinctSeeds(fx: Fixture) {
    forall i, j :: 0 <= i < j < |fx.boards| ==> fx.boards[i].seedId != fx.boards[j].seedId
  }

  // ----- the board that dangles -----

  lemma BoardIdInjective(a: string, b: string)
    ensures BoardId(a) == BoardId(b) <==> a == b
  {
    assert BoardId(a)[7..] == a && BoardId(b)[7..] == b;
  }

  lemma FindOther(rows: seq<Row>, row: Row, org: string, project: Option<string>, sid: string)
    requires Find(rows, org, project, sid) == None && Get(row.config, "sample_id") != JString(sid)
    ensures Find(rows + [row], org, project, sid) == None
  {
    FindGrows(rows, [row], org, project, sid);
    assert [row][1..] == [];
  }

  lemma UpsertOther(mint: nat -> string, rows: seq<Row>, next: nat, org: string, project: Option<string>,
                    name: string, config: Dict, sid: string, other: string)
    requires Find(rows, org, project, other) == None && sid != other
    ensures Find(Upsert(mint, rows, next, org, project, name, config, sid).rows, org, project, other) == None
  {
    if Find(rows, org, project, sid) == None {
      FindOther(rows, NewRow(mint(next), org, project, name, config, sid), org, project, other);
    }
  }

  /** The boards before the `i`-th do not bring it about. */
  lemma {:induction false} StillMissing(mint: nat -> string, p: Place, s: Store, idmap: map<string, string>, n: nat,
                                        i: nat)
    requires n <= i < |p.fx.boards| && DistinctSeeds(p.fx)
    requires Find(s.boards, p.org, p.project, BoardId(p.fx.boards[i].seedId)) == None
    ensures Find(BoardsAfter(mint, p, s, idmap, n).boards, p.org, p.project, BoardId(p.fx.boards[i].seedId)) == None
    decreases n
  {
    if n > 0 {
      StillMissing(mint, p, s, idmap, n - 1, i);
      NextBoards(mint, p, s, idmap, n);
      var before := BoardsAfter(mint, p, s, idmap, n - 1);
      var f := p.fx.boards[n - 1];
      BoardIdInjective(f.seedId, p.fx.boards[i].seedId);
      UpsertOther(mint, before.boards, before.next, p.org, p.project, f.name, BoardConfig(f, idmap),
                  BoardId(f.seedId), BoardId(p.fx.boards[i].seedId));
    }
  }

  /** A row created from the `i`-th board, as a seed resolves it. */
  ghost predicate Created(p: Place, rows: seq<Row>, idmap: map<string, string>, i: nat)
    requires i < |p.fx.boards|
  {
    exists id :: MadeRow(p, idmap, i, id) in rows
  }

  function MadeRow(p: Place, idmap: map<string, string>, i: nat, id: string): Row
    requires i < |p.fx.boards|
  {
    var f := p.fx.boards[i];
    NewRow(id, p.org, p.project, f.name, BoardConfig(f, idmap), BoardId(f.seedId))
  }

  lemma CreatedThen(mint: nat -> string, p: Place, s: Store, idmap: map<string, string>, i: nat)
    requires i < |p.fx.boards| && DistinctSeeds(p.fx)
    requires Find(s.boards, p.org, p.project, BoardId(p.fx.boards[i].seedId)) == None
    ensures Created(p, BoardsAfter(mint, p, s, idmap, i + 1).boards, idmap, i)
  {
    StillMissing(mint, p, s, idmap, i, i);
    NextBoards(mint, p, s, idmap, i + 1);
    var before := BoardsAfter(mint, p, s, idmap, i);
    var row := MadeRow(p, idmap, i, mint(before.next));
    assert BoardsAfter(mint, p, s, idmap, i + 1).boards == before.boards + [row];
    assert row in before.boards + [row];
  }

  lemma TableGrows(mint: nat -> string, p: Place, rows: seq<Row>, next: nat, idmap: map<string, string>, n: nat)
    requires 0 < n <= |p.fx.boards|
    ensures rows <= NextTable(mint, p, rows, next, idmap, n)
  {
  }

  /** Every missing board is created. */
  lemma {:induction false} BoardIsCreated(mint: nat -> string, p: Place, s: Store, idmap: map<string, string>,
                                          n: nat, i: nat)
    requires i < n <= |p.fx.boards| && DistinctSeeds(p.fx)
    requires Find(s.boards, p.org, p.project, BoardId(p.fx.boards[i].seedId)) == None
    ensures Created(p, BoardsAfter(mint, p, s, idmap, n).boards, idmap, i)
    decreases n
  {
    if n == i + 1 {
      CreatedThen(mint, p, s, idmap, i);
    } else {
      BoardIsCreated(mint, p, s, idmap, n - 1, i);
      NextBoards(mint, p, s, idmap, n);
      var before := BoardsAfter(mint, p, s, idmap, n - 1);
      TableGrows(mint, p, before.boards, before.next, idmap, n);
      var id :| MadeRow(p, idmap, i, id) in before.boards;
      assert MadeRow(p, idmap, i, id) in BoardsAfter(mint, p, s, idmap, n).boards;
    }
  }

  lemma {:induction false} NotSamplesHold(rows: seq<Row>, org: string, project: Option<string>, r: Row)
    ensures r in NotSamples(rows, org, project) <==> r in rows && !(InScope(r, org, project) && IsSample(r))
  {
    if rows != [] {
      NotSamplesHold(rows[1..], org, project, r);
      assert r in rows <==> r == rows[0] || r in rows[1..];
    }
  }

  lemma SameRow(rows: seq<Row>, r: Row, q: Row)
    requires UniqueIds(rows)
    ensures r in rows && q in rows && q.id == r.id ==> q == r
  {
  }

  /** After the removal nothing has the identifier of a row that it deleted. */
  lemma IdIsGone(rows: seq<Row>, org: string, project: Option<string>, r: Row, p: Place, sid: string)
    requires UniqueIds(rows) && r in rows && InScope(r, org, project) && IsSample(r)
    ensures !HasRow(p, RemoveFirst(rows, org, project, |SampleRows(rows, org, project)|), sid, r.id)
  {
    RemoveIsExact(rows, org, project);
    forall q | q in NotSamples(rows, org, project) ensures q.id != r.id {
      SameRow(rows, r, q);
      NotSamplesHold(rows, org, project, q);
    }
  }

  lemma SameSeed(fx: Fixture, i: nat, j: nat)
    requires DistinctSeeds(fx) && i < |fx.boards| && j < |fx.boards|
    ensures BoardId(fx.boards[i].seedId) == BoardId(fx.boards[j].seedId) ==> i == j
  {
    BoardIdInjective(fx.boards[i].seedId, fx.boards[j].seedId);
  }

  /** A board filled through an identifier that is gone is no good board. */
  lemma NotFilledThen(p: Place, b: Row, i: nat, idmap: map<string, string>, key: string)
    requires i < |p.fx.boards| && DistinctSeeds(p.fx) && key in References(p.fx.boards[i].spec)
    requires Get(b.config, "sample_id") == JString(BoardId(p.fx.boards[i].seedId))
    requires Get(b.config, "spec") == Resolve(p.fx.boards[i].spec, idmap)
    requires !PointsAt(p, key, ValueOf(idmap, key))
    ensures !BoardOk(p, b)
  {
    FilledExactly(p, p.fx.boards[i].spec, idmap);
    forall j | 0 <= j < |p.fx.boards| ensures !IsBoard(p, b, p.fx.boards[j]) {
      SameSeed(p.fx, i, j);
    }
  }

  /** The row that an unsafe seed would find, and the project it belongs to. */
  ghost predicate FindsForeign(fx: Fixture, s: Store, org: string, key: string, row: Row, project: string) {
    FoundFor(fx, s, org, None, key) == Some(row) && row.project == Some(project)
  }

  lemma FoundStays(fx: Fixture, s: Store, t: Store, org: string, key: string, row: Row, project: string)
    requires s.queries <= t.queries && s.datastores <= t.datastores && FindsForeign(fx, s, org, key, row, project)
    ensures FindsForeign(fx, t, org, key, row, project)
  {
    if key == "sample_datastore" {
      FindStays(s.datastores, t.datastores, org, None, DATASTORE_ID);
    } else {
      FindStays(s.queries, t.queries, org, None, QueryId(key));
    }
  }

  lemma KeyDangles(fx: Fixture, t: Store, org: string, key: string, row: Row, project: string)
    requires UniqueIds(t.queries) && UniqueIds(t.datastores) && FindsForeign(fx, t, org, key, row, project)
    ensures var left := RemoveAll(t, org, Some(project));
            !PointsAt(Place(fx, left.queries, left.datastores, org, None, false), key, row.id)
  {
    var left := RemoveAll(t, org, Some(project));
    var p := Place(fx, left.queries, left.datastores, org, None, false);
    if key == "sample_datastore" {
      IdIsGone(t.datastores, org, Some(project), row, p, DATASTORE_ID);
    } else {
      IdIsGone(t.queries, org, Some(project), row, p, QueryId(key));
    }
  }

  lemma MadeRowStays(t: Store, p: Place, idmap: map<string, string>, i: nat, id: string, project: string)
    requires i < |p.fx.boards| && p.project == None && UniqueIds(t.boards) && MadeRow(p, idmap, i, id) in t.boards
    ensures MadeRow(p, idmap, i, id) in RemoveAll(t, p.org, Some(project)).boards
  {
    RemoveIsExact(t.boards, p.org, Some(project));
    NotSamplesHold(t.boards, p.org, Some(project), MadeRow(p, idmap, i, id));
  }

  /** A new board that resolves through a row of a project is left without it when that project's bundle goes. */
  lemma NewBoardDangles(fx: Fixture, t: Store, org: string, idmap: map<string, string>, i: nat, key: string,
                        row: Row, project: string)
    requires UniqueIds(t.boards) && UniqueIds(t.queries) && UniqueIds(t.datastores) && DistinctSeeds(fx)
    requires i < |fx.boards| && key in References(fx.boards[i].spec)
    requires FindsForeign(fx, t, org, key, row, project) && ValueOf(idmap, key) == row.id
    requires Created(Place(fx, [], [], org, None, false), t.boards, idmap, i)
    ensures var left := RemoveAll(t, org, Some(project));
            !AllBoardsOk(fx, left.boards, left.queries, left.datastores, false)
  {
    var none := Place(fx, [], [], org, None, false);
    var id :| MadeRow(none, idmap, i, id) in t.boards;
    var b := MadeRow(none, idmap, i, id);
    var left := RemoveAll(t, org, Some(project));
    MadeRowStays(t, none, idmap, i, id, project);
    KeyDangles(fx, t, org, key, row, project);
    NotFilledThen(Place(fx, left.queries, left.datastores, org, None, false), b, i, idmap, key);
    var j :| 0 <= j < |left.boards| && left.boards[j] == b;
  }

  lemma WholeSeed(mint: nat -> string, fx: Fixture, s: Store, org: string) returns (mid: Store)
    ensures Complete(fx, mid, org, None) && mid.boards == s.boards
    ensures s.queries <= mid.queries && s.datastores <= mid.datastores
    ensures var p := Place(fx, [], [], org, None, false);
            Seed(mint, fx, s, org, None).store == BoardsAfter(mint, p, mid, IdMap(fx, mid, org, None), |fx.boards|)
    ensures var t := Seed(mint, fx, s, org, None).store; t.queries == mid.queries && t.datastores == mid.datastores
  {
    mid := BeforeBoards(mint, fx, s, org, None, |Keys(fx)|).store;
    BeforeBoardsFacts(mint, fx, s, org, None, |Keys(fx)|);
    SeedIsTwoPhases(mint, fx, s, org, None, |Keys(fx)|, |fx.boards|);
    BoardsAreThere(mint, fx, mid, org, None, IdMap(fx, mid, org, None), |fx.boards|);
  }

  lemma UnsafeDangles(mint: nat -> string, fx: Fixture, s: Store, org: string, i: nat, key: string, row: Row,
                      project: string)
    requires Minting(mint) && StoreIdsOk(mint, s) && DistinctSeeds(fx) && i < |fx.boards|
    requires Find(s.boards, org, None, BoardId(fx.boards[i].seedId)) == None && key in References(fx.boards[i].spec)
    requires FindsForeign(fx, s, org, key, row, project)
    ensures !RemovalIsSafe(mint, fx, s, org, project)
  {
    var t := Seed(mint, fx, s, org, None).store;
    SeedIds(mint, fx, s, org, None, |Keys(fx)|, |fx.boards|);
    var mid := WholeSeed(mint, fx, s, org);
    var idmap := IdMap(fx, mid, org, None);
    BoardIsCreated(mint, Place(fx, [], [], org, None, false), mid, idmap, |fx.boards|, i);
    FoundStays(fx, s, mid, org, key, row, project);
    IdMapHolds(fx, mid, org, None, i, key);
    FoundStays(fx, mid, t, org, key, row, project);
    NewBoardDangles(fx, t, org, idmap, i, key, row, project);
  }

  // ----- exactly when an organisation-wide seed is safe -----

  /**
   * After a seed for the whole organisation, removing the bundle of `project` leaves no board with a dead
   * identifier.
   */
  ghost predicate RemovalIsSafe(mint: nat -> string, fx: Fixture, s: Store, org: string, project: string) {
    var left := RemoveAll(Seed(mint, fx, s, org, None).store, org, Some(project));
    AllBoardsOk(fx, left.boards, left.queries, left.datastores, false)
  }

  lemma SafeSeedStaysSafe(mint: nat -> string, fx: Fixture, s: Store, org: string, project: string)
    requires Minting(mint) && Inv(mint, fx, s) && SeedIsSafe(fx, s, org, None, |fx.boards|)
    ensures RemovalIsSafe(mint, fx, s, org, project)
  {
    var t := Seed(mint, fx, s, org, None).store;
    SeedKeeps(mint, fx, s, org, None, |Keys(fx)|, |fx.boards|);
    SeedIds(mint, fx, s, org, None, |Keys(fx)|, |fx.boards|);
    RemoveKeeps(fx, t, org, Some(project), |SampleRows(t.boards, org, Some(project))|,
                |SampleRows(t.queries, org, Some(project))|, |SampleRows(t.datastores, org, Some(project))|);
    var left := RemoveAll(t, org, Some(project));
    LiveWhenOwn(fx, left.boards, left.queries, left.datastores);
  }

  /**
   * A seed for the whole organisation leaves no removal of a project's bundle that strands a board if and
   * only if, before it, nothing that a board yet to be created refers to is found in a project.
   */
  lemma OrgWideSeedExactly(mint: nat -> string, fx: Fixture, s: Store, org: string)
    requires Minting(mint) && Inv(mint, fx, s) && DistinctSeeds(fx)
    ensures SeedIsSafe(fx, s, org, None, |fx.boards|) <==> forall project :: RemovalIsSafe(mint, fx, s, org, project)
  {
    if SeedIsSafe(fx, s, org, None, |fx.boards|) {
      forall project ensures RemovalIsSafe(mint, fx, s, org, project) {
        SafeSeedStaysSafe(mint, fx, s, org, project);
      }
    } else {
      var i, key :| 0 <= i < |fx.boards| && Find(s.boards, org, None, BoardId(fx.boards[i].seedId)) == None
                    && key in References(fx.boards[i].spec) && !FindsOwn(fx, s, org, None, key);
      var row := FoundFor(fx, s, org, None, key).value;
      UnsafeDangles(mint, fx, s, org, i, key, row, row.project.value);
    }
  }

  // ----- a run that fails -----

  /**
   * Without a project the promise fails. A seed into a project stops before its boards; a seed for the
   * whole organisation then finds that project's query and puts its board outside the project; removing
   * the project's bundle leaves the board with the identifier of a query that is gone.
   */
  lemma OrgWideSeedCanDangle(mint: nat -> string, q: QueryFixture, org: string, project: string)
    ensures var fx := Fixture(map[], map["q" := q], [BoardFixture("b", "Board", JString("@q"))]);
            && |Keys(fx)| == 1
            && var part := SeedPart(mint, fx, Store([], [], [], 0), org, Some(project), 1, 0).store;
               var whole := Seed(mint, fx, part, org, None).store;
            && CanRemove(whole, org, Some(project), 0, 1, 1)
            && var left := RemovePart(whole, org, Some(project), 0, 1, 1);
            && |left.boards| == 1 && Get(left.boards[0].config, "spec") == JString(mint(1))
            && left.queries == []
  {
    var board := BoardFixture("b", "Board", JString("@q"));
    var fx := Fixture(map[], map["q" := q], [board]);
    OneKey(fx, q, board);
    var empty := Store([], [], [], 0);
    var ds := NewRow(mint(0), org, Some(project), "Sample", map[], DATASTORE_ID);
    var query := NewRow(mint(1), org, Some(project), q.name, QueryConfigFor(q, mint(0)), QueryId("q"));
    var part := SeedPart(mint, fx, empty, org, Some(project), 1, 0).store;
    PartOfOne(mint, fx, q, org, project);
    assert part == Store([], [query], [ds], 2);
    assert Is(ds, org, None, DATASTORE_ID) && Is(query, org, None, QueryId("q"));
    WholeOfOne(mint, fx, q, board, part, org, ds, query);
    var whole := Seed(mint, fx, part, org, None).store;
    RemoveTheOne(whole, org, project, ds, query);
  }

  lemma OneKey(fx: Fixture, q: QueryFixture, board: BoardFixture)
    requires fx.queries == map["q" := q] && fx.boards == [board] && board.spec == JString("@q")
    ensures Keys(fx) == ["q"]
  {
    assert SpecsOf(fx.boards) == [board.spec] && [board.spec][..0] == [];
    assert ReferencesOf([]) == {};
    assert "@q"[1..] == "q";
    assert ReferencesOf(SpecsOf(fx.boards)) == {} + References(board.spec);
    assert "q" in KeySet(fx);
    assert KeySet(fx) == {"q"};
    assert |Keys(fx)| == |{"q"}| && Keys(fx)[0] in Keys(fx);
  }

  lemma PartOfOne(mint: nat -> string, fx: Fixture, q: QueryFixture, org: string, project: string)
    requires Keys(fx) == ["q"] && "q" in fx.queries && fx.queries["q"] == q && fx.datastore == map[]
    ensures SeedPart(mint, fx, Store([], [], [], 0), org, Some(project), 1, 0).store
         == Store([], [NewRow(mint(1), org, Some(project), q.name, QueryConfigFor(q, mint(0)), QueryId("q"))],
                  [NewRow(mint(0), org, Some(project), "Sample", map[], DATASTORE_ID)], 2)
  {
    var s := AfterDatastore(Store([], [], [], 0), SeedDatastore(mint, fx, Store([], [], [], 0), org, Some(project)));
    assert SeedQueries(mint, fx, s, org, Some(project), mint(0), ["q"], 0) == Seeded(s, map[], 0);
  }

  lemma RemoveTheOne(whole: Store, org: string, project: string, ds: Row, query: Row)
    requires whole.queries == [query] && whole.datastores == [ds] && |whole.boards| == 1
             && whole.boards[0].project == None
    requires InScope(query, org, Some(project)) && IsSample(query) && InScope(ds, org, Some(project)) && IsSample(ds)
    ensures CanRemove(whole, org, Some(project), 0, 1, 1)
    ensures var left := RemovePart(whole, org, Some(project), 0, 1, 1);
            left.boards == whole.boards && left.queries == []
  {
    assert SampleRows([query], org, Some(project)) == [query] && SampleRows([ds], org, Some(project)) == [ds];
    assert !InScope(whole.boards[0], org, Some(project));
    assert SampleRows(whole.boards[1..], org, Some(project)) == [];
    assert SampleRows(whole.boards, org, Some(project)) == [];
    assert [query][..1] == [query] && [query][0].id in Ids([query]);
    assert Without([query][1..], Ids([query])) == [];
    WithoutNothing(whole.boards);
    assert Ids(SampleRows(whole.boards, org, Some(project))[..0]) == {};
  }

  lemma OneBoard(mint: nat -> string, fx: Fixture, s: Store, org: string, idmap: map<string, string>,
                 board: BoardFixture)
    requires fx.boards == [board] && board.spec == JString("@q") && s.boards == []
    ensures var t := SeedBoards(mint, fx, s, org, None, idmap, 1).store;
            && |t.boards| == 1 && t.boards[0].project == None && t.queries == s.queries && t.datastores == s.datastores
            && Get(t.boards[0].config, "spec") == JString(if "@q" in idmap then idmap["@q"] else "")
  {
    assert SeedBoards(mint, fx, s, org, None, idmap, 0) == Boarded(s, [], 0);
  }

  lemma WholeOfOne(mint: nat -> string, fx: Fixture, q: QueryFixture, board: BoardFixture, part: Store, org: string,
                   ds: Row, query: Row)
    requires Keys(fx) == ["q"] && "q" in fx.queries && fx.boards == [board] && board.spec == JString("@q")
    requires part == Store([], [query], [ds], 2) && query.id == mint(1)
    requires Is(ds, org, None, DATASTORE_ID) && Is(query, org, None, QueryId("q"))
    ensures var whole := Seed(mint, fx, part, org, None).store;
            && whole.queries == [query] && whole.datastores == [ds] && |whole.boards| == 1
            && whole.boards[0].project == None && Get(whole.boards[0].config, "spec") == JString(mint(1))
  {
    assert Find(part.queries, org, None, QueryId("q")) == Some(query);
    assert Find(part.datastores, org, None, DATASTORE_ID) == Some(ds);
    assert AllFound(part.queries, org, None, Keys(fx), 1);
    KeysAreKnown(fx);
    QueriesAgain(mint, fx, part, org, None, ds.id, Keys(fx), 1);
    var idmap := MapOf(part.queries, org, None, Keys(fx), 1);
    assert MapOf(part.queries, org, None, Keys(fx), 0) == map[];
    assert "@" + "q" == "@q" && idmap["@q"] == mint(1);
    OneBoard(mint, fx, part, org, idmap["@sample_datastore" := ds.id], board);
  }
}
