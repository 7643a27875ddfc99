/** What one seed adds to the row store: which rows, holding what, and nothing else. */
module SampleSeeds {
  import opened Placeholders
  import opened Portable
  import opened Sample
  import opened SampleLinks
  import opened SampleRuns
  import opened Wrappers

  // ----- rows of a bundle -----

  /** A board refers to the key, at any depth, or it carries a metric. */
  ghost predicate Needed(fx: Fixture, key: string) {
    && key in fx.queries
    && (Truthy(fx.queries[key].metric) || exists i :: 0 <= i < |fx.boards| && key in References(fx.boards[i].spec))
  }

  /** A row of exactly this scope, tagged as a sample under this identifier. */
  predicate Tagged(r: Row, org: string, project: Option<string>, sid: string) {
    && r.org == org && r.project == project
    && Get(r.config, "sample") == JBool(true) && Get(r.config, "sample_id") == JString(sid)
  }

  /** The row of a query fixture, reading from one datastore. */
  predicate IsQueryRow(q: QueryFixture, key: string, r: Row, org: string, project: Option<string>, datastore: string) {
    && Tagged(r, org, project, "sample:query:" + key) && r.name == q.name
    && Get(r.config, "sql") == q.sql && Get(r.config, "params") == q.params
    && Get(r.config, "datastore_id") == JString(datastore)
    && (if Truthy(q.metric) then Get(r.config, "metric") == q.metric else "metric" !in r.config)
    && r.config.Keys <= {"sql", "params", "datastore_id", "metric", "sample", "sample_id"}
  }

  /** The row of a board fixture, its placeholders filled. */
  ghost predicate IsBoardRow(p: Place, f: BoardFixture, r: Row) {
    && Tagged(r, p.org, p.project, "sample:" + f.seedId) && r.name == f.name
    && Filled(p, f.spec, Get(r.config, "spec")) && r.config.Keys == {"spec", "sample", "sample_id"}
  }

  predicate IsDatastoreRow(fx: Fixture, r: Row, org: string, project: Option<string>) {
    && Tagged(r, org, project, "sample:datastore:duckdb") && r.name == "Sample"
    && r.config == fx.datastore["sample" := JBool(true)]["sample_id" := JString("sample:datastore:duckdb")]
  }

  // ----- tables that grow by missing rows -----

  /** No other sample row of the scope has the identifier of this one. */
  predicate Sole(rows: seq<Row>, org: string, project: Option<string>, j: nat)
    requires j < |rows|
  {
    forall i :: 0 <= i < |rows| && i != j && InScope(rows[i], org, project) && IsSample(rows[i]) ==>
      Get(rows[i].config, "sample_id") != Get(rows[j].config, "sample_id")
  }

  /** A table has grown by sample rows of the scope, each under an identifier that was missing. */
  predicate Grown(base: seq<Row>, rows: seq<Row>, org: string, project: Option<string>) {
    && base <= rows
    && forall j :: |base| <= j < |rows| ==>
         InScope(rows[j], org, project) && IsSample(rows[j]) && Sole(rows, org, project, j)
  }

  lemma {:induction false} NoneIs(rows: seq<Row>, org: string, project: Option<string>, sid: string, i: nat)
    requires Find(rows, org, project, sid) == None && i < |rows|
    ensures !Is(rows[i], org, project, sid)
  {
    if i > 0 {
      NoneIs(rows[1..], org, project, sid, i - 1);
    }
  }

  lemma GrowsBy(base: seq<Row>, rows: seq<Row>, row: Row, org: string, project: Option<string>, sid: string)
    requires Grown(base, rows, org, project) && Is(row, org, project, sid) && Find(rows, org, project, sid) == None
    ensures Grown(base, rows + [row], org, project)
  {
    var after := rows + [row];
    forall i | 0 <= i < |rows| && InScope(rows[i], org, project) && IsSample(rows[i])
      ensures Get(rows[i].config, "sample_id") != JString(sid)
    {
      NoneIs(rows, org, project, sid, i);
    }
    forall j | |base| <= j < |after|
      ensures InScope(after[j], org, project) && IsSample(after[j]) && Sole(after, org, project, j)
    {
      if j < |rows| {
        assert after[j] == rows[j] && Sole(rows, org, project, j);
      }
    }
  }

  lemma NewIs(id: string, org: string, project: Option<string>, name: string, config: Dict, sid: string)
    ensures var r := NewRow(id, org, project, name, config, sid);
            Is(r, org, project, sid) && Tagged(r, org, project, sid) && r.name == name
  {
  }

  lemma UpsertGrows(base: seq<Row>, mint: nat -> string, rows: seq<Row>, next: nat, org: string,
                    project: Option<string>, name: string, config: Dict, sid: string)
    requires Grown(base, rows, org, project)
    ensures var u := Upsert(mint, rows, next, org, project, name, config, sid);
            && Grown(base, u.rows, org, project)
            && u.rows == if u.created then rows + [NewRow(mint(next), org, project, name, config, sid)] else rows
  {
    if Find(rows, org, project, sid) == None {
      NewIs(mint(next), org, project, name, config, sid);
      GrowsBy(base, rows, NewRow(mint(next), org, project, name, config, sid), org, project, sid);
    }
  }

  // ----- queries -----

  /** The keys a seed goes through are those that are needed. */
  lemma KeysAreNeeded(fx: Fixture, key: string)
    ensures key in Keys(fx) <==> Needed(fx, key)
  {
    CollectedFromOne(SpecsOf(fx.boards), key);
    forall i | 0 <= i < |fx.boards| ensures SpecsOf(fx.boards)[i] == fx.boards[i].spec {
    }
  }

  ghost predicate AreQueries(fx: Fixture, base: seq<Row>, rows: seq<Row>, org: string, project: Option<string>,
                             datastore: string) {
    forall j :: |base| <= j < |rows| ==> IsSomeQuery(fx, rows[j], org, project, datastore)
  }

  ghost predicate IsSomeQuery(fx: Fixture, r: Row, org: string, project: Option<string>, datastore: string) {
    exists key :: Needed(fx, key) && IsQueryRow(fx.queries[key], key, r, org, project, datastore)
  }

  lemma NewIsQuery(q: QueryFixture, key: string, id: string, org: string, project: Option<string>, datastore: string)
    ensures IsQueryRow(q, key, NewRow(id, org, project, q.name, QueryConfigFor(q, datastore), QueryId(key)), org,
                       project, datastore)
  {
  }

  /** What a seed of the first `n` queries adds to a table. */
  ghost predicate QueriesAdded(fx: Fixture, base: seq<Row>, r: Seeded, org: string, project: Option<string>,
                               datastore: string) {
    && Grown(base, r.store.queries, org, project) && AreQueries(fx, base, r.store.queries, org, project, datastore)
    && r.created == |r.store.queries| - |base|
  }

  lemma QueryAdded(mint: nat -> string, fx: Fixture, s: Store, org: string, project: Option<string>,
                   ds: string, keys: seq<string>, n: nat)
    requires 0 < n <= |keys| && forall i :: 0 <= i < |keys| ==> keys[i] in fx.queries
    requires Needed(fx, keys[n - 1])
    requires QueriesAdded(fx, s.queries, SeedQueries(mint, fx, s, org, project, ds, keys, n - 1), org, project, ds)
    ensures QueriesAdded(fx, s.queries, SeedQueries(mint, fx, s, org, project, ds, keys, n), org, project, ds)
  {
    var before := SeedQueries(mint, fx, s, org, project, ds, keys, n - 1);
    var key := keys[n - 1];
    var q := fx.queries[key];
    var rows, next := before.store.queries, before.store.next;
    UpsertGrows(s.queries, mint, rows, next, org, project, q.name, QueryConfigFor(q, ds), QueryId(key));
    NewIsQuery(q, key, mint(next), org, project, ds);
  }

  lemma {:induction false} AllQueriesAdded(mint: nat -> string, fx: Fixture, s: Store, org: string,
                                           project: Option<string>, ds: string, keys: seq<string>, n: nat)
    requires n <= |keys| && forall i :: 0 <= i < |keys| ==> keys[i] in fx.queries && Needed(fx, keys[i])
    ensures QueriesAdded(fx, s.queries, SeedQueries(mint, fx, s, org, project, ds, keys, n), org, project, ds)
  {
    if n > 0 {
      AllQueriesAdded(mint, fx, s, org, project, ds, keys, n - 1);
      QueryAdded(mint, fx, s, org, project, ds, keys, n);
    }
  }

  // ----- boards -----

  ghost predicate IsSomeBoard(p: Place, r: Row) {
    exists i :: 0 <= i < |p.fx.boards| && IsBoardRow(p, p.fx.boards[i], r)
  }

  ghost predicate AreBoards(p: Place, base: seq<Row>, rows: seq<Row>) {
    forall j :: |base| <= j < |rows| ==> IsSomeBoard(p, rows[j])
  }

  lemma NewIsBoard(p: Place, f: BoardFixture, id: string, idmap: map<string, string>)
    requires Filled(p, f.spec, Resolve(f.spec, idmap))
    ensures IsBoardRow(p, f, NewRow(id, p.org, p.project, f.name, BoardConfig(f, idmap), BoardId(f.seedId)))
  {
  }

  ghost predicate BoardsAdded(p: Place, base: seq<Row>, r: Boarded) {
    && Grown(base, r.store.boards, p.org, p.project) && AreBoards(p, base, r.store.boards)
    && r.created == |r.store.boards| - |base|
  }

  lemma BoardAdded(mint: nat -> string, p: Place, s: Store, idmap: map<string, string>, n: nat)
    requires 0 < n <= |p.fx.boards| && Filled(p, p.fx.boards[n - 1].spec, Resolve(p.fx.boards[n - 1].spec, idmap))
    requires BoardsAdded(p, s.boards, SeedBoards(mint, p.fx, s, p.org, p.project, idmap, n - 1))
    ensures BoardsAdded(p, s.boards, SeedBoards(mint, p.fx, s, p.org, p.project, idmap, n))
  {
    var before := SeedBoards(mint, p.fx, s, p.org, p.project, idmap, n - 1);
    var f := p.fx.boards[n - 1];
    var rows, next := before.store.boards, before.store.next;
    UpsertGrows(s.boards, mint, rows, next, p.org, p.project, f.name, BoardConfig(f, idmap), BoardId(f.seedId));
    NewIsBoard(p, f, mint(next), idmap);
  }

  lemma {:induction false} AllBoardsAdded(mint: nat -> string, p: Place, s: Store, idmap: map<string, string>, n: nat)
    requires n <= |p.fx.boards|
    requires forall i :: 0 <= i < n ==> Filled(p, p.fx.boards[i].spec, Resolve(p.fx.boards[i].spec, idmap))
    ensures BoardsAdded(p, s.boards, SeedBoards(mint, p.fx, s, p.org, p.project, idmap, n))
  {
    if n > 0 {
      AllBoardsAdded(mint, p, s, idmap, n - 1);
      BoardAdded(mint, p, s, idmap, n);
    }
  }

  /** Resolving through the rows of the scope fills every board from the scope. */
  lemma ScopeFills(fx: Fixture, s: Store, org: string, project: Option<string>, i: nat)
    requires Complete(fx, s, org, project) && i < |fx.boards|
    ensures Filled(Place(fx, s.queries, s.datastores, org, project, false), fx.boards[i].spec,
                   Resolve(fx.boards[i].spec, IdMap(fx, s, org, project)))
  {
    var p, idmap := Place(fx, s.queries, s.datastores, org, project, false), IdMap(fx, s, org, project);
    forall k | k in References(fx.boards[i].spec) ensures PointsAt(p, k, ValueOf(idmap, k)) {
      IdMapHolds(fx, s, org, project, i, k);
      var found := FoundFor(fx, s, org, project, k);
      if k == "sample_datastore" {
        assert Offers(p, found.value, DATASTORE_ID);
      } else if k in fx.queries {
        assert Offers(p, found.value, QueryId(k));
      }
    }
    FilledExactly(p, fx.boards[i].spec, idmap);
  }

  lemma {:induction false} BoardIdsAre(rows: seq<Row>, org: string, project: Option<string>, fx: Fixture, n: nat,
                                       i: nat)
    requires i < n <= |fx.boards| && BoardsFound(rows, org, project, fx, n)
    ensures var ids := BoardIds(rows, org, project, fx, n);
            |ids| == n && ids[i] == Find(rows, org, project, BoardId(fx.boards[i].seedId)).value.id
  {
    if i < n - 1 {
      BoardIdsAre(rows, org, project, fx, n - 1, i);
    } else if n > 1 {
      BoardIdsAre(rows, org, project, fx, n - 1, 0);
    }
  }

  // ----- one seed -----

  /**
   * The datastore of a seed: the one there is, or one new row with the fixture's configuration. Its identifier
   * is what the queries are made to read from.
   */
  lemma DatastoreExactly(mint: nat -> string, fx: Fixture, s: Store, org: string, project: Option<string>)
    ensures var t, id := Seed(mint, fx, s, org, project).store, SeedDatastore(mint, fx, s, org, project).id;
            && Find(t.datastores, org, project, "sample:datastore:duckdb").Some?
            && Find(t.datastores, org, project, "sample:datastore:duckdb").value.id == id
            && (Find(s.datastores, org, project, "sample:datastore:duckdb").Some? ==> t.datastores == s.datastores)
            && (Find(s.datastores, org, project, "sample:datastore:duckdb").None? ==>
                  |t.datastores| == |s.datastores| + 1 && t.datastores[..|s.datastores|] == s.datastores
                  && IsDatastoreRow(fx, t.datastores[|s.datastores|], org, project))
  {
    TablesOf(mint, fx, s, org, project);
    DatastoreUpserted(mint, fx, s, org, project);
  }

  lemma DatastoreUpserted(mint: nat -> string, fx: Fixture, s: Store, org: string, project: Option<string>)
    ensures var ds, was := SeedDatastore(mint, fx, s, org, project), Find(s.datastores, org, project, DATASTORE_ID);
            && Find(ds.rows, org, project, DATASTORE_ID).Some?
            && Find(ds.rows, org, project, DATASTORE_ID).value.id == ds.id
            && (was.Some? ==> ds.rows == s.datastores)
            && (was.None? ==>
                  |ds.rows| == |s.datastores| + 1 && ds.rows[..|s.datastores|] == s.datastores
                  && IsDatastoreRow(fx, ds.rows[|s.datastores|], org, project))
  {
    UpsertFinds(mint, s.datastores, s.next, org, project, "Sample", fx.datastore, DATASTORE_ID);
  }

  /** Which phase of a seed touches which table. */
  lemma TablesOf(mint: nat -> string, fx: Fixture, s: Store, org: string, project: Option<string>)
    ensures var t, ds := Seed(mint, fx, s, org, project).store, SeedDatastore(mint, fx, s, org, project);
            var mid := BeforeBoards(mint, fx, s, org, project, |Keys(fx)|).store;
            && t.datastores == ds.rows && mid.datastores == ds.rows && t.queries == mid.queries
            && mid.boards == s.boards
            && Complete(fx, mid, org, project)
  {
    var k := |Keys(fx)|;
    KeysAreKnown(fx);
    var ds := SeedDatastore(mint, fx, s, org, project);
    var mid := BeforeBoards(mint, fx, s, org, project, k);
    BeforeBoardsFacts(mint, fx, s, org, project, k);
    QueriesAreThere(mint, fx, AfterDatastore(s, ds), org, project, ds.id, Keys(fx), k);
    SeedIsTwoPhases(mint, fx, s, org, project, k, |fx.boards|);
    BoardsAreThere(mint, fx, mid.store, org, project, IdMap(fx, mid.store, org, project), |fx.boards|);
  }

  lemma AllNeeded(fx: Fixture)
    ensures forall i :: 0 <= i < |Keys(fx)| ==> Keys(fx)[i] in fx.queries && Needed(fx, Keys(fx)[i])
  {
    forall i | 0 <= i < |Keys(fx)| ensures Keys(fx)[i] in fx.queries && Needed(fx, Keys(fx)[i]) {
      KeysAreNeeded(fx, Keys(fx)[i]);
      assert Keys(fx)[i] in Keys(fx);
    }
  }

  /**
   * The queries of a seed: each needed one is there afterwards; what was added are rows of needed queries with the
   * fixture's name, statement, parameters and metric, reading from the seed's datastore, each under an
   * identifier that was missing.
   */
  lemma QueriesExactly(mint: nat -> string, fx: Fixture, s: Store, org: string, project: Option<string>)
    ensures var t, ds := Seed(mint, fx, s, org, project).store, SeedDatastore(mint, fx, s, org, project).id;
            && Grown(s.queries, t.queries, org, project) && AreQueries(fx, s.queries, t.queries, org, project, ds)
            && forall key :: Needed(fx, key) ==> Find(t.queries, org, project, "sample:query:" + key).Some?
  {
    var t, ds := Seed(mint, fx, s, org, project).store, SeedDatastore(mint, fx, s, org, project);
    AllNeeded(fx);
    TablesOf(mint, fx, s, org, project);
    AllQueriesAdded(mint, fx, AfterDatastore(s, ds), org, project, ds.id, Keys(fx), |Keys(fx)|);
    forall key | Needed(fx, key) ensures Find(t.queries, org, project, "sample:query:" + key).Some? {
      NeededIsThere(fx, t.queries, org, project, key);
    }
  }

  lemma NeededIsThere(fx: Fixture, rows: seq<Row>, org: string, project: Option<string>, key: string)
    requires Needed(fx, key) && AllFound(rows, org, project, Keys(fx), |Keys(fx)|)
    ensures Find(rows, org, project, "sample:query:" + key).Some?
  {
    KeysAreNeeded(fx, key);
    var i :| 0 <= i < |Keys(fx)| && Keys(fx)[i] == key;
    assert Find(rows, org, project, QueryId(Keys(fx)[i])).Some?;
  }

  /**
   * The boards of a seed: each fixture's is there afterwards, under the identifier returned for it; what was added
   * are boards of fixtures with their names, filled from the scope, each under an identifier that was missing.
   */
  lemma BoardsExactly(mint: nat -> string, fx: Fixture, s: Store, org: string, project: Option<string>)
    ensures var r := Seed(mint, fx, s, org, project);
            var t := r.store;
            && Grown(s.boards, t.boards, org, project)
            && AreBoards(Place(fx, t.queries, t.datastores, org, project, false), s.boards, t.boards)
            && |r.ids| == |fx.boards|
            && forall i :: 0 <= i < |fx.boards| ==>
                 var found := Find(t.boards, org, project, "sample:" + fx.boards[i].seedId);
                 found.Some? && found.value.id == r.ids[i]
  {
    var n, r := |fx.boards|, Seed(mint, fx, s, org, project);
    var mid := BeforeBoards(mint, fx, s, org, project, |Keys(fx)|).store;
    TablesOf(mint, fx, s, org, project);
    SeedIsTwoPhases(mint, fx, s, org, project, |Keys(fx)|, n);
    var idmap, p := IdMap(fx, mid, org, project), Place(fx, mid.queries, mid.datastores, org, project, false);
    forall i | 0 <= i < n ensures Filled(p, fx.boards[i].spec, Resolve(fx.boards[i].spec, idmap)) {
      ScopeFills(fx, mid, org, project, i);
    }
    AllBoardsAdded(mint, p, mid, idmap, n);
    BoardsAreThere(mint, fx, mid, org, project, idmap, n);
    IdsAreFound(r.store.boards, org, project, fx, r.ids);
  }

  lemma IdsAreFound(rows: seq<Row>, org: string, project: Option<string>, fx: Fixture, ids: seq<string>)
    requires BoardsFound(rows, org, project, fx, |fx.boards|)
    requires ids == BoardIds(rows, org, project, fx, |fx.boards|)
    ensures |ids| == |fx.boards|
    ensures forall i :: 0 <= i < |fx.boards| ==>
              var found := Find(rows, org, project, "sample:" + fx.boards[i].seedId);
              found.Some? && found.value.id == ids[i]
  {
    forall i | 0 <= i < |fx.boards|
      ensures |ids| == |fx.boards|
      ensures Find(rows, org, project, "sample:" + fx.boards[i].seedId).Some?
      ensures Find(rows, org, project, "sample:" + fx.boards[i].seedId).value.id == ids[i]
    {
      BoardIdsAre(rows, org, project, fx, |fx.boards|, i);
      assert BoardId(fx.boards[i].seedId) == "sample:" + fx.boards[i].seedId;
    }
  }

  /** A seed reports as created what it has added to the three tables. */
  lemma CreatedExactly(mint: nat -> string, fx: Fixture, s: Store, org: string, project: Option<string>)
    ensures var r := Seed(mint, fx, s, org, project);
            r.created == (|r.store.datastores| - |s.datastores|) + (|r.store.queries| - |s.queries|)
                         + (|r.store.boards| - |s.boards|)
  {
    var n, k, r := |fx.boards|, |Keys(fx)|, Seed(mint, fx, s, org, project);
    var ds, mid := SeedDatastore(mint, fx, s, org, project), BeforeBoards(mint, fx, s, org, project, k);
    AllNeeded(fx);
    TablesOf(mint, fx, s, org, project);
    AllQueriesAdded(mint, fx, AfterDatastore(s, ds), org, project, ds.id, Keys(fx), k);
    BeforeBoardsFacts(mint, fx, s, org, project, k);
    var idmap := IdMap(fx, mid.store, org, project);
    var p := Place(fx, mid.store.queries, mid.store.datastores, org, project, false);
    forall i | 0 <= i < n ensures Filled(p, fx.boards[i].spec, Resolve(fx.boards[i].spec, idmap)) {
      ScopeFills(fx, mid.store, org, project, i);
    }
    AllBoardsAdded(mint, p, mid.store, idmap, n);
    UpsertGrows(s.datastores, mint, s.datastores, s.next, org, project, "Sample", fx.datastore, DATASTORE_ID);
  }

  // ----- scopes -----

  /** A row tagged as a sample, of this organisation and, if one is given, of this project. */
  predicate IsScoped(r: Row, org: string, project: Option<string>) {
    r.org == org && (project.Some? ==> r.project == project) && Get(r.config, "sample") == JBool(true)
  }

  /** The search finds the first row tagged as a sample of the scope under the identifier, or there is none. */
  lemma {:induction false} FoundIsFirst(rows: seq<Row>, org: string, project: Option<string>, sid: string)
    ensures var found := Find(rows, org, project, sid);
            found.Some? ==> exists i: nat :: IsFirst(rows, i, found.value, org, project, sid)
    ensures Find(rows, org, project, sid).None? ==>
              forall r :: r in rows && IsScoped(r, org, project) ==> Get(r.config, "sample_id") != JString(sid)
  {
    if rows != [] {
      FoundIsFirst(rows[1..], org, project, sid);
      if Is(rows[0], org, project, sid) {
        assert Find(rows, org, project, sid) == Some(rows[0]);
        assert IsFirst(rows, 0, rows[0], org, project, sid);
      } else if Find(rows[1..], org, project, sid).Some? {
        var r := Find(rows[1..], org, project, sid).value;
        var i: nat :| IsFirst(rows[1..], i, r, org, project, sid);
        forall j | 0 <= j < i + 1 && IsScoped(rows[j], org, project)
          ensures Get(rows[j].config, "sample_id") != JString(sid)
        {
          assert j > 0 ==> rows[j] == rows[1..][j - 1];
        }
        assert Find(rows, org, project, sid) == Some(r);
        assert IsFirst(rows, i + 1, r, org, project, sid);
      } else {
        assert Find(rows, org, project, sid) == None;
        forall r | r in rows && IsScoped(r, org, project) ensures Get(r.config, "sample_id") != JString(sid) {
          if r != rows[0] {
            assert r in rows[1..];
          }
        }
      }
    }
  }

  predicate IsFirst(rows: seq<Row>, i: nat, r: Row, org: string, project: Option<string>, sid: string) {
    && i < |rows| && rows[i] == r && IsScoped(r, org, project) && Get(r.config, "sample_id") == JString(sid)
    && forall j :: 0 <= j < i && IsScoped(rows[j], org, project) ==> Get(rows[j].config, "sample_id") != JString(sid)
  }

  lemma {:induction false} NotSamplesHold(rows: seq<Row>, org: string, project: Option<string>, r: Row)
    ensures r in NotSamples(rows, org, project) <==> r in rows && !IsScoped(r, org, project)
    ensures |NotSamples(rows, org, project)| + |SampleRows(rows, org, project)| == |rows|
  {
    if rows != [] {
      NotSamplesHold(rows[1..], org, project, r);
      assert r in rows <==> r == rows[0] || r in rows[1..];
    }
  }

  /** A removal deletes as many rows as it counts, those of the scope, and no row of another one. */
  lemma RemovedExactly(rows: seq<Row>, org: string, project: Option<string>, r: Row)
    requires UniqueIds(rows)
    ensures var count := |SampleRows(rows, org, project)|;
            && (r in RemoveFirst(rows, org, project, count) <==> r in rows && !IsScoped(r, org, project))
            && |RemoveFirst(rows, org, project, count)| + count == |rows|
  {
    RemoveIsExact(rows, org, project);
    NotSamplesHold(rows, org, project, r);
  }

  /** The samples of the scope are gone from a table, in which nothing else has changed. */
  ghost predicate Cleared(before: seq<Row>, after: seq<Row>, org: string, project: Option<string>) {
    forall r :: r in after <==> r in before && !IsScoped(r, org, project)
  }

  /** A removal that is not cut short clears all three tables of the scope. */
  lemma RemovalClears(s: Store, org: string, project: Option<string>)
    requires UniqueIds(s.boards) && UniqueIds(s.queries) && UniqueIds(s.datastores)
    ensures var t := RemovePart(s, org, project, |SampleRows(s.boards, org, project)|,
                                |SampleRows(s.queries, org, project)|, |SampleRows(s.datastores, org, project)|);
            && Cleared(s.boards, t.boards, org, project) && Cleared(s.queries, t.queries, org, project)
            && Cleared(s.datastores, t.datastores, org, project) && t.next == s.next
  {
    TableClears(s.boards, org, project);
    TableClears(s.queries, org, project);
    TableClears(s.datastores, org, project);
  }

  lemma TableClears(rows: seq<Row>, org: string, project: Option<string>)
    requires UniqueIds(rows)
    ensures Cleared(rows, RemoveFirst(rows, org, project, |SampleRows(rows, org, project)|), org, project)
  {
    forall r
      ensures r in RemoveFirst(rows, org, project, |SampleRows(rows, org, project)|)
              <==> r in rows && !IsScoped(r, org, project)
    {
      RemovedExactly(rows, org, project, r);
    }
  }
}
