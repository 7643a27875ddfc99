/** The sample bundle of backend/app/sample.py: seeding and removing datastore, queries and boards in a row store. */
module Sample {
  import opened Names
  import opened Placeholders
  import opened Portable
  import opened Wrappers

  datatype Row = Row(id: string, org: string, project: Option<string>, name: string, config: Dict)

  /** The three tables in creation order, and how many identifiers have been minted. */
  datatype Store = Store(boards: seq<Row>, queries: seq<Row>, datastores: seq<Row>, next: nat)

  datatype QueryFixture = QueryFixture(name: string, sql: Json, params: Json, metric: Json)
  datatype BoardFixture = BoardFixture(seedId: string, name: string, spec: Json)
  datatype Fixture = Fixture(datastore: Dict, queries: map<string, QueryFixture>, boards: seq<BoardFixture>)

  const DATASTORE_ID := "sample:datastore:duckdb"

  function QueryId(key: string): string {
    "sample:query:" + key
  }

  function BoardId(seedId: string): string {
    "sample:" + seedId
  }

  /** `mint` gives every new row its identifier. */
  ghost predicate Minting(mint: nat -> string) {
    forall a, b :: mint(a) == mint(b) ==> a == b
  }

  // ----- finding and creating rows -----

  predicate InScope(r: Row, org: string, project: Option<string>) {
    r.org == org && (project == None || r.project == project)
  }

  predicate IsSample(r: Row) {
    Get(r.config, "sample") == JBool(true)
  }

  predicate Is(r: Row, org: string, project: Option<string>, sid: string) {
    InScope(r, org, project) && IsSample(r) && Get(r.config, "sample_id") == JString(sid)
  }

  /** `_find_sample`: the first such row, in creation order. */
  function Find(rows: seq<Row>, org: string, project: Option<string>, sid: string): (r: Option<Row>)
    ensures r.Some? ==> r.value in rows && Is(r.value, org, project, sid)
  {
    if rows == [] then None
    else if Is(rows[0], org, project, sid) then Some(rows[0])
    else Find(rows[1..], org, project, sid)
  }

  method FindSample(rows: seq<Row>, org: string, project: Option<string>, sid: string) returns (r: Option<Row>)
    ensures r == Find(rows, org, project, sid)
  {
    for i := 0 to |rows|
      invariant Find(rows, org, project, sid) == Find(rows[i..], org, project, sid)
    {
      assert rows[i..][1..] == rows[i + 1..];
      if Is(rows[i], org, project, sid) {
        return Some(rows[i]);
      }
    }
    assert rows[|rows|..] == [];
    r := None;
  }

  datatype Upserted = Upserted(rows: seq<Row>, next: nat, id: string, created: bool)

  function NewRow(id: string, org: string, project: Option<string>, name: string, config: Dict, sid: string): Row {
    Row(id, org, project, name, config["sample" := JBool(true)]["sample_id" := JString(sid)])
  }

  /** `_upsert` */
  function Upsert(mint: nat -> string, rows: seq<Row>, next: nat, org: string, project: Option<string>,
                  name: string, config: Dict, sid: string): Upserted
  {
    match Find(rows, org, project, sid)
    case Some(r) => Upserted(rows, next, r.id, false)
    case None => Upserted(rows + [NewRow(mint(next), org, project, name, config, sid)], next + 1, mint(next), true)
  }

  // ----- seeding -----

  function SpecsOf(boards: seq<BoardFixture>): (r: seq<Json>)
    ensures |r| == |boards|
  {
    seq(|boards|, i requires 0 <= i < |boards| => boards[i].spec)
  }

  /** The keys to seed: what the boards refer to and what carries a metric; unknown keys are skipped. */
  function Keys(fx: Fixture): seq<string> {
    Sorted(KeySet(fx))
  }

  function KeySet(fx: Fixture): set<string> {
    set k | k in fx.queries && (k in ReferencesOf(SpecsOf(fx.boards)) || Truthy(fx.queries[k].metric))
  }

  lemma KeysAreKnown(fx: Fixture)
    ensures forall i :: 0 <= i < |Keys(fx)| ==> Keys(fx)[i] in fx.queries
  {
    forall i | 0 <= i < |Keys(fx)| ensures Keys(fx)[i] in fx.queries {
      assert Keys(fx)[i] in Keys(fx);
    }
  }

  function QueryConfigFor(q: QueryFixture, datastoreId: string): Dict {
    var config: Dict := map["sql" := q.sql, "datastore_id" := JString(datastoreId), "params" := q.params];
    Optional(config, "metric", q.metric, Truthy(q.metric))
  }

  datatype Seeded = Seeded(store: Store, idmap: map<string, string>, created: nat)

  function SeedDatastore(mint: nat -> string, fx: Fixture, s: Store, org: string, project: Option<string>): Upserted {
    Upsert(mint, s.datastores, s.next, org, project, "Sample", fx.datastore, DATASTORE_ID)
  }

  function AfterDatastore(s: Store, u: Upserted): Store {
    s.(datastores := u.rows, next := u.next)
  }

  /** The first `n` keys: each query is created unless it is there, and its identifier noted under its placeholder. */
  function SeedQueries(mint: nat -> string, fx: Fixture, s: Store, org: string, project: Option<string>,
                       datastoreId: string, keys: seq<string>, n: nat): Seeded
    requires n <= |keys| && forall i :: 0 <= i < |keys| ==> keys[i] in fx.queries
  {
    if n == 0 then Seeded(s, map[], 0)
    else
      var before := SeedQueries(mint, fx, s, org, project, datastoreId, keys, n - 1);
      var key := keys[n - 1];
      var q := fx.queries[key];
      var u := Upsert(mint, before.store.queries, before.store.next, org, project, q.name,
                      QueryConfigFor(q, datastoreId), QueryId(key));
      Seeded(before.store.(queries := u.rows, next := u.next), before.idmap["@" + key := u.id],
             before.created + if u.created then 1 else 0)
  }

  function BoardConfig(b: BoardFixture, idmap: map<string, string>): Dict {
    map["spec" := Resolve(b.spec, idmap)]
  }

  datatype Boarded = Boarded(store: Store, ids: seq<string>, created: nat)

  /** The first `n` boards, placeholders resolved. */
  function SeedBoards(mint: nat -> string, fx: Fixture, s: Store, org: string, project: Option<string>,
                      idmap: map<string, string>, n: nat): Boarded
    requires n <= |fx.boards|
  {
    if n == 0 then Boarded(s, [], 0)
    else
      var before := SeedBoards(mint, fx, s, org, project, idmap, n - 1);
      var b := fx.boards[n - 1];
      var u := Upsert(mint, before.store.boards, before.store.next, org, project, b.name,
                      BoardConfig(b, idmap), BoardId(b.seedId));
      Boarded(before.store.(boards := u.rows, next := u.next), before.ids + [u.id],
              before.created + if u.created then 1 else 0)
  }

  /** A seed that gets as far as `k` queries and, if those are all, `n` boards. */
  function SeedPart(mint: nat -> string, fx: Fixture, s: Store, org: string, project: Option<string>, k: nat,
                    n: nat): Boarded
    requires k <= |Keys(fx)| && n <= |fx.boards| && (n > 0 ==> k == |Keys(fx)|)
  {
    KeysAreKnown(fx);
    var ds := SeedDatastore(mint, fx, s, org, project);
    var q := SeedQueries(mint, fx, AfterDatastore(s, ds), org, project, ds.id, Keys(fx), k);
    var b := SeedBoards(mint, fx, q.store, org, project, q.idmap["@sample_datastore" := ds.id], n);
    b.(created := (if ds.created then 1 else 0) + q.created + b.created)
  }

  function Seed(mint: nat -> string, fx: Fixture, s: Store, org: string, project: Option<string>): Boarded {
    SeedPart(mint, fx, s, org, project, |Keys(fx)|, |fx.boards|)
  }

  // ----- removing -----

  function SampleRows(rows: seq<Row>, org: string, project: Option<string>): seq<Row> {
    if rows == [] then []
    else if InScope(rows[0], org, project) && IsSample(rows[0]) then [rows[0]] + SampleRows(rows[1..], org, project)
    else SampleRows(rows[1..], org, project)
  }

  function Without(rows: seq<Row>, ids: set<string>): seq<Row> {
    if rows == [] then []
    else if rows[0].id in ids then Without(rows[1..], ids)
    else [rows[0]] + Without(rows[1..], ids)
  }

  function Ids(rows: seq<Row>): set<string> {
    set i | 0 <= i < |rows| :: rows[i].id
  }

  /** A table after the first `n` of its sample rows in scope have been deleted. */
  function RemoveFirst(rows: seq<Row>, org: string, project: Option<string>, n: nat): seq<Row>
    requires n <= |SampleRows(rows, org, project)|
  {
    Without(rows, Ids(SampleRows(rows, org, project)[..n]))
  }

  /** A removal that deletes `b` boards, then, if those are all, `q` queries, then `d` datastores. */
  predicate CanRemove(s: Store, org: string, project: Option<string>, b: nat, q: nat, d: nat) {
    && b <= |SampleRows(s.boards, org, project)| && q <= |SampleRows(s.queries, org, project)|
    && d <= |SampleRows(s.datastores, org, project)|
    && (q > 0 ==> b == |SampleRows(s.boards, org, project)|)
    && (d > 0 ==> b == |SampleRows(s.boards, org, project)| && q == |SampleRows(s.queries, org, project)|)
  }

  function RemovePart(s: Store, org: string, project: Option<string>, b: nat, q: nat, d: nat): Store
    requires CanRemove(s, org, project, b, q, d)
  {
    s.(boards := RemoveFirst(s.boards, org, project, b),
       queries := RemoveFirst(s.queries, org, project, q),
       datastores := RemoveFirst(s.datastores, org, project, d))
  }

  // ----- the loops -----

  /** `repo.delete` on one table. */
  method Delete(rows: seq<Row>, id: string) returns (left: seq<Row>, deleted: bool)
    ensures left == Without(rows, {id}) && (deleted <==> id in Ids(rows))
  {
    deleted := exists i :: 0 <= i < |rows| && rows[i].id == id;
    left := Without(rows, {id});
  }

  /** One table of `remove_sample_bundle`. */
  method RemoveSamples(rows: seq<Row>, org: string, project: Option<string>) returns (left: seq<Row>, count: nat)
    requires UniqueIds(rows)
    ensures left == RemoveFirst(rows, org, project, |SampleRows(rows, org, project)|)
    ensures count == |SampleRows(rows, org, project)|
  {
    var listed := SampleRows(rows, org, project);
    left, count := rows, 0;
    WithoutNothing(rows);
    assert Ids(listed[..0]) == {};
    for i := 0 to |listed|
      invariant left == Without(rows, Ids(listed[..i])) && count == i
    {
      RemoveStep(rows, listed, i);
      StillThere(rows, org, project, i);
      var deleted;
      left, deleted := Delete(left, listed[i].id);
      if deleted {
        count := count + 1;
      }
    }
  }

  /** The row store. */
  class Repo {
    var boards: seq<Row>
    var queries: seq<Row>
    var datastores: seq<Row>
    var next: nat

    function View(): Store
      reads this
    {
      Store(boards, queries, datastores, next)
    }

    constructor ()
      ensures View() == Store([], [], [], 0)
    {
      boards, queries, datastores, next := [], [], [], 0;
    }

    /** `remove_sample_bundle`, tables in the order boards, queries, datastores. */
    method RemoveSampleBundle(org: string, project: Option<string>) returns (counts: (nat, nat, nat))
      requires UniqueIds(boards) && UniqueIds(queries) && UniqueIds(datastores)
      modifies this
      ensures var s := old(View());
              && counts == (|SampleRows(s.boards, org, project)|, |SampleRows(s.queries, org, project)|,
                            |SampleRows(s.datastores, org, project)|)
              && View() == RemovePart(s, org, project, counts.0, counts.1, counts.2)
    {
      var b, q, d;
      boards, b := RemoveSamples(boards, org, project);
      queries, q := RemoveSamples(queries, org, project);
      datastores, d := RemoveSamples(datastores, org, project);
      counts := (b, q, d);
    }

    method CreateQueries(mint: nat -> string, fx: Fixture, org: string, project: Option<string>,
                         datastoreId: string, keys: seq<string>)
      returns (idmap: map<string, string>, created: nat)
      requires forall i :: 0 <= i < |keys| ==> keys[i] in fx.queries
      modifies this
      ensures Seeded(View(), idmap, created)
              == SeedQueries(mint, fx, old(View()), org, project, datastoreId, keys, |keys|)
    {
      idmap, created := map[], 0;
      for i := 0 to |keys|
        invariant Seeded(View(), idmap, created)
                  == SeedQueries(mint, fx, old(View()), org, project, datastoreId, keys, i)
      {
        var q := fx.queries[keys[i]];
        var u := Upsert(mint, queries, next, org, project, q.name, QueryConfigFor(q, datastoreId), QueryId(keys[i]));
        queries, next := u.rows, u.next;
        idmap := idmap["@" + keys[i] := u.id];
        created := created + if u.created then 1 else 0;
      }
    }

    method CreateBoards(mint: nat -> string, fx: Fixture, org: string, project: Option<string>,
                        idmap: map<string, string>)
      returns (ids: seq<string>, created: nat)
      modifies this
      ensures Boarded(View(), ids, created) == SeedBoards(mint, fx, old(View()), org, project, idmap, |fx.boards|)
    {
      ids, created := [], 0;
      for i := 0 to |fx.boards|
        invariant Boarded(View(), ids, created) == SeedBoards(mint, fx, old(View()), org, project, idmap, i)
      {
        var b := fx.boards[i];
        var spec := Resolve(b.spec, idmap);
        var u := Upsert(mint, boards, next, org, project, b.name, map["spec" := spec], BoardId(b.seedId));
        boards, next := u.rows, u.next;
        ids := ids + [u.id];
        created := created + if u.created then 1 else 0;
      }
    }

    /** The datastore, query and board part of `seed_sample_bundle`. */
    method SeedSampleBundle(mint: nat -> string, fx: Fixture, org: string, project: Option<string>)
      returns (datastoreId: string, boardIds: seq<string>, created: nat)
      modifies this
      ensures datastoreId == SeedDatastore(mint, fx, old(View()), org, project).id
      ensures Boarded(View(), boardIds, created) == Seed(mint, fx, old(View()), org, project)
    {
      KeysAreKnown(fx);
      var ds := Upsert(mint, datastores, next, org, project, "Sample", fx.datastore, DATASTORE_ID);
      datastores, next := ds.rows, ds.next;
      var idmap, queryCount := CreateQueries(mint, fx, org, project, ds.id, Keys(fx));
      idmap := idmap["@sample_datastore" := ds.id];
      var ids, boardCount := CreateBoards(mint, fx, org, project, idmap);
      return ds.id, ids, (if ds.created then 1 else 0) + queryCount + boardCount;
    }
  }

  ghost predicate UniqueIds(rows: seq<Row>) {
    forall i, j :: 0 <= i < j < |rows| ==> rows[i].id != rows[j].id
  }

  lemma {:induction false} WithoutNothing(rows: seq<Row>)
    ensures Without(rows, {}) == rows
  {
    if rows != [] {
      WithoutNothing(rows[1..]);
    }
  }

  lemma {:induction false} WithoutTwice(rows: seq<Row>, a: set<string>, b: set<string>)
    ensures Without(Without(rows, a), b) == Without(rows, a + b)
  {
    if rows != [] {
      WithoutTwice(rows[1..], a, b);
      if rows[0].id !in a {
        assert Without(rows, a)[1..] == Without(rows[1..], a);
      }
    }
  }

  lemma RemoveStep(rows: seq<Row>, listed: seq<Row>, i: nat)
    requires i < |listed|
    ensures Without(Without(rows, Ids(listed[..i])), {listed[i].id}) == Without(rows, Ids(listed[..i + 1]))
  {
    WithoutTwice(rows, Ids(listed[..i]), {listed[i].id});
    IdsSnoc(listed, i);
  }

  lemma IdsSnoc(listed: seq<Row>, i: nat)
    requires i < |listed|
    ensures Ids(listed[..i + 1]) == Ids(listed[..i]) + {listed[i].id}
  {
    var a, b := listed[..i], listed[..i + 1];
    forall x ensures x in Ids(b) <==> x in Ids(a) + {listed[i].id} {
      if x in Ids(a) {
        var k :| 0 <= k < |a| && a[k].id == x;
        assert b[k].id == x;
      }
      if x == listed[i].id {
        assert b[i].id == x;
      }
      if x in Ids(b) {
        var k :| 0 <= k < |b| && b[k].id == x;
        if k < i {
          assert a[k].id == x;
        }
      }
    }
  }

  lemma {:induction false} WithoutHolds(rows: seq<Row>, ids: set<string>, r: Row)
    ensures r in Without(rows, ids) <==> r in rows && r.id !in ids
  {
    if rows != [] {
      WithoutHolds(rows[1..], ids, r);
      assert r in rows <==> r == rows[0] || r in rows[1..];
    }
  }

  lemma {:induction false} SampleRowsHold(rows: seq<Row>, org: string, project: Option<string>, r: Row)
    ensures r in SampleRows(rows, org, project) <==> r in rows && InScope(r, org, project) && IsSample(r)
  {
    if rows != [] {
      SampleRowsHold(rows[1..], org, project, r);
      assert r in rows <==> r == rows[0] || r in rows[1..];
    }
  }

  lemma {:induction false} SampleIdsUnique(rows: seq<Row>, org: string, project: Option<string>)
    requires UniqueIds(rows)
    ensures UniqueIds(SampleRows(rows, org, project))
  {
    if rows != [] {
      SampleIdsUnique(rows[1..], org, project);
      forall k | 0 <= k < |SampleRows(rows[1..], org, project)|
        ensures SampleRows(rows[1..], org, project)[k].id != rows[0].id
      {
        SampleRowsHold(rows[1..], org, project, SampleRows(rows[1..], org, project)[k]);
        var j :| 0 <= j < |rows[1..]| && rows[1..][j] == SampleRows(rows[1..], org, project)[k];
        assert rows[j + 1] == rows[1..][j];
      }
    }
  }

  /** The next listed row has not been deleted yet. */
  lemma StillThere(rows: seq<Row>, org: string, project: Option<string>, i: nat)
    requires UniqueIds(rows) && i < |SampleRows(rows, org, project)|
    ensures var listed := SampleRows(rows, org, project); listed[i].id in Ids(Without(rows, Ids(listed[..i])))
  {
    var listed := SampleRows(rows, org, project);
    SampleIdsUnique(rows, org, project);
    assert listed[i] in listed;
    SampleRowsHold(rows, org, project, listed[i]);
    forall k | 0 <= k < i ensures listed[..i][k].id != listed[i].id {
    }
    WithoutHolds(rows, Ids(listed[..i]), listed[i]);
    var left := Without(rows, Ids(listed[..i]));
    var j :| 0 <= j < |left| && left[j] == listed[i];
  }

  function NotSamples(rows: seq<Row>, org: string, project: Option<string>): seq<Row> {
    if rows == [] then []
    else if InScope(rows[0], org, project) && IsSample(rows[0]) then NotSamples(rows[1..], org, project)
    else [rows[0]] + NotSamples(rows[1..], org, project)
  }

  lemma {:induction false} WithoutIsFilter(rows: seq<Row>, org: string, project: Option<string>, ids: set<string>)
    requires forall i :: 0 <= i < |rows| ==>
               (rows[i].id in ids <==> InScope(rows[i], org, project) && IsSample(rows[i]))
    ensures Without(rows, ids) == NotSamples(rows, org, project)
  {
    if rows != [] {
      WithoutIsFilter(rows[1..], org, project, ids);
    }
  }

  /** Removing deletes exactly the sample rows of the scope and keeps all others in order. */
  lemma RemoveIsExact(rows: seq<Row>, org: string, project: Option<string>)
    requires UniqueIds(rows)
    ensures RemoveFirst(rows, org, project, |SampleRows(rows, org, project)|) == NotSamples(rows, org, project)
    ensures SampleRows(NotSamples(rows, org, project), org, project) == []
  {
    var listed := SampleRows(rows, org, project);
    assert listed[..|listed|] == listed;
    forall i | 0 <= i < |rows|
      ensures rows[i].id in Ids(listed) <==> InScope(rows[i], org, project) && IsSample(rows[i])
    {
      SampleRowsHold(rows, org, project, rows[i]);
      if rows[i] in listed {
        var k :| 0 <= k < |listed| && listed[k] == rows[i];
      }
      if rows[i].id in Ids(listed) {
        var k :| 0 <= k < |listed| && listed[k].id == rows[i].id;
        assert listed[k] in listed;
        SampleRowsHold(rows, org, project, listed[k]);
        var j :| 0 <= j < |rows| && rows[j] == listed[k];
      }
    }
    WithoutIsFilter(rows, org, project, Ids(listed));
    NothingSampled(rows, org, project);
  }

  lemma {:induction false} NothingSampled(rows: seq<Row>, org: string, project: Option<string>)
    ensures SampleRows(NotSamples(rows, org, project), org, project) == []
  {
    if rows != [] {
      NothingSampled(rows[1..], org, project);
      if !(InScope(rows[0], org, project) && IsSample(rows[0])) {
        assert NotSamples(rows, org, project)[1..] == NotSamples(rows[1..], org, project);
      }
    }
  }
}
