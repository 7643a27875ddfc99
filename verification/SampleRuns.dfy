/** What any sequence of seeds, removals and user edits keeps of the sample bundle. */
module SampleRuns {
  import opened Portable
  import opened Sample
  import opened Wrappers

  // ----- growing tables -----

  lemma {:induction false} FindGrows(rows: seq<Row>, more: seq<Row>, org: string, project: Option<string>, sid: string)
    ensures Find(rows + more, org, project, sid) ==
            if Find(rows, org, project, sid).Some? then Find(rows, org, project, sid) else Find(more, org, project, sid)
  {
    if rows == [] {
      assert rows + more == more;
    } else {
      FindGrows(rows[1..], more, org, project, sid);
      assert (rows + more)[1..] == rows[1..] + more;
    }
  }

  lemma FindStays(rows: seq<Row>, after: seq<Row>, org: string, project: Option<string>, sid: string)
    requires rows <= after && Find(rows, org, project, sid).Some?
    ensures Find(after, org, project, sid) == Find(rows, org, project, sid)
  {
    FindGrows(rows, after[|rows|..], org, project, sid);
    assert after == rows + after[|rows|..];
  }

  /** After an upsert the row is found, under the identifier it returned; the table has only grown. */
  lemma UpsertFinds(mint: nat -> string, rows: seq<Row>, next: nat, org: string, project: Option<string>,
                    name: string, config: Dict, sid: string)
    ensures var u := Upsert(mint, rows, next, org, project, name, config, sid);
            && rows <= u.rows && next <= u.next
            && Find(u.rows, org, project, sid).Some? && Find(u.rows, org, project, sid).value.id == u.id
            && (u.created <==> Find(rows, org, project, sid) == None)
            && (!u.created ==> u.rows == rows && u.next == next)
  {
    if Find(rows, org, project, sid) == None {
      var row := NewRow(mint(next), org, project, name, config, sid);
      assert Is(row, org, project, sid);
      assert Find([row], org, project, sid) == Some(row);
      FindGrows(rows, [row], org, project, sid);
    }
  }

  lemma UpsertAgain(mint: nat -> string, rows: seq<Row>, next: nat, org: string, project: Option<string>,
                    name: string, config: Dict, sid: string)
    requires Find(rows, org, project, sid).Some?
    ensures Upsert(mint, rows, next, org, project, name, config, sid)
         == Upserted(rows, next, Find(rows, org, project, sid).value.id, false)
  {
  }

  // ----- the map of placeholders -----

  /** The first `n` keys all have their query. */
  ghost predicate AllFound(rows: seq<Row>, org: string, project: Option<string>, keys: seq<string>, n: nat)
    requires n <= |keys|
  {
    forall i :: 0 <= i < n ==> Find(rows, org, project, QueryId(keys[i])).Some?
  }

  /** The placeholders of the first `n` keys with the identifiers of the rows found. */
  function MapOf(rows: seq<Row>, org: string, project: Option<string>, keys: seq<string>, n: nat): map<string, string>
    requires n <= |keys| && AllFound(rows, org, project, keys, n)
  {
    if n == 0 then map[]
    else
      var found := Find(rows, org, project, QueryId(keys[n - 1])).value;
      MapOf(rows, org, project, keys, n - 1)["@" + keys[n - 1] := found.id]
  }

  /** Finding the same rows gives the same map. */
  ghost predicate SameFinds(rows: seq<Row>, after: seq<Row>, org: string, project: Option<string>) {
    forall sid :: Find(rows, org, project, sid).Some? ==>
          Find(after, org, project, sid) == Find(rows, org, project, sid)
  }

  lemma {:induction false} MapStays(rows: seq<Row>, after: seq<Row>, org: string, project: Option<string>,
                                    keys: seq<string>, n: nat)
    requires SameFinds(rows, after, org, project) && n <= |keys| && AllFound(rows, org, project, keys, n)
    ensures AllFound(after, org, project, keys, n)
    ensures MapOf(after, org, project, keys, n) == MapOf(rows, org, project, keys, n)
  {
    if n > 0 {
      MapStays(rows, after, org, project, keys, n - 1);
      assert Find(rows, org, project, QueryId(keys[n - 1])).Some?;
    }
  }

  lemma GrowthKeepsFinds(rows: seq<Row>, after: seq<Row>, org: string, project: Option<string>)
    requires rows <= after
    ensures SameFinds(rows, after, org, project)
  {
    forall sid | Find(rows, org, project, sid).Some?
      ensures Find(after, org, project, sid) == Find(rows, org, project, sid)
    {
      FindStays(rows, after, org, project, sid);
    }
  }

  // ----- what seeding reaches -----

  lemma MapStep(rows: seq<Row>, after: seq<Row>, org: string, project: Option<string>, keys: seq<string>, n: nat,
                id: string)
    requires 0 < n <= |keys| && AllFound(rows, org, project, keys, n - 1) && rows <= after
    requires Find(after, org, project, QueryId(keys[n - 1])).Some?
             && Find(after, org, project, QueryId(keys[n - 1])).value.id == id
    ensures AllFound(after, org, project, keys, n)
    ensures MapOf(after, org, project, keys, n) == MapOf(rows, org, project, keys, n - 1)["@" + keys[n - 1] := id]
  {
    GrowthKeepsFinds(rows, after, org, project);
    MapStays(rows, after, org, project, keys, n - 1);
  }

  /** What a seed of `n` queries has reached. */
  ghost predicate QueriesReached(s: Store, r: Seeded, org: string, project: Option<string>, keys: seq<string>, n: nat)
    requires n <= |keys|
  {
    && s.queries <= r.store.queries && s.next <= r.store.next
    && r.store.boards == s.boards && r.store.datastores == s.datastores
    && AllFound(r.store.queries, org, project, keys, n) && r.idmap == MapOf(r.store.queries, org, project, keys, n)
  }

  lemma QueryReached(s: Store, before: Seeded, org: string, project: Option<string>, keys: seq<string>, n: nat,
                     u: Upserted, created: nat)
    requires 0 < n <= |keys| && QueriesReached(s, before, org, project, keys, n - 1)
    requires before.store.queries <= u.rows && before.store.next <= u.next
    requires Find(u.rows, org, project, QueryId(keys[n - 1])).Some?
             && Find(u.rows, org, project, QueryId(keys[n - 1])).value.id == u.id
    ensures QueriesReached(s,
            Seeded(before.store.(queries := u.rows, next := u.next), before.idmap["@" + keys[n - 1] := u.id], created),
                           org, project, keys, n)
  {
    MapStep(before.store.queries, u.rows, org, project, keys, n, u.id);
  }

  lemma QueriesStep(mint: nat -> string, fx: Fixture, s: Store, org: string, project: Option<string>,
                    ds: string, keys: seq<string>, n: nat)
    requires 0 < n <= |keys| && forall i :: 0 <= i < |keys| ==> keys[i] in fx.queries
    requires QueriesReached(s, SeedQueries(mint, fx, s, org, project, ds, keys, n - 1), org, project, keys, n - 1)
    ensures QueriesReached(s, SeedQueries(mint, fx, s, org, project, ds, keys, n), org, project, keys, n)
  {
    var before := SeedQueries(mint, fx, s, org, project, ds, keys, n - 1);
    var q := fx.queries[keys[n - 1]];
    var rows, next, config := before.store.queries, before.store.next, QueryConfigFor(q, ds);
    UpsertFinds(mint, rows, next, org, project, q.name, config, QueryId(keys[n - 1]));
    var u := Upsert(mint, rows, next, org, project, q.name, config, QueryId(keys[n - 1]));
    QueryReached(s, before, org, project, keys, n, u, before.created + if u.created then 1 else 0);
  }

  /** Seeding queries leaves every one of them there, and notes the identifiers under which they are found. */
  lemma {:induction false} QueriesAreThere(mint: nat -> string, fx: Fixture, s: Store, org: string,
                                           project: Option<string>, ds: string, keys: seq<string>, n: nat)
    requires n <= |keys| && forall i :: 0 <= i < |keys| ==> keys[i] in fx.queries
    ensures QueriesReached(s, SeedQueries(mint, fx, s, org, project, ds, keys, n), org, project, keys, n)
    decreases n
  {
    if n > 0 {
      QueriesAreThere(mint, fx, s, org, project, ds, keys, n - 1);
      QueriesStep(mint, fx, s, org, project, ds, keys, n);
    }
  }

  /** Seeding the first `n` queries changes nothing and finds what is there. */
  ghost predicate QueriesUnchanged(mint: nat -> string, fx: Fixture, s: Store, org: string, project: Option<string>,
                                   ds: string, keys: seq<string>, n: nat)
    requires n <= |keys| && forall i :: 0 <= i < |keys| ==> keys[i] in fx.queries
    requires AllFound(s.queries, org, project, keys, n)
  {
    SeedQueries(mint, fx, s, org, project, ds, keys, n) == Seeded(s, MapOf(s.queries, org, project, keys, n), 0)
  }

  lemma QueryUnchanged(mint: nat -> string, fx: Fixture, s: Store, org: string, project: Option<string>,
                       ds: string, keys: seq<string>, n: nat)
    requires 0 < n <= |keys| && forall i :: 0 <= i < |keys| ==> keys[i] in fx.queries
    requires AllFound(s.queries, org, project, keys, n)
    requires QueriesUnchanged(mint, fx, s, org, project, ds, keys, n - 1)
    ensures QueriesUnchanged(mint, fx, s, org, project, ds, keys, n)
  {
    var q := fx.queries[keys[n - 1]];
    UpsertAgain(mint, s.queries, s.next, org, project, q.name, QueryConfigFor(q, ds), QueryId(keys[n - 1]));
  }

  /** Where all queries are there, seeding them creates nothing and finds the same identifiers. */
  lemma {:induction false} QueriesAgain(mint: nat -> string, fx: Fixture, s: Store, org: string,
                                        project: Option<string>,
                                        ds: string, keys: seq<string>, n: nat)
    requires n <= |keys| && forall i :: 0 <= i < |keys| ==> keys[i] in fx.queries
    requires AllFound(s.queries, org, project, keys, n)
    ensures QueriesUnchanged(mint, fx, s, org, project, ds, keys, n)
    decreases n
  {
    if n > 0 {
      QueriesAgain(mint, fx, s, org, project, ds, keys, n - 1);
      QueryUnchanged(mint, fx, s, org, project, ds, keys, n);
    }
  }

  ghost predicate BoardsFound(rows: seq<Row>, org: string, project: Option<string>, fx: Fixture, n: nat)
    requires n <= |fx.boards|
  {
    forall i :: 0 <= i < n ==> Find(rows, org, project, BoardId(fx.boards[i].seedId)).Some?
  }

  function BoardIds(rows: seq<Row>, org: string, project: Option<string>, fx: Fixture, n: nat): seq<string>
    requires n <= |fx.boards| && BoardsFound(rows, org, project, fx, n)
  {
    if n == 0 then []
    else BoardIds(rows, org, project, fx, n - 1) + [Find(rows, org, project, BoardId(fx.boards[n - 1].seedId)).value.id]
  }

  lemma {:induction false} BoardIdsStay(rows: seq<Row>, after: seq<Row>, org: string, project: Option<string>,
                                        fx: Fixture, n: nat)
    requires SameFinds(rows, after, org, project) && n <= |fx.boards| && BoardsFound(rows, org, project, fx, n)
    ensures BoardsFound(after, org, project, fx, n)
    ensures BoardIds(after, org, project, fx, n) == BoardIds(rows, org, project, fx, n)
  {
    if n > 0 {
      BoardIdsStay(rows, after, org, project, fx, n - 1);
      assert Find(rows, org, project, BoardId(fx.boards[n - 1].seedId)).Some?;
    }
  }

  /** What a seed of `n` boards has reached. */
  ghost predicate BoardsReached(s: Store, r: Boarded, org: string, project: Option<string>, fx: Fixture, n: nat)
    requires n <= |fx.boards|
  {
    && s.boards <= r.store.boards && s.next <= r.store.next
    && r.store.queries == s.queries && r.store.datastores == s.datastores
    && BoardsFound(r.store.boards, org, project, fx, n) && r.ids == BoardIds(r.store.boards, org, project, fx, n)
  }

  lemma BoardIdsStep(rows: seq<Row>, after: seq<Row>, org: string, project: Option<string>, fx: Fixture, n: nat,
                     id: string)
    requires 0 < n <= |fx.boards| && BoardsFound(rows, org, project, fx, n - 1) && rows <= after
    requires Find(after, org, project, BoardId(fx.boards[n - 1].seedId)).Some?
    requires Find(after, org, project, BoardId(fx.boards[n - 1].seedId)).value.id == id
    ensures BoardsFound(after, org, project, fx, n)
    ensures BoardIds(after, org, project, fx, n) == BoardIds(rows, org, project, fx, n - 1) + [id]
  {
    GrowthKeepsFinds(rows, after, org, project);
    BoardIdsStay(rows, after, org, project, fx, n - 1);
  }

  lemma BoardReached(s: Store, before: Boarded, org: string, project: Option<string>, fx: Fixture, n: nat,
                     u: Upserted, created: nat)
    requires 0 < n <= |fx.boards| && BoardsReached(s, before, org, project, fx, n - 1)
    requires before.store.boards <= u.rows && before.store.next <= u.next
    requires Find(u.rows, org, project, BoardId(fx.boards[n - 1].seedId)).Some?
    requires Find(u.rows, org, project, BoardId(fx.boards[n - 1].seedId)).value.id == u.id
    ensures BoardsReached(s, Boarded(before.store.(boards := u.rows, next := u.next), before.ids + [u.id], created),
            org, project, fx, n)
  {
    BoardIdsStep(before.store.boards, u.rows, org, project, fx, n, u.id);
  }

  lemma BoardsStep(mint: nat -> string, fx: Fixture, s: Store, org: string, project: Option<string>,
                   idmap: map<string, string>, n: nat)
    requires 0 < n <= |fx.boards|
    requires BoardsReached(s, SeedBoards(mint, fx, s, org, project, idmap, n - 1), org, project, fx, n - 1)
    ensures BoardsReached(s, SeedBoards(mint, fx, s, org, project, idmap, n), org, project, fx, n)
  {
    var before := SeedBoards(mint, fx, s, org, project, idmap, n - 1);
    var b := fx.boards[n - 1];
    var rows, next, config := before.store.boards, before.store.next, BoardConfig(b, idmap);
    UpsertFinds(mint, rows, next, org, project, b.name, config, BoardId(b.seedId));
    var u := Upsert(mint, rows, next, org, project, b.name, config, BoardId(b.seedId));
    BoardReached(s, before, org, project, fx, n, u, before.created + if u.created then 1 else 0);
  }

  lemma {:induction false} BoardsAreThere(mint: nat -> string, fx: Fixture, s: Store, org: string,
                                          project: Option<string>, idmap: map<string, string>, n: nat)
    requires n <= |fx.boards|
    ensures BoardsReached(s, SeedBoards(mint, fx, s, org, project, idmap, n), org, project, fx, n)
    decreases n
  {
    if n > 0 {
      BoardsAreThere(mint, fx, s, org, project, idmap, n - 1);
      BoardsStep(mint, fx, s, org, project, idmap, n);
    }
  }

  /** Seeding the first `n` boards changes nothing and finds what is there. */
  ghost predicate BoardsUnchanged(mint: nat -> string, fx: Fixture, s: Store, org: string, project: Option<string>,
                                  idmap: map<string, string>, n: nat)
    requires n <= |fx.boards| && BoardsFound(s.boards, org, project, fx, n)
  {
    SeedBoards(mint, fx, s, org, project, idmap, n) == Boarded(s, BoardIds(s.boards, org, project, fx, n), 0)
  }

  lemma BoardUnchanged(mint: nat -> string, fx: Fixture, s: Store, org: string, project: Option<string>,
                       idmap: map<string, string>, n: nat)
    requires 0 < n <= |fx.boards| && BoardsFound(s.boards, org, project, fx, n)
    requires BoardsUnchanged(mint, fx, s, org, project, idmap, n - 1)
    ensures BoardsUnchanged(mint, fx, s, org, project, idmap, n)
  {
    var b := fx.boards[n - 1];
    UpsertAgain(mint, s.boards, s.next, org, project, b.name, BoardConfig(b, idmap), BoardId(b.seedId));
  }

  lemma {:induction false} BoardsAgain(mint: nat -> string, fx: Fixture, s: Store, org: string, project: Option<string>,
                                       idmap: map<string, string>, n: nat)
    requires n <= |fx.boards| && BoardsFound(s.boards, org, project, fx, n)
    ensures BoardsUnchanged(mint, fx, s, org, project, idmap, n)
    decreases n
  {
    if n > 0 {
      BoardsAgain(mint, fx, s, org, project, idmap, n - 1);
      BoardUnchanged(mint, fx, s, org, project, idmap, n);
    }
  }

  /** Everything of the bundle that a board needs is in the scope. */
  ghost predicate Complete(fx: Fixture, s: Store, org: string, project: Option<string>) {
    Find(s.datastores, org, project, DATASTORE_ID).Some? && AllFound(s.queries, org, project, Keys(fx), |Keys(fx)|)
  }

  /** The placeholders as the rows in the scope resolve them. */
  function IdMap(fx: Fixture, s: Store, org: string, project: Option<string>): map<string, string>
    requires Complete(fx, s, org, project)
  {
    var datastore := Find(s.datastores, org, project, DATASTORE_ID).value;
    MapOf(s.queries, org, project, Keys(fx), |Keys(fx)|)["@sample_datastore" := datastore.id]
  }

  /** Where a seed gets before its boards. */
  function BeforeBoards(mint: nat -> string, fx: Fixture, s: Store, org: string, project: Option<string>,
                        k: nat): Seeded
    requires k <= |Keys(fx)|
  {
    KeysAreKnown(fx);
    var ds := SeedDatastore(mint, fx, s, org, project);
    SeedQueries(mint, fx, AfterDatastore(s, ds), org, project, ds.id, Keys(fx), k)
  }

  lemma BeforeBoardsFacts(mint: nat -> string, fx: Fixture, s: Store, org: string, project: Option<string>, k: nat)
    requires k <= |Keys(fx)|
    ensures var r := BeforeBoards(mint, fx, s, org, project, k);
            && s.queries <= r.store.queries && s.datastores <= r.store.datastores && r.store.boards == s.boards
            && s.next <= r.store.next
            && Find(r.store.datastores, org, project, DATASTORE_ID).Some?
            && Find(r.store.datastores, org, project, DATASTORE_ID).value.id
                == SeedDatastore(mint, fx, s, org, project).id
    ensures k == |Keys(fx)| ==> var r := BeforeBoards(mint, fx, s, org, project, k);
              Complete(fx, r.store, org, project)
              && r.idmap["@sample_datastore" := SeedDatastore(mint, fx, s, org, project).id]
                  == IdMap(fx, r.store, org, project)
  {
    KeysAreKnown(fx);
    var ds := SeedDatastore(mint, fx, s, org, project);
    UpsertFinds(mint, s.datastores, s.next, org, project, "Sample", fx.datastore, DATASTORE_ID);
    QueriesAreThere(mint, fx, AfterDatastore(s, ds), org, project, ds.id, Keys(fx), k);
  }

  lemma SeedIsTwoPhases(mint: nat -> string, fx: Fixture, s: Store, org: string, project: Option<string>, k: nat,
                        n: nat)
    requires k <= |Keys(fx)| && n <= |fx.boards| && (n > 0 ==> k == |Keys(fx)|)
    ensures var r, b := SeedPart(mint, fx, s, org, project, k, n), BeforeBoards(mint, fx, s, org, project, k);
            && (k == |Keys(fx)| ==>
                  Complete(fx, b.store, org, project)
                  && r.store == SeedBoards(mint, fx, b.store, org, project, IdMap(fx, b.store, org, project), n).store
                  && r.ids == SeedBoards(mint, fx, b.store, org, project, IdMap(fx, b.store, org, project), n).ids)
            && (n == 0 ==> r.store == b.store)
  {
    BeforeBoardsFacts(mint, fx, s, org, project, k);
  }

  /** Seeding again creates no row and returns the same identifiers, for a project or for a whole organisation. */
  lemma ReseedIsStable(mint: nat -> string, fx: Fixture, s: Store, org: string, project: Option<string>)
    ensures var once := Seed(mint, fx, s, org, project);
            && Seed(mint, fx, once.store, org, project) == Boarded(once.store, once.ids, 0)
            && SeedDatastore(mint, fx, once.store, org, project).id == SeedDatastore(mint, fx, s, org, project).id
  {
    var n := |fx.boards|;
    var once := Seed(mint, fx, s, org, project);
    KeysAreKnown(fx);
    var ds := SeedDatastore(mint, fx, s, org, project);
    var q := BeforeBoards(mint, fx, s, org, project, |Keys(fx)|);
    BeforeBoardsFacts(mint, fx, s, org, project, |Keys(fx)|);
    BoardsAreThere(mint, fx, q.store, org, project, q.idmap["@sample_datastore" := ds.id], n);
    var t := once.store;
    assert SeedDatastore(mint, fx, t, org, project) == Upserted(t.datastores, t.next, ds.id, false);
    QueriesAgain(mint, fx, t, org, project, ds.id, Keys(fx), |Keys(fx)|);
    BoardsAgain(mint, fx, t, org, project, IdMap(fx, t, org, project), n);
  }
}
