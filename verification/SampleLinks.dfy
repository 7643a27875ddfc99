/** What a sample board points at: every placeholder of its fixture is filled with the identifier of a row there is. */
module SampleLinks {
  import opened Placeholders
  import opened Portable
  import opened Sample
  import opened SampleRuns
  import opened Wrappers

  /** The rows a board of a scope may point at; with `own`, only those created for that very project, or for none. */
  datatype Place = Place(
    fx: Fixture, queries: seq<Row>, datastores: seq<Row>, org: string, project: Option<string>, own: bool)

  predicate Offers(p: Place, r: Row, sid: string) {
    Is(r, p.org, p.project, sid) && (p.own ==> r.project == p.project)
  }

  ghost predicate HasRow(p: Place, rows: seq<Row>, sid: string, id: string) {
    exists r :: r in rows && Offers(p, r, sid) && r.id == id
  }

  /** The value a placeholder stands for: the identifier of a row, or nothing for a key that no fixture knows. */
  ghost predicate PointsAt(p: Place, key: string, value: string) {
    if key == "sample_datastore" then HasRow(p, p.datastores, DATASTORE_ID, value)
    else if key in p.fx.queries then HasRow(p, p.queries, QueryId(key), value)
    else value == ""
  }

  /** `out` is `node` with every placeholder, at any depth, replaced by what it stands for. */
  ghost predicate Filled(p: Place, node: Json, out: Json) {
    match node
    case JString(s) => if IsPlaceholder(s) then out.JString? && PointsAt(p, s[1..], out.s) else out == node
    case JArray(items) =>
      && out.JArray? && |out.items| == |items|
      && forall i :: 0 <= i < |items| ==> Filled(p, items[i], out.items[i])
    case JObject(fields) =>
      && out.JObject? && out.fields.Keys == fields.Keys
      && forall f :: f in fields ==> Filled(p, fields[f], out.fields[f])
    case _ => out == node
  }

  /** What the substituter puts in the place of `@key`. */
  function ValueOf(idmap: map<string, string>, key: string): string {
    if "@" + key in idmap then idmap["@" + key] else ""
  }

  ghost predicate PointsAtAll(p: Place, node: Json, idmap: map<string, string>) {
    forall k :: k in References(node) ==> PointsAt(p, k, ValueOf(idmap, k))
  }

  lemma StringFilled(p: Place, s: string, idmap: map<string, string>)
    ensures PointsAtAll(p, JString(s), idmap) <==> Filled(p, JString(s), Resolve(JString(s), idmap))
  {
    if IsPlaceholder(s) {
      assert s == "@" + s[1..];
      assert References(JString(s)) == {s[1..]};
    }
  }

  /** Filling and collecting meet: a tree resolves well exactly when each of its collected keys does. */
  lemma {:induction false} FilledExactly(p: Place, node: Json, idmap: map<string, string>)
    ensures PointsAtAll(p, node, idmap) <==> Filled(p, node, Resolve(node, idmap))
    decreases node, 1
  {
    match node
    case JString(s) => StringFilled(p, s, idmap);
    case JArray(_) => ArrayFilled(p, node, idmap);
    case JObject(_) => ObjectFilled(p, node, idmap);
    case _ =>
  }

  lemma {:induction false} ArrayFilled(p: Place, node: Json, idmap: map<string, string>)
    requires node.JArray?
    ensures PointsAtAll(p, node, idmap) <==> Filled(p, node, Resolve(node, idmap))
    decreases node, 0
  {
    var items := node.items;
    forall i | 0 <= i < |items|
      ensures PointsAtAll(p, items[i], idmap) <==> Filled(p, items[i], Resolve(items[i], idmap))
      ensures References(items[i]) <= References(node)
    {
      FilledExactly(p, items[i], idmap);
    }
    if forall i :: 0 <= i < |items| ==> PointsAtAll(p, items[i], idmap) {
      forall k | k in References(node) ensures PointsAt(p, k, ValueOf(idmap, k)) {
        var i :| 0 <= i < |items| && k in References(items[i]);
      }
    }
  }

  lemma {:induction false} ObjectFilled(p: Place, node: Json, idmap: map<string, string>)
    requires node.JObject?
    ensures PointsAtAll(p, node, idmap) <==> Filled(p, node, Resolve(node, idmap))
    decreases node, 0
  {
    var fields := node.fields;
    forall f | f in fields
      ensures PointsAtAll(p, fields[f], idmap) <==> Filled(p, fields[f], Resolve(fields[f], idmap))
      ensures References(fields[f]) <= References(node)
    {
      FilledExactly(p, fields[f], idmap);
    }
    if forall f :: f in fields ==> PointsAtAll(p, fields[f], idmap) {
      forall k | k in References(node) ensures PointsAt(p, k, ValueOf(idmap, k)) {
        var f :| f in fields && k in References(fields[f]);
      }
    }
  }

  // ----- what keeps a board filled -----

  /** Whatever `p` lets a placeholder stand for, `q` does. */
  ghost predicate Covers(p: Place, q: Place) {
    forall key, value :: PointsAt(p, key, value) ==> PointsAt(q, key, value)
  }

  lemma {:induction false} FilledStays(p: Place, q: Place, node: Json, out: Json)
    requires Covers(p, q) && Filled(p, node, out)
    ensures Filled(q, node, out)
    decreases node
  {
    match node
    case JArray(items) =>
      forall i | 0 <= i < |items| ensures Filled(q, items[i], out.items[i]) {
        FilledStays(p, q, items[i], out.items[i]);
      }
    case JObject(fields) =>
      forall f | f in fields ensures Filled(q, fields[f], out.fields[f]) {
        FilledStays(p, q, fields[f], out.fields[f]);
      }
    case _ =>
  }

  /** All sample rows a board of the scope could point at are still in the table. */
  ghost predicate KeepsRows(rows: seq<Row>, after: seq<Row>, org: string, project: Option<string>) {
    forall r :: r in rows && r.org == org && r.project == project && IsSample(r) ==> r in after
  }

  lemma RowStays(p: Place, rows: seq<Row>, after: seq<Row>, sid: string, id: string)
    requires p.own && KeepsRows(rows, after, p.org, p.project) && HasRow(p, rows, sid, id)
    ensures HasRow(p, after, sid, id)
  {
    var r :| r in rows && Offers(p, r, sid) && r.id == id;
    assert r in after;
  }

  lemma PlaceStays(p: Place, queries: seq<Row>, datastores: seq<Row>)
    requires p.own && KeepsRows(p.queries, queries, p.org, p.project)
    requires KeepsRows(p.datastores, datastores, p.org, p.project)
    ensures Covers(p, p.(queries := queries, datastores := datastores))
  {
    var q := p.(queries := queries, datastores := datastores);
    forall key, value | PointsAt(p, key, value) ensures PointsAt(q, key, value) {
      if key == "sample_datastore" {
        RowStays(p, p.datastores, datastores, DATASTORE_ID, value);
        SameOffers(p, q, datastores, DATASTORE_ID, value);
      } else if key in p.fx.queries {
        RowStays(p, p.queries, queries, QueryId(key), value);
        SameOffers(p, q, queries, QueryId(key), value);
      }
    }
  }

  lemma SameOffers(p: Place, q: Place, rows: seq<Row>, sid: string, id: string)
    requires q == p.(queries := q.queries, datastores := q.datastores, own := q.own) && (q.own ==> p.own)
    requires HasRow(p, rows, sid, id)
    ensures HasRow(q, rows, sid, id)
  {
    var r :| r in rows && Offers(p, r, sid) && r.id == id;
    assert Offers(q, r, sid);
  }

  lemma OwnIsMore(p: Place)
    requires p.own
    ensures Covers(p, p.(own := false))
  {
    var q := p.(own := false);
    forall key, value | PointsAt(p, key, value) ensures PointsAt(q, key, value) {
      if key == "sample_datastore" {
        SameOffers(p, q, p.datastores, DATASTORE_ID, value);
      } else if key in p.fx.queries {
        SameOffers(p, q, p.queries, QueryId(key), value);
      }
    }
  }

  // ----- boards -----

  /** A sample board is the filled board of a fixture, under the fixture's identifier. */
  ghost predicate IsBoard(p: Place, b: Row, f: BoardFixture) {
    Get(b.config, "sample_id") == JString(BoardId(f.seedId)) && Filled(p, f.spec, Get(b.config, "spec"))
  }

  ghost predicate BoardOk(p: Place, b: Row) {
    exists i :: 0 <= i < |p.fx.boards| && IsBoard(p, b, p.fx.boards[i])
  }

  /** Every sample board points at live rows; with `own`, at rows of its own project, or of none. */
  ghost predicate AllBoardsOk(fx: Fixture, boards: seq<Row>, queries: seq<Row>, datastores: seq<Row>, own: bool) {
    forall i :: 0 <= i < |boards| && IsSample(boards[i]) ==>
      BoardOk(Place(fx, queries, datastores, boards[i].org, boards[i].project, own), boards[i])
  }

  lemma BoardStays(p: Place, q: Place, b: Row)
    requires Covers(p, q) && p.fx == q.fx && BoardOk(p, b)
    ensures BoardOk(q, b)
  {
    var i :| 0 <= i < |p.fx.boards| && IsBoard(p, b, p.fx.boards[i]);
    FilledStays(p, q, p.fx.boards[i].spec, Get(b.config, "spec"));
    assert IsBoard(q, b, q.fx.boards[i]);
  }

  /** Boards that are left, or come later in the table, still point at live rows when these are kept. */
  lemma BoardKept(fx: Fixture, b: Row, queries: seq<Row>, datastores: seq<Row>, queries': seq<Row>,
                  datastores': seq<Row>)
    requires BoardOk(Place(fx, queries, datastores, b.org, b.project, true), b)
    requires KeepsRows(queries, queries', b.org, b.project) && KeepsRows(datastores, datastores', b.org, b.project)
    ensures BoardOk(Place(fx, queries', datastores', b.org, b.project, true), b)
  {
    var p := Place(fx, queries, datastores, b.org, b.project, true);
    PlaceStays(p, queries', datastores');
    BoardStays(p, p.(queries := queries', datastores := datastores'), b);
  }

  lemma LiveWhenOwn(fx: Fixture, boards: seq<Row>, queries: seq<Row>, datastores: seq<Row>)
    requires AllBoardsOk(fx, boards, queries, datastores, true)
    ensures AllBoardsOk(fx, boards, queries, datastores, false)
  {
    forall i | 0 <= i < |boards| && IsSample(boards[i])
      ensures BoardOk(Place(fx, queries, datastores, boards[i].org, boards[i].project, false), boards[i])
    {
      var p := Place(fx, queries, datastores, boards[i].org, boards[i].project, true);
      OwnIsMore(p);
      BoardStays(p, p.(own := false), boards[i]);
    }
  }

  // ----- seeding boards -----

  lemma NewBoardIsOk(p: Place, i: nat, idmap: map<string, string>, id: string)
    requires i < |p.fx.boards| && Filled(p, p.fx.boards[i].spec, Resolve(p.fx.boards[i].spec, idmap))
    ensures var f := p.fx.boards[i];
            BoardOk(p, NewRow(id, p.org, p.project, f.name, BoardConfig(f, idmap), BoardId(f.seedId)))
  {
    var f := p.fx.boards[i];
    assert IsBoard(p, NewRow(id, p.org, p.project, f.name, BoardConfig(f, idmap), BoardId(f.seedId)), p.fx.boards[i]);
  }

  /** Each board that a seed would create among the first `n` comes out filled. */
  ghost predicate NewOnesFilled(p: Place, boards: seq<Row>, idmap: map<string, string>, n: nat)
    requires n <= |p.fx.boards|
  {
    forall i :: 0 <= i < n && Find(boards, p.org, p.project, BoardId(p.fx.boards[i].seedId)) == None ==>
      Filled(p, p.fx.boards[i].spec, Resolve(p.fx.boards[i].spec, idmap))
  }

  lemma SeedBoardsStep(mint: nat -> string, fx: Fixture, s: Store, org: string, project: Option<string>,
                       idmap: map<string, string>, n: nat)
    requires 0 < n <= |fx.boards|
    ensures var before := SeedBoards(mint, fx, s, org, project, idmap, n - 1).store;
            var f := fx.boards[n - 1];
            SeedBoards(mint, fx, s, org, project, idmap, n).store.boards ==
            Upsert(mint, before.boards, before.next, org, project, f.name, BoardConfig(f, idmap),
                BoardId(f.seedId)).rows
  {
  }

  lemma UpsertKeepsOk(p: Place, mint: nat -> string, boards: seq<Row>, next: nat, name: string, config: Dict,
                      sid: string)
    requires AllBoardsOk(p.fx, boards, p.queries, p.datastores, p.own)
    requires Find(boards, p.org, p.project, sid) == None ==>
               BoardOk(p, NewRow(mint(next), p.org, p.project, name, config, sid))
    ensures AllBoardsOk(p.fx, Upsert(mint, boards, next, p.org, p.project, name, config, sid).rows,
                        p.queries, p.datastores, p.own)
  {
  }

  lemma BoardStepOk(mint: nat -> string, p: Place, boards: seq<Row>, next: nat, idmap: map<string, string>, i: nat)
    requires i < |p.fx.boards| && AllBoardsOk(p.fx, boards, p.queries, p.datastores, p.own)
    requires Find(boards, p.org, p.project, BoardId(p.fx.boards[i].seedId)) == None ==>
               Filled(p, p.fx.boards[i].spec, Resolve(p.fx.boards[i].spec, idmap))
    ensures var f := p.fx.boards[i];
            AllBoardsOk(p.fx,
                Upsert(mint, boards, next, p.org, p.project, f.name, BoardConfig(f, idmap), BoardId(f.seedId)).rows,
                        p.queries, p.datastores, p.own)
  {
    var f := p.fx.boards[i];
    if Find(boards, p.org, p.project, BoardId(f.seedId)) == None {
      NewBoardIsOk(p, i, idmap, mint(next));
    }
    UpsertKeepsOk(p, mint, boards, next, f.name, BoardConfig(f, idmap), BoardId(f.seedId));
  }

  lemma FilledWhenNew(p: Place, boards: seq<Row>, rows: seq<Row>, idmap: map<string, string>, n: nat)
    requires 0 < n <= |p.fx.boards| && NewOnesFilled(p, boards, idmap, n) && boards <= rows
    ensures Find(rows, p.org, p.project, BoardId(p.fx.boards[n - 1].seedId)) == None ==>
              Filled(p, p.fx.boards[n - 1].spec, Resolve(p.fx.boards[n - 1].spec, idmap))
  {
    var sid := BoardId(p.fx.boards[n - 1].seedId);
    if Find(boards, p.org, p.project, sid).Some? {
      FindStays(boards, rows, p.org, p.project, sid);
    }
  }

  /** The board table after the first `n` boards. */
  function BoardsAfter(mint: nat -> string, p: Place, s: Store, idmap: map<string, string>, n: nat): Store
    requires n <= |p.fx.boards|
  {
    SeedBoards(mint, p.fx, s, p.org, p.project, idmap, n).store
  }

  ghost predicate OkAfter(mint: nat -> string, p: Place, s: Store, idmap: map<string, string>, n: nat)
    requires n <= |p.fx.boards|
  {
    AllBoardsOk(p.fx, BoardsAfter(mint, p, s, idmap, n).boards, p.queries, p.datastores, p.own)
  }

  lemma BoardsGrow(mint: nat -> string, p: Place, s: Store, idmap: map<string, string>, n: nat)
    requires n <= |p.fx.boards|
    ensures s.boards <= BoardsAfter(mint, p, s, idmap, n).boards
  {
    BoardsAreThere(mint, p.fx, s, p.org, p.project, idmap, n);
  }

  /** One more board upserted into a table that `boards` has grown into. */
  function NextTable(mint: nat -> string, p: Place, rows: seq<Row>, next: nat, idmap: map<string, string>,
                     n: nat): seq<Row>
    requires 0 < n <= |p.fx.boards|
  {
    var f := p.fx.boards[n - 1];
    Upsert(mint, rows, next, p.org, p.project, f.name, BoardConfig(f, idmap), BoardId(f.seedId)).rows
  }

  lemma NextTableOk(mint: nat -> string, p: Place, boards: seq<Row>, rows: seq<Row>, next: nat,
                    idmap: map<string, string>, n: nat)
    requires 0 < n <= |p.fx.boards| && NewOnesFilled(p, boards, idmap, n) && boards <= rows
    requires AllBoardsOk(p.fx, rows, p.queries, p.datastores, p.own)
    ensures AllBoardsOk(p.fx, NextTable(mint, p, rows, next, idmap, n), p.queries, p.datastores, p.own)
  {
    FilledWhenNew(p, boards, rows, idmap, n);
    BoardStepOk(mint, p, rows, next, idmap, n - 1);
  }

  lemma NextBoards(mint: nat -> string, p: Place, s: Store, idmap: map<string, string>, n: nat)
    requires 0 < n <= |p.fx.boards|
    ensures var before := BoardsAfter(mint, p, s, idmap, n - 1);
            BoardsAfter(mint, p, s, idmap, n).boards == NextTable(mint, p, before.boards, before.next, idmap, n)
  {
    SeedBoardsStep(mint, p.fx, s, p.org, p.project, idmap, n);
  }

  lemma OkAfterStep(mint: nat -> string, p: Place, s: Store, idmap: map<string, string>, n: nat)
    requires 0 < n <= |p.fx.boards| && OkAfter(mint, p, s, idmap, n - 1) && NewOnesFilled(p, s.boards, idmap, n)
    ensures OkAfter(mint, p, s, idmap, n)
  {
    var before := BoardsAfter(mint, p, s, idmap, n - 1);
    BoardsGrow(mint, p, s, idmap, n - 1);
    NextTableOk(mint, p, s.boards, before.boards, before.next, idmap, n);
    NextBoards(mint, p, s, idmap, n);
  }

  /** Seeding boards keeps every board on live rows when the new ones are filled. */
  lemma {:induction false} SeedBoardsKeep(mint: nat -> string, p: Place, s: Store, idmap: map<string, string>, n: nat)
    requires n <= |p.fx.boards| && AllBoardsOk(p.fx, s.boards, p.queries, p.datastores, p.own)
    requires NewOnesFilled(p, s.boards, idmap, n)
    ensures OkAfter(mint, p, s, idmap, n)
  {
    if n > 0 {
      SeedBoardsKeep(mint, p, s, idmap, n - 1);
      OkAfterStep(mint, p, s, idmap, n);
    }
  }

  // ----- what a seed's identifier map holds -----

  lemma AtSign(a: string, b: string)
    ensures "@" + a == "@" + b <==> a == b
  {
    assert ("@" + a)[1..] == a && ("@" + b)[1..] == b;
  }

  lemma {:induction false} MapOfHolds(rows: seq<Row>, org: string, project: Option<string>, keys: seq<string>,
                                      n: nat, key: string)
    requires n <= |keys| && AllFound(rows, org, project, keys, n)
    ensures "@" + key in MapOf(rows, org, project, keys, n) <==> key in keys[..n]
    ensures key in keys[..n] ==>
              var r := Find(rows, org, project, QueryId(key));
              r.Some? && MapOf(rows, org, project, keys, n)["@" + key] == r.value.id
  {
    if n > 0 {
      MapOfHolds(rows, org, project, keys, n - 1, key);
      AtSign(key, keys[n - 1]);
      assert keys[..n] == keys[..n - 1] + [keys[n - 1]];
    }
  }

  /** The row a placeholder resolves through, if its key is a known one. */
  function FoundFor(fx: Fixture, s: Store, org: string, project: Option<string>, key: string): Option<Row> {
    if key == "sample_datastore" then Find(s.datastores, org, project, DATASTORE_ID)
    else if key in fx.queries then Find(s.queries, org, project, QueryId(key))
    else None
  }

  lemma CollectedKeys(fx: Fixture, i: nat, key: string)
    requires i < |fx.boards| && key in References(fx.boards[i].spec)
    ensures key in Keys(fx) <==> key in fx.queries
  {
    EveryReferenceIsCollected(SpecsOf(fx.boards), i);
    assert SpecsOf(fx.boards)[i] == fx.boards[i].spec;
    assert key in ReferencesOf(SpecsOf(fx.boards));
    assert key in KeySet(fx) <==> key in fx.queries;
  }

  lemma DatastoreAt(m: map<string, string>, id: string, key: string)
    ensures ValueOf(m["@sample_datastore" := id], key) == if key == "sample_datastore" then id else ValueOf(m, key)
  {
    AtSign(key, "sample_datastore");
    assert "@" + "sample_datastore" == "@sample_datastore";
  }

  lemma MapOfAll(rows: seq<Row>, org: string, project: Option<string>, keys: seq<string>, key: string)
    requires AllFound(rows, org, project, keys, |keys|)
    ensures key in keys ==> Find(rows, org, project, QueryId(key)).Some?
    ensures ValueOf(MapOf(rows, org, project, keys, |keys|), key) ==
            if key in keys then Find(rows, org, project, QueryId(key)).value.id else ""
  {
    assert keys[..|keys|] == keys;
    MapOfHolds(rows, org, project, keys, |keys|, key);
  }

  /** Every key that a board refers to is in the map a seed resolves it by, unless no fixture knows it. */
  lemma IdMapHolds(fx: Fixture, s: Store, org: string, project: Option<string>, i: nat, key: string)
    requires Complete(fx, s, org, project) && i < |fx.boards| && key in References(fx.boards[i].spec)
    ensures var found := FoundFor(fx, s, org, project, key);
            && (found.Some? <==> key == "sample_datastore" || key in fx.queries)
            && ValueOf(IdMap(fx, s, org, project), key) == if found.Some? then found.value.id else ""
  {
    CollectedKeys(fx, i, key);
    DatastoreAt(MapOf(s.queries, org, project, Keys(fx), |Keys(fx)|),
        Find(s.datastores, org, project, DATASTORE_ID).value.id, key);
    MapOfAll(s.queries, org, project, Keys(fx), key);
  }

  /** What a seed would find for a key lies in the very project of the seed, or in none with it. */
  predicate FindsOwn(fx: Fixture, s: Store, org: string, project: Option<string>, key: string) {
    var found := FoundFor(fx, s, org, project, key);
    found.Some? ==> found.value.project == project
  }

  lemma OwnPointsAt(fx: Fixture, s: Store, org: string, project: Option<string>, i: nat, key: string)
    requires Complete(fx, s, org, project) && i < |fx.boards| && key in References(fx.boards[i].spec)
    requires FindsOwn(fx, s, org, project, key)
    ensures PointsAt(Place(fx, s.queries, s.datastores, org, project, true), key,
            ValueOf(IdMap(fx, s, org, project), key))
  {
    IdMapHolds(fx, s, org, project, i, key);
    var p := Place(fx, s.queries, s.datastores, org, project, true);
    var found := FoundFor(fx, s, org, project, key);
    if key == "sample_datastore" {
      assert Offers(p, found.value, DATASTORE_ID);
    } else if key in fx.queries {
      assert Offers(p, found.value, QueryId(key));
    }
  }

  /** A board all of whose references are found in the seed's own project is filled by the seed's map. */
  lemma OwnIsFilled(fx: Fixture, s: Store, org: string, project: Option<string>, i: nat)
    requires Complete(fx, s, org, project) && i < |fx.boards|
    requires forall k :: k in References(fx.boards[i].spec) ==> FindsOwn(fx, s, org, project, k)
    ensures Filled(Place(fx, s.queries, s.datastores, org, project, true), fx.boards[i].spec,
                   Resolve(fx.boards[i].spec, IdMap(fx, s, org, project)))
  {
    var p, idmap := Place(fx, s.queries, s.datastores, org, project, true), IdMap(fx, s, org, project);
    forall k | k in References(fx.boards[i].spec) ensures PointsAt(p, k, ValueOf(idmap, k)) {
      OwnPointsAt(fx, s, org, project, i, k);
    }
    FilledExactly(p, fx.boards[i].spec, idmap);
  }
}
