/** Over every run of seeds, removals, interruptions and user edits, sample boards point at live rows. */
module SampleSafety {
  import opened Placeholders
  import opened Portable
  import opened Sample
  import opened SampleLinks
  import opened SampleRuns
  import opened Wrappers

  datatype Table = Boards | Queries | Datastores

  /**
   * What can happen to the store: a seed into a project or for a whole organisation or a removal, each
   * possibly cut short; a user adding or dropping a row that is no sample.
   */
  datatype Action =
    | SeedUpTo(org: string, project: Option<string>, queries: nat, boards: nat)
    | RemoveUpTo(org: string, project: Option<string>, boards: nat, queries: nat, datastores: nat)
    | UserAdd(table: Table, org: string, project: Option<string>, name: string, config: Dict)
    | UserDrop(table: Table, id: string)

  function RowsOf(s: Store, t: Table): seq<Row> {
    match t
    case Boards => s.boards
    case Queries => s.queries
    case Datastores => s.datastores
  }

  function WithRows(s: Store, t: Table, rows: seq<Row>): Store {
    match t
    case Boards => s.(boards := rows)
    case Queries => s.(queries := rows)
    case Datastores => s.(datastores := rows)
  }

  /**
   * Checked before a seed: whatever a board yet to be created refers to is missing or found in the very
   * project of the seed. A seed for a whole organisation must find rows of no project only.
   */
  ghost predicate SeedIsSafe(fx: Fixture, s: Store, org: string, project: Option<string>, n: nat)
    requires n <= |fx.boards|
  {
    forall i, key ::
      0 <= i < n && Find(s.boards, org, project, BoardId(fx.boards[i].seedId)) == None
          && key in References(fx.boards[i].spec)
      ==> FindsOwn(fx, s, org, project, key)
  }

  /** A seed into a project is always safe. */
  lemma ProjectSeedsAreSafe(fx: Fixture, s: Store, org: string, project: string, n: nat)
    requires n <= |fx.boards|
    ensures SeedIsSafe(fx, s, org, Some(project), n)
  {
  }

  ghost predicate Enabled(fx: Fixture, s: Store, a: Action) {
    match a
    case SeedUpTo(org, project, k, n) =>
      k <= |Keys(fx)| && n <= |fx.boards| && (n > 0 ==> k == |Keys(fx)|) && SeedIsSafe(fx, s, org, project, n)
    case RemoveUpTo(org, project, b, q, d) => CanRemove(s, org, project, b, q, d)
    case UserAdd(_, _, _, _, config) => Get(config, "sample") != JBool(true)
    case UserDrop(t, id) => forall r :: r in RowsOf(s, t) && r.id == id ==> !IsSample(r)
  }

  function Step(mint: nat -> string, fx: Fixture, s: Store, a: Action): Store
    requires Enabled(fx, s, a)
  {
    match a
    case SeedUpTo(org, project, k, n) => SeedPart(mint, fx, s, org, project, k, n).store
    case RemoveUpTo(org, project, b, q, d) => RemovePart(s, org, project, b, q, d)
    case UserAdd(t, org, project, name, config) =>
      WithRows(s, t, RowsOf(s, t) + [Row(mint(s.next), org, project, name, config)]).(next := s.next + 1)
    case UserDrop(t, id) => WithRows(s, t, Without(RowsOf(s, t), {id}))
  }

  /** Each sample board is the filled board of a fixture and points at live rows of its own project. */
  ghost predicate SamplesOk(fx: Fixture, s: Store) {
    AllBoardsOk(fx, s.boards, s.queries, s.datastores, true)
  }

  // ----- seeding -----

  /** A table that has grown by rows of one project only. */
  ghost predicate GrewBy(rows: seq<Row>, after: seq<Row>, project: Option<string>) {
    rows <= after && forall j :: |rows| <= j < |after| ==> after[j].project == project
  }

  lemma {:induction false} QueriesGrow(mint: nat -> string, fx: Fixture, s: Store, org: string, project: Option<string>,
                                       ds: string, keys: seq<string>, n: nat)
    requires n <= |keys| && forall i :: 0 <= i < |keys| ==> keys[i] in fx.queries
    ensures GrewBy(s.queries, SeedQueries(mint, fx, s, org, project, ds, keys, n).store.queries, project)
    decreases n
  {
    if n > 0 {
      QueriesGrow(mint, fx, s, org, project, ds, keys, n - 1);
    }
  }

  /** What is found after such growth was found before, or is of that project. */
  lemma FoundAfter(rows: seq<Row>, after: seq<Row>, org: string, project: Option<string>, sid: string)
    requires GrewBy(rows, after, project)
    requires Find(rows, org, project, sid).Some? ==> Find(rows, org, project, sid).value.project == project
    ensures Find(after, org, project, sid).Some? ==> Find(after, org, project, sid).value.project == project
  {
    var more := after[|rows|..];
    assert after == rows + more;
    FindGrows(rows, more, org, project, sid);
  }

  lemma FindsOwnAfter(fx: Fixture, s: Store, t: Store, org: string, project: Option<string>, key: string)
    requires GrewBy(s.queries, t.queries, project) && GrewBy(s.datastores, t.datastores, project)
    requires FindsOwn(fx, s, org, project, key)
    ensures FindsOwn(fx, t, org, project, key)
  {
    if key == "sample_datastore" {
      FoundAfter(s.datastores, t.datastores, org, project, DATASTORE_ID);
    } else if key in fx.queries {
      FoundAfter(s.queries, t.queries, org, project, QueryId(key));
    }
  }

  lemma BeforeBoardsGrow(mint: nat -> string, fx: Fixture, s: Store, org: string, project: Option<string>, k: nat)
    requires k <= |Keys(fx)|
    ensures var t := BeforeBoards(mint, fx, s, org, project, k).store;
            GrewBy(s.queries, t.queries, project) && GrewBy(s.datastores, t.datastores, project) && t.boards == s.boards
  {
    KeysAreKnown(fx);
    var ds := SeedDatastore(mint, fx, s, org, project);
    QueriesGrow(mint, fx, AfterDatastore(s, ds), org, project, ds.id, Keys(fx), k);
    QueriesAreThere(mint, fx, AfterDatastore(s, ds), org, project, ds.id, Keys(fx), k);
  }

  lemma OldBoardsStay(fx: Fixture, s: Store, t: Store)
    requires SamplesOk(fx, s) && t.boards == s.boards && s.queries <= t.queries && s.datastores <= t.datastores
    ensures SamplesOk(fx, t)
  {
    forall i | 0 <= i < |t.boards| && IsSample(t.boards[i])
      ensures BoardOk(Place(fx, t.queries, t.datastores, t.boards[i].org, t.boards[i].project, true), t.boards[i])
    {
      BoardKept(fx, t.boards[i], s.queries, s.datastores, t.queries, t.datastores);
    }
  }

  /** Where a safe seed gets to its boards, each new one is filled from its own project. */
  lemma SafeIsFilled(fx: Fixture, s: Store, mid: Store, org: string, project: Option<string>, n: nat)
    requires n <= |fx.boards| && SeedIsSafe(fx, s, org, project, n) && Complete(fx, mid, org, project)
    requires GrewBy(s.queries, mid.queries, project) && GrewBy(s.datastores, mid.datastores, project)
    requires mid.boards == s.boards
    ensures NewOnesFilled(Place(fx, mid.queries, mid.datastores, org, project, true), mid.boards,
                          IdMap(fx, mid, org, project), n)
  {
    var p := Place(fx, mid.queries, mid.datastores, org, project, true);
    forall i | 0 <= i < n && Find(mid.boards, org, project, BoardId(fx.boards[i].seedId)) == None
      ensures Filled(p, fx.boards[i].spec, Resolve(fx.boards[i].spec, IdMap(fx, mid, org, project)))
    {
      forall key | key in References(fx.boards[i].spec) ensures FindsOwn(fx, mid, org, project, key) {
        FindsOwnAfter(fx, s, mid, org, project, key);
      }
      OwnIsFilled(fx, mid, org, project, i);
    }
  }

  lemma SeedBoardsOk(mint: nat -> string, fx: Fixture, mid: Store, org: string, project: Option<string>, n: nat)
    requires n <= |fx.boards| && SamplesOk(fx, mid) && Complete(fx, mid, org, project)
    requires NewOnesFilled(Place(fx, mid.queries, mid.datastores, org, project, true), mid.boards,
                           IdMap(fx, mid, org, project), n)
    ensures SamplesOk(fx, SeedBoards(mint, fx, mid, org, project, IdMap(fx, mid, org, project), n).store)
  {
    var p := Place(fx, mid.queries, mid.datastores, org, project, true);
    SeedBoardsKeep(mint, p, mid, IdMap(fx, mid, org, project), n);
    BoardsAreThere(mint, fx, mid, org, project, IdMap(fx, mid, org, project), n);
  }

  lemma SeedKeeps(mint: nat -> string, fx: Fixture, s: Store, org: string, project: Option<string>, k: nat, n: nat)
    requires k <= |Keys(fx)| && n <= |fx.boards| && (n > 0 ==> k == |Keys(fx)|)
    requires SeedIsSafe(fx, s, org, project, n) && SamplesOk(fx, s)
    ensures SamplesOk(fx, SeedPart(mint, fx, s, org, project, k, n).store)
  {
    var mid := BeforeBoards(mint, fx, s, org, project, k).store;
    BeforeBoardsGrow(mint, fx, s, org, project, k);
    OldBoardsStay(fx, s, mid);
    SeedIsTwoPhases(mint, fx, s, org, project, k, n);
    if k == |Keys(fx)| {
      SafeIsFilled(fx, s, mid, org, project, n);
      SeedBoardsOk(mint, fx, mid, org, project, n);
    }
  }

  // ----- removing -----

  /** Every identifier removed from a table belongs to a sample row of the scope. */
  lemma RemovedAreInScope(rows: seq<Row>, org: string, project: Option<string>, n: nat, i: nat)
    requires UniqueIds(rows) && n <= |SampleRows(rows, org, project)| && i < |rows|
    requires rows[i].id in Ids(SampleRows(rows, org, project)[..n])
    ensures n > 0 && InScope(rows[i], org, project) && IsSample(rows[i])
  {
    var listed := SampleRows(rows, org, project);
    var k :| 0 <= k < n && listed[..n][k].id == rows[i].id;
    assert listed[k] in listed;
    SampleRowsHold(rows, org, project, listed[k]);
    var j :| 0 <= j < |rows| && rows[j] == listed[k];
  }

  /** A board left by a removal that got past the boards lies outside its scope, and so do the rows of its project. */
  lemma RemoveKeepsRows(rows: seq<Row>, org: string, project: Option<string>, n: nat, b: Row)
    requires UniqueIds(rows) && n <= |SampleRows(rows, org, project)|
    requires n > 0 ==> !InScope(b, org, project)
    ensures KeepsRows(rows, RemoveFirst(rows, org, project, n), b.org, b.project)
  {
    var ids := Ids(SampleRows(rows, org, project)[..n]);
    forall r | r in rows && r.org == b.org && r.project == b.project && IsSample(r)
      ensures r in Without(rows, ids)
    {
      var i :| 0 <= i < |rows| && rows[i] == r;
      if r.id in ids {
        RemovedAreInScope(rows, org, project, n, i);
      }
      WithoutHolds(rows, ids, r);
    }
  }

  lemma SamplesAreListed(rows: seq<Row>, org: string, project: Option<string>, b: Row)
    requires b in rows && InScope(b, org, project) && IsSample(b)
    ensures b.id in Ids(SampleRows(rows, org, project))
  {
    SampleRowsHold(rows, org, project, b);
    var listed := SampleRows(rows, org, project);
    var k :| 0 <= k < |listed| && listed[k] == b;
  }

  lemma LeftBoards(s: Store, org: string, project: Option<string>, n: nat, b: Row)
    requires UniqueIds(s.boards) && n <= |SampleRows(s.boards, org, project)|
    requires b in RemoveFirst(s.boards, org, project, n) && IsSample(b)
    ensures b in s.boards
    ensures n == |SampleRows(s.boards, org, project)| ==> !InScope(b, org, project)
  {
    var listed := SampleRows(s.boards, org, project);
    WithoutHolds(s.boards, Ids(listed[..n]), b);
    assert listed[..|listed|] == listed;
    if InScope(b, org, project) {
      SamplesAreListed(s.boards, org, project, b);
    }
  }

  lemma RemoveKeeps(fx: Fixture, s: Store, org: string, project: Option<string>, n: nat, q: nat, d: nat)
    requires UniqueIds(s.boards) && UniqueIds(s.queries) && UniqueIds(s.datastores)
    requires CanRemove(s, org, project, n, q, d) && SamplesOk(fx, s)
    ensures SamplesOk(fx, RemovePart(s, org, project, n, q, d))
  {
    var t := RemovePart(s, org, project, n, q, d);
    forall i | 0 <= i < |t.boards| && IsSample(t.boards[i])
      ensures BoardOk(Place(fx, t.queries, t.datastores, t.boards[i].org, t.boards[i].project, true), t.boards[i])
    {
      var b := t.boards[i];
      assert b in t.boards;
      LeftBoards(s, org, project, n, b);
      var j :| 0 <= j < |s.boards| && s.boards[j] == b;
      RemoveKeepsRows(s.queries, org, project, q, b);
      RemoveKeepsRows(s.datastores, org, project, d, b);
      BoardKept(fx, b, s.queries, s.datastores, t.queries, t.datastores);
    }
  }

  // ----- identifiers -----

  ghost predicate IsMinted(mint: nat -> string, id: string, next: nat) {
    exists m: nat :: m < next && id == mint(m)
  }

  ghost predicate IdsOk(mint: nat -> string, rows: seq<Row>, next: nat) {
    UniqueIds(rows) && forall i :: 0 <= i < |rows| ==> IsMinted(mint, rows[i].id, next)
  }

  lemma LaterIsMinted(mint: nat -> string, id: string, next: nat, later: nat)
    requires IsMinted(mint, id, next) && next <= later
    ensures IsMinted(mint, id, later)
  {
    var m: nat :| m < next && id == mint(m);
    assert m < later && id == mint(m);
  }

  lemma IdsLater(mint: nat -> string, rows: seq<Row>, next: nat, later: nat)
    requires IdsOk(mint, rows, next) && next <= later
    ensures IdsOk(mint, rows, later)
  {
    forall i | 0 <= i < |rows| ensures IsMinted(mint, rows[i].id, later) {
      LaterIsMinted(mint, rows[i].id, next, later);
    }
  }

  lemma IdsAppend(mint: nat -> string, rows: seq<Row>, next: nat, row: Row)
    requires Minting(mint) && IdsOk(mint, rows, next) && row.id == mint(next)
    ensures IdsOk(mint, rows + [row], next + 1)
  {
    IdsLater(mint, rows, next, next + 1);
    assert IsMinted(mint, row.id, next + 1);
    forall i | 0 <= i < |rows| ensures rows[i].id != row.id {
      assert IsMinted(mint, rows[i].id, next);
    }
  }

  lemma {:induction false} IdsWithout(mint: nat -> string, rows: seq<Row>, next: nat, ids: set<string>)
    requires IdsOk(mint, rows, next)
    ensures IdsOk(mint, Without(rows, ids), next)
  {
    if rows != [] {
      IdsWithout(mint, rows[1..], next, ids);
      if rows[0].id !in ids {
        var rest := Without(rows[1..], ids);
        forall k | 0 <= k < |rest| ensures rest[k].id != rows[0].id {
          assert rest[k] in rest;
          WithoutHolds(rows[1..], ids, rest[k]);
        }
      }
    }
  }

  ghost predicate StoreIdsOk(mint: nat -> string, s: Store) {
    IdsOk(mint, s.boards, s.next) && IdsOk(mint, s.queries, s.next) && IdsOk(mint, s.datastores, s.next)
  }

  lemma UpsertIds(mint: nat -> string, rows: seq<Row>, next: nat, org: string, project: Option<string>, name: string,
                  config: Dict, sid: string)
    requires Minting(mint) && IdsOk(mint, rows, next)
    ensures var u := Upsert(mint, rows, next, org, project, name, config, sid);
            next <= u.next && IdsOk(mint, u.rows, u.next)
  {
    if Find(rows, org, project, sid) == None {
      IdsAppend(mint, rows, next, NewRow(mint(next), org, project, name, config, sid));
    }
  }

  lemma OthersLater(mint: nat -> string, s: Store, next: nat)
    requires StoreIdsOk(mint, s) && s.next <= next
    ensures StoreIdsOk(mint, s.(next := next))
  {
    IdsLater(mint, s.boards, s.next, next);
    IdsLater(mint, s.queries, s.next, next);
    IdsLater(mint, s.datastores, s.next, next);
  }

  lemma {:induction false} SeedQueriesIds(mint: nat -> string, fx: Fixture, s: Store, org: string,
                                          project: Option<string>,
                                          ds: string, keys: seq<string>, n: nat)
    requires Minting(mint) && StoreIdsOk(mint, s)
    requires n <= |keys| && forall i :: 0 <= i < |keys| ==> keys[i] in fx.queries
    ensures StoreIdsOk(mint, SeedQueries(mint, fx, s, org, project, ds, keys, n).store)
  {
    if n > 0 {
      SeedQueriesIds(mint, fx, s, org, project, ds, keys, n - 1);
      var before := SeedQueries(mint, fx, s, org, project, ds, keys, n - 1).store;
      var q := fx.queries[keys[n - 1]];
      UpsertIds(mint, before.queries, before.next, org, project, q.name, QueryConfigFor(q, ds), QueryId(keys[n - 1]));
      var config, sid := QueryConfigFor(q, ds), QueryId(keys[n - 1]);
      OthersLater(mint, before, Upsert(mint, before.queries, before.next, org, project, q.name, config, sid).next);
    }
  }

  lemma {:induction false} SeedBoardsIds(mint: nat -> string, fx: Fixture, s: Store, org: string,
                                         project: Option<string>,
                                         idmap: map<string, string>, n: nat)
    requires Minting(mint) && StoreIdsOk(mint, s) && n <= |fx.boards|
    ensures StoreIdsOk(mint, SeedBoards(mint, fx, s, org, project, idmap, n).store)
  {
    if n > 0 {
      SeedBoardsIds(mint, fx, s, org, project, idmap, n - 1);
      var before := SeedBoards(mint, fx, s, org, project, idmap, n - 1).store;
      var b := fx.boards[n - 1];
      UpsertIds(mint, before.boards, before.next, org, project, b.name, BoardConfig(b, idmap), BoardId(b.seedId));
      var config, sid := BoardConfig(b, idmap), BoardId(b.seedId);
      OthersLater(mint, before, Upsert(mint, before.boards, before.next, org, project, b.name, config, sid).next);
    }
  }

  lemma SeedIds(mint: nat -> string, fx: Fixture, s: Store, org: string, project: Option<string>, k: nat, n: nat)
    requires Minting(mint) && StoreIdsOk(mint, s)
    requires k <= |Keys(fx)| && n <= |fx.boards| && (n > 0 ==> k == |Keys(fx)|)
    ensures StoreIdsOk(mint, SeedPart(mint, fx, s, org, project, k, n).store)
  {
    KeysAreKnown(fx);
    var ds := SeedDatastore(mint, fx, s, org, project);
    UpsertIds(mint, s.datastores, s.next, org, project, "Sample", fx.datastore, DATASTORE_ID);
    OthersLater(mint, s, ds.next);
    SeedQueriesIds(mint, fx, AfterDatastore(s, ds), org, project, ds.id, Keys(fx), k);
    var q := BeforeBoards(mint, fx, s, org, project, k);
    SeedBoardsIds(mint, fx, q.store, org, project, q.idmap["@sample_datastore" := ds.id], n);
  }

  // ----- runs -----

  ghost predicate Inv(mint: nat -> string, fx: Fixture, s: Store) {
    StoreIdsOk(mint, s) && SamplesOk(fx, s)
  }

  lemma AddKeeps(mint: nat -> string, fx: Fixture, s: Store, t: Table, row: Row)
    requires Minting(mint) && Inv(mint, fx, s) && row.id == mint(s.next) && !IsSample(row)
    ensures Inv(mint, fx, WithRows(s, t, RowsOf(s, t) + [row]).(next := s.next + 1))
  {
    var after := WithRows(s, t, RowsOf(s, t) + [row]).(next := s.next + 1);
    OthersLater(mint, s, s.next + 1);
    IdsAppend(mint, RowsOf(s, t), s.next, row);
    forall i | 0 <= i < |after.boards| && IsSample(after.boards[i])
      ensures BoardOk(Place(fx, after.queries, after.datastores, after.boards[i].org, after.boards[i].project, true),
                      after.boards[i])
    {
      assert after.boards[i] == s.boards[i];
      BoardKept(fx, s.boards[i], s.queries, s.datastores, after.queries, after.datastores);
    }
  }

  lemma DropKeepsRows(rows: seq<Row>, id: string, org: string, project: Option<string>)
    requires forall r :: r in rows && r.id == id ==> !IsSample(r)
    ensures KeepsRows(rows, Without(rows, {id}), org, project)
  {
    forall r | r in rows && r.org == org && r.project == project && IsSample(r) ensures r in Without(rows, {id}) {
      WithoutHolds(rows, {id}, r);
    }
  }

  lemma DropKeeps(mint: nat -> string, fx: Fixture, s: Store, t: Table, id: string)
    requires Inv(mint, fx, s) && Enabled(fx, s, UserDrop(t, id))
    ensures Inv(mint, fx, WithRows(s, t, Without(RowsOf(s, t), {id})))
  {
    var after := WithRows(s, t, Without(RowsOf(s, t), {id}));
    IdsWithout(mint, RowsOf(s, t), s.next, {id});
    forall i | 0 <= i < |after.boards| && IsSample(after.boards[i])
      ensures BoardOk(Place(fx, after.queries, after.datastores, after.boards[i].org, after.boards[i].project, true),
                      after.boards[i])
    {
      var b := after.boards[i];
      assert b in after.boards;
      WithoutHolds(s.boards, {id}, b);
      var j :| 0 <= j < |s.boards| && s.boards[j] == b;
      DropKeepsRows(RowsOf(s, t), id, b.org, b.project);
      BoardKept(fx, b, s.queries, s.datastores, after.queries, after.datastores);
    }
  }

  lemma StepKeepsInv(mint: nat -> string, fx: Fixture, s: Store, a: Action)
    requires Minting(mint) && Inv(mint, fx, s) && Enabled(fx, s, a)
    ensures Inv(mint, fx, Step(mint, fx, s, a))
  {
    match a
    case SeedUpTo(org, project, k, n) =>
      SeedKeeps(mint, fx, s, org, project, k, n);
      SeedIds(mint, fx, s, org, project, k, n);
    case RemoveUpTo(org, project, b, q, d) =>
      RemoveKeeps(fx, s, org, project, b, q, d);
      IdsWithout(mint, s.boards, s.next, Ids(SampleRows(s.boards, org, project)[..b]));
      IdsWithout(mint, s.queries, s.next, Ids(SampleRows(s.queries, org, project)[..q]));
      IdsWithout(mint, s.datastores, s.next, Ids(SampleRows(s.datastores, org, project)[..d]));
    case UserAdd(t, org, project, name, config) =>
      AddKeeps(mint, fx, s, t, Row(mint(s.next), org, project, name, config));
    case UserDrop(t, id) => DropKeeps(mint, fx, s, t, id);
  }

  /** The store after a run, if each of its actions could happen. */
  ghost function Run(mint: nat -> string, fx: Fixture, s: Store, actions: seq<Action>): Option<Store>
    decreases |actions|
  {
    if actions == [] then Some(s)
    else if Enabled(fx, s, actions[0]) then Run(mint, fx, Step(mint, fx, s, actions[0]), actions[1..])
    else None
  }

  lemma {:induction false} RunKeepsInv(mint: nat -> string, fx: Fixture, s: Store, actions: seq<Action>)
    requires Minting(mint) && Inv(mint, fx, s) && Run(mint, fx, s, actions).Some?
    ensures Inv(mint, fx, Run(mint, fx, s, actions).value)
    decreases |actions|
  {
    if actions != [] {
      StepKeepsInv(mint, fx, s, actions[0]);
      RunKeepsInv(mint, fx, Step(mint, fx, s, actions[0]), actions[1..]);
    }
  }

  /**
   * In every run from an empty store, however seeds and removals are interleaved and interrupted, each
   * sample board is a fixture board in which every placeholder, at any depth, has become the identifier
   * of a row now in the board's own project, or nothing where no fixture knows the key.
   */
  lemma BoardsPointAtLiveRows(mint: nat -> string, fx: Fixture, actions: seq<Action>)
    requires Minting(mint) && Run(mint, fx, Store([], [], [], 0), actions).Some?
    ensures SamplesOk(fx, Run(mint, fx, Store([], [], [], 0), actions).value)
  {
    RunKeepsInv(mint, fx, Store([], [], [], 0), actions);
  }

  // ----- removing undoes seeding -----

  lemma {:induction false} NotSamplesSnoc(rows: seq<Row>, row: Row, org: string, project: Option<string>)
    requires InScope(row, org, project) && IsSample(row)
    ensures NotSamples(rows + [row], org, project) == NotSamples(rows, org, project)
  {
    if rows == [] {
      assert rows + [row] == [row] && [row][1..] == [];
    } else {
      NotSamplesSnoc(rows[1..], row, org, project);
      assert (rows + [row])[1..] == rows[1..] + [row];
    }
  }

  lemma UpsertNotSamples(mint: nat -> string, rows: seq<Row>, next: nat, org: string, project: Option<string>,
                         name: string, config: Dict, sid: string)
    ensures NotSamples(Upsert(mint, rows, next, org, project, name, config, sid).rows, org, project)
            == NotSamples(rows, org, project)
  {
    if Find(rows, org, project, sid) == None {
      NotSamplesSnoc(rows, NewRow(mint(next), org, project, name, config, sid), org, project);
    }
  }

  lemma {:induction false} QueriesNotSamples(mint: nat -> string, fx: Fixture, s: Store, org: string,
                                             project: Option<string>,
                                             ds: string, keys: seq<string>, n: nat)
    requires n <= |keys| && forall i :: 0 <= i < |keys| ==> keys[i] in fx.queries
    ensures NotSamples(SeedQueries(mint, fx, s, org, project, ds, keys, n).store.queries, org, project)
            == NotSamples(s.queries, org, project)
  {
    if n > 0 {
      QueriesNotSamples(mint, fx, s, org, project, ds, keys, n - 1);
      var before := SeedQueries(mint, fx, s, org, project, ds, keys, n - 1).store;
      var q := fx.queries[keys[n - 1]];
      UpsertNotSamples(mint, before.queries, before.next, org, project, q.name, QueryConfigFor(q, ds),
          QueryId(keys[n - 1]));
    }
  }

  lemma {:induction false} BoardsNotSamples(mint: nat -> string, fx: Fixture, s: Store, org: string,
                                            project: Option<string>,
                                            idmap: map<string, string>, n: nat)
    requires n <= |fx.boards|
    ensures NotSamples(SeedBoards(mint, fx, s, org, project, idmap, n).store.boards, org, project)
            == NotSamples(s.boards, org, project)
  {
    if n > 0 {
      BoardsNotSamples(mint, fx, s, org, project, idmap, n - 1);
      var before := SeedBoards(mint, fx, s, org, project, idmap, n - 1).store;
      var b := fx.boards[n - 1];
      UpsertNotSamples(mint, before.boards, before.next, org, project, b.name, BoardConfig(b, idmap),
          BoardId(b.seedId));
    }
  }

  /** A seed adds sample rows of its scope and nothing else. */
  lemma SeedAddsSamplesOnly(mint: nat -> string, fx: Fixture, s: Store, org: string, project: Option<string>,
                            table: Table)
    ensures NotSamples(RowsOf(Seed(mint, fx, s, org, project).store, table), org, project)
            == NotSamples(RowsOf(s, table), org, project)
  {
    var n := |fx.boards|;
    KeysAreKnown(fx);
    var ds := SeedDatastore(mint, fx, s, org, project);
    var q := BeforeBoards(mint, fx, s, org, project, |Keys(fx)|);
    BeforeBoardsFacts(mint, fx, s, org, project, |Keys(fx)|);
    SeedIsTwoPhases(mint, fx, s, org, project, |Keys(fx)|, n);
    var idmap := IdMap(fx, q.store, org, project);
    BoardsAreThere(mint, fx, q.store, org, project, idmap, n);
    match table
    case Boards => BoardsNotSamples(mint, fx, q.store, org, project, idmap, n);
    case Queries => QueriesNotSamples(mint, fx, AfterDatastore(s, ds), org, project, ds.id, Keys(fx), |Keys(fx)|);
    case Datastores =>
      QueriesAreThere(mint, fx, AfterDatastore(s, ds), org, project, ds.id, Keys(fx), |Keys(fx)|);
      UpsertNotSamples(mint, s.datastores, s.next, org, project, "Sample", fx.datastore, DATASTORE_ID);
  }

  /** Seeding a scope and then removing its bundle leaves the rows a removal alone would have left. */
  lemma RemoveUndoesSeed(mint: nat -> string, fx: Fixture, s: Store, org: string, project: Option<string>, table: Table)
    requires Minting(mint) && StoreIdsOk(mint, s)
    ensures var rows := RowsOf(Seed(mint, fx, s, org, project).store, table);
            RemoveFirst(rows, org, project, |SampleRows(rows, org, project)|) ==
            RemoveFirst(RowsOf(s, table), org, project, |SampleRows(RowsOf(s, table), org, project)|)
  {
    SeedIds(mint, fx, s, org, project, |Keys(fx)|, |fx.boards|);
    SeedAddsSamplesOnly(mint, fx, s, org, project, table);
    RemoveIsExact(RowsOf(Seed(mint, fx, s, org, project).store, table), org, project);
    RemoveIsExact(RowsOf(s, table), org, project);
  }
}
