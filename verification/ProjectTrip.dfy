/** What writing a project to files and reading it back keeps: exact conditions. */
module ProjectTrip {
  import opened Names
  import opened Portable
  import opened ProjectFiles
  import opened PyText
  import opened Wrappers

  // ----- paths -----

  function Base(py: Python, e: Envelope): string {
    Folder(e.kind) + "/" + SlugOf(py, e)
  }

  function MainPath(py: Python, e: Envelope): string {
    Base(py, e) + Suffix(e.kind)
  }

  /** The path up to its first dot. */
  function KeyOf(path: string): string {
    path[..FirstIndex(path, '.')]
  }

  predicate NoDot(s: string) {
    forall i :: 0 <= i < |s| ==> s[i] != '.'
  }

  lemma BaseHasNoDot(py: Python, e: Envelope)
    ensures NoDot(Base(py, e))
    ensures '/' !in SlugOf(py, e) && SlugOf(py, e) != ""
  {
    SlugIsSafe(py, NameOf(py, e));
    FolderHasNoDot(e.kind);
  }

  lemma FolderHasNoDot(kind: Kind)
    ensures NoDot(Folder(kind)) && '/' !in Folder(kind) && Folder(kind) != ""
  {
  }

  lemma KeyOfFile(base: string, ext: string)
    requires NoDot(base) && ext != "" && ext[0] == '.'
    ensures KeyOf(base + ext) == base
  {
    FirstIndexOf(base + ext, base, '.');
  }

  lemma FoldersDiffer(a: Kind, b: Kind)
    requires a != b
    ensures Folder(a)[0] != Folder(b)[0]
  {
  }

  lemma BaseNamesKind(py: Python, a: Envelope, b: Envelope)
    requires Base(py, a) == Base(py, b)
    ensures a.kind == b.kind && SlugOf(py, a) == SlugOf(py, b)
  {
    assert Base(py, a)[0] == Folder(a.kind)[0] && Base(py, b)[0] == Folder(b.kind)[0];
    if a.kind != b.kind {
      FoldersDiffer(a.kind, b.kind);
    }
    assert Base(py, a)[|Folder(a.kind)| + 1..] == SlugOf(py, a);
    assert Base(py, b)[|Folder(b.kind)| + 1..] == SlugOf(py, b);
  }

  lemma {:induction false} ReplaceAfter(dir: string, from: string, to: string, rest: string)
    requires '/' !in dir && from != "" && from[0] == '/'
    ensures ReplaceFirst(dir + (from + rest), from, to) == dir + (to + rest)
  {
    var s := dir + (from + rest);
    if dir == "" {
      assert s == from + rest && s[|from|..] == rest;
    } else {
      ReplaceAfter(dir[1..], from, to, rest);
      assert s[1..] == dir[1..] + (from + rest);
      assert s[0] == dir[0] && dir[0] in dir;
      assert dir + (to + rest) == [dir[0]] + (dir[1..] + (to + rest));
    }
  }

  /** Renaming the stem replaces exactly the identifier in the path, whatever the identifier is. */
  lemma RestemPath(dir: string, rid: string, slug: string, ext: string, content: string)
    requires '/' !in dir && rid != ""
    ensures Restem(Item(dir + "/" + rid + ext, content), rid, slug) == Item(dir + "/" + slug + ext, content)
  {
    ReplaceAfter(dir, "/" + rid, "/" + slug, ext);
    assert dir + "/" + rid + ext == dir + (("/" + rid) + ext);
    assert dir + "/" + slug + ext == dir + (("/" + slug) + ext);
  }

  // ----- the files of one envelope -----

  function QueryStem(py: Python, e: Envelope): string {
    if IdOf(py, e) != "" then IdOf(py, e) else SlugOf(py, e)
  }

  function SqlText(py: Python, e: Envelope): string {
    py.str(GetOr(e.spec, "sql", JString("")))
  }

  /** The part of a query's configuration kept in the metadata file. */
  function MetaConfig(py: Python, e: Envelope): Dict {
    map[
      "name" := Or(JString(NameOf(py, e)), Or(Get(e.spec, "name"), JString(""))),
      "params" := Or(Get(e.spec, "params"), JArray([])),
      "datastore_id" := Get(e.spec, "datastore_id")
    ]
  }

  function SchemaDoc(py: Python, e: Envelope): Json {
    if Get(e.spec, "output_schema").JArray? then JArray(NormalSchema(py, Get(e.spec, "output_schema").items)) else JNull
  }

  function MetaText(py: Python, e: Envelope): string {
    py.jsonDump(MetaDoc(QueryStem(py, e), NameOf(py, e), MetaConfig(py, e)))
  }

  function DashboardText(py: Python, e: Envelope): string {
    var config: Dict := map["spec" := JObject(e.spec)];
    py.jsonDump(MetaDoc(IdOf(py, e), NameOf(py, e), config))
  }

  /** The files an envelope stands for, named by its slug. */
  function FilesOf(py: Python, e: Envelope): seq<Item> {
    var base := Base(py, e);
    match e.kind
    case Connector => [Item(base + ".yaml", py.yamlDump(ConnectorDoc(py, e)))]
    case Dashboard => [Item(base + ".json", DashboardText(py, e))]
    case Query =>
      var items := [Item(base + ".sql", SqlText(py, e)), Item(base + ".meta.json", MetaText(py, e))];
      if SchemaDoc(py, e).JArray? then items + [Item(base + ".json", py.jsonDump(SchemaDoc(py, e)))] else items
  }

  lemma RestOfConfig(py: Python, e: Envelope)
    ensures var config := FileConfig(py, e);
            (map k | k in config && k != "sql" && k != "output_schema" :: config[k]) == MetaConfig(py, e)
  {
  }

  lemma ConfigFields(py: Python, e: Envelope)
    ensures GetOr(FileConfig(py, e), "sql", JString("")) == GetOr(e.spec, "sql", JString(""))
    ensures var schema := Get(e.spec, "output_schema");
            Get(FileConfig(py, e), "output_schema") == if schema.JArray? then schema else JNull
  {
  }

  lemma QueryItems(py: Python, e: Envelope, stem: string)
    requires stem == QueryStem(py, e)
    ensures var items := QueryFilesFallback(py, stem, NameOf(py, e), FileConfig(py, e));
            && |items| == (if SchemaDoc(py, e).JArray? then 3 else 2)
            && items[0] == Item("queries/" + stem + ".sql", SqlText(py, e))
            && items[1] == Item("queries/" + stem + ".meta.json", MetaText(py, e))
            && (|items| == 3 ==> items[2] == Item("queries/" + stem + ".json", py.jsonDump(SchemaDoc(py, e))))
  {
    RestOfConfig(py, e);
    ConfigFields(py, e);
  }

  /** `envelope_to_files` writes those files: the renaming undoes the naming by identifier. */
  lemma EnvelopeFiles(py: Python, e: Envelope)
    ensures EnvelopeToFiles(py, e) == FilesOf(py, e)
  {
    var rid, slug := IdOf(py, e), SlugOf(py, e);
    FolderHasNoDot(e.kind);
    match e.kind
    case Connector =>
      assert "connectors/" == "connectors" + "/";
    case Dashboard =>
      assert "dashboards/" == "dashboards" + "/";
      if rid != "" {
        RestemPath("dashboards", rid, slug, ".json", DashboardText(py, e));
      }
    case Query =>
      var stem := QueryStem(py, e);
      QueryItems(py, e, stem);
      assert "queries/" == "queries" + "/";
      if rid != "" {
        RestemPath("queries", rid, slug, ".sql", SqlText(py, e));
        RestemPath("queries", rid, slug, ".meta.json", MetaText(py, e));
        RestemPath("queries", rid, slug, ".json", py.jsonDump(SchemaDoc(py, e)));
      }
  }

  function PathsOf(items: seq<Item>): (r: seq<string>)
    ensures |r| == |items|
  {
    seq(|items|, i requires 0 <= i < |items| => items[i].path)
  }

  /** Whether or not it has an identifier, an envelope's files are named by its slug, one folder a kind. */
  lemma FileNames(py: Python, e: Envelope)
    ensures var paths, slug := PathsOf(EnvelopeToFiles(py, e)), SlugOf(py, e);
            match e.kind
            case Connector => paths == ["connectors" + "/" + slug + ".yaml"]
            case Dashboard => paths == ["dashboards" + "/" + slug + ".json"]
            case Query =>
              var two := ["queries" + "/" + slug + ".sql", "queries" + "/" + slug + ".meta.json"];
              paths == if Get(e.spec, "output_schema").JArray? then two + ["queries" + "/" + slug + ".json"] else two
  {
    EnvelopeFiles(py, e);
  }

  /** The files of one envelope as a tree. */
  function Alone(py: Python, e: Envelope): map<string, string> {
    Written(map[], FilesOf(py, e))
  }

  lemma Extensions(base: string)
    ensures base + ".sql" != base + ".meta.json" && base + ".sql" != base + ".json"
            && base + ".json" != base + ".meta.json"
    ensures base + ".schema.json" != base + ".sql" && base + ".schema.json" != base + ".meta.json"
         && base + ".schema.json" != base + ".json"
  {
    assert (base + ".sql")[|base| + 1] == 's' && (base + ".meta.json")[|base| + 1] == 'm';
    assert (base + ".json")[|base| + 1] == 'j' && (base + ".schema.json")[|base| + 1] == 's';
    assert (base + ".sql")[|base| + 2] == 'q' && (base + ".schema.json")[|base| + 2] == 'c';
  }

  /** The query's three files, and no other. */
  lemma AloneQuery(py: Python, e: Envelope)
    requires e.kind == Query
    ensures var base, m := Base(py, e), Alone(py, e);
            && base + ".sql" in m && m[base + ".sql"] == SqlText(py, e)
            && base + ".meta.json" in m && m[base + ".meta.json"] == MetaText(py, e)
            && (base + ".json" in m <==> SchemaDoc(py, e).JArray?)
            && (base + ".json" in m ==> m[base + ".json"] == py.jsonDump(SchemaDoc(py, e)))
            && m.Keys <= {base + ".sql", base + ".meta.json", base + ".json"}
  {
    var base, items := Base(py, e), FilesOf(py, e);
    Extensions(base);
    assert items[..2][..1] == [items[0]] && items[..1] == [items[0]];
    assert items[..1][..0] == [];
    var none: map<string, string> := map[];
    assert Written(none, []) == none;
    assert Written(none, items[..1]) == none[items[0].path := items[0].content];
    assert Written(none, items[..2]) == Written(none, items[..1])[items[1].path := items[1].content];
    if |items| == 2 {
      assert items[..2] == items;
    }
  }

  lemma AloneSingle(py: Python, e: Envelope)
    requires e.kind != Query
    ensures Alone(py, e) == map[MainPath(py, e) := FilesOf(py, e)[0].content]
  {
    var items := FilesOf(py, e);
    var none: map<string, string> := map[];
    assert items[..0] == [] && Written(none, []) == none;
    assert items[0].path == MainPath(py, e);
  }

  lemma FilesHaveKey(py: Python, e: Envelope, path: string)
    requires path in Alone(py, e)
    ensures KeyOf(path) == Base(py, e)
  {
    var base := Base(py, e);
    BaseHasNoDot(py, e);
    if e.kind == Query {
      AloneQuery(py, e);
      KeyOfFile(base, ".sql");
      KeyOfFile(base, ".meta.json");
      KeyOfFile(base, ".json");
    } else {
      AloneSingle(py, e);
      KeyOfFile(base, Suffix(e.kind));
    }
  }

  lemma MainIsThere(py: Python, e: Envelope)
    ensures MainPath(py, e) in Alone(py, e)
  {
    if e.kind == Query {
      AloneQuery(py, e);
    } else {
      AloneSingle(py, e);
    }
  }

  // ----- the tree of many envelopes -----

  lemma {:induction false} WrittenOver(files: map<string, string>, items: seq<Item>)
    ensures Written(files, items) == files + Written(map[], items)
  {
    if items != [] {
      WrittenOver(files, items[..|items| - 1]);
    }
  }

  lemma TreeStep(py: Python, es: seq<Envelope>, last: Envelope)
    ensures Tree(py, es + [last]) == Tree(py, es) + Alone(py, last)
  {
    assert (es + [last])[..|es|] == es;
    EnvelopeFiles(py, last);
    WrittenOver(Tree(py, es), FilesOf(py, last));
  }

  /** A path is in the tree exactly when some envelope writes it, and then with that envelope's text. */
  lemma {:induction false} TreePaths(py: Python, es: seq<Envelope>, path: string)
    ensures path in Tree(py, es) <==> exists i :: 0 <= i < |es| && path in Alone(py, es[i])
    ensures path in Tree(py, es) ==>
              exists i :: 0 <= i < |es| && path in Alone(py, es[i]) && Tree(py, es)[path] == Alone(py, es[i])[path]
  {
    if es != [] {
      var n := |es| - 1;
      var init, last := es[..n], es[n];
      assert es == init + [last];
      TreeStep(py, init, last);
      TreePaths(py, init, path);
      if path in Alone(py, last) {
        assert path in Alone(py, es[n]);
      } else if path in Tree(py, init) {
        var i :| 0 <= i < n && path in Alone(py, init[i]) && Tree(py, init)[path] == Alone(py, init[i])[path];
        assert es[i] == init[i];
      }
      if i :| 0 <= i < |es| && path in Alone(py, es[i]) && i < n {
        assert init[i] == es[i];
      }
    }
  }

  /** Nobody else writes under the base path of `es[i]`. */
  ghost predicate OwnBase(py: Python, es: seq<Envelope>, i: nat)
    requires i < |es|
  {
    forall j :: 0 <= j < |es| && j != i ==> Base(py, es[j]) != Base(py, es[i])
  }

  /** The tree holds the envelope's own files, and nothing else under its base path. */
  ghost predicate Agrees(py: Python, files: map<string, string>, e: Envelope) {
    forall path :: KeyOf(path) == Base(py, e) ==>
      (path in files <==> path in Alone(py, e)) && (path in files ==> files[path] == Alone(py, e)[path])
  }

  lemma TreeAgrees(py: Python, es: seq<Envelope>, i: nat)
    requires i < |es| && OwnBase(py, es, i)
    ensures Agrees(py, Tree(py, es), es[i])
  {
    forall path | KeyOf(path) == Base(py, es[i])
      ensures path in Tree(py, es) <==> path in Alone(py, es[i])
      ensures path in Tree(py, es) ==> Tree(py, es)[path] == Alone(py, es[i])[path]
    {
      TreePaths(py, es, path);
      forall j | 0 <= j < |es| && path in Alone(py, es[j]) ensures j == i {
        FilesHaveKey(py, es[j], path);
      }
    }
  }

  // ----- one envelope read back -----

  /** What comes back for an envelope. */
  function Back(py: Python, e: Envelope): Envelope {
    var name := NameOf(py, e);
    match e.kind
    case Connector => Envelope(Connector, ReadMetadata(py, JString(name), JString(IdOf(py, e))), e.spec)
    case Dashboard => Envelope(Dashboard, ReadMetadata(py, JString(name), JString(IdOf(py, e))), e.spec)
    case Query =>
      var shown := Or(JString(name), Or(Get(e.spec, "name"), JString("")));
      var spec := map[
        "name" := shown,
        "sql" := JString(ReadText(SqlText(py, e))),
        "params" := Or(Get(e.spec, "params"), JArray([])),
        "datastore_id" := Get(e.spec, "datastore_id")
      ];
      Envelope(Query, ReadMetadata(py, shown, JString(QueryStem(py, e))),
               Optional(spec, "output_schema", SchemaDoc(py, e), SchemaDoc(py, e).JArray?))
  }

  lemma IdIsText(py: Python, e: Envelope)
    requires Lawful(py)
    ensures Truthy(Get(e.metadata, "id")) <==> IdOf(py, e) != ""
    ensures py.str(JString(IdOf(py, e))) == IdOf(py, e)
  {
  }

  lemma ConnectorBack(py: Python, e: Envelope)
    requires Lawful(py) && e.kind == Connector
    ensures ReadConnector(py, ReadText(py.yamlDump(ConnectorDoc(py, e)))) == Some(Back(py, e))
  {
    IdIsText(py, e);
    assert py.yamlLoad(ReadText(py.yamlDump(ConnectorDoc(py, e)))) == Some(ConnectorDoc(py, e));
  }

  lemma DashboardBack(py: Python, e: Envelope)
    requires Lawful(py) && e.kind == Dashboard
    ensures ReadDashboard(py, ReadText(DashboardText(py, e))) == Some(Back(py, e))
  {
    var config: Dict := map["spec" := JObject(e.spec)];
    var doc := MetaDoc(IdOf(py, e), NameOf(py, e), config);
    assert py.jsonLoad(ReadText(py.jsonDump(doc))) == Some(doc);
  }

  lemma SidecarBack(py: Python, files: map<string, string>, e: Envelope)
    requires Lawful(py) && e.kind == Query && Agrees(py, files, e)
    ensures var r := ReadSidecar(py, files, Base(py, e));
            if SchemaDoc(py, e).JArray? then r == Some(SchemaDoc(py, e)) else r == None
  {
    var base := Base(py, e);
    AloneQuery(py, e);
    Extensions(base);
    BaseHasNoDot(py, e);
    KeyOfFile(base, ".schema.json");
    KeyOfFile(base, ".json");
    assert base + ".schema.json" !in files;
    assert py.jsonLoad(ReadText(py.jsonDump(SchemaDoc(py, e)))) == Some(SchemaDoc(py, e));
  }

  lemma QueryEnvelopeBack(py: Python, e: Envelope)
    requires Lawful(py) && e.kind == Query
    ensures var meta := MetaDoc(QueryStem(py, e), NameOf(py, e), MetaConfig(py, e)).fields;
            QueryEnvelope(py, meta, MetaConfig(py, e), JString(ReadText(SqlText(py, e))), SchemaDoc(py, e))
                == Back(py, e)
  {
  }

  lemma QueryBack(py: Python, files: map<string, string>, e: Envelope)
    requires Lawful(py) && e.kind == Query && Agrees(py, files, e)
    ensures Base(py, e) + ".meta.json" in files && ReadQuery(py, files, Base(py, e)) == Some(Back(py, e))
  {
    var base := Base(py, e);
    var doc := MetaDoc(QueryStem(py, e), NameOf(py, e), MetaConfig(py, e));
    AloneQuery(py, e);
    BaseHasNoDot(py, e);
    KeyOfFile(base, ".sql");
    KeyOfFile(base, ".meta.json");
    assert py.jsonLoad(ReadText(py.jsonDump(doc))) == Some(doc);
    assert Or(Get(doc.fields, "config"), JObject(map[])) == JObject(MetaConfig(py, e));
    SidecarBack(py, files, e);
    assert !SchemaDoc(py, e).JArray? ==> SchemaDoc(py, e) == Get(MetaConfig(py, e), "output_schema");
    QueryEnvelopeBack(py, e);
  }

  lemma MainIsListed(py: Python, e: Envelope)
    ensures Listed(MainPath(py, e), e.kind)
  {
    BaseHasNoDot(py, e);
    var p, dir := MainPath(py, e), Folder(e.kind) + "/";
    assert p == dir + (SlugOf(py, e) + Suffix(e.kind));
    assert p[|dir|..] == SlugOf(py, e) + Suffix(e.kind);
    assert '/' !in Suffix(e.kind);
  }

  lemma BaseOfMain(py: Python, e: Envelope)
    ensures MainPath(py, e)[..|MainPath(py, e)| - |Suffix(e.kind)|] == Base(py, e)
  {
  }

  /** From a tree that holds an envelope's files under its base path, that envelope comes back. */
  lemma ReadsBack(py: Python, files: map<string, string>, e: Envelope)
    requires Lawful(py) && Agrees(py, files, e)
    ensures MainPath(py, e) in files && Listed(MainPath(py, e), e.kind)
    ensures ReadOne(py, files, e.kind, MainPath(py, e)) == Some(Back(py, e))
  {
    MainIsListed(py, e);
    MainIsThere(py, e);
    FilesHaveKey(py, e, MainPath(py, e));
    BaseOfMain(py, e);
    match e.kind
    case Connector =>
      AloneSingle(py, e);
      ConnectorBack(py, e);
    case Dashboard =>
      AloneSingle(py, e);
      DashboardBack(py, e);
    case Query =>
      QueryBack(py, files, e);
  }

  // ----- the whole tree read back -----

  /** Without a dot before it, neither sidecar nor SQL file looks like a metadata file. */
  lemma OnlyMetaIsMeta(base: string)
    requires NoDot(base) && |base| >= 6
    ensures !HasSuffix(base + ".sql", ".meta.json") && !HasSuffix(base + ".json", ".meta.json")
  {
    var sql, json := base + ".sql", base + ".json";
    assert sql[|sql| - 1] == 'l' && sql[|sql| - 10..][9] == sql[|sql| - 1];
    assert json[|json| - 10] == base[|base| - 5] && json[|json| - 10..][0] == json[|json| - 10];
  }

  /** Every listed path is the main path of an envelope of that kind. */
  lemma ListedIsMain(py: Python, e: Envelope, kind: Kind, path: string)
    requires path in Alone(py, e) && Listed(path, kind)
    ensures e.kind == kind && path == MainPath(py, e)
  {
    var base := Base(py, e);
    BaseHasNoDot(py, e);
    if e.kind == Query {
      AloneQuery(py, e);
    } else {
      AloneSingle(py, e);
    }
    assert base <= path;
    assert path[0] == Folder(e.kind)[0] && path[0] == Folder(kind)[0];
    if e.kind != kind {
      FoldersDiffer(e.kind, kind);
    }
    if kind == Query {
      OnlyMetaIsMeta(base);
    }
  }

  /** The main paths of the envelopes of a kind, in order. */
  function Mains(py: Python, es: seq<Envelope>, kind: Kind): seq<string> {
    if es == [] then []
    else
      var n := |es| - 1;
      Mains(py, es[..n], kind) + if es[n].kind == kind then [MainPath(py, es[n])] else []
  }

  ghost predicate SomeMain(py: Python, es: seq<Envelope>, kind: Kind, path: string) {
    exists i :: 0 <= i < |es| && es[i].kind == kind && path == MainPath(py, es[i])
  }

  lemma SomeMainSnoc(py: Python, es: seq<Envelope>, e: Envelope, kind: Kind, path: string)
    ensures SomeMain(py, es + [e], kind, path) <==>
            SomeMain(py, es, kind, path) || (e.kind == kind && path == MainPath(py, e))
  {
    var all := es + [e];
    assert all[|es|] == e && forall i :: 0 <= i < |es| ==> all[i] == es[i];
    if SomeMain(py, es, kind, path) {
      var i :| 0 <= i < |es| && es[i].kind == kind && path == MainPath(py, es[i]);
      assert all[i].kind == kind && path == MainPath(py, all[i]);
    }
  }

  lemma {:induction false} MainsHold(py: Python, es: seq<Envelope>, kind: Kind, path: string)
    ensures path in Mains(py, es, kind) <==> SomeMain(py, es, kind, path)
  {
    if es != [] {
      var n := |es| - 1;
      MainsHold(py, es[..n], kind, path);
      SomeMainSnoc(py, es[..n], es[n], kind, path);
      assert es == es[..n] + [es[n]];
    }
  }

  function Elements(s: seq<string>): set<string> {
    set x | x in s
  }

  lemma {:induction false} ElementCount(s: seq<string>)
    ensures |Elements(s)| <= |s|
    ensures |Elements(s)| == |s| <==> Distinct(s)
  {
    if s != [] {
      var n := |s| - 1;
      var init := s[..n];
      ElementCount(init);
      assert s == init + [s[n]];
      assert Elements(s) == Elements(init) + {s[n]};
      if s[n] in init {
        var i :| 0 <= i < n && init[i] == s[n];
        assert s[i] == s[n];
      } else {
        assert forall i :: 0 <= i < n ==> s[i] == init[i] && init[i] in init;
      }
      assert Distinct(s) ==> Distinct(init);
    }
  }

  lemma ListingIsMains(py: Python, es: seq<Envelope>, kind: Kind)
    ensures (set path | path in Tree(py, es) && Listed(path, kind)) == Elements(Mains(py, es, kind))
  {
    forall path
      ensures path in Tree(py, es) && Listed(path, kind) <==> path in Mains(py, es, kind)
    {
      TreePaths(py, es, path);
      MainsHold(py, es, kind, path);
      if path in Tree(py, es) && Listed(path, kind) {
        var i :| 0 <= i < |es| && path in Alone(py, es[i]);
        ListedIsMain(py, es[i], kind, path);
      }
      if path in Mains(py, es, kind) {
        var i :| 0 <= i < |es| && es[i].kind == kind && path == MainPath(py, es[i]);
        MainIsListed(py, es[i]);
        MainIsThere(py, es[i]);
      }
    }
  }

  lemma {:induction false} GatherAt(readings: seq<Option<Envelope>>, n: nat)
    requires n <= |readings| && forall i :: 0 <= i < n ==> readings[i].Some?
    ensures var r := Gather(readings, n);
            r.Some? && |r.value| == n && forall i :: 0 <= i < n ==> readings[i] == Some(r.value[i])
  {
    if n > 0 {
      GatherAt(readings, n - 1);
    }
  }

  /** A main file can always be read, even where envelopes overwrote each other's files. */
  lemma MainIsReadable(py: Python, files: map<string, string>, e: Envelope)
    requires Lawful(py) && MainPath(py, e) in files && MainPath(py, e) in Alone(py, e)
    requires files[MainPath(py, e)] == Alone(py, e)[MainPath(py, e)]
    ensures Listed(MainPath(py, e), e.kind) && ReadOne(py, files, e.kind, MainPath(py, e)).Some?
  {
    MainIsListed(py, e);
    BaseOfMain(py, e);
    match e.kind
    case Connector =>
      AloneSingle(py, e);
      ConnectorBack(py, e);
    case Dashboard =>
      AloneSingle(py, e);
      DashboardBack(py, e);
    case Query =>
      AloneQuery(py, e);
      var doc := MetaDoc(QueryStem(py, e), NameOf(py, e), MetaConfig(py, e));
      assert py.jsonLoad(ReadText(py.jsonDump(doc))) == Some(doc);
      assert Or(Get(doc.fields, "config"), JObject(map[])) == JObject(MetaConfig(py, e));
  }

  lemma ListedIsReadable(py: Python, es: seq<Envelope>, kind: Kind, path: string)
    requires Lawful(py) && path in Tree(py, es) && Listed(path, kind)
    ensures ReadOne(py, Tree(py, es), kind, path).Some?
  {
    TreePaths(py, es, path);
    var i :| 0 <= i < |es| && path in Alone(py, es[i]) && Tree(py, es)[path] == Alone(py, es[i])[path];
    ListedIsMain(py, es[i], kind, path);
    MainIsReadable(py, Tree(py, es), es[i]);
  }

  /**
   * Reading a written tree never fails, and gives as many envelopes of a kind as were written exactly when no
   * two slugs of that kind clash.
   */
  lemma NothingLostExactly(py: Python, es: seq<Envelope>, kind: Kind)
    requires Lawful(py)
    ensures ReadKind(py, Tree(py, es), kind).Some?
    ensures var out := ReadKind(py, Tree(py, es), kind).value;
            |out| <= |Mains(py, es, kind)| && (|out| == |Mains(py, es, kind)| <==> Distinct(Mains(py, es, kind)))
  {
    var tree := Tree(py, es);
    var paths := Listing(tree, kind);
    ListingIsListed(tree, kind);
    var readings := Readings(py, tree, kind, paths);
    forall i | 0 <= i < |paths| ensures readings[i].Some? {
      ListedIsReadable(py, es, kind, paths[i]);
    }
    GatherAt(readings, |paths|);
    ListingIsMains(py, es, kind);
    ElementCount(Mains(py, es, kind));
  }

  /** No two envelopes of the kind have the same slug. */
  ghost predicate SlugsDiffer(py: Python, es: seq<Envelope>, kind: Kind) {
    forall i, j :: 0 <= i < j < |es| && es[i].kind == kind && es[j].kind == kind ==>
          SlugOf(py, es[i]) != SlugOf(py, es[j])
  }

  lemma SlugsGiveBases(py: Python, es: seq<Envelope>, i: nat)
    requires i < |es| && SlugsDiffer(py, es, es[i].kind)
    ensures OwnBase(py, es, i)
  {
    forall j | 0 <= j < |es| && j != i ensures Base(py, es[j]) != Base(py, es[i]) {
      if Base(py, es[j]) == Base(py, es[i]) {
        BaseNamesKind(py, es[j], es[i]);
        assert false;
      }
    }
  }

  /** `x` is what comes back for one of the envelopes of the kind. */
  ghost predicate IsBack(py: Python, es: seq<Envelope>, kind: Kind, x: Envelope) {
    exists i :: 0 <= i < |es| && es[i].kind == kind && x == Back(py, es[i])
  }

  lemma PathReadsBack(py: Python, es: seq<Envelope>, kind: Kind, path: string)
    requires Lawful(py) && SlugsDiffer(py, es, kind) && path in Tree(py, es) && Listed(path, kind)
    ensures var r := ReadOne(py, Tree(py, es), kind, path); r.Some? && IsBack(py, es, kind, r.value)
  {
    TreePaths(py, es, path);
    var i :| 0 <= i < |es| && path in Alone(py, es[i]);
    ListedIsMain(py, es[i], kind, path);
    EnvelopeReadsBack(py, es, i);
  }

  /** Each envelope of the kind is one of the readings. */
  lemma BackIsAReading(py: Python, es: seq<Envelope>, i: nat, paths: seq<string>)
    requires Lawful(py) && i < |es| && SlugsDiffer(py, es, es[i].kind)
    requires AllListed(Tree(py, es), es[i].kind, paths) && MainPath(py, es[i]) in paths
    ensures Some(Back(py, es[i])) in Readings(py, Tree(py, es), es[i].kind, paths)
  {
    EnvelopeReadsBack(py, es, i);
    var k :| 0 <= k < |paths| && paths[k] == MainPath(py, es[i]);
    assert Readings(py, Tree(py, es), es[i].kind, paths)[k] == Some(Back(py, es[i]));
  }

  /** The readings stand for the envelopes of the kind: nothing else, and every one. */
  ghost predicate AllBacks(py: Python, es: seq<Envelope>, kind: Kind, readings: seq<Option<Envelope>>) {
    && (forall k :: 0 <= k < |readings| ==> readings[k].Some? && IsBack(py, es, kind, readings[k].value))
    && (forall i :: 0 <= i < |es| && es[i].kind == kind ==> Some(Back(py, es[i])) in readings)
  }

  lemma ReadingsAreBacks(py: Python, es: seq<Envelope>, kind: Kind, paths: seq<string>)
    requires Lawful(py) && SlugsDiffer(py, es, kind) && AllListed(Tree(py, es), kind, paths)
    requires forall path :: path in Tree(py, es) && Listed(path, kind) ==> path in paths
    ensures AllBacks(py, es, kind, Readings(py, Tree(py, es), kind, paths))
  {
    var readings := Readings(py, Tree(py, es), kind, paths);
    forall k | 0 <= k < |paths| ensures readings[k].Some? && IsBack(py, es, kind, readings[k].value) {
      PathReadsBack(py, es, kind, paths[k]);
    }
    forall i | 0 <= i < |es| && es[i].kind == kind ensures Some(Back(py, es[i])) in readings {
      EnvelopeReadsBack(py, es, i);
      BackIsAReading(py, es, i, paths);
    }
  }

  lemma GatheredOnes<T>(readings: seq<Option<T>>, out: seq<T>, x: T)
    requires |out| == |readings| && forall k :: 0 <= k < |readings| ==> readings[k] == Some(out[k])
    ensures x in out <==> Some(x) in readings
  {
    if Some(x) in readings {
      var k :| 0 <= k < |readings| && readings[k] == Some(x);
      assert out[k] == x;
    }
    if x in out {
      var k :| 0 <= k < |out| && out[k] == x;
      assert readings[k] == Some(x);
    }
  }

  lemma BacksAreGathered(py: Python, es: seq<Envelope>, kind: Kind, readings: seq<Option<Envelope>>)
    requires AllBacks(py, es, kind, readings)
    ensures Gather(readings, |readings|).Some?
    ensures var out := Gather(readings, |readings|).value;
            && (forall i :: 0 <= i < |es| && es[i].kind == kind ==> Back(py, es[i]) in out)
            && (forall x :: x in out ==> IsBack(py, es, kind, x))
  {
    GatherAt(readings, |readings|);
    var out := Gather(readings, |readings|).value;
    forall i | 0 <= i < |es| && es[i].kind == kind ensures Back(py, es[i]) in out {
      GatheredOnes(readings, out, Back(py, es[i]));
    }
    forall x | x in out ensures IsBack(py, es, kind, x) {
      GatheredOnes(readings, out, x);
    }
  }

  /** With distinct slugs, reading the tree gives each envelope of the kind in the form of `Back`, and nothing else. */
  lemma TreeIsReadBack(py: Python, es: seq<Envelope>, kind: Kind)
    requires Lawful(py) && SlugsDiffer(py, es, kind)
    ensures ReadKind(py, Tree(py, es), kind).Some?
    ensures var out := ReadKind(py, Tree(py, es), kind).value;
            && (forall i :: 0 <= i < |es| && es[i].kind == kind ==> Back(py, es[i]) in out)
            && (forall x :: x in out ==> IsBack(py, es, kind, x))
  {
    var paths := Listing(Tree(py, es), kind);
    ListingIsListed(Tree(py, es), kind);
    ReadingsAreBacks(py, es, kind, paths);
    BacksAreGathered(py, es, kind, Readings(py, Tree(py, es), kind, paths));
  }

  lemma EnvelopeReadsBack(py: Python, es: seq<Envelope>, i: nat)
    requires Lawful(py) && i < |es| && SlugsDiffer(py, es, es[i].kind)
    ensures var p, tree := MainPath(py, es[i]), Tree(py, es);
            p in tree && Listed(p, es[i].kind) && ReadOne(py, tree, es[i].kind, p) == Some(Back(py, es[i]))
  {
    SlugsGiveBases(py, es, i);
    TreeAgrees(py, es, i);
    ReadsBack(py, Tree(py, es), es[i]);
  }
}
