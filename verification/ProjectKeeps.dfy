/** What survives the trip through files: identity, payload and the files themselves, each with its exact condition. */
module ProjectKeeps {
  import opened Portable
  import opened ProjectFiles
  import opened ProjectTrip
  import opened PyText
  import opened Wrappers

  // ----- declared columns -----

  /** An entry of the declared output already in its normal form. */
  predicate IsNormal(j: Json) {
    && j.JObject? && j.fields.Keys == {"name", "type"}
    && j.fields["name"].JString? && j.fields["type"].JString? && j.fields["type"].s != ""
  }

  lemma EntryIsNormal(py: Python, name: Json, kind: Json)
    requires Lawful(py)
    ensures IsNormal(NormalEntry(py, name, kind))
  {
    assert Truthy(Or(kind, JString("text")));
  }

  lemma NormalIsEntry(py: Python, j: Json)
    requires Lawful(py) && IsNormal(j)
    ensures NormalEntry(py, Get(j.fields, "name"), Get(j.fields, "type")) == j
  {
    assert j.fields == map["name" := j.fields["name"], "type" := j.fields["type"]];
  }

  lemma {:induction false} NormalizedIsNormal(py: Python, items: seq<Json>)
    requires Lawful(py)
    ensures forall i :: 0 <= i < |NormalSchema(py, items)| ==> IsNormal(NormalSchema(py, items)[i])
  {
    if items != [] {
      NormalizedIsNormal(py, items[1..]);
      if items[0].JObject? {
        EntryIsNormal(py, Get(items[0].fields, "name"), Get(items[0].fields, "type"));
      }
    }
  }

  lemma {:induction false} NormalIsKept(py: Python, items: seq<Json>)
    requires Lawful(py) && forall i :: 0 <= i < |items| ==> IsNormal(items[i])
    ensures NormalSchema(py, items) == items
  {
    if items != [] {
      NormalIsKept(py, items[1..]);
      NormalIsEntry(py, items[0]);
      assert items == [items[0]] + items[1..];
    }
  }

  /** Normalising the declared columns changes nothing exactly when each has a name and a type, as text, and no more. */
  lemma SchemaKeptExactly(py: Python, items: seq<Json>)
    requires Lawful(py)
    ensures NormalSchema(py, items) == items <==> forall i :: 0 <= i < |items| ==> IsNormal(items[i])
    ensures NormalSchema(py, NormalSchema(py, items)) == NormalSchema(py, items)
  {
    NormalizedIsNormal(py, items);
    NormalIsKept(py, NormalSchema(py, items));
    if forall i :: 0 <= i < |items| ==> IsNormal(items[i]) {
      NormalIsKept(py, items);
    }
  }

  // ----- identity -----

  /** Dashboards and connectors come back with the same name, identifier and spec. */
  lemma IdentityIsKept(py: Python, e: Envelope)
    requires Lawful(py) && e.kind != Query
    ensures var b := Back(py, e); NameOf(py, b) == NameOf(py, e) && IdOf(py, b) == IdOf(py, e) && b.spec == e.spec
  {
  }

  /**
   * A query keeps its name exactly when it has one or its spec offers none, and its identifier exactly
   * when it has one: the metadata file of a query without one records the slug instead.
   */
  lemma QueryIdentityExactly(py: Python, e: Envelope)
    requires Lawful(py) && e.kind == Query
    ensures NameOf(py, Back(py, e)) == NameOf(py, e) <==> NameOf(py, e) != "" || !Truthy(Get(e.spec, "name"))
    ensures IdOf(py, Back(py, e)) == IdOf(py, e) <==> IdOf(py, e) != ""
  {
    BaseHasNoDot(py, e);
  }

  // ----- payloads -----

  predicate NameIsText(e: Envelope) {
    Truthy(Get(e.metadata, "name")) ==> Get(e.metadata, "name").JString?
  }

  lemma NameExactly(py: Python, e: Envelope, default: Json)
    requires Lawful(py)
    ensures Or(JString(NameOf(py, e)), default) == Or(Get(e.metadata, "name"), default) <==> NameIsText(e)
  {
    var name := Get(e.metadata, "name");
    if Truthy(name) && name.JString? {
      assert py.str(JString(name.s)) == name.s;
    }
  }

  function SchemaPart(spec: Dict): Json {
    if Get(spec, "output_schema").JArray? then Get(spec, "output_schema") else JNull
  }

  function MetricPart(spec: Dict): Json {
    if Get(spec, "metric").JObject? then Get(spec, "metric") else JNull
  }

  lemma ConfigParts(name: Json, spec: Dict)
    ensures var c := QueryConfig(name, spec);
            && Get(c, "name") == name && Get(c, "sql") == GetOr(spec, "sql", JString(""))
            && Get(c, "params") == Or(Get(spec, "params"), JArray([]))
            && Get(c, "datastore_id") == Get(spec, "datastore_id")
            && Get(c, "output_schema") == SchemaPart(spec) && Get(c, "metric") == MetricPart(spec)
  {
  }

  /** The spec that comes back for a query, key by key. */
  lemma BackSpec(py: Python, e: Envelope)
    requires e.kind == Query
    ensures var b := Back(py, e).spec;
            && GetOr(b, "sql", JString("")) == JString(ReadText(SqlText(py, e)))
            && Or(Get(b, "params"), JArray([])) == Or(Get(e.spec, "params"), JArray([]))
            && Get(b, "datastore_id") == Get(e.spec, "datastore_id") && Get(b, "name") == BackName(py, e)
            && SchemaPart(b) == SchemaDoc(py, e) && MetricPart(b) == JNull
  {
  }

  function BackName(py: Python, e: Envelope): Json {
    Or(JString(NameOf(py, e)), Or(Get(e.spec, "name"), JString("")))
  }

  predicate SqlSurvives(e: Envelope) {
    var sql := GetOr(e.spec, "sql", JString(""));
    sql.JString? && '\r' !in sql.s
  }

  predicate SchemaSurvives(e: Envelope) {
    Get(e.spec, "output_schema").JArray? ==>
      forall i :: 0 <= i < |Get(e.spec, "output_schema").items| ==> IsNormal(Get(e.spec, "output_schema").items[i])
  }

  /** What a caller can check on an envelope before the trip. */
  predicate Survives(e: Envelope) {
    && NameIsText(e)
    && (e.kind == Query ==> SqlSurvives(e) && SchemaSurvives(e) && !Get(e.spec, "metric").JObject?)
  }

  lemma SqlExactly(py: Python, e: Envelope)
    requires Lawful(py)
    ensures JString(ReadText(SqlText(py, e))) == GetOr(e.spec, "sql", JString("")) <==> SqlSurvives(e)
  {
    var sql := GetOr(e.spec, "sql", JString(""));
    if sql.JString? {
      assert py.str(JString(sql.s)) == sql.s;
      ReadTextExactly(sql.s);
    }
  }

  lemma SchemaExactly(py: Python, e: Envelope)
    requires Lawful(py)
    ensures SchemaDoc(py, e) == SchemaPart(e.spec) <==> SchemaSurvives(e)
  {
    if Get(e.spec, "output_schema").JArray? {
      SchemaKeptExactly(py, Get(e.spec, "output_schema").items);
    }
  }

  lemma QueryNameExactly(py: Python, e: Envelope)
    requires Lawful(py) && e.kind == Query
    ensures (Or(BackName(py, e), Or(BackName(py, e), JString("Untitled query")))
             == Or(Get(e.metadata, "name"), Or(Get(e.spec, "name"), JString("Untitled query"))))
       <==> NameIsText(e)
  {
    NameExactly(py, e, Or(Get(e.spec, "name"), JString("Untitled query")));
    IdIsText(py, e);
  }

  /** Two query configurations are the same exactly when their parts are. */
  lemma ConfigsEqualExactly(nameA: Json, a: Dict, nameB: Json, b: Dict)
    ensures QueryConfig(nameA, a) == QueryConfig(nameB, b)
       <==> nameA == nameB && GetOr(a, "sql", JString("")) == GetOr(b, "sql", JString(""))
            && Or(Get(a, "params"), JArray([])) == Or(Get(b, "params"), JArray([]))
            && Get(a, "datastore_id") == Get(b, "datastore_id")
            && SchemaPart(a) == SchemaPart(b) && MetricPart(a) == MetricPart(b)
  {
    ConfigParts(nameA, a);
    ConfigParts(nameB, b);
  }

  lemma BackConfigExactly(py: Python, e: Envelope, backName: Json, name: Json)
    requires Lawful(py) && e.kind == Query
    ensures QueryConfig(backName, Back(py, e).spec) == QueryConfig(name, e.spec)
       <==> backName == name && SqlSurvives(e) && SchemaSurvives(e) && !Get(e.spec, "metric").JObject?
  {
    BackSpec(py, e);
    SqlExactly(py, e);
    SchemaExactly(py, e);
    ConfigsEqualExactly(backName, Back(py, e).spec, name, e.spec);
  }

  lemma QueryPayloadExactly(py: Python, e: Envelope, secrets: set<string>)
    requires Lawful(py) && e.kind == Query
    ensures RowFields(Back(py, e), secrets) == RowFields(e, secrets) <==> Survives(e)
  {
    var name, backName := RowFields(e, secrets).name, RowFields(Back(py, e), secrets).name;
    BackSpec(py, e);
    assert Get(Back(py, e).metadata, "name") == BackName(py, e);
    QueryNameExactly(py, e);
    BackConfigExactly(py, e, backName, name);
  }

  /** The payload taken in after the trip is the one the envelope had exactly when the envelope survives. */
  lemma PayloadExactly(py: Python, e: Envelope, secrets: set<string>)
    requires Lawful(py)
    ensures RowFields(Back(py, e), secrets) == RowFields(e, secrets) <==> Survives(e)
  {
    match e.kind
    case Query => QueryPayloadExactly(py, e, secrets);
    case Dashboard => NameExactly(py, e, Or(Get(e.spec, "title"), JString("Untitled dashboard")));
    case Connector => NameExactly(py, e, JString("Untitled connector"));
  }

  // ----- a second trip -----

  /** A query that has no name of its own takes its spec's, which may be anything; then it had better be text. */
  predicate BorrowsText(py: Python, e: Envelope) {
    e.kind == Query && NameOf(py, e) == "" && Truthy(Get(e.spec, "name")) ==> Get(e.spec, "name").JString?
  }

  /** What came back comes back unchanged exactly when a borrowed name is text. */
  lemma BackTwiceExactly(py: Python, e: Envelope)
    requires Lawful(py)
    ensures Back(py, Back(py, e)) == Back(py, e) <==> BorrowsText(py, e)
  {
    if e.kind == Query {
      QueryBackTwice(py, e);
    }
  }

  lemma BorrowedName(py: Python, e: Envelope)
    requires Lawful(py) && e.kind == Query
    ensures NameOf(py, Back(py, e)) == (if Truthy(BackName(py, e)) then py.str(BackName(py, e)) else "")
    ensures BackName(py, Back(py, e)) == BackName(py, e) <==> BorrowsText(py, e)
  {
    var own := BackName(py, e);
    assert Get(Back(py, e).metadata, "name") == own && Get(Back(py, e).spec, "name") == own;
    if own.JString? {
      assert py.str(JString(own.s)) == own.s;
    }
  }

  lemma QueryBackTwice(py: Python, e: Envelope)
    requires Lawful(py) && e.kind == Query
    ensures Back(py, Back(py, e)) == Back(py, e) <==> BorrowsText(py, e)
  {
    var b := Back(py, e);
    BackSpec(py, e);
    BackSpec(py, b);
    BaseHasNoDot(py, e);
    ReadTextExactly(SqlText(py, e));
    ReadTextExactly(SqlText(py, b));
    assert SqlText(py, b) == ReadText(SqlText(py, e));
    if SchemaDoc(py, e).JArray? {
      SchemaKeptExactly(py, Get(e.spec, "output_schema").items);
    }
    assert SchemaDoc(py, b) == SchemaDoc(py, e);
    BorrowedName(py, e);
    assert QueryStem(py, b) == QueryStem(py, e);
  }

  /**
   * The files stay as they are: the query has a name or takes none from its spec, and its SQL has no carriage
   * return.
   */
  predicate Settled(py: Python, e: Envelope) {
    e.kind == Query ==> (NameOf(py, e) != "" || !Truthy(Get(e.spec, "name"))) && '\r' !in SqlText(py, e)
  }

  /** Writing what came back gives the same files, byte for byte, exactly when the envelope is settled. */
  lemma SecondPullExactly(py: Python, e: Envelope)
    requires Lawful(py)
    ensures EnvelopeToFiles(py, Back(py, e)) == EnvelopeToFiles(py, e) <==> Settled(py, e)
  {
    EnvelopeFiles(py, e);
    EnvelopeFiles(py, Back(py, e));
    if e.kind == Query {
      QuerySecondPull(py, e);
    } else {
      IdentityIsKept(py, e);
      IdIsText(py, e);
      IdIsText(py, Back(py, e));
    }
  }

  lemma QuerySecondPull(py: Python, e: Envelope)
    requires Lawful(py) && e.kind == Query
    ensures FilesOf(py, Back(py, e)) == FilesOf(py, e) <==> Settled(py, e)
  {
    var b := Back(py, e);
    BackSpec(py, e);
    BaseHasNoDot(py, e);
    BorrowedName(py, e);
    QueryIdentityExactly(py, e);
    ReadTextExactly(SqlText(py, e));
    assert SqlText(py, b) == ReadText(SqlText(py, e));
    if SchemaDoc(py, e).JArray? {
      SchemaKeptExactly(py, Get(e.spec, "output_schema").items);
    }
    assert SchemaDoc(py, b) == SchemaDoc(py, e);
    assert QueryStem(py, b) == QueryStem(py, e);
    if Settled(py, e) {
      assert MetaConfig(py, b) == MetaConfig(py, e);
    } else if FilesOf(py, b) == FilesOf(py, e) {
      assert FilesOf(py, b)[0].content == SqlText(py, b) && FilesOf(py, e)[0].content == SqlText(py, e);
      assert FilesOf(py, b)[1].content == MetaText(py, b) && FilesOf(py, e)[1].content == MetaText(py, e);
      MetaTextName(py, b, e);
    }
  }

  /** The metadata file determines the name it was written for. */
  lemma MetaTextName(py: Python, a: Envelope, b: Envelope)
    requires Lawful(py) && MetaText(py, a) == MetaText(py, b)
    ensures NameOf(py, a) == NameOf(py, b)
  {
    var x := MetaDoc(QueryStem(py, a), NameOf(py, a), MetaConfig(py, a));
    var y := MetaDoc(QueryStem(py, b), NameOf(py, b), MetaConfig(py, b));
    assert py.jsonLoad(ReadText(py.jsonDump(x))) == Some(x) && py.jsonLoad(ReadText(py.jsonDump(y))) == Some(y);
    assert x.fields["name"] == JString(NameOf(py, a)) && y.fields["name"] == JString(NameOf(py, b));
  }

  // ----- pull, then push -----

  /**
   * Pull then push: with distinct slugs, the envelopes read from the written tree are, up to order, the
   * written ones in the sense of `Back`, and each carries the payload of its original exactly when the
   * original survives.
   */
  lemma PullThenPush(py: Python, es: seq<Envelope>, kind: Kind, secrets: set<string>)
    requires Lawful(py) && SlugsDiffer(py, es, kind)
    ensures ReadKind(py, Tree(py, es), kind).Some?
    ensures var out := ReadKind(py, Tree(py, es), kind).value;
            forall i :: 0 <= i < |es| && es[i].kind == kind ==>
              Back(py, es[i]) in out
                  && (RowFields(Back(py, es[i]), secrets) == RowFields(es[i], secrets) <==> Survives(es[i]))
    ensures forall x :: x in ReadKind(py, Tree(py, es), kind).value ==> IsBack(py, es, kind, x)
  {
    TreeIsReadBack(py, es, kind);
    forall i | 0 <= i < |es| && es[i].kind == kind
      ensures RowFields(Back(py, es[i]), secrets) == RowFields(es[i], secrets) <==> Survives(es[i])
    {
      PayloadExactly(py, es[i], secrets);
    }
  }
}
