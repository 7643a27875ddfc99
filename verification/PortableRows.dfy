/** Stored rows exported as envelopes and taken in again: which of them come back, and what a connector leaves out. */
module PortableRows {
  import opened Portable

  // ----- secrets -----

  /** Everything of `from` but the secret names, with the same values, and nothing else. */
  ghost predicate AllButSecrets(part: Dict, from: Dict, secrets: set<string>) {
    forall k :: (k in part <==> k in from && k !in secrets) && (k in part ==> part[k] == from[k])
  }

  /** No secret of a stored connector is in its envelope and none of an envelope in the payload; all else is kept. */
  lemma ConnectorsLeaveSecrets(row: ResourceRow, e: Envelope, secrets: set<string>, str: Json -> string)
    requires e.kind == Connector
    ensures row.config.JObject? ==>
              AllButSecrets(ToEnvelope(Connector, row, secrets, str).spec, row.config.fields, secrets)
    ensures AllButSecrets(RowFields(e, secrets).config, e.spec, secrets)
  {
  }

  // ----- identity -----

  /** An envelope names its row, and its identifier and project where the row has them, as text. */
  lemma EnvelopeNamesRow(kind: Kind, row: ResourceRow, secrets: set<string>, str: Json -> string)
    ensures var m := ToEnvelope(kind, row, secrets, str).metadata;
            && Get(m, "name") == (if Truthy(row.name) then row.name else JString(""))
            && Get(m, "id") == (if row.id == JNull then JNull else JString(str(row.id)))
            && Get(m, "project") == (if row.projectId == JNull then JNull else JString(str(row.projectId)))
            && m.Keys <= {"name", "id", "project"}
  {
  }

  // ----- a stored row, out and in again -----

  /** The configuration a board has once it has been saved: its spec and nothing else. */
  predicate IsBoardConfig(c: Dict) {
    c.Keys == {"spec"} && c["spec"].JObject?
  }

  /** The configuration a query has once it has been saved under a name. */
  predicate IsQueryConfig(c: Dict, name: Json) {
    && {"name", "sql", "params", "datastore_id"} <= c.Keys
    && c.Keys <= {"name", "sql", "params", "datastore_id", "output_schema", "metric"}
    && c["name"] == name && (Truthy(c["params"]) || c["params"] == JArray([]))
    && ("output_schema" in c ==> c["output_schema"].JArray?) && ("metric" in c ==> c["metric"].JObject?)
  }

  predicate IsSaved(kind: Kind, row: ResourceRow, secrets: set<string>) {
    var c := ConfigOf(row);
    && Truthy(row.name)
    && match kind
       case Dashboard => IsBoardConfig(c)
       case Query => IsQueryConfig(c, row.name)
       case Connector => forall k :: k in c ==> k !in secrets
  }

  lemma BoardExactly(c: Dict)
    ensures (map["spec" := JObject(if Get(c, "spec").JObject? then Get(c, "spec").fields else c)] == c)
            <==> IsBoardConfig(c)
  {
    if IsBoardConfig(c) {
      assert c == map["spec" := c["spec"]];
    }
  }

  /** What is under each key after a configuration went out and in again. */
  lemma QueryKeys(name: Json, c: Dict)
    requires Truthy(name)
    ensures var r := QueryConfig(name, QuerySpec(c, name));
            && Get(r, "name") == name && Get(r, "sql") == GetOr(c, "sql", JString(""))
            && Get(r, "params") == Or(Get(c, "params"), JArray([])) && Get(r, "datastore_id") == Get(c, "datastore_id")
            && {"name", "sql", "params", "datastore_id"} <= r.Keys
            && r.Keys <= {"name", "sql", "params", "datastore_id", "output_schema", "metric"}
  {
  }

  lemma QueryExtras(name: Json, c: Dict)
    ensures var r := QueryConfig(name, QuerySpec(c, name));
            && ("output_schema" in r <==> Get(c, "output_schema").JArray?)
            && ("output_schema" in r ==> r["output_schema"] == Get(c, "output_schema"))
            && ("metric" in r <==> Get(c, "metric").JObject?)
            && ("metric" in r ==> r["metric"] == Get(c, "metric"))
  {
  }

  lemma SavedQueryComesBack(name: Json, c: Dict)
    requires Truthy(name) && IsQueryConfig(c, name)
    ensures QueryConfig(name, QuerySpec(c, name)) == c
  {
    QueryKeys(name, c);
    QueryExtras(name, c);
    var r := QueryConfig(name, QuerySpec(c, name));
    forall k ensures k in r <==> k in c {
    }
    forall k | k in c ensures r[k] == c[k] {
      assert Get(r, k) == r[k] && Get(c, k) == c[k];
    }
  }

  lemma QueryExactly(name: Json, c: Dict)
    requires Truthy(name)
    ensures QueryConfig(name, QuerySpec(c, name)) == c <==> IsQueryConfig(c, name)
  {
    QueryKeys(name, c);
    QueryExtras(name, c);
    if IsQueryConfig(c, name) {
      SavedQueryComesBack(name, c);
    }
  }

  lemma NameComesBackExactly(kind: Kind, row: ResourceRow, secrets: set<string>, str: Json -> string)
    ensures RowFields(ToEnvelope(kind, row, secrets, str), secrets).name == row.name <==> Truthy(row.name)
  {
    var e := ToEnvelope(kind, row, secrets, str);
    EnvelopeNamesRow(kind, row, secrets, str);
    NameIsTruthy(e, secrets);
  }

  /**
   * Exporting a stored row and taking the envelope in gives the row's own name and configuration back exactly when
   * the row has a name and the form that saving gives it; for a connector, when it holds no secret.
   */
  lemma RowComesBackExactly(kind: Kind, row: ResourceRow, secrets: set<string>, str: Json -> string)
    ensures RowFields(ToEnvelope(kind, row, secrets, str), secrets) == Payload(row.name, ConfigOf(row))
       <==> IsSaved(kind, row, secrets)
  {
    var c := ConfigOf(row);
    NameComesBackExactly(kind, row, secrets, str);
    EnvelopeNamesRow(kind, row, secrets, str);
    match kind
    case Dashboard => BoardExactly(c);
    case Query =>
      if Truthy(row.name) {
        QueryExactly(row.name, c);
      }
    case Connector => NonSecretExactly(c, secrets);
  }

  lemma NonSecretExactly(c: Dict, secrets: set<string>)
    ensures NonSecret(NonSecret(c, secrets), secrets) == c <==> forall k :: k in c ==> k !in secrets
  {
    var once := NonSecret(c, secrets);
    assert NonSecret(once, secrets) == once;
    if forall k :: k in c ==> k !in secrets {
      assert once == c;
    }
  }
}
