/** Portable envelopes: backend/app/portability.py for dashboards, queries and connectors. */
module Portable {

  /** JSON values; a number is a decimal: a mantissa times a power of ten. */
  datatype Json =
    | JNull
    | JBool(b: bool)
    | JNumber(mantissa: int, exponent: int)
    | JString(s: string)
    | JArray(items: seq<Json>)
    | JObject(fields: map<string, Json>)

  type Dict = map<string, Json>

  predicate Truthy(j: Json) {
    match j
    case JNull => false
    case JBool(b) => b
    case JNumber(mantissa, _) => mantissa != 0
    case JString(s) => s != ""
    case JArray(items) => items != []
    case JObject(fields) => fields != map[]
  }

  /** `a or b` */
  function Or(a: Json, b: Json): Json {
    if Truthy(a) then a else b
  }

  /** `d.get(key)` */
  function Get(d: Dict, key: string): Json {
    if key in d then d[key] else JNull
  }

  /** `d.get(key, default)` */
  function GetOr(d: Dict, key: string, default: Json): Json {
    if key in d then d[key] else default
  }

  function Optional(d: Dict, key: string, value: Json, present: bool): Dict {
    if present then d[key := value] else d
  }

  datatype Kind = Dashboard | Query | Connector

  datatype Envelope = Envelope(kind: Kind, metadata: Dict, spec: Dict)

  /** A stored row, as far as an envelope looks at it. */
  datatype ResourceRow = ResourceRow(name: Json, id: Json, projectId: Json, config: Json)

  /** The create and update payload. */
  datatype Payload = Payload(name: Json, config: Dict)

  function ConfigOf(row: ResourceRow): Dict {
    if row.config.JObject? then row.config.fields else map[]
  }

  /** `_connector_non_secret_config`; the secret names are `routes/connectors.py`'s. */
  function NonSecret(d: Dict, secrets: set<string>): Dict {
    map k | k in d && k !in secrets :: d[k]
  }

  function QuerySpec(config: Dict, rowName: Json): Dict {
    var spec := map[
      "name" := Or(Get(config, "name"), Or(rowName, JString(""))),
      "sql" := GetOr(config, "sql", JString("")),
      "params" := Or(Get(config, "params"), JArray([])),
      "datastore_id" := Get(config, "datastore_id")
    ];
    var withSchema :=
        Optional(spec, "output_schema", Get(config, "output_schema"), Get(config, "output_schema").JArray?);
    Optional(withSchema, "metric", Get(config, "metric"), Get(config, "metric").JObject?)
  }

  function SpecFromRow(kind: Kind, row: ResourceRow, secrets: set<string>): Dict {
    match kind
    case Dashboard => if Get(ConfigOf(row), "spec").JObject? then Get(ConfigOf(row), "spec").fields else ConfigOf(row)
    case Query => QuerySpec(ConfigOf(row), row.name)
    case Connector => NonSecret(ConfigOf(row), secrets)
  }

  /** `to_envelope` */
  function ToEnvelope(kind: Kind, row: ResourceRow, secrets: set<string>, str: Json -> string): Envelope {
    var name: Dict := map["name" := Or(row.name, JString(""))];
    var withId := Optional(name, "id", JString(str(row.id)), row.id != JNull);
    var metadata := Optional(withId, "project", JString(str(row.projectId)), row.projectId != JNull);
    Envelope(kind, metadata, SpecFromRow(kind, row, secrets))
  }

  function QueryConfig(name: Json, spec: Dict): Dict {
    var config := map[
      "name" := name,
      "sql" := GetOr(spec, "sql", JString("")),
      "params" := Or(Get(spec, "params"), JArray([])),
      "datastore_id" := Get(spec, "datastore_id")
    ];
    var withSchema := Optional(config, "output_schema", Get(spec, "output_schema"), Get(spec, "output_schema").JArray?);
    Optional(withSchema, "metric", Get(spec, "metric"), Get(spec, "metric").JObject?)
  }

  /** `row_fields_for_kind` */
  function RowFields(e: Envelope, secrets: set<string>): Payload {
    match e.kind
    case Dashboard =>
      Payload(Or(Get(e.metadata, "name"), Or(Get(e.spec, "title"), JString("Untitled dashboard"))),
              map["spec" := JObject(e.spec)])
    case Query =>
      var name := Or(Get(e.metadata, "name"), Or(Get(e.spec, "name"), JString("Untitled query")));
      Payload(name, QueryConfig(name, e.spec))
    case Connector =>
      Payload(Or(Get(e.metadata, "name"), JString("Untitled connector")), NonSecret(e.spec, secrets))
  }

  lemma NameIsTruthy(e: Envelope, secrets: set<string>)
    ensures Truthy(RowFields(e, secrets).name)
  {
  }

  lemma QueryIsStable(name: Json, spec: Dict)
    requires Truthy(name)
    ensures var config := QueryConfig(name, spec); QueryConfig(name, QuerySpec(config, name)) == config
  {
    var config := QueryConfig(name, spec);
    assert QuerySpec(config, name) == config;
  }

  /** A payload stored as a row, exported and taken in again is the same payload. */
  lemma PayloadIsStable(e: Envelope, secrets: set<string>, str: Json -> string, id: Json, project: Json)
    ensures var p := RowFields(e, secrets);
            RowFields(ToEnvelope(e.kind, ResourceRow(p.name, id, project, JObject(p.config)), secrets, str),
                secrets) == p
  {
    NameIsTruthy(e, secrets);
    var p := RowFields(e, secrets);
    var back := ToEnvelope(e.kind, ResourceRow(p.name, id, project, JObject(p.config)), secrets, str);
    assert Get(back.metadata, "name") == p.name;
    match e.kind
    case Dashboard =>
    case Query =>
      QueryIsStable(p.name, e.spec);
    case Connector =>
      assert NonSecret(p.config, secrets) == p.config;
  }
}
