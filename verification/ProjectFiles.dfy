/** Files as code: how cli/nubi_cli/project.py writes envelopes to a file tree and reads them back. */
module ProjectFiles {
  import opened Names
  import opened Portable
  import opened PyText
  import opened Text
  import opened Wrappers

  /** The library functions the serializer leans on. */
  datatype Python = Python(
    lower: string -> string,
    str: Json -> string,
    jsonDump: Json -> string,
    jsonLoad: string -> Option<Json>,
    yamlDump: Json -> string,
    yamlLoad: string -> Option<Json>
  )

  /**
   * `str` keeps strings and prints nothing truthy as the empty string; loading inverts dumping, through a
   * text file.
   */
  ghost predicate Lawful(py: Python) {
    && (forall s :: py.str(JString(s)) == s)
    && (forall j :: Truthy(j) ==> py.str(j) != "")
    && (forall j :: py.jsonLoad(ReadText(py.jsonDump(j))) == Some(j))
    && (forall j :: py.yamlLoad(ReadText(py.yamlDump(j))) == Some(j))
  }

  // ----- slugs -----

  predicate SlugChar(c: char) {
    'a' <= c <= 'z' || IsDigit(c)
  }

  /** Every run of other characters becomes one hyphen. */
  function Hyphenate(s: string, inRun: bool): string {
    if s == "" then ""
    else if SlugChar(s[0]) then [s[0]] + Hyphenate(s[1..], false)
    else (if inRun then "" else "-") + Hyphenate(s[1..], true)
  }

  function StripHyphens(s: string): string {
    if s != "" && s[0] == '-' then StripHyphens(s[1..])
    else if s != "" && s[|s| - 1] == '-' then StripHyphens(s[..|s| - 1])
    else s
  }

  function Slugify(py: Python, name: string): string {
    var slug := StripHyphens(Hyphenate(py.lower(name), false));
    if slug == "" then "resource" else slug
  }

  predicate SlugSafe(s: string) {
    forall i :: 0 <= i < |s| ==> SlugChar(s[i]) || s[i] == '-'
  }

  lemma {:induction false} HyphenateIsSafe(s: string, inRun: bool)
    ensures SlugSafe(Hyphenate(s, inRun))
  {
    if s != "" {
      HyphenateIsSafe(s[1..], !SlugChar(s[0]));
    }
  }

  lemma {:induction false} StripHyphensIsSafe(s: string)
    requires SlugSafe(s)
    ensures SlugSafe(StripHyphens(s))
    decreases |s|
  {
    if s != "" && s[0] == '-' {
      StripHyphensIsSafe(s[1..]);
    } else if s != "" && s[|s| - 1] == '-' {
      StripHyphensIsSafe(s[..|s| - 1]);
    }
  }

  /** A slug is never empty and holds lower-case letters, digits and hyphens only. */
  lemma SlugIsSafe(py: Python, name: string)
    ensures Slugify(py, name) != "" && SlugSafe(Slugify(py, name))
  {
    HyphenateIsSafe(py.lower(name), false);
    StripHyphensIsSafe(Hyphenate(py.lower(name), false));
  }

  // ----- what a slug keeps -----

  /** The letters a to z and the digits 0 to 9 of a text, in order. */
  function Letters(s: string): string {
    if s == "" then ""
    else (if 'a' <= s[0] <= 'z' || '0' <= s[0] <= '9' then [s[0]] else "") + Letters(s[1..])
  }

  lemma {:induction false} LettersSnoc(s: string, c: char)
    requires !SlugChar(c)
    ensures Letters(s + [c]) == Letters(s)
  {
    if s == "" {
      assert "" + [c] == [c] && [c][1..] == "";
    } else {
      assert (s + [c])[1..] == s[1..] + [c];
      LettersSnoc(s[1..], c);
    }
  }

  lemma {:induction false} HyphenateKeepsLetters(s: string, inRun: bool)
    ensures Letters(Hyphenate(s, inRun)) == Letters(s)
  {
    if s != "" {
      var rest := Hyphenate(s[1..], !SlugChar(s[0]));
      HyphenateKeepsLetters(s[1..], !SlugChar(s[0]));
      assert ([s[0]] + rest)[1..] == rest && ("-" + rest)[1..] == rest && "" + rest == rest;
    }
  }

  lemma {:induction false} StripKeepsLetters(s: string)
    ensures Letters(StripHyphens(s)) == Letters(s)
    decreases |s|
  {
    if s != "" && s[0] == '-' {
      StripKeepsLetters(s[1..]);
    } else if s != "" && s[|s| - 1] == '-' {
      StripKeepsLetters(s[..|s| - 1]);
      LettersSnoc(s[..|s| - 1], s[|s| - 1]);
      assert s[..|s| - 1] + [s[|s| - 1]] == s;
    }
  }

  /** How many slug characters the text begins with. */
  function RunLength(s: string): (n: nat)
    ensures n <= |s| && (forall i :: 0 <= i < n ==> SlugChar(s[i])) && (n < |s| ==> !SlugChar(s[n]))
  {
    if s == "" || !SlugChar(s[0]) then 0 else 1 + RunLength(s[1..])
  }

  /** Nothing is empty or holds any other character. */
  predicate AreWords(words: seq<string>) {
    forall i :: 0 <= i < |words| ==> words[i] != "" && forall k :: 0 <= k < |words[i]| ==> SlugChar(words[i][k])
  }

  /** The longest runs of slug characters, in order. */
  function Words(s: string): (r: seq<string>)
    ensures AreWords(r)
    decreases |s|
  {
    if s == "" then []
    else if !SlugChar(s[0]) then Words(s[1..])
    else [s[..RunLength(s)]] + Words(s[RunLength(s)..])
  }

  lemma {:induction false} HyphenateRun(w: string, t: string, inRun: bool)
    requires w != "" && forall i :: 0 <= i < |w| ==> SlugChar(w[i])
    ensures Hyphenate(w + t, inRun) == w + Hyphenate(t, false)
  {
    assert (w + t)[1..] == w[1..] + t;
    if |w| == 1 {
      assert w[1..] + t == t;
    } else {
      HyphenateRun(w[1..], t, false);
    }
  }

  /** The words with hyphens in between, and maybe one more at the end. */
  predicate Hyphenated(x: string, words: seq<string>) {
    || x == Join("-", words)
    || (words != [] && x == Join("-", words) + "-")
  }

  lemma HyphenatedCons(w: string, words: seq<string>, x: string)
    requires Hyphenated(x, words)
    ensures Hyphenated(w + "-" + x, [w] + words)
  {
    assert ([w] + words)[1..] == words;
    if words == [] {
      assert w + "-" + x == w + "-";
    } else if x == Join("-", words) + "-" {
      assert w + "-" + (Join("-", words) + "-") == (w + "-" + Join("-", words)) + "-";
    }
  }

  lemma {:induction false} HyphenateIsHyphenated(s: string)
    ensures Hyphenated(Hyphenate(s, true), Words(s))
    decreases |s|
  {
    if s != "" && !SlugChar(s[0]) {
      HyphenateIsHyphenated(s[1..]);
    } else if s != "" {
      var w, t := s[..RunLength(s)], s[RunLength(s)..];
      assert s == w + t;
      HyphenateRun(w, t, true);
      if t == "" {
        assert w + Hyphenate(t, false) == w;
      } else {
        HyphenateIsHyphenated(t[1..]);
        HyphenatedCons(w, Words(t[1..]), Hyphenate(t[1..], true));
        assert w + ("-" + Hyphenate(t[1..], true)) == w + "-" + Hyphenate(t[1..], true);
      }
    }
  }

  /** A join of words begins and ends with a slug character. */
  lemma {:induction false} JoinEnds(words: seq<string>)
    requires words != []
    requires AreWords(words)
    ensures var x := Join("-", words); x != "" && SlugChar(x[0]) && SlugChar(x[|x| - 1])
  {
    if |words| > 1 {
      JoinEnds(words[1..]);
    }
  }

  lemma StripHyphenated(x: string, words: seq<string>)
    requires AreWords(words)
    requires Hyphenated(x, words)
    ensures StripHyphens(x) == Join("-", words)
  {
    if words != [] {
      JoinEnds(words);
      assert (Join("-", words) + "-")[..|Join("-", words)|] == Join("-", words);
    }
  }

  /**
   * A slug is the words of the lower-cased name with single hyphens in between, or "resource" for a name without
   * any; so it keeps all letters and digits in order.
   */
  lemma SlugExactly(py: Python, name: string)
    ensures var low := py.lower(name);
            && (Letters(low) == "" ==> Slugify(py, name) == "resource")
            && (Letters(low) != "" ==>
                  Letters(Slugify(py, name)) == Letters(low) && Slugify(py, name) == Join("-", Words(low)))
  {
    var low := py.lower(name);
    HyphenateKeepsLetters(low, false);
    StripKeepsLetters(Hyphenate(low, false));
    SlugIsJoin(low);
    if Letters(low) == "" {
      NoWordsLeft(low);
    }
  }

  lemma HyphenateStart(low: string)
    ensures Hyphenate(low, false) == Hyphenate(low, true) || Hyphenate(low, false) == "-" + Hyphenate(low, true)
  {
  }

  lemma StripFirst(x: string)
    ensures StripHyphens("-" + x) == StripHyphens(x)
  {
    assert ("-" + x)[1..] == x;
  }

  lemma SlugIsJoin(low: string)
    ensures StripHyphens(Hyphenate(low, false)) == Join("-", Words(low))
  {
    HyphenateIsHyphenated(low);
    StripHyphenated(Hyphenate(low, true), Words(low));
    StripFirst(Hyphenate(low, true));
    HyphenateStart(low);
  }

  lemma {:induction false} NoWordsLeft(low: string)
    requires Letters(low) == ""
    ensures Words(low) == []
  {
    if low != "" {
      NoWordsLeft(low[1..]);
    }
  }

  // ----- envelope to files -----

  datatype Item = Item(path: string, content: string)

  /** `str(d.get(key) or "")` */
  function TextOf(py: Python, d: Dict, key: string): string {
    if Truthy(Get(d, key)) then py.str(Get(d, key)) else ""
  }

  function NameOf(py: Python, e: Envelope): string {
    TextOf(py, e.metadata, "name")
  }

  function IdOf(py: Python, e: Envelope): string {
    TextOf(py, e.metadata, "id")
  }

  function SlugOf(py: Python, e: Envelope): string {
    Slugify(py, NameOf(py, e))
  }

  /** `path.replace(from, to, 1)` */
  function ReplaceFirst(s: string, from: string, to: string): string
    requires from != ""
  {
    if from <= s then to + s[|from|..]
    else if s == "" then ""
    else [s[0]] + ReplaceFirst(s[1..], from, to)
  }

  function Restem(item: Item, rid: string, slug: string): Item {
    item.(path := ReplaceFirst(item.path, "/" + rid, "/" + slug))
  }

  function RestemAll(items: seq<Item>, rid: string, slug: string): (r: seq<Item>)
    ensures |r| == |items|
  {
    seq(|items|, i requires 0 <= i < |items| => Restem(items[i], rid, slug))
  }

  function NormalEntry(py: Python, name: Json, kind: Json): Json {
    JObject(map["name" := JString(py.str(name)), "type" := JString(py.str(Or(kind, JString("text"))))])
  }

  /** The declared output columns in their normal form; anything without a name is dropped. */
  function NormalSchema(py: Python, items: seq<Json>): seq<Json> {
    if items == [] then []
    else
      var rest := NormalSchema(py, items[1..]);
      if items[0].JObject? && Get(items[0].fields, "name") != JNull then
        [NormalEntry(py, Get(items[0].fields, "name"), Get(items[0].fields, "type"))] + rest
      else rest
  }

  function MetaDoc(rid: string, name: string, config: Dict): Json {
    JObject(map["id" := JString(rid), "name" := JString(name), "config" := JObject(config)])
  }

  /** `_query_files_fallback` */
  function QueryFilesFallback(py: Python, rid: string, name: string, config: Dict): seq<Item> {
    var rest := map k | k in config && k != "sql" && k != "output_schema" :: config[k];
    var items := [
      Item("queries/" + rid + ".sql", py.str(GetOr(config, "sql", JString("")))),
      Item("queries/" + rid + ".meta.json", py.jsonDump(MetaDoc(rid, name, rest)))
    ];
    var schema := Get(config, "output_schema");
    if schema.JArray? then
      items + [Item("queries/" + rid + ".json", py.jsonDump(JArray(NormalSchema(py, schema.items))))]
    else items
  }

  function FileConfig(py: Python, e: Envelope): Dict {
    var name := NameOf(py, e);
    var config := map[
      "name" := Or(JString(name), Or(Get(e.spec, "name"), JString(""))),
      "sql" := GetOr(e.spec, "sql", JString("")),
      "params" := Or(Get(e.spec, "params"), JArray([])),
      "datastore_id" := Get(e.spec, "datastore_id")
    ];
    Optional(config, "output_schema", Get(e.spec, "output_schema"), Get(e.spec, "output_schema").JArray?)
  }

  function ConnectorDoc(py: Python, e: Envelope): Json {
    var name: Dict := map["name" := JString(NameOf(py, e))];
    var metadata := Optional(name, "id", JString(IdOf(py, e)), Truthy(Get(e.metadata, "id")));
    JObject(map[
      "apiVersion" := JString("nubi/v1"),
      "kind" := JString("connector"),
      "metadata" := JObject(metadata),
      "spec" := JObject(e.spec)
    ])
  }

  /** `envelope_to_files` with its self-contained serializers. */
  function EnvelopeToFiles(py: Python, e: Envelope): seq<Item> {
    var rid, name, slug := IdOf(py, e), NameOf(py, e), SlugOf(py, e);
    var stem := if rid != "" then rid else slug;
    match e.kind
    case Connector => [Item("connectors/" + slug + ".yaml", py.yamlDump(ConnectorDoc(py, e)))]
    case Query =>
      var items := QueryFilesFallback(py, stem, name, FileConfig(py, e));
      if rid != "" then RestemAll(items, rid, slug) else items
    case Dashboard =>
      var config: Dict := map["spec" := JObject(e.spec)];
      var items := [Item("dashboards/" + stem + ".json", py.jsonDump(MetaDoc(rid, name, config)))];
      if rid != "" then RestemAll(items, rid, slug) else items
  }

  // ----- files to envelope -----

  predicate HasSuffix(s: string, suffix: string) {
    |suffix| <= |s| && s[|s| - |suffix|..] == suffix
  }

  function ReadMetadata(py: Python, name: Json, id: Json): Dict {
    var metadata: Dict := map["name" := name];
    Optional(metadata, "id", JString(py.str(id)), Truthy(id))
  }

  /** `read_connector`; `None` where it raises or the document holds no objects. */
  function ReadConnector(py: Python, text: string): Option<Envelope> {
    match py.yamlLoad(text)
    case Some(JObject(data)) =>
      var metadata := Or(Get(data, "metadata"), JObject(map[]));
      var spec := Or(Get(data, "spec"), JObject(map[]));
      if metadata.JObject? && spec.JObject? then Some(Envelope(Connector, metadata.fields, spec.fields)) else None
    case _ => None
  }

  /** `read_dashboard` */
  function ReadDashboard(py: Python, text: string): Option<Envelope> {
    match py.jsonLoad(text)
    case Some(JObject(doc)) =>
      var config := Or(Get(doc, "config"), JObject(map[]));
      var spec := if config.JObject? && Get(config.fields, "spec").JObject? then Get(config.fields, "spec") else config;
      if spec.JObject? then
        Some(Envelope(Dashboard, ReadMetadata(py, Or(Get(doc, "name"), JString("")), Get(doc, "id")), spec.fields))
      else None
    case _ => None
  }

  /** The output-shape sidecar: `.schema.json` if there is one, else `.json`; ignored unless it parses to a list. */
  function ReadSidecar(py: Python, files: map<string, string>, base: string): Option<Json> {
    var path := if base + ".schema.json" in files then base + ".schema.json" else base + ".json";
    if path !in files then None
    else
      var schema := py.jsonLoad(ReadText(files[path]));
      if schema.Some? && schema.value.JArray? then schema else None
  }

  function QueryEnvelope(py: Python, meta: Dict, config: Dict, sql: Json, schema: Json): Envelope {
    var name := Or(Get(meta, "name"), Or(Get(config, "name"), JString("")));
    var spec := map[
      "name" := name,
      "sql" := sql,
      "params" := Or(Get(config, "params"), JArray([])),
      "datastore_id" := Get(config, "datastore_id")
    ];
    Envelope(Query, ReadMetadata(py, name, Get(meta, "id")), Optional(spec, "output_schema", schema, schema.JArray?))
  }

  /** `read_query` for the metadata file at `base + ".meta.json"`, with its siblings. */
  function ReadQuery(py: Python, files: map<string, string>, base: string): Option<Envelope>
    requires base + ".meta.json" in files
  {
    match py.jsonLoad(ReadText(files[base + ".meta.json"]))
    case Some(JObject(meta)) =>
      var c := Or(Get(meta, "config"), JObject(map[]));
      if !c.JObject? then None
      else
        var sql := if base + ".sql" in files then JString(ReadText(files[base + ".sql"]))
                   else GetOr(c.fields, "sql", JString(""));
        var sidecar := ReadSidecar(py, files, base);
        var schema := if sidecar.Some? then sidecar.value else Get(c.fields, "output_schema");
        Some(QueryEnvelope(py, meta, c.fields, sql, schema))
    case _ => None
  }

  // ----- the tree -----

  function Folder(kind: Kind): string {
    match kind
    case Connector => "connectors"
    case Dashboard => "dashboards"
    case Query => "queries"
  }

  /** The suffix of the file that stands for a resource of the kind. */
  function Suffix(kind: Kind): string {
    match kind
    case Connector => ".yaml"
    case Dashboard => ".json"
    case Query => ".meta.json"
  }

  /** Directly in the folder, with the suffix. */
  predicate Listed(path: string, kind: Kind) {
    && Folder(kind) + "/" <= path && |Folder(kind)| + 1 + |Suffix(kind)| <= |path| && HasSuffix(path, Suffix(kind))
    && '/' !in path[|Folder(kind)| + 1..]
  }

  function Listing(files: map<string, string>, kind: Kind): seq<string> {
    Sorted(set path | path in files && Listed(path, kind))
  }

  function ReadOne(py: Python, files: map<string, string>, kind: Kind, path: string): Option<Envelope>
    requires path in files && Listed(path, kind)
  {
    match kind
    case Connector => ReadConnector(py, ReadText(files[path]))
    case Dashboard => ReadDashboard(py, ReadText(files[path]))
    case Query =>
      var base := path[..|path| - |Suffix(kind)|];
      assert path == base + ".meta.json";
      ReadQuery(py, files, base)
  }

  ghost predicate AllListed(files: map<string, string>, kind: Kind, paths: seq<string>) {
    forall i :: 0 <= i < |paths| ==> paths[i] in files && Listed(paths[i], kind)
  }

  function Readings(py: Python, files: map<string, string>, kind: Kind, paths: seq<string>): (r: seq<Option<Envelope>>)
    requires AllListed(files, kind, paths)
    ensures |r| == |paths|
  {
    seq(|paths|, i requires 0 <= i < |paths| => ReadOne(py, files, kind, paths[i]))
  }

  /** The first `n` readings, unless one of them failed. */
  function Gather(readings: seq<Option<Envelope>>, n: nat): Option<seq<Envelope>>
    requires n <= |readings|
  {
    if n == 0 then Some([])
    else
      var before := Gather(readings, n - 1);
      if before.Some? && readings[n - 1].Some? then Some(before.value + [readings[n - 1].value]) else None
  }

  lemma ListingIsListed(files: map<string, string>, kind: Kind)
    ensures AllListed(files, kind, Listing(files, kind))
  {
    var paths := Listing(files, kind);
    forall i | 0 <= i < |paths| ensures paths[i] in files && Listed(paths[i], kind) {
      assert paths[i] in paths;
    }
  }

  function ReadKind(py: Python, files: map<string, string>, kind: Kind): Option<seq<Envelope>> {
    ListingIsListed(files, kind);
    var readings := Readings(py, files, kind, Listing(files, kind));
    Gather(readings, |readings|)
  }

  /** `write_files`: later items overwrite earlier ones. */
  function Written(files: map<string, string>, items: seq<Item>): map<string, string> {
    if items == [] then files
    else
      var n := |items| - 1;
      Written(files, items[..n])[items[n].path := items[n].content]
  }

  function Tree(py: Python, envelopes: seq<Envelope>): map<string, string> {
    if envelopes == [] then map[]
    else
      var n := |envelopes| - 1;
      Written(Tree(py, envelopes[..n]), EnvelopeToFiles(py, envelopes[n]))
  }

  /** A checkout: file texts by path. */
  class Checkout {
    var files: map<string, string>

    constructor ()
      ensures files == map[]
    {
      files := map[];
    }

    method WriteFiles(items: seq<Item>)
      modifies this
      ensures files == Written(old(files), items)
    {
      for i := 0 to |items|
        invariant files == Written(old(files), items[..i])
      {
        assert items[..i + 1][..i] == items[..i];
        files := files[items[i].path := items[i].content];
      }
      assert items[..|items|] == items;
    }

    /** Writes the files of every envelope in turn into an empty checkout. */
    method WriteAll(py: Python, envelopes: seq<Envelope>)
      requires files == map[]
      modifies this
      ensures files == Tree(py, envelopes)
    {
      for i := 0 to |envelopes|
        invariant files == Tree(py, envelopes[..i])
      {
        assert envelopes[..i + 1][..i] == envelopes[..i];
        WriteFiles(EnvelopeToFiles(py, envelopes[i]));
      }
      assert envelopes[..|envelopes|] == envelopes;
    }

    /** One folder of `read_all`. */
    method ReadFolder(py: Python, kind: Kind) returns (r: Option<seq<Envelope>>)
      ensures r == ReadKind(py, files, kind)
    {
      var tree := files;
      var paths := Listing(tree, kind);
      ListingIsListed(tree, kind);
      ghost var readings := Readings(py, tree, kind, paths);
      var out: seq<Envelope> := [];
      for i := 0 to |paths|
        invariant Gather(readings, i) == Some(out)
      {
        var one := ReadOne(py, tree, kind, paths[i]);
        assert readings[i] == one;
        if one.None? {
          FailureStays(readings, i, |paths|);
          return None;
        }
        out := out + [one.value];
      }
      r := Some(out);
    }
  }

  lemma {:induction false} FailureStays(readings: seq<Option<Envelope>>, i: nat, n: nat)
    requires i < n <= |readings| && readings[i] == None
    ensures Gather(readings, n) == None
  {
    if i < n - 1 {
      FailureStays(readings, i, n - 1);
    }
  }
}
