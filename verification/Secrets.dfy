/** The CI secret pipeline of cli/nubi_cli: prefixing in vcs_secrets.py, materialising in secrets_files.py. */
module Secrets {
  import opened Dotenv
  import opened PyText

  const FLOW_PREFIX := "NUBI_SECRET__"
  const CONNECTOR_PREFIX := "NUBI_CONNECTOR__"

  const FLOW_PATH := ".nubi/secrets/flow.env"
  const CONNECTORS_PATH := ".nubi/secrets/connectors.env"

  const FLOW_HEADER := "Nubi flow/org secrets (materialized)"
  const CONNECTORS_HEADER := "Nubi connector secrets (materialized)"

  predicate HasPrefix(prefix: string, key: string) {
    prefix <= key
  }

  /** The two prefixes differ at their sixth character, so no key has both. */
  lemma OnePrefix(key: string)
    ensures !(HasPrefix(FLOW_PREFIX, key) && HasPrefix(CONNECTOR_PREFIX, key))
  {
    if HasPrefix(FLOW_PREFIX, key) {
      assert key[5] == FLOW_PREFIX[5] == 'S';
      assert CONNECTOR_PREFIX[5] == 'C';
    }
  }

  // ----- the environment's part of each file -----

  /** The entries of `environ` under `prefix`, with the prefix taken off. */
  ghost predicate IsPart(part: map<string, string>, environ: map<string, string>, prefix: string) {
    && (forall k :: k in part ==> prefix + k in environ && part[k] == environ[prefix + k])
    && (forall k :: prefix + k in environ ==> k in part)
  }

  lemma PrefixCancels(prefix: string, key: string)
    requires HasPrefix(prefix, key)
    ensures prefix + key[|prefix|..] == key
  {
  }

  lemma PrefixInjective(prefix: string, a: string, b: string)
    requires prefix + a == prefix + b
    ensures a == b
  {
    assert (prefix + a)[|prefix|..] == a && (prefix + b)[|prefix|..] == b;
  }

  lemma PartGrows(part: map<string, string>, seen: map<string, string>, prefix: string, key: string, value: string)
    requires IsPart(part, seen, prefix) && key !in seen
    ensures HasPrefix(prefix, key) ==> IsPart(part[key[|prefix|..] := value], seen[key := value], prefix)
    ensures !HasPrefix(prefix, key) ==> IsPart(part, seen[key := value], prefix)
  {
    var more := seen[key := value];
    if HasPrefix(prefix, key) {
      PrefixCancels(prefix, key);
      forall k ensures prefix + k == key ==> k == key[|prefix|..] {
        if prefix + k == key {
          PrefixInjective(prefix, k, key[|prefix|..]);
        }
      }
    } else {
      forall k ensures prefix + k != key {
        assert prefix <= prefix + k;
      }
    }
  }

  /** No key has both prefixes. */
  ghost predicate Apart(a: string, b: string) {
    forall k :: !(HasPrefix(a, k) && HasPrefix(b, k))
  }

  lemma OnePrefixOnly()
    ensures Apart(FLOW_PREFIX, CONNECTOR_PREFIX)
  {
    forall k ensures !(HasPrefix(FLOW_PREFIX, k) && HasPrefix(CONNECTOR_PREFIX, k)) {
      OnePrefix(k);
    }
  }

  /** The dispatch loop of `materialize`: every variable goes to the file of its prefix, or nowhere. */
  method Dispatch(environ: map<string, string>, flowPrefix: string, connectorPrefix: string)
    returns (flow: map<string, string>, connector: map<string, string>)
    requires Apart(flowPrefix, connectorPrefix)
    ensures IsPart(flow, environ, flowPrefix) && IsPart(connector, environ, connectorPrefix)
  {
    flow, connector := map[], map[];
    var rest := environ.Keys;
    ghost var seen: map<string, string> := map[];
    while rest != {}
      invariant rest <= environ.Keys
      invariant seen == map k | k in environ && k !in rest :: environ[k]
      invariant IsPart(flow, seen, flowPrefix) && IsPart(connector, seen, connectorPrefix)
      decreases rest
    {
      var key :| key in rest;
      var value := environ[key];
      PartGrows(flow, seen, flowPrefix, key, value);
      PartGrows(connector, seen, connectorPrefix, key, value);
      if HasPrefix(connectorPrefix, key) {
        connector := connector[key[|connectorPrefix|..] := value];
      } else if HasPrefix(flowPrefix, key) {
        flow := flow[key[|flowPrefix|..] := value];
      }
      seen := seen[key := value];
      rest := rest - {key};
    }
    assert seen == environ;
  }

  method SplitEnviron(environ: map<string, string>) returns (flow: map<string, string>, connector: map<string, string>)
    ensures IsPart(flow, environ, FLOW_PREFIX) && IsPart(connector, environ, CONNECTOR_PREFIX)
  {
    OnePrefixOnly();
    flow, connector := Dispatch(environ, FLOW_PREFIX, CONNECTOR_PREFIX);
  }

  lemma PathsDiffer()
    ensures FLOW_PATH != CONNECTORS_PATH
  {
    assert FLOW_PATH[14] == 'f' && CONNECTORS_PATH[14] == 'c';
  }

  // ----- the project's secret files -----

  /** The file tree of a project: file texts by path. */
  class Project {
    var files: map<string, string>

    constructor ()
      ensures files == map[]
    {
      files := map[];
    }

    /** `read_dotenv` */
    method ReadDotenv(path: string) returns (r: map<string, string>)
      ensures r == ReadAt(files, path)
    {
      if path !in files {
        return map[];
      }
      r := ParseDotenv(ReadText(files[path]));
    }

    /** Merges `part` over what the file holds; nothing is written for an empty part. */
    method MergeInto(t: Target, part: map<string, string>)
      modifies this
      ensures files == Merged(old(files), t.path, part, t.header)
    {
      if part != map[] {
        var existing := ReadDotenv(t.path);
        existing := existing + part;
        var text := WriteDotenv(existing, t.header);
        files := files[t.path := text];
      }
    }

    /** `materialize` */
    method Materialize(environ: map<string, string>)
      returns (flowCount: nat, connectorCount: nat, ghost flow: map<string, string>,
          ghost connector: map<string, string>)
      modifies this
      ensures IsPart(flow, environ, FLOW_PREFIX) && IsPart(connector, environ, CONNECTOR_PREFIX)
      ensures files == Materialized(old(files), flow, connector)
      ensures flowCount == |flow| && connectorCount == |connector|
    {
      var f, c := SplitEnviron(environ);
      MergeInto(FLOW_FILE, f);
      MergeInto(CONNECTORS_FILE, c);
      return |f|, |c|, f, c;
    }
  }

  // ----- what materialising does to the tree -----

  function ReadAt(files: map<string, string>, path: string): map<string, string> {
    if path in files then Entries(files[path]) else map[]
  }

  function Merged(files: map<string, string>, path: string, part: map<string, string>, header: string)
    : map<string, string>
  {
    if part == map[] then files else files[path := FileText(ReadAt(files, path) + part, header)]
  }

  /** A dotenv file that materialising writes: where it is and its comment. */
  datatype Target = Target(path: string, header: string)

  function MergedBoth(files: map<string, string>, a: Target, flow: map<string, string>, b: Target,
                      connector: map<string, string>):
    map<string, string>
  {
    Merged(Merged(files, a.path, flow, a.header), b.path, connector, b.header)
  }

  const FLOW_FILE := Target(FLOW_PATH, FLOW_HEADER)
  const CONNECTORS_FILE := Target(CONNECTORS_PATH, CONNECTORS_HEADER)

  function Materialized(files: map<string, string>, flow: map<string, string>,
                        connector: map<string, string>): map<string, string> {
    MergedBoth(files, FLOW_FILE, flow, CONNECTORS_FILE, connector)
  }

  lemma HeadersAreOneLine()
    ensures OneLine(FLOW_HEADER) && OneLine(CONNECTORS_HEADER)
  {
  }

  lemma ReadBackUpdate(files: map<string, string>, path: string, text: string)
    ensures ReadAt(files[path := text], path) == Entries(text)
  {
  }

  lemma CleanUnion(existing: map<string, string>, part: map<string, string>)
    requires CleanMap(existing)
    ensures CleanMap(existing + part) <==> CleanMap(part)
  {
    if CleanMap(existing + part) {
      forall k | k in part ensures CleanKey(k) && CleanValue(part[k]) {
        assert k in existing + part && (existing + part)[k] == part[k];
      }
    }
  }

  /** Merging over a file is visible to the next reader exactly when the new entries are clean. */
  lemma MergeIsReadBack(files: map<string, string>, path: string, part: map<string, string>, header: string)
    requires OneLine(header)
    ensures ReadAt(Merged(files, path, part, header), path) == ReadAt(files, path) + part <==> CleanMap(part)
  {
    var existing := ReadAt(files, path);
    if part == map[] {
      assert existing + part == existing;
    } else {
      ReadAtIsClean(files, path);
      CleanUnion(existing, part);
      WrittenIsReadBackExactly(existing + part, header);
      ReadBackUpdate(files, path, FileText(existing + part, header));
    }
  }

  lemma OtherPathUntouched(files: map<string, string>, path: string, other: string, part: map<string, string>,
                           header: string)
    requires path != other
    ensures ReadAt(Merged(files, path, part, header), other) == ReadAt(files, other)
  {
  }

  lemma MergedBothExactly(files: map<string, string>, a: Target, flow: map<string, string>, b: Target,
                          connector: map<string, string>)
    requires a.path != b.path && OneLine(a.header) && OneLine(b.header)
    ensures ReadAt(MergedBoth(files, a, flow, b, connector), a.path) == ReadAt(files, a.path) + flow <==> CleanMap(flow)
    ensures ReadAt(MergedBoth(files, a, flow, b, connector), b.path) == ReadAt(files, b.path) + connector
       <==> CleanMap(connector)
  {
    var mid := Merged(files, a.path, flow, a.header);
    MergeIsReadBack(files, a.path, flow, a.header);
    OtherPathUntouched(mid, b.path, a.path, connector, b.header);
    OtherPathUntouched(files, a.path, b.path, flow, a.header);
    MergeIsReadBack(mid, b.path, connector, b.header);
  }

  /**
   * After materialising, each file holds its old entries overlaid by its own part of the environment
   * and nothing of the other part: exactly when the new entries are clean.
   */
  lemma MaterializedExactly(files: map<string, string>, flow: map<string, string>, connector: map<string, string>)
    ensures ReadAt(Materialized(files, flow, connector), FLOW_PATH) == ReadAt(files, FLOW_PATH) + flow
            <==> CleanMap(flow)
    ensures ReadAt(Materialized(files, flow, connector), CONNECTORS_PATH) == ReadAt(files, CONNECTORS_PATH) + connector
       <==> CleanMap(connector)
  {
    HeadersAreOneLine();
    PathsDiffer();
    MergedBothExactly(files, FLOW_FILE, flow, CONNECTORS_FILE, connector);
  }

  // ----- CI keys -----

  /** Upper-casing, as far as it matters here: idempotent, and it keeps a key fit for a dotenv line. */
  ghost predicate Casing(up: string -> string) {
    forall s :: up(up(s)) == up(s) && (CleanKey(s) ==> CleanKey(up(s)))
  }

  ghost predicate AllUpper(up: string -> string, m: map<string, string>) {
    forall k :: k in m ==> up(k) == k
  }

  /** `out` holds an entry of `m` under every prefixed upper-case name of `m`. */
  ghost predicate Covers(up: string -> string, out: map<string, string>, m: map<string, string>, prefix: string) {
    forall k :: k in m ==> prefix + up(k) in out
  }

  ghost predicate ComesFrom(up: string -> string, key: string, value: string, m: map<string, string>, prefix: string) {
    exists k :: k in m && key == prefix + up(k) && value == m[k]
  }

  /** Every entry of `out` is an entry of `m` under one prefix or of `other` under the other. */
  ghost predicate FromEither(up: string -> string, out: map<string, string>, m: map<string, string>, prefix: string,
                             other: map<string, string>, otherPrefix: string) {
    forall key :: key in out ==>
      ComesFrom(up, key, out[key], m, prefix) || ComesFrom(up, key, out[key], other, otherPrefix)
  }

  ghost predicate IsPrefixed(up: string -> string, out: map<string, string>, flow: map<string, string>,
                             connector: map<string, string>) {
    && Covers(up, out, flow, FLOW_PREFIX) && Covers(up, out, connector, CONNECTOR_PREFIX)
    && FromEither(up, out, flow, FLOW_PREFIX, connector, CONNECTOR_PREFIX)
  }

  method AddPrefixed(up: string -> string, out0: map<string, string>, m: map<string, string>, prefix: string)
    returns (out: map<string, string>)
    ensures Covers(up, out, m, prefix) && out0.Keys <= out.Keys
    ensures forall key :: key in out ==>
              ComesFrom(up, key, out[key], m, prefix) || (key in out0 && out[key] == out0[key])
  {
    out := out0;
    var rest := m.Keys;
    while rest != {}
      invariant rest <= m.Keys && out0.Keys <= out.Keys
      invariant forall k :: k in m && k !in rest ==> prefix + up(k) in out
      invariant forall key :: key in out ==>
                  ComesFrom(up, key, out[key], m, prefix) || (key in out0 && out[key] == out0[key])
      decreases rest
    {
      var name :| name in rest;
      out := out[prefix + up(name) := m[name]];
      rest := rest - {name};
    }
  }

  /** `prefixed_names`, for any iteration order of the two dictionaries. */
  method PrefixedNames(up: string -> string, flow: map<string, string>, connector: map<string, string>)
    returns (out: map<string, string>)
    ensures IsPrefixed(up, out, flow, connector)
  {
    var first := AddPrefixed(up, map[], flow, FLOW_PREFIX);
    out := AddPrefixed(up, first, connector, CONNECTOR_PREFIX);
    forall key | key in out
      ensures ComesFrom(up, key, out[key], flow, FLOW_PREFIX)
              || ComesFrom(up, key, out[key], connector, CONNECTOR_PREFIX)
    {
      assert ComesFrom(up, key, out[key], connector, CONNECTOR_PREFIX) || (key in first && out[key] == first[key]);
    }
  }

  /** Where an entry of one part of the CI keys comes from: only from the map with that prefix. */
  lemma PartComesFrom(up: string -> string, out: map<string, string>, m: map<string, string>,
                      other: map<string, string>,
                      prefix: string, otherPrefix: string, part: map<string, string>, key: string)
    requires FromEither(up, out, m, prefix, other, otherPrefix) && Apart(prefix, otherPrefix)
    requires IsPart(part, out, prefix) && key in part
    ensures exists k :: k in m && key == up(k) && part[key] == m[k]
  {
    var full := prefix + key;
    assert full in out && HasPrefix(prefix, full);
    assert !ComesFrom(up, full, out[full], other, otherPrefix);
    var k :| k in m && full == prefix + up(k) && out[full] == m[k];
    PrefixInjective(prefix, key, up(k));
  }

  /** Printing to CI keys and taking the part of one prefix gives the map back exactly when its keys are upper case. */
  lemma PartIsMapExactly(up: string -> string, out: map<string, string>, m: map<string, string>,
                         other: map<string, string>,
                         prefix: string, otherPrefix: string, part: map<string, string>)
    requires Casing(up) && Covers(up, out, m, prefix)
    requires FromEither(up, out, m, prefix, other, otherPrefix) && Apart(prefix, otherPrefix)
    requires IsPart(part, out, prefix)
    ensures part == m <==> AllUpper(up, m)
    ensures CleanMap(m) ==> CleanMap(part)
  {
    forall key | key in part ensures up(key) == key && (CleanMap(m) ==> CleanKey(key) && CleanValue(part[key])) {
      PartComesFrom(up, out, m, other, prefix, otherPrefix, part, key);
    }
    if AllUpper(up, m) {
      forall key | key in part ensures key in m && part[key] == m[key] {
        PartComesFrom(up, out, m, other, prefix, otherPrefix, part, key);
      }
      forall key | key in m ensures key in part {
        assert prefix + up(key) in out;
      }
    }
  }

  lemma FileIsMapExactly(files: map<string, string>, path: string, part: map<string, string>, m: map<string, string>,
                         same: bool)
    requires ReadAt(files, path) == part <==> CleanMap(part)
    requires (part == m <==> same) && (CleanMap(m) ==> CleanMap(part))
    ensures ReadAt(files, path) == m <==> CleanMap(m) && same
  {
    ReadAtIsClean(files, path);
  }

  lemma EitherWay(up: string -> string, out: map<string, string>, m: map<string, string>, prefix: string,
                  other: map<string, string>, otherPrefix: string)
    requires FromEither(up, out, m, prefix, other, otherPrefix) && Apart(prefix, otherPrefix)
    ensures FromEither(up, out, other, otherPrefix, m, prefix) && Apart(otherPrefix, prefix)
  {
    forall key | key in out
      ensures ComesFrom(up, key, out[key], other, otherPrefix) || ComesFrom(up, key, out[key], m, prefix)
    {
    }
  }

  /** The file half: two parts merged into an empty project are read back as the maps they stand for. */
  lemma BothFilesExactly(a: Target, f: map<string, string>, flow: map<string, string>, sameFlow: bool,
                         b: Target, c: map<string, string>, connector: map<string, string>, sameConnector: bool)
    requires (f == flow <==> sameFlow) && (CleanMap(flow) ==> CleanMap(f))
    requires (c == connector <==> sameConnector) && (CleanMap(connector) ==> CleanMap(c))
    requires a.path != b.path && OneLine(a.header) && OneLine(b.header)
    ensures ReadAt(MergedBoth(map[], a, f, b, c), a.path) == flow <==> CleanMap(flow) && sameFlow
    ensures ReadAt(MergedBoth(map[], a, f, b, c), b.path) == connector <==> CleanMap(connector) && sameConnector
  {
    var files: map<string, string> := map[];
    assert ReadAt(files, a.path) + f == f && ReadAt(files, b.path) + c == c;
    MergedBothExactly(files, a, f, b, c);
    FileIsMapExactly(MergedBoth(files, a, f, b, c), a.path, f, flow, sameFlow);
    FileIsMapExactly(MergedBoth(files, a, f, b, c), b.path, c, connector, sameConnector);
  }

  /**
   * The whole pipeline into an empty project: the flow file read back is the original map exactly when
   * every entry is clean and every key upper case; the same for the connector file. No entry crosses over.
   */
  lemma PipelineExactly(up: string -> string, flow: map<string, string>, connector: map<string, string>,
                        out: map<string, string>, f: map<string, string>, c: map<string, string>)
    requires Casing(up) && IsPrefixed(up, out, flow, connector)
    requires IsPart(f, out, FLOW_PREFIX) && IsPart(c, out, CONNECTOR_PREFIX)
    ensures ReadAt(Materialized(map[], f, c), FLOW_PATH) == flow <==> CleanMap(flow) && AllUpper(up, flow)
    ensures ReadAt(Materialized(map[], f, c), CONNECTORS_PATH) == connector
            <==> CleanMap(connector) && AllUpper(up, connector)
  {
    OnePrefixOnly();
    EitherWay(up, out, flow, FLOW_PREFIX, connector, CONNECTOR_PREFIX);
    PartIsMapExactly(up, out, flow, connector, FLOW_PREFIX, CONNECTOR_PREFIX, f);
    PartIsMapExactly(up, out, connector, flow, CONNECTOR_PREFIX, FLOW_PREFIX, c);
    HeadersAreOneLine();
    PathsDiffer();
    BothFilesExactly(FLOW_FILE, f, flow, AllUpper(up, flow), CONNECTORS_FILE, c, connector, AllUpper(up, connector));
  }

  lemma ReadAtIsClean(files: map<string, string>, path: string)
    ensures CleanMap(ReadAt(files, path))
  {
    if path in files {
      EntriesAreClean(files[path]);
    }
  }

  /**
   * A prefixed variable arrives in the file of its prefix, under its name without the prefix, and what else the file
   * holds it held before; provided that the names and values are clean.
   */
  lemma VariableArrives(files: map<string, string>, environ: map<string, string>, flow: map<string, string>,
                        connector: map<string, string>, name: string)
    requires IsPart(flow, environ, FLOW_PREFIX) && IsPart(connector, environ, CONNECTOR_PREFIX)
    requires CleanMap(flow) && CleanMap(connector)
    ensures var before, after := ReadAt(files, ".nubi/secrets/flow.env"),
                                 ReadAt(Materialized(files, flow, connector), ".nubi/secrets/flow.env");
            Arrives(environ, before, after, "NUBI_SECRET__" + name, name)
    ensures var before, after := ReadAt(files, ".nubi/secrets/connectors.env"),
                                 ReadAt(Materialized(files, flow, connector), ".nubi/secrets/connectors.env");
            Arrives(environ, before, after, "NUBI_CONNECTOR__" + name, name)
  {
    MaterializedExactly(files, flow, connector);
    PartArrives(flow, environ, FLOW_PREFIX, ReadAt(files, FLOW_PATH), name);
    PartArrives(connector, environ, CONNECTOR_PREFIX, ReadAt(files, CONNECTORS_PATH), name);
  }

  /** The variable's value if it is set, and otherwise what was there before. */
  predicate Arrives(environ: map<string, string>, before: map<string, string>, after: map<string, string>,
                    variable: string, name: string) {
    if variable in environ then name in after && after[name] == environ[variable]
    else (name in after <==> name in before) && (name in after ==> after[name] == before[name])
  }

  lemma PartArrives(part: map<string, string>, environ: map<string, string>, prefix: string,
                    before: map<string, string>, name: string)
    requires IsPart(part, environ, prefix)
    ensures Arrives(environ, before, before + part, prefix + name, name)
  {
  }
}
