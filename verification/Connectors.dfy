/**
 * Flattening a legacy connector row and splitting it into configuration and secrets,
 * backend/scripts/classify_connectors.py.
 */
module Connectors {
  import opened Names
  import opened Wrappers

  /** A field of a row, and a nested dictionary in insertion order. */
  datatype Field = Scalar(text: string) | Nested(entries: seq<Entry>)
  datatype Entry = Entry(key: string, value: Field)

  const WRAPPERS: seq<string> := ["connectionDetails", "connection_details", "config", "settings"]

  /** Legacy field names and what they are called now. */
  const FIELD_ALIASES: map<string, string> := map[
    "sslMode" := "sslmode", "ssl_mode" := "sslmode",
    "dbname" := "database", "db_name" := "database", "db" := "database",
    "hostname" := "host", "server" := "host",
    "connector_type" := "type", "source_type" := "type",
    "apiKey" := "api_key", "serviceAccountJson" := "service_account_json", "credentialFile" := "credential_file",
    "accessToken" := "access_token", "clientSecret" := "client_secret", "privateKey" := "private_key"
  ]

  function Canonical(alias: map<string, string>, key: string): string {
    if key in alias then alias[key] else key
  }

  /** `d.get(key)` on a row in insertion order. */
  function Lookup(row: seq<Entry>, key: string): Option<Field> {
    if row == [] then None
    else if row[|row| - 1].key == key then Some(row[|row| - 1].value)
    else Lookup(row[..|row| - 1], key)
  }

  function EntriesUnder(row: seq<Entry>, wrapper: string): seq<Entry> {
    match Lookup(row, wrapper)
    case Some(Nested(entries)) => entries
    case _ => []
  }

  function NestedEntries(row: seq<Entry>, wrappers: seq<string>): seq<Entry> {
    if wrappers == [] then []
    else NestedEntries(row, wrappers[..|wrappers| - 1]) + EntriesUnder(row, wrappers[|wrappers| - 1])
  }

  function TopEntries(row: seq<Entry>, wrappers: seq<string>): seq<Entry> {
    if row == [] then []
    else
      var last := row[|row| - 1];
      TopEntries(row[..|row| - 1], wrappers) + if last.key in wrappers then [] else [last]
  }

  /** Entries put into a dictionary one after the other, under their canonical names. */
  function Put(alias: map<string, string>, flat: map<string, Field>, entries: seq<Entry>): map<string, Field> {
    if entries == [] then flat
    else
      var last := entries[|entries| - 1];
      Put(alias, flat, entries[..|entries| - 1])[Canonical(alias, last.key) := last.value]
  }

  function Flat(alias: map<string, string>, row: seq<Entry>, wrappers: seq<string>): map<string, Field> {
    Put(alias, Put(alias, map[], NestedEntries(row, wrappers)), TopEntries(row, wrappers))
  }

  method PutAll(alias: map<string, string>, flat0: map<string, Field>, entries: seq<Entry>)
    returns (flat: map<string, Field>)
    ensures flat == Put(alias, flat0, entries)
  {
    flat := flat0;
    for i := 0 to |entries|
      invariant flat == Put(alias, flat0, entries[..i])
    {
      assert entries[..i + 1][..i] == entries[..i];
      flat := flat[Canonical(alias, entries[i].key) := entries[i].value];
    }
    assert entries[..|entries|] == entries;
  }

  lemma {:induction false} PutConcat(alias: map<string, string>, flat: map<string, Field>, a: seq<Entry>, b: seq<Entry>)
    ensures Put(alias, flat, a + b) == Put(alias, Put(alias, flat, a), b)
  {
    if b == [] {
      assert a + b == a;
    } else {
      PutConcat(alias, flat, a, b[..|b| - 1]);
      assert (a + b)[..|a + b| - 1] == a + b[..|b| - 1];
    }
  }

  lemma NestedStep(row: seq<Entry>, wrappers: seq<string>, i: nat)
    requires i < |wrappers|
    ensures NestedEntries(row, wrappers[..i + 1]) == NestedEntries(row, wrappers[..i]) + EntriesUnder(row, wrappers[i])
  {
    assert wrappers[..i + 1][..i] == wrappers[..i];
  }

  lemma TopStep(alias: map<string, string>, flat: map<string, Field>, row: seq<Entry>, wrappers: seq<string>, i: nat)
    requires i < |row|
    ensures Put(alias, flat, TopEntries(row[..i + 1], wrappers)) ==
            if row[i].key in wrappers then Put(alias, flat, TopEntries(row[..i], wrappers))
            else Put(alias, flat, TopEntries(row[..i], wrappers))[Canonical(alias, row[i].key) := row[i].value]
  {
    assert row[..i + 1][..i] == row[..i];
    var top := TopEntries(row[..i], wrappers);
    assert (top + [row[i]])[..|top|] == top && top + [] == top;
  }

  /** The first loop of `_flatten`: the wrappers' fields. */
  method MergeNested(alias: map<string, string>, row: seq<Entry>, wrappers: seq<string>)
    returns (flat: map<string, Field>)
    ensures flat == Put(alias, map[], NestedEntries(row, wrappers))
  {
    flat := map[];
    for i := 0 to |wrappers|
      invariant flat == Put(alias, map[], NestedEntries(row, wrappers[..i]))
    {
      NestedStep(row, wrappers, i);
      PutConcat(alias, map[], NestedEntries(row, wrappers[..i]), EntriesUnder(row, wrappers[i]));
      flat := PutAll(alias, flat, EntriesUnder(row, wrappers[i]));
    }
    assert wrappers[..|wrappers|] == wrappers;
  }

  /** The second loop: the top-level fields. */
  method MergeTop(alias: map<string, string>, nested: map<string, Field>, row: seq<Entry>, wrappers: seq<string>)
    returns (flat: map<string, Field>)
    ensures flat == Put(alias, nested, TopEntries(row, wrappers))
  {
    flat := nested;
    for i := 0 to |row|
      invariant flat == Put(alias, nested, TopEntries(row[..i], wrappers))
    {
      TopStep(alias, nested, row, wrappers, i);
      if row[i].key !in wrappers {
        flat := flat[Canonical(alias, row[i].key) := row[i].value];
      }
    }
    assert row[..|row|] == row;
  }

  /** `_flatten` */
  method Flatten(row: seq<Entry>) returns (flat: map<string, Field>)
    ensures flat == FlatRow(row)
  {
    var nested := MergeNested(FIELD_ALIASES, row, WRAPPERS);
    flat := MergeTop(FIELD_ALIASES, nested, row, WRAPPERS);
  }

  function FlatRow(row: seq<Entry>): map<string, Field> {
    Flat(FIELD_ALIASES, row, WRAPPERS)
  }

  // ----- which value a field gets -----

  /** The value of the last entry with a canonical name. */
  function LastFor(alias: map<string, string>, entries: seq<Entry>, name: string): Option<Field> {
    if entries == [] then None
    else if Canonical(alias, entries[|entries| - 1].key) == name then Some(entries[|entries| - 1].value)
    else LastFor(alias, entries[..|entries| - 1], name)
  }

  lemma {:induction false} PutAt(alias: map<string, string>, flat: map<string, Field>, entries: seq<Entry>,
                                 name: string)
    ensures var r := Put(alias, flat, entries);
            match LastFor(alias, entries, name)
            case Some(v) => name in r && r[name] == v
            case None => (name in r <==> name in flat) && (name in r ==> r[name] == flat[name])
  {
    if entries != [] {
      PutAt(alias, flat, entries[..|entries| - 1], name);
    }
  }

  /** Top-level fields win over nested ones; among fields that share a canonical name the last one wins. */
  lemma TopLevelWins(alias: map<string, string>, row: seq<Entry>, wrappers: seq<string>, name: string)
    ensures var flat := Flat(alias, row, wrappers);
            var top := LastFor(alias, TopEntries(row, wrappers), name);
            var nested := LastFor(alias, NestedEntries(row, wrappers), name);
            if top.Some? then name in flat && flat[name] == top.value
            else if nested.Some? then name in flat && flat[name] == nested.value
            else name !in flat
  {
    PutAt(alias, map[], NestedEntries(row, wrappers), name);
    PutAt(alias, Put(alias, map[], NestedEntries(row, wrappers)), TopEntries(row, wrappers), name);
  }

  /** The last field at the top of a row, outside the wrappers, that goes by this name. */
  function TopValue(alias: map<string, string>, row: seq<Entry>, wrappers: seq<string>, name: string): Option<Field> {
    if row == [] then None
    else
      var n := |row| - 1;
      if row[n].key !in wrappers && Canonical(alias, row[n].key) == name then Some(row[n].value)
      else TopValue(alias, row[..n], wrappers, name)
  }

  /** The last such field of the last wrapper that has one. */
  function NestedValue(alias: map<string, string>, row: seq<Entry>, wrappers: seq<string>, name: string)
    : Option<Field>
  {
    if wrappers == [] then None
    else
      var n := |wrappers| - 1;
      var here := match Lookup(row, wrappers[n])
                  case Some(Nested(entries)) => LastFor(alias, entries, name)
                  case _ => None;
      if here.Some? then here else NestedValue(alias, row, wrappers[..n], name)
  }

  lemma {:induction false} LastOfBoth(alias: map<string, string>, a: seq<Entry>, b: seq<Entry>, name: string)
    ensures LastFor(alias, a + b, name) ==
            if LastFor(alias, b, name).Some? then LastFor(alias, b, name) else LastFor(alias, a, name)
  {
    if b == [] {
      assert a + b == a;
    } else {
      LastOfBoth(alias, a, b[..|b| - 1], name);
      assert (a + b)[..|a + b| - 1] == a + b[..|b| - 1];
    }
  }

  lemma {:induction false} TopIsLast(alias: map<string, string>, row: seq<Entry>, wrappers: seq<string>, name: string)
    ensures LastFor(alias, TopEntries(row, wrappers), name) == TopValue(alias, row, wrappers, name)
  {
    if row != [] {
      var n := |row| - 1;
      TopIsLast(alias, row[..n], wrappers, name);
      LastOfBoth(alias, TopEntries(row[..n], wrappers), [row[n]], name);
      assert TopEntries(row[..n], wrappers) + [] == TopEntries(row[..n], wrappers);
    }
  }

  lemma {:induction false} NestedIsLast(alias: map<string, string>, row: seq<Entry>, wrappers: seq<string>,
                                        name: string)
    ensures LastFor(alias, NestedEntries(row, wrappers), name) == NestedValue(alias, row, wrappers, name)
  {
    if wrappers != [] {
      var n := |wrappers| - 1;
      NestedIsLast(alias, row, wrappers[..n], name);
      LastOfBoth(alias, NestedEntries(row, wrappers[..n]), EntriesUnder(row, wrappers[n]), name);
    }
  }

  /**
   * What a flat row holds under a name: the last top-level field that goes by it, else the last of the last wrapper
   * that has one, else nothing.
   */
  lemma FlatExactly(row: seq<Entry>, name: string)
    ensures var top, nested := TopValue(FIELD_ALIASES, row, WRAPPERS, name),
                               NestedValue(FIELD_ALIASES, row, WRAPPERS, name);
            if top.Some? then name in FlatRow(row) && FlatRow(row)[name] == top.value
            else if nested.Some? then name in FlatRow(row) && FlatRow(row)[name] == nested.value
            else name !in FlatRow(row)
  {
    FlatHolds(FIELD_ALIASES, row, WRAPPERS, name);
  }

  lemma FlatHolds(alias: map<string, string>, row: seq<Entry>, wrappers: seq<string>, name: string)
    ensures var flat, top, nested := Flat(alias, row, wrappers), TopValue(alias, row, wrappers, name),
                                     NestedValue(alias, row, wrappers, name);
            if top.Some? then name in flat && flat[name] == top.value
            else if nested.Some? then name in flat && flat[name] == nested.value
            else name !in flat
  {
    TopLevelWins(alias, row, wrappers, name);
    TopIsLast(alias, row, wrappers, name);
    NestedIsLast(alias, row, wrappers, name);
  }

  // ----- which names are secret -----

  const SECRET_FIELDS: set<string> := {
    "password", "passwd", "service_account_json", "credential_file", "token", "api_key", "apikey", "api_token",
    "access_token", "secret", "secret_key", "private_key", "private_key_id", "client_secret"
  }

  const SUSPICIOUS: seq<string> := ["password", "passwd", "secret", "token", "credential", "private_key"]

  /** `pat in s` */
  predicate Contains(s: string, pat: string) {
    exists k :: 0 <= k <= |s| && pat <= s[k..]
  }

  predicate IsSuspicious(s: string) {
    exists i :: 0 <= i < |SUSPICIOUS| && Contains(s, SUSPICIOUS[i])
  }

  predicate InTable(s: string) {
    s in SECRET_FIELDS
  }

  /** A name that `_extract_secret_keys` takes for a secret, `lower` being the lower-casing of names. */
  predicate IsSecret(lower: string -> string, name: string) {
    InTable(lower(name)) || IsSuspicious(lower(name))
  }

  function LowerChar(c: char): char {
    if 'A' <= c <= 'Z' then c - 'A' + 'a' else c
  }

  predicate IsAscii(s: string) {
    forall i :: 0 <= i < |s| ==> s[i] < '\U{80}'
  }

  /** Lower-casing, of which only the ASCII letters matter here. */
  ghost predicate Lowering(lower: string -> string) {
    forall s :: IsAscii(s) ==> |lower(s)| == |s| && forall i :: 0 <= i < |s| ==> lower(s)[i] == LowerChar(s[i])
  }

  /** `_extract_secret_keys` */
  method ExtractSecretKeys(lower: string -> string, flat: map<string, Field>) returns (listed: seq<string>)
    ensures Increasing(listed) && forall k :: k in listed <==> k in flat && IsSecret(lower, k)
  {
    var found: set<string> := {};
    var rest := flat.Keys;
    while rest != {}
      invariant rest <= flat.Keys
      invariant found == set k | k in flat && k !in rest && IsSecret(lower, k)
      decreases rest
    {
      var k :| k in rest;
      rest := rest - {k};
      if InTable(lower(k)) {
        found := found + {k};
      } else if IsSuspicious(lower(k)) {
        found := found + {k};
      }
    }
    listed := Sorted(found);
  }

  // ----- splitting -----

  /** The side of a flat row on which `isSecret` says `secret`; wrappers are on neither. */
  function Part(flat: map<string, Field>, wrappers: seq<string>, isSecret: string -> bool, secret: bool)
    : map<string, Field>
  {
    map k | k in flat && k !in wrappers && isSecret(k) == secret :: flat[k]
  }

  const NETWORK_MODE := "network_mode"

  /** The plan's configuration: the public part with the network mode set. */
  function Planned(flat: map<string, Field>, wrappers: seq<string>, isSecret: string -> bool,
                   mode: Field): map<string, Field> {
    Part(flat, wrappers, isSecret, false)[NETWORK_MODE := mode]
  }

  function SecretTest(lower: string -> string): string -> bool {
    k => IsSecret(lower, k)
  }

  /** What goes to the connector's configuration and what to its secrets, for a raw row. */
  function ConfigOf(lower: string -> string, row: seq<Entry>, mode: Field): map<string, Field> {
    Planned(FlatRow(row), WRAPPERS, SecretTest(lower), mode)
  }

  function SecretsOf(lower: string -> string, row: seq<Entry>): map<string, Field> {
    Part(FlatRow(row), WRAPPERS, SecretTest(lower), true)
  }

  /** `_split_row` */
  method SplitRow(lower: string -> string, flat: map<string, Field>)
    returns (config: map<string, Field>, secret: map<string, Field>)
    ensures config == Part(flat, WRAPPERS, SecretTest(lower), false)
    ensures secret == Part(flat, WRAPPERS, SecretTest(lower), true)
  {
    var secretKeys := ExtractSecretKeys(lower, flat);
    config, secret := SplitBy(flat, WRAPPERS, secretKeys, SecretTest(lower));
  }

  /** Its loop. */
  method SplitBy(flat: map<string, Field>, wrappers: seq<string>, secretKeys: seq<string>,
                 ghost isSecret: string -> bool)
    returns (config: map<string, Field>, secret: map<string, Field>)
    requires forall k :: k in flat ==> (k in secretKeys <==> isSecret(k))
    ensures config == Part(flat, wrappers, isSecret, false) && secret == Part(flat, wrappers, isSecret, true)
  {
    config, secret := map[], map[];
    var rest := flat.Keys;
    while rest != {}
      invariant rest <= flat.Keys
      invariant config == map k | k in flat && k !in rest && k !in wrappers && k !in secretKeys :: flat[k]
      invariant secret == map k | k in flat && k !in rest && k !in wrappers && k in secretKeys :: flat[k]
      decreases rest
    {
      var k :| k in rest;
      rest := rest - {k};
      if k !in wrappers {
        if k in secretKeys {
          secret := secret[k := flat[k]];
        } else {
          config := config[k := flat[k]];
        }
      }
    }
  }

  // ----- names and their aliases -----

  lemma AtPlace(s: string, pat: string, k: nat, j: nat)
    requires k <= |s| && pat <= s[k..] && j < |pat|
    ensures k + j < |s| && s[k + j] == pat[j] && pat[j] in s
  {
    assert s[k..][j] == s[k + j];
  }

  /** A pattern one of whose characters is missing is not there. */
  lemma NoChar(s: string, pat: string, j: nat)
    requires j < |pat| && pat[j] !in s
    ensures !Contains(s, pat)
  {
    forall k | 0 <= k <= |s| ensures !(pat <= s[k..]) {
      if pat <= s[k..] {
        AtPlace(s, pat, k, j);
      }
    }
  }

  /** Nor is one whose first two characters do not follow each other. */
  lemma NoPair(s: string, pat: string)
    requires |pat| >= 2 && forall k :: 0 <= k < |s| - 1 ==> !(s[k] == pat[0] && s[k + 1] == pat[1])
    ensures !Contains(s, pat)
  {
    forall k | 0 <= k <= |s| ensures !(pat <= s[k..]) {
      if pat <= s[k..] {
        AtPlace(s, pat, k, 0);
        AtPlace(s, pat, k, 1);
      }
    }
  }

  lemma LowerIs(lower: string -> string, s: string, t: string)
    requires Lowering(lower) && IsAscii(s) && |s| == |t| && forall i :: 0 <= i < |s| ==> t[i] == LowerChar(s[i])
    ensures lower(s) == t
  {
  }

  /** ASCII without capitals, which lower-casing leaves alone. */
  predicate IsSmall(s: string) {
    forall i :: 0 <= i < |s| ==> s[i] < '\U{80}' && !('A' <= s[i] <= 'Z')
  }

  lemma SmallStays(lower: string -> string, s: string)
    requires Lowering(lower) && IsSmall(s)
    ensures lower(s) == s
  {
    LowerIs(lower, s, s);
  }

  predicate IsPublicText(s: string) {
    !InTable(s) && !IsSuspicious(s)
  }

  lemma PublicWhen(lower: string -> string, name: string, text: string)
    requires lower(name) == text && IsPublicText(text)
    ensures !IsSecret(lower, name)
  {
  }

  /** The legacy names of fields that are no secrets, lower-cased. */
  const PLAIN: seq<string> := [
    "sslmode", "ssl_mode", "dbname", "db_name", "db", "hostname", "server", "connector_type", "source_type"]

  lemma PlainChars(i: nat)
    requires i < |PLAIN|
    ensures 'w' !in PLAIN[i] && 'k' !in PLAIN[i] && 'i' !in PLAIN[i]
    ensures i != 8 ==> 'c' !in PLAIN[i] || 's' !in PLAIN[i]
  {
  }

  lemma PlainIsSmall(i: nat)
    requires i < |PLAIN|
    ensures IsSmall(PLAIN[i])
  {
  }

  lemma SourceType()
    ensures !Contains("source_type", "secret")
  {
    var s := "source_type";
    assert s[0] == 's' && s[1] == 'o';
    assert forall k :: 0 < k < |s| ==> s[k] != 's';
    NoPair(s, "secret");
  }

  lemma NotSuspicious(s: string)
    requires !Contains(s, "password") && !Contains(s, "passwd") && !Contains(s, "secret")
    requires !Contains(s, "token") && !Contains(s, "credential") && !Contains(s, "private_key")
    ensures !IsSuspicious(s)
  {
  }

  lemma PlainIsUnsuspicious(i: nat)
    requires i < |PLAIN|
    ensures !IsSuspicious(PLAIN[i])
  {
    PlainChars(i);
    var s := PLAIN[i];
    NoChar(s, "password", 4);
    NoChar(s, "passwd", 4);
    NoChar(s, "token", 2);
    NoChar(s, "credential", 7);
    NoChar(s, "private_key", 2);
    if 'c' !in s {
      NoChar(s, "secret", 2);
    } else if 's' !in s {
      NoChar(s, "secret", 0);
    } else {
      SourceType();
    }
    NotSuspicious(s);
  }

  lemma PlainIsNotInTable(i: nat)
    requires i < |PLAIN|
    ensures !InTable(PLAIN[i])
  {
  }

  lemma PlainIsPublicText(i: nat)
    requires i < |PLAIN|
    ensures IsPublicText(PLAIN[i])
  {
    PlainIsUnsuspicious(i);
    PlainIsNotInTable(i);
  }

  lemma NetworkModeChars()
    ensures var s := NETWORK_MODE; 'p' !in s && 's' !in s && 'c' !in s && !Contains(s, "token")
  {
    var s := NETWORK_MODE;
    assert s[2] == 't' && s[3] == 'w';
    assert forall k :: 0 <= k < |s| && k != 2 ==> s[k] != 't';
    NoPair(s, "token");
  }

  lemma NetworkModeIsUnsuspicious()
    ensures !IsSuspicious(NETWORK_MODE)
  {
    NetworkModeChars();
    var s := NETWORK_MODE;
    NoChar(s, "password", 0);
    NoChar(s, "passwd", 0);
    NoChar(s, "secret", 0);
    NoChar(s, "credential", 0);
    NoChar(s, "private_key", 0);
    NotSuspicious(s);
  }

  lemma NetworkModeText()
    ensures IsSmall(NETWORK_MODE) && !InTable(NETWORK_MODE)
  {
  }

  /** The network mode is no secret. */
  lemma NetworkModeIsPublic(lower: string -> string)
    requires Lowering(lower)
    ensures !IsSecret(lower, NETWORK_MODE)
  {
    NetworkModeText();
    NetworkModeIsUnsuspicious();
    SmallStays(lower, NETWORK_MODE);
    PublicWhen(lower, NETWORK_MODE, NETWORK_MODE);
  }

  /** What the legacy names of secrets are called now. */
  const NEW_SECRETS: seq<string> := [
    "api_key", "service_account_json", "credential_file", "access_token", "client_secret", "private_key"]

  lemma NewSecretsText(i: nat)
    requires i < |NEW_SECRETS|
    ensures IsSmall(NEW_SECRETS[i]) && InTable(NEW_SECRETS[i])
  {
  }

  lemma SecretWhen(lower: string -> string, name: string)
    requires lower(name) == name && InTable(name)
    ensures IsSecret(lower, name)
  {
  }

  predicate IsNewSecret(name: string) {
    name in NEW_SECRETS
  }

  predicate IsPlain(name: string) {
    name in PLAIN
  }

  /** The keys of the alias table, in two groups. */
  lemma AliasCases(key: string)
    requires key in FIELD_ALIASES
    ensures IsNewSecret(FIELD_ALIASES[key]) || key == "sslMode" || IsPlain(key)
  {
    if key == "apiKey" {
      assert FIELD_ALIASES[key] == NEW_SECRETS[0];
    } else if key == "serviceAccountJson" {
      assert FIELD_ALIASES[key] == NEW_SECRETS[1];
    } else if key == "credentialFile" {
      assert FIELD_ALIASES[key] == NEW_SECRETS[2];
    } else if key == "accessToken" {
      assert FIELD_ALIASES[key] == NEW_SECRETS[3];
    } else if key == "clientSecret" {
      assert FIELD_ALIASES[key] == NEW_SECRETS[4];
    } else if key == "privateKey" {
      assert FIELD_ALIASES[key] == NEW_SECRETS[5];
    } else {
      PlainKeys(key);
    }
  }

  lemma PlainKeys(key: string)
    requires key in FIELD_ALIASES
    requires key !in {"apiKey", "serviceAccountJson", "credentialFile", "accessToken", "clientSecret", "privateKey"}
    ensures key == "sslMode" || IsPlain(key)
  {
    assert PLAIN[1] == "ssl_mode" && PLAIN[2] == "dbname" && PLAIN[3] == "db_name" && PLAIN[4] == "db";
    assert PLAIN[5] == "hostname" && PLAIN[6] == "server" && PLAIN[7] == "connector_type" && PLAIN[8] == "source_type";
  }

  lemma PlainText(name: string)
    requires IsPlain(name)
    ensures IsSmall(name) && IsPublicText(name)
  {
    var i :| 0 <= i < |PLAIN| && PLAIN[i] == name;
    PlainIsSmall(i);
    PlainIsPublicText(i);
  }

  lemma PlainIsPublic(lower: string -> string, name: string)
    requires Lowering(lower) && IsPlain(name)
    ensures !IsSecret(lower, name)
  {
    PlainText(name);
    SmallStays(lower, name);
    PublicWhen(lower, name, name);
  }

  lemma SslModeText()
    ensures IsAscii("sslMode") && |"sslMode"| == |"sslmode"| && PLAIN[0] == "sslmode"
    ensures forall i :: 0 <= i < |"sslMode"| ==> "sslmode"[i] == LowerChar("sslMode"[i])
  {
  }

  lemma SslModeIsPublic(lower: string -> string)
    requires Lowering(lower)
    ensures !IsSecret(lower, "sslMode")
  {
    SslModeText();
    PlainIsPublicText(0);
    LowerIs(lower, "sslMode", "sslmode");
    PublicWhen(lower, "sslMode", "sslmode");
  }

  lemma NewSecretText(name: string)
    requires IsNewSecret(name)
    ensures IsSmall(name) && InTable(name)
  {
    var i :| 0 <= i < |NEW_SECRETS| && NEW_SECRETS[i] == name;
    NewSecretsText(i);
  }

  lemma NewSecretIsSecret(lower: string -> string, name: string)
    requires Lowering(lower) && IsNewSecret(name)
    ensures IsSecret(lower, name)
  {
    NewSecretText(name);
    SmallStays(lower, name);
    SecretWhen(lower, name);
  }

  /** Renaming never hides a secret: a field with a secret name has a secret canonical name. */
  lemma RenamingKeepsSecrets(lower: string -> string, key: string)
    requires Lowering(lower) && IsSecret(lower, key)
    ensures IsSecret(lower, Canonical(FIELD_ALIASES, key))
  {
    if key in FIELD_ALIASES {
      AliasCases(key);
      if IsNewSecret(FIELD_ALIASES[key]) {
        NewSecretIsSecret(lower, FIELD_ALIASES[key]);
      } else if IsPlain(key) {
        PlainIsPublic(lower, key);
      } else {
        SslModeIsPublic(lower);
      }
    }
  }

  lemma SshKeyText()
    ensures IsSmall("ssh_key") && !InTable("ssh_key")
    ensures var s := "ssh_key"; 'p' !in s && 'c' !in s && 't' !in s
  {
  }

  lemma SshKeyIsUnsuspicious()
    ensures !IsSuspicious("ssh_key")
  {
    var s := "ssh_key";
    SshKeyText();
    NoChar(s, "password", 0);
    NoChar(s, "passwd", 0);
    NoChar(s, "secret", 2);
    NoChar(s, "token", 0);
    NoChar(s, "credential", 0);
    NoChar(s, "private_key", 0);
    NotSuspicious(s);
  }

  /** Only `private_key` is looked for inside a name, not `key`: a field `ssh_key` is taken for public. */
  lemma SshKeyIsPublic(lower: string -> string)
    requires Lowering(lower)
    ensures !IsSecret(lower, "ssh_key")
  {
    SshKeyText();
    SshKeyIsUnsuspicious();
    SmallStays(lower, "ssh_key");
    PublicWhen(lower, "ssh_key", "ssh_key");
  }

  // ----- where the two sides of a plan come from -----

  /** The fields of a row with their own names: those in the wrappers, then those at the top. */
  function RowEntries(row: seq<Entry>, wrappers: seq<string>): seq<Entry> {
    NestedEntries(row, wrappers) + TopEntries(row, wrappers)
  }

  /** The entry of a row that decides a canonical name. */
  function Winner(alias: map<string, string>, row: seq<Entry>, wrappers: seq<string>, name: string): Option<Field> {
    var top := LastFor(alias, TopEntries(row, wrappers), name);
    if top.Some? then top else LastFor(alias, NestedEntries(row, wrappers), name)
  }

  lemma FlatAt(alias: map<string, string>, row: seq<Entry>, wrappers: seq<string>, name: string)
    ensures var flat, winner := Flat(alias, row, wrappers), Winner(alias, row, wrappers, name);
            (name in flat <==> winner.Some?) && (name in flat ==> flat[name] == winner.value)
  {
    TopLevelWins(alias, row, wrappers, name);
  }

  lemma {:induction false} LastComesFrom(alias: map<string, string>, entries: seq<Entry>, name: string)
    returns (e: Entry)
    requires LastFor(alias, entries, name).Some?
    ensures e in entries && Canonical(alias, e.key) == name && LastFor(alias, entries, name) == Some(e.value)
  {
    e := entries[|entries| - 1];
    if Canonical(alias, e.key) != name {
      e := LastComesFrom(alias, entries[..|entries| - 1], name);
    }
  }

  lemma FlatComesFrom(alias: map<string, string>, row: seq<Entry>, wrappers: seq<string>, name: string)
    returns (e: Entry)
    requires name in Flat(alias, row, wrappers)
    ensures e in RowEntries(row, wrappers) && Canonical(alias, e.key) == name
    ensures Flat(alias, row, wrappers)[name] == e.value
  {
    FlatAt(alias, row, wrappers, name);
    if LastFor(alias, TopEntries(row, wrappers), name).Some? {
      e := LastComesFrom(alias, TopEntries(row, wrappers), name);
    } else {
      e := LastComesFrom(alias, NestedEntries(row, wrappers), name);
    }
  }

  lemma {:induction false} EntryIsKept(alias: map<string, string>, entries: seq<Entry>, e: Entry)
    requires e in entries
    ensures LastFor(alias, entries, Canonical(alias, e.key)).Some?
  {
    var last := |entries| - 1;
    if Canonical(alias, entries[last].key) != Canonical(alias, e.key) {
      assert e in entries[..last];
      EntryIsKept(alias, entries[..last], e);
    }
  }

  lemma EveryFieldIsFlat(alias: map<string, string>, row: seq<Entry>, wrappers: seq<string>, e: Entry)
    requires e in RowEntries(row, wrappers)
    ensures Canonical(alias, e.key) in Flat(alias, row, wrappers)
  {
    FlatAt(alias, row, wrappers, Canonical(alias, e.key));
    if e in TopEntries(row, wrappers) {
      EntryIsKept(alias, TopEntries(row, wrappers), e);
    } else {
      EntryIsKept(alias, NestedEntries(row, wrappers), e);
    }
  }

  /**
   * Whatever the configuration of a plan holds, but for the network mode, stems from a field of the row of
   * which neither its own nor its canonical name is a secret's.
   */
  lemma ConfigurationIsPublic(lower: string -> string, row: seq<Entry>, mode: Field, name: string)
    requires Lowering(lower) && name in ConfigOf(lower, row, mode) && name != NETWORK_MODE
    ensures exists e :: e in RowEntries(row, WRAPPERS) && Canonical(FIELD_ALIASES, e.key) == name
                     && ConfigOf(lower, row, mode)[name] == e.value
                     && !IsSecret(lower, e.key) && !IsSecret(lower, name)
  {
    var e := FlatComesFrom(FIELD_ALIASES, row, WRAPPERS, name);
    if IsSecret(lower, e.key) {
      RenamingKeepsSecrets(lower, e.key);
    }
  }

  /**
   * A field one of whose names is a secret's is never in the configuration; it is among the secrets unless
   * its canonical name is a wrapper's.
   */
  lemma SecretsAreKeptApart(lower: string -> string, row: seq<Entry>, mode: Field, e: Entry)
    requires Lowering(lower) && e in RowEntries(row, WRAPPERS)
    requires IsSecret(lower, e.key) || IsSecret(lower, Canonical(FIELD_ALIASES, e.key))
    ensures Canonical(FIELD_ALIASES, e.key) !in ConfigOf(lower, row, mode)
    ensures Canonical(FIELD_ALIASES, e.key) in SecretsOf(lower, row) <==> Canonical(FIELD_ALIASES, e.key) !in WRAPPERS
  {
    if IsSecret(lower, e.key) {
      RenamingKeepsSecrets(lower, e.key);
    }
    NetworkModeIsPublic(lower);
    EveryFieldIsFlat(FIELD_ALIASES, row, WRAPPERS, e);
    SecretSide(FlatRow(row), WRAPPERS, SecretTest(lower), mode, Canonical(FIELD_ALIASES, e.key));
  }

  lemma SecretSide(flat: map<string, Field>, wrappers: seq<string>, isSecret: string -> bool, mode: Field, name: string)
    requires name in flat && isSecret(name) && !isSecret(NETWORK_MODE)
    ensures name !in Planned(flat, wrappers, isSecret, mode)
    ensures name in Part(flat, wrappers, isSecret, true) <==> name !in wrappers
  {
  }

  // ----- what is lost and what is not -----

  /**
   * Both sides together are the flat row exactly when no wrapper is nested in a wrapper and the row's own
   * network mode is the planned one.
   */
  lemma SplitIsLosslessExactly(flat: map<string, Field>, wrappers: seq<string>, isSecret: string -> bool, mode: Field)
    requires !isSecret(NETWORK_MODE) && NETWORK_MODE !in wrappers
    ensures Planned(flat, wrappers, isSecret, mode) + Part(flat, wrappers, isSecret, true) == flat
       <==> (forall k :: k in flat ==> k !in wrappers) && NETWORK_MODE in flat && flat[NETWORK_MODE] == mode
    ensures (forall k :: k in flat ==> k !in wrappers) ==>
              Planned(flat, wrappers, isSecret, mode) + Part(flat, wrappers, isSecret, true)
                  == flat[NETWORK_MODE := mode]
  {
    var both := Planned(flat, wrappers, isSecret, mode) + Part(flat, wrappers, isSecret, true);
    assert NETWORK_MODE in both && both[NETWORK_MODE] == mode;
    forall k | k != NETWORK_MODE
      ensures k in both <==> k in flat && k !in wrappers
      ensures k in both ==> both[k] == flat[k]
    {
    }
    if both == flat {
      forall k | k in flat ensures k !in wrappers {
        assert k in both;
      }
    }
  }

  lemma NetworkModeIsNoWrapper()
    ensures NETWORK_MODE !in WRAPPERS
  {
    assert |NETWORK_MODE| == 12 && NETWORK_MODE[0] == 'n';
    assert WRAPPERS[0][0] == 'c' && WRAPPERS[1][0] == 'c' && WRAPPERS[2][0] == 'c' && WRAPPERS[3][0] == 's';
  }

  /** For a raw row: its configuration and its secrets make up the flat row under the same condition. */
  lemma PlanIsLosslessExactly(lower: string -> string, row: seq<Entry>, mode: Field)
    requires Lowering(lower)
    ensures ConfigOf(lower, row, mode) + SecretsOf(lower, row) == FlatRow(row)
       <==> (forall k :: k in FlatRow(row) ==> k !in WRAPPERS)
            && NETWORK_MODE in FlatRow(row) && FlatRow(row)[NETWORK_MODE] == mode
  {
    NetworkModeIsPublic(lower);
    NetworkModeIsNoWrapper();
    SplitIsLosslessExactly(FlatRow(row), WRAPPERS, SecretTest(lower), mode);
  }

  // ----- secrets inside nested values -----

  /** A value that holds a field with a secret name, at any depth. */
  predicate Exposes(isSecret: string -> bool, f: Field)
    decreases f
  {
    match f
    case Scalar(_) => false
    case Nested(entries) =>
      exists i :: 0 <= i < |entries| && (isSecret(entries[i].key) || Exposes(isSecret, entries[i].value))
  }

  ghost predicate NothingExposed(isSecret: string -> bool, config: map<string, Field>) {
    forall k :: k in config ==> !Exposes(isSecret, config[k])
  }

  /**
   * Only names at the top of the row and directly in its wrappers are looked at: a configuration holds no
   * secret at any depth if and only if no public field of the row is itself an object that does.
   */
  lemma NothingExposedExactly(alias: map<string, string>, row: seq<Entry>, wrappers: seq<string>,
                              isSecret: string -> bool, mode: Field)
    requires !Exposes(isSecret, mode)
    ensures NothingExposed(isSecret, Planned(Flat(alias, row, wrappers), wrappers, isSecret, mode))
       <==> forall name ::
              name != NETWORK_MODE && !isSecret(name) && name !in wrappers
                  && Winner(alias, row, wrappers, name).Some? ==>
              !Exposes(isSecret, Winner(alias, row, wrappers, name).value)
  {
    var plan := Planned(Flat(alias, row, wrappers), wrappers, isSecret, mode);
    forall name | name != NETWORK_MODE
      ensures name in plan <==> !isSecret(name) && name !in wrappers && Winner(alias, row, wrappers, name).Some?
      ensures name in plan ==> plan[name] == Winner(alias, row, wrappers, name).value
    {
      FlatAt(alias, row, wrappers, name);
    }
  }

  /** A secret in an object under a public name that is no wrapper's stays in the configuration. */
  lemma NestedSecretStays(alias: map<string, string>, wrappers: seq<string>, isSecret: string -> bool, mode: Field,
                          name: string, inner: string, value: Field)
    requires Canonical(alias, name) == name && name !in wrappers && !isSecret(name) && name != NETWORK_MODE
    requires isSecret(inner)
    ensures var row := [Entry(name, Nested([Entry(inner, value)]))];
            !NothingExposed(isSecret, Planned(Flat(alias, row, wrappers), wrappers, isSecret, mode))
  {
    var held := Nested([Entry(inner, value)]);
    var row := [Entry(name, held)];
    assert row[..0] == [];
    assert TopEntries(row, wrappers) == [] + row;
    FlatAt(alias, row, wrappers, name);
    assert held.entries[0].key == inner;
    assert Exposes(isSecret, held);
    assert name in Planned(Flat(alias, row, wrappers), wrappers, isSecret, mode);
  }
}
