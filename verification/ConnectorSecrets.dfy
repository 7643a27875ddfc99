/**
 * Which fields of a legacy connector row end up among the secrets and which in the configuration, with the names
 * that backend/scripts/classify_connectors.py takes for secrets spelled out.
 */
module ConnectorSecrets {
  import opened Connectors
  import opened Wrappers

  // ----- the names -----

  predicate SecretWord(word: string) {
    || word == "password" || word == "passwd" || word == "secret"
    || word == "token" || word == "credential" || word == "private_key"
  }

  predicate SecretName(name: string) {
    || name == "password" || name == "passwd" || name == "service_account_json" || name == "credential_file"
    || name == "token" || name == "api_key" || name == "apikey" || name == "api_token" || name == "access_token"
    || name == "secret" || name == "secret_key" || name == "private_key" || name == "private_key_id"
    || name == "client_secret"
  }

  /** `w` is `word` in some mixture of capitals and small letters. */
  predicate Spells(w: string, word: string) {
    && |w| == |word|
    && forall i :: 0 <= i < |word| ==>
         w[i] == word[i] || ('A' <= w[i] <= 'Z' && 'a' <= word[i] <= 'z' && w[i] - 'A' == word[i] - 'a')
  }

  /** The word stands at that place of the name, in whatever letters. */
  predicate StandsAt(name: string, i: nat, word: string) {
    i + |word| <= |name| && Spells(name[i..i + |word|], word)
  }

  /** A secret word stands somewhere in the name. */
  ghost predicate HoldsWord(name: string) {
    exists i: nat, word :: SecretWord(word) && StandsAt(name, i, word)
  }

  ghost predicate IsNamed(name: string) {
    exists word :: SecretName(word) && Spells(name, word)
  }

  predicate SmallLetters(word: string) {
    forall i :: 0 <= i < |word| ==> 'a' <= word[i] <= 'z' || word[i] == '_'
  }

  lemma WordIsSmall(word: string)
    requires SecretWord(word)
    ensures SmallLetters(word)
  {
  }

  lemma NameIsSmall(name: string)
    requires SecretName(name)
    ensures SmallLetters(name)
  {
  }

  lemma WordIsListed(word: string)
    ensures SecretWord(word) <==> exists i :: 0 <= i < |SUSPICIOUS| && SUSPICIOUS[i] == word
  {
    assert SUSPICIOUS[0] == "password" && SUSPICIOUS[1] == "passwd" && SUSPICIOUS[2] == "secret";
    assert SUSPICIOUS[3] == "token" && SUSPICIOUS[4] == "credential" && SUSPICIOUS[5] == "private_key";
  }

  lemma NameIsListed(name: string)
    ensures SecretName(name) <==> InTable(name)
  {
  }

  // ----- lower-casing -----

  /** `low` is `name` in small letters. */
  predicate Lowered(name: string, low: string) {
    |low| == |name| && forall i :: 0 <= i < |name| ==> low[i] == LowerChar(name[i])
  }

  lemma LowerIsLowered(lower: string -> string, name: string)
    requires Lowering(lower) && IsAscii(name)
    ensures Lowered(name, lower(name))
  {
  }

  lemma SpelledAt(name: string, low: string, i: nat, word: string)
    requires Lowered(name, low) && SmallLetters(word) && i + |word| <= |name|
    ensures StandsAt(name, i, word) <==> word <= low[i..]
  {
    var w := name[i..i + |word|];
    assert forall k :: 0 <= k < |word| ==> w[k] == name[i + k] && low[i..][k] == low[i + k];
    if word <= low[i..] {
      forall k | 0 <= k < |word|
        ensures w[k] == word[k] || ('A' <= w[k] <= 'Z' && 'a' <= word[k] <= 'z' && w[k] - 'A' == word[k] - 'a')
      {
        assert word[k] == low[i..][k] == LowerChar(name[i + k]);
      }
    }
  }

  lemma SpelledAsWhole(name: string, low: string, word: string)
    requires Lowered(name, low) && SmallLetters(word)
    ensures Spells(name, word) <==> low == word
  {
    if |name| == |word| {
      SpelledAt(name, low, 0, word);
      assert name[0..|word|] == name && low[0..] == low;
    }
  }

  lemma HoldsExactly(name: string, low: string)
    requires Lowered(name, low)
    ensures HoldsWord(name) <==> IsSuspicious(low)
  {
    if i: nat, word :| SecretWord(word) && StandsAt(name, i, word) {
      WordIsSmall(word);
      SpelledAt(name, low, i, word);
      WordIsListed(word);
      FoundAt(low, i, word);
    }
    if j :| 0 <= j < |SUSPICIOUS| && Contains(low, SUSPICIOUS[j]) {
      PatternSpelled(name, low, SUSPICIOUS[j]);
    }
  }

  lemma FoundAt(low: string, i: nat, word: string)
    requires i <= |low| && word <= low[i..] && exists j :: 0 <= j < |SUSPICIOUS| && SUSPICIOUS[j] == word
    ensures IsSuspicious(low)
  {
    var j :| 0 <= j < |SUSPICIOUS| && SUSPICIOUS[j] == word;
    assert Contains(low, SUSPICIOUS[j]);
  }

  lemma PatternSpelled(name: string, low: string, word: string)
    requires Lowered(name, low) && Contains(low, word) && exists j :: 0 <= j < |SUSPICIOUS| && SUSPICIOUS[j] == word
    ensures HoldsWord(name)
  {
    WordIsListed(word);
    WordIsSmall(word);
    var i :| 0 <= i <= |low| && word <= low[i..];
    SpelledAt(name, low, i, word);
    assert SecretWord(word) && StandsAt(name, i, word);
  }

  lemma NamedExactly(name: string, low: string)
    requires Lowered(name, low)
    ensures IsNamed(name) <==> InTable(low)
  {
    if word :| SecretName(word) && Spells(name, word) {
      NameIsSmall(word);
      SpelledAsWhole(name, low, word);
      NameIsListed(word);
    }
    if InTable(low) {
      NameIsListed(low);
      NameIsSmall(low);
      SpelledAsWhole(name, low, low);
    }
  }

  /** An ASCII name counts as a secret exactly when it is one of the fourteen or holds one of the six words. */
  lemma SecretExactly(lower: string -> string, name: string)
    requires Lowering(lower) && IsAscii(name)
    ensures IsSecret(lower, name) <==> IsNamed(name) || HoldsWord(name)
  {
    LowerIsLowered(lower, name);
    HoldsExactly(name, lower(name));
    NamedExactly(name, lower(name));
  }

  // ----- the fields of a row -----

  /** A field at the top of a row, or in the object under one of the four wrapper keys. */
  ghost predicate IsField(row: seq<Entry>, e: Entry) {
    || (e in row && e.key !in WRAPPERS)
    || exists w, inner :: w in WRAPPERS && Lookup(row, w) == Some(Nested(inner)) && e in inner
  }

  lemma {:induction false} TopField(row: seq<Entry>, wrappers: seq<string>, e: Entry)
    requires e in row && e.key !in wrappers
    ensures e in TopEntries(row, wrappers)
  {
    var n := |row| - 1;
    if e != row[n] {
      assert e in row[..n];
      TopField(row[..n], wrappers, e);
    }
  }

  lemma {:induction false} NestedField(row: seq<Entry>, wrappers: seq<string>, w: string, inner: seq<Entry>, e: Entry)
    requires w in wrappers && Lookup(row, w) == Some(Nested(inner)) && e in inner
    ensures e in NestedEntries(row, wrappers)
  {
    var n := |wrappers| - 1;
    if w != wrappers[n] {
      assert w in wrappers[..n];
      NestedField(row, wrappers[..n], w, inner, e);
    }
  }

  lemma FieldIsEntry(row: seq<Entry>, e: Entry)
    requires IsField(row, e)
    ensures e in RowEntries(row, WRAPPERS)
  {
    if e in row && e.key !in WRAPPERS {
      TopField(row, WRAPPERS, e);
    } else {
      var w, inner :| w in WRAPPERS && Lookup(row, w) == Some(Nested(inner)) && e in inner;
      NestedField(row, WRAPPERS, w, inner, e);
    }
  }

  lemma DetailsText()
    ensures IsAscii("connectionDetails") && |"connectionDetails"| == |"connectiondetails"|
    ensures forall i :: 0 <= i < |"connectionDetails"| ==>
              "connectiondetails"[i] == LowerChar("connectionDetails"[i])
    ensures 'p' !in "connectiondetails" && 'r' !in "connectiondetails" && 'k' !in "connectiondetails"
    ensures !InTable("connectiondetails")
  {
  }

  lemma OtherWrapperTexts(w: string)
    requires w == "connection_details" || w == "config" || w == "settings"
    ensures IsSmall(w) && 'p' !in w && 'r' !in w && 'k' !in w && !InTable(w)
  {
  }

  lemma NoneOfTheWords(text: string)
    requires 'p' !in text && 'r' !in text && 'k' !in text
    ensures !IsSuspicious(text)
  {
    NoChar(text, "password", 0);
    NoChar(text, "passwd", 0);
    NoChar(text, "secret", 3);
    NoChar(text, "token", 2);
    NoChar(text, "credential", 1);
    NoChar(text, "private_key", 0);
    NotSuspicious(text);
  }

  lemma DetailsArePublic(lower: string -> string)
    requires Lowering(lower)
    ensures !IsSecret(lower, "connectionDetails")
  {
    DetailsText();
    LowerIs(lower, "connectionDetails", "connectiondetails");
    NoneOfTheWords("connectiondetails");
    PublicWhen(lower, "connectionDetails", "connectiondetails");
  }

  lemma OtherWrapperIsPublic(lower: string -> string, w: string)
    requires Lowering(lower) && (w == "connection_details" || w == "config" || w == "settings")
    ensures !IsSecret(lower, w)
  {
    OtherWrapperTexts(w);
    SmallStays(lower, w);
    NoneOfTheWords(w);
    PublicWhen(lower, w, w);
  }

  lemma WrapperNames(w: string)
    requires w in WRAPPERS
    ensures w == "connectionDetails" || w == "connection_details" || w == "config" || w == "settings"
  {
  }

  lemma WrappersArePublic(lower: string -> string, w: string)
    requires Lowering(lower) && w in WRAPPERS
    ensures !IsSecret(lower, w)
  {
    WrapperNames(w);
    if w == "connectionDetails" {
      DetailsArePublic(lower);
    } else {
      OtherWrapperIsPublic(lower, w);
    }
  }

  lemma SecretGoesToSecrets(lower: string -> string, row: seq<Entry>, mode: Field, e: Entry)
    requires Lowering(lower) && IsField(row, e) && IsSecret(lower, e.key)
    ensures Canonical(FIELD_ALIASES, e.key) !in ConfigOf(lower, row, mode)
    ensures Canonical(FIELD_ALIASES, e.key) in SecretsOf(lower, row)
  {
    FieldIsEntry(row, e);
    RenamingKeepsSecrets(lower, e.key);
    SecretsAreKeptApart(lower, row, mode, e);
    if Canonical(FIELD_ALIASES, e.key) in WRAPPERS {
      WrappersArePublic(lower, Canonical(FIELD_ALIASES, e.key));
    }
  }

  lemma HeldBetween(name: string, a: string, w: string, b: string, word: string)
    requires name == a + w + b && SecretWord(word) && Spells(w, word)
    ensures HoldsWord(name)
  {
    assert name[|a|..|a| + |word|] == w;
    assert StandsAt(name, |a|, word);
  }

  /**
   * A field with one of the six words anywhere in its name, in whatever letters, never reaches the
   * configuration and is among the secrets, wherever in the row it stands.
   */
  lemma WordsAreSecret(lower: string -> string, row: seq<Entry>, mode: Field, e: Entry, a: string, w: string, b: string,
                       word: string)
    requires Lowering(lower) && IsField(row, e) && e.key == a + w + b && IsAscii(e.key)
    requires SecretWord(word) && Spells(w, word)
    ensures Canonical(FIELD_ALIASES, e.key) !in ConfigOf(lower, row, mode)
    ensures Canonical(FIELD_ALIASES, e.key) in SecretsOf(lower, row)
  {
    HeldBetween(e.key, a, w, b, word);
    SecretExactly(lower, e.key);
    SecretGoesToSecrets(lower, row, mode, e);
  }

  /** The same for a field with one of the fourteen names, in whatever letters. */
  lemma NamesAreSecret(lower: string -> string, row: seq<Entry>, mode: Field, e: Entry, word: string)
    requires Lowering(lower) && IsField(row, e) && IsAscii(e.key) && SecretName(word) && Spells(e.key, word)
    ensures Canonical(FIELD_ALIASES, e.key) !in ConfigOf(lower, row, mode)
    ensures Canonical(FIELD_ALIASES, e.key) in SecretsOf(lower, row)
  {
    assert IsNamed(e.key);
    SecretExactly(lower, e.key);
    SecretGoesToSecrets(lower, row, mode, e);
  }

  /**
   * Any other field, by its canonical name, is in the configuration and not among the secrets, unless it is a
   * wrapper.
   */
  lemma OthersArePublic(lower: string -> string, row: seq<Entry>, mode: Field, e: Entry, name: string)
    requires Lowering(lower) && IsField(row, e) && name == Canonical(FIELD_ALIASES, e.key)
    requires IsAscii(name) && name !in WRAPPERS && !IsNamed(name) && !HoldsWord(name)
    ensures name in ConfigOf(lower, row, mode) && name !in SecretsOf(lower, row)
  {
    SecretExactly(lower, name);
    FieldIsEntry(row, e);
    EveryFieldIsFlat(FIELD_ALIASES, row, WRAPPERS, e);
    PublicSide(FlatRow(row), WRAPPERS, SecretTest(lower), mode, name);
  }

  lemma PublicSide(flat: map<string, Field>, wrappers: seq<string>, isSecret: string -> bool, mode: Field, name: string)
    requires name in flat && !isSecret(name) && name !in wrappers
    ensures name in Planned(flat, wrappers, isSecret, mode) && name !in Part(flat, wrappers, isSecret, true)
  {
  }

  // ----- legacy spellings -----

  /** The spellings of legacy rows and the names of today. */
  predicate Legacy(spelling: string, name: string) {
    || ((spelling == "sslMode" || spelling == "ssl_mode") && name == "sslmode")
    || ((spelling == "dbname" || spelling == "db_name" || spelling == "db") && name == "database")
    || ((spelling == "hostname" || spelling == "server") && name == "host")
    || ((spelling == "connector_type" || spelling == "source_type") && name == "type")
    || (spelling == "apiKey" && name == "api_key")
    || (spelling == "serviceAccountJson" && name == "service_account_json")
    || (spelling == "credentialFile" && name == "credential_file")
    || (spelling == "accessToken" && name == "access_token")
    || (spelling == "clientSecret" && name == "client_secret") || (spelling == "privateKey" && name == "private_key")
  }

  lemma SpellingIsAlias(spelling: string, name: string)
    requires Legacy(spelling, name)
    ensures spelling in FIELD_ALIASES && FIELD_ALIASES[spelling] == name
  {
  }

  lemma NamesAreNoAliases(spelling: string, name: string)
    requires Legacy(spelling, name)
    ensures name !in FIELD_ALIASES
  {
  }

  lemma SpellingsAreNoWrappers(spelling: string, name: string)
    requires Legacy(spelling, name)
    ensures spelling !in WRAPPERS && name !in WRAPPERS
  {
  }

  /** Rows that differ in the spelling of keys only, none of them a wrapper's. */
  ghost predicate SameButSpelled(alias: map<string, string>, wrappers: seq<string>, a: seq<Entry>, b: seq<Entry>) {
    && |a| == |b|
    && forall i :: 0 <= i < |a| ==>
         a[i] == b[i] || (a[i].value == b[i].value && a[i].key !in wrappers && b[i].key !in wrappers
                          && Canonical(alias, a[i].key) == Canonical(alias, b[i].key))
  }

  lemma {:induction false} SameLookup(alias: map<string, string>, wrappers: seq<string>, a: seq<Entry>, b: seq<Entry>,
                                      w: string)
    requires SameButSpelled(alias, wrappers, a, b) && w in wrappers
    ensures Lookup(a, w) == Lookup(b, w)
  {
    if a != [] {
      var n := |a| - 1;
      SameLookup(alias, wrappers, a[..n], b[..n], w);
    }
  }

  lemma {:induction false} SameNested(alias: map<string, string>, all: seq<string>, a: seq<Entry>, b: seq<Entry>,
                                      wrappers: seq<string>)
    requires SameButSpelled(alias, all, a, b) && forall w :: w in wrappers ==> w in all
    ensures NestedEntries(a, wrappers) == NestedEntries(b, wrappers)
  {
    if wrappers != [] {
      var n := |wrappers| - 1;
      SameNested(alias, all, a, b, wrappers[..n]);
      SameLookup(alias, all, a, b, wrappers[n]);
    }
  }

  lemma {:induction false} SameTop(alias: map<string, string>, wrappers: seq<string>, flat: map<string, Field>,
                                   a: seq<Entry>, b: seq<Entry>)
    requires SameButSpelled(alias, wrappers, a, b)
    ensures Put(alias, flat, TopEntries(a, wrappers)) == Put(alias, flat, TopEntries(b, wrappers))
  {
    if a != [] {
      var n := |a| - 1;
      SameTop(alias, wrappers, flat, a[..n], b[..n]);
      TopStep(alias, flat, a, wrappers, n);
      TopStep(alias, flat, b, wrappers, n);
      assert a[..n + 1] == a && b[..n + 1] == b;
    }
  }

  /** A row with a legacy spelling of a field comes out as if it had today's. */
  lemma SpellingDoesNotMatter(row: seq<Entry>, i: nat, name: string)
    requires i < |row| && Legacy(row[i].key, name)
    ensures FlatRow(row) == FlatRow(row[i := Entry(name, row[i].value)])
  {
    var other := row[i := Entry(name, row[i].value)];
    SpellingIsAlias(row[i].key, name);
    NamesAreNoAliases(row[i].key, name);
    SpellingsAreNoWrappers(row[i].key, name);
    SameNested(FIELD_ALIASES, WRAPPERS, row, other, WRAPPERS);
    SameTop(FIELD_ALIASES, WRAPPERS, Put(FIELD_ALIASES, map[], NestedEntries(row, WRAPPERS)), row, other);
  }
}
