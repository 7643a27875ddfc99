/** The dotenv printer and parser of cli/nubi_cli/secrets_files.py, and exactly what survives them. */
module Dotenv {
  import opened Text
  import opened Names
  import opened PyText
  import opened Wrappers

  // ----- parse_dotenv -----

  datatype Pair = Pair(key: string, value: string)

  /** The entry of one line; blank lines, comments and lines without an equals sign have none. */
  function ParseLine(raw: string): Option<Pair> {
    var line := Strip(raw);
    if line == "" || line[0] == '#' || '=' !in line then None
    else
      var i := FirstIndex(line, '=');
      Some(Pair(Strip(line[..i]), line[i + 1..]))
  }

  function ParseLines(lines: seq<string>): map<string, string> {
    if lines == [] then map[]
    else
      var before := ParseLines(lines[..|lines| - 1]);
      match ParseLine(lines[|lines| - 1])
      case Some(p) => before[p.key := p.value]
      case None => before
  }

  method ParseDotenv(text: string) returns (out: map<string, string>)
    ensures out == ParseLines(SplitLines(text))
  {
    out := map[];
    var lines := SplitLines(text);
    for i := 0 to |lines|
      invariant out == ParseLines(lines[..i])
    {
      assert lines[..i + 1][..i] == lines[..i];
      var entry := ParseLine(lines[i]);
      if entry.Some? {
        out := out[entry.value.key := entry.value.value];
      }
    }
    assert lines[..|lines|] == lines;
  }

  /** What reading a dotenv file gives. */
  function Entries(fileText: string): map<string, string> {
    ParseLines(SplitLines(ReadText(fileText)))
  }

  // ----- write_dotenv -----

  function EntryLine(key: string, value: string): string {
    key + "=" + value
  }

  function EntryLines(keys: seq<string>, values: map<string, string>): (r: seq<string>)
    requires forall k :: k in keys ==> k in values
    ensures |r| == |keys|
  {
    seq(|keys|, i requires 0 <= i < |keys| => EntryLine(keys[i], values[keys[i]]))
  }

  /** The comment line, unless the header is empty or missing. */
  function HeaderLines(header: string): seq<string> {
    if header == "" then [] else ["# " + header]
  }

  /** Lines joined, with a line feed behind the last one if there is one. */
  function Body(lines: seq<string>): string {
    Join("\n", lines) + (if lines == [] then "" else "\n")
  }

  /** The file text: the comment, then the entries in key order. */
  function FileText(values: map<string, string>, header: string): string {
    Body(HeaderLines(header) + EntryLines(Sorted(values.Keys), values))
  }

  lemma OneMore(head: seq<string>, entries: seq<string>, i: nat)
    requires i < |entries|
    ensures head + entries[..i] + [entries[i]] == head + entries[..i + 1]
  {
  }

  method WriteDotenv(values: map<string, string>, header: string) returns (text: string)
    ensures text == FileText(values, header)
  {
    var lines := HeaderLines(header);
    ghost var head := lines;
    var keys := Sorted(values.Keys);
    ghost var entries := EntryLines(keys, values);
    for i := 0 to |keys|
      invariant lines == head + entries[..i]
    {
      assert keys[i] in keys;
      OneMore(head, entries, i);
      lines := lines + [EntryLine(keys[i], values[keys[i]])];
    }
    assert entries[..|keys|] == entries;
    text := Body(lines);
  }

  // ----- which entries survive -----

  predicate CleanKey(k: string) {
    OneLine(k) && '=' !in k && Strip(k) == k && (k != "" ==> k[0] != '#')
  }

  predicate CleanValue(v: string) {
    OneLine(v) && StripEnd(v) == v
  }

  predicate CleanMap(m: map<string, string>) {
    forall k :: k in m ==> CleanKey(k) && CleanValue(m[k])
  }

  lemma EdgesOf(k: string, v: string)
    ensures var s := EntryLine(k, v);
            && |s| == |k| + 1 + |v| && s[|k|] == '=' && s[..|k|] == k && s[|k| + 1..] == v
            && s[0] == (if k == "" then '=' else k[0]) && s[|s| - 1] == (if v == "" then '=' else v[|v| - 1])
  {
  }

  lemma ParseLineStep(raw: string, k: string, v: string)
    requires Strip(raw) == raw && |k| < |raw| && raw[..|k|] == k && raw[|k|] == '=' && raw[|k| + 1..] == v
    requires raw[0] != '#' && '=' !in k && Strip(k) == k
    ensures ParseLine(raw) == Some(Pair(k, v))
  {
    FirstIndexOf(raw, k, '=');
  }

  /** A clean entry is read back from its own line. */
  lemma CleanLineParses(k: string, v: string)
    requires CleanKey(k) && CleanValue(v)
    ensures ParseLine(EntryLine(k, v)) == Some(Pair(k, v))
  {
    var s := EntryLine(k, v);
    CommonChars();
    EdgesOf(k, v);
    StripEdges(k);
    StripEndFacts(v);
    StripIdentity(s);
    ParseLineStep(s, k, v);
  }

  /** Whatever a line gives is a clean entry. */
  lemma ParsedLineIsClean(raw: string)
    requires OneLine(raw) && ParseLine(raw).Some?
    ensures CleanKey(ParseLine(raw).value.key) && CleanValue(ParseLine(raw).value.value)
  {
    var line := Strip(raw);
    var i := FirstIndex(line, '=');
    StripEdges(raw);
    LineIsClean(line, i);
  }

  lemma LineIsClean(line: string, i: nat)
    requires OneLine(line) && i < |line| && line[0] != '#'
    requires !IsSpace(line[0]) && !IsSpace(line[|line| - 1])
    requires forall j :: 0 <= j < i ==> line[j] != '='
    ensures CleanKey(Strip(line[..i])) && CleanValue(line[i + 1..])
  {
    var a, k, v := line[..i], Strip(line[..i]), line[i + 1..];
    StripEdges(a);
    StripFixed(a);
    assert OneLine(a) && '=' !in a;
    forall j | 0 <= j < |k| ensures !IsBreak(k[j]) && k[j] != '=' {
      assert k[j] in a;
    }
    if i > 0 {
      assert a[0] == line[0];
      assert k == StripEnd(a);
      StripEndFacts(a);
    } else {
      assert a == "";
    }
    assert forall j :: 0 <= j < |v| ==> v[j] == line[i + 1 + j];
    if v != "" {
      assert v[|v| - 1] == line[|line| - 1];
    }
  }

  lemma {:induction false} SplitLinesAreLines(s: string)
    ensures forall i :: 0 <= i < |SplitLines(s)| ==> OneLine(SplitLines(s)[i])
    decreases |s|
  {
    if s != "" {
      var i := FirstBreak(s);
      if i < |s| {
        SplitLinesAreLines(s[i + (if s[i] == '\r' && i + 1 < |s| && s[i + 1] == '\n' then 2 else 1)..]);
      } else {
        assert s[..i] == s;
      }
    }
  }

  lemma {:induction false} ParsedIsClean(lines: seq<string>)
    requires forall i :: 0 <= i < |lines| ==> OneLine(lines[i])
    ensures CleanMap(ParseLines(lines))
  {
    if lines != [] {
      ParsedIsClean(lines[..|lines| - 1]);
      var last := lines[|lines| - 1];
      if ParseLine(last).Some? {
        ParsedLineIsClean(last);
      }
    }
  }

  /** Reading any file gives clean entries only. */
  lemma EntriesAreClean(fileText: string)
    ensures CleanMap(Entries(fileText))
  {
    SplitLinesAreLines(ReadText(fileText));
    ParsedIsClean(SplitLines(ReadText(fileText)));
  }

  // ----- a written file is its lines -----

  lemma BreakBounds(s: string, j: nat)
    requires j < |s| && IsBreak(s[j])
    ensures FirstBreak(s) <= j
  {
    var i := FirstBreak(s);
    assert forall k :: 0 <= k < i ==> s[..i][k] == s[k];
  }

  lemma FirstBreakOf(line: string, t: string)
    requires OneLine(line)
    ensures FirstBreak(line + "\n" + t) == |line|
  {
    var s := line + "\n" + t;
    var i := FirstBreak(s);
    CommonChars();
    assert s[|line|] == '\n';
    assert forall k :: 0 <= k < |line| ==> s[k] == line[k];
    BreakBounds(s, |line|);
  }

  lemma SplitStep(line: string, t: string)
    requires OneLine(line)
    ensures SplitLines(line + "\n" + t) == [line] + SplitLines(t)
  {
    FirstBreakOf(line, t);
    var s := line + "\n" + t;
    assert s[..|line|] == line && s[|line| + 1..] == t && s[|line|] == '\n';
  }

  lemma BodyCons(lines: seq<string>)
    requires lines != []
    ensures Body(lines) == lines[0] + "\n" + Body(lines[1..])
  {
    if |lines| > 1 {
      assert lines[0] + "\n" + Join("\n", lines[1..]) + "\n" == lines[0] + "\n" + (Join("\n", lines[1..]) + "\n");
    } else {
      assert lines[1..] == [];
    }
  }

  lemma {:induction false} SplitJoined(lines: seq<string>)
    requires forall i :: 0 <= i < |lines| ==> OneLine(lines[i])
    ensures SplitLines(Body(lines)) == lines
  {
    if lines != [] {
      BodyCons(lines);
      SplitStep(lines[0], Body(lines[1..]));
      SplitJoined(lines[1..]);
      assert lines == [lines[0]] + lines[1..];
    }
  }

  lemma {:induction false} JoinHasNoCr(lines: seq<string>)
    requires forall i :: 0 <= i < |lines| ==> '\r' !in lines[i]
    ensures '\r' !in Join("\n", lines)
  {
    if lines != [] {
      JoinHasNoCr(lines[1..]);
    }
  }

  lemma OneLineHasNoCr(s: string)
    requires OneLine(s)
    ensures '\r' !in s
  {
    CommonChars();
  }

  lemma ParseAppend(lines: seq<string>, last: string)
    ensures ParseLines(lines + [last])
         == match ParseLine(last)
            case Some(p) => ParseLines(lines)[p.key := p.value]
            case None => ParseLines(lines)
  {
    assert (lines + [last])[..|lines|] == lines;
  }

  function Selected(keys: seq<string>, m: map<string, string>): map<string, string>
    requires forall k :: k in keys ==> k in m
  {
    map k | k in keys :: m[k]
  }

  lemma SelectedStep(keys: seq<string>, last: string, m: map<string, string>)
    requires forall k :: k in keys + [last] ==> k in m
    ensures Selected(keys, m)[last := m[last]] == Selected(keys + [last], m)
    ensures EntryLines(keys + [last], m) == EntryLines(keys, m) + [EntryLine(last, m[last])]
  {
  }

  lemma {:induction false} CleanLinesParse(head: seq<string>, keys: seq<string>, m: map<string, string>)
    requires forall k :: k in keys ==> k in m && CleanKey(k) && CleanValue(m[k])
    requires ParseLines(head) == map[]
    ensures ParseLines(head + EntryLines(keys, m)) == Selected(keys, m)
  {
    if keys == [] {
      assert head + EntryLines(keys, m) == head;
    } else {
      var init, last := keys[..|keys| - 1], keys[|keys| - 1];
      assert keys == init + [last];
      CleanLinesParse(head, init, m);
      SelectedStep(init, last, m);
      CleanLineParses(last, m[last]);
      ParseAppend(head + EntryLines(init, m), EntryLine(last, m[last]));
      assert head + EntryLines(keys, m) == head + EntryLines(init, m) + [EntryLine(last, m[last])];
    }
  }

  lemma SelectAll(keys: seq<string>, m: map<string, string>)
    requires forall k :: k in keys <==> k in m
    ensures Selected(keys, m) == m
  {
  }

  lemma CleanIsReadBack(m: map<string, string>, header: string)
    requires OneLine(header) && CleanMap(m)
    ensures Entries(FileText(m, header)) == m
  {
    WrittenLines(m, header);
    HeaderGivesNothing(header);
    CleanLinesParse(HeaderLines(header), Sorted(m.Keys), m);
    SelectAll(Sorted(m.Keys), m);
  }

  lemma EntryIsOneLine(k: string, v: string)
    requires OneLine(k) && OneLine(v)
    ensures OneLine(EntryLine(k, v))
  {
    CommonChars();
  }

  lemma HeaderIsOneLine(header: string)
    requires OneLine(header)
    ensures forall i :: 0 <= i < |HeaderLines(header)| ==> OneLine(HeaderLines(header)[i])
  {
    CommonChars();
  }

  lemma EntriesAreLines(keys: seq<string>, m: map<string, string>)
    requires CleanMap(m) && forall k :: k in keys ==> k in m
    ensures forall i :: 0 <= i < |keys| ==> OneLine(EntryLines(keys, m)[i])
  {
    forall i | 0 <= i < |keys| ensures OneLine(EntryLines(keys, m)[i]) {
      assert keys[i] in keys;
      EntryIsOneLine(keys[i], m[keys[i]]);
    }
  }

  /** Lines without a break are read back one by one. */
  lemma LinesAreReadBack(lines: seq<string>)
    requires forall i :: 0 <= i < |lines| ==> OneLine(lines[i])
    ensures SplitLines(ReadText(Body(lines))) == lines
  {
    forall i | 0 <= i < |lines| ensures '\r' !in lines[i] {
      OneLineHasNoCr(lines[i]);
    }
    JoinHasNoCr(lines);
    ReadTextIdentity(Body(lines));
    SplitJoined(lines);
  }

  lemma WrittenLines(m: map<string, string>, header: string)
    requires CleanMap(m) && OneLine(header)
    ensures SplitLines(ReadText(FileText(m, header))) == HeaderLines(header) + EntryLines(Sorted(m.Keys), m)
  {
    HeaderIsOneLine(header);
    EntriesAreLines(Sorted(m.Keys), m);
    LinesAreReadBack(HeaderLines(header) + EntryLines(Sorted(m.Keys), m));
  }

  lemma CommentGivesNothing(h: string)
    requires h != "" && h[0] == '#'
    ensures ParseLine(h) == None
  {
    CommonChars();
    StripEdges(h);
    HashStays(h);
  }

  lemma HeaderGivesNothing(header: string)
    ensures ParseLines(HeaderLines(header)) == map[]
  {
    if header != "" {
      var h := "# " + header;
      assert [h][..0] == [];
      CommentGivesNothing(h);
    }
  }

  lemma {:induction false} HashStays(h: string)
    requires h != "" && h[0] == '#'
    ensures StripEnd(h) != "" && StripEnd(h)[0] == '#'
  {
    if IsSpace(h[|h| - 1]) {
      HashStays(h[..|h| - 1]);
    }
  }

  /**
   * Writing and reading back gives the same entries exactly when every key and value is clean: on one
   * line, keys trimmed, without equals sign and not a comment, values without blanks at the end.
   */
  lemma WrittenIsReadBackExactly(m: map<string, string>, header: string)
    requires OneLine(header)
    ensures Entries(FileText(m, header)) == m <==> CleanMap(m)
  {
    if CleanMap(m) {
      CleanIsReadBack(m, header);
    } else {
      EntriesAreClean(FileText(m, header));
    }
  }

  // ----- what a file says -----

  /** A line that sets a key: not a comment, with the key's name in front of the first equals sign. */
  predicate Sets(line: string, name: string, key: string, value: string) {
    '=' !in name && line == name + "=" + value && line[0] != '#' && key == Strip(name)
  }

  /** What a line sets once the blanks around it are gone; blank lines, comments and other lines set nothing. */
  lemma LineExactly(raw: string, key: string, value: string)
    ensures ParseLine(raw) == Some(Pair(key, value)) <==> exists name :: Sets(Strip(raw), name, key, value)
    ensures ParseLine(raw) == None <==> Strip(raw) == "" || Strip(raw)[0] == '#' || '=' !in Strip(raw)
  {
    var line := Strip(raw);
    if name :| Sets(line, name, key, value) {
      assert line[|name|] == '=' && line[..|name|] == name && line[|name| + 1..] == value;
      FirstIndexOf(line, name, '=');
    }
    if ParseLine(raw) == Some(Pair(key, value)) {
      var i := FirstIndex(line, '=');
      assert line == line[..i] + "=" + line[i + 1..];
      assert Sets(line, line[..i], key, value);
    }
  }

  predicate SetsNothing(raw: string, key: string) {
    ParseLine(raw).Some? ==> ParseLine(raw).value.key != key
  }

  /** Line `i` sets the key to the value and no later line sets the key. */
  predicate IsLast(lines: seq<string>, i: nat, key: string, value: string) {
    && i < |lines| && ParseLine(lines[i]) == Some(Pair(key, value))
    && forall j :: i < j < |lines| ==> SetsNothing(lines[j], key)
  }

  lemma LastOnes(lines: seq<string>, raw: string, i: nat, key: string, value: string)
    ensures i < |lines| ==>
              (IsLast(lines + [raw], i, key, value) <==> IsLast(lines, i, key, value) && SetsNothing(raw, key))
    ensures IsLast(lines + [raw], |lines|, key, value) <==> ParseLine(raw) == Some(Pair(key, value))
  {
    var all := lines + [raw];
    assert all[|lines|] == raw;
    if i < |lines| && IsLast(all, i, key, value) {
      forall j | i < j < |lines| ensures SetsNothing(lines[j], key) {
        assert all[j] == lines[j];
      }
    }
  }

  /** The last line that sets a key decides its value. */
  lemma {:induction false} LastLineDecides(lines: seq<string>, key: string, value: string)
    ensures (key in ParseLines(lines) && ParseLines(lines)[key] == value)
            <==> exists i: nat :: IsLast(lines, i, key, value)
  {
    if lines != [] {
      var n := |lines| - 1;
      assert lines == lines[..n] + [lines[n]];
      LastLineDecides(lines[..n], key, value);
      LastOnes(lines[..n], lines[n], n, key, value);
      if i: nat :| IsLast(lines, i, key, value) {
        LastOnes(lines[..n], lines[n], i, key, value);
      }
      if i: nat :| IsLast(lines[..n], i, key, value) {
        LastOnes(lines[..n], lines[n], i, key, value);
      }
    }
  }
}
