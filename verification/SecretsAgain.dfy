/** Materialising the same secrets twice: what cli/nubi_cli/secrets_files.py leaves alone, and exactly when. */
module SecretsAgain {
  import opened Dotenv
  import opened Names
  import opened PyText
  import opened Secrets
  import opened Text
  import opened Wrappers

  // ----- a written file, read entry by entry -----

  /** What a line turns into when the file is read: one line, or several where it holds line breaks. */
  function ReadLine(line: string): seq<string> {
    SplitLines(ReadText(line + "\n"))
  }

  function ReadAll(lines: seq<string>): seq<string> {
    if lines == [] then [] else ReadLine(lines[0]) + ReadAll(lines[1..])
  }

  lemma ReadPlain(c: char, t: string)
    requires c != '\r' || t == "" || t[0] != '\n'
    ensures ReadText([c] + t) == [if c == '\r' then '\n' else c] + ReadText(t)
  {
    assert ([c] + t)[1..] == t;
  }

  ghost predicate ReadsApart(a: string, b: string) {
    ReadText(a + "\n" + b) == ReadText(a + "\n") + ReadText(b)
  }

  lemma ReadsApartPlain(c: char, t: string, b: string)
    requires ReadsApart(t, b) && (c != '\r' || (t + "\n")[0] != '\n')
    ensures ReadsApart([c] + t, b)
  {
    var a := [c] + t;
    ReadPlain(c, t + "\n" + b);
    ReadPlain(c, t + "\n");
    assert a + "\n" + b == [c] + (t + "\n" + b) && a + "\n" == [c] + (t + "\n");
  }

  lemma ReadsApartCrLf(a: string, b: string)
    requires a != "" && a[0] == '\r' && (a + "\n")[1] == '\n' && (|a| > 1 ==> ReadsApart(a[2..], b))
    ensures ReadsApart(a, b)
  {
    ReadCrLf(a, b);
  }

  lemma {:induction false} ReadTextAfterLf(a: string, b: string)
    ensures ReadsApart(a, b)
    decreases |a|
  {
    if a == "" {
      ReadPlain('\n', b);
      ReadPlain('\n', "");
      assert "" + "\n" + b == ['\n'] + b && "" + "\n" == ['\n'] + "";
    } else if a[0] == '\r' && (a + "\n")[1] == '\n' {
      if |a| > 1 {
        ReadTextAfterLf(a[2..], b);
      }
      ReadsApartCrLf(a, b);
    } else {
      ReadTextAfterLf(a[1..], b);
      ReadsApartPlain(a[0], a[1..], b);
      assert [a[0]] + a[1..] == a;
    }
  }

  lemma ReadCrLf(a: string, b: string)
    requires a != "" && a[0] == '\r' && (a + "\n")[1] == '\n'
    ensures |a| > 1 ==> ReadText(a + "\n" + b) == "\n" + ReadText(a[2..] + "\n" + b)
    ensures |a| > 1 ==> ReadText(a + "\n") == "\n" + ReadText(a[2..] + "\n")
    ensures |a| == 1 ==> ReadText(a + "\n" + b) == "\n" + ReadText(b) && ReadText(a + "\n") == "\n"
  {
    var s := a + "\n";
    if |a| > 1 {
      assert s[2..] == a[2..] + "\n" && (s + b)[2..] == a[2..] + "\n" + b;
    } else {
      assert s[2..] == "" && (s + b)[2..] == b;
    }
  }

  predicate Closed(s: string) {
    s == "" || s[|s| - 1] == '\n'
  }

  lemma {:induction false} ReadTextClosed(a: string)
    ensures Closed(ReadText(a + "\n"))
    decreases |a|
  {
    ReadTextAfterLf(a, "");
    var s := a + "\n";
    if a == "" {
      assert "\n"[1..] == "";
    } else if a[0] == '\r' && s[1] == '\n' {
      ReadCrLf(a, "");
      if |a| > 1 {
        ReadTextClosed(a[2..]);
      }
    } else {
      ReadTextClosed(a[1..]);
      assert s[1..] == a[1..] + "\n";
    }
  }

  lemma SplitFirst(line: string, c: char, t: string)
    requires OneLine(line) && IsBreak(c) && c != '\r'
    ensures SplitLines(line + [c] + t) == [line] + SplitLines(t)
  {
    var s := line + [c] + t;
    assert forall k :: 0 <= k < |line| ==> s[k] == line[k];
    assert s[|line|] == c;
    BreakBounds(s, |line|);
    assert s[..|line|] == line && s[|line| + 1..] == t;
  }

  /** Splitting character by character, `sofar` being the line so far. */
  function Pieces(s: string, sofar: string): seq<string> {
    if s == "" then (if sofar == "" then [] else [sofar])
    else if IsBreak(s[0]) then [sofar] + Pieces(s[1..], "")
    else Pieces(s[1..], sofar + [s[0]])
  }

  lemma LastPiece(sofar: string)
    requires OneLine(sofar)
    ensures SplitLines(sofar) == Pieces("", sofar)
  {
    if sofar != "" {
      var i := FirstBreak(sofar);
      assert i == |sofar|;
    }
  }

  ghost predicate SameSplit(s: string, sofar: string) {
    Pieces(s, sofar) == SplitLines(sofar + s)
  }

  lemma BreakPiece(c: char, t: string, sofar: string)
    requires OneLine(sofar) && IsBreak(c) && c != '\r' && SameSplit(t, "")
    ensures SameSplit([c] + t, sofar)
  {
    SplitFirst(sofar, c, t);
    assert sofar + ([c] + t) == sofar + [c] + t && "" + t == t && ([c] + t)[1..] == t;
  }

  lemma CharPiece(c: char, t: string, sofar: string)
    requires !IsBreak(c) && SameSplit(t, sofar + [c])
    ensures SameSplit([c] + t, sofar)
  {
    assert sofar + ([c] + t) == sofar + [c] + t && ([c] + t)[1..] == t;
  }

  lemma {:induction false} PiecesAreLines(s: string, sofar: string)
    requires OneLine(sofar) && '\r' !in s
    ensures SameSplit(s, sofar)
    decreases |s|
  {
    if s == "" {
      assert sofar + s == sofar;
      LastPiece(sofar);
    } else {
      assert s == [s[0]] + s[1..];
      if IsBreak(s[0]) {
        PiecesAreLines(s[1..], "");
        BreakPiece(s[0], s[1..], sofar);
      } else {
        PiecesAreLines(s[1..], sofar + [s[0]]);
        CharPiece(s[0], s[1..], sofar);
      }
    }
  }

  lemma {:induction false} PiecesConcat(x: string, w: string, sofar: string)
    requires Closed(x) && (x == "" ==> sofar == "")
    ensures Pieces(x + w, sofar) == Pieces(x, sofar) + Pieces(w, "")
    decreases |x|
  {
    if x == "" {
      assert x + w == w;
    } else {
      CommonChars();
      assert (x + w)[1..] == x[1..] + w;
      PiecesConcat(x[1..], w, if IsBreak(x[0]) then "" else sofar + [x[0]]);
    }
  }

  lemma SplitClosed(x: string, w: string)
    requires Closed(x) && '\r' !in x && '\r' !in w
    ensures SplitLines(x + w) == SplitLines(x) + SplitLines(w)
  {
    PiecesAreLines(x, "");
    PiecesAreLines(w, "");
    PiecesAreLines(x + w, "");
    PiecesConcat(x, w, "");
    assert "" + x == x && "" + w == w && "" + (x + w) == x + w;
  }

  /** A file is read line by line, whatever the lines hold. */
  lemma {:induction false} BodyIsRead(lines: seq<string>)
    ensures SplitLines(ReadText(Body(lines))) == ReadAll(lines)
  {
    if lines != [] {
      BodyIsRead(lines[1..]);
      BodyCons(lines);
      ReadTextAfterLf(lines[0], Body(lines[1..]));
      ReadTextClosed(lines[0]);
      ReadTextExactly(lines[0] + "\n");
      ReadTextExactly(Body(lines[1..]));
      SplitClosed(ReadText(lines[0] + "\n"), ReadText(Body(lines[1..])));
    }
  }

  lemma OneLineIsRead(line: string)
    requires OneLine(line)
    ensures ReadLine(line) == [line]
  {
    OneLineHasNoCr(line);
    ReadTextIdentity(line + "\n");
    SplitStep(line, "");
    assert line + "\n" + "" == line + "\n";
  }

  lemma {:induction false} ReadAllHolds(lines: seq<string>, i: nat, line: string)
    requires i < |lines| && line in ReadLine(lines[i])
    ensures line in ReadAll(lines)
  {
    if i > 0 {
      ReadAllHolds(lines[1..], i - 1, line);
    }
  }

  lemma {:induction false} ReadAllComesFrom(lines: seq<string>, line: string) returns (i: nat)
    requires line in ReadAll(lines)
    ensures i < |lines| && line in ReadLine(lines[i])
  {
    if line in ReadLine(lines[0]) {
      i := 0;
    } else {
      var k := ReadAllComesFrom(lines[1..], line);
      i := k + 1;
    }
  }

  lemma {:induction false} LineGivesKey(lines: seq<string>, line: string)
    requires line in lines && ParseLine(line).Some?
    ensures ParseLine(line).value.key in ParseLines(lines)
  {
    var n := |lines| - 1;
    if line != lines[n] {
      var i :| 0 <= i < n && lines[i] == line;
      assert line == lines[..n][i];
      LineGivesKey(lines[..n], line);
    }
  }

  lemma {:induction false} KeyComesFrom(lines: seq<string>, k: string) returns (line: string)
    requires k in ParseLines(lines)
    ensures line in lines && ParseLine(line) == Some(Pair(k, ParseLines(lines)[k]))
  {
    var n := |lines| - 1;
    var last := ParseLine(lines[n]);
    if last.Some? && last.value.key == k {
      line := lines[n];
    } else {
      line := KeyComesFrom(lines[..n], k);
    }
  }

  // ----- what the lines of a written file say -----

  /** The lines of an entry as the next reader sees them. */
  function Says(k: string, v: string): seq<string> {
    ReadLine(EntryLine(k, v))
  }

  lemma WrittenSays(m: map<string, string>, header: string, k: string, line: string)
    requires k in m && line in Says(k, m[k]) && ParseLine(line).Some?
    ensures ParseLine(line).value.key in Entries(FileText(m, header))
  {
    var keys := Sorted(m.Keys);
    var lines := HeaderLines(header) + EntryLines(keys, m);
    var i :| 0 <= i < |keys| && keys[i] == k;
    assert lines[|HeaderLines(header)| + i] == EntryLine(k, m[k]);
    BodyIsRead(lines);
    ReadAllHolds(lines, |HeaderLines(header)| + i, line);
    LineGivesKey(ReadAll(lines), line);
  }

  lemma HeaderSaysNothing(header: string, i: nat, line: string)
    requires OneLine(header) && i < |HeaderLines(header)| && line in ReadLine(HeaderLines(header)[i])
    ensures ParseLine(line) == None
  {
    HeaderIsOneLine(header);
    OneLineIsRead(HeaderLines(header)[i]);
    CommentGivesNothing(HeaderLines(header)[i]);
  }

  lemma SaidByEntry(head: seq<string>, keys: seq<string>, m: map<string, string>, i: nat, line: string)
    returns (k: string)
    requires (forall key :: key in keys ==> key in m) && i < |head| + |keys| && ParseLine(line).Some?
    requires i < |head| ==> line !in ReadLine(head[i])
    requires line in ReadLine((head + EntryLines(keys, m))[i])
    ensures k in keys && line in Says(k, m[k])
  {
    k := keys[i - |head|];
    assert (head + EntryLines(keys, m))[i] == EntryLine(k, m[k]);
  }

  /** What is read from a written file was said by one of its entries. */
  lemma ReadWasSaid(m: map<string, string>, header: string, key: string) returns (k: string, line: string)
    requires OneLine(header) && key in Entries(FileText(m, header))
    ensures k in m && line in Says(k, m[k])
    ensures ParseLine(line) == Some(Pair(key, Entries(FileText(m, header))[key]))
  {
    var lines := HeaderLines(header) + EntryLines(Sorted(m.Keys), m);
    BodyIsRead(lines);
    line := KeyComesFrom(ReadAll(lines), key);
    var i := ReadAllComesFrom(lines, line);
    if i < |HeaderLines(header)| && line in ReadLine(HeaderLines(header)[i]) {
      HeaderSaysNothing(header, i, line);
    }
    k := SaidByEntry(HeaderLines(header), Sorted(m.Keys), m, i, line);
  }

  lemma CleanSays(k: string, v: string)
    requires CleanKey(k) && CleanValue(v)
    ensures Says(k, v) == [EntryLine(k, v)] && ParseLine(EntryLine(k, v)) == Some(Pair(k, v))
  {
    EntryIsOneLine(k, v);
    OneLineIsRead(EntryLine(k, v));
    CleanLineParses(k, v);
  }

  // ----- when a second merge finds nothing new -----

  /** What a reader finds after `part` has been merged over `kept`. */
  function ReadAfter(kept: map<string, string>, part: map<string, string>, header: string): map<string, string> {
    Entries(FileText(kept + part, header))
  }

  /** Read back, the written file holds under keys that are not of the new part only what was there before. */
  ghost predicate NothingNew(kept: map<string, string>, part: map<string, string>, header: string) {
    var read := ReadAfter(kept, part, header);
    forall k :: k in read && k !in part ==> k in kept && read[k] == kept[k]
  }

  /** Old entries with other keys are always still there, though maybe with another value. */
  lemma OldKeyStays(kept: map<string, string>, part: map<string, string>, header: string, k: string)
    requires CleanMap(kept) && k in kept && k !in part
    ensures k in ReadAfter(kept, part, header)
  {
    CleanSays(k, kept[k]);
    WrittenSays(kept + part, header, k, EntryLine(k, kept[k]));
  }

  lemma SameOverlay(read: map<string, string>, kept: map<string, string>, part: map<string, string>)
    requires forall k :: k in kept && k !in part ==> k in read
    requires forall k :: k in read && k !in part ==> k in kept && read[k] == kept[k]
    ensures read + part == kept + part
  {
  }

  lemma OverlayTells(read: map<string, string>, kept: map<string, string>, part: map<string, string>, k: string)
    requires read + part == kept + part && k in read && k !in part
    ensures k in kept && read[k] == kept[k]
  {
    assert k in read + part && (read + part)[k] == read[k];
    assert k in kept + part && (kept + part)[k] == kept[k];
  }

  lemma NothingNewMeans(kept: map<string, string>, part: map<string, string>, header: string)
    requires CleanMap(kept)
    ensures NothingNew(kept, part, header) <==> ReadAfter(kept, part, header) + part == kept + part
  {
    var read := ReadAfter(kept, part, header);
    if NothingNew(kept, part, header) {
      forall k | k in kept && k !in part ensures k in read {
        OldKeyStays(kept, part, header, k);
      }
      SameOverlay(read, kept, part);
    }
    if read + part == kept + part {
      forall k | k in read && k !in part ensures k in kept && read[k] == kept[k] {
        OverlayTells(read, kept, part, k);
      }
    }
  }

  // ----- the same text means the same entries -----

  lemma OneLineHasNoLf(s: string)
    requires OneLine(s)
    ensures Count(s, '\n') == 0
  {
    CommonChars();
    NoCount(s, '\n');
  }

  lemma {:induction false} NoCount(s: string, c: char)
    requires c !in s
    ensures Count(s, c) == 0
  {
    if s != "" {
      NoCount(s[1..], c);
    }
  }

  lemma LfCountsOne()
    ensures Count("\n", '\n') == 1
  {
    assert "\n"[1..] == "";
  }

  lemma BodyCount(line: string, lines: seq<string>)
    ensures Count(Body([line] + lines), '\n') == Count(line, '\n') + 1 + Count(Body(lines), '\n')
  {
    var all := [line] + lines;
    assert all[1..] == lines;
    BodyCons(all);
    LfCountsOne();
    CountConcat(line + "\n", Body(lines), '\n');
    CountConcat(line, "\n", '\n');
  }

  /** Two maps of which `b` has every key of `a`, with the same value or another that fits on one line. */
  ghost predicate Extends(a: map<string, string>, b: map<string, string>) {
    && (forall k :: k in a ==> k in b && (a[k] == b[k] || (OneLine(EntryLine(k, a[k])) && OneLine(EntryLine(k, b[k])))))
    && forall k :: k in b && k !in a ==> OneLine(EntryLine(k, b[k]))
  }

  function TextOf(keys: seq<string>, m: map<string, string>): string
    requires forall k :: k in keys ==> k in m
  {
    Body(EntryLines(keys, m))
  }

  lemma TextCons(keys: seq<string>, m: map<string, string>)
    requires keys != [] && forall k :: k in keys ==> k in m
    ensures TextOf(keys, m) == EntryLine(keys[0], m[keys[0]]) + "\n" + TextOf(keys[1..], m)
    ensures Count(TextOf(keys, m), '\n')
            == Count(EntryLine(keys[0], m[keys[0]]), '\n') + 1 + Count(TextOf(keys[1..], m), '\n')
  {
    var line := EntryLine(keys[0], m[keys[0]]);
    assert EntryLines(keys, m) == [line] + EntryLines(keys[1..], m);
    BodyCount(line, EntryLines(keys[1..], m));
    BodyCons(EntryLines(keys, m));
    assert ([line] + EntryLines(keys[1..], m))[1..] == EntryLines(keys[1..], m);
  }

  lemma SameCount(a: map<string, string>, b: map<string, string>, k: string)
    requires Extends(a, b) && k in a
    ensures Count(EntryLine(k, a[k]), '\n') == Count(EntryLine(k, b[k]), '\n')
  {
    if a[k] != b[k] {
      OneLineHasNoLf(EntryLine(k, a[k]));
      OneLineHasNoLf(EntryLine(k, b[k]));
    }
  }

  /** The part of `ys` in front of which `x` has to stand. */
  lemma IncreasingHeads(xs: seq<string>, ys: seq<string>)
    requires Increasing(xs) && Increasing(ys) && ys != [] && (forall k :: k in xs ==> k in ys)
    ensures Increasing(ys[1..])
    ensures xs != [] && xs[0] == ys[0] ==> Increasing(xs[1..]) && forall k :: k in xs[1..] ==> k in ys[1..]
    ensures xs == [] || xs[0] != ys[0] ==> ys[0] !in xs && forall k :: k in xs ==> k in ys[1..]
  {
    forall k | k in xs ensures k == ys[0] || k in ys[1..] {
    }
    if xs != [] && xs[0] == ys[0] {
      forall k | k in xs[1..] ensures k in ys[1..] {
        var i :| 0 <= i < |xs[1..]| && xs[1..][i] == k;
        assert Less(xs[0], xs[i + 1]);
        LessIrreflexive(xs[0]);
      }
    } else if xs != [] {
      if ys[0] in xs {
        var i :| 0 <= i < |xs| && xs[i] == ys[0];
        assert Less(xs[0], xs[i]);
        assert xs[0] in xs;
        var j :| 0 <= j < |ys| && ys[j] == xs[0];
        assert Less(ys[0], ys[j]);
        LessTransitive(xs[0], ys[0], xs[0]);
        LessIrreflexive(xs[0]);
      }
    }
  }

  lemma HeadIn(xs: seq<string>)
    ensures xs != [] ==> xs[0] in xs
  {
  }

  /** Every key more is a line feed more. */
  lemma {:induction false} CountKeys(xs: seq<string>, a: map<string, string>, ys: seq<string>, b: map<string, string>)
    requires Increasing(xs) && Increasing(ys) && (forall k :: k in xs ==> k in ys) && Extends(a, b)
    requires (forall k :: k in xs ==> k in a) && (forall k :: k in ys ==> k in b && (k in a ==> k in xs))
    ensures Count(TextOf(ys, b), '\n') - Count(TextOf(xs, a), '\n') == |ys| - |xs|
    decreases |ys|
  {
    if ys == [] {
      HeadIn(xs);
    } else {
      IncreasingHeads(xs, ys);
      TextCons(ys, b);
      assert ys[0] in ys;
      assert forall k :: k in ys[1..] ==> k in ys;
      if xs != [] && xs[0] == ys[0] {
        TextCons(xs, a);
        SameCount(a, b, xs[0]);
        RestOf(xs, ys, a);
        CountKeys(xs[1..], a, ys[1..], b);
      } else {
        assert ys[0] !in a;
        OneLineHasNoLf(EntryLine(ys[0], b[ys[0]]));
        CountKeys(xs, a, ys[1..], b);
      }
    }
  }

  lemma RestOf(xs: seq<string>, ys: seq<string>, a: map<string, string>)
    requires xs != [] && ys != [] && xs[0] == ys[0] && Increasing(ys)
    requires forall k :: k in ys ==> (k in a ==> k in xs)
    ensures forall k :: k in ys[1..] ==> (k in a ==> k in xs[1..])
    ensures forall k :: k in xs[1..] ==> k in xs
  {
    forall k | k in ys[1..] && k in a ensures k in xs[1..] {
      var j :| 0 <= j < |ys[1..]| && ys[1..][j] == k;
      assert Less(ys[0], ys[j + 1]);
      LessIrreflexive(ys[0]);
      assert k in ys;
    }
  }

  lemma NotShorter(x: string, s: string, y: string, t: string)
    requires '\n' !in y && x + "\n" + s == y + "\n" + t
    ensures |x| >= |y|
  {
    var u := y + "\n" + t;
    assert forall i :: 0 <= i < |y| ==> u[i] == y[i];
    assert u[|x|] == '\n';
  }

  lemma LineEnds(x: string, s: string, y: string, t: string)
    requires '\n' !in x && '\n' !in y && x + "\n" + s == y + "\n" + t
    ensures x == y && s == t
  {
    NotShorter(x, s, y, t);
    NotShorter(y, t, x, s);
    assert (x + "\n" + s)[..|x|] == x && (y + "\n" + t)[..|y|] == y;
    SameLine(x, s, t);
  }

  lemma SameLine(x: string, s: string, t: string)
    requires x + "\n" + s == x + "\n" + t
    ensures s == t
  {
    assert (x + "\n" + s)[|x| + 1..] == s && (x + "\n" + t)[|x| + 1..] == t;
  }

  lemma FirstEntry(k: string, v: string, s: string, w: string, t: string)
    requires EntryLine(k, v) + "\n" + s == EntryLine(k, w) + "\n" + t
    requires v == w || (OneLine(EntryLine(k, v)) && OneLine(EntryLine(k, w)))
    ensures v == w && s == t
  {
    if v == w {
      SameLine(EntryLine(k, v), s, t);
    } else {
      CommonChars();
      LineEnds(EntryLine(k, v), s, EntryLine(k, w), t);
      EdgesOf(k, v);
      EdgesOf(k, w);
      assert false;
    }
  }

  lemma {:induction false} SameText(keys: seq<string>, a: map<string, string>, b: map<string, string>)
    requires Extends(a, b) && forall k :: k in keys ==> k in a
    requires TextOf(keys, a) == TextOf(keys, b)
    ensures forall k :: k in keys ==> a[k] == b[k]
  {
    if keys != [] {
      var k := keys[0];
      TextCons(keys, a);
      TextCons(keys, b);
      FirstEntry(k, a[k], TextOf(keys[1..], a), b[k], TextOf(keys[1..], b));
      SameText(keys[1..], a, b);
    }
  }

  lemma SameFileText(a: map<string, string>, b: map<string, string>, header: string)
    requires FileText(a, header) == FileText(b, header)
    ensures TextOf(Sorted(a.Keys), a) == TextOf(Sorted(b.Keys), b)
  {
    HeadedText(a, header);
    HeadedText(b, header);
    if header != "" {
      SameLine("# " + header, TextOf(Sorted(a.Keys), a), TextOf(Sorted(b.Keys), b));
    }
  }

  lemma HeadedText(m: map<string, string>, header: string)
    ensures FileText(m, header) ==
            if header == "" then TextOf(Sorted(m.Keys), m) else "# " + header + "\n" + TextOf(Sorted(m.Keys), m)
  {
    var lines := EntryLines(Sorted(m.Keys), m);
    if header == "" {
      assert [] + lines == lines;
    } else {
      var all := ["# " + header] + lines;
      assert all[1..] == lines;
      BodyCons(all);
    }
  }

  lemma SameKeys(xs: seq<string>, ys: seq<string>)
    requires Increasing(xs) && Increasing(ys) && |xs| == |ys| && forall k :: k in xs ==> k in ys
    ensures xs == ys
    decreases |ys|
  {
    if ys != [] {
      IncreasingHeads(xs, ys);
      if xs[0] == ys[0] {
        SameKeys(xs[1..], ys[1..]);
      } else {
        Fewer(xs, ys[1..]);
      }
    }
  }

  lemma Fewer(xs: seq<string>, ys: seq<string>)
    requires Increasing(xs) && Increasing(ys) && forall k :: k in xs ==> k in ys
    ensures |xs| <= |ys|
    decreases |ys|
  {
    if ys != [] {
      IncreasingHeads(xs, ys);
      if xs != [] && xs[0] == ys[0] {
        Fewer(xs[1..], ys[1..]);
      } else {
        Fewer(xs, ys[1..]);
      }
    } else {
      HeadIn(xs);
    }
  }

  lemma SortedKeysMeet(a: map<string, string>, b: map<string, string>)
    requires Extends(a, b) && Sorted(a.Keys) == Sorted(b.Keys)
    ensures a.Keys == b.Keys
  {
    forall k ensures k in a.Keys <==> k in b.Keys {
      assert k in Sorted(a.Keys) <==> k in a.Keys;
      assert k in Sorted(b.Keys) <==> k in b.Keys;
    }
  }

  lemma SameSortedKeys(a: map<string, string>, b: map<string, string>)
    requires Extends(a, b) && TextOf(Sorted(a.Keys), a) == TextOf(Sorted(b.Keys), b)
    ensures Sorted(a.Keys) == Sorted(b.Keys)
  {
    var xs, ys := Sorted(a.Keys), Sorted(b.Keys);
    CountKeys(xs, a, ys, b);
    SameKeys(xs, ys);
  }

  /** A map that extends another and prints the same file is the same map. */
  lemma SameFileSameMap(a: map<string, string>, b: map<string, string>, header: string)
    requires Extends(a, b) && FileText(a, header) == FileText(b, header)
    ensures a == b
  {
    SameFileText(a, b, header);
    SameSortedKeys(a, b);
    SortedKeysMeet(a, b);
    SameText(Sorted(a.Keys), a, b);
    assert forall k :: k in a ==> k in Sorted(a.Keys);
  }

  lemma ReadExtends(kept: map<string, string>, part: map<string, string>, header: string)
    requires CleanMap(kept)
    ensures Extends(kept + part, ReadAfter(kept, part, header) + part)
  {
    var read := ReadAfter(kept, part, header);
    EntriesAreClean(FileText(kept + part, header));
    forall k | k in kept && k !in part ensures k in read {
      OldKeyStays(kept, part, header, k);
    }
    forall k | k in read ensures OneLine(EntryLine(k, read[k])) {
      EntryIsOneLine(k, read[k]);
    }
    forall k | k in kept ensures OneLine(EntryLine(k, kept[k])) {
      EntryIsOneLine(k, kept[k]);
    }
  }

  /** Merging the same part again writes the same text exactly when there was nothing new to read. */
  lemma SameTextExactly(kept: map<string, string>, part: map<string, string>, header: string)
    requires CleanMap(kept)
    ensures FileText(ReadAfter(kept, part, header) + part, header) == FileText(kept + part, header)
       <==> NothingNew(kept, part, header)
  {
    NothingNewMeans(kept, part, header);
    ReadExtends(kept, part, header);
    if FileText(ReadAfter(kept, part, header) + part, header) == FileText(kept + part, header) {
      SameFileSameMap(kept + part, ReadAfter(kept, part, header) + part, header);
    }
  }

  // ----- materialising again -----

  ghost predicate Settled(files: map<string, string>, t: Target, part: map<string, string>) {
    part == map[] || NothingNew(ReadAt(files, t.path), part, t.header)
  }

  function Put(m: map<string, string>, path: string, text: Option<string>): map<string, string> {
    if text.Some? then m[path := text.value] else m
  }

  /** What a merge writes, if anything. */
  function Writes(files: map<string, string>, t: Target, part: map<string, string>): Option<string> {
    if part == map[] then None else Some(FileText(ReadAt(files, t.path) + part, t.header))
  }

  lemma MergePuts(files: map<string, string>, t: Target, part: map<string, string>)
    ensures Merged(files, t.path, part, t.header) == Put(files, t.path, Writes(files, t, part))
  {
  }

  lemma PutSame(m: map<string, string>, path: string, text: Option<string>)
    ensures Put(m, path, text) == m <==> text == None || (path in m && m[path] == text.value)
  {
    assert text.Some? ==> Put(m, path, text)[path] == text.value;
  }

  lemma TwoPuts(m: map<string, string>, a: string, x: Option<string>, b: string, y: Option<string>)
    requires a != b
    ensures Put(Put(m, a, x), b, y) == m <==> Put(m, a, x) == m && Put(m, b, y) == m
  {
    PutSame(m, a, x);
    PutSame(m, b, y);
    var twice := Put(Put(m, a, x), b, y);
    assert x.Some? ==> twice[a] == x.value;
    assert y.Some? ==> twice[b] == y.value;
  }

  lemma WritesSameExactly(files: map<string, string>, once: map<string, string>, t: Target, part: map<string, string>)
    requires part != map[] ==> t.path in once && once[t.path] == FileText(ReadAt(files, t.path) + part, t.header)
    ensures Put(once, t.path, Writes(once, t, part)) == once <==> Settled(files, t, part)
  {
    PutSame(once, t.path, Writes(once, t, part));
    ReadAtIsClean(files, t.path);
    SameTextExactly(ReadAt(files, t.path), part, t.header);
  }

  lemma OtherWrites(files: map<string, string>, path: string, text: Option<string>, t: Target,
                    part: map<string, string>)
    requires path != t.path
    ensures Writes(Put(files, path, text), t, part) == Writes(files, t, part)
  {
  }

  lemma BothAgainExactly(files: map<string, string>, a: Target, flow: map<string, string>,
                         b: Target, connector: map<string, string>)
    requires a.path != b.path
    ensures var once := MergedBoth(files, a, flow, b, connector);
            MergedBoth(once, a, flow, b, connector) == once <==> Settled(files, a, flow) && Settled(files, b, connector)
  {
    var x, y := Writes(files, a, flow), Writes(files, b, connector);
    var mid := Put(files, a.path, x);
    var once := Put(mid, b.path, y);
    MergePuts(files, a, flow);
    MergePuts(mid, b, connector);
    OtherWrites(files, a.path, x, b, connector);
    WritesSameExactly(files, once, a, flow);
    WritesSameExactly(files, once, b, connector);
    AgainPuts(once, a, flow, b, connector);
  }

  lemma AgainPuts(once: map<string, string>, a: Target, flow: map<string, string>,
                  b: Target, connector: map<string, string>)
    requires a.path != b.path
    ensures MergedBoth(once, a, flow, b, connector) == once
       <==> Put(once, a.path, Writes(once, a, flow)) == once && Put(once, b.path, Writes(once, b, connector)) == once
  {
    var x, y := Writes(once, a, flow), Writes(once, b, connector);
    MergePuts(once, a, flow);
    MergePuts(Put(once, a.path, x), b, connector);
    OtherWrites(once, a.path, x, b, connector);
    TwoPuts(once, a.path, x, b.path, y);
  }

  /**
   * Materialising the same environment again leaves both files byte for byte as they are if and only if,
   * in each, what reads back under keys other than the new ones was there before.
   */
  lemma MaterializeAgainExactly(files: map<string, string>, flow: map<string, string>, connector: map<string, string>)
    ensures Materialized(Materialized(files, flow, connector), flow, connector) == Materialized(files, flow, connector)
       <==> Settled(files, FLOW_FILE, flow) && Settled(files, CONNECTORS_FILE, connector)
  {
    PathsDiffer();
    BothAgainExactly(files, FLOW_FILE, flow, CONNECTORS_FILE, connector);
  }

  // ----- the condition, read off the new entries -----

  /** A line that reads as nothing, as one of the new keys, or as an old entry unchanged. */
  predicate Harmless(kept: map<string, string>, part: map<string, string>, line: string) {
    match ParseLine(line)
    case None => true
    case Some(p) => p.key in part || (p.key in kept && kept[p.key] == p.value)
  }

  ghost predicate AllHarmless(kept: map<string, string>, part: map<string, string>) {
    forall k, line :: k in part && line in Says(k, part[k]) ==> Harmless(kept, part, line)
  }

  lemma HarmlessIsEnough(kept: map<string, string>, part: map<string, string>, header: string)
    requires CleanMap(kept) && OneLine(header) && AllHarmless(kept, part)
    ensures NothingNew(kept, part, header)
  {
    var read := ReadAfter(kept, part, header);
    forall key | key in read && key !in part ensures key in kept && read[key] == kept[key] {
      var k, line := ReadWasSaid(kept + part, header, key);
      if k in part {
        assert Harmless(kept, part, line);
      } else {
        CleanSays(k, kept[k]);
      }
    }
  }

  /** A line that reads as a key neither new nor old makes the second run write another file. */
  lemma NewKeyIsNew(kept: map<string, string>, part: map<string, string>, header: string, k: string, line: string)
    requires k in part && line in Says(k, part[k]) && ParseLine(line).Some?
    requires ParseLine(line).value.key !in part && ParseLine(line).value.key !in kept
    ensures !NothingNew(kept, part, header)
  {
    WrittenSays(kept + part, header, k, line);
  }

  /** Into an empty file, a second run changes nothing exactly when each line reads as nothing or as a new key. */
  lemma FreshExactly(part: map<string, string>, header: string)
    requires OneLine(header)
    ensures NothingNew(map[], part, header) <==> AllHarmless(map[], part)
  {
    if AllHarmless(map[], part) {
      HarmlessIsEnough(map[], part, header);
    } else {
      var k, line :| k in part && line in Says(k, part[k]) && !Harmless(map[], part, line);
      NewKeyIsNew(map[], part, header, k, line);
    }
  }

  lemma {:induction false} StripEndKeeps(s: string, n: nat)
    requires n < |s| && !IsSpace(s[n])
    ensures n < |StripEnd(s)| && StripEnd(s) <= s
  {
    if IsSpace(s[|s| - 1]) {
      StripEndKeeps(s[..|s| - 1], n);
    }
  }

  lemma CleanKeyParses(k: string, v: string)
    requires CleanKey(k)
    ensures ParseLine(EntryLine(k, v)).Some? && ParseLine(EntryLine(k, v)).value.key == k
  {
    var s := EntryLine(k, v);
    CommonChars();
    EdgesOf(k, v);
    StripEdges(k);
    StripEdges(s);
    StripEndKeeps(s, |k|);
    var line := Strip(s);
    assert line[..|k|] == k && line[|k|] == '=';
    FirstIndexOf(line, k, '=');
  }

  /** Clean keys with values on one line settle at once, blanks at the end of a value included. */
  lemma OneLineValuesSettle(files: map<string, string>, t: Target, part: map<string, string>)
    requires OneLine(t.header) && forall k :: k in part ==> CleanKey(k) && OneLine(part[k])
    ensures Settled(files, t, part)
  {
    var kept := ReadAt(files, t.path);
    ReadAtIsClean(files, t.path);
    forall k, line | k in part && line in Says(k, part[k]) ensures Harmless(kept, part, line) {
      EntryIsOneLine(k, part[k]);
      OneLineIsRead(EntryLine(k, part[k]));
      CleanKeyParses(k, part[k]);
    }
    HarmlessIsEnough(kept, part, t.header);
  }

  lemma BlankKeyParses()
    ensures OneLine(" A=1") && EntryLine(" A", "1") == " A=1"
    ensures ParseLine(" A=1").Some? && ParseLine(" A=1").value.key == "A"
  {
    var line := " A=1";
    assert line[1..] == "A=1" && StripStart(line) == StripStart("A=1") == "A=1";
    FirstIndexOf("A=1", "A", '=');
    assert "A=1"[..1] == "A";
  }

  /** A key with a blank in front does not settle: it reads as another key, which the second run writes too. */
  lemma BlankKeyDoesNotSettle()
    ensures !Settled(map[], FLOW_FILE, map[" A" := "1"])
  {
    BlankKeyParses();
    OneLineIsRead(" A=1");
    assert "A" != " A";
    NewKeyIsNew(map[], map[" A" := "1"], FLOW_HEADER, " A", " A=1");
  }
}
