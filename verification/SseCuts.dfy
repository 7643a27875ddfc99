/**
 * Whether it matters where a stream of embed/widgets/nubi-chat.js is cut: what the chat element is told, for
 * every cutting.
 */
module SseCuts {
  import opened Sse
  import opened Wrappers

  // ----- lines and their carriage returns -----

  /** A line without the carriage returns at its end. */
  function Core(line: string): string {
    if EndsCr(line) then Core(line[..|line| - 1]) else line
  }

  predicate OnlyCrs(line: string) {
    line != "" && forall i :: 0 <= i < |line| ==> line[i] == '\r'
  }

  lemma {:induction false} OnlyCrsCore(line: string)
    ensures OnlyCrs(line) <==> line != "" && Core(line) == ""
  {
    if EndsCr(line) {
      var shorter := line[..|line| - 1];
      OnlyCrsCore(shorter);
      assert forall i :: 0 <= i < |shorter| ==> shorter[i] == line[i];
      if OnlyCrs(shorter) {
        assert OnlyCrs(line);
      }
    } else if line != "" {
      assert line[|line| - 1] != '\r';
    }
  }

  /** What normalising does to a line that a line feed ends. */
  function DropCr(line: string): string {
    if EndsCr(line) then line[..|line| - 1] else line
  }

  function LineData(line: string): string {
    if "data:" <= line then TrimEnd(TrimStart(line[5..])) else ""
  }

  lemma {:induction false} TrimStartCr(x: string)
    ensures TrimStart(x + "\r") == if TrimStart(x) == "" then "" else TrimStart(x) + "\r"
  {
    var y := x + "\r";
    if x == "" {
      assert y == "\r" && y[1..] == "";
    } else {
      assert y[1..] == x[1..] + "\r" && y[0] == x[0];
      TrimStartCr(x[1..]);
    }
  }

  lemma TrimEndCr(x: string)
    ensures TrimEnd(x + "\r") == TrimEnd(x)
  {
    assert (x + "\r")[..|x|] == x;
  }

  lemma DropCrData(line: string)
    requires EndsCr(line)
    ensures LineData(line) == LineData(line[..|line| - 1])
  {
    var shorter := line[..|line| - 1];
    assert line == shorter + "\r";
    assert "data:" <= shorter ==> "data:" <= line;
    if "data:" <= line {
      assert line[4] == "data:"[4];
      assert shorter[..5] == line[..5];
      assert line[5..] == shorter[5..] + "\r";
      TrimStartCr(shorter[5..]);
      TrimEndCr(TrimStart(shorter[5..]));
    }
  }

  /** Carriage returns at the end of a line are trimmed off its data anyway. */
  lemma {:induction false} CoreData(line: string)
    ensures LineData(line) == LineData(Core(line))
  {
    if EndsCr(line) {
      DropCrData(line);
      CoreData(line[..|line| - 1]);
    }
  }

  /** The same lines, some of them with fewer carriage returns at their end. */
  ghost predicate Below(f: seq<string>, n: seq<string>) {
    |f| == |n| && forall i :: 0 <= i < |n| ==> Core(f[i]) == Core(n[i]) && |f[i]| <= |n[i]|
  }

  lemma BelowMeans(f: seq<string>, n: seq<string>)
    requires Below(f, n)
    ensures forall i :: 0 <= i < |n| ==> LineData(f[i]) == LineData(n[i])
    ensures forall i :: 0 <= i < |n| ==> (f[i] == "" ==> n[i] == "" || OnlyCrs(n[i]))
  {
    forall i | 0 <= i < |n|
      ensures LineData(f[i]) == LineData(n[i]) && (f[i] == "" ==> n[i] == "" || OnlyCrs(n[i]))
    {
      CoreData(f[i]);
      CoreData(n[i]);
      OnlyCrsCore(n[i]);
    }
  }

  // ----- lines of concatenated and of normalised texts -----

  function Last(x: seq<string>): string
    requires x != []
  {
    x[|x| - 1]
  }

  /** The last line of one text runs on into the first of the next. */
  function Glue(x: seq<string>, y: seq<string>): seq<string>
    requires x != [] && y != []
  {
    x[..|x| - 1] + [Last(x) + y[0]] + y[1..]
  }

  lemma GlueCons(first: string, x: seq<string>, y: seq<string>)
    requires x != [] && y != []
    ensures Glue([first] + x, y) == [first] + Glue(x, y)
  {
  }

  lemma GlueChar(c: char, x: seq<string>, y: seq<string>)
    requires x != [] && y != []
    ensures Glue([[c] + x[0]] + x[1..], y) == [[c] + Glue(x, y)[0]] + Glue(x, y)[1..]
  {
    if |x| == 1 {
      assert [c] + x[0] + y[0] == [c] + (x[0] + y[0]);
    }
  }

  lemma GlueBlank(x: seq<string>, y: seq<string>)
    requires x != []
    ensures Glue(x, [""] + y) == x + y
  {
    assert Last(x) + "" == Last(x);
  }

  lemma {:induction false} LinesConcat(a: string, b: string)
    ensures Lines(a + b) == Glue(Lines(a), Lines(b))
  {
    if a == "" {
      assert a + b == b;
      assert "" + Lines(b)[0] == Lines(b)[0];
    } else {
      assert (a + b)[1..] == a[1..] + b;
      LinesConcat(a[1..], b);
      if a[0] == '\n' {
        GlueCons("", Lines(a[1..]), Lines(b));
      } else {
        GlueChar(a[0], Lines(a[1..]), Lines(b));
      }
    }
  }

  lemma LinesAt(a: string, b: string)
    ensures Lines("\n" + b) == [""] + Lines(b)
    ensures Lines(a + ("\n" + b)) == Lines(a) + Lines(b)
  {
    assert ("\n" + b)[1..] == b;
    LinesConcat(a, "\n" + b);
    GlueBlank(Lines(a), Lines(b));
  }

  lemma LinesBreak(a: string, b: string)
    ensures Lines(a + FLUSH + b) == Lines(a) + [""] + Lines(b)
  {
    LinesAt(a, "\n" + b);
    LinesAt("", b);
    assert a + FLUSH + b == a + ("\n" + ("\n" + b));
    assert Lines(a) + ([""] + Lines(b)) == Lines(a) + [""] + Lines(b);
  }

  /** The lines of a complete text after normalising it once: all but the last lose a carriage return. */
  function NormLines(x: seq<string>): (r: seq<string>)
    ensures |r| == |x|
    ensures forall i :: 0 <= i < |x| ==> r[i] == if i < |x| - 1 then DropCr(x[i]) else x[i]
  {
    seq(|x|, i requires 0 <= i < |x| => if i < |x| - 1 then DropCr(x[i]) else x[i])
  }

  lemma DropCrCons(c: char, line: string)
    requires c != '\r' || line != ""
    ensures DropCr([c] + line) == [c] + DropCr(line)
  {
    if EndsCr(line) {
      assert ([c] + line)[..|line|] == [c] + line[..|line| - 1];
    }
  }

  lemma NormLinesCons(c: char, r: seq<string>)
    requires r != [] && (c != '\r' || |r| == 1 || r[0] != "")
    ensures NormLines([[c] + r[0]] + r[1..]) == [[c] + NormLines(r)[0]] + NormLines(r)[1..]
  {
    if |r| > 1 {
      DropCrCons(c, r[0]);
    }
  }

  lemma NormLinesBlank(first: string, r: seq<string>)
    requires r != [] && DropCr(first) == ""
    ensures NormLines([first] + r) == [""] + NormLines(r)
  {
  }

  lemma LinesStart(s: string)
    ensures Lines(s)[0] == "" <==> s == "" || s[0] == '\n'
    ensures s == "" ==> |Lines(s)| == 1
  {
  }

  lemma LinesNormalizeCrLf(s: string, t: string)
    requires s == "\r" + ("\n" + t) && Lines(Normalize(t)) == NormLines(Lines(t))
    ensures Lines(Normalize(s)) == NormLines(Lines(s))
  {
    assert s[2..] == t;
    assert "\r"[1..] == "";
    assert ['\r'] + "" == "\r";
    LinesAt("\r", t);
    LinesAt("", Normalize(t));
    NormLinesBlank("\r", Lines(t));
  }

  lemma LinesNormalizeLf(t: string)
    requires Lines(Normalize(t)) == NormLines(Lines(t))
    ensures Lines("\n" + Normalize(t)) == NormLines(Lines("\n" + t))
  {
    LinesAt("", t);
    LinesAt("", Normalize(t));
    NormLinesBlank("", Lines(t));
  }

  lemma LinesNormalizeChar(c: char, t: string)
    requires c != '\n' && !(c == '\r' && StartsLf(t)) && Lines(Normalize(t)) == NormLines(Lines(t))
    ensures Lines([c] + Normalize(t)) == NormLines(Lines([c] + t))
  {
    LinesStart(t);
    assert ([c] + Normalize(t))[1..] == Normalize(t) && ([c] + t)[1..] == t;
    NormLinesCons(c, Lines(t));
  }

  lemma {:induction false} LinesNormalize(s: string)
    ensures Lines(Normalize(s)) == NormLines(Lines(s))
    decreases |s|
  {
    if s != "" {
      var t := s[1..];
      assert s == [s[0]] + t;
      if s[0] == '\r' && StartsLf(t) {
        LinesNormalize(t[1..]);
        LinesNormalizeCrLf(s, t[1..]);
      } else {
        LinesNormalize(t);
        if s[0] == '\n' {
          LinesNormalizeLf(t);
        } else {
          LinesNormalizeChar(s[0], t);
        }
      }
    }
  }

  /** What has been split off ends in a blank line. */
  lemma {:induction false} UnsplitLines(frames: seq<string>)
    ensures var x := Lines(Unsplit(frames)); Last(x) == "" && (|x| > 1 ==> x[|x| - 2] == "")
  {
    if frames != [] {
      UnsplitLines(frames[1..]);
      LinesBreak(frames[0], Unsplit(frames[1..]));
    }
  }

  // ----- what a read does to the lines read so far -----

  /** What one more read makes of the lines `f`: those from `lead` on that a line feed ends lose a carriage return. */
  ghost predicate Reads(f: seq<string>, y: seq<string>, lead: nat, h: seq<string>) {
    && f != [] && y != [] && lead < |f| && (lead > 0 ==> f[lead - 1] == "")
    && |h| == |f| - 1 + |y|
    && forall i :: 0 <= i < |h| ==>
         h[i] == if lead <= i < |h| - 1 then DropCr(Glue(f, y)[i]) else Glue(f, y)[i]
  }

  lemma GlueLead(x: seq<string>, p: seq<string>, r: seq<string>)
    requires r != [] && x == p + [""]
    ensures Glue(x, r) == p + r
  {
    assert "" + r[0] == r[0];
  }

  lemma GlueBehind(p: seq<string>, r: seq<string>, y: seq<string>)
    requires r != [] && y != []
    ensures Glue(p + r, y) == p + Glue(r, y)
  {
  }

  lemma ReadsTail(p: seq<string>, r: seq<string>, y: seq<string>)
    requires r != [] && y != [] && (p != [] ==> Last(p) == "")
    ensures Reads(p + r, y, |p|, p + NormLines(Glue(r, y)))
  {
    GlueBehind(p, r, y);
  }

  lemma ReadsGlued(x: seq<string>, r: seq<string>, y: seq<string>) returns (lead: nat)
    requires x != [] && Last(x) == "" && (|x| > 1 ==> x[|x| - 2] == "") && r != [] && y != []
    ensures Reads(Glue(x, r), y, lead, Glue(x, NormLines(Glue(r, y))))
  {
    lead := |x| - 1;
    var p := x[..lead];
    GlueLead(x, p, r);
    GlueLead(x, p, NormLines(Glue(r, y)));
    ReadsTail(p, r, y);
  }

  /** What has been split off ends in a blank line, so the tail starts a line of its own. */
  lemma ReadsText(gone: string, rest: string, chunk: string) returns (lead: nat)
    requires Last(Lines(gone)) == "" && (|Lines(gone)| > 1 ==> Lines(gone)[|Lines(gone)| - 2] == "")
    ensures Reads(Lines(gone + rest), Lines(chunk), lead, Lines(gone + Normalize(rest + chunk)))
  {
    LinesConcat(gone, rest);
    LinesConcat(rest, chunk);
    LinesConcat(gone, Normalize(rest + chunk));
    LinesNormalize(rest + chunk);
    lead := ReadsGlued(Lines(gone), Lines(rest), Lines(chunk));
  }

  /** The lines before `lead` have been split off, up to a blank line; the others are still in the tail. */
  lemma ReadLines(chunks: seq<string>, chunk: string) returns (lead: nat)
    ensures Reads(Lines(Full(Feed(chunks))), Lines(chunk), lead, Lines(Full(Feed(chunks + [chunk]))))
  {
    var c := Feed(chunks);
    UnsplitLines(c.frames);
    FeedStep(chunks, chunk);
    lead := ReadsText(Unsplit(c.frames), c.rest, chunk);
  }

  /** What a stream has read, next to the text itself: every line that has ended has lost its first carriage return. */
  ghost predicate Follows(f: seq<string>, t: seq<string>) {
    && |f| == |t| > 0 && Last(f) == Last(t)
    && forall i :: 0 <= i < |t| - 1 ==> Core(f[i]) == Core(t[i]) && |f[i]| <= |DropCr(t[i])|
  }

  lemma FollowsGrows(f: seq<string>, t: seq<string>, y: seq<string>, lead: nat, h: seq<string>)
    requires Follows(f, t) && Reads(f, y, lead, h)
    ensures Follows(h, Glue(t, y))
  {
    var g, u := Glue(f, y), Glue(t, y);
    forall i | 0 <= i < |u| - 1 ensures Core(h[i]) == Core(u[i]) && |h[i]| <= |DropCr(u[i])| {
      if i < |f| - 1 {
        assert g[i] == f[i] && u[i] == t[i];
      } else {
        assert g[i] == u[i];
      }
    }
  }

  lemma {:induction false} StreamFollows(chunks: seq<string>)
    ensures Follows(Lines(Full(Feed(chunks))), Lines(Concat(chunks)))
  {
    if chunks == [] {
      assert Full(Feed(chunks)) == "" == Concat(chunks);
    } else {
      var init, chunk := chunks[..|chunks| - 1], chunks[|chunks| - 1];
      assert chunks == init + [chunk];
      StreamFollows(init);
      var lead := ReadLines(init, chunk);
      LinesConcat(Concat(init), chunk);
      FollowsGrows(Lines(Full(Feed(init))), Lines(Concat(init)), Lines(chunk), lead, Lines(Full(Feed(chunks))));
    }
  }

  lemma DropCrCore(line: string)
    ensures Core(DropCr(line)) == Core(line)
  {
  }

  lemma FollowsIsBelow(f: seq<string>, t: seq<string>)
    requires Follows(f, t)
    ensures Below(f, NormLines(t))
  {
    var n := NormLines(t);
    forall i | 0 <= i < |n| ensures Core(f[i]) == Core(n[i]) && |f[i]| <= |n[i]| {
      DropCrCore(t[i]);
    }
  }

  /** Whatever the cutting, the lines of a stream are those of the text normalised once, up to carriage returns. */
  lemma StreamIsBelow(chunks: seq<string>)
    ensures Below(Lines(Full(Feed(chunks))), Lines(Normalize(Concat(chunks))))
  {
    StreamFollows(chunks);
    LinesNormalize(Concat(chunks));
    FollowsIsBelow(Lines(Full(Feed(chunks))), Lines(Concat(chunks)));
  }

  // ----- paragraphs: what the frames carry, read off the lines -----

  function Nonempty(data: string): seq<string> {
    if data == "" then [] else [data]
  }

  /** The data of each run of lines without a blank one between them. */
  function Paragraphs(lines: seq<string>, sofar: string): seq<string> {
    if lines == [] then Nonempty(sofar)
    else if lines[0] == "" then Nonempty(sofar) + Paragraphs(lines[1..], "")
    else Paragraphs(lines[1..], sofar + LineData(lines[0]))
  }

  /** The data of one frame. */
  function FrameData(frame: string): string {
    Data(Lines(frame))
  }

  /** Those that are not empty. */
  function Carried(data: seq<string>): seq<string> {
    if data == [] then [] else Nonempty(data[0]) + Carried(data[1..])
  }

  function MapAll(f: string -> string, xs: seq<string>): (r: seq<string>)
    ensures |r| == |xs|
  {
    seq(|xs|, i requires 0 <= i < |xs| => f(xs[i]))
  }

  function AllData(frames: seq<string>): seq<string> {
    MapAll(FrameData, frames)
  }

  /** What the frames carry: their data, where there is any. */
  function Payloads(frames: seq<string>): seq<string> {
    Carried(AllData(frames))
  }

  lemma {:induction false} ParagraphsBreak(a: seq<string>, b: seq<string>, sofar: string)
    ensures Paragraphs(a + [""] + b, sofar) == Paragraphs(a, sofar) + Paragraphs(b, "")
  {
    var x := a + [""] + b;
    if a == [] {
      assert x[1..] == b;
    } else {
      assert x[1..] == a[1..] + [""] + b;
      ParagraphsBreak(a[1..], b, if a[0] == "" then "" else sofar + LineData(a[0]));
    }
  }

  lemma {:induction false} DataConcat(a: seq<string>, b: seq<string>)
    ensures Data(a + b) == Data(a) + Data(b)
  {
    if a == [] {
      assert a + b == b;
    } else {
      assert (a + b)[1..] == a[1..] + b;
      DataConcat(a[1..], b);
    }
  }

  ghost predicate SameData(f: seq<string>, n: seq<string>) {
    |f| == |n| && forall i :: 0 <= i < |n| ==> LineData(f[i]) == LineData(n[i])
  }

  /** No blank line of `f` has data on both sides. */
  ghost predicate Together(f: seq<string>, n: seq<string>, sofar: string) {
    |f| == |n| && forall i :: 0 <= i < |n| && f[i] == "" ==> sofar + Data(n[..i]) == "" || Data(n[i + 1..]) == ""
  }

  lemma TogetherStep(f: seq<string>, n: seq<string>, sofar: string)
    requires f != [] && Together(f, n, sofar)
    ensures Together(f[1..], n[1..], sofar + LineData(n[0]))
    ensures f[0] == "" ==> sofar == "" || Data(n[1..]) == ""
  {
    var next := sofar + LineData(n[0]);
    assert n[..0] == [];
    forall i | 0 <= i < |n[1..]| && f[1..][i] == ""
      ensures next + Data(n[1..][..i]) == "" || Data(n[1..][i + 1..]) == ""
    {
      assert f[i + 1] == "";
      assert n[1..][i + 1..] == n[i + 1 + 1..];
      assert n[..i + 1][1..] == n[1..][..i];
    }
  }

  /** One frame, read as paragraphs, carries what it carries as a frame. */
  lemma {:induction false} FrameParagraphs(f: seq<string>, n: seq<string>, sofar: string)
    requires SameData(f, n) && Together(f, n, sofar)
    ensures Paragraphs(f, sofar) == Nonempty(sofar + Data(n))
  {
    if f == [] {
      assert sofar + "" == sofar;
    } else {
      TogetherStep(f, n, sofar);
      assert SameData(f[1..], n[1..]);
      assert f[0] == "" ==> LineData(n[0]) == "" && sofar + "" == sofar;
      if f[0] == "" {
        NothingBefore(f[1..], n[1..], sofar);
        FrameParagraphs(f[1..], n[1..], "");
        OneOfTwo(sofar, Data(n[1..]));
      } else {
        FrameParagraphs(f[1..], n[1..], sofar + LineData(n[0]));
        ConcatAssoc(sofar, LineData(n[0]), Data(n[1..]));
      }
    }
  }

  lemma OneOfTwo(a: string, b: string)
    requires a == "" || b == ""
    ensures Nonempty(a) + Nonempty("" + b) == Nonempty(a + ("" + b))
  {
    assert "" + b == b && a + "" == a;
    assert a == "" ==> a + b == b;
  }

  lemma NothingBefore(f: seq<string>, n: seq<string>, sofar: string)
    requires Together(f, n, sofar)
    ensures Together(f, n, "")
  {
  }

  /** With data, there is at least one paragraph. */
  lemma {:induction false} SomeParagraph(f: seq<string>, n: seq<string>, sofar: string)
    requires SameData(f, n) && sofar + Data(n) != ""
    ensures |Paragraphs(f, sofar)| >= 1
  {
    if f != [] && (f[0] != "" || sofar == "") {
      assert SameData(f[1..], n[1..]);
      SomeParagraph(f[1..], n[1..], if f[0] == "" then "" else sofar + LineData(n[0]));
    }
  }

  // ----- frame by frame -----

  /** A line of carriage returns alone with data on both sides of it in the same frame. */
  predicate Straddled(lines: seq<string>, i: nat) {
    i < |lines| && OnlyCrs(lines[i]) && Data(lines[..i]) != "" && Data(lines[i + 1..]) != ""
  }

  predicate FrameIsSafe(frame: string) {
    forall i :: 0 <= i < |Lines(frame)| ==> !Straddled(Lines(frame), i)
  }

  predicate AllSafe(frames: seq<string>) {
    forall k :: 0 <= k < |frames| ==> FrameIsSafe(frames[k])
  }

  /** The condition a caller can check on the text as a whole. */
  predicate CutSafe(text: string) {
    AllSafe(TextFrames(text))
  }

  lemma {:induction false} OnlyFirstBlank(s: string)
    requires forall j :: 0 <= j && j + 1 < |s| ==> !(s[j] == '\n' && s[j + 1] == '\n')
    requires s != "" ==> s[|s| - 1] != '\n'
    ensures forall i :: 0 < i < |Lines(s)| ==> Lines(s)[i] != ""
  {
    if s != "" {
      var rest := s[1..];
      forall j | 0 <= j && j + 1 < |rest| ensures !(rest[j] == '\n' && rest[j + 1] == '\n') {
        assert s[j + 1] == rest[j] && s[j + 1 + 1] == rest[j + 1];
      }
      OnlyFirstBlank(s[1..]);
      LinesStart(s[1..]);
      if |s| > 1 {
        assert s[0 + 1] == s[1..][0];
      }
    }
  }

  /** The first frame of a text and what follows it. */
  lemma FirstFrame(s: string) returns (head: string, tail: string)
    requires FirstBreak(s) < |s|
    ensures |tail| < |s| && Lines(s) == Lines(head) + [""] + Lines(tail)
    ensures Split(s) == Cut([head] + Split(tail).frames, Split(tail).rest)
    ensures forall i :: 0 < i < |Lines(head)| ==> Lines(head)[i] != ""
  {
    var i := FirstBreak(s);
    head, tail := s[..i], s[i + 2..];
    AtBreak(s, i);
    LinesBreak(head, tail);
    SplitStep(s, head, tail, Split(tail));
    OnlyFirstBlank(head);
  }

  /** Lines below those of two pieces with a blank line between them are two such pieces themselves. */
  lemma BelowPieces(f: seq<string>, x: seq<string>, y: seq<string>) returns (a: seq<string>, b: seq<string>)
    requires Below(f, x + [""] + y)
    ensures f == a + [""] + b && Below(a, x) && Below(b, y)
    ensures f == x + [""] + y ==> a == x && b == y
    ensures Paragraphs(f, "") == Paragraphs(a, "") + Paragraphs(b, "")
  {
    var n := x + [""] + y;
    a, b := f[..|x|], f[|x| + 1..];
    assert |f[|x|]| <= |n[|x|]| == 0;
    forall i | 0 <= i < |x| ensures Core(a[i]) == Core(x[i]) && |a[i]| <= |x[i]| {
      assert a[i] == f[i] && x[i] == n[i];
    }
    forall i | 0 <= i < |y| ensures Core(b[i]) == Core(y[i]) && |b[i]| <= |y[i]| {
      assert b[i] == f[|x| + 1 + i] && y[i] == n[|x| + 1 + i];
    }
    assert n[..|x|] == x && n[|x| + 1..] == y;
    assert f == a + [""] + b;
    ParagraphsBreak(a, b, "");
  }

  lemma MapConcat(f: string -> string, xs: seq<string>, ys: seq<string>)
    ensures MapAll(f, xs + ys) == MapAll(f, xs) + MapAll(f, ys)
  {
  }

  lemma AllDataOne(frame: string)
    ensures AllData([frame]) == [FrameData(frame)]
  {
  }

  lemma CarriedCons(d: string, data: seq<string>)
    ensures Carried([d] + data) == Nonempty(d) + Carried(data)
  {
    assert ([d] + data)[1..] == data;
  }

  lemma PayloadsCons(head: string, frames: seq<string>)
    ensures Payloads([head] + frames) == Nonempty(FrameData(head)) + Payloads(frames)
  {
    MapConcat(FrameData, [head], frames);
    AllDataOne(head);
    CarriedCons(FrameData(head), AllData(frames));
  }

  lemma HeadIsTogether(a: seq<string>, x: seq<string>)
    requires Below(a, x) && forall i :: 0 < i < |x| ==> x[i] != ""
    requires a == x || forall i :: 0 <= i < |x| ==> !Straddled(x, i)
    ensures SameData(a, x) && Together(a, x, "")
  {
    BelowMeans(a, x);
    assert Data(x[..0]) == "";
    forall i | 0 <= i < |x| && a[i] == "" ensures "" + Data(x[..i]) == "" || Data(x[i + 1..]) == "" {
      if i > 0 {
        assert x[i] != "";
        assert OnlyCrs(x[i]);
        assert !Straddled(x, i);
      }
    }
  }

  lemma {:induction false} BlankParagraphs(f: seq<string>)
    requires forall i :: 0 <= i < |f| ==> f[i] == ""
    ensures Paragraphs(f, "") == []
  {
    if f != [] {
      BlankParagraphs(f[1..]);
    }
  }

  predicate RestIsBlank(rest: string) {
    rest == "" || rest == "\n"
  }

  lemma BlankRest(f: seq<string>, rest: string)
    requires RestIsBlank(rest) && Below(f, Lines(rest))
    ensures Paragraphs(f, "") == []
  {
    if rest == "\n" {
      LinesAt("", "");
      assert "\n" + "" == rest;
    }
    assert forall i :: 0 <= i < |f| ==> |f[i]| <= |Lines(rest)[i]| == 0;
    BlankParagraphs(f);
  }

  lemma HeadParagraphs(a: seq<string>, head: string)
    requires Below(a, Lines(head)) && (forall i :: 0 < i < |Lines(head)| ==> Lines(head)[i] != "")
    requires a == Lines(head) || FrameIsSafe(head)
    ensures Paragraphs(a, "") == Nonempty(FrameData(head))
  {
    HeadIsTogether(a, Lines(head));
    FrameParagraphs(a, Lines(head), "");
    assert "" + Data(Lines(head)) == Data(Lines(head));
  }

  /** What the frames of a text carry are the paragraphs of its lines, also after losing harmless carriage returns. */
  lemma {:induction false} SplitParagraphs(f: seq<string>, s: string)
    requires Below(f, Lines(s)) && RestIsBlank(Split(s).rest)
    requires f == Lines(s) || AllSafe(Split(s).frames)
    ensures Paragraphs(f, "") == Payloads(Split(s).frames)
    decreases |s|
  {
    if FirstBreak(s) == |s| {
      BlankRest(f, s);
    } else {
      var head, tail := FirstFrame(s);
      var a, b := BelowPieces(f, Lines(head), Lines(tail));
      SafePieces(head, Split(tail).frames);
      HeadParagraphs(a, head);
      SplitParagraphs(b, tail);
      PayloadsCons(head, Split(tail).frames);
    }
  }

  lemma SafePieces(head: string, frames: seq<string>)
    ensures AllSafe([head] + frames) ==> FrameIsSafe(head) && AllSafe(frames)
  {
    var all := [head] + frames;
    if AllSafe(all) {
      assert FrameIsSafe(all[0]);
      forall k | 0 <= k < |frames| ensures FrameIsSafe(frames[k]) {
        assert FrameIsSafe(all[k + 1]);
      }
    }
  }

  lemma HeadNotFewer(a: seq<string>, x: seq<string>)
    requires Below(a, x)
    ensures |Paragraphs(a, "")| >= |Nonempty(Data(x))|
  {
    BelowMeans(a, x);
    if Data(x) != "" {
      SomeParagraph(a, x, "");
    }
  }

  /** Losing carriage returns never joins what two frames carry. */
  lemma {:induction false} NeverFewer(f: seq<string>, s: string)
    requires Below(f, Lines(s))
    ensures |Paragraphs(f, "")| >= |Payloads(Split(s).frames)|
    decreases |s|
  {
    if FirstBreak(s) < |s| {
      var head, tail := FirstFrame(s);
      var a, b := BelowPieces(f, Lines(head), Lines(tail));
      HeadNotFewer(a, Lines(head));
      NeverFewer(b, tail);
      PayloadsCons(head, Split(tail).frames);
    }
  }

  lemma BelowSlices(a: seq<string>, x: seq<string>, i: nat)
    requires Below(a, x) && i < |x|
    ensures SameData(a[..i], x[..i]) && SameData(a[i + 1..], x[i + 1..])
  {
    BelowMeans(a, x);
  }

  lemma AroundBlank(a: seq<string>, i: nat)
    requires i < |a| && a[i] == ""
    ensures a == a[..i] + [""] + a[i + 1..]
  {
  }

  lemma SplitFrame(a: seq<string>, x: seq<string>, i: nat)
    requires Below(a, x) && Straddled(x, i) && a[i] == ""
    ensures |Paragraphs(a, "")| >= 2
  {
    BelowSlices(a, x, i);
    TwoSides(a[..i], x[..i], a[i + 1..], x[i + 1..]);
    AroundBlank(a, i);
  }

  lemma TwoSides(a: seq<string>, x: seq<string>, b: seq<string>, y: seq<string>)
    requires SameData(a, x) && SameData(b, y) && Data(x) != "" && Data(y) != ""
    ensures |Paragraphs(a + [""] + b, "")| >= 2
  {
    SomeParagraph(a, x, "");
    SomeParagraph(b, y, "");
    ParagraphsBreak(a, b, "");
  }

  /** Once line `m` of `n` is blank there are more than `few` paragraphs. */
  ghost predicate MoreWhenBlank(n: seq<string>, m: nat, few: nat)
    requires m < |n|
  {
    forall f :: Below(f, n) && f[m] == "" ==> |Paragraphs(f, "")| > few
  }

  /** A line of carriage returns with data behind it that, once blank, makes more than `few` paragraphs. */
  ghost predicate BreaksLines(n: seq<string>, m: nat, few: nat) {
    m < |n| && OnlyCrs(n[m]) && Data(n[m + 1..]) != "" && MoreWhenBlank(n, m, few)
  }

  /** The line that makes a text unsafe: once it is blank, more is carried than by the frames of the text. */
  ghost predicate Breaks(s: string, m: nat) {
    BreaksLines(Lines(s), m, |Payloads(Split(s).frames)|)
  }

  /** A text whose first frame is `head`, the rest being `tail`. */
  ghost predicate Begins(s: string, head: string, tail: string) {
    Lines(s) == Lines(head) + [""] + Lines(tail) && Split(s).frames == [head] + Split(tail).frames
  }

  lemma DataBehind(x: seq<string>, y: seq<string>, i: nat)
    requires i < |x| && Data(x[i + 1..]) != ""
    ensures Data((x + [""] + y)[i + 1..]) != ""
  {
    assert (x + [""] + y)[i + 1..] == x[i + 1..] + ([""] + y);
    DataConcat(x[i + 1..], [""] + y);
  }

  lemma MoreHere(x: seq<string>, y: seq<string>, tail: string, i: nat)
    requires Straddled(x, i) && y == Lines(tail)
    ensures MoreWhenBlank(x + [""] + y, i, |Nonempty(Data(x))| + |Payloads(Split(tail).frames)|)
  {
    forall f | Below(f, x + [""] + y) && f[i] == ""
      ensures |Paragraphs(f, "")| > |Nonempty(Data(x))| + |Payloads(Split(tail).frames)|
    {
      var a, b := BelowPieces(f, x, y);
      SplitFrame(a, x, i);
      NeverFewer(b, tail);
    }
  }

  lemma BreaksHere(x: seq<string>, y: seq<string>, tail: string, i: nat)
    requires Straddled(x, i) && y == Lines(tail)
    ensures BreaksLines(x + [""] + y, i, |Nonempty(Data(x))| + |Payloads(Split(tail).frames)|)
  {
    DataBehind(x, y, i);
    MoreHere(x, y, tail, i);
  }

  lemma BreaksWhen(s: string, n: seq<string>, m: nat, few: nat)
    requires n == Lines(s) && few == |Payloads(Split(s).frames)| && BreaksLines(n, m, few)
    ensures Breaks(s, m)
  {
  }

  lemma PayloadCount(s: string, head: string, tail: string)
    requires Begins(s, head, tail)
    ensures |Payloads(Split(s).frames)| == |Nonempty(FrameData(head))| + |Payloads(Split(tail).frames)|
  {
    PayloadsCons(head, Split(tail).frames);
  }

  lemma LaterLine(x: seq<string>, y: seq<string>, m: nat)
    requires m < |y|
    ensures (x + [""] + y)[|x| + 1 + m] == y[m]
    ensures (x + [""] + y)[|x| + 1 + m + 1..] == y[m + 1..]
  {
  }

  lemma LaterMore(f: seq<string>, x: seq<string>, y: seq<string>, m: nat, few: nat)
    requires m < |y| && Below(f, x + [""] + y) && f[|x| + 1 + m] == "" && MoreWhenBlank(y, m, few)
    ensures |Paragraphs(f, "")| > |Nonempty(Data(x))| + few
  {
    var a, b := BelowPieces(f, x, y);
    LaterLine(a, b, m);
    HeadNotFewer(a, x);
  }

  lemma MoreLater(x: seq<string>, y: seq<string>, later: nat, few: nat, m: nat)
    requires later < |y| && MoreWhenBlank(y, later, few) && m == |x| + 1 + later
    ensures MoreWhenBlank(x + [""] + y, m, |Nonempty(Data(x))| + few)
  {
    forall f | Below(f, x + [""] + y) && f[m] == ""
      ensures |Paragraphs(f, "")| > |Nonempty(Data(x))| + few
    {
      LaterMore(f, x, y, later, few);
    }
  }

  lemma LaterCrs(x: seq<string>, y: seq<string>, later: nat, m: nat)
    requires later < |y| && OnlyCrs(y[later]) && Data(y[later + 1..]) != "" && m == |x| + 1 + later
    ensures m < |x + [""] + y| && OnlyCrs((x + [""] + y)[m]) && Data((x + [""] + y)[m + 1..]) != ""
  {
    LaterLine(x, y, later);
  }

  lemma BreaksLater(x: seq<string>, y: seq<string>, later: nat, few: nat) returns (m: nat)
    requires BreaksLines(y, later, few)
    ensures BreaksLines(x + [""] + y, m, |Nonempty(Data(x))| + few)
  {
    m := |x| + 1 + later;
    LaterCrs(x, y, later, m);
    MoreLater(x, y, later, few, m);
  }

  lemma UnsafePiece(head: string, frames: seq<string>)
    requires !AllSafe([head] + frames) && FrameIsSafe(head)
    ensures !AllSafe(frames)
  {
    var all := [head] + frames;
    var k :| 0 <= k < |all| && !FrameIsSafe(all[k]);
    assert all[k] == frames[k - 1];
  }

  lemma StraddledIn(head: string) returns (i: nat)
    requires !FrameIsSafe(head)
    ensures Straddled(Lines(head), i)
  {
    i :| 0 <= i < |Lines(head)| && Straddled(Lines(head), i);
  }

  lemma UnsafeHere(s: string, head: string, tail: string) returns (m: nat)
    requires Begins(s, head, tail) && !FrameIsSafe(head)
    ensures Breaks(s, m)
  {
    var x, y := Lines(head), Lines(tail);
    m := StraddledIn(head);
    BreaksHere(x, y, tail, m);
    PayloadCount(s, head, tail);
    BreaksWhen(s, x + [""] + y, m, |Nonempty(Data(x))| + |Payloads(Split(tail).frames)|);
  }

  lemma UnsafeLater(s: string, head: string, tail: string, later: nat) returns (m: nat)
    requires Begins(s, head, tail) && Breaks(tail, later)
    ensures Breaks(s, m)
  {
    var x, y := Lines(head), Lines(tail);
    var few := |Payloads(Split(tail).frames)|;
    m := BreaksLater(x, y, later, few);
    PayloadCount(s, head, tail);
    BreaksWhen(s, x + [""] + y, m, |Nonempty(Data(x))| + few);
  }

  lemma {:induction false} Unsafe(s: string) returns (m: nat)
    requires !AllSafe(Split(s).frames)
    ensures Breaks(s, m)
    decreases |s|
  {
    var head, tail := FirstFrame(s);
    if FrameIsSafe(head) {
      UnsafePiece(head, Split(tail).frames);
      var later := Unsafe(tail);
      m := UnsafeLater(s, head, tail, later);
    } else {
      m := UnsafeHere(s, head, tail);
    }
  }

  // ----- the flush -----

  lemma FlushedEnds(text: string)
    ensures var x := Normalize(text + FLUSH); |x| >= 2 && x[|x| - 2] == '\n' && x[|x| - 1] == '\n'
  {
    if EndsCr(text) {
      CutCrLf(text, FLUSH);
      NormalizeCutCrLf(text[..|text| - 1], FLUSH[1..]);
      assert FLUSH[1..] == "\n" && Normalize("\n") == "\n" by { assert "\n"[1..] == ""; }
    } else {
      NormalizeConcat(text, FLUSH);
      assert Normalize(FLUSH) == FLUSH by {
        assert FLUSH[1..] == "\n" && "\n"[1..] == "";
      }
    }
  }

  lemma NoBreakAtEnd(r: string)
    requires FirstBreak(r) == |r|
    ensures |r| >= 2 ==> !(r[|r| - 2] == '\n' && r[|r| - 1] == '\n')
  {
  }

  lemma LastOf(g: string, r: string)
    ensures |r| >= 1 ==> r[|r| - 1] == (g + r)[|g + r| - 1]
    ensures |r| >= 2 ==> r[|r| - 2] == (g + r)[|g + r| - 2]
  {
  }

  /** After the flush at most a line feed is left over. */
  lemma FlushLeavesBlank(text: string)
    ensures RestIsBlank(Split(Normalize(text + FLUSH)).rest)
  {
    var x := Normalize(text + FLUSH);
    var r := Split(x).rest;
    FlushedEnds(text);
    SplitUnsplit(x);
    NoBreakAtEnd(r);
    LastOf(Unsplit(Split(x).frames), r);
  }

  lemma StreamSplits(chunks: seq<string>)
    ensures var x := Full(Feed(chunks + [FLUSH]));
            && Split(x).frames == StreamFrames(chunks) && RestIsBlank(Split(x).rest)
            && Below(Lines(x), Lines(Normalize(Concat(chunks) + FLUSH)))
            && Paragraphs(Lines(x), "") == Payloads(StreamFrames(chunks))
  {
    var all := chunks + [FLUSH];
    assert all[..|chunks|] == chunks;
    FeedIsSplit(all);
    FlushLeavesBlank(Feed(chunks).rest);
    StreamIsBelow(all);
    SplitParagraphs(Lines(Full(Feed(all))), Full(Feed(all)));
  }

  // ----- safe texts -----

  lemma SafeCarriesTheSame(chunks: seq<string>)
    requires CutSafe(Concat(chunks))
    ensures Payloads(StreamFrames(chunks)) == Payloads(TextFrames(Concat(chunks)))
  {
    StreamSplits(chunks);
    FlushLeavesBlank(Concat(chunks));
    SplitParagraphs(Lines(Full(Feed(chunks + [FLUSH]))), Normalize(Concat(chunks) + FLUSH));
  }

  // ----- unsafe texts -----

  /** A text cut behind the line feed that ends its line `m`. */
  lemma {:induction false} CutAfter(text: string, m: nat) returns (a: string, b: string)
    requires m < |Lines(text)| - 1
    ensures text == a + b && Lines(a) == Lines(text)[..m + 1] + [""]
  {
    if text[0] == '\n' && m == 0 {
      a, b := "\n", text[1..];
      LinesAt("", "");
    } else {
      var rest := text[1..];
      var a', b' := CutAfter(rest, if text[0] == '\n' then m - 1 else m);
      a, b := [text[0]] + a', b';
      assert a[1..] == a';
    }
  }

  ghost predicate EndsWithCrs(x: seq<string>, m: nat) {
    |x| == m + 2 && x[m + 1] == "" && Core(x[m]) == ""
  }

  lemma EmptyReadLines(f: seq<string>, lead: nat, h: seq<string>, m: nat)
    requires Reads(f, [""], lead, h) && EndsWithCrs(f, m) && f[m] != ""
    ensures EndsWithCrs(h, m) && |h[m]| < |f[m]|
  {
    assert f[m + 1] + "" == f[m + 1];
    assert Glue(f, [""]) == f;
    assert lead <= m;
  }

  lemma EmptyRead(chunks: seq<string>, m: nat)
    requires EndsWithCrs(Lines(Full(Feed(chunks))), m) && Lines(Full(Feed(chunks)))[m] != ""
    ensures EndsWithCrs(Lines(Full(Feed(chunks + [""]))), m)
    ensures |Lines(Full(Feed(chunks + [""])))[m]| < |Lines(Full(Feed(chunks)))[m]|
    ensures Concat(chunks + [""]) == Concat(chunks)
  {
    var lead := ReadLines(chunks, "");
    EmptyReadLines(Lines(Full(Feed(chunks))), lead, Lines(Full(Feed(chunks + [""]))), m);
    assert (chunks + [""])[..|chunks|] == chunks;
  }

  /** Empty reads take the carriage returns off the last line in the tail, one by one. */
  lemma {:induction false} Drained(chunks: seq<string>, m: nat) returns (more: seq<string>)
    requires EndsWithCrs(Lines(Full(Feed(chunks))), m)
    ensures EndsWithCrs(Lines(Full(Feed(more))), m) && Lines(Full(Feed(more)))[m] == ""
    ensures Concat(more) == Concat(chunks)
    decreases |Lines(Full(Feed(chunks)))[m]|
  {
    if Lines(Full(Feed(chunks)))[m] == "" {
      more := chunks;
    } else {
      EmptyRead(chunks, m);
      more := Drained(chunks + [""], m);
    }
  }

  lemma BlankStays(chunks: seq<string>, chunk: string, m: nat)
    requires m < |Lines(Full(Feed(chunks)))| - 1 && Lines(Full(Feed(chunks)))[m] == ""
    ensures m < |Lines(Full(Feed(chunks + [chunk])))| - 1 && Lines(Full(Feed(chunks + [chunk])))[m] == ""
  {
    var lead := ReadLines(chunks, chunk);
  }

  lemma One(text: string)
    ensures Concat([text]) == text
  {
    assert [text][..0] == [];
  }

  lemma CutAndDrain(text: string, m: nat) returns (chunks: seq<string>)
    requires m < |Lines(text)| - 1 && Core(Lines(text)[m]) == ""
    ensures Concat(chunks) == text
    ensures m < |Lines(Full(Feed(chunks + [FLUSH])))| && Lines(Full(Feed(chunks + [FLUSH])))[m] == ""
  {
    var a, b := CutAfter(text, m);
    One(a);
    StreamFollows([a]);
    var more := Drained([a], m);
    BlankStays(more, b, m);
    BlankStays(more + [b], FLUSH, m);
    chunks := more + [b];
    assert chunks[..|more|] == more;
  }

  lemma InsideLines(lines: seq<string>, n: seq<string>, m: nat)
    requires n == NormLines(lines + ["", ""]) && m < |n| && OnlyCrs(n[m]) && Data(n[m + 1..]) != ""
    ensures m < |lines| - 1 && Core(lines[m]) == ""
  {
    var t := lines + ["", ""];
    assert forall i :: |lines| <= i < |n| ==> n[i] == DropCr(t[i]) == "";
    BlankTail(n, |lines|, m);
    OnlyCrsCore(n[m]);
    DropCrCore(t[m]);
  }

  lemma FlushedLines(text: string)
    ensures Lines(text + FLUSH) == Lines(text) + ["", ""]
  {
    LinesBreak(text, "");
    assert text + FLUSH + "" == text + FLUSH;
  }

  /** The line that breaks a text lies inside the text, not in the flush. */
  lemma InsideText(text: string, m: nat)
    requires Breaks(Normalize(text + FLUSH), m)
    ensures m < |Lines(text)| - 1 && Core(Lines(text)[m]) == ""
  {
    LinesNormalize(text + FLUSH);
    FlushedLines(text);
    InsideLines(Lines(text), Lines(Normalize(text + FLUSH)), m);
  }

  lemma BlankTail(n: seq<string>, k: nat, m: nat)
    requires m < |n| && forall i :: k <= i < |n| ==> n[i] == ""
    ensures m + 1 >= k ==> Data(n[m + 1..]) == ""
  {
    if m + 1 >= k {
      BlankHasNoData(n[m + 1..]);
    }
  }

  lemma {:induction false} BlankHasNoData(x: seq<string>)
    requires forall i :: 0 <= i < |x| ==> x[i] == ""
    ensures Data(x) == ""
  {
    if x != [] {
      BlankHasNoData(x[1..]);
    }
  }

  lemma UnsafeCarriesMore(text: string) returns (chunks: seq<string>)
    requires !CutSafe(text)
    ensures Concat(chunks) == text && |Payloads(StreamFrames(chunks))| > |Payloads(TextFrames(text))|
  {
    var m := Unsafe(Normalize(text + FLUSH));
    InsideText(text, m);
    chunks := CutAndDrain(text, m);
    StreamSplits(chunks);
  }

  // ----- what the chat element is told -----

  function Decoded(decode: Decoder, payloads: seq<string>): seq<Event> {
    if payloads == [] then []
    else (match decode(payloads[0]) case Some(e) => [e] case None => []) + Decoded(decode, payloads[1..])
  }

  lemma EventIsDecoded(decode: Decoder, frame: string)
    ensures EventOf(decode, frame) == Decoded(decode, Nonempty(FrameData(frame)))
  {
    var d := Data(Lines(frame));
    assert [d][1..] == [];
  }

  lemma {:induction false} DecodedConcat(decode: Decoder, a: seq<string>, b: seq<string>)
    ensures Decoded(decode, a + b) == Decoded(decode, a) + Decoded(decode, b)
  {
    if a == [] {
      assert a + b == b;
    } else {
      assert (a + b)[1..] == a[1..] + b;
      DecodedConcat(decode, a[1..], b);
    }
  }

  lemma {:induction false} CarriedSnoc(data: seq<string>, d: string)
    ensures Carried(data + [d]) == Carried(data) + Nonempty(d)
  {
    if data == [] {
      assert [] + [d] == [d] + [];
      CarriedCons(d, []);
    } else {
      CarriedSnoc(data[1..], d);
      assert data + [d] == [data[0]] + (data[1..] + [d]);
      CarriedCons(data[0], data[1..] + [d]);
    }
  }

  lemma PayloadsSnoc(frames: seq<string>, frame: string)
    ensures Payloads(frames + [frame]) == Payloads(frames) + Nonempty(FrameData(frame))
  {
    MapConcat(FrameData, frames, [frame]);
    AllDataOne(frame);
    CarriedSnoc(AllData(frames), FrameData(frame));
  }

  lemma EventsSnoc(decode: Decoder, init: seq<string>, last: string)
    requires EventsOf(decode, init) == Decoded(decode, Payloads(init))
    ensures EventsOf(decode, init + [last]) == Decoded(decode, Payloads(init) + Nonempty(FrameData(last)))
  {
    EventIsDecoded(decode, last);
    DecodedConcat(decode, Payloads(init), Nonempty(FrameData(last)));
    assert (init + [last])[..|init|] == init;
  }

  /** The events of a stream are decided by what its frames carry. */
  lemma {:induction false} EventsAreDecoded(decode: Decoder, frames: seq<string>)
    ensures EventsOf(decode, frames) == Decoded(decode, Payloads(frames))
  {
    if frames != [] {
      var init, last := frames[..|frames| - 1], frames[|frames| - 1];
      EventsAreDecoded(decode, init);
      EventsSnoc(decode, init, last);
      PayloadsSnoc(init, last);
      assert frames == init + [last];
    }
  }

  /** A decoder that takes every payload for the result of a tool call. */
  function ToolResults(data: string): Option<Event> {
    Some(ToolResult)
  }

  lemma {:induction false} OneEach(payloads: seq<string>)
    ensures |Decoded(ToolResults, payloads)| == |payloads|
    ensures forall i :: 0 <= i < |payloads| ==> Decoded(ToolResults, payloads)[i] == ToolResult
  {
    if payloads != [] {
      OneEach(payloads[1..]);
    }
  }

  lemma {:induction false} OneChipEach(t: Turn, es: seq<Event>)
    requires forall i :: 0 <= i < |es| ==> es[i] == ToolResult
    ensures |HandleAll(t, es).chips| == |t.chips| + |es|
  {
    if es != [] {
      OneChipEach(t, es[..|es| - 1]);
    }
  }

  /** For an unsafe text there are a cutting and a decoder for which the chat element shows something else. */
  lemma SomeCuttingShows(text: string, t: Turn) returns (chunks: seq<string>)
    requires !CutSafe(text)
    ensures Concat(chunks) == text
    ensures HandleAll(t, EventsOf(ToolResults, StreamFrames(chunks)))
         != HandleAll(t, EventsOf(ToolResults, TextFrames(text)))
  {
    chunks := UnsafeCarriesMore(text);
    EventsAreDecoded(ToolResults, StreamFrames(chunks));
    EventsAreDecoded(ToolResults, TextFrames(text));
    OneEach(Payloads(StreamFrames(chunks)));
    OneEach(Payloads(TextFrames(text)));
    OneChipEach(t, EventsOf(ToolResults, StreamFrames(chunks)));
    OneChipEach(t, EventsOf(ToolResults, TextFrames(text)));
  }

  /** The chat element ends up in the same state for every cutting and every decoder. */
  ghost predicate CuttingIsImmaterial(text: string, t: Turn) {
    forall decode, chunks :: Concat(chunks) == text ==>
      HandleAll(t, EventsOf(decode, StreamFrames(chunks))) == HandleAll(t, EventsOf(decode, TextFrames(text)))
  }

  lemma SafeIsImmaterial(text: string, t: Turn)
    requires CutSafe(text)
    ensures CuttingIsImmaterial(text, t)
  {
    forall decode, chunks | Concat(chunks) == text
      ensures HandleAll(t, EventsOf(decode, StreamFrames(chunks))) == HandleAll(t, EventsOf(decode, TextFrames(text)))
    {
      SameEvents(decode, chunks);
    }
  }

  lemma SameEvents(decode: Decoder, chunks: seq<string>)
    requires CutSafe(Concat(chunks))
    ensures EventsOf(decode, StreamFrames(chunks)) == EventsOf(decode, TextFrames(Concat(chunks)))
  {
    SafeCarriesTheSame(chunks);
    EventsAreDecoded(decode, StreamFrames(chunks));
    EventsAreDecoded(decode, TextFrames(Concat(chunks)));
  }

  lemma MaterialWhen(text: string, t: Turn, decode: Decoder, chunks: seq<string>)
    requires Concat(chunks) == text
    requires HandleAll(t, EventsOf(decode, StreamFrames(chunks))) != HandleAll(t, EventsOf(decode, TextFrames(text)))
    ensures !CuttingIsImmaterial(text, t)
  {
  }

  lemma UnsafeIsMaterial(text: string, t: Turn)
    requires !CutSafe(text)
    ensures !CuttingIsImmaterial(text, t)
  {
    var chunks := SomeCuttingShows(text, t);
    MaterialWhen(text, t, ToolResults, chunks);
  }

  /**
   * Where a text is cut is immaterial to the chat element exactly when no frame of it has a line of
   * carriage returns alone with data before it and behind it.
   */
  lemma CuttingMattersExactly(text: string, t: Turn)
    ensures CuttingIsImmaterial(text, t) <==> CutSafe(text)
  {
    if CutSafe(text) {
      SafeIsImmaterial(text, t);
    } else {
      UnsafeIsMaterial(text, t);
    }
  }

  /** A text without CR CR LF is safe, whatever its frames. */
  lemma NoCrCrLfIsSafe(text: string)
    ensures !HasCrCrLf(text) ==> CutSafe(text)
  {
    if !HasCrCrLf(text) && !CutSafe(text) {
      var chunks := UnsafeCarriesMore(text);
      CuttingDoesNotMatter(chunks);
    }
  }

  // ----- a family of texts that are not safe -----

  lemma {:induction false} OneLine(p: string)
    requires '\n' !in p
    ensures Lines(p) == [p]
  {
    if p != "" {
      OneLine(p[1..]);
      assert [p[0]] + p[1..] == p;
    }
  }

  lemma ExampleText(p: string, q: string)
    ensures p + "\n\r\r\n" + q == p + ("\n" + ("\r\r" + ("\n" + q)))
  {
    assert "\n\r\r\n" == "\n" + ("\r\r" + "\n");
  }

  lemma ExampleLines(p: string, q: string)
    requires '\n' !in p && '\n' !in q
    ensures Lines(p + "\n\r\r\n" + q + FLUSH) == [p, "\r\r", q, "", ""]
  {
    var text := p + "\n\r\r\n" + q;
    ExampleText(p, q);
    OneLine(p);
    OneLine("\r\r");
    OneLine(q);
    LinesAt("\r\r", q);
    LinesAt(p, "\r\r" + ("\n" + q));
    assert Lines(text) == [p] + ["\r\r"] + [q];
    LinesBreak(text, "");
    assert text + FLUSH + "" == text + FLUSH;
  }

  lemma LastParagraph(q: string, sofar: string)
    requires q != "" && sofar + LineData(q) != ""
    ensures |Paragraphs([q, "", ""], sofar)| == 1
  {
    assert [q, "", ""][1..] == ["", ""] && ["", ""][1..] == [""];
    BlankParagraphs([""]);
  }

  lemma TwoParagraphs(p: string, gap: string, q: string)
    requires LineData(p) != "" && LineData(q) != "" && LineData(gap) == ""
    ensures |Paragraphs([p, gap, q, "", ""], "")| == if gap == "" then 2 else 1
  {
    var after := [q, "", ""];
    assert [p, gap, q, "", ""][1..] == [gap] + after;
    assert ([gap] + after)[1..] == after;
    assert "" + LineData(p) == LineData(p) && LineData(p) + "" == LineData(p);
    LastParagraph(q, if gap == "" then "" else LineData(p));
  }

  lemma ExampleBelow(p: string, q: string)
    ensures Below([p, "", q, "", ""], [p, "\r", q, "", ""])
    ensures LineData("\r") == ""
  {
    assert "\r"[..0] == "";
    assert Core("\r") == "";
  }

  lemma DropCrKeeps(p: string)
    ensures LineData(DropCr(p)) == LineData(p)
  {
    if EndsCr(p) {
      DropCrData(p);
    }
  }

  /** Two data lines around a line of two carriage returns: one event for the whole text, two for some cutting. */
  lemma StraddledTextIsUnsafe(p: string, q: string)
    requires '\n' !in p && '\n' !in q && LineData(p) != "" && LineData(q) != ""
    ensures !CutSafe(p + "\n\r\r\n" + q)
  {
    var text := p + "\n\r\r\n" + q;
    var s := Normalize(text + FLUSH);
    var p', q' := DropCr(p), DropCr(q);
    ExampleLines(p, q);
    LinesNormalize(text + FLUSH);
    assert DropCr("\r\r") == "\r" && DropCr("") == "";
    assert Lines(s) == [p', "\r", q', "", ""];
    DropCrKeeps(p);
    DropCrKeeps(q);
    ExampleBelow(p', q');
    TwoParagraphs(p', "\r", q');
    TwoParagraphs(p', "", q');
    FlushLeavesBlank(text);
    SplitParagraphs(Lines(s), s);
    if CutSafe(text) {
      SplitParagraphs([p', "", q', "", ""], s);
    }
  }
}
