/** The incremental SSE parser of embed/widgets/nubi-chat.js and the fold over its events, over decoded text chunks. */
module Sse {
  import opened Wrappers

  // ----- parseSseBuffer, in three library steps -----

  /** `s.replace(/\r\n/g, '\n')` */
  function Normalize(s: string): string {
    if s == "" then ""
    else if |s| > 1 && s[0] == '\r' && s[1] == '\n' then "\n" + Normalize(s[2..])
    else [s[0]] + Normalize(s[1..])
  }

  /** The index of the first blank line, or the length when there is none. */
  function FirstBreak(s: string): (i: nat)
    ensures i <= |s|
    ensures i < |s| ==> i + 1 < |s| && s[i] == '\n' && s[i + 1] == '\n'
    ensures forall j :: 0 <= j < i && j + 1 < |s| ==> !(s[j] == '\n' && s[j + 1] == '\n')
  {
    if |s| < 2 then |s|
    else if s[0] == '\n' && s[1] == '\n' then 0
    else
      var i := FirstBreak(s[1..]);
      assert forall j :: 1 <= j && j + 1 < |s| ==> s[j] == s[1..][j - 1] && s[j + 1] == s[1..][j];
      1 + i
  }

  datatype Cut = Cut(frames: seq<string>, rest: string)

  /** `s.split('\n\n')` with the last piece taken off. */
  function Split(s: string): Cut
    decreases |s|
  {
    var i := FirstBreak(s);
    if i == |s| then Cut([], s)
    else
      var r := Split(s[i + 2..]);
      Cut([s[..i]] + r.frames, r.rest)
  }

  // ----- the payload of a frame -----

  /** `frame.split('\n')` */
  function Lines(s: string): (r: seq<string>)
    ensures r != []
  {
    if s == "" then [""]
    else if s[0] == '\n' then [""] + Lines(s[1..])
    else
      var r := Lines(s[1..]);
      [[s[0]] + r[0]] + r[1..]
  }

  /** White space and line terminators in the sense of JavaScript's trim. */
  predicate IsSpace(c: char) {
    || c == ' ' || '\t' <= c <= '\r' || c == '\U{A0}' || c == '\U{FEFF}' || c == '\U{1680}'
    || '\U{2000}' <= c <= '\U{200A}' || c == '\U{2028}' || c == '\U{2029}' || c == '\U{202F}'
    || c == '\U{205F}' || c == '\U{3000}'
  }

  function TrimStart(s: string): string {
    if s != "" && IsSpace(s[0]) then TrimStart(s[1..]) else s
  }

  function TrimEnd(s: string): string {
    if s != "" && IsSpace(s[|s| - 1]) then TrimEnd(s[..|s| - 1]) else s
  }

  /** The trimmed payloads of the data lines, joined without separator. */
  function Data(lines: seq<string>): string {
    if lines == [] then ""
    else (if "data:" <= lines[0] then TrimEnd(TrimStart(lines[0][5..])) else "") + Data(lines[1..])
  }

  // ----- events -----

  /** A parsed frame by its `type`; `Other` covers unknown types and values that are not objects. */
  datatype Event =
    | Token(text: Option<string>)
    | ToolUse(name: Option<string>)
    | ToolResult
    | Message(chatId: Option<string>, messageId: Option<string>, spec: Option<string>)
    | Error(message: Option<string>)
    | Other

  /** JSON.parse followed by a look at the fields; None when the text is not JSON. */
  type Decoder = string -> Option<Event>

  /** Frames without data lines and frames that are not JSON give no event. */
  function EventOf(decode: Decoder, frame: string): seq<Event> {
    var data := Data(Lines(frame));
    if data == "" then []
    else
      match decode(data)
      case Some(e) => [e]
      case None => []
  }

  function EventsOf(decode: Decoder, frames: seq<string>): seq<Event> {
    if frames == [] then [] else EventsOf(decode, frames[..|frames| - 1]) + EventOf(decode, frames[|frames| - 1])
  }

  lemma {:induction false} EventsConcat(decode: Decoder, a: seq<string>, b: seq<string>)
    ensures EventsOf(decode, a + b) == EventsOf(decode, a) + EventsOf(decode, b)
  {
    if b == [] {
      assert a + b == a;
    } else {
      var c := b[..|b| - 1];
      assert (a + b)[..|a + b| - 1] == a + c;
      EventsConcat(decode, a, c);
    }
  }

  lemma EventsTake(decode: Decoder, frames: seq<string>, i: nat)
    requires i < |frames|
    ensures EventsOf(decode, frames[..i + 1]) == EventsOf(decode, frames[..i]) + EventOf(decode, frames[i])
  {
    assert frames[..i + 1][..i] == frames[..i];
  }

  method ParseSseBuffer(decode: Decoder, buffer: string) returns (events: seq<Event>, rest: string)
    ensures events == EventsOf(decode, Split(Normalize(buffer)).frames)
    ensures rest == Split(Normalize(buffer)).rest
  {
    events := [];
    var normalized := Normalize(buffer);
    var cut := Split(normalized);
    rest := cut.rest;
    for i := 0 to |cut.frames|
      invariant events == EventsOf(decode, cut.frames[..i])
    {
      EventsTake(decode, cut.frames, i);
      var data := Data(Lines(cut.frames[i]));
      if data != "" {
        var parsed := decode(data);
        if parsed.Some? {
          events := events + [parsed.value];
        }
      }
    }
    assert cut.frames[..|cut.frames|] == cut.frames;
  }

  // ----- a whole stream, cut into chunks -----

  function Concat(chunks: seq<string>): string {
    if chunks == [] then "" else Concat(chunks[..|chunks| - 1]) + chunks[|chunks| - 1]
  }

  /** The frames found so far and the tail that is kept for the next read. */
  function Feed(chunks: seq<string>): Cut {
    if chunks == [] then Cut([], "")
    else
      var before := Feed(chunks[..|chunks| - 1]);
      var now := Split(Normalize(before.rest + chunks[|chunks| - 1]));
      Cut(before.frames + now.frames, now.rest)
  }

  const FLUSH := "\n\n"

  /** All frames of a stream: the reads in order, then the flush of the tail. */
  function StreamFrames(chunks: seq<string>): seq<string> {
    Feed(chunks + [FLUSH]).frames
  }

  /** What the stream means: its text normalised once, closed by a blank line, and split. */
  function TextFrames(text: string): seq<string> {
    Split(Normalize(text + FLUSH)).frames
  }

  // ----- splitting -----

  lemma FirstBreakAppend(a: string, b: string)
    requires FirstBreak(a) < |a|
    ensures FirstBreak(a + b) == FirstBreak(a)
  {
    var i, j := FirstBreak(a), FirstBreak(a + b);
    assert (a + b)[i] == a[i] && (a + b)[i + 1] == a[i + 1];
  }

  lemma SplitStep(s: string, head: string, tail: string, c: Cut)
    requires FirstBreak(s) == |head| < |s|
    requires s[..|head|] == head && s[|head| + 2..] == tail
    requires Split(tail) == c
    ensures Split(s) == Cut([head] + c.frames, c.rest)
  {
  }

  lemma AppendPieces(a: string, b: string, i: nat)
    requires i + 2 <= |a|
    ensures (a + b)[..i] == a[..i] && (a + b)[i + 2..] == a[i + 2..] + b
  {
  }

  lemma CutAssoc(h: string, a: Cut, t: Cut)
    ensures Cut([h] + (a.frames + t.frames), t.rest) == Cut(([h] + a.frames) + t.frames, t.rest)
  {
  }

  /** Frames that are complete stay what they are when more text arrives. */
  lemma {:induction false} SplitAppend(a: string, b: string)
    ensures var s, t := Split(a), Split(Split(a).rest + b);
            Split(a + b) == Cut(s.frames + t.frames, t.rest)
    decreases |a|
  {
    var i := FirstBreak(a);
    if i == |a| {
      assert [] + Split(a + b).frames == Split(a + b).frames;
    } else {
      var tail := a[i + 2..];
      var u, t := Split(tail), Split(Split(tail).rest + b);
      FirstBreakAppend(a, b);
      AppendPieces(a, b, i);
      SplitAppend(tail, b);
      SplitStep(a, a[..i], tail, u);
      SplitStep(a + b, a[..i], tail + b, Cut(u.frames + t.frames, t.rest));
      CutAssoc(a[..i], u, t);
    }
  }

  /** The text of complete frames with their blank lines. */
  function Unsplit(frames: seq<string>): string {
    if frames == [] then "" else frames[0] + FLUSH + Unsplit(frames[1..])
  }

  lemma UnsplitStep(head: string, frames: seq<string>)
    ensures Unsplit([head] + frames) == head + FLUSH + Unsplit(frames)
  {
    assert ([head] + frames)[1..] == frames;
  }

  lemma AtBreak(s: string, i: nat)
    requires i + 1 < |s| && s[i] == '\n' && s[i + 1] == '\n'
    ensures s == s[..i] + FLUSH + s[i + 2..]
  {
  }

  lemma ConcatAssoc(a: string, b: string, c: string)
    ensures a + (b + c) == a + b + c
  {
  }

  lemma {:induction false} SplitUnsplit(s: string)
    ensures s == Unsplit(Split(s).frames) + Split(s).rest
    ensures FirstBreak(Split(s).rest) == |Split(s).rest|
    decreases |s|
  {
    var i := FirstBreak(s);
    if i == |s| {
      assert Unsplit([]) + s == s;
    } else {
      var tail := s[i + 2..];
      var r := Split(tail);
      SplitUnsplit(tail);
      AtBreak(s, i);
      SplitStep(s, s[..i], tail, r);
      UnsplitStep(s[..i], r.frames);
      ConcatAssoc(s[..i] + FLUSH, Unsplit(r.frames), r.rest);
    }
  }

  /** Either nothing has been split off yet, or the last character split off is a line feed. */
  lemma {:induction false} UnsplitEnds(frames: seq<string>)
    ensures Unsplit(frames) == "" || Unsplit(frames)[|Unsplit(frames)| - 1] == '\n'
  {
    if frames != [] {
      UnsplitEnds(frames[1..]);
    }
  }

  lemma {:induction false} UnsplitConcat(a: seq<string>, b: seq<string>)
    ensures Unsplit(a + b) == Unsplit(a) + Unsplit(b)
  {
    if a == [] {
      assert a + b == b;
    } else {
      assert (a + b)[1..] == a[1..] + b;
      UnsplitConcat(a[1..], b);
      ConcatAssoc(a[0] + FLUSH, Unsplit(a[1..]), Unsplit(b));
    }
  }

  // ----- normalising -----

  /** Carriage return followed by line feed, counted. */
  function CrLfs(s: string): nat {
    if |s| < 2 then 0 else (if s[0] == '\r' && s[1] == '\n' then 1 else 0) + CrLfs(s[1..])
  }

  /** Whether the text contains CR CR LF, which normalising turns into a new CR LF. */
  ghost predicate HasCrCrLf(s: string) {
    exists i :: 0 <= i && i + 2 < |s| && s[i] == '\r' && s[i + 1] == '\r' && s[i + 2] == '\n'
  }

  predicate EndsCr(s: string) {
    s != "" && s[|s| - 1] == '\r'
  }

  predicate StartsLf(s: string) {
    s != "" && s[0] == '\n'
  }

  /** `n` ends as `t` does. */
  predicate EndsAlike(n: string, t: string) {
    (EndsCr(n) <==> EndsCr(t)) && (n == "" <==> t == "")
  }

  lemma EndsAlikeCons(c: char, n: string, t: string)
    requires EndsAlike(n, t)
    ensures EndsAlike([c] + n, [c] + t)
  {
  }

  lemma EndsAlikeCrLf(n: string, t: string, s: string)
    requires EndsAlike(n, t) && s == "\r\n" + t
    ensures EndsAlike("\n" + n, s)
  {
  }

  /** Normalising keeps a carriage return at the end, and empties nothing. */
  lemma {:induction false} NormalizeEnds(s: string)
    ensures EndsAlike(Normalize(s), s)
    decreases |s|
  {
    if |s| > 1 && s[0] == '\r' && s[1] == '\n' {
      NormalizeEnds(s[2..]);
      assert s == "\r\n" + s[2..];
      EndsAlikeCrLf(Normalize(s[2..]), s[2..], s);
    } else if s != "" {
      NormalizeEnds(s[1..]);
      assert s == [s[0]] + s[1..];
      EndsAlikeCons(s[0], Normalize(s[1..]), s[1..]);
    }
  }

  lemma CrLfStep(s: string)
    requires |s| > 1 && s[0] == '\r' && s[1] == '\n'
    ensures Normalize(s) == "\n" + Normalize(s[2..])
  {
  }

  /** Normalising works piece by piece unless a CR LF is cut in two. */
  lemma {:induction false} NormalizeConcat(a: string, b: string)
    requires !(EndsCr(a) && StartsLf(b))
    ensures Normalize(a + b) == Normalize(a) + Normalize(b)
    decreases |a|
  {
    if a == "" {
      assert a + b == b;
    } else if |a| > 1 && a[0] == '\r' && a[1] == '\n' {
      assert (a + b)[2..] == a[2..] + b;
      NormalizeConcat(a[2..], b);
      CrLfStep(a + b);
      ConcatAssoc("\n", Normalize(a[2..]), Normalize(b));
    } else {
      assert (a + b)[1..] == a[1..] + b;
      NormalizeConcat(a[1..], b);
      assert Normalize(a + b) == [a[0]] + Normalize(a[1..] + b);
      ConcatAssoc([a[0]], Normalize(a[1..]), Normalize(b));
    }
  }

  lemma {:induction false} NormalizeIdentity(s: string)
    requires CrLfs(s) == 0
    ensures Normalize(s) == s
  {
    if s != "" {
      NormalizeIdentity(s[1..]);
    }
  }

  lemma {:induction false} CrLfsConcat(a: string, b: string)
    ensures CrLfs(a + b) == CrLfs(a) + CrLfs(b) + if EndsCr(a) && StartsLf(b) then 1 else 0
  {
    if a == "" {
      assert a + b == b;
    } else {
      assert (a + b)[1..] == a[1..] + b;
      CrLfsConcat(a[1..], b);
      if |a| == 1 {
        assert a[1..] == "";
      }
    }
  }

  /** Without CR CR LF, one pass of normalising leaves no CR LF behind. */
  lemma {:induction false} NormalizedHasNoCrLf(s: string)
    requires !HasCrCrLf(s)
    ensures CrLfs(Normalize(s)) == 0
    decreases |s|
  {
    if |s| > 1 && s[0] == '\r' && s[1] == '\n' {
      HasInSuffix(s, 2);
      NormalizedHasNoCrLf(s[2..]);
      CrLfsConcat("\n", Normalize(s[2..]));
    } else if s != "" {
      HasInSuffix(s, 1);
      NormalizedHasNoCrLf(s[1..]);
      CrLfsConcat([s[0]], Normalize(s[1..]));
      NormalizedStart(s[1..]);
      assert |s| > 2 && s[0] == '\r' && s[1] == '\r' && s[2] == '\n' ==> HasCrCrLf(s) by {
        if |s| > 2 && s[0] == '\r' && s[1] == '\r' && s[2] == '\n' {
          assert s[0 + 1] == '\r' && s[0 + 2] == '\n';
        }
      }
    }
  }

  lemma HasInSuffix(s: string, k: nat)
    requires k <= |s|
    ensures HasCrCrLf(s[k..]) ==> HasCrCrLf(s)
  {
    if HasCrCrLf(s[k..]) {
      var i :| 0 <= i && i + 2 < |s[k..]| && s[k..][i] == '\r' && s[k..][i + 1] == '\r' && s[k..][i + 2] == '\n';
      assert s[i + k] == '\r' && s[i + k + 1] == '\r' && s[i + k + 2] == '\n';
    }
  }

  lemma NormalizedStart(s: string)
    ensures StartsLf(Normalize(s)) ==> StartsLf(s) || (|s| > 1 && s[0] == '\r' && s[1] == '\n')
  {
  }

  lemma NormalizeCutCrLf(c: string, d: string)
    ensures Normalize(c + "\r\n" + d) == Normalize(c) + ("\n" + Normalize(d))
    ensures Normalize(c + "\r") == Normalize(c) + "\r"
  {
    var crlf := "\r\n" + d;
    assert crlf[2..] == d;
    CrLfStep(crlf);
    ConcatAssoc(c, "\r\n", d);
    NormalizeConcat(c, crlf);
    NormalizeConcat(c, "\r");
    assert Normalize("\r") == "\r" by { assert "\r"[1..] == ""; }
  }

  lemma CutCrLf(a: string, b: string)
    requires EndsCr(a) && StartsLf(b)
    ensures a == a[..|a| - 1] + "\r"
    ensures a + b == a[..|a| - 1] + "\r\n" + b[1..]
  {
  }

  /** A text that is already free of CR LF may be normalised again in front of more text. */
  lemma NormalizeTwice(a: string, b: string)
    requires CrLfs(Normalize(a)) == 0
    ensures Normalize(Normalize(a) + b) == Normalize(a + b)
  {
    var n := Normalize(a);
    NormalizeEnds(a);
    if EndsCr(a) && StartsLf(b) {
      var c, d := a[..|a| - 1], b[1..];
      CutCrLf(a, b);
      NormalizeCutCrLf(c, d);
      CutCrLf(n, b);
      assert n[..|n| - 1] == Normalize(c);
      CrLfsConcat(Normalize(c), "\r");
      NormalizeIdentity(Normalize(c));
      NormalizeCutCrLf(Normalize(c), d);
    } else {
      NormalizeIdentity(n);
      NormalizeConcat(n, b);
      NormalizeConcat(a, b);
    }
  }

  // ----- what a run has read so far -----

  /** The frames found so far and the tail, put back together. */
  function Full(c: Cut): string {
    Unsplit(c.frames) + c.rest
  }

  /** Frames that split back into themselves. */
  ghost predicate Clean(frames: seq<string>) {
    Split(Unsplit(frames)) == Cut(frames, "")
  }

  lemma FirstBreakPrefix(s: string, t: string, i: nat)
    requires FirstBreak(s) == i < |s| && i + 2 <= |t| && t[..i + 2] == s[..i + 2]
    ensures FirstBreak(t) == i
  {
    assert forall k :: 0 <= k < i + 2 ==> s[..i + 2][k] == s[k] && t[..i + 2][k] == t[k];
    assert t[i] == '\n' && t[i + 1] == '\n';
  }

  lemma HeadOf(head: string, tail: string)
    ensures (head + FLUSH + tail)[..|head|] == head
    ensures (head + FLUSH + tail)[|head| + 2..] == tail
    ensures (head + FLUSH + tail)[..|head| + 2] == head + FLUSH
  {
  }

  lemma {:induction false} SplitIsClean(s: string)
    ensures Clean(Split(s).frames)
    decreases |s|
  {
    var i := FirstBreak(s);
    if i == |s| {
      assert Split(s).frames == [];
    } else {
      var tail := s[i + 2..];
      var r := Split(tail);
      SplitIsClean(tail);
      SplitStep(s, s[..i], tail, r);
      UnsplitStep(s[..i], r.frames);
      AtBreak(s, i);
      HeadOf(s[..i], tail);
      HeadOf(s[..i], Unsplit(r.frames));
      var u := s[..i] + FLUSH + Unsplit(r.frames);
      FirstBreakPrefix(s, u, i);
      SplitStep(u, s[..i], Unsplit(r.frames), Cut(r.frames, ""));
    }
  }

  lemma CleanConcat(a: seq<string>, b: seq<string>)
    requires Clean(a) && Clean(b)
    ensures Clean(a + b)
  {
    UnsplitConcat(a, b);
    SplitAppend(Unsplit(a), Unsplit(b));
    assert "" + Unsplit(b) == Unsplit(b);
  }

  lemma {:induction false} FeedIsClean(chunks: seq<string>)
    ensures Clean(Feed(chunks).frames)
    ensures FirstBreak(Feed(chunks).rest) == |Feed(chunks).rest|
  {
    if chunks != [] {
      var before := Feed(chunks[..|chunks| - 1]);
      var text := Normalize(before.rest + chunks[|chunks| - 1]);
      FeedIsClean(chunks[..|chunks| - 1]);
      SplitIsClean(text);
      SplitUnsplit(text);
      CleanConcat(before.frames, Split(text).frames);
    }
  }

  /** The state of a run is the split of all it has read. */
  lemma FeedIsSplit(chunks: seq<string>)
    ensures Split(Full(Feed(chunks))) == Feed(chunks)
  {
    var c := Feed(chunks);
    FeedIsClean(chunks);
    SplitAppend(Unsplit(c.frames), c.rest);
    assert "" + c.rest == c.rest;
    assert c.frames + [] == c.frames;
  }

  lemma FeedStep(chunks: seq<string>, chunk: string)
    ensures var c := Feed(chunks);
            Full(Feed(chunks + [chunk])) == Unsplit(c.frames) + Normalize(c.rest + chunk)
  {
    var c := Feed(chunks);
    assert (chunks + [chunk])[..|chunks|] == chunks;
    var text := Normalize(c.rest + chunk);
    SplitUnsplit(text);
    UnsplitConcat(c.frames, Split(text).frames);
    ConcatAssoc(Unsplit(c.frames), Unsplit(Split(text).frames), Split(text).rest);
  }

  // ----- no CR CR LF: every cutting gives the same frames -----

  /** Reading one more chunk is normalising everything once more, as long as no CR LF is left over. */
  lemma StepIsNormalize(chunks: seq<string>, chunk: string)
    requires CrLfs(Full(Feed(chunks))) == 0
    ensures Full(Feed(chunks + [chunk])) == Normalize(Full(Feed(chunks)) + chunk)
  {
    var c := Feed(chunks);
    var g := Unsplit(c.frames);
    FeedStep(chunks, chunk);
    UnsplitEnds(c.frames);
    CrLfsConcat(g, c.rest);
    NormalizeIdentity(g);
    NormalizeConcat(g, c.rest + chunk);
    ConcatAssoc(g, c.rest, chunk);
  }

  lemma {:induction false} FullIsNormalized(chunks: seq<string>)
    requires !HasCrCrLf(Concat(chunks))
    ensures Full(Feed(chunks)) == Normalize(Concat(chunks))
  {
    if chunks != [] {
      var init, last := chunks[..|chunks| - 1], chunks[|chunks| - 1];
      assert chunks == init + [last];
      HasInPrefix(Concat(init), last);
      FullIsNormalized(init);
      NormalizedHasNoCrLf(Concat(init));
      StepIsNormalize(init, last);
      NormalizeTwice(Concat(init), last);
    }
  }

  lemma HasInPrefix(a: string, b: string)
    ensures HasCrCrLf(a) ==> HasCrCrLf(a + b)
  {
    if HasCrCrLf(a) {
      var i :| 0 <= i && i + 2 < |a| && a[i] == '\r' && a[i + 1] == '\r' && a[i + 2] == '\n';
      assert (a + b)[i] == '\r' && (a + b)[i + 1] == '\r' && (a + b)[i + 2] == '\n';
    }
  }

  lemma CuttingDoesNotMatter(chunks: seq<string>)
    requires !HasCrCrLf(Concat(chunks))
    ensures StreamFrames(chunks) == TextFrames(Concat(chunks))
  {
    var text := Concat(chunks);
    FullIsNormalized(chunks);
    NormalizedHasNoCrLf(text);
    StepIsNormalize(chunks, FLUSH);
    NormalizeTwice(text, FLUSH);
    FeedIsSplit(chunks + [FLUSH]);
  }

  // ----- the chat element -----

  /** What the element shows and announces during one turn. */
  datatype Dispatch =
    | Announced(chatId: Option<string>, messageId: Option<string>, text: string, spec: Option<string>)
    | Proposed(draft: string, chatId: Option<string>)

  datatype Turn = Turn(
    bubble: string, chips: seq<string>, error: Option<string>, chatId: Option<string>, dispatched: seq<Dispatch>)

  /** JavaScript's `a || b` for an optional string. */
  function OrElse(a: Option<string>, b: string): string {
    if a.Some? && a.value != "" then a.value else b
  }

  /** `_handleFrame` */
  function Handle(t: Turn, e: Event): Turn {
    match e
    case Token(text) => if text.Some? then t.(bubble := t.bubble + text.value) else t
    case ToolUse(name) => t.(chips := t.chips + [OrElse(name, "tool")])
    case ToolResult => t.(chips := t.chips + ["result"])
    case Message(chatId, messageId, spec) => Finalize(t, chatId, messageId, spec)
    case Error(message) => t.(error := Some(OrElse(message, "The assistant hit an error.")))
    case Other => t
  }

  /** `_finalizeTurn`; a spec is given only when it is truthy. */
  function Finalize(t: Turn, chatId: Option<string>, messageId: Option<string>, spec: Option<string>): Turn {
    var kept := if chatId.Some? && chatId.value != "" then chatId else t.chatId;
    var told := if chatId.Some? then chatId else kept;
    var out := t.dispatched + [Announced(told, messageId, t.bubble, spec)];
    t.(chatId := kept, dispatched := if spec.Some? then out + [Proposed(spec.value, told)] else out)
  }

  function HandleAll(t: Turn, es: seq<Event>): Turn {
    if es == [] then t else Handle(HandleAll(t, es[..|es| - 1]), es[|es| - 1])
  }

  lemma {:induction false} HandleConcat(t: Turn, a: seq<Event>, b: seq<Event>)
    ensures HandleAll(t, a + b) == HandleAll(HandleAll(t, a), b)
  {
    if b == [] {
      assert a + b == a;
    } else {
      assert (a + b)[..|a + b| - 1] == a + b[..|b| - 1];
      HandleConcat(t, a, b[..|b| - 1]);
    }
  }

  // ----- a whole turn -----

  /** How the request of a turn goes: refused or failed, read to its end, or broken off while it is read. */
  datatype Reply =
    | Refused(message: string)
    | Streamed(chunks: seq<string>)
    | Broken(chunks: seq<string>, message: string)

  function ErrorText(message: string): string {
    if message != "" then message else "Request failed."
  }

  /** The conversation's identifier as the request body holds it. */
  function RequestId(t: Turn): Option<string> {
    if t.chatId.Some? && t.chatId.value != "" then t.chatId else None
  }

  /** A turn starts with an empty bubble and without an error. */
  function AfterSend(decode: Decoder, t: Turn, reply: Reply): Turn {
    var start := t.(bubble := "", error := None);
    match reply
    case Refused(message) => start.(error := Some(ErrorText(message)))
    case Streamed(chunks) => HandleAll(start, EventsOf(decode, StreamFrames(chunks)))
    case Broken(chunks, message) =>
      HandleAll(start, EventsOf(decode, Feed(chunks).frames)).(error := Some(ErrorText(message)))
  }

  class NubiChat {
    var bubble: string
    var chips: seq<string>
    var error: Option<string>
    var chatId: Option<string>
    var dispatched: seq<Dispatch>

    ghost function View(): Turn
      reads this
    {
      Turn(bubble, chips, error, chatId, dispatched)
    }

    constructor ()
      ensures View() == Turn("", [], None, None, [])
    {
      bubble, chips, error, chatId, dispatched := "", [], None, None, [];
    }

    method HandleFrame(e: Event)
      modifies this
      ensures View() == Handle(old(View()), e)
    {
      match e {
        case Token(text) =>
          if text.Some? {
            bubble := bubble + text.value;
          }
        case ToolUse(name) => chips := chips + [OrElse(name, "tool")];
        case ToolResult => chips := chips + ["result"];
        case Message(id, messageId, spec) => FinalizeTurn(id, messageId, spec);
        case Error(message) => error := Some(OrElse(message, "The assistant hit an error."));
        case Other =>
      }
    }

    method FinalizeTurn(id: Option<string>, messageId: Option<string>, spec: Option<string>)
      modifies this
      ensures View() == Finalize(old(View()), id, messageId, spec)
    {
      if id.Some? && id.value != "" {
        chatId := id;
      }
      dispatched := dispatched + [Announced(if id.Some? then id else chatId, messageId, bubble, spec)];
      if spec.Some? {
        dispatched := dispatched + [Proposed(spec.value, if id.Some? then id else chatId)];
      }
    }

    method HandleEvents(es: seq<Event>)
      modifies this
      ensures View() == HandleAll(old(View()), es)
    {
      for i := 0 to |es|
        invariant View() == HandleAll(old(View()), es[..i])
      {
        assert es[..i + 1][..i] == es[..i];
        HandleFrame(es[i]);
      }
      assert es[..|es|] == es;
    }

    /** The read loop: the tail of what has been read is returned. */
    method ReadChunks(decode: Decoder, chunks: seq<string>) returns (buffer: string)
      modifies this
      ensures buffer == Feed(chunks).rest
      ensures View() == HandleAll(old(View()), EventsOf(decode, Feed(chunks).frames))
    {
      ghost var start := View();
      buffer := "";
      for i := 0 to |chunks|
        invariant buffer == Feed(chunks[..i]).rest
        invariant View() == HandleAll(start, EventsOf(decode, Feed(chunks[..i]).frames))
      {
        assert chunks[..i + 1][..i] == chunks[..i];
        buffer := buffer + chunks[i];
        var events, rest := ParseSseBuffer(decode, buffer);
        ghost var found := Split(Normalize(buffer)).frames;
        EventsConcat(decode, Feed(chunks[..i]).frames, found);
        HandleConcat(start, EventsOf(decode, Feed(chunks[..i]).frames), events);
        buffer := rest;
        HandleEvents(events);
      }
      assert chunks[..|chunks|] == chunks;
    }

    /** Reads a stream to its end; the element ends up as if it had handled the stream's events in order. */
    method ConsumeStream(decode: Decoder, chunks: seq<string>)
      modifies this
      ensures View() == HandleAll(old(View()), EventsOf(decode, StreamFrames(chunks)))
      ensures !HasCrCrLf(Concat(chunks)) ==>
                View() == HandleAll(old(View()), EventsOf(decode, TextFrames(Concat(chunks))))
    {
      ghost var start := View();
      var buffer := ReadChunks(decode, chunks);
      assert (chunks + [FLUSH])[..|chunks|] == chunks;
      var events, rest := ParseSseBuffer(decode, buffer + FLUSH);
      EventsConcat(decode, Feed(chunks).frames, Split(Normalize(buffer + FLUSH)).frames);
      HandleConcat(start, EventsOf(decode, Feed(chunks).frames), events);
      HandleEvents(events);
      if !HasCrCrLf(Concat(chunks)) {
        CuttingDoesNotMatter(chunks);
      }
    }

    /** `_send`, for a message that is not empty: the identifier that goes out with the request, and the new state. */
    method Send(decode: Decoder, reply: Reply) returns (requestId: Option<string>)
      modifies this
      ensures requestId == RequestId(old(View()))
      ensures View() == AfterSend(decode, old(View()), reply)
    {
      error := None;
      bubble := "";
      requestId := if chatId.Some? && chatId.value != "" then chatId else None;
      match reply {
        case Refused(message) => error := Some(ErrorText(message));
        case Streamed(chunks) => ConsumeStream(decode, chunks);
        case Broken(chunks, message) =>
          var tail := ReadChunks(decode, chunks);
          error := Some(ErrorText(message));
      }
    }
  }

  // ----- what is announced -----

  /** The texts of the token events, concatenated. */
  function TokenText(es: seq<Event>): string {
    if es == [] then ""
    else
      var last := es[|es| - 1];
      TokenText(es[..|es| - 1]) + (if last.Token? && last.text.Some? then last.text.value else "")
  }

  lemma {:induction false} BubbleIsTokens(t: Turn, es: seq<Event>)
    ensures HandleAll(t, es).bubble == t.bubble + TokenText(es)
  {
    if es == [] {
      assert t.bubble + "" == t.bubble;
    } else {
      BubbleIsTokens(t, es[..|es| - 1]);
    }
  }

  /** One announcement per message event, with the texts of all earlier token events. */
  function Announcements(t: Turn, es: seq<Event>): seq<string> {
    if es == [] then []
    else
      Announcements(t, es[..|es| - 1])
      + (if es[|es| - 1].Message? then [t.bubble + TokenText(es[..|es| - 1])] else [])
  }

  function AnnouncedTexts(ds: seq<Dispatch>): seq<string> {
    if ds == [] then []
    else AnnouncedTexts(ds[..|ds| - 1]) + (if ds[|ds| - 1].Announced? then [ds[|ds| - 1].text] else [])
  }

  lemma AnnouncedStep(ds: seq<Dispatch>, d: Dispatch)
    ensures AnnouncedTexts(ds + [d]) == AnnouncedTexts(ds) + (if d.Announced? then [d.text] else [])
  {
    assert (ds + [d])[..|ds|] == ds;
  }

  lemma AnnouncedAfter(t: Turn, e: Event)
    ensures AnnouncedTexts(Handle(t, e).dispatched)
         == AnnouncedTexts(t.dispatched) + (if e.Message? then [t.bubble] else [])
  {
    match e
    case Message(chatId, messageId, spec) =>
      var kept := if chatId.Some? && chatId.value != "" then chatId else t.chatId;
      var told := if chatId.Some? then chatId else kept;
      var announced := Announced(told, messageId, t.bubble, spec);
      AnnouncedStep(t.dispatched, announced);
      if spec.Some? {
        AnnouncedStep(t.dispatched + [announced], Proposed(spec.value, told));
      }
    case _ =>
      assert AnnouncedTexts(t.dispatched) + [] == AnnouncedTexts(t.dispatched);
  }

  /** The element announces one text per message event: the tokens before it, whatever else came between. */
  lemma {:induction false} AnnouncedTextIsTokens(t: Turn, es: seq<Event>)
    ensures AnnouncedTexts(HandleAll(t, es).dispatched) == AnnouncedTexts(t.dispatched) + Announcements(t, es)
  {
    if es == [] {
      assert AnnouncedTexts(t.dispatched) + [] == AnnouncedTexts(t.dispatched);
    } else {
      var init := es[..|es| - 1];
      AnnouncedTextIsTokens(t, init);
      BubbleIsTokens(t, init);
      AnnouncedAfter(HandleAll(t, init), es[|es| - 1]);
    }
  }
}
