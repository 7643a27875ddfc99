/**
 * What a turn of the chat element of embed/widgets/nubi-chat.js comes to: what the server's frames say, what the
 * element shows and announces for them, and how the conversation's identifier is kept from turn to turn.
 */
module SseTurns {
  import opened Sse
  import opened SseCuts
  import opened Wrappers

  // ----- a turn, component by component, without the fold -----

  /** The last chat_id that is not empty among the message events, or what was kept before. */
  function KeptId(kept: Option<string>, es: seq<Event>): Option<string> {
    if es == [] then kept
    else
      var last := es[|es| - 1];
      if last.Message? && last.chatId.Some? && last.chatId.value != "" then last.chatId
      else KeptId(kept, es[..|es| - 1])
  }

  /** One chip per tool event. */
  function ChipsOf(es: seq<Event>): seq<string> {
    if es == [] then []
    else
      ChipsOf(es[..|es| - 1])
      + match es[|es| - 1]
        case ToolUse(Some(name)) => [if name != "" then name else "tool"]
        case ToolUse(None) => ["tool"]
        case ToolResult => ["result"]
        case _ => []
  }

  /** The last error wins. */
  function ErrorOf(shown: Option<string>, es: seq<Event>): Option<string> {
    if es == [] then shown
    else
      match es[|es| - 1]
      case Error(Some(message)) => Some(if message != "" then message else "The assistant hit an error.")
      case Error(None) => Some("The assistant hit an error.")
      case _ => ErrorOf(shown, es[..|es| - 1])
  }

  /** What one message event tells: its own identifier if it has one, the one kept until then otherwise. */
  function Told(kept: Option<string>, before: seq<Event>, e: Event): seq<Dispatch>
    requires e.Message?
  {
    var id := if e.chatId.Some? then e.chatId else KeptId(kept, before);
    [Announced(id, e.messageId, TokenText(before), e.spec)]
    + if e.spec.Some? then [Proposed(e.spec.value, id)] else []
  }

  /** Message by message, what is announced and proposed for events that start with an empty bubble. */
  function DispatchesOf(kept: Option<string>, es: seq<Event>): seq<Dispatch> {
    if es == [] then []
    else
      var before, last := es[..|es| - 1], es[|es| - 1];
      DispatchesOf(kept, before) + if last.Message? then Told(kept, before, last) else []
  }

  lemma {:induction false} IdIsKept(t: Turn, es: seq<Event>)
    ensures HandleAll(t, es).chatId == KeptId(t.chatId, es)
  {
    if es != [] {
      IdIsKept(t, es[..|es| - 1]);
    }
  }

  lemma {:induction false} ChipsAreShown(t: Turn, es: seq<Event>)
    ensures HandleAll(t, es).chips == t.chips + ChipsOf(es)
  {
    if es != [] {
      ChipsAreShown(t, es[..|es| - 1]);
    }
  }

  lemma {:induction false} LastErrorIsShown(t: Turn, es: seq<Event>)
    ensures HandleAll(t, es).error == ErrorOf(t.error, es)
  {
    if es != [] {
      LastErrorIsShown(t, es[..|es| - 1]);
    }
  }

  lemma {:induction false} DispatchesAreTold(t: Turn, es: seq<Event>)
    requires t.bubble == ""
    ensures HandleAll(t, es).dispatched == t.dispatched + DispatchesOf(t.chatId, es)
  {
    if es != [] {
      var before, last := es[..|es| - 1], es[|es| - 1];
      var u := HandleAll(t, before);
      DispatchesAreTold(t, before);
      IdIsKept(t, before);
      BubbleIsTokens(t, before);
      assert "" + TokenText(before) == TokenText(before);
      if last.Message? {
        assert Handle(u, last).dispatched == u.dispatched + Told(t.chatId, before, last);
      }
    }
  }

  /** The whole state after a turn's events, each component by itself. */
  lemma TurnExactly(t: Turn, es: seq<Event>)
    requires t.bubble == ""
    ensures HandleAll(t, es) == Turn(TokenText(es), t.chips + ChipsOf(es), ErrorOf(t.error, es), KeptId(t.chatId, es),
                                     t.dispatched + DispatchesOf(t.chatId, es))
  {
    BubbleIsTokens(t, es);
    assert "" + TokenText(es) == TokenText(es);
    ChipsAreShown(t, es);
    LastErrorIsShown(t, es);
    IdIsKept(t, es);
    DispatchesAreTold(t, es);
  }

  // ----- a conversation -----

  /** What a reply lets the element hear. */
  function Heard(decode: Decoder, reply: Reply): seq<Event> {
    match reply
    case Refused(_) => []
    case Streamed(chunks) => EventsOf(decode, StreamFrames(chunks))
    case Broken(chunks, _) => EventsOf(decode, Feed(chunks).frames)
  }

  function AllHeard(decode: Decoder, replies: seq<Reply>): seq<Event> {
    if replies == [] then []
    else AllHeard(decode, replies[..|replies| - 1]) + Heard(decode, replies[|replies| - 1])
  }

  /** The state after one turn per reply. */
  function AfterTurns(decode: Decoder, t: Turn, replies: seq<Reply>): Turn {
    if replies == [] then t
    else AfterSend(decode, AfterTurns(decode, t, replies[..|replies| - 1]), replies[|replies| - 1])
  }

  lemma {:induction false} KeptConcat(kept: Option<string>, a: seq<Event>, b: seq<Event>)
    ensures KeptId(kept, a + b) == KeptId(KeptId(kept, a), b)
  {
    if b == [] {
      assert a + b == a;
    } else {
      assert (a + b)[..|a + b| - 1] == a + b[..|b| - 1];
      KeptConcat(kept, a, b[..|b| - 1]);
    }
  }

  lemma {:induction false} KeptIsTrue(kept: Option<string>, es: seq<Event>)
    requires kept != Some("")
    ensures KeptId(kept, es) != Some("")
  {
    if es != [] {
      KeptIsTrue(kept, es[..|es| - 1]);
    }
  }

  lemma TurnKeepsId(decode: Decoder, t: Turn, reply: Reply)
    ensures AfterSend(decode, t, reply).chatId == KeptId(t.chatId, Heard(decode, reply))
  {
    IdIsKept(t.(bubble := "", error := None), Heard(decode, reply));
  }

  /**
   * Whatever happens in its turns, a conversation goes on under the last identifier that the server has given
   * in any of them: that is the one every request carries, and a first request carries none.
   */
  lemma {:induction false} ConversationGoesOn(decode: Decoder, t: Turn, replies: seq<Reply>)
    requires t.chatId == None
    ensures AfterTurns(decode, t, replies).chatId == KeptId(None, AllHeard(decode, replies))
    ensures RequestId(AfterTurns(decode, t, replies)) == KeptId(None, AllHeard(decode, replies))
  {
    if replies != [] {
      var before, last := replies[..|replies| - 1], replies[|replies| - 1];
      ConversationGoesOn(decode, t, before);
      TurnKeepsId(decode, AfterTurns(decode, t, before), last);
      KeptConcat(None, AllHeard(decode, before), Heard(decode, last));
    }
    KeptIsTrue(None, AllHeard(decode, replies));
  }

  /** The error shown after a turn: that of a failed request, or else the last one the server told of. */
  function FailureOf(decode: Decoder, reply: Reply): Option<string> {
    match reply
    case Streamed(_) => ErrorOf(None, Heard(decode, reply))
    case Refused(message) => Some(if message == "" then "Request failed." else message)
    case Broken(_, message) => Some(if message == "" then "Request failed." else message)
  }

  /** A turn shows what its own events say and nothing left over from the turn before, other than its chips. */
  lemma TurnStartsAfresh(decode: Decoder, t: Turn, reply: Reply)
    ensures var es, u := Heard(decode, reply), AfterSend(decode, t, reply);
            && u.bubble == TokenText(es) && u.error == FailureOf(decode, reply) && u.chips == t.chips + ChipsOf(es)
            && u.dispatched == t.dispatched + DispatchesOf(t.chatId, es)
  {
    TurnExactly(t.(bubble := "", error := None), Heard(decode, reply));
    assert reply.Refused? ==> HandleAll(t.(bubble := "", error := None), []) == t.(bubble := "", error := None);
  }

  // ----- what the server's frames say -----

  /** A line of a frame: data with blanks around it, or any other field or comment. */
  datatype Line = DataLine(before: string, value: string, after: string) | OtherLine(text: string)

  predicate Blanks(s: string) {
    forall i :: 0 <= i < |s| ==> s[i] == ' ' || s[i] == '\t'
  }

  predicate NoBreaks(s: string) {
    '\n' !in s && '\r' !in s
  }

  /** A line that a server may write. */
  predicate LineOk(l: Line) {
    match l
    case DataLine(before, value, after) =>
      && Blanks(before) && Blanks(after) && NoBreaks(value)
      && (value != "" ==> !IsSpace(value[0]) && !IsSpace(value[|value| - 1]))
    case OtherLine(text) => text != "" && NoBreaks(text) && !("data:" <= text)
  }

  function LineText(l: Line): string {
    match l
    case DataLine(before, value, after) => "data:" + (before + (value + after))
    case OtherLine(text) => text
  }

  predicate FrameOk(lines: seq<Line>) {
    forall i :: 0 <= i < |lines| ==> LineOk(lines[i])
  }

  /** The data of a frame: the values of its data lines, in order. */
  function ValuesOf(lines: seq<Line>): string {
    if lines == [] then ""
    else (if lines[0].DataLine? then lines[0].value else "") + ValuesOf(lines[1..])
  }

  /** Lines and the blank line that ends a frame, each ended by `cr` and a line feed. */
  function FrameText(lines: seq<Line>, cr: string): string {
    if lines == [] then cr + "\n" else LineText(lines[0]) + cr + "\n" + FrameText(lines[1..], cr)
  }

  /** A whole stream, with line ends LF or CR LF throughout. */
  function ServerText(frames: seq<seq<Line>>, cr: string): string {
    if frames == [] then "" else FrameText(frames[0], cr) + ServerText(frames[1..], cr)
  }

  function AllValues(frames: seq<seq<Line>>): (r: seq<string>)
    ensures |r| == |frames|
  {
    seq(|frames|, i requires 0 <= i < |frames| => ValuesOf(frames[i]))
  }

  // ----- one line -----

  lemma {:induction false} TrimStartBlanks(b: string, s: string)
    requires Blanks(b)
    ensures TrimStart(b + s) == TrimStart(s)
  {
    if b == "" {
      assert b + s == s;
    } else {
      assert (b + s)[1..] == b[1..] + s && IsSpace(b[0]);
      TrimStartBlanks(b[1..], s);
    }
  }

  lemma {:induction false} TrimEndBlanks(s: string, b: string)
    requires Blanks(b)
    ensures TrimEnd(s + b) == TrimEnd(s)
  {
    if b == "" {
      assert s + b == s;
    } else {
      var n := |b| - 1;
      assert (s + b)[..|s + b| - 1] == s + b[..n] && IsSpace(b[n]);
      TrimEndBlanks(s, b[..n]);
    }
  }

  lemma {:induction false} TrimStartAll(b: string)
    requires Blanks(b)
    ensures TrimStart(b) == ""
  {
    TrimStartBlanks(b, "");
    assert b + "" == b;
  }

  lemma ValueIsTrimmed(before: string, value: string, after: string)
    requires LineOk(DataLine(before, value, after))
    ensures TrimEnd(TrimStart(before + (value + after))) == value
  {
    TrimStartBlanks(before, value + after);
    if value == "" {
      assert value + after == after;
      TrimStartAll(after);
    } else {
      assert (value + after)[0] == value[0];
      TrimEndBlanks(value, after);
    }
  }

  lemma BlanksHaveNoBreaks(b: string)
    requires Blanks(b)
    ensures NoBreaks(b)
  {
  }

  lemma LineSays(l: Line)
    requires LineOk(l)
    ensures LineData(LineText(l)) == if l.DataLine? then l.value else ""
    ensures NoBreaks(LineText(l)) && LineText(l) != ""
  {
    if l.DataLine? {
      var rest := l.before + (l.value + l.after);
      ValueIsTrimmed(l.before, l.value, l.after);
      BlanksHaveNoBreaks(l.before);
      BlanksHaveNoBreaks(l.after);
      assert ("data:" + rest)[5..] == rest;
      assert NoBreaks("data:");
    }
  }

  // ----- a stream as lines -----

  function TextsOf(lines: seq<Line>): (r: seq<string>)
    ensures |r| == |lines|
  {
    seq(|lines|, i requires 0 <= i < |lines| => LineText(lines[i]))
  }

  /** The lines of the stream without their line ends. */
  function StreamLines(frames: seq<seq<Line>>): seq<string> {
    if frames == [] then [] else TextsOf(frames[0]) + [""] + StreamLines(frames[1..])
  }

  function WithEnd(lines: seq<string>, cr: string): (r: seq<string>)
    ensures |r| == |lines|
  {
    seq(|lines|, i requires 0 <= i < |lines| => lines[i] + cr)
  }

  predicate IsCr(cr: string) {
    cr == "" || cr == "\r"
  }

  lemma WithEndConcat(a: seq<string>, b: seq<string>, cr: string)
    ensures WithEnd(a + b, cr) == WithEnd(a, cr) + WithEnd(b, cr)
  {
  }

  lemma LineFirst(line: string, cr: string, t: string)
    requires NoBreaks(line) && IsCr(cr)
    ensures Lines(line + cr + "\n" + t) == [line + cr] + Lines(t)
  {
    OneLine(line + cr);
    LinesAt(line + cr, t);
    assert line + cr + "\n" + t == (line + cr) + ("\n" + t);
  }

  lemma FirstOf(x: string, a: seq<string>, b: seq<string>, tail: seq<string>)
    ensures [x] + (a + b + tail) == ([x] + a) + b + tail
  {
  }

  lemma FrameLinesStep(line: string, cr: string, texts: seq<string>, rest: string, tail: seq<string>)
    requires NoBreaks(line) && IsCr(cr) && Lines(rest) == WithEnd(texts, cr) + [cr] + tail
    ensures Lines(line + cr + "\n" + rest) == WithEnd([line] + texts, cr) + [cr] + tail
  {
    LineFirst(line, cr, rest);
    WithEndConcat([line], texts, cr);
    assert WithEnd([line], cr) == [line + cr];
    FirstOf(line + cr, WithEnd(texts, cr), [cr], tail);
  }

  lemma FrameEnd(cr: string, t: string)
    requires IsCr(cr)
    ensures Lines(cr + "\n" + t) == WithEnd([], cr) + [cr] + Lines(t)
  {
    LineFirst("", cr, t);
    assert "" + cr == cr;
  }

  lemma TextsCons(lines: seq<Line>)
    requires lines != []
    ensures TextsOf(lines) == [LineText(lines[0])] + TextsOf(lines[1..])
  {
  }

  lemma {:induction false} FrameLines(lines: seq<Line>, cr: string, t: string)
    requires FrameOk(lines) && IsCr(cr)
    ensures Lines(FrameText(lines, cr) + t) == WithEnd(TextsOf(lines), cr) + [cr] + Lines(t)
  {
    if lines == [] {
      FrameEnd(cr, t);
    } else {
      var rest := FrameText(lines[1..], cr) + t;
      LineSays(lines[0]);
      FrameLines(lines[1..], cr, t);
      FrameLinesStep(LineText(lines[0]), cr, TextsOf(lines[1..]), rest, Lines(t));
      TextsCons(lines);
      assert FrameText(lines, cr) + t == LineText(lines[0]) + cr + "\n" + rest;
    }
  }

  predicate FramesOk(frames: seq<seq<Line>>) {
    forall i :: 0 <= i < |frames| ==> FrameOk(frames[i])
  }

  lemma EndsJoin(texts: seq<string>, more: seq<string>, cr: string, tail: seq<string>)
    ensures WithEnd(texts, cr) + [cr] + (WithEnd(more, cr) + tail) == WithEnd(texts + [""] + more, cr) + tail
  {
    WithEndConcat(texts, [""], cr);
    WithEndConcat(texts + [""], more, cr);
    assert WithEnd([""], cr) == [cr] by { assert "" + cr == cr; }
  }

  lemma {:induction false} ServerLines(frames: seq<seq<Line>>, cr: string, t: string)
    requires FramesOk(frames) && IsCr(cr)
    ensures Lines(ServerText(frames, cr) + t) == WithEnd(StreamLines(frames), cr) + Lines(t)
  {
    if frames == [] {
      assert "" + t == t && WithEnd([], cr) + Lines(t) == Lines(t);
    } else {
      var rest := ServerText(frames[1..], cr) + t;
      ServerLines(frames[1..], cr, t);
      FrameLines(frames[0], cr, rest);
      assert ServerText(frames, cr) + t == FrameText(frames[0], cr) + rest;
      EndsJoin(TextsOf(frames[0]), StreamLines(frames[1..]), cr, Lines(t));
    }
  }

  lemma EndDropped(line: string, cr: string)
    requires '\r' !in line && IsCr(cr)
    ensures DropCr(line + cr) == line
  {
    if cr == "" {
      assert line + cr == line;
    } else {
      assert (line + cr)[..|line|] == line;
    }
  }

  lemma NormalLines(lines: seq<string>, cr: string)
    requires IsCr(cr) && forall i :: 0 <= i < |lines| ==> '\r' !in lines[i]
    ensures NormLines(WithEnd(lines, cr) + ["", "", ""]) == lines + ["", "", ""]
  {
    var all := WithEnd(lines, cr) + ["", "", ""];
    assert DropCr("") == "";
    forall i | 0 <= i < |all| ensures NormLines(all)[i] == (lines + ["", "", ""])[i] {
      if i < |lines| {
        EndDropped(lines[i], cr);
      }
    }
  }

  lemma {:induction false} StreamLinesOk(frames: seq<seq<Line>>)
    requires FramesOk(frames)
    ensures forall i :: 0 <= i < |StreamLines(frames)| ==> '\r' !in StreamLines(frames)[i]
  {
    if frames != [] {
      StreamLinesOk(frames[1..]);
      forall i | 0 <= i < |frames[0]| ensures '\r' !in TextsOf(frames[0])[i] {
        LineSays(frames[0][i]);
      }
    }
  }

  // ----- what it carries -----

  lemma GoOn(text: string, texts: seq<string>, sofar: string, value: string)
    requires text != "" && LineData(text) == value
    ensures Paragraphs([text] + texts, sofar) == Paragraphs(texts, sofar + value)
  {
    assert ([text] + texts)[1..] == texts;
  }

  lemma {:induction false} OneParagraph(lines: seq<Line>, sofar: string)
    requires FrameOk(lines)
    ensures Paragraphs(TextsOf(lines), sofar) == Nonempty(sofar + ValuesOf(lines))
  {
    if lines == [] {
      assert sofar + "" == sofar;
    } else {
      var value := if lines[0].DataLine? then lines[0].value else "";
      LineSays(lines[0]);
      TextsCons(lines);
      GoOn(LineText(lines[0]), TextsOf(lines[1..]), sofar, value);
      OneParagraph(lines[1..], sofar + value);
      ConcatAssoc(sofar, value, ValuesOf(lines[1..]));
    }
  }

  lemma ParagraphsCons(frame: seq<Line>, frames: seq<seq<Line>>)
    requires FrameOk(frame)
    requires Paragraphs(StreamLines(frames) + ["", "", ""], "") == Carried(AllValues(frames))
    ensures Paragraphs(TextsOf(frame) + [""] + (StreamLines(frames) + ["", "", ""]), "")
         == Carried([ValuesOf(frame)] + AllValues(frames))
  {
    OneParagraph(frame, "");
    assert "" + ValuesOf(frame) == ValuesOf(frame);
    ParagraphsBreak(TextsOf(frame), StreamLines(frames) + ["", "", ""], "");
    CarriedCons(ValuesOf(frame), AllValues(frames));
  }

  lemma BreakAssoc(a: seq<string>, b: seq<string>, c: seq<string>, d: seq<string>)
    ensures a + b + c + d == a + b + (c + d)
  {
  }

  lemma StreamCons(frames: seq<seq<Line>>)
    requires frames != []
    ensures StreamLines(frames) + ["", "", ""] == TextsOf(frames[0]) + [""] + (StreamLines(frames[1..]) + ["", "", ""])
  {
    BreakAssoc(TextsOf(frames[0]), [""], StreamLines(frames[1..]), ["", "", ""]);
  }

  lemma ValuesCons(frames: seq<seq<Line>>)
    requires frames != []
    ensures AllValues(frames) == [ValuesOf(frames[0])] + AllValues(frames[1..])
  {
  }

  lemma {:induction false} StreamParagraphs(frames: seq<seq<Line>>)
    requires FramesOk(frames)
    ensures Paragraphs(StreamLines(frames) + ["", "", ""], "") == Carried(AllValues(frames))
  {
    if frames == [] {
      assert [] + ["", "", ""] == ["", "", ""];
      BlankParagraphs(["", "", ""]);
    } else {
      StreamParagraphs(frames[1..]);
      ParagraphsCons(frames[0], frames[1..]);
      StreamCons(frames);
      ValuesCons(frames);
    }
  }

  lemma TailLines()
    ensures Lines(FLUSH) == ["", "", ""]
  {
    LinesAt("", "\n");
    LinesAt("", "");
    assert FLUSH == "\n" + "\n" && "\n" + "" == "\n";
  }

  /** Read as a whole, the stream carries the values of its frames, those without any left out. */
  lemma ServerIsRead(frames: seq<seq<Line>>, cr: string)
    requires FramesOk(frames) && IsCr(cr)
    ensures Payloads(TextFrames(ServerText(frames, cr))) == Carried(AllValues(frames))
  {
    var text := ServerText(frames, cr);
    var s := Normalize(text + FLUSH);
    ServerLines(frames, cr, FLUSH);
    TailLines();
    LinesNormalize(text + FLUSH);
    StreamLinesOk(frames);
    NormalLines(StreamLines(frames), cr);
    FlushLeavesBlank(text);
    SplitParagraphs(Lines(s), s);
    StreamParagraphs(frames);
  }

  lemma NoCrCrInLine(line: string, cr: string, b: string)
    requires NoBreaks(line) && IsCr(cr) && !HasCrCrLf(b)
    ensures !HasCrCrLf(line + cr + "\n" + b)
  {
    var n := |line + cr + "\n"|;
    var s := line + cr + "\n" + b;
    forall i | 0 <= i && i + 2 < |s| ensures !(s[i] == '\r' && s[i + 1] == '\r' && s[i + 2] == '\n') {
      if i < |line| {
        assert s[i] == line[i] && line[i] in line;
      } else if i < n {
        assert s[n - 1] == '\n';
      } else {
        assert s[i] == b[i - n] && s[i + 1] == b[i - n + 1] && s[i + 2] == b[i - n + 2];
      }
    }
  }

  lemma {:induction false} NoCrCrInFrame(lines: seq<Line>, cr: string, b: string)
    requires FrameOk(lines) && IsCr(cr) && !HasCrCrLf(b)
    ensures !HasCrCrLf(FrameText(lines, cr) + b)
  {
    if lines == [] {
      NoCrCrInLine("", cr, b);
      assert "" + cr + "\n" + b == FrameText(lines, cr) + b;
    } else {
      NoCrCrInFrame(lines[1..], cr, b);
      LineSays(lines[0]);
      NoCrCrInLine(LineText(lines[0]), cr, FrameText(lines[1..], cr) + b);
      assert FrameText(lines, cr) + b == LineText(lines[0]) + cr + "\n" + (FrameText(lines[1..], cr) + b);
    }
  }

  lemma {:induction false} NoCrCr(frames: seq<seq<Line>>, cr: string)
    requires FramesOk(frames) && IsCr(cr)
    ensures !HasCrCrLf(ServerText(frames, cr))
  {
    if frames != [] {
      NoCrCr(frames[1..], cr);
      NoCrCrInFrame(frames[0], cr, ServerText(frames[1..], cr));
    }
  }

  /**
   * Every frame that a server writes is heard once, with the values of its data lines joined, whatever blanks,
   * comments and other fields stand around them, for both line ends and wherever the stream is cut.
   */
  lemma ServerIsHeard(decode: Decoder, frames: seq<seq<Line>>, cr: string, chunks: seq<string>)
    requires FramesOk(frames) && IsCr(cr) && Concat(chunks) == ServerText(frames, cr)
    ensures EventsOf(decode, StreamFrames(chunks)) == Decoded(decode, Carried(AllValues(frames)))
  {
    NoCrCr(frames, cr);
    CuttingDoesNotMatter(chunks);
    EventsAreDecoded(decode, StreamFrames(chunks));
    ServerIsRead(frames, cr);
  }
}
