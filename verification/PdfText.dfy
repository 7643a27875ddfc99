/** The text helpers of backend/app/pdf.py, and a literal-string reader for ISO 32000-1:2008 section 7.3.4.2. */
module PdfText {
  import opened PdfSyntax
  import opened Wrappers

  // ----- esc -----

  const ELLIPSIS := '\U{2026}'

  /** Punctuation outside Latin-1 and what replaces it. */
  const UNICODE_FOLD: map<char, string> := map[
    '\U{2014}' := "-", '\U{2013}' := "-", '\U{2212}' := "-",
    '\U{2018}' := "'", '\U{2019}' := "'", '\U{201A}' := ",",
    '\U{201C}' := "\"", '\U{201D}' := "\"",
    '\U{2026}' := "...", '\U{2022}' := "*", '\U{B7}' := "\U{B7}",
    '\U{A0}' := " "
  ]

  function Fold(c: char): string {
    if c in UNICODE_FOLD then UNICODE_FOLD[c] else [c]
  }

  /** One step of esc; `ord` of a fold of more than one character raises, which is None here. */
  function EscChar(c: char): Option<string> {
    var f := Fold(c);
    if |f| != 1 then None
    else if f[0] in "()\\" then Some("\\" + f)
    else if f[0] as int < 32 || f[0] as int > 255 then Some(" ")
    else Some(f)
  }

  function EscFrom(s: string): Option<string> {
    if s == "" then Some("")
    else
      var h := EscChar(s[0]);
      var t := EscFrom(s[1..]);
      if h.None? || t.None? then None else Some(h.value + t.value)
  }

  lemma {:induction false} EscAppend(a: string, c: char)
    ensures EscFrom(a + [c])
         == if EscFrom(a).None? || EscChar(c).None? then None else Some(EscFrom(a).value + EscChar(c).value)
  {
    if a == "" {
      assert a + [c] == [c];
      assert EscFrom([c][1..]) == Some("");
      if EscChar(c).Some? {
        assert EscChar(c).value + "" == "" + EscChar(c).value;
      }
    } else {
      assert (a + [c])[1..] == a[1..] + [c] && (a + [c])[0] == a[0];
      EscAppend(a[1..], c);
      if EscFrom(a).Some? && EscChar(c).Some? {
        Assoc(EscChar(a[0]).value, EscFrom(a[1..]).value, EscChar(c).value);
      }
    }
  }

  lemma {:induction false} EscPrefix(s: string, i: nat)
    requires i <= |s| && EscFrom(s[..i]).None?
    ensures EscFrom(s).None?
    decreases |s| - i
  {
    if i < |s| {
      assert s[..i + 1] == s[..i] + [s[i]];
      EscAppend(s[..i], s[i]);
      EscPrefix(s, i + 1);
    } else {
      assert s[..i] == s;
    }
  }

  method Esc(text: string) returns (r: Option<string>)
    ensures r == EscFrom(text)
  {
    var out := "";
    for i := 0 to |text|
      invariant EscFrom(text[..i]) == Some(out)
    {
      assert text[..i + 1] == text[..i] + [text[i]];
      EscAppend(text[..i], text[i]);
      var piece := EscChar(text[i]);
      if piece.None? {
        EscPrefix(text, i + 1);
        return None;
      }
      out := out + piece.value;
    }
    assert text[..|text|] == text;
    return Some(out);
  }

  // ----- what a reader shows for it -----

  /** The character that stands for `c` on the page. */
  function Rendered(c: char): char {
    if c in "\U{2014}\U{2013}\U{2212}" then '-'
    else if c in "\U{2018}\U{2019}" then '\''
    else if c == '\U{201A}' then ','
    else if c in "\U{201C}\U{201D}" then '"'
    else if c == '\U{2022}' then '*'
    else if c == '\U{A0}' || c as int < 32 || c as int > 255 then ' '
    else c
  }

  function RenderedText(s: string): (r: string)
    ensures |r| == |s|
  {
    seq(|s|, i requires 0 <= i < |s| => Rendered(s[i]))
  }

  datatype Literal = Literal(text: string, rest: string)

  predicate IsOctal(c: char) {
    '0' <= c <= '7'
  }

  function OctalRun(s: string, n: nat): nat {
    if n == 0 || s == "" || !IsOctal(s[0]) then 0 else 1 + OctalRun(s[1..], n - 1)
  }

  function OctalValue(s: string, n: nat): nat
    requires n <= |s| && forall i :: 0 <= i < n ==> IsOctal(s[i])
  {
    if n == 0 then 0
    else
      assert IsOctal(s[n - 1]);
      OctalValue(s, n - 1) * 8 + (s[n - 1] as int - '0' as int)
  }

  lemma OctalRunIsOctal(s: string, n: nat)
    ensures OctalRun(s, n) <= |s| && forall i :: 0 <= i < OctalRun(s, n) ==> IsOctal(s[i])
  {
  }

  function Prepend(c: char, r: Option<Literal>): (p: Option<Literal>)
    ensures p.Some? <==> r.Some?
    ensures p.Some? ==> p.value == Literal([c] + r.value.text, r.value.rest)
  {
    match r
    case Some(l) => Some(Literal([c] + l.text, l.rest))
    case None => None
  }

  /** A literal string after its opening parenthesis, with `depth` parentheses open inside it. */
  function ReadLiteral(s: string, depth: nat): (r: Option<Literal>)
    ensures r.Some? ==> |r.value.rest| < |s|
    decreases |s|
  {
    if s == "" then None
    else if s[0] == ')' then
      if depth == 0 then Some(Literal("", s[1..])) else Prepend(')', ReadLiteral(s[1..], depth - 1))
    else if s[0] == '(' then Prepend('(', ReadLiteral(s[1..], depth + 1))
    else if s[0] == '\r' then
      Prepend('\n', ReadLiteral(if |s| > 1 && s[1] == '\n' then s[2..] else s[1..], depth))
    else if s[0] != '\\' then Prepend(s[0], ReadLiteral(s[1..], depth))
    else if |s| == 1 then None
    else if s[1] == 'n' then Prepend('\n', ReadLiteral(s[2..], depth))
    else if s[1] == 'r' then Prepend('\r', ReadLiteral(s[2..], depth))
    else if s[1] == 't' then Prepend('\t', ReadLiteral(s[2..], depth))
    else if s[1] == 'b' then Prepend('\U{08}', ReadLiteral(s[2..], depth))
    else if s[1] == 'f' then Prepend('\U{0C}', ReadLiteral(s[2..], depth))
    else if s[1] == '\n' then ReadLiteral(s[2..], depth)
    else if s[1] == '\r' then ReadLiteral(if |s| > 2 && s[2] == '\n' then s[3..] else s[2..], depth)
    else if IsOctal(s[1]) then
      var n := OctalRun(s[1..], 3);
      OctalRunIsOctal(s[1..], 3);
      Prepend((OctalValue(s[1..], n) % 256) as char, ReadLiteral(s[1 + n..], depth))
    else Prepend(s[1], ReadLiteral(s[2..], depth))
  }

  lemma ReadPlain(x: string, c: char, s: string)
    requires x != "" && x[0] == c && x[1..] == s && c !in "()\\\r"
    ensures ReadLiteral(x, 0) == Prepend(c, ReadLiteral(s, 0))
  {
  }

  lemma ReadBackslashed(x: string, c: char, s: string)
    requires |x| > 1 && x[0] == '\\' && x[1] == c && x[2..] == s && c in "()\\"
    ensures ReadLiteral(x, 0) == Prepend(c, ReadLiteral(s, 0))
  {
  }

  lemma ReadEscapedChar(c: char, e: string, s: string)
    requires EscChar(c) == Some(e)
    ensures ReadLiteral(e + s, 0) == Prepend(Rendered(c), ReadLiteral(s, 0))
  {
    EscCharRange(c, e);
    Halves(e, s);
    if |e| == 1 {
      ReadPlain(e + s, e[0], s);
    } else {
      ReadBackslashed(e + s, e[1], s);
    }
  }

  /** One escaped character: a backslash and a delimiter, or one printable character. */
  lemma EscCharRange(c: char, e: string)
    requires EscChar(c) == Some(e)
    ensures |e| == 2 ==> e[0] == '\\' && e[1] in "()\\" && e[1] == Rendered(c)
    ensures |e| != 2 ==> |e| == 1 && e[0] !in "()\\\r" && e[0] == Rendered(c)
    ensures forall i :: 0 <= i < |e| ==> 32 <= e[i] as int <= 255
  {
  }

  lemma PrependStep(c: char, s: string, t: string)
    requires s != "" && c == Rendered(s[0])
    ensures Prepend(c, Some(Literal(RenderedText(s[1..]), t))) == Some(Literal(RenderedText(s), t))
  {
    assert RenderedText(s) == [c] + RenderedText(s[1..]);
  }

  lemma Assoc(a: string, b: string, c: string)
    ensures (a + b) + c == a + (b + c)
  {
  }

  /** The escaped text in front of a closing parenthesis is read back as the rendered text. */
  lemma {:induction false} EscapedInFront(s: string, u: string, t: string)
    requires EscFrom(s).Some? && ReadLiteral(u, 0) == Some(Literal("", t))
    ensures ReadLiteral(EscFrom(s).value + u, 0) == Some(Literal(RenderedText(s), t))
  {
    if s == "" {
      assert EscFrom(s).value + u == u;
    } else {
      var e := EscChar(s[0]).value;
      var r := EscFrom(s[1..]).value;
      EscapedInFront(s[1..], u, t);
      Assoc(e, r, u);
      ReadEscapedChar(s[0], e, r + u);
      PrependStep(Rendered(s[0]), s, t);
    }
  }

  /**
   * A reader started inside "(" + esc(s) + ")" stops exactly at that closing parenthesis
   * and yields the rendered text of `s`.
   */
  lemma EscapedIsReadBack(s: string, t: string)
    requires EscFrom(s).Some?
    ensures ReadLiteral(EscFrom(s).value + (")" + t), 0) == Some(Literal(RenderedText(s), t))
  {
    Halves(")", t);
    EscapedInFront(s, ")" + t, t);
  }

  /** Everything esc produces is printable Latin-1, so encoding it replaces nothing. */
  lemma {:induction false} EscapedIsLatin1(s: string)
    requires EscFrom(s).Some?
    ensures forall i :: 0 <= i < |EscFrom(s).value| ==> 32 <= EscFrom(s).value[i] as int <= 255
  {
    if s != "" {
      EscapedIsLatin1(s[1..]);
      EscCharRange(s[0], EscChar(s[0]).value);
    }
  }

  /** Escaping raises exactly for texts that contain an ellipsis. */
  lemma {:induction false} EscapeFailsOnEllipsis(s: string)
    ensures EscFrom(s).None? <==> ELLIPSIS in s
  {
    if s != "" {
      EscapeFailsOnEllipsis(s[1..]);
      assert ELLIPSIS in s <==> s[0] == ELLIPSIS || ELLIPSIS in s[1..];
      FoldLength(s[0]);
    }
  }

  lemma FoldLength(c: char)
    ensures |Fold(c)| != 1 <==> c == ELLIPSIS
  {
  }

  // ----- truncate -----

  /** The width of a text in thousandths of the font size, for a table of character widths. */
  function Units(width: char -> nat, s: string): nat {
    if s == "" then 0 else Units(width, s[..|s| - 1]) + width(s[|s| - 1])
  }

  function TextWidth(width: char -> nat, s: string, size: real): real {
    Units(width, s) as real * size / 1000.0
  }

  /** Unchanged when it fits, otherwise the longest prefix that fits with its dots, or the dots alone. */
  method Truncate(width: char -> nat, text: string, maxWidth: real, size: real) returns (r: string)
    ensures TextWidth(width, text, size) <= maxWidth ==> r == text
    ensures TextWidth(width, text, size) > maxWidth ==>
              exists k: nat :: k <= |text| && r == text[..k] + "..."
                && (k == 0 || TextWidth(width, text[..k] + "...", size) <= maxWidth)
                && forall j :: k < j <= |text| ==> TextWidth(width, text[..j] + "...", size) > maxWidth
  {
    if TextWidth(width, text, size) <= maxWidth {
      return text;
    }
    var cut := text;
    while cut != "" && TextWidth(width, cut + "...", size) > maxWidth
      invariant |cut| <= |text| && cut == text[..|cut|]
      invariant forall j :: |cut| < j <= |text| ==> TextWidth(width, text[..j] + "...", size) > maxWidth
      decreases |cut|
    {
      cut := cut[..|cut| - 1];
    }
    return cut + "...";
  }
}
