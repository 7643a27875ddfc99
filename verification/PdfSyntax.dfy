/**
 * Object syntax of ISO 32000-1:2008 sections 7.2 and 7.3: lexer and parser from the standard, and a printer
 * they invert.
 */
module PdfSyntax {
  import opened Text
  import opened Wrappers

  // ----- characters (section 7.2.2) -----

  predicate IsWhite(c: char) {
    c == '\0' || c == '\t' || c == '\n' || c == '\U{0C}' || c == '\r' || c == ' '
  }

  predicate IsDelimiter(c: char) {
    || c == '(' || c == ')' || c == '<' || c == '>' || c == '['
    || c == ']' || c == '{' || c == '}' || c == '/' || c == '%'
  }

  predicate IsRegular(c: char) {
    !IsWhite(c) && !IsDelimiter(c)
  }

  predicate AllRegular(s: string) {
    forall i :: 0 <= i < |s| ==> IsRegular(s[i])
  }

  /** A token that is read up to the first non-regular character ends in front of `s`. */
  predicate Stops(s: string) {
    s == "" || !IsRegular(s[0])
  }

  // ----- tokens -----

  datatype Token = Word(w: string) | Name(n: string) | Open(c: string) | Close(c: string) | Eof | Bad

  datatype Lexeme = Lexeme(tok: Token, rest: string)

  function RegularRun(s: string): (n: nat)
    ensures n <= |s| && AllRegular(s[..n]) && Stops(s[n..])
  {
    if s == "" || !IsRegular(s[0]) then 0
    else
      var n := 1 + RegularRun(s[1..]);
      assert s[n..] == s[1..][n - 1..];
      assert forall i :: 0 < i < n ==> s[..n][i] == s[1..][..n - 1][i - 1];
      n
  }

  /** The next token and what follows it. */
  function Next(s: string): (l: Lexeme)
    ensures |l.rest| <= |s|
    ensures l.tok != Eof && l.tok != Bad ==> |l.rest| < |s|
  {
    if s == "" then Lexeme(Eof, "")
    else if IsWhite(s[0]) then Next(s[1..])
    else if s[0] == '/' then
      var n := RegularRun(s[1..]);
      Lexeme(Name(s[1..][..n]), s[1..][n..])
    else if s[0] == '[' then Lexeme(Open("["), s[1..])
    else if s[0] == ']' then Lexeme(Close("]"), s[1..])
    else if s[0] == '<' && |s| > 1 && s[1] == '<' then Lexeme(Open("<<"), s[2..])
    else if s[0] == '>' && |s| > 1 && s[1] == '>' then Lexeme(Close(">>"), s[2..])
    else if IsRegular(s[0]) then
      var n := RegularRun(s);
      Lexeme(Word(s[..n]), s[n..])
    else Lexeme(Bad, s)
  }

  lemma {:induction false} RunOf(w: string, t: string)
    requires AllRegular(w) && Stops(t)
    ensures RegularRun(w + t) == |w|
  {
    if w == "" {
      assert w + t == t;
    } else {
      assert (w + t)[1..] == w[1..] + t;
      assert forall i :: 0 <= i < |w| - 1 ==> w[1..][i] == w[i + 1];
      RunOf(w[1..], t);
    }
  }

  lemma Halves(w: string, t: string)
    ensures (w + t)[..|w|] == w && (w + t)[|w|..] == t
  {
  }

  lemma NextWord(w: string, t: string)
    requires w != "" && AllRegular(w) && Stops(t)
    ensures Next(w + t) == Lexeme(Word(w), t)
  {
    RunOf(w, t);
    Halves(w, t);
    assert (w + t)[0] == w[0] && IsRegular(w[0]);
  }

  lemma NextNameOf(s: string, w: string, t: string)
    requires s != "" && s[0] == '/' && s[1..] == w + t
    requires AllRegular(w) && Stops(t)
    ensures Next(s) == Lexeme(Name(w), t)
  {
    RunOf(w, t);
    Halves(w, t);
  }

  lemma NextName(w: string, t: string)
    requires AllRegular(w) && Stops(t)
    ensures Next("/" + w + t) == Lexeme(Name(w), t)
  {
    var s := "/" + w + t;
    assert s[1..] == w + t;
    NextNameOf(s, w, t);
  }

  lemma NextWhite(c: char, t: string)
    requires IsWhite(c)
    ensures Next([c] + t) == Next(t)
  {
    assert ([c] + t)[1..] == t;
  }

  lemma NextBracketOf(s: string, t: string)
    requires s != "" && s[1..] == t
    ensures s[0] == '[' ==> Next(s) == Lexeme(Open("["), t)
    ensures s[0] == ']' ==> Next(s) == Lexeme(Close("]"), t)
  {
  }

  lemma NextDoubleOf(s: string, t: string)
    requires |s| > 1 && s[2..] == t && s[0] == s[1]
    ensures s[0] == '<' ==> Next(s) == Lexeme(Open("<<"), t)
    ensures s[0] == '>' ==> Next(s) == Lexeme(Close(">>"), t)
  {
  }

  lemma NextBracket(t: string)
    ensures Next("[" + t) == Lexeme(Open("["), t)
    ensures Next("]" + t) == Lexeme(Close("]"), t)
    ensures Next("<<" + t) == Lexeme(Open("<<"), t)
    ensures Next(">>" + t) == Lexeme(Close(">>"), t)
  {
    Halves("[", t);
    Halves("]", t);
    Halves("<<", t);
    Halves(">>", t);
    NextBracketOf("[" + t, t);
    NextBracketOf("]" + t, t);
    NextDoubleOf("<<" + t, t);
    NextDoubleOf(">>" + t, t);
  }

  // ----- objects (section 7.3) -----

  datatype Obj =
    | NameObj(name: string)
    | Int(n: nat)
    | Real(text: string)
    | Ref(num: nat, gen: nat)
    | Arr(items: seq<Obj>)
    | Dict(entries: seq<Entry>)
  datatype Entry = Entry(key: string, val: Obj)

  /** The text of a non-negative real with a decimal point. */
  predicate IsReal(w: string) {
    && |w| > 0 && IsDigit(w[0]) && !AllDigits(w)
    && forall i :: 0 <= i < |w| ==> IsDigit(w[i]) || w[i] == '.'
  }

  datatype Parsed = Parsed(obj: Obj, rest: string)
  datatype ParsedItems = ParsedItems(items: seq<Obj>, rest: string)
  datatype ParsedEntries = ParsedEntries(entries: seq<Entry>, rest: string)

  predicate IsInt(t: Token) {
    t.Word? && t.w != "" && AllDigits(t.w)
  }

  /** Whether an integer in front of `s` would have to be read as an indirect reference (7.3.10). */
  predicate RefTail(s: string) {
    var g := Next(s);
    IsInt(g.tok) && Next(g.rest).tok == Word("R")
  }

  function ParseObj(s: string): (r: Option<Parsed>)
    ensures r.Some? ==> |r.value.rest| < |s|
    decreases |s|, 0
  {
    var l := Next(s);
    match l.tok
    case Name(n) => Some(Parsed(NameObj(n), l.rest))
    case Word(w) =>
      if IsInt(l.tok) then
        if RefTail(l.rest) then
          var g := Next(l.rest);
          Some(Parsed(Ref(ToNat(w), ToNat(g.tok.w)), Next(g.rest).rest))
        else Some(Parsed(Int(ToNat(w)), l.rest))
      else if IsReal(w) then Some(Parsed(Real(w), l.rest))
      else None
    case Open(c) =>
      if c == "[" then
        var r := ParseItems(l.rest);
        if r.None? then None else Some(Parsed(Arr(r.value.items), r.value.rest))
      else
        var r := ParseEntries(l.rest);
        if r.None? then None else Some(Parsed(Dict(r.value.entries), r.value.rest))
    case _ => None
  }

  function ParseItems(s: string): (r: Option<ParsedItems>)
    ensures r.Some? ==> |r.value.rest| < |s|
    decreases |s|, 1
  {
    var l := Next(s);
    if l.tok == Close("]") then Some(ParsedItems([], l.rest))
    else
      var h := ParseObj(s);
      if h.None? then None
      else
        var t := ParseItems(h.value.rest);
        if t.None? then None else Some(ParsedItems([h.value.obj] + t.value.items, t.value.rest))
  }

  function ParseEntries(s: string): (r: Option<ParsedEntries>)
    ensures r.Some? ==> |r.value.rest| < |s|
    decreases |s|, 1
  {
    var l := Next(s);
    if l.tok == Close(">>") then Some(ParsedEntries([], l.rest))
    else if !l.tok.Name? then None
    else
      var h := ParseObj(l.rest);
      if h.None? then None
      else
        var t := ParseEntries(h.value.rest);
        if t.None? then None
        else Some(ParsedEntries([Entry(l.tok.n, h.value.obj)] + t.value.entries, t.value.rest))
  }

  /** The value of the first entry with this key. */
  function Lookup(es: seq<Entry>, key: string): Option<Obj> {
    if es == [] then None
    else if es[0].key == key then Some(es[0].val)
    else Lookup(es[1..], key)
  }

  // ----- printing, with the text that follows as an argument -----

  predicate Wf(o: Obj)
    decreases o
  {
    match o
    case NameObj(n) => AllRegular(n)
    case Int(_) => true
    case Real(w) => IsReal(w)
    case Ref(_, _) => true
    case Arr(items) => forall i :: 0 <= i < |items| ==> Wf(items[i])
    case Dict(entries) => forall i :: 0 <= i < |entries| ==> AllRegular(entries[i].key) && Wf(entries[i].val)
  }

  function Print(o: Obj, t: string): string
    decreases o, 1
  {
    match o
    case NameObj(n) => "/" + n + t
    case Int(n) => OfNat(n) + t
    case Real(w) => w + t
    case Ref(num, gen) => OfNat(num) + (" " + (OfNat(gen) + (" " + ("R" + t))))
    case Arr(items) => "[" + PrintItems(items, "]" + t)
    case Dict(entries) => "<<" + (" " + PrintEntries(entries, ">>" + t))
  }

  function PrintItems(os: seq<Obj>, t: string): string
    decreases os, 0
  {
    if os == [] then t
    else if |os| == 1 then Print(os[0], t)
    else Print(os[0], " " + PrintItems(os[1..], t))
  }

  function PrintEntries(es: seq<Entry>, t: string): string
    decreases es, 0
  {
    if es == [] then t
    else "/" + es[0].key + (" " + Print(es[0].val, " " + PrintEntries(es[1..], t)))
  }

  lemma DigitsAreRegular(s: string)
    requires AllDigits(s)
    ensures AllRegular(s)
  {
  }

  lemma NextNat(n: nat, t: string)
    requires Stops(t)
    ensures Next(OfNat(n) + t) == Lexeme(Word(OfNat(n)), t)
  {
    DigitsAreRegular(OfNat(n));
    NextWord(OfNat(n), t);
  }

  /** What an object prints first: never the word R, and an integer only for Int and Ref. */
  lemma FirstToken(o: Obj, t: string)
    requires Wf(o) && Stops(t)
    ensures Next(Print(o, t)).tok != Word("R")
    ensures !Next(Print(o, t)).tok.Close?
    ensures o.Int? ==> Next(Print(o, t)).rest == t
    ensures o.Ref? ==> Next(Next(Print(o, t)).rest).tok == Word(OfNat(o.gen))
    ensures !o.Int? && !o.Ref? ==> !IsInt(Next(Print(o, t)).tok)
  {
    match o
    case NameObj(n) => NextName(n, t);
    case Int(n) => NextNat(n, t);
      assert IsDigit(OfNat(n)[0]);
    case Real(w) => NextWord(w, t);
    case Ref(num, gen) =>
      var t2 := " " + ("R" + t);
      var t1 := " " + (OfNat(gen) + t2);
      NextNat(num, t1);
      assert IsDigit(OfNat(num)[0]);
      NextWhite(' ', OfNat(gen) + t2);
      NextNat(gen, t2);
    case Arr(items) => NextBracket(PrintItems(items, "]" + t));
    case Dict(entries) => NextBracket(" " + PrintEntries(entries, ">>" + t));
  }

  /** No item list can be mistaken for the rest of an indirect reference. */
  lemma ItemsNotRef(os: seq<Obj>, t: string)
    requires forall i :: 0 <= i < |os| ==> Wf(os[i])
    requires os != []
    ensures !RefTail(" " + PrintItems(os, "]" + t))
  {
    var after := if |os| == 1 then "]" + t else " " + PrintItems(os[1..], "]" + t);
    NextWhite(' ', Print(os[0], after));
    FirstToken(os[0], after);
    if os[0].Int? {
      if |os| == 1 {
        NextBracket(t);
      } else {
        var after2 := if |os| == 2 then "]" + t else " " + PrintItems(os[1..][1..], "]" + t);
        NextWhite(' ', PrintItems(os[1..], "]" + t));
        FirstToken(os[1], after2);
      }
    } else if os[0].Ref? {
      assert IsDigit(OfNat(os[0].gen)[0]);
    }
  }

  lemma EntriesNotRef(es: seq<Entry>, t: string)
    requires forall i :: 0 <= i < |es| ==> AllRegular(es[i].key) && Wf(es[i].val)
    ensures !RefTail(" " + PrintEntries(es, ">>" + t))
  {
    if es == [] {
      NextBracket(t);
      NextWhite(' ', ">>" + t);
    } else {
      var after := " " + Print(es[0].val, " " + PrintEntries(es[1..], ">>" + t));
      NextWhite(' ', PrintEntries(es, ">>" + t));
      NextName(es[0].key, after);
    }
  }

  lemma ParseAtom(o: Obj, t: string)
    requires Wf(o) && Stops(t) && !RefTail(t)
    requires o.NameObj? || o.Int? || o.Real?
    ensures ParseObj(Print(o, t)) == Some(Parsed(o, t))
  {
    match o
    case NameObj(n) => NextName(n, t);
    case Int(n) =>
      NextNat(n, t);
      ToNatOfNat(n);
    case Real(w) =>
      NextWord(w, t);
  }

  lemma ArrStep(s: string, s1: string, os: seq<Obj>, t: string)
    requires Next(s) == Lexeme(Open("["), s1)
    requires ParseItems(s1) == Some(ParsedItems(os, t))
    ensures ParseObj(s) == Some(Parsed(Arr(os), t))
  {
  }

  lemma DictStep(s: string, s1: string, es: seq<Entry>, t: string)
    requires Next(s) == Lexeme(Open("<<"), " " + s1)
    requires ParseEntries(s1) == Some(ParsedEntries(es, t))
    ensures ParseObj(s) == Some(Parsed(Dict(es), t))
  {
    SkipBlank(s1);
  }

  /** The parser inverts the printer and stops exactly where the printed object ends. */
  lemma {:induction false} ParsePrint(o: Obj, t: string)
    requires Wf(o) && Stops(t) && !RefTail(t)
    ensures ParseObj(Print(o, t)) == Some(Parsed(o, t))
    decreases o, 1
  {
    match o
    case Ref(num, gen) => ParseRef(num, gen, t);
    case Arr(items) =>
      var inner := PrintItems(items, "]" + t);
      NextBracket(inner);
      ParsePrintItems(items, t);
      ArrStep("[" + inner, inner, items, t);
    case Dict(entries) =>
      var inner := PrintEntries(entries, ">>" + t);
      NextBracket(" " + inner);
      ParsePrintEntries(entries, t);
      DictStep("<<" + (" " + inner), inner, entries, t);
    case _ => ParseAtom(o, t);
  }

  // Single parser steps over opaque strings; they keep concatenations out of the inductive proofs.

  lemma RefStep(s: string, w: string, s1: string, g: string, s2: string, t: string)
    requires Next(s) == Lexeme(Word(w), s1) && w != "" && AllDigits(w)
    requires Next(s1) == Lexeme(Word(g), s2) && g != "" && AllDigits(g)
    requires Next(s2) == Lexeme(Word("R"), t)
    ensures ParseObj(s) == Some(Parsed(Ref(ToNat(w), ToNat(g)), t))
  {
  }

  lemma ItemsStep(s: string, o: Obj, after: string, os: seq<Obj>, t: string)
    requires !Next(s).tok.Close?
    requires ParseObj(s) == Some(Parsed(o, after))
    requires ParseItems(after) == Some(ParsedItems(os, t))
    ensures ParseItems(s) == Some(ParsedItems([o] + os, t))
  {
  }

  lemma EntriesStep(s: string, key: string, s1: string, v: Obj, after: string, es: seq<Entry>, t: string)
    requires Next(s) == Lexeme(Name(key), s1)
    requires ParseObj(s1) == Some(Parsed(v, after))
    requires ParseEntries(after) == Some(ParsedEntries(es, t))
    ensures ParseEntries(s) == Some(ParsedEntries([Entry(key, v)] + es, t))
  {
  }

  lemma SkipBlank(s: string)
    ensures ParseObj(" " + s) == ParseObj(s)
    ensures ParseItems(" " + s) == ParseItems(s)
    ensures ParseEntries(" " + s) == ParseEntries(s)
    ensures Stops(" " + s)
  {
    NextWhite(' ', s);
  }

  lemma ParseRef(num: nat, gen: nat, t: string)
    requires Stops(t)
    ensures ParseObj(Print(Ref(num, gen), t)) == Some(Parsed(Ref(num, gen), t))
  {
    var t2 := " " + ("R" + t);
    var t1 := " " + (OfNat(gen) + t2);
    assert Next(OfNat(num) + t1) == Lexeme(Word(OfNat(num)), t1) by { NextNat(num, t1); }
    assert Next(t1) == Lexeme(Word(OfNat(gen)), t2) by {
      NextWhite(' ', OfNat(gen) + t2);
      NextNat(gen, t2);
    }
    assert Next(t2) == Lexeme(Word("R"), t) by {
      NextWhite(' ', "R" + t);
      NextWord("R", t);
    }
    ToNatOfNat(num);
    ToNatOfNat(gen);
    RefStep(OfNat(num) + t1, OfNat(num), t1, OfNat(gen), t2, t);
  }

  lemma {:induction false} ParsePrintItems(os: seq<Obj>, t: string)
    requires forall i :: 0 <= i < |os| ==> Wf(os[i])
    ensures ParseItems(PrintItems(os, "]" + t)) == Some(ParsedItems(os, t))
    decreases os, 0
  {
    if os == [] {
      NextBracket(t);
    } else {
      var close := "]" + t;
      var rest := PrintItems(os[1..], close);
      var after := if |os| == 1 then close else " " + rest;
      ParsePrintItems(os[1..], t);
      if |os| == 1 {
        NextBracket(t);
      } else {
        ItemsNotRef(os[1..], t);
        SkipBlank(rest);
      }
      FirstToken(os[0], after);
      ParsePrint(os[0], after);
      ItemsStep(Print(os[0], after), os[0], after, os[1..], t);
      assert os == [os[0]] + os[1..];
    }
  }

  lemma PrintedEntry(e: Entry, rest: string, es: seq<Entry>, t: string)
    requires AllRegular(e.key)
    requires ParseObj(Print(e.val, " " + rest)) == Some(Parsed(e.val, " " + rest))
    requires ParseEntries(rest) == Some(ParsedEntries(es, t))
    ensures ParseEntries("/" + e.key + (" " + Print(e.val, " " + rest))) == Some(ParsedEntries([e] + es, t))
  {
    var value := Print(e.val, " " + rest);
    SkipBlank(rest);
    SkipBlank(value);
    NextName(e.key, " " + value);
    EntriesStep("/" + e.key + (" " + value), e.key, " " + value, e.val, " " + rest, es, t);
  }

  lemma PrintedHead(es: seq<Entry>, close: string)
    requires es != []
    ensures var rest := PrintEntries(es[1..], close);
            PrintEntries(es, close) == "/" + es[0].key + (" " + Print(es[0].val, " " + rest))
  {
  }

  lemma {:induction false} ParsePrintEntries(es: seq<Entry>, t: string)
    requires forall i :: 0 <= i < |es| ==> AllRegular(es[i].key) && Wf(es[i].val)
    ensures ParseEntries(PrintEntries(es, ">>" + t)) == Some(ParsedEntries(es, t))
    decreases es, 0
  {
    if es == [] {
      NextBracket(t);
    } else {
      var e, more, close := es[0], es[1..], ">>" + t;
      var rest := PrintEntries(more, close);
      ParsePrintEntries(more, t);
      EntriesNotRef(more, t);
      assert e.val < e && e in es;
      ParsePrint(e.val, " " + rest);
      PrintedEntry(e, rest, more, t);
      PrintedHead(es, close);
      assert es == [e] + more;
    }
  }

  /** Printing in front of a tail only prepends. */
  lemma {:induction false} PrintTail(o: Obj, t: string)
    ensures Print(o, t) == Print(o, "") + t
    decreases o, 1
  {
    match o
    case NameObj(_) =>
    case Int(_) =>
    case Real(_) =>
    case Ref(_, _) =>
    case Arr(items) =>
      PrintItemsTail(items, "]" + t);
      PrintItemsTail(items, "]");
      assert "]" + "" == "]";
    case Dict(entries) =>
      PrintEntriesTail(entries, ">>" + t);
      PrintEntriesTail(entries, ">>");
      assert ">>" + "" == ">>";
  }

  lemma {:induction false} PrintItemsTail(os: seq<Obj>, t: string)
    ensures PrintItems(os, t) == PrintItems(os, "") + t
    decreases os, 0
  {
    if os == [] {
    } else if |os| == 1 {
      PrintTail(os[0], t);
    } else {
      var a, b := " " + PrintItems(os[1..], t), " " + PrintItems(os[1..], "");
      PrintTail(os[0], a);
      PrintTail(os[0], b);
      PrintItemsTail(os[1..], t);
    }
  }

  lemma {:induction false} PrintEntriesTail(es: seq<Entry>, t: string)
    ensures PrintEntries(es, t) == PrintEntries(es, "") + t
    decreases es, 0
  {
    if es != [] {
      var a, b := " " + PrintEntries(es[1..], t), " " + PrintEntries(es[1..], "");
      assert es[0].val < es[0] && es[0] in es;
      PrintTail(es[0].val, a);
      PrintTail(es[0].val, b);
      PrintEntriesTail(es[1..], t);
    }
  }
}
