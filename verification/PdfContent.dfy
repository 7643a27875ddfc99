/**
 * From drawing calls to what an interpreter of content streams (ISO 32000-1:2008 section 7.8.2) reads on
 * every page.
 */
module PdfContent {
  import opened Text
  import opened PyText
  import opened PdfSyntax
  import opened PdfReader
  import opened PdfFile
  import opened PdfDocument
  import opened PdfText
  import opened PdfBuilder
  import opened Wrappers

  // ----- the interpreter -----

  datatype Operand = Number(v: real) | NameOperand(n: string) | StringOperand(s: string)

  datatype Instr = Instr(operator: string, operands: seq<Operand>)

  /** The magnitude of digits with a fraction. */
  function Magnitude(whole: string, fraction: string): real
    requires AllDigits(whole) && AllDigits(fraction)
  {
    PowPositive(|fraction|);
    ToNat(whole) as real + ToNat(fraction) as real / Pow10(|fraction|) as real
  }

  function WholePart(s: string): string {
    s[..FirstIndex(s, '.')]
  }

  function FractionPart(s: string): string {
    var i := FirstIndex(s, '.');
    if i < |s| then s[i + 1..] else ""
  }

  function Unsigned(w: string): string {
    if w != "" && (w[0] == '-' || w[0] == '+') then w[1..] else w
  }

  /** A number (7.3.3): an optional sign, digits, at most one point. */
  predicate IsNumber(w: string) {
    var u := Unsigned(w);
    AllDigits(WholePart(u)) && AllDigits(FractionPart(u)) && WholePart(u) + FractionPart(u) != ""
  }

  function NumberOf(w: string): real
    requires IsNumber(w)
  {
    var m := Magnitude(WholePart(Unsigned(w)), FractionPart(Unsigned(w)));
    if w != "" && w[0] == '-' then -m else m
  }

  /** Operands are collected until an operator takes them. Hexadecimal strings, arrays and comments are not handled. */
  function ReadContent(s: string, operands: seq<Operand>): Option<seq<Instr>>
    decreases |s|
  {
    var l := Next(s);
    match l.tok
    case Eof => if operands == [] then Some([]) else None
    case Name(n) => ReadContent(l.rest, operands + [NameOperand(n)])
    case Word(w) =>
      if IsNumber(w) then ReadContent(l.rest, operands + [Number(NumberOf(w))])
      else Perform(Instr(w, operands), ReadContent(l.rest, []))
    case Bad =>
      if l.rest != "" && l.rest[0] == '(' then
        var t := ReadLiteral(l.rest[1..], 0);
        if t.None? then None else ReadContent(t.value.rest, operands + [StringOperand(t.value.text)])
      else None
    case _ => None
  }

  function Perform(i: Instr, later: Option<seq<Instr>>): Option<seq<Instr>> {
    if later.Some? then Some([i] + later.value) else None
  }

  // ----- what a drawing call means -----

  /** The value of a formatted number. */
  function Value(n: Num, places: nat): real {
    PowPositive(places);
    if n.neg then -(n.units as real / Pow10(places) as real) else n.units as real / Pow10(places) as real
  }

  function Values(ns: seq<Num>, places: nat): (r: seq<Operand>)
    ensures |r| == |ns|
  {
    seq(|ns|, i requires 0 <= i < |ns| => Number(Value(ns[i], places)))
  }

  function Paint(c: Color): seq<Operand> {
    Values([c.r, c.g, c.b], 3)
  }

  /** Font, colour, position and text; or colour and rectangle; or width, colour and line. */
  function Program(op: Op): seq<Instr> {
    match op
    case TextOp(x, y, size, text, bold, color) =>
      [Instr("BT", []), Instr("Tf", [NameOperand(if bold then "F2" else "F1")] + Values([size], 2)),
          Instr("rg", Paint(color)),
       Instr("Tm", [Number(1.0), Number(0.0), Number(0.0), Number(1.0)] + Values([x, y], 2)),
       Instr("Tj", [StringOperand(RenderedText(text))]), Instr("ET", [])]
    case RectOp(x, y, w, h, color) =>
      [Instr("rg", Paint(color)), Instr("re", Values([x, y, w, h], 2)), Instr("f", [])]
    case LineOp(x1, y1, x2, y2, color, width) =>
      [Instr("w", Values([width], 2)), Instr("RG", Paint(color)), Instr("m", Values([x1, y1], 2)),
       Instr("l", Values([x2, y2], 2)), Instr("S", [])]
  }

  function Programs(ops: seq<Op>): seq<Instr> {
    if ops == [] then [] else Program(ops[0]) + Programs(ops[1..])
  }

  // ----- numbers -----

  lemma Divided(n: nat, d: nat)
    requires d > 0
    ensures Quotient(n, d) as real + Remainder(n, d) as real / d as real == n as real / d as real
  {
    assert n == Quotient(n, d) * d + Remainder(n, d);
    SplitFraction(Quotient(n, d) as real, Remainder(n, d) as real, d as real);
  }

  lemma SplitFraction(q: real, r: real, d: real)
    requires d != 0.0
    ensures q + r / d == (q * d + r) / d
  {
  }

  lemma PaddedExactly(n: nat, places: nat)
    requires n < Pow10(places) && places > 0
    ensures |Padded(n, places)| == places
  {
    DigitCount(n, places);
  }

  lemma UnsignedNumber(whole: string, fraction: string)
    requires AllDigits(whole) && AllDigits(fraction) && whole != ""
    ensures var u := whole + "." + fraction; WholePart(u) == whole && FractionPart(u) == fraction && Unsigned(u) == u
  {
    var u := whole + "." + fraction;
    forall i | 0 <= i < |whole| ensures whole[i] != '.' {
      assert IsDigit(whole[i]);
    }
    FirstIndexOf(u, whole, '.');
    assert u[0] == whole[0] && IsDigit(whole[0]);
  }

  lemma SignedNumber(w: string, negative: bool, whole: string, fraction: string)
    requires AllDigits(whole) && AllDigits(fraction) && whole != ""
    requires w == (if negative then "-" else "") + whole + "." + fraction
    ensures IsNumber(w)
    ensures NumberOf(w) == if negative then -Magnitude(whole, fraction) else Magnitude(whole, fraction)
  {
    var u := whole + "." + fraction;
    UnsignedNumber(whole, fraction);
    if negative {
      assert w[1..] == u;
    } else {
      assert w == u;
    }
  }

  lemma FixedMagnitude(units: nat, places: nat)
    requires places > 0
    ensures Pow10(places) > 0
    ensures Magnitude(OfNat(Quotient(units, Pow10(places))), Padded(Remainder(units, Pow10(places)), places))
         == units as real / Pow10(places) as real
  {
    PowPositive(places);
    var d := Pow10(places);
    ToNatOfNat(Quotient(units, d));
    ToNatPadded(Remainder(units, d), places);
    PaddedExactly(Remainder(units, d), places);
    Divided(units, d);
  }

  /** A formatted number is read as its value. */
  lemma FixedIsRead(n: Num, places: nat)
    requires places > 0
    ensures IsNumber(Fixed(n, places)) && NumberOf(Fixed(n, places)) == Value(n, places)
  {
    FixedMagnitude(n.units, places);
    var d := Pow10(places);
    SignedNumber(Fixed(n, places), n.neg, OfNat(Quotient(n.units, d)), Padded(Remainder(n.units, d), places));
  }

  lemma FixedIsRegular(n: Num, places: nat)
    ensures AllRegular(Fixed(n, places)) && Fixed(n, places) != ""
  {
    PowPositive(places);
    DigitsAreRegular(OfNat(Quotient(n.units, Pow10(places))));
    DigitsAreRegular(Padded(Remainder(n.units, Pow10(places)), places));
  }

  // ----- words on a line -----

  /** Instructions performed and operands left over. */
  datatype Done = Done(instrs: seq<Instr>, operands: seq<Operand>)

  /** One word: an operand more, or an operator that takes them all. */
  function Act(w: string, operands: seq<Operand>): Done {
    if w != "" && w[0] == '/' then Done([], operands + [NameOperand(w[1..])])
    else if IsNumber(w) then Done([], operands + [Number(NumberOf(w))])
    else Done([Instr(w, operands)], [])
  }

  function ReadWords(words: seq<string>, operands: seq<Operand>): Done {
    if words == [] then Done([], operands)
    else
      var first := Act(words[0], operands);
      var later := ReadWords(words[1..], first.operands);
      Done(first.instrs + later.instrs, later.operands)
  }

  predicate IsWord(w: string) {
    w != "" && (AllRegular(w) || (w[0] == '/' && AllRegular(w[1..])))
  }

  predicate AllWords(words: seq<string>) {
    forall i :: 0 <= i < |words| ==> IsWord(words[i])
  }

  function PerformAll(instrs: seq<Instr>, later: Option<seq<Instr>>): Option<seq<Instr>> {
    if later.Some? then Some(instrs + later.value) else None
  }

  lemma WordIsNext(w: string, t: string)
    requires IsWord(w) && Stops(t)
    ensures Next(w + t) == if w[0] == '/' then Lexeme(Name(w[1..]), t) else Lexeme(Word(w), t)
  {
    if w[0] == '/' {
      assert w + t == "/" + w[1..] + t;
      NextName(w[1..], t);
    } else {
      NextWord(w, t);
    }
  }

  lemma BlankIsSkipped(c: char, s: string, operands: seq<Operand>)
    requires IsWhite(c)
    ensures ReadContent([c] + s, operands) == ReadContent(s, operands)
  {
    NextWhite(c, s);
  }

  /** One word in front of what follows. */
  lemma WordStep(w: string, t: string, operands: seq<Operand>)
    requires IsWord(w) && Stops(t)
    ensures var d := Act(w, operands); ReadContent(w + t, operands) == PerformAll(d.instrs, ReadContent(t, d.operands))
  {
    WordIsNext(w, t);
    var later := ReadContent(t, Act(w, operands).operands);
    if later.Some? {
      assert [] + later.value == later.value;
    }
  }

  lemma PerformBoth(a: seq<Instr>, b: seq<Instr>, later: Option<seq<Instr>>)
    ensures PerformAll(a, PerformAll(b, later)) == PerformAll(a + b, later)
  {
    if later.Some? {
      assert a + (b + later.value) == a + b + later.value;
    }
  }

  lemma JoinFirst(words: seq<string>, t: string)
    requires |words| > 1
    ensures Join(" ", words) + t == words[0] + ([' '] + (Join(" ", words[1..]) + t))
  {
  }

  /** Words separated by blanks are read one by one. */
  lemma {:induction false} LineIsRead(words: seq<string>, t: string, operands: seq<Operand>)
    requires words != [] && Stops(t) && AllWords(words)
    ensures var d := ReadWords(words, operands);
            ReadContent(Join(" ", words) + t, operands) == PerformAll(d.instrs, ReadContent(t, d.operands))
  {
    var first := Act(words[0], operands);
    if |words| == 1 {
      WordStep(words[0], t, operands);
      assert words[1..] == [] && first.instrs + [] == first.instrs;
    } else {
      var rest := Join(" ", words[1..]) + t;
      var later := ReadWords(words[1..], first.operands);
      JoinFirst(words, t);
      WordStep(words[0], [' '] + rest, operands);
      BlankIsSkipped(' ', rest, first.operands);
      LineIsRead(words[1..], t, first.operands);
      PerformBoth(first.instrs, later.instrs, ReadContent(t, later.operands));
    }
  }

  // ----- one operation -----

  predicate IsOperator(w: string) {
    w != "" && AllRegular(w) && ('A' <= w[0] <= 'Z' || 'a' <= w[0] <= 'z')
  }

  lemma OperatorIsNoNumber(w: string)
    requires IsOperator(w)
    ensures !IsNumber(w) && IsWord(w)
  {
    var i := FirstIndex(w, '.');
    assert Unsigned(w) == w && i > 0;
    assert WholePart(w)[0] == w[0];
  }

  lemma WordsOfCons(w: string, more: seq<string>, operands: seq<Operand>)
    ensures var first := Act(w, operands); var later := ReadWords(more, first.operands);
            ReadWords([w] + more, operands) == Done(first.instrs + later.instrs, later.operands)
  {
    assert ([w] + more)[1..] == more;
  }

  /** An operand as the builder prints it. */
  datatype Arg = NumArg(n: Num, places: nat) | FontArg(bold: bool) | DigitArg(d: nat)

  datatype Group = Group(args: seq<Arg>, operator: string)

  predicate ArgOk(a: Arg) {
    (a.NumArg? ==> a.places > 0) && (a.DigitArg? ==> a.d < 10)
  }

  function ArgText(a: Arg): string
    requires ArgOk(a)
  {
    match a
    case NumArg(n, places) => Fixed(n, places)
    case FontArg(bold) => if bold then "/F2" else "/F1"
    case DigitArg(d) => [Digit(d)]
  }

  function ArgValue(a: Arg): Operand {
    match a
    case NumArg(n, places) => Number(Value(n, places))
    case FontArg(bold) => NameOperand(if bold then "F2" else "F1")
    case DigitArg(d) => Number(d as real)
  }

  predicate ArgsOk(args: seq<Arg>) {
    forall i :: 0 <= i < |args| ==> ArgOk(args[i])
  }

  predicate GroupsOk(gs: seq<Group>) {
    forall i :: 0 <= i < |gs| ==> ArgsOk(gs[i].args) && IsOperator(gs[i].operator)
  }

  function ArgTexts(args: seq<Arg>): (r: seq<string>)
    requires ArgsOk(args)
    ensures |r| == |args|
  {
    seq(|args|, i requires 0 <= i < |args| => ArgText(args[i]))
  }

  function ArgValues(args: seq<Arg>): (r: seq<Operand>)
    ensures |r| == |args|
  {
    seq(|args|, i requires 0 <= i < |args| => ArgValue(args[i]))
  }

  /** The words of a line of operations. */
  function GroupWords(gs: seq<Group>): seq<string>
    requires GroupsOk(gs)
  {
    if gs == [] then [] else ArgTexts(gs[0].args) + ([gs[0].operator] + GroupWords(gs[1..]))
  }

  function Instrs(gs: seq<Group>): (r: seq<Instr>)
    ensures |r| == |gs|
  {
    seq(|gs|, i requires 0 <= i < |gs| => Instr(gs[i].operator, ArgValues(gs[i].args)))
  }

  lemma DigitValue(w: string)
    requires |w| == 1 && IsDigit(w[0])
    ensures IsNumber(w) && NumberOf(w) == (w[0] as int - '0' as int) as real
  {
    assert FirstIndex(w, '.') == 1;
    assert WholePart(w) == w && FractionPart(w) == "" && Unsigned(w) == w;
    assert w[..0] == "";
  }

  lemma FontName(bold: bool)
    ensures var w := ArgText(FontArg(bold)); IsWord(w) && w[0] == '/' && w[1..] == (if bold then "F2" else "F1")
  {
  }

  lemma ArgActsAlone(a: Arg, operands: seq<Operand>)
    requires ArgOk(a)
    ensures IsWord(ArgText(a)) && Act(ArgText(a), operands) == Done([], operands + [ArgValue(a)])
  {
    match a
    case NumArg(n, places) =>
      FixedIsRead(n, places);
      FixedIsRegular(n, places);
      assert IsRegular(Fixed(n, places)[0]);
    case FontArg(bold) => FontName(bold);
    case DigitArg(d) => DigitValue([Digit(d)]);
  }

  lemma FirstArgActs(args: seq<Arg>, more: seq<string>, operands: seq<Operand>)
    requires args != [] && ArgsOk(args)
    ensures ReadWords(ArgTexts(args) + more, operands)
         == ReadWords(ArgTexts(args[1..]) + more, operands + [ArgValue(args[0])])
  {
    var rest := ArgTexts(args[1..]) + more;
    ArgTextsCons(args, more);
    ArgActsAlone(args[0], operands);
    WordsOfCons(ArgText(args[0]), rest, operands);
    NothingBefore(ReadWords(rest, operands + [ArgValue(args[0])]));
  }

  lemma ArgValuesCons(args: seq<Arg>, operands: seq<Operand>)
    requires args != []
    ensures operands + [ArgValue(args[0])] + ArgValues(args[1..]) == operands + ArgValues(args)
  {
  }

  /** Printed operands become operands, in order. */
  lemma {:induction false} ArgsAct(args: seq<Arg>, more: seq<string>, operands: seq<Operand>)
    requires ArgsOk(args)
    ensures ReadWords(ArgTexts(args) + more, operands) == ReadWords(more, operands + ArgValues(args))
  {
    if args == [] {
      assert ArgTexts(args) + more == more && operands + ArgValues(args) == operands;
    } else {
      FirstArgActs(args, more, operands);
      ArgsAct(args[1..], more, operands + [ArgValue(args[0])]);
      ArgValuesCons(args, operands);
    }
  }

  lemma ArgTextsHead(args: seq<Arg>)
    requires args != [] && ArgsOk(args)
    ensures ArgTexts(args) == [ArgText(args[0])] + ArgTexts(args[1..])
  {
    var a, b := ArgTexts(args), ArgTexts(args[1..]);
    forall i | 0 < i < |args| ensures a[i] == b[i - 1] {
      assert args[1..][i - 1] == args[i];
    }
  }

  lemma WordsAssoc(a: seq<string>, b: seq<string>, c: seq<string>)
    ensures (a + b) + c == a + (b + c)
  {
  }

  lemma ArgTextsCons(args: seq<Arg>, more: seq<string>)
    requires args != [] && ArgsOk(args)
    ensures ArgTexts(args) + more == [ArgText(args[0])] + (ArgTexts(args[1..]) + more)
  {
    ArgTextsHead(args);
    WordsAssoc([ArgText(args[0])], ArgTexts(args[1..]), more);
  }

  lemma NothingBefore(d: Done)
    ensures Done([] + d.instrs, d.operands) == d
  {
    assert [] + d.instrs == d.instrs;
  }

  lemma OperatorActs(operator: string, more: seq<string>, operands: seq<Operand>)
    requires IsOperator(operator)
    ensures var later := ReadWords(more, []);
            ReadWords([operator] + more, operands) == Done([Instr(operator, operands)] + later.instrs, later.operands)
  {
    OperatorIsNoNumber(operator);
    WordsOfCons(operator, more, operands);
  }

  lemma InstrsCons(gs: seq<Group>)
    requires gs != []
    ensures Instrs(gs) == [Instr(gs[0].operator, [] + ArgValues(gs[0].args))] + Instrs(gs[1..])
  {
    assert [] + ArgValues(gs[0].args) == ArgValues(gs[0].args);
  }

  /** A line of operations performs them and leaves no operand. */
  lemma {:induction false} GroupsRun(gs: seq<Group>)
    requires GroupsOk(gs)
    ensures ReadWords(GroupWords(gs), []) == Done(Instrs(gs), [])
  {
    if gs != [] {
      var more := GroupWords(gs[1..]);
      ArgsAct(gs[0].args, [gs[0].operator] + more, []);
      OperatorActs(gs[0].operator, more, [] + ArgValues(gs[0].args));
      GroupsRun(gs[1..]);
      InstrsCons(gs);
    }
  }

  lemma {:induction false} GroupsAreWords(gs: seq<Group>)
    requires GroupsOk(gs)
    ensures AllWords(GroupWords(gs)) && (gs != [] ==> GroupWords(gs) != [])
  {
    if gs != [] {
      GroupsAreWords(gs[1..]);
      OperatorIsNoNumber(gs[0].operator);
      forall i | 0 <= i < |gs[0].args| ensures IsWord(ArgTexts(gs[0].args)[i]) {
        ArgActsAlone(gs[0].args[i], []);
      }
    }
  }

  /** The text of a line of operations. */
  function GroupText(g: Group): string
    requires ArgsOk(g.args)
  {
    if g.args == [] then g.operator else Join(" ", ArgTexts(g.args)) + " " + g.operator
  }

  function GroupTexts(gs: seq<Group>): (r: seq<string>)
    requires GroupsOk(gs)
    ensures |r| == |gs|
  {
    seq(|gs|, i requires 0 <= i < |gs| => GroupText(gs[i]))
  }

  lemma {:induction false} JoinConcat(a: seq<string>, b: seq<string>)
    requires a != [] && b != []
    ensures Join(" ", a + b) == Join(" ", a) + " " + Join(" ", b)
  {
    if |a| == 1 {
      assert (a + b)[1..] == b;
    } else {
      assert (a + b)[1..] == a[1..] + b;
      JoinConcat(a[1..], b);
      assert a[0] + " " + (Join(" ", a[1..]) + " " + Join(" ", b))
          == a[0] + " " + Join(" ", a[1..]) + " " + Join(" ", b);
    }
  }

  lemma GroupJoins(g: Group, more: seq<string>)
    requires ArgsOk(g.args)
    ensures Join(" ", ArgTexts(g.args) + ([g.operator] + more))
         == if more == [] then GroupText(g) else GroupText(g) + " " + Join(" ", more)
  {
    var texts, last := ArgTexts(g.args), [g.operator] + more;
    assert Join(" ", [g.operator]) == g.operator;
    if more == [] {
      assert last == [g.operator];
    } else {
      JoinConcat([g.operator], more);
    }
    if g.args == [] {
      assert texts + last == last;
    } else {
      JoinConcat(texts, last);
      assert Join(" ", texts) + " " + (g.operator + " " + Join(" ", more))
          == Join(" ", texts) + " " + g.operator + " " + Join(" ", more);
    }
  }

  /** Joining words joins the texts of the operations. */
  lemma {:induction false} GroupsJoin(gs: seq<Group>)
    requires GroupsOk(gs) && gs != []
    ensures Join(" ", GroupWords(gs)) == Join(" ", GroupTexts(gs))
  {
    var more := GroupWords(gs[1..]);
    GroupJoins(gs[0], more);
    if |gs| > 1 {
      GroupsAreWords(gs[1..]);
      GroupsJoin(gs[1..]);
      assert GroupTexts(gs)[1..] == GroupTexts(gs[1..]);
    }
  }

  /** The text of operations, in front of what follows, performs them. */
  lemma GroupsAreRead(gs: seq<Group>, t: string)
    requires GroupsOk(gs) && gs != [] && Stops(t)
    ensures ReadContent(Join(" ", GroupTexts(gs)) + t, []) == PerformAll(Instrs(gs), ReadContent(t, []))
  {
    GroupsJoin(gs);
    GroupsAreWords(gs);
    GroupsRun(gs);
    LineIsRead(GroupWords(gs), t, []);
  }

  // ----- the three drawing calls -----

  lemma Join2(a: string, b: string)
    ensures Join(" ", [a, b]) == a + " " + b
  {
    assert [a, b][1..] == [b];
  }

  lemma Join3(a: string, b: string, c: string)
    ensures Join(" ", [a, b, c]) == a + " " + b + " " + c
  {
    Join2(b, c);
    assert [a, b, c][1..] == [b, c];
    assert a + " " + (b + " " + c) == a + " " + b + " " + c;
  }

  lemma Join4(a: string, b: string, c: string, d: string)
    ensures Join(" ", [a, b, c, d]) == a + " " + b + " " + c + " " + d
  {
    Join3(b, c, d);
    assert [a, b, c, d][1..] == [b, c, d];
    assert a + " " + (b + " " + c + " " + d) == a + " " + b + " " + c + " " + d;
  }

  lemma Join5(a: string, b: string, c: string, d: string, e: string)
    ensures Join(" ", [a, b, c, d, e]) == a + " " + b + " " + c + " " + d + " " + e
  {
    Join4(b, c, d, e);
    assert [a, b, c, d, e][1..] == [b, c, d, e];
    assert a + " " + (b + " " + c + " " + d + " " + e) == a + " " + b + " " + c + " " + d + " " + e;
  }

  function Nums(ns: seq<Num>, places: nat): (r: seq<Arg>)
    ensures |r| == |ns|
  {
    seq(|ns|, i requires 0 <= i < |ns| => NumArg(ns[i], places))
  }

  function PaintArgs(c: Color): seq<Arg> {
    Nums([c.r, c.g, c.b], 3)
  }

  lemma GroupTextOf(args: seq<Arg>, operator: string, texts: seq<string>, text: string)
    requires ArgsOk(args) && args != [] && ArgTexts(args) == texts && Join(" ", texts) == text
    ensures GroupText(Group(args, operator)) == text + " " + operator
  {
  }

  lemma NumTexts(ns: seq<Num>, places: nat)
    requires places > 0
    ensures ArgsOk(Nums(ns, places))
    ensures |ArgTexts(Nums(ns, places))| == |ns| && forall i :: 0 <= i < |ns| ==>
              ArgTexts(Nums(ns, places))[i] == Fixed(ns[i], places)
  {
  }

  lemma NumsText1(ns: seq<Num>, operator: string)
    requires |ns| == 1
    ensures ArgsOk(Nums(ns, 2)) && GroupText(Group(Nums(ns, 2), operator)) == Fixed(ns[0], 2) + " " + operator
  {
    var a := Fixed(ns[0], 2);
    NumTexts(ns, 2);
    assert Join(" ", [a]) == a;
    GroupTextOf(Nums(ns, 2), operator, [a], a);
  }

  lemma NumsText2(ns: seq<Num>, operator: string)
    requires |ns| == 2
    ensures ArgsOk(Nums(ns, 2))
    ensures GroupText(Group(Nums(ns, 2), operator)) == Fixed(ns[0], 2) + " " + Fixed(ns[1], 2) + " " + operator
  {
    var a, b := Fixed(ns[0], 2), Fixed(ns[1], 2);
    NumTexts(ns, 2);
    Join2(a, b);
    GroupTextOf(Nums(ns, 2), operator, [a, b], a + " " + b);
  }

  lemma NumsText4(ns: seq<Num>, operator: string)
    requires |ns| == 4
    ensures ArgsOk(Nums(ns, 2))
    ensures GroupText(Group(Nums(ns, 2), operator))
         == Fixed(ns[0], 2) + " " + Fixed(ns[1], 2) + " " + Fixed(ns[2], 2) + " " + Fixed(ns[3], 2) + " " + operator
  {
    var a, b, c, d := Fixed(ns[0], 2), Fixed(ns[1], 2), Fixed(ns[2], 2), Fixed(ns[3], 2);
    NumTexts(ns, 2);
    Join4(a, b, c, d);
    GroupTextOf(Nums(ns, 2), operator, [a, b, c, d], a + " " + b + " " + c + " " + d);
  }

  lemma PaintText(c: Color, operator: string)
    ensures ArgsOk(PaintArgs(c)) && GroupText(Group(PaintArgs(c), operator)) == Rgb(c) + " " + operator
  {
    var r, g, b := Fixed(c.r, 3), Fixed(c.g, 3), Fixed(c.b, 3);
    NumTexts([c.r, c.g, c.b], 3);
    Join3(r, g, b);
    GroupTextOf(PaintArgs(c), operator, [r, g, b], r + " " + g + " " + b);
  }

  lemma JoinGroups3(gs: seq<Group>, a: string, b: string, c: string)
    requires GroupsOk(gs) && |gs| == 3 && GroupText(gs[0]) == a && GroupText(gs[1]) == b && GroupText(gs[2]) == c
    ensures Join(" ", GroupTexts(gs)) == a + " " + b + " " + c
  {
    assert GroupTexts(gs) == [a, b, c];
    Join3(a, b, c);
  }

  lemma JoinGroups4(gs: seq<Group>, a: string, b: string, c: string, d: string)
    requires GroupsOk(gs) && |gs| == 4
    requires GroupText(gs[0]) == a && GroupText(gs[1]) == b && GroupText(gs[2]) == c && GroupText(gs[3]) == d
    ensures Join(" ", GroupTexts(gs)) == a + " " + b + " " + c + " " + d
  {
    assert GroupTexts(gs) == [a, b, c, d];
    Join4(a, b, c, d);
  }

  lemma JoinGroups5(gs: seq<Group>, a: string, b: string, c: string, d: string, e: string)
    requires GroupsOk(gs) && |gs| == 5 && GroupText(gs[0]) == a && GroupText(gs[1]) == b
    requires GroupText(gs[2]) == c && GroupText(gs[3]) == d && GroupText(gs[4]) == e
    ensures Join(" ", GroupTexts(gs)) == a + " " + b + " " + c + " " + d + " " + e
  {
    assert GroupTexts(gs) == [a, b, c, d, e];
    Join5(a, b, c, d, e);
  }

  function RectGroups(op: Op): (gs: seq<Group>)
    requires op.RectOp?
    ensures GroupsOk(gs)
  {
    [Group(PaintArgs(op.color), "rg"), Group(Nums([op.x, op.y, op.w, op.h], 2), "re"), Group([], "f")]
  }

  lemma RectPieces(c: string, x: string, y: string, w: string, h: string)
    ensures c + " rg " + x + " " + y + " " + w + " " + h + " re f"
         == (c + " " + "rg") + " " + (x + " " + y + " " + w + " " + h + " " + "re") + " " + "f"
  {
  }

  lemma RectText(op: Op)
    requires op.RectOp?
    ensures OpText(op) == Join(" ", GroupTexts(RectGroups(op)))
  {
    var c, x, y, w, h := Rgb(op.color), Fixed(op.x, 2), Fixed(op.y, 2), Fixed(op.w, 2), Fixed(op.h, 2);
    PaintText(op.color, "rg");
    NumsText4([op.x, op.y, op.w, op.h], "re");
    JoinGroups3(RectGroups(op), c + " " + "rg", x + " " + y + " " + w + " " + h + " " + "re", "f");
    RectPieces(c, x, y, w, h);
  }

  lemma NumsValues(ns: seq<Num>, places: nat)
    ensures ArgValues(Nums(ns, places)) == Values(ns, places)
  {
  }

  lemma RectProgram(op: Op)
    requires op.RectOp?
    ensures Instrs(RectGroups(op)) == Program(op)
  {
    NumsValues([op.color.r, op.color.g, op.color.b], 3);
    NumsValues([op.x, op.y, op.w, op.h], 2);
    assert ArgValues([]) == [];
  }

  function LineGroups(op: Op): (gs: seq<Group>)
    requires op.LineOp?
    ensures GroupsOk(gs)
  {
    [Group(Nums([op.width], 2), "w"), Group(PaintArgs(op.color), "RG"), Group(Nums([op.x1, op.y1], 2), "m"),
     Group(Nums([op.x2, op.y2], 2), "l"), Group([], "S")]
  }

  lemma LinePieces(w: string, c: string, x1: string, y1: string, x2: string, y2: string)
    ensures w + " w " + c + " RG " + x1 + " " + y1 + " m " + x2 + " " + y2 + " l S"
         == (w + " " + "w") + " " + (c + " " + "RG") + " " + (x1 + " " + y1 + " " + "m") + " "
            + (x2 + " " + y2 + " " + "l") + " " + "S"
  {
  }

  lemma LineText(op: Op)
    requires op.LineOp?
    ensures OpText(op) == Join(" ", GroupTexts(LineGroups(op)))
  {
    var w, c := Fixed(op.width, 2), Rgb(op.color);
    var x1, y1, x2, y2 := Fixed(op.x1, 2), Fixed(op.y1, 2), Fixed(op.x2, 2), Fixed(op.y2, 2);
    NumsText1([op.width], "w");
    PaintText(op.color, "RG");
    NumsText2([op.x1, op.y1], "m");
    NumsText2([op.x2, op.y2], "l");
    JoinGroups5(LineGroups(op), w + " " + "w", c + " " + "RG", x1 + " " + y1 + " " + "m", x2 + " " + y2 + " " +
        "l", "S");
    LinePieces(w, c, x1, y1, x2, y2);
  }

  lemma LineProgram(op: Op)
    requires op.LineOp?
    ensures Instrs(LineGroups(op)) == Program(op)
  {
    NumsValues([op.width], 2);
    NumsValues([op.color.r, op.color.g, op.color.b], 3);
    NumsValues([op.x1, op.y1], 2);
    NumsValues([op.x2, op.y2], 2);
    assert ArgValues([]) == [];
  }

  /** What stands before the string of a text call. */
  function BeforeGroups(op: Op): (gs: seq<Group>)
    requires op.TextOp?
    ensures GroupsOk(gs)
  {
    [Group([], "BT"), Group([FontArg(op.bold)] + Nums([op.size], 2), "Tf"), Group(PaintArgs(op.color), "rg"),
     Group([DigitArg(1), DigitArg(0), DigitArg(0), DigitArg(1)] + Nums([op.x, op.y], 2), "Tm")]
  }

  lemma FontText(op: Op)
    requires op.TextOp?
    ensures var args := [FontArg(op.bold)] + Nums([op.size], 2);
            ArgsOk(args)
                && GroupText(Group(args, "Tf")) == ArgText(FontArg(op.bold)) + " " + Fixed(op.size, 2) + " " + "Tf"
  {
    var args := [FontArg(op.bold)] + Nums([op.size], 2);
    assert ArgTexts(args) == [ArgText(FontArg(op.bold)), Fixed(op.size, 2)];
    Join2(ArgText(FontArg(op.bold)), Fixed(op.size, 2));
  }

  lemma MatrixText(op: Op)
    requires op.TextOp?
    ensures var args := [DigitArg(1), DigitArg(0), DigitArg(0), DigitArg(1)] + Nums([op.x, op.y], 2);
            ArgsOk(args) && GroupText(Group(args, "Tm"))
              == ("1" + " " + "0" + " " + "0" + " " + "1") + " " + (Fixed(op.x, 2) + " " + Fixed(op.y, 2)) + " " + "Tm"
  {
    var args := [DigitArg(1), DigitArg(0), DigitArg(0), DigitArg(1)] + Nums([op.x, op.y], 2);
    var unit, at := ["1", "0", "0", "1"], [Fixed(op.x, 2), Fixed(op.y, 2)];
    assert ArgTexts(args) == unit + at;
    JoinConcat(unit, at);
    Join4("1", "0", "0", "1");
    Join2(Fixed(op.x, 2), Fixed(op.y, 2));
  }

  lemma BeforePieces(f: string, size: string, c: string, x: string, y: string)
    ensures "BT /" + f + " " + size + " Tf " + c + " rg " + "1 0 0 1 " + x + " " + y + " Tm "
         == "BT" + " " + ("/" + f + " " + size + " " + "Tf") + " " + (c + " " + "rg") + " "
            + (("1" + " " + "0" + " " + "0" + " " + "1") + " " + (x + " " + y) + " " + "Tm") + " "
  {
  }

  lemma BeforeIs(op: Op)
    requires op.TextOp?
    ensures BeforeText(op) == Join(" ", GroupTexts(BeforeGroups(op))) + " "
  {
    var f := if op.bold then "F2" else "F1";
    var size, c, x, y := Fixed(op.size, 2), Rgb(op.color), Fixed(op.x, 2), Fixed(op.y, 2);
    FontText(op);
    PaintText(op.color, "rg");
    MatrixText(op);
    assert ArgText(FontArg(op.bold)) == "/" + f;
    JoinGroups4(BeforeGroups(op), "BT", "/" + f + " " + size + " " + "Tf", c + " " + "rg",
                ("1" + " " + "0" + " " + "0" + " " + "1") + " " + (x + " " + y) + " " + "Tm");
    BeforePieces(f, size, c, x, y);
  }

  lemma ArgValuesConcat(a: seq<Arg>, b: seq<Arg>)
    ensures ArgValues(a + b) == ArgValues(a) + ArgValues(b)
  {
  }

  lemma BeforeProgram(op: Op)
    requires op.TextOp?
    ensures Program(op)
            == Instrs(BeforeGroups(op)) + [Instr("Tj", [StringOperand(RenderedText(op.text))]), Instr("ET", [])]
  {
    var font, unit := [FontArg(op.bold)], [DigitArg(1), DigitArg(0), DigitArg(0), DigitArg(1)];
    NumsValues([op.size], 2);
    NumsValues([op.color.r, op.color.g, op.color.b], 3);
    NumsValues([op.x, op.y], 2);
    ArgValuesConcat(font, Nums([op.size], 2));
    ArgValuesConcat(unit, Nums([op.x, op.y], 2));
    assert ArgValues(font) == [NameOperand(if op.bold then "F2" else "F1")];
    assert ArgValues(unit) == [Number(1.0), Number(0.0), Number(0.0), Number(1.0)];
    assert ArgValues([]) == [];
  }

  lemma StringStep(s: string, l: Literal, operands: seq<Operand>)
    requires ReadLiteral(s, 0) == Some(l)
    ensures ReadContent("(" + s, operands) == ReadContent(l.rest, operands + [StringOperand(l.text)])
  {
    Halves("(", s);
  }

  lemma OperatorStep(w: string, t: string, operands: seq<Operand>)
    requires IsOperator(w) && Stops(t)
    ensures ReadContent([' '] + (w + t), operands) == PerformAll([Instr(w, operands)], ReadContent(t, []))
  {
    BlankIsSkipped(' ', w + t, operands);
    OperatorIsNoNumber(w);
    WordStep(w, t, operands);
  }

  lemma TwoOperators(a: string, b: string, t: string, operands: seq<Operand>)
    requires IsOperator(a) && IsOperator(b) && Stops(t)
    ensures ReadContent([' '] + (a + ([' '] + (b + t))), operands)
         == PerformAll([Instr(a, operands)] + [Instr(b, [])], ReadContent(t, []))
  {
    var rest := [' '] + (b + t);
    OperatorStep(b, t, []);
    OperatorStep(a, rest, operands);
    PerformBoth([Instr(a, operands)], [Instr(b, [])], ReadContent(t, []));
  }

  lemma ShowPieces(t: string)
    ensures " Tj ET" + t == [' '] + ("Tj" + ([' '] + ("ET" + t)))
  {
  }

  /** The end of a text call. */
  lemma ShowStep(text: string, t: string)
    requires Stops(t)
    ensures ReadContent(" Tj ET" + t, [StringOperand(text)])
         == PerformAll([Instr("Tj", [StringOperand(text)]), Instr("ET", [])], ReadContent(t, []))
  {
    ShowPieces(t);
    assert [Instr("Tj", [StringOperand(text)])] + [Instr("ET", [])]
        == [Instr("Tj", [StringOperand(text)]), Instr("ET", [])];
    TwoOperators("Tj", "ET", t, [StringOperand(text)]);
  }

  lemma TextPieces(before: string, e: string, t: string)
    ensures before + " " + "(" + e + ") Tj ET" + t == before + ([' '] + ("(" + (e + (")" + (" Tj ET" + t)))))
  {
  }

  lemma TextIsRead(op: Op, t: string)
    requires op.TextOp? && Drawable(op) && Stops(t)
    ensures ReadContent(OpText(op) + t, []) == PerformAll(Program(op), ReadContent(t, []))
  {
    var e, rest := EscFrom(op.text).value, " Tj ET" + t;
    var gs := BeforeGroups(op);
    var literal := e + (")" + rest);
    var shown := RenderedText(op.text);
    BeforeIs(op);
    TextPieces(Join(" ", GroupTexts(gs)), e, t);
    GroupsAreRead(gs, [' '] + ("(" + literal));
    BlankIsSkipped(' ', "(" + literal, []);
    EscapedIsReadBack(op.text, rest);
    StringStep(literal, Literal(shown, rest), []);
    ShowStep(shown, t);
    assert [] + [StringOperand(shown)] == [StringOperand(shown)];
    PerformBoth(Instrs(gs), [Instr("Tj", [StringOperand(shown)]), Instr("ET", [])], ReadContent(t, []));
    BeforeProgram(op);
  }

  /** The line of a drawing call, in front of what follows, performs its program. */
  lemma OpIsRead(op: Op, t: string)
    requires Drawable(op) && Stops(t)
    ensures ReadContent(OpText(op) + t, []) == PerformAll(Program(op), ReadContent(t, []))
  {
    match op
    case TextOp(_, _, _, _, _, _) => TextIsRead(op, t);
    case RectOp(_, _, _, _, _) =>
      RectText(op);
      RectProgram(op);
      GroupsAreRead(RectGroups(op), t);
    case LineOp(_, _, _, _, _, _) =>
      LineText(op);
      LineProgram(op);
      GroupsAreRead(LineGroups(op), t);
  }

  // ----- a page -----

  predicate AllDrawable(ops: seq<Op>) {
    forall i :: 0 <= i < |ops| ==> Drawable(ops[i])
  }

  function Lines(ops: seq<Op>): (r: seq<string>)
    requires AllDrawable(ops)
    ensures |r| == |ops|
  {
    seq(|ops|, i requires 0 <= i < |ops| => OpText(ops[i]))
  }

  lemma LinesStep(ops: seq<Op>)
    requires AllDrawable(ops) && ops != []
    ensures AllDrawable(ops[1..])
    ensures Join("\n", Lines(ops))
         == if |ops| == 1 then OpText(ops[0]) else OpText(ops[0]) + "\n" + Join("\n", Lines(ops[1..]))
  {
    assert Lines(ops)[1..] == Lines(ops[1..]);
  }

  lemma OpAndBreak(op: Op, rest: string)
    requires Drawable(op)
    ensures ReadContent(OpText(op) + "\n" + rest, []) == PerformAll(Program(op), ReadContent(rest, []))
  {
    assert OpText(op) + "\n" + rest == OpText(op) + (['\n'] + rest);
    OpIsRead(op, ['\n'] + rest);
    BlankIsSkipped('\n', rest, []);
  }

  lemma LastOp(op: Op)
    requires Drawable(op)
    ensures ReadContent(OpText(op), []) == Some(Program(op))
  {
    OpIsRead(op, "");
    assert OpText(op) + "" == OpText(op) && Program(op) + [] == Program(op);
  }

  /** A content stream performs exactly the programs of the drawing calls, in order. */
  lemma {:induction false} LinesAreRead(ops: seq<Op>)
    requires AllDrawable(ops)
    ensures ReadContent(Join("\n", Lines(ops)), []) == Some(Programs(ops))
  {
    if ops != [] {
      LinesStep(ops);
      LinesAreRead(ops[1..]);
      if |ops| == 1 {
        LastOp(ops[0]);
        assert Program(ops[0]) + Programs(ops[1..]) == Program(ops[0]);
      } else {
        OpAndBreak(ops[0], Join("\n", Lines(ops[1..])));
      }
    }
  }

  // ----- encoding -----

  lemma FixedIsBytes(n: Num, places: nat)
    ensures IsBytes(Fixed(n, places))
  {
    PowPositive(places);
    DigitsAreBytes(OfNat(Quotient(n.units, Pow10(places))));
    DigitsAreBytes(Padded(Remainder(n.units, Pow10(places)), places));
    BytesConcats();
  }

  lemma GroupIsBytes(g: Group)
    requires ArgsOk(g.args) && IsBytes(g.operator)
    ensures IsBytes(GroupText(g))
  {
    forall i | 0 <= i < |g.args| ensures IsBytes(ArgTexts(g.args)[i]) {
      match g.args[i]
      case NumArg(n, places) => FixedIsBytes(n, places);
      case FontArg(_) =>
      case DigitArg(_) =>
    }
    JoinIsBytes(" ", ArgTexts(g.args));
    BytesConcats();
  }

  lemma GroupsAreBytes(gs: seq<Group>)
    requires GroupsOk(gs) && forall i :: 0 <= i < |gs| ==> IsBytes(gs[i].operator)
    ensures IsBytes(Join(" ", GroupTexts(gs)))
  {
    forall i | 0 <= i < |gs| ensures IsBytes(GroupTexts(gs)[i]) {
      GroupIsBytes(gs[i]);
    }
    JoinIsBytes(" ", GroupTexts(gs));
  }

  lemma TextIsBytes(op: Op)
    requires op.TextOp? && Drawable(op)
    ensures IsBytes(OpText(op))
  {
    var e := EscFrom(op.text).value;
    BeforeIs(op);
    GroupsAreBytes(BeforeGroups(op));
    BytesThree(Join(" ", GroupTexts(BeforeGroups(op))), " ", "(");
    EscapedIsLatin1(op.text);
    BytesThree(BeforeText(op) + "(", e, ") Tj ET");
  }

  lemma RectIsBytes(op: Op)
    requires op.RectOp?
    ensures IsBytes(OpText(op))
  {
    RectText(op);
    GroupsAreBytes(RectGroups(op));
  }

  lemma LineOperators(op: Op)
    requires op.LineOp?
    ensures forall i :: 0 <= i < |LineGroups(op)| ==> IsBytes(LineGroups(op)[i].operator)
  {
  }

  lemma LineIsBytes(op: Op)
    requires op.LineOp?
    ensures IsBytes(OpText(op))
  {
    LineText(op);
    LineOperators(op);
    GroupsAreBytes(LineGroups(op));
  }

  lemma OpIsBytes(op: Op)
    requires Drawable(op)
    ensures IsBytes(OpText(op))
  {
    if op.TextOp? {
      TextIsBytes(op);
    } else if op.RectOp? {
      RectIsBytes(op);
    } else {
      LineIsBytes(op);
    }
  }

  lemma {:induction false} LinesAreBytes(ops: seq<Op>)
    requires AllDrawable(ops)
    ensures IsBytes(Join("\n", Lines(ops)))
  {
    if ops != [] {
      LinesStep(ops);
      LinesAreBytes(ops[1..]);
      OpIsBytes(ops[0]);
      BytesThree(OpText(ops[0]), "\n", Join("\n", Lines(ops[1..])));
    }
  }

  lemma Latin1Identity(s: string)
    requires IsBytes(s)
    ensures Latin1(s) == s
  {
  }

  // ----- the whole way -----

  ghost predicate AllPagesDrawable(pages: seq<seq<Op>>) {
    forall k :: 0 <= k < |pages| ==> AllDrawable(pages[k])
  }

  ghost function PageLines(pages: seq<seq<Op>>): (r: seq<seq<string>>)
    requires AllPagesDrawable(pages)
    ensures |r| == |pages|
  {
    seq(|pages|, k requires 0 <= k < |pages| => Lines(pages[k]))
  }

  /**
   * From drawing to reading: following the standard from the end of the finished file leads to one
   * content stream per page, and the k-th stream performs exactly what was drawn on page k, with every
   * font, size, colour, coordinate and rendered string.
   */
  lemma DrawingIsReadBack(pages: seq<seq<Op>>)
    requires AllPagesDrawable(pages)
    ensures ReadPages(DocText(Contents(PageLines(pages))))
         == if LastOffset(Contents(PageLines(pages))) < OFFSET_LIMIT then Some(Contents(PageLines(pages))) else None
    ensures forall k :: 0 <= k < |pages| ==> ReadContent(Contents(PageLines(pages))[k], []) == Some(Programs(pages[k]))
  {
    PagesAreReadBack(Contents(PageLines(pages)));
    forall k | 0 <= k < |pages|
      ensures ReadContent(Contents(PageLines(pages))[k], []) == Some(Programs(pages[k]))
    {
      LinesAreBytes(pages[k]);
      Latin1Identity(Join("\n", Lines(pages[k])));
      LinesAreRead(pages[k]);
    }
  }
}
