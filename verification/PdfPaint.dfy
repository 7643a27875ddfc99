/**
 * What is seen on the pages of a finished file: a painter for content streams after ISO 32000-1:2008 sections 8.4,
 * 8.5, 9.3 and 9.4, with a graphics state and the fonts that the page's resources name.
 */
module PdfPaint {
  import opened Text
  import opened PdfSyntax
  import opened PdfReader
  import opened PdfFile
  import opened PdfDocument
  import opened PdfText
  import opened PdfBuilder
  import opened PdfContent
  import opened Wrappers

  // ----- marks on a page -----

  datatype Rgb = Rgb(r: real, g: real, b: real)

  datatype Mark =
    | Glyphs(text: string, x: real, y: real, size: real, font: FontInfo, fill: Rgb)
    | Filled(x: real, y: real, w: real, h: real, fill: Rgb)
    | Stroked(x1: real, y1: real, x2: real, y2: real, width: real, stroke: Rgb)

  // ----- the painter -----

  datatype Piece = Rectangle(x: real, y: real, w: real, h: real) | From(x: real, y: real) | To(x: real, y: real)

  /** The graphics state, the text position within a text object, and the path being built. */
  datatype Graphics = Graphics(
    fill: Rgb, stroke: Rgb, width: real, font: Option<FontInfo>, size: real, at: Option<(real, real)>, path: seq<Piece>)

  const BLACK := Rgb(0.0, 0.0, 0.0)

  const START := Graphics(BLACK, BLACK, 1.0, None, 0.0, None, [])

  datatype Code =
    | BeginText | EndText | SetFont | FillColor | StrokeColor | SetWidth | SetMatrix | Show
    | AddRectangle | FillPath | MoveTo | LineTo | StrokePath | Unknown

  function CodeOf(operator: string): Code {
    if operator == "BT" then BeginText
    else if operator == "ET" then EndText
    else if operator == "Tf" then SetFont
    else if operator == "rg" then FillColor
    else if operator == "RG" then StrokeColor
    else if operator == "w" then SetWidth
    else if operator == "Tm" then SetMatrix
    else if operator == "Tj" then Show
    else if operator == "re" then AddRectangle
    else if operator == "f" then FillPath
    else if operator == "m" then MoveTo
    else if operator == "l" then LineTo
    else if operator == "S" then StrokePath
    else Unknown
  }

  /** The numbers among the operands, when all are numbers. */
  function Numbers(operands: seq<Operand>): Option<seq<real>> {
    if operands == [] then Some([])
    else
      var rest := Numbers(operands[1..]);
      if operands[0].Number? && rest.Some? then Some([operands[0].v] + rest.value) else None
  }

  datatype Painted = Painted(g: Graphics, marks: seq<Mark>)

  type FontTable = string -> Option<FontInfo>

  /** Operators with numbers for operands. */
  function StepNumbers(code: Code, ns: seq<real>, g: Graphics): Option<Painted> {
    match code
    case BeginText => if ns == [] && g.at.None? then Some(Painted(g.(at := Some((0.0, 0.0))), [])) else None
    case EndText => if ns == [] && g.at.Some? then Some(Painted(g.(at := None), [])) else None
    case FillColor => if |ns| == 3 then Some(Painted(g.(fill := Rgb(ns[0], ns[1], ns[2])), [])) else None
    case StrokeColor => if |ns| == 3 then Some(Painted(g.(stroke := Rgb(ns[0], ns[1], ns[2])), [])) else None
    case SetWidth => if |ns| == 1 then Some(Painted(g.(width := ns[0]), [])) else None
    case SetMatrix =>
      if |ns| == 6 && ns[..4] == [1.0, 0.0, 0.0, 1.0] && g.at.Some?
      then Some(Painted(g.(at := Some((ns[4], ns[5]))), [])) else None
    case AddRectangle =>
      if |ns| == 4 then Some(Painted(g.(path := g.path + [Rectangle(ns[0], ns[1], ns[2], ns[3])]), [])) else None
    case MoveTo => if |ns| == 2 then Some(Painted(g.(path := g.path + [From(ns[0], ns[1])]), [])) else None
    case LineTo =>
      if |ns| == 2 && g.path != [] then Some(Painted(g.(path := g.path + [To(ns[0], ns[1])]), [])) else None
    case FillPath =>
      if ns == [] && |g.path| == 1 && g.path[0].Rectangle? then
        var p := g.path[0];
        Some(Painted(g.(path := []), [Filled(p.x, p.y, p.w, p.h, g.fill)]))
      else None
    case StrokePath =>
      if ns == [] && |g.path| == 2 && g.path[0].From? && g.path[1].To? then
        var p, q := g.path[0], g.path[1];
        Some(Painted(g.(path := []), [Stroked(p.x, p.y, q.x, q.y, g.width, g.stroke)]))
      else None
    case _ => None
  }

  /** One instruction. Operators and paths that no drawing call prints are not handled. */
  function Step(i: Instr, g: Graphics, fonts: FontTable): Option<Painted> {
    match CodeOf(i.operator)
    case SetFont =>
      if |i.operands| == 2 && i.operands[0].NameOperand? && i.operands[1].Number? && fonts(i.operands[0].n).Some?
      then Some(Painted(g.(font := fonts(i.operands[0].n), size := i.operands[1].v), [])) else None
    case Show =>
      if |i.operands| == 1 && i.operands[0].StringOperand? && g.at.Some? && g.font.Some?
      then Some(Painted(g, [Glyphs(i.operands[0].s, g.at.value.0, g.at.value.1, g.size, g.font.value, g.fill)]))
      else None
    case code =>
      match Numbers(i.operands)
      case Some(ns) => StepNumbers(code, ns, g)
      case None => None
  }

  type Stepper = (Instr, Graphics) -> Option<Painted>

  function Stepping(fonts: FontTable): Stepper {
    (i: Instr, g: Graphics) => Step(i, g, fonts)
  }

  function Run(step: Stepper, instrs: seq<Instr>, g: Graphics): Option<Painted> {
    if instrs == [] then Some(Painted(g, []))
    else
      match step(instrs[0], g)
      case None => None
      case Some(p) => After(p.marks, Run(step, instrs[1..], p.g))
  }

  function PaintAll(instrs: seq<Instr>, g: Graphics, fonts: FontTable): Option<Painted> {
    Run(Stepping(fonts), instrs, g)
  }

  /** Marks left before the others. */
  function After(marks: seq<Mark>, p: Option<Painted>): Option<Painted> {
    if p.Some? then Some(p.value.(marks := marks + p.value.marks)) else None
  }

  // ----- what a drawing call is meant to leave -----

  function RgbOf(c: Color): Rgb {
    Rgb(Value(c.r, 3), Value(c.g, 3), Value(c.b, 3))
  }

  function MarkOf(op: Op): Mark {
    match op
    case TextOp(x, y, size, text, bold, color) =>
      Glyphs(RenderedText(text), Value(x, 2), Value(y, 2), Value(size, 2),
             if bold then HELVETICA_BOLD else HELVETICA, RgbOf(color))
    case RectOp(x, y, w, h, color) => Filled(Value(x, 2), Value(y, 2), Value(w, 2), Value(h, 2), RgbOf(color))
    case LineOp(x1, y1, x2, y2, color, width) =>
      Stroked(Value(x1, 2), Value(y1, 2), Value(x2, 2), Value(y2, 2), Value(width, 2), RgbOf(color))
  }

  function MarksOf(ops: seq<Op>): (r: seq<Mark>)
    ensures |r| == |ops|
  {
    seq(|ops|, i requires 0 <= i < |ops| => MarkOf(ops[i]))
  }

  // ----- a sheet -----

  /** The size of a sheet, in points, and what is on it. */
  datatype Sheet = Sheet(width: real, height: real, marks: seq<Mark>)

  function SideOf(o: Obj): Option<real> {
    match o
    case Int(n) => Some(n as real)
    case Real(text) => if IsNumber(text) then Some(NumberOf(text)) else None
    case _ => None
  }

  function SheetSize(box: seq<Obj>): Option<(real, real)>
    requires |box| == 4
  {
    if SideOf(box[0]) == Some(0.0) && SideOf(box[1]) == Some(0.0) && SideOf(box[2]).Some? && SideOf(box[3]).Some?
    then Some((SideOf(box[2]).value, SideOf(box[3]).value)) else None
  }

  function PageFonts(f: string, tree: Tree, kid: Obj): FontTable {
    name => PageFont(f, tree.table, kid, name)
  }

  /** What one page of the file shows. */
  function ReadSheet(f: string, tree: Tree, kid: Obj): Option<Sheet> {
    match PageContent(f, tree.table, tree.root, kid)
    case None => None
    case Some(content) =>
      match (PageBox(f, tree.table, kid), ReadContent(content, []))
      case (Some(box), Some(instrs)) =>
        (match (SheetSize(box), PaintAll(instrs, START, PageFonts(f, tree, kid)))
         case (Some(size), Some(p)) => Some(Sheet(size.0, size.1, p.marks))
         case _ => None)
      case _ => None
  }

  function CollectSheets(os: seq<Option<Sheet>>): Option<seq<Sheet>> {
    if os == [] then Some([])
    else
      var rest := CollectSheets(os[1..]);
      if os[0].None? || rest.None? then None else Some([os[0].value] + rest.value)
  }

  /** What the whole file shows, page by page. */
  function ReadSheets(f: string): Option<seq<Sheet>> {
    match ReadTree(f)
    case None => None
    case Some(tree) => CollectSheets(SheetsRead(f, tree))
  }

  function SheetsRead(f: string, tree: Tree): (r: seq<Option<Sheet>>)
    ensures |r| == |tree.kids|
  {
    seq(|tree.kids|, i requires 0 <= i < |tree.kids| => ReadSheet(f, tree, tree.kids[i]))
  }

  // ----- painting a drawing call -----

  lemma Codes()
    ensures CodeOf("BT") == BeginText && CodeOf("ET") == EndText && CodeOf("Tf") == SetFont
    ensures CodeOf("rg") == FillColor && CodeOf("RG") == StrokeColor && CodeOf("w") == SetWidth
    ensures CodeOf("Tm") == SetMatrix && CodeOf("Tj") == Show && CodeOf("re") == AddRectangle
    ensures CodeOf("f") == FillPath && CodeOf("m") == MoveTo && CodeOf("l") == LineTo && CodeOf("S") == StrokePath
  {
  }

  lemma {:induction false} NumbersOf(ns: seq<real>, operands: seq<Operand>)
    requires |operands| == |ns| && forall i :: 0 <= i < |ns| ==> operands[i] == Number(ns[i])
    ensures Numbers(operands) == Some(ns)
  {
    if ns != [] {
      NumbersOf(ns[1..], operands[1..]);
      assert ns == [ns[0]] + ns[1..];
    }
  }

  lemma PaintStep(i: Instr, rest: seq<Instr>, g: Graphics, fonts: FontTable, p: Painted)
    requires Step(i, g, fonts) == Some(p)
    ensures PaintAll([i] + rest, g, fonts) == After(p.marks, PaintAll(rest, p.g, fonts))
  {
    assert ([i] + rest)[1..] == rest;
  }

  lemma AfterTwice(a: seq<Mark>, b: seq<Mark>, p: Option<Painted>)
    ensures After(a, After(b, p)) == After(a + b, p) && After([], p) == p
  {
    if p.Some? {
      assert a + (b + p.value.marks) == a + b + p.value.marks && [] + p.value.marks == p.value.marks;
    }
  }

  lemma {:induction false} RunConcat(step: Stepper, a: seq<Instr>, b: seq<Instr>, g: Graphics)
    requires Run(step, a, g).Some?
    ensures var p := Run(step, a, g).value; Run(step, a + b, g) == After(p.marks, Run(step, b, p.g))
    decreases |a|
  {
    if a == [] {
      assert a + b == b;
      AfterTwice([], [], Run(step, b, g));
    } else {
      var first := step(a[0], g).value;
      RunConcat(step, a[1..], b, first.g);
      assert (a + b)[1..] == a[1..] + b;
      var p := Run(step, a[1..], first.g).value;
      AfterTwice(first.marks, p.marks, Run(step, b, p.g));
    }
  }

  lemma PaintConcat(a: seq<Instr>, b: seq<Instr>, g: Graphics, fonts: FontTable)
    requires PaintAll(a, g, fonts).Some?
    ensures var p := PaintAll(a, g, fonts).value;
            PaintAll(a + b, g, fonts) == After(p.marks, PaintAll(b, p.g, fonts))
  {
    RunConcat(Stepping(fonts), a, b, g);
  }

  /** An instruction whose operands are numbers. */
  lemma NumberStep(operator: string, code: Code, operands: seq<Operand>, ns: seq<real>, g: Graphics, fonts: FontTable)
    requires CodeOf(operator) == code && code != SetFont && code != Show
    requires |operands| == |ns| && forall i :: 0 <= i < |ns| ==> operands[i] == Number(ns[i])
    ensures Step(Instr(operator, operands), g, fonts) == StepNumbers(code, ns, g)
  {
    NumbersOf(ns, operands);
  }

  lemma Paint2(a: Instr, b: Instr, g: Graphics, fonts: FontTable, p: Painted, q: Painted)
    requires Step(a, g, fonts) == Some(p) && Step(b, p.g, fonts) == Some(q)
    ensures PaintAll([a] + [b], g, fonts) == Some(Painted(q.g, p.marks + q.marks))
  {
    PaintStep(a, [b], g, fonts, p);
    PaintStep(b, [], p.g, fonts, q);
    assert [b] + [] == [b] && q.marks + [] == q.marks;
  }

  /** Between two drawing calls: no text object is open and no path begun. */
  predicate Idle(g: Graphics) {
    g.at == None && g.path == []
  }

  /** A drawing call leaves its mark and nothing half done. */
  ghost predicate Leaves(instrs: seq<Instr>, g: Graphics, fonts: FontTable, mark: Mark) {
    var r := PaintAll(instrs, g, fonts);
    r.Some? && r.value.marks == [mark] && Idle(r.value.g)
  }

  lemma FillColorStep(c: Color, g: Graphics, fonts: FontTable)
    ensures Step(Instr("rg", Paint(c)), g, fonts) == Some(Painted(g.(fill := RgbOf(c)), []))
  {
    Codes();
    NumberStep("rg", FillColor, Paint(c), [Value(c.r, 3), Value(c.g, 3), Value(c.b, 3)], g, fonts);
  }

  lemma StrokeColorStep(c: Color, g: Graphics, fonts: FontTable)
    ensures Step(Instr("RG", Paint(c)), g, fonts) == Some(Painted(g.(stroke := RgbOf(c)), []))
  {
    Codes();
    NumberStep("RG", StrokeColor, Paint(c), [Value(c.r, 3), Value(c.g, 3), Value(c.b, 3)], g, fonts);
  }

  lemma WidthStep(w: Num, g: Graphics, fonts: FontTable)
    ensures Step(Instr("w", Values([w], 2)), g, fonts) == Some(Painted(g.(width := Value(w, 2)), []))
  {
    Codes();
    NumberStep("w", SetWidth, Values([w], 2), [Value(w, 2)], g, fonts);
  }

  lemma RectangleStep(x: Num, y: Num, w: Num, h: Num, g: Graphics, fonts: FontTable)
    requires g.path == []
    ensures Step(Instr("re", Values([x, y, w, h], 2)), g, fonts)
         == Some(Painted(g.(path := [Rectangle(Value(x, 2), Value(y, 2), Value(w, 2), Value(h, 2))]), []))
  {
    Codes();
    var ns := [Value(x, 2), Value(y, 2), Value(w, 2), Value(h, 2)];
    NumberStep("re", AddRectangle, Values([x, y, w, h], 2), ns, g, fonts);
    assert [] + [Rectangle(ns[0], ns[1], ns[2], ns[3])] == [Rectangle(ns[0], ns[1], ns[2], ns[3])];
  }

  lemma FillStep(x: real, y: real, w: real, h: real, g: Graphics, fonts: FontTable)
    requires g.path == [Rectangle(x, y, w, h)]
    ensures Step(Instr("f", []), g, fonts) == Some(Painted(g.(path := []), [Filled(x, y, w, h, g.fill)]))
  {
    Codes();
    NumberStep("f", FillPath, [], [], g, fonts);
  }

  lemma MoveStep(x: Num, y: Num, g: Graphics, fonts: FontTable)
    requires g.path == []
    ensures Step(Instr("m", Values([x, y], 2)), g, fonts)
         == Some(Painted(g.(path := [From(Value(x, 2), Value(y, 2))]), []))
  {
    Codes();
    NumberStep("m", MoveTo, Values([x, y], 2), [Value(x, 2), Value(y, 2)], g, fonts);
    assert [] + [From(Value(x, 2), Value(y, 2))] == [From(Value(x, 2), Value(y, 2))];
  }

  lemma LineToStep(x: Num, y: Num, g: Graphics, fonts: FontTable, p: Piece)
    requires g.path == [p]
    ensures Step(Instr("l", Values([x, y], 2)), g, fonts)
         == Some(Painted(g.(path := [p, To(Value(x, 2), Value(y, 2))]), []))
  {
    Codes();
    NumberStep("l", LineTo, Values([x, y], 2), [Value(x, 2), Value(y, 2)], g, fonts);
    assert [p] + [To(Value(x, 2), Value(y, 2))] == [p, To(Value(x, 2), Value(y, 2))];
  }

  lemma StrokeStep(x1: real, y1: real, x2: real, y2: real, g: Graphics, fonts: FontTable)
    requires g.path == [From(x1, y1), To(x2, y2)]
    ensures Step(Instr("S", []), g, fonts)
         == Some(Painted(g.(path := []), [Stroked(x1, y1, x2, y2, g.width, g.stroke)]))
  {
    Codes();
    NumberStep("S", StrokePath, [], [], g, fonts);
  }

  lemma RectInstrs(op: Op)
    requires op.RectOp?
    ensures Program(op) == [Instr("rg", Paint(op.color))]
                           + ([Instr("re", Values([op.x, op.y, op.w, op.h], 2))] + [Instr("f", [])])
  {
  }

  lemma RectPaints(op: Op, g: Graphics, fonts: FontTable)
    requires op.RectOp? && Idle(g)
    ensures Leaves(Program(op), g, fonts, MarkOf(op))
  {
    var x, y, w, h := Value(op.x, 2), Value(op.y, 2), Value(op.w, 2), Value(op.h, 2);
    var g1 := g.(fill := RgbOf(op.color));
    var g2 := g1.(path := [Rectangle(x, y, w, h)]);
    FillColorStep(op.color, g, fonts);
    RectangleStep(op.x, op.y, op.w, op.h, g1, fonts);
    FillStep(x, y, w, h, g2, fonts);
    RectInstrs(op);
    var a, b, c := Instr("rg", Paint(op.color)), Instr("re", Values([op.x, op.y, op.w, op.h], 2)), Instr("f", []);
    ThreePaint(a, b, c, g, fonts, Painted(g1, []), Painted(g2, []), Painted(g2.(path := []), [MarkOf(op)]));
  }

  lemma ThreePaint(a: Instr, b: Instr, c: Instr, g: Graphics, fonts: FontTable, p: Painted, q: Painted, r: Painted)
    requires Step(a, g, fonts) == Some(p) && Step(b, p.g, fonts) == Some(q) && Step(c, q.g, fonts) == Some(r)
    ensures PaintAll([a] + ([b] + [c]), g, fonts) == Some(Painted(r.g, p.marks + (q.marks + r.marks)))
  {
    Paint2(b, c, p.g, fonts, q, r);
    PaintStep(a, [b] + [c], g, fonts, p);
  }

  lemma FivePaint(a: Instr, b: Instr, c: Instr, d: Instr, e: Instr, g: Graphics, fonts: FontTable,
                  p: Painted, q: Painted, r: Painted, s: Painted, t: Painted)
    requires Step(a, g, fonts) == Some(p) && Step(b, p.g, fonts) == Some(q) && Step(c, q.g, fonts) == Some(r)
    requires Step(d, r.g, fonts) == Some(s) && Step(e, s.g, fonts) == Some(t)
    ensures PaintAll([a] + ([b] + ([c] + ([d] + [e]))), g, fonts)
         == Some(Painted(t.g, p.marks + (q.marks + (r.marks + (s.marks + t.marks)))))
  {
    ThreePaint(c, d, e, q.g, fonts, r, s, t);
    PaintStep(b, [c] + ([d] + [e]), p.g, fonts, q);
    PaintStep(a, [b] + ([c] + ([d] + [e])), g, fonts, p);
  }

  lemma LinePaints(op: Op, g: Graphics, fonts: FontTable)
    requires op.LineOp? && Idle(g)
    ensures Leaves(Program(op), g, fonts, MarkOf(op))
  {
    var x1, y1, x2, y2 := Value(op.x1, 2), Value(op.y1, 2), Value(op.x2, 2), Value(op.y2, 2);
    var g1 := g.(width := Value(op.width, 2));
    var g2 := g1.(stroke := RgbOf(op.color));
    var g3 := g2.(path := [From(x1, y1)]);
    var g4 := g3.(path := [From(x1, y1), To(x2, y2)]);
    WidthStep(op.width, g, fonts);
    StrokeColorStep(op.color, g1, fonts);
    MoveStep(op.x1, op.y1, g2, fonts);
    LineToStep(op.x2, op.y2, g3, fonts, From(x1, y1));
    StrokeStep(x1, y1, x2, y2, g4, fonts);
    LineInstrs(op);
    var a, b := Instr("w", Values([op.width], 2)), Instr("RG", Paint(op.color));
    var c, d, e := Instr("m", Values([op.x1, op.y1], 2)), Instr("l", Values([op.x2, op.y2], 2)), Instr("S", []);
    FivePaint(a, b, c, d, e, g, fonts, Painted(g1, []), Painted(g2, []), Painted(g3, []), Painted(g4, []),
              Painted(g4.(path := []), [MarkOf(op)]));
  }

  lemma LineInstrs(op: Op)
    requires op.LineOp?
    ensures Program(op) ==
            [Instr("w", Values([op.width], 2))] + ([Instr("RG", Paint(op.color))]
            + ([Instr("m", Values([op.x1, op.y1], 2))] + ([Instr("l", Values([op.x2, op.y2], 2))] + [Instr("S", [])])))
  {
  }

  /** The fonts that every page of a document names. */
  ghost predicate NamesFonts(fonts: FontTable) {
    fonts("F1") == Some(HELVETICA) && fonts("F2") == Some(HELVETICA_BOLD)
  }

  lemma FontStep(name: string, size: real, g: Graphics, fonts: FontTable, font: FontInfo)
    requires fonts(name) == Some(font)
    ensures Step(Instr("Tf", [NameOperand(name), Number(size)]), g, fonts)
         == Some(Painted(g.(font := Some(font), size := size), []))
  {
    Codes();
  }

  lemma ShowPaints(text: string, g: Graphics, fonts: FontTable)
    requires g.at.Some? && g.font.Some?
    ensures Step(Instr("Tj", [StringOperand(text)]), g, fonts)
         == Some(Painted(g, [Glyphs(text, g.at.value.0, g.at.value.1, g.size, g.font.value, g.fill)]))
  {
    Codes();
  }

  lemma TextInstrs(op: Op, name: string)
    requires op.TextOp? && name == if op.bold then "F2" else "F1"
    ensures Program(op) ==
            ([Instr("BT", [])] +
                ([Instr("Tf", [NameOperand(name), Number(Value(op.size, 2))])] + [Instr("rg", Paint(op.color))]))
            + ([Instr("Tm",
                [Number(1.0), Number(0.0), Number(0.0), Number(1.0), Number(Value(op.x, 2)), Number(Value(op.y, 2))])]
               + ([Instr("Tj", [StringOperand(RenderedText(op.text))])] + [Instr("ET", [])]))
  {
    assert [NameOperand(name)] + Values([op.size], 2) == [NameOperand(name), Number(Value(op.size, 2))];
    assert [Number(1.0), Number(0.0), Number(0.0), Number(1.0)] + Values([op.x, op.y], 2)
        == [Number(1.0), Number(0.0), Number(0.0), Number(1.0), Number(Value(op.x, 2)), Number(Value(op.y, 2))];
  }

  lemma MatrixStep(x: real, y: real, g: Graphics, fonts: FontTable)
    requires g.at.Some?
    ensures Step(Instr("Tm", [Number(1.0), Number(0.0), Number(0.0), Number(1.0), Number(x), Number(y)]), g, fonts)
         == Some(Painted(g.(at := Some((x, y))), []))
  {
    Codes();
    var ns := [1.0, 0.0, 0.0, 1.0, x, y];
    NumberStep("Tm", SetMatrix, [Number(1.0), Number(0.0), Number(0.0), Number(1.0), Number(x), Number(y)], ns,
        g, fonts);
    assert ns[..4] == [1.0, 0.0, 0.0, 1.0];
  }

  lemma BeginStep(g: Graphics, fonts: FontTable)
    requires g.at == None
    ensures Step(Instr("BT", []), g, fonts) == Some(Painted(g.(at := Some((0.0, 0.0))), []))
  {
    Codes();
    NumberStep("BT", BeginText, [], [], g, fonts);
  }

  lemma EndStep(g: Graphics, fonts: FontTable)
    requires g.at.Some?
    ensures Step(Instr("ET", []), g, fonts) == Some(Painted(g.(at := None), []))
  {
    Codes();
    NumberStep("ET", EndText, [], [], g, fonts);
  }

  lemma TextPaints(op: Op, g: Graphics, fonts: FontTable)
    requires op.TextOp? && Idle(g) && NamesFonts(fonts)
    ensures Leaves(Program(op), g, fonts, MarkOf(op))
  {
    var name := if op.bold then "F2" else "F1";
    var font := if op.bold then HELVETICA_BOLD else HELVETICA;
    var size, x, y := Value(op.size, 2), Value(op.x, 2), Value(op.y, 2);
    var shown := RenderedText(op.text);
    var g1 := g.(at := Some((0.0, 0.0)));
    var g2 := g1.(font := Some(font), size := size);
    var g3 := g2.(fill := RgbOf(op.color));
    var g4 := g3.(at := Some((x, y)));
    var a, b, c := Instr("BT", []), Instr("Tf", [NameOperand(name), Number(size)]), Instr("rg", Paint(op.color));
    BeginStep(g, fonts);
    FontStep(name, size, g1, fonts, font);
    FillColorStep(op.color, g2, fonts);
    ThreePaint(a, b, c, g, fonts, Painted(g1, []), Painted(g2, []), Painted(g3, []));
    var d := Instr("Tm", [Number(1.0), Number(0.0), Number(0.0), Number(1.0), Number(x), Number(y)]);
    var e, f := Instr("Tj", [StringOperand(shown)]), Instr("ET", []);
    MatrixStep(x, y, g3, fonts);
    ShowPaints(shown, g4, fonts);
    EndStep(g4, fonts);
    ThreePaint(d, e, f, g3, fonts, Painted(g4, []), Painted(g4, [MarkOf(op)]), Painted(g4.(at := None), []));
    PaintConcat([a] + ([b] + [c]), [d] + ([e] + [f]), g, fonts);
    TextInstrs(op, name);
  }

  lemma OpPaints(op: Op, g: Graphics, fonts: FontTable)
    requires Idle(g) && NamesFonts(fonts)
    ensures Leaves(Program(op), g, fonts, MarkOf(op))
  {
    match op
    case TextOp(_, _, _, _, _, _) => TextPaints(op, g, fonts);
    case RectOp(_, _, _, _, _) => RectPaints(op, g, fonts);
    case LineOp(_, _, _, _, _, _) => LinePaints(op, g, fonts);
  }

  /** The programs of a page's drawing calls leave the marks of the calls, in order, whatever the state before. */
  lemma {:induction false} ProgramsPaint(ops: seq<Op>, g: Graphics, fonts: FontTable)
    requires Idle(g) && NamesFonts(fonts)
    ensures PaintAll(Programs(ops), g, fonts).Some?
    ensures PaintAll(Programs(ops), g, fonts).value.marks == MarksOf(ops)
  {
    if ops != [] {
      OpPaints(ops[0], g, fonts);
      var p := PaintAll(Program(ops[0]), g, fonts).value;
      ProgramsPaint(ops[1..], p.g, fonts);
      PaintConcat(Program(ops[0]), Programs(ops[1..]), g, fonts);
      assert MarksOf(ops) == [MarkOf(ops[0])] + MarksOf(ops[1..]);
    }
  }

  // ----- the whole way -----

  lemma A4Texts()
    ensures OfNat(595) == "595" && OfNat(841) == "841" && Padded(28, 2) == "28" && Padded(89, 2) == "89"
  {
    assert OfNat(5) == "5" && OfNat(8) == "8" && OfNat(2) == "2";
    assert OfNat(59) == OfNat(5) + "9" && OfNat(84) == OfNat(8) + "4";
    assert OfNat(595) == OfNat(59) + "5" && OfNat(841) == OfNat(84) + "1";
    assert OfNat(28) == OfNat(2) + "8" && OfNat(89) == OfNat(8) + "9";
  }

  lemma A4Sides()
    ensures IsNumber("595.28") && NumberOf("595.28") == 595.28
    ensures IsNumber("841.89") && NumberOf("841.89") == 841.89
  {
    var w, h := Num(false, 59528), Num(false, 84189);
    assert Pow10(1) == 10 && Pow10(2) == 100;
    A4Texts();
    assert Fixed(w, 2) == "595.28" && Fixed(h, 2) == "841.89";
    FixedIsRead(w, 2);
    FixedIsRead(h, 2);
  }

  lemma A4Size(box: seq<Obj>)
    requires box == [Int(0), Int(0), Real("595.28"), Real("841.89")]
    ensures SheetSize(box) == Some((595.28, 841.89))
  {
    A4Sides();
  }

  lemma SheetStep(f: string, tree: Tree, kid: Obj, content: string, box: seq<Obj>, instrs: seq<Instr>,
                  size: (real, real), p: Painted)
    requires PageContent(f, tree.table, tree.root, kid) == Some(content) && ReadContent(content, []) == Some(instrs)
    requires PageBox(f, tree.table, kid) == Some(box) && |box| == 4 && SheetSize(box) == Some(size)
    requires PaintAll(instrs, START, PageFonts(f, tree, kid)) == Some(p)
    ensures ReadSheet(f, tree, kid) == Some(Sheet(size.0, size.1, p.marks))
  {
  }

  lemma SheetOf(f: string, tree: Tree, kid: Obj, ops: seq<Op>, content: string)
    requires PageContent(f, tree.table, tree.root, kid) == Some(content)
    requires ReadContent(content, []) == Some(Programs(ops))
    requires PageBox(f, tree.table, kid) == Some([Int(0), Int(0), Real("595.28"), Real("841.89")])
    requires NamesFonts(PageFonts(f, tree, kid))
    ensures ReadSheet(f, tree, kid) == Some(Sheet(595.28, 841.89, MarksOf(ops)))
  {
    var box := [Int(0), Int(0), Real("595.28"), Real("841.89")];
    A4Size(box);
    ProgramsPaint(ops, START, PageFonts(f, tree, kid));
    SheetStep(f, tree, kid, content, box, Programs(ops), (595.28, 841.89),
              PaintAll(Programs(ops), START, PageFonts(f, tree, kid)).value);
  }

  lemma {:induction false} AllSheets(os: seq<Option<Sheet>>, sheets: seq<Sheet>)
    requires |os| == |sheets| && forall k :: 0 <= k < |os| ==> os[k] == Some(sheets[k])
    ensures CollectSheets(os) == Some(sheets)
  {
    if os != [] {
      AllSheets(os[1..], sheets[1..]);
      assert sheets == [sheets[0]] + sheets[1..];
    }
  }

  function SheetsOf(pages: seq<seq<Op>>): (r: seq<Sheet>)
    ensures |r| == |pages|
  {
    seq(|pages|, k requires 0 <= k < |pages| => Sheet(595.28, 841.89, MarksOf(pages[k])))
  }

  lemma PageIsSeen(f: string, tree: Tree, contents: seq<string>, k: nat, kid: Obj, ops: seq<Op>)
    requires Resolves(f, tree.table, contents) && k < |contents| && kid == Ref(5 + 2 * k, 0) && tree.root == Ref(2, 0)
    requires ReadContent(contents[k], []) == Some(Programs(ops))
    ensures ReadSheet(f, tree, kid) == Some(Sheet(595.28, 841.89, MarksOf(ops)))
  {
    PageContentOf(f, tree.table, contents, k, kid);
    PageFontsOf(f, tree.table, contents, k, kid);
    PageBoxOf(f, tree.table, contents, k, kid);
    SheetOf(f, tree, kid, ops, contents[k]);
  }

  lemma SheetsFrom(f: string, tree: Tree, contents: seq<string>, pages: seq<seq<Op>>)
    requires Resolves(f, tree.table, contents) && |contents| == |pages|
    requires tree.root == Ref(2, 0) && tree.kids == Kids(|contents|)
    requires forall k :: 0 <= k < |pages| ==> ReadContent(contents[k], []) == Some(Programs(pages[k]))
    ensures CollectSheets(SheetsRead(f, tree)) == Some(SheetsOf(pages))
  {
    KidsAt(|contents|);
    var os := SheetsRead(f, tree);
    forall k | 0 <= k < |os| ensures os[k] == Some(SheetsOf(pages)[k]) {
      PageIsSeen(f, tree, contents, k, tree.kids[k], pages[k]);
    }
    AllSheets(os, SheetsOf(pages));
  }

  /**
   * From drawing to seeing: a reader that starts at the end of the finished file and paints what it finds sees
   * one upright A4 sheet per page with exactly what was drawn there, in order: every text in its typeface, size,
   * colour and place, every rectangle and every line; unless the last object lies too far back for the table.
   */
  lemma DrawingIsSeen(pages: seq<seq<Op>>)
    requires AllPagesDrawable(pages)
    ensures ReadSheets(DocText(Contents(PageLines(pages))))
         == if LastOffset(Contents(PageLines(pages))) < OFFSET_LIMIT then Some(SheetsOf(pages)) else None
  {
    var contents := Contents(PageLines(pages));
    DrawingIsReadBack(pages);
    TreeIsReadBack(contents);
    EveryObjectResolves(contents);
    if LastOffset(contents) < OFFSET_LIMIT {
      SheetsFrom(DocText(contents), Tree(Table(DocBodies(contents)), Ref(2, 0), Kids(|contents|)), contents, pages);
    }
  }
}
