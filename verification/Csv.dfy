/** The CSV printer of embed/widgets/csv.js against a parser for section 2 of RFC 4180. */
module Csv {
  import opened Text
  import opened Wrappers

  const BOM := "\U{FEFF}"
  const CRLF := "\r\n"

  /** A cell value: null or undefined, or anything else through its string form. */
  datatype Cell = Null | Value(text: string)

  /** A data row: an array of cells, or an object looked up by column name. */
  datatype Row = ArrayRow(cells: seq<Cell>) | ObjectRow(fields: map<string, Cell>)

  // ----- the printer -----

  /** `str.replace(/"/g, '""')` */
  function DoubleQuotes(s: string): string {
    if s == "" then "" else (if s[0] == '"' then "\"\"" else [s[0]]) + DoubleQuotes(s[1..])
  }

  function EncodeCsvField(c: Cell): string {
    match c
    case Null => ""
    case Value(s) =>
      if '"' in s || ',' in s || '\n' in s || '\r' in s then "\"" + DoubleQuotes(s) + "\"" else s
  }

  function Encode(cells: seq<Cell>): (r: seq<string>)
    ensures |r| == |cells|
  {
    seq(|cells|, i requires 0 <= i < |cells| => EncodeCsvField(cells[i]))
  }

  /** The cells of a row in output order; a missing field is undefined. */
  function CellsOf(columns: seq<string>, row: Row): seq<Cell> {
    match row
    case ArrayRow(cells) => cells
    case ObjectRow(fields) =>
      seq(|columns|, i requires 0 <= i < |columns| => if columns[i] in fields then fields[columns[i]] else Null)
  }

  function LineOf(cells: seq<Cell>): string {
    Join(",", Encode(cells))
  }

  /** The header and the data rows as cells. */
  function Table(columns: seq<string>, rows: seq<Row>): (r: seq<seq<Cell>>)
    ensures |r| == 1 + |rows|
  {
    [seq(|columns|, i requires 0 <= i < |columns| => Value(columns[i]))]
    + seq(|rows|, i requires 0 <= i < |rows| => CellsOf(columns, rows[i]))
  }

  function CsvText(table: seq<seq<Cell>>): string {
    BOM + Join(CRLF, seq(|table|, i requires 0 <= i < |table| => LineOf(table[i]))) + CRLF
  }

  method ToCsv(columns: seq<string>, rows: seq<Row>) returns (csv: string)
    ensures csv == CsvText(Table(columns, rows))
  {
    var lines := [];
    ghost var table := Table(columns, rows);
    lines := lines + [LineOf(seq(|columns|, i requires 0 <= i < |columns| => Value(columns[i])))];
    for i := 0 to |rows|
      invariant lines == seq(1 + i, k requires 0 <= k < 1 + i => LineOf(table[k]))
    {
      match rows[i] {
        case ArrayRow(cells) =>
          lines := lines + [LineOf(cells)];
        case ObjectRow(fields) =>
          lines := lines
            + [LineOf(seq(|columns|, k requires 0 <= k < |columns| =>
                 if columns[k] in fields then fields[columns[k]] else Null))];
      }
    }
    csv := BOM + Join(CRLF, lines) + CRLF;
  }

  // ----- the parser (RFC 4180, section 2) -----

  /** Where the parser is: before a field, inside a plain or a quoted one, or behind a closing quote. */
  datatype Mode = Start | Plain | Quoted | Closed

  /** The rows read, the fields of the current row, the characters of the current field. */
  datatype State = State(mode: Mode, rows: seq<seq<string>>, fields: seq<string>, field: string)

  function EndField(st: State): State {
    State(Start, st.rows, st.fields + [st.field], "")
  }

  function EndRow(st: State): State {
    State(Start, st.rows + [st.fields + [st.field]], [], "")
  }

  /** Rules 1 to 7; the text must end with the line break that rule 2 makes optional. */
  function Parse(st: State, s: string): Option<seq<seq<string>>>
    decreases |s|
  {
    if s == "" then
      if st.mode == Start && st.fields == [] then Some(st.rows) else None
    else if st.mode == Quoted then
      if s[0] != '"' then Parse(st.(field := st.field + [s[0]]), s[1..])
      else if |s| > 1 && s[1] == '"' then Parse(st.(field := st.field + "\""), s[2..])
      else Parse(st.(mode := Closed), s[1..])
    else if s[0] == ',' then Parse(EndField(st), s[1..])
    else if s[0] == '\r' then
      if |s| > 1 && s[1] == '\n' then Parse(EndRow(st), s[2..]) else None
    else if s[0] == '"' then
      if st.mode == Start then Parse(st.(mode := Quoted), s[1..]) else None
    else if s[0] == '\n' || st.mode == Closed then None
    else Parse(State(Plain, st.rows, st.fields, st.field + [s[0]]), s[1..])
  }

  /** A CSV document behind an optional byte order mark. */
  function ParseCsv(s: string): Option<seq<seq<string>>> {
    Parse(State(Start, [], [], ""), if BOM <= s then s[1..] else s)
  }

  // ----- round trip -----

  /** What a reader can know of a cell: null and the empty string are the same. */
  function CellText(c: Cell): string {
    if c.Null? then "" else c.text
  }

  function CellTexts(cells: seq<Cell>): (r: seq<string>)
    ensures |r| == |cells|
  {
    seq(|cells|, i requires 0 <= i < |cells| => CellText(cells[i]))
  }

  /** What a reader gets for a row: a line without cells is a line with one empty cell. */
  function ReadRow(cells: seq<Cell>): seq<string> {
    if cells == [] then [""] else CellTexts(cells)
  }

  function ReadTable(table: seq<seq<Cell>>): (r: seq<seq<string>>)
    ensures |r| == |table|
  {
    seq(|table|, i requires 0 <= i < |table| => ReadRow(table[i]))
  }

  predicate IsPlainText(s: string) {
    '"' !in s && ',' !in s && '\n' !in s && '\r' !in s
  }

  predicate Breaks(t: string) {
    t != "" && (t[0] == ',' || (t[0] == '\r' && |t| > 1 && t[1] == '\n'))
  }

  lemma ParseStep(st: State, c: char, s: string)
    requires IsPlainText([c]) && (st.mode == Start || st.mode == Plain)
    ensures Parse(st, [c] + s) == Parse(State(Plain, st.rows, st.fields, st.field + [c]), s)
  {
    assert ([c] + s)[1..] == s;
    assert c in [c];
  }

  /** A plain field in front of a separator. */
  lemma {:induction false} ParsePlain(st: State, w: string, t: string)
    requires IsPlainText(w) && st.mode == Plain
    ensures Parse(st, w + t) == Parse(st.(field := st.field + w), t)
    decreases |w|
  {
    if w == "" {
      assert w + t == t && st.field + w == st.field;
    } else {
      assert w + t == [w[0]] + (w[1..] + t);
      ParseStep(st, w[0], w[1..] + t);
      ParsePlain(st.(field := st.field + [w[0]]), w[1..], t);
      assert st.field + [w[0]] + w[1..] == st.field + w;
    }
  }

  lemma QuotedStep(st: State, c: char, s: string)
    requires st.mode == Quoted
    ensures Parse(st, (if c == '"' then "\"\"" else [c]) + s) == Parse(st.(field := st.field + [c]), s)
  {
    var u := (if c == '"' then "\"\"" else [c]) + s;
    if c == '"' {
      assert u[2..] == s;
    } else {
      assert u[1..] == s;
    }
  }

  lemma ClosingQuote(st: State, t: string)
    requires st.mode == Quoted && Breaks(t)
    ensures Parse(st, "\"" + t) == Parse(st.(mode := Closed), t)
  {
    var u := "\"" + t;
    assert u[1..] == t && u[1] == t[0];
  }

  lemma DoubledHead(w: string, u: string)
    requires w != ""
    ensures DoubleQuotes(w) + u == (if w[0] == '"' then "\"\"" else [w[0]]) + (DoubleQuotes(w[1..]) + u)
  {
  }

  lemma FieldGrows(f: string, w: string)
    requires w != ""
    ensures f + [w[0]] + w[1..] == f + w
  {
  }

  /** A quoted field behind its opening quote, in front of its closing one. */
  lemma {:induction false} ParseQuoted(st: State, w: string, u: string)
    requires st.mode == Quoted
    ensures Parse(st, DoubleQuotes(w) + u) == Parse(st.(field := st.field + w), u)
    decreases |w|
  {
    if w == "" {
      assert "" + u == u && st.field + w == st.field;
    } else {
      DoubledHead(w, u);
      QuotedStep(st, w[0], DoubleQuotes(w[1..]) + u);
      ParseQuoted(st.(field := st.field + [w[0]]), w[1..], u);
      FieldGrows(st.field, w);
    }
  }

  /** Behind a field the mode no longer matters: the separator decides. */
  lemma AtSeparator(a: State, b: State, t: string)
    requires Breaks(t) && a.mode != Quoted && b.mode != Quoted
    requires a.rows == b.rows && a.fields == b.fields && a.field == b.field
    ensures Parse(a, t) == Parse(b, t)
  {
  }

  lemma OpenQuote(st: State, s: string)
    requires st.mode == Start
    ensures Parse(st, "\"" + s) == Parse(st.(mode := Quoted), s)
  {
    var u := "\"" + s;
    assert u[1..] == s;
  }

  lemma QuotedPieces(w: string, t: string)
    ensures "\"" + DoubleQuotes(w) + "\"" + t == "\"" + (DoubleQuotes(w) + ("\"" + t))
  {
  }

  lemma ParseQuotedField(rows: seq<seq<string>>, fields: seq<string>, w: string, t: string)
    requires Breaks(t)
    ensures Parse(State(Start, rows, fields, ""), "\"" + DoubleQuotes(w) + "\"" + t)
         == Parse(State(Plain, rows, fields, w), t)
  {
    var st := State(Start, rows, fields, "");
    QuotedPieces(w, t);
    OpenQuote(st, DoubleQuotes(w) + ("\"" + t));
    ParseQuoted(st.(mode := Quoted), w, "\"" + t);
    assert "" + w == w;
    ClosingQuote(State(Quoted, rows, fields, w), t);
    AtSeparator(State(Closed, rows, fields, w), State(Plain, rows, fields, w), t);
  }

  lemma HeadAndTail(w: string, t: string)
    requires w != ""
    ensures w + t == [w[0]] + (w[1..] + t) && "" + [w[0]] == [w[0]] && [w[0]] + w[1..] == w
  {
  }

  lemma ParsePlainField(rows: seq<seq<string>>, fields: seq<string>, w: string, t: string)
    requires Breaks(t) && IsPlainText(w)
    ensures Parse(State(Start, rows, fields, ""), w + t) == Parse(State(Plain, rows, fields, w), t)
  {
    var st := State(Start, rows, fields, "");
    if w == "" {
      assert w + t == t;
      AtSeparator(st, State(Plain, rows, fields, ""), t);
    } else {
      HeadAndTail(w, t);
      assert w[0] in w;
      ParseStep(st, w[0], w[1..] + t);
      ParsePlain(State(Plain, rows, fields, [w[0]]), w[1..], t);
    }
  }

  lemma ParseField(rows: seq<seq<string>>, fields: seq<string>, c: Cell, t: string)
    requires Breaks(t)
    ensures Parse(State(Start, rows, fields, ""), EncodeCsvField(c) + t)
         == Parse(State(Plain, rows, fields, CellText(c)), t)
  {
    if c.Value? && !IsPlainText(c.text) {
      ParseQuotedField(rows, fields, c.text, t);
    } else {
      ParsePlainField(rows, fields, CellText(c), t);
    }
  }

  lemma FieldEnd(rows: seq<seq<string>>, fields: seq<string>, w: string, t: string)
    ensures Parse(State(Plain, rows, fields, w), "," + t) == Parse(State(Start, rows, fields + [w], ""), t)
    ensures Parse(State(Plain, rows, fields, w), CRLF + t) == Parse(State(Start, rows + [fields + [w]], [], ""), t)
  {
    assert ("," + t)[1..] == t && (CRLF + t)[2..] == t;
  }

  lemma SeparatorBreaks(t: string)
    ensures Breaks("," + t) && Breaks(CRLF + t)
  {
  }

  lemma LineStep(cells: seq<Cell>, t: string)
    requires |cells| > 1
    ensures LineOf(cells) + t == EncodeCsvField(cells[0]) + ("," + (LineOf(cells[1..]) + t))
    ensures CellTexts(cells) == [CellText(cells[0])] + CellTexts(cells[1..])
  {
    assert Encode(cells)[1..] == Encode(cells[1..]);
  }

  /** The first field of a line and the comma behind it. */
  lemma ParseFirst(rows: seq<seq<string>>, fields: seq<string>, cells: seq<Cell>, t: string)
    requires |cells| > 1
    ensures Parse(State(Start, rows, fields, ""), LineOf(cells) + t)
         == Parse(State(Start, rows, fields + [CellText(cells[0])], ""), LineOf(cells[1..]) + t)
  {
    var rest := LineOf(cells[1..]) + t;
    LineStep(cells, t);
    SeparatorBreaks(rest);
    ParseField(rows, fields, cells[0], "," + rest);
    FieldEnd(rows, fields, CellText(cells[0]), rest);
  }

  /** One line with its line break is one row. */
  lemma {:induction false} ParseLine(rows: seq<seq<string>>, fields: seq<string>, cells: seq<Cell>, t: string)
    requires cells != []
    ensures Parse(State(Start, rows, fields, ""), LineOf(cells) + (CRLF + t))
         == Parse(State(Start, rows + [fields + CellTexts(cells)], [], ""), t)
    decreases |cells|
  {
    var w := CellText(cells[0]);
    if |cells| == 1 {
      SeparatorBreaks(t);
      ParseField(rows, fields, cells[0], CRLF + t);
      FieldEnd(rows, fields, w, t);
      assert CellTexts(cells) == [w];
    } else {
      ParseFirst(rows, fields, cells, CRLF + t);
      ParseLine(rows, fields + [w], cells[1..], t);
      LineStep(cells, t);
      assert fields + [w] + CellTexts(cells[1..]) == fields + CellTexts(cells);
    }
  }

  lemma ParseAnyLine(rows: seq<seq<string>>, cells: seq<Cell>, t: string)
    ensures Parse(State(Start, rows, [], ""), LineOf(cells) + (CRLF + t))
         == Parse(State(Start, rows + [ReadRow(cells)], [], ""), t)
  {
    if cells == [] {
      assert LineOf(cells) + (CRLF + t) == LineOf([Null]) + (CRLF + t);
      ParseLine(rows, [], [Null], t);
      assert [] + CellTexts([Null]) == [""];
    } else {
      ParseLine(rows, [], cells, t);
      assert [] + CellTexts(cells) == CellTexts(cells);
    }
  }

  function LinesOf(table: seq<seq<Cell>>): (r: seq<string>)
    ensures |r| == |table|
  {
    seq(|table|, i requires 0 <= i < |table| => LineOf(table[i]))
  }

  lemma {:induction false} ParseLines(rows: seq<seq<string>>, table: seq<seq<Cell>>)
    requires table != []
    ensures Parse(State(Start, rows, [], ""), Join(CRLF, LinesOf(table)) + CRLF) == Some(rows + ReadTable(table))
    decreases |table|
  {
    var rest := if |table| == 1 then "" else Join(CRLF, LinesOf(table[1..])) + CRLF;
    assert LinesOf(table)[1..] == LinesOf(table[1..]);
    assert Join(CRLF, LinesOf(table)) + CRLF == LineOf(table[0]) + (CRLF + rest);
    ParseAnyLine(rows, table[0], rest);
    if |table| > 1 {
      ParseLines(rows + [ReadRow(table[0])], table[1..]);
      assert rows + [ReadRow(table[0])] + ReadTable(table[1..]) == rows + ReadTable(table);
    } else {
      assert [ReadRow(table[0])] == ReadTable(table);
    }
  }

  /** Every cell comes back exactly, for all texts; only a row without cells comes back as one empty cell. */
  lemma CsvIsReadBack(table: seq<seq<Cell>>)
    requires table != []
    ensures ParseCsv(CsvText(table)) == Some(ReadTable(table))
  {
    var body := Join(CRLF, LinesOf(table)) + CRLF;
    ParseLines([], table);
    assert CsvText(table) == BOM + body;
    assert (BOM + body)[1..] == body;
    assert [] + ReadTable(table) == ReadTable(table);
  }

  /** So the output determines the cell texts exactly when every row has a cell. */
  lemma ReadBackExactly(table: seq<seq<Cell>>)
    requires table != []
    ensures ParseCsv(CsvText(table)) == Some(seq(|table|, i requires 0 <= i < |table| => CellTexts(table[i])))
       <==> forall i :: 0 <= i < |table| ==> table[i] != []
  {
    CsvIsReadBack(table);
    var want := seq(|table|, i requires 0 <= i < |table| => CellTexts(table[i]));
    if ReadTable(table) == want {
      forall i | 0 <= i < |table| ensures table[i] != [] {
        assert ReadTable(table)[i] == want[i];
      }
    } else {
      var i :| 0 <= i < |table| && ReadTable(table)[i] != want[i];
    }
  }

  /** Two tables with the same output have the same cell texts. */
  lemma Injective(a: seq<seq<Cell>>, b: seq<seq<Cell>>)
    requires a != [] && b != [] && CsvText(a) == CsvText(b)
    ensures ReadTable(a) == ReadTable(b)
  {
    CsvIsReadBack(a);
    CsvIsReadBack(b);
  }

  /** The text of an object's field for a column: missing and null fields are empty. */
  function FieldText(fields: map<string, Cell>, column: string): string {
    if column in fields then
      match fields[column]
      case Null => ""
      case Value(text) => text
    else ""
  }

  /**
   * What a reader finds in the file of a table: behind the mark, the column names; then, row by row, for an object
   * the text of each column's field, for an array the text of each cell.
   */
  lemma ValuesAreReadBack(columns: seq<string>, rows: seq<Row>)
    requires columns != []
    ensures var csv := CsvText(Table(columns, rows));
            && csv[0] == '\U{FEFF}' && ParseCsv(csv).Some?
            && var found := ParseCsv(csv).value;
               && |found| == 1 + |rows| && found[0] == columns
               && forall i :: 0 <= i < |rows| ==> IsReadRow(columns, rows[i], found[i + 1])
  {
    var table := Table(columns, rows);
    CsvIsReadBack(table);
    assert ReadTable(table)[0] == columns;
    forall i | 0 <= i < |rows| ensures IsReadRow(columns, rows[i], ReadTable(table)[i + 1]) {
      assert table[i + 1] == CellsOf(columns, rows[i]);
      assert ReadTable(table)[i + 1] == ReadRow(table[i + 1]);
    }
  }

  predicate IsReadRow(columns: seq<string>, row: Row, found: seq<string>) {
    match row
    case ObjectRow(fields) =>
      |found| == |columns| && forall j :: 0 <= j < |columns| ==> found[j] == FieldText(fields, columns[j])
    case ArrayRow(cells) =>
      if cells == [] then found == [""]
      else
        && |found| == |cells|
        && forall j :: 0 <= j < |cells| ==> found[j] == match cells[j] case Null => "" case Value(text) => text
  }
}
