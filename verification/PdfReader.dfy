/** A PDF reader from ISO 32000-1:2008 alone (7.3.8, 7.3.10, 7.5.4, 7.5.5, 7.7.3); a file is a string of bytes. */
module PdfReader {
  import opened Text
  import opened PdfSyntax
  import opened Wrappers

  // ----- indirect objects -----

  /** An indirect object: its value and, for a stream, its data. */
  datatype Body = Body(obj: Obj, data: Option<string>)

  /** What follows the end-of-line marker at the head of `s`. */
  function AfterEol(s: string): Option<string> {
    if |s| >= 1 && s[0] == '\n' then Some(s[1..])
    else if |s| >= 2 && s[0] == '\r' && s[1] == '\n' then Some(s[2..])
    else None
  }

  /** The /Length entry of a stream dictionary. */
  function StreamLength(o: Obj): Option<nat> {
    if !o.Dict? then None
    else
      match Lookup(o.entries, "Length")
      case Some(Int(n)) => Some(n)
      case _ => None
  }

  /** Stream data: exactly Length bytes after the keyword's end-of-line, then endstream, then endobj. */
  function ReadStream(o: Obj, s: string): Option<Body> {
    var data := AfterEol(s);
    var len := StreamLength(o);
    if data.None? || len.None? || len.value > |data.value| then None
    else
      var e := Next(data.value[len.value..]);
      if e.tok == Word("endstream") && Next(e.rest).tok == Word("endobj")
      then Some(Body(o, Some(data.value[..len.value])))
      else None
  }

  /** `num gen obj ... endobj` at the head of `s`. */
  function ReadIndirect(s: string, num: nat, gen: nat): Option<Body> {
    var a := Next(s);
    var b := Next(a.rest);
    var c := Next(b.rest);
    if !(IsInt(a.tok) && ToNat(a.tok.w) == num && IsInt(b.tok) && ToNat(b.tok.w) == gen && c.tok == Word("obj"))
    then None
    else
      var o := ParseObj(c.rest);
      if o.None? then None
      else
        var e := Next(o.value.rest);
        if e.tok == Word("endobj") then Some(Body(o.value.obj, None))
        else if e.tok == Word("stream") then ReadStream(o.value.obj, e.rest)
        else None
  }

  // ----- cross-reference table -----

  datatype XEntry = InUse(offset: nat, gen: nat) | Free(next: nat, gen: nat)
  datatype XEntries = XEntries(entries: seq<XEntry>, rest: string)

  /** One entry of exactly 20 bytes: nnnnnnnnnn ggggg n and a two-character end of line. */
  function ReadEntry(s: string): Option<XEntry> {
    if |s| < 20 || !AllDigits(s[..10]) || s[10] != ' ' || !AllDigits(s[11..16]) || s[16] != ' ' then None
    else if s[18..20] != " \n" && s[18..20] != " \r" && s[18..20] != "\r\n" then None
    else if s[17] == 'n' then Some(InUse(ToNat(s[..10]), ToNat(s[11..16])))
    else if s[17] == 'f' then Some(Free(ToNat(s[..10]), ToNat(s[11..16])))
    else None
  }

  function ReadEntries(s: string, n: nat): Option<XEntries> {
    if n == 0 then Some(XEntries([], s))
    else
      var e := ReadEntry(s);
      if e.None? then None
      else
        var r := ReadEntries(s[20..], n - 1);
        if r.None? then None else Some(XEntries([e.value] + r.value.entries, r.value.rest))
  }

  /** The cross-reference table and the trailer dictionary. */
  datatype Document = Document(table: seq<XEntry>, trailer: seq<Entry>)

  /** A cross-reference section with one subsection that starts at object 0, then the trailer. */
  function ReadXref(s: string): Option<Document> {
    var a := Next(s);
    var b := Next(a.rest);
    var c := Next(b.rest);
    if !(a.tok == Word("xref") && IsInt(b.tok) && ToNat(b.tok.w) == 0 && IsInt(c.tok)) then None
    else
      var lines := AfterEol(c.rest);
      if lines.None? then None
      else
        var es := ReadEntries(lines.value, ToNat(c.tok.w));
        if es.None? || Next(es.value.rest).tok != Word("trailer") then None
        else ReadTrailer(es.value.entries, Next(es.value.rest).rest)
  }

  function ReadTrailer(table: seq<XEntry>, s: string): Option<Document> {
    match ParseObj(s)
    case Some(Parsed(Dict(es), _)) =>
      if Lookup(es, "Size") == Some(Int(|table|)) then Some(Document(table, es)) else None
    case _ => None
  }

  // ----- the end of the file -----

  datatype Lines = Lines(before: string, last: string)

  /** The last line and what precedes its end-of-line marker. */
  function SplitLast(s: string): (r: Lines)
    ensures |r.before| <= |s|
  {
    if s == "" then Lines("", "")
    else
      var c := s[|s| - 1];
      if c == '\n' then Lines(s[..|s| - 1], "")
      else
        var r := SplitLast(s[..|s| - 1]);
        Lines(r.before, r.last + [c])
  }

  /** The byte offset between the lines startxref and %%EOF. */
  function StartXref(f: string): Option<nat> {
    var eof := SplitLast(f);
    var off := SplitLast(eof.before);
    var key := SplitLast(off.before);
    if eof.last == "%%EOF" && off.last != "" && AllDigits(off.last) && key.last == "startxref"
    then Some(ToNat(off.last)) else None
  }

  function ReadDocument(f: string): Option<Document> {
    match StartXref(f)
    case Some(pos) => if pos <= |f| then ReadXref(f[pos..]) else None
    case None => None
  }

  /** The object that a reference denotes. */
  function Resolve(f: string, table: seq<XEntry>, o: Obj): Option<Body> {
    if o.Ref? && o.num < |table| && table[o.num].InUse? && table[o.num].gen == o.gen
       && table[o.num].offset <= |f|
    then ReadIndirect(f[table[o.num].offset..], o.num, o.gen)
    else None
  }

  // ----- the page tree -----

  /** The value of `key` in the dictionary of type `kind` that `o` refers to. */
  function Field(f: string, table: seq<XEntry>, o: Obj, kind: string, key: string): Option<Obj> {
    match Resolve(f, table, o)
    case Some(Body(Dict(es), None)) =>
      if Lookup(es, "Type") == Some(NameObj(kind)) then Lookup(es, key) else None
    case _ => None
  }

  /** The content stream of the page that `kid` refers to. */
  function PageContent(f: string, table: seq<XEntry>, parent: Obj, kid: Obj): Option<string> {
    if Field(f, table, kid, "Page", "Parent") != Some(parent) then None
    else
      match Field(f, table, kid, "Page", "Contents")
      case Some(c) =>
        (match Resolve(f, table, c)
         case Some(Body(_, Some(data))) => Some(data)
         case _ => None)
      case None => None
  }

  /** All values, when each is there. */
  function Collect(os: seq<Option<string>>): Option<seq<string>> {
    if os == [] then Some([])
    else
      var t := Collect(os[1..]);
      if os[0].None? || t.None? then None else Some([os[0].value] + t.value)
  }

  function PageContents(f: string, table: seq<XEntry>, parent: Obj, kids: seq<Obj>): Option<seq<string>> {
    Collect(seq(|kids|, i requires 0 <= i < |kids| => PageContent(f, table, parent, kids[i])))
  }

  /** The content of every page in page order: startxref, table, trailer, catalog, page tree, kids. */
  function ReadPages(f: string): Option<seq<string>> {
    match ReadDocument(f)
    case None => None
    case Some(d) =>
      match Lookup(d.trailer, "Root")
      case None => None
      case Some(root) =>
        match Field(f, d.table, root, "Catalog", "Pages")
        case None => None
        case Some(pages) => ReadKids(f, d.table, pages)
  }

  function ReadKids(f: string, table: seq<XEntry>, pages: Obj): Option<seq<string>> {
    match Field(f, table, pages, "Pages", "Kids")
    case Some(Arr(kids)) =>
      if Field(f, table, pages, "Pages", "Count") == Some(Int(|kids|))
      then PageContents(f, table, pages, kids) else None
    case _ => None
  }

  // ----- what a page needs besides its content -----

  /** A dictionary, given directly or by a reference. */
  function DictOf(f: string, table: seq<XEntry>, o: Obj): Option<seq<Entry>> {
    match o
    case Dict(es) => Some(es)
    case Ref(_, _) =>
      (match Resolve(f, table, o)
       case Some(Body(Dict(es), None)) => Some(es)
       case _ => None)
    case _ => None
  }

  /** A Type 1 font (9.6.2): the name of the typeface and of the encoding. */
  datatype FontInfo = FontInfo(base: string, encoding: string)

  function FontIn(f: string, table: seq<XEntry>, o: Obj): Option<FontInfo> {
    match DictOf(f, table, o)
    case None => None
    case Some(es) =>
      if Lookup(es, "Type") != Some(NameObj("Font")) || Lookup(es, "Subtype") != Some(NameObj("Type1")) then None
      else
        match (Lookup(es, "BaseFont"), Lookup(es, "Encoding"))
        case (Some(NameObj(base)), Some(NameObj(encoding))) => Some(FontInfo(base, encoding))
        case _ => None
  }

  /** The entry of a dictionary that is a dictionary itself. */
  function SubDict(f: string, table: seq<XEntry>, es: Option<seq<Entry>>, key: string): Option<seq<Entry>> {
    match es
    case None => None
    case Some(entries) =>
      match Lookup(entries, key)
      case None => None
      case Some(o) => DictOf(f, table, o)
  }

  /** What a font name in a page's content stands for (7.8.3): from the page to its resources to the font. */
  function PageFont(f: string, table: seq<XEntry>, kid: Obj, name: string): Option<FontInfo> {
    match Field(f, table, kid, "Page", "Resources")
    case None => None
    case Some(resources) =>
      match SubDict(f, table, DictOf(f, table, resources), "Font")
      case None => None
      case Some(fonts) =>
        match Lookup(fonts, name)
        case None => None
        case Some(o) => FontIn(f, table, o)
  }

  /** The four sides of a page's media box (7.7.3.3). */
  function PageBox(f: string, table: seq<XEntry>, kid: Obj): Option<seq<Obj>> {
    match Field(f, table, kid, "Page", "MediaBox")
    case Some(Arr(items)) => if |items| == 4 then Some(items) else None
    case _ => None
  }

  /** The document's cross-reference table, its page tree root, and the kids of that. */
  datatype Tree = Tree(table: seq<XEntry>, root: Obj, kids: seq<Obj>)

  function ReadTree(f: string): Option<Tree> {
    match ReadDocument(f)
    case None => None
    case Some(d) =>
      match Lookup(d.trailer, "Root")
      case None => None
      case Some(root) =>
        match Field(f, d.table, root, "Catalog", "Pages")
        case None => None
        case Some(pages) =>
          match Field(f, d.table, pages, "Pages", "Kids")
          case Some(Arr(kids)) =>
            if Field(f, d.table, pages, "Pages", "Count") == Some(Int(|kids|)) then Some(Tree(d.table, pages, kids))
            else None
          case _ => None
  }
}
