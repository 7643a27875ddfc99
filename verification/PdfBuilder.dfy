/** The class Pdf of backend/app/pdf.py: drawing calls on a growing list of pages, and the serialiser. */
module PdfBuilder {
  import opened Text
  import opened PdfSyntax
  import opened PdfReader
  import opened PdfFile
  import opened PdfDocument
  import opened PdfText
  import opened Wrappers

  // ----- the object texts that the serialiser writes, one dictionary entry per piece -----

  const CATALOG := "<< " + ("/Type /Catalog " + "/Pages 2 0 R ") + ">>"

  function FontText(name: string): string {
    "<< " + ("/Type /Font " + ("/Subtype /Type1 " + ("/BaseFont /" + name + " " + "/Encoding /WinAnsiEncoding ")))
    + ">>"
  }

  function PagesText(nums: seq<nat>): string {
    var kids := Join(" ", seq(|nums|, k requires 0 <= k < |nums| => OfNat(nums[k]) + " 0 R"));
    "<< " + ("/Type /Pages " + (("/Kids [" + kids + "] ") + ("/Count " + OfNat(|nums|) + " "))) + ">>"
  }

  const FONTS := "<< /F1 3 0 R /F2 4 0 R >>"

  const RESOURCES := "<< " + ("/Font " + FONTS + " ") + ">>"

  function PageText(content: nat): string {
    "<< " + ("/Type /Page " + ("/Parent 2 0 R " + ("/MediaBox [0 0 595.28 841.89] " +
    (("/Resources " + RESOURCES + " ") + ("/Contents " + (OfNat(content) + " 0 R") + " "))))) + ">>"
  }

  function StreamText(content: string): string {
    "<< " + ("/Length " + OfNat(|content|) + " ") + ">>" + ("\nstream\n" + (content + "\nendstream"))
  }

  // ----- they are the printed objects of the document -----

  function Show(o: Obj): string {
    Print(o, "")
  }

  lemma ShowRef(n: nat)
    ensures Show(Ref(n, 0)) == OfNat(n) + " 0 R"
  {
    assert OfNat(0) == "0";
  }

  /** The text of a non-empty entry list: its first entry, then the others. */
  lemma EntriesText(es: seq<Entry>, line: string, rest: string)
    requires es != []
    requires line == "/" + es[0].key + " " + Show(es[0].val) + " "
    requires PrintEntries(es[1..], "") == rest
    ensures PrintEntries(es, "") == line + rest
  {
    PrintTail(es[0].val, " " + rest);
  }

  lemma LastEntryText(es: seq<Entry>, line: string)
    requires |es| == 1
    requires line == "/" + es[0].key + " " + Show(es[0].val) + " "
    ensures PrintEntries(es, "") == line
  {
    EntriesText(es, line, "");
    assert line + "" == line;
  }

  lemma FirstEntryText(es: seq<Entry>, e: Entry, text: string, line: string, rest: string)
    requires es != [] && es[0] == e && Show(e.val) == text
    requires line == "/" + e.key + " " + text + " "
    requires PrintEntries(es[1..], "") == rest
    ensures PrintEntries(es, "") == line + rest
  {
    EntriesText(es, line, rest);
  }

  /** An entry as it is printed, its value being printed as `text`. */
  function LineOf(key: string, text: string): string {
    "/" + key + " " + text + " "
  }

  lemma OneEntry(e: Entry, text: string)
    requires Show(e.val) == text
    ensures PrintEntries([e], "") == LineOf(e.key, text)
  {
    LastEntryText([e], LineOf(e.key, text));
  }

  lemma MoreEntries(e: Entry, text: string, es: seq<Entry>, rest: string)
    requires Show(e.val) == text && PrintEntries(es, "") == rest
    ensures PrintEntries([e] + es, "") == LineOf(e.key, text) + rest
  {
    assert ([e] + es)[1..] == es;
    FirstEntryText([e] + es, e, text, LineOf(e.key, text), rest);
  }

  lemma ShowDict(es: seq<Entry>, text: string)
    requires PrintEntries(es, "") == text
    ensures Show(Dict(es)) == "<< " + text + ">>"
  {
    PrintEntriesTail(es, ">>");
    assert ">>" + "" == ">>";
  }

  lemma CatalogText()
    ensures Show(Catalog()) == CATALOG
  {
    var es := Catalog().entries;
    ShowRef(2);
    assert OfNat(2) == "2";
    LastEntryText(es[1..], "/Pages 2 0 R ");
    EntriesText(es, "/Type /Catalog ", "/Pages 2 0 R ");
    ShowDict(es, "/Type /Catalog " + "/Pages 2 0 R ");
  }

  lemma FontLines(name: string)
    ensures "/BaseFont /" + name + " " == LineOf("BaseFont", "/" + name)
    ensures "/Encoding /WinAnsiEncoding " == LineOf("Encoding", "/" + "WinAnsiEncoding")
  {
  }

  lemma TypeLines()
    ensures "/Type /Font " == LineOf("Type", "/" + "Font") && "/Subtype /Type1 " == LineOf("Subtype", "/" + "Type1")
  {
  }

  lemma ShowName(name: string)
    ensures Show(NameObj(name)) == "/" + name
  {
  }

  lemma FourEntries(a: Entry, ta: string, b: Entry, tb: string, c: Entry, tc: string, d: Entry, td: string)
    requires Show(a.val) == ta && Show(b.val) == tb && Show(c.val) == tc && Show(d.val) == td
    ensures PrintEntries([a] + ([b] + ([c] + [d])), "") ==
            LineOf(a.key, ta) + (LineOf(b.key, tb) + (LineOf(c.key, tc) + LineOf(d.key, td)))
  {
    OneEntry(d, td);
    MoreEntries(c, tc, [d], LineOf(d.key, td));
    MoreEntries(b, tb, [c] + [d], LineOf(c.key, tc) + LineOf(d.key, td));
    MoreEntries(a, ta, [b] + ([c] + [d]), LineOf(b.key, tb) + (LineOf(c.key, tc) + LineOf(d.key, td)));
  }

  lemma FontEntries(name: string)
    ensures var es := Font(name).entries;
            es == [Entry("Type", NameObj("Font"))] + ([Entry("Subtype", NameObj("Type1"))]
                  + ([Entry("BaseFont", NameObj(name))] + [Entry("Encoding", NameObj("WinAnsiEncoding"))]))
  {
  }

  lemma FontAsText(name: string)
    ensures Show(Font(name)) == FontText(name)
  {
    FontEntries(name);
    ShowName("Font");
    ShowName("Type1");
    ShowName(name);
    ShowName("WinAnsiEncoding");
    FourEntries(Entry("Type", NameObj("Font")), "/" + "Font", Entry("Subtype", NameObj("Type1")), "/" + "Type1",
                Entry("BaseFont", NameObj(name)), "/" + name,
                Entry("Encoding", NameObj("WinAnsiEncoding")), "/" + "WinAnsiEncoding");
    FontLines(name);
    TypeLines();
    ShowDict(Font(name).entries,
             "/Type /Font " + ("/Subtype /Type1 " + ("/BaseFont /" + name + " " + "/Encoding /WinAnsiEncoding ")));
  }

  /** The items of an array are separated by single blanks. */
  lemma {:induction false} ItemsText(os: seq<Obj>, texts: seq<string>)
    requires |texts| == |os| && forall i :: 0 <= i < |os| ==> Show(os[i]) == texts[i]
    ensures PrintItems(os, "") == Join(" ", texts)
  {
    if |os| > 1 {
      ItemsText(os[1..], texts[1..]);
      PrintTail(os[0], " " + PrintItems(os[1..], ""));
    }
  }

  lemma ArrText(os: seq<Obj>, texts: seq<string>)
    requires |texts| == |os| && forall i :: 0 <= i < |os| ==> Show(os[i]) == texts[i]
    ensures Show(Arr(os)) == "[" + Join(" ", texts) + "]"
  {
    ItemsText(os, texts);
    PrintItemsTail(os, "]");
    assert "]" + "" == "]";
  }

  lemma KidsText(nums: seq<nat>, kids: string)
    requires forall k :: 0 <= k < |nums| ==> nums[k] == 5 + 2 * k
    requires kids == Join(" ", seq(|nums|, k requires 0 <= k < |nums| => OfNat(nums[k]) + " 0 R"))
    ensures Show(Arr(Kids(|nums|))) == "[" + kids + "]"
  {
    var n := |nums|;
    var texts := seq(n, k requires 0 <= k < n => OfNat(nums[k]) + " 0 R");
    forall k | 0 <= k < n ensures Show(Kids(n)[k]) == texts[k] {
      ShowRef(nums[k]);
    }
    ArrText(Kids(n), texts);
  }

  lemma PagesLines(kids: string, count: string)
    ensures "/Type /Pages " == LineOf("Type", "/" + "Pages") && "/Count " + count + " " == LineOf("Count", count)
    ensures "/Kids [" + kids + "] " == LineOf("Kids", "[" + kids + "]")
  {
  }

  lemma ThreeEntries(a: Entry, ta: string, b: Entry, tb: string, c: Entry, tc: string)
    requires Show(a.val) == ta && Show(b.val) == tb && Show(c.val) == tc
    ensures PrintEntries([a] + ([b] + [c]), "") == LineOf(a.key, ta) + (LineOf(b.key, tb) + LineOf(c.key, tc))
  {
    OneEntry(c, tc);
    MoreEntries(b, tb, [c], LineOf(c.key, tc));
    MoreEntries(a, ta, [b] + [c], LineOf(b.key, tb) + LineOf(c.key, tc));
  }

  lemma PagesEntriesAre(n: nat)
    ensures Pages(n).entries ==
            [Entry("Type", NameObj("Pages"))] + ([Entry("Kids", Arr(Kids(n)))] + [Entry("Count", Int(n))])
    ensures Show(Int(n)) == OfNat(n)
  {
  }

  lemma PagesAsText(nums: seq<nat>)
    requires forall k :: 0 <= k < |nums| ==> nums[k] == 5 + 2 * k
    ensures Show(Pages(|nums|)) == PagesText(nums)
  {
    var n := |nums|;
    var kids := Join(" ", seq(n, k requires 0 <= k < n => OfNat(nums[k]) + " 0 R"));
    KidsText(nums, kids);
    PagesEntriesAre(n);
    ShowName("Pages");
    PagesLines(kids, OfNat(n));
    ThreeEntries(Entry("Type", NameObj("Pages")), "/" + "Pages", Entry("Kids", Arr(Kids(n))), "[" + kids + "]",
                 Entry("Count", Int(n)), OfNat(n));
    ShowDict(Pages(n).entries, "/Type /Pages " + (("/Kids [" + kids + "] ") + ("/Count " + OfNat(n) + " ")));
  }

  lemma JoinFour(a: string, b: string, c: string, d: string)
    ensures Join(" ", [a, b, c, d]) == a + " " + (b + " " + (c + " " + d))
  {
    assert [c, d][1..] == [d];
    assert [b, c, d][1..] == [c, d];
    assert [a, b, c, d][1..] == [b, c, d];
    assert Join(" ", [c, d]) == c + " " + d;
    assert Join(" ", [b, c, d]) == b + " " + (c + " " + d);
  }

  lemma ArrFour(oa: Obj, a: string, ob: Obj, b: string, oc: Obj, c: string, od: Obj, d: string)
    requires Show(oa) == a && Show(ob) == b && Show(oc) == c && Show(od) == d
    ensures Show(Arr([oa, ob, oc, od])) == "[" + (a + " " + (b + " " + (c + " " + d))) + "]"
  {
    ArrText([oa, ob, oc, od], [a, b, c, d]);
    JoinFour(a, b, c, d);
  }

  lemma BoxItems()
    ensures Show(Int(0)) == "0" && Show(Real("595.28")) == "595.28" && Show(Real("841.89")) == "841.89"
  {
    assert OfNat(0) == "0";
  }

  lemma BoxPieces()
    ensures "[" + ("0" + " " + ("0" + " " + ("595.28" + " " + "841.89"))) + "]" == "[0 0 595.28 841.89]"
  {
  }

  lemma BoxText()
    ensures Show(MediaBox()) == "[0 0 595.28 841.89]"
  {
    BoxItems();
    ArrFour(Int(0), "0", Int(0), "0", Real("595.28"), "595.28", Real("841.89"), "841.89");
    BoxPieces();
  }

  lemma FontDictText()
    ensures Show(Dict([Entry("F1", Ref(3, 0)), Entry("F2", Ref(4, 0))])) == "<< /F1 3 0 R /F2 4 0 R >>"
  {
    var es := [Entry("F1", Ref(3, 0)), Entry("F2", Ref(4, 0))];
    ShowRef(3);
    ShowRef(4);
    assert OfNat(3) == "3" && OfNat(4) == "4";
    LastEntryText(es[1..], "/F2 4 0 R ");
    EntriesText(es, "/F1 3 0 R ", "/F2 4 0 R ");
    ShowDict(es, "/F1 3 0 R " + "/F2 4 0 R ");
    FontDictPieces();
  }

  lemma FontDictPieces()
    ensures "<< " + ("/F1 3 0 R " + "/F2 4 0 R ") + ">>" == "<< /F1 3 0 R /F2 4 0 R >>"
  {
  }

  /** How the entries of a page are written. */
  lemma FieldLines(text: string)
    ensures LineOf("Font", text) == "/Font " + text + " " && LineOf("MediaBox", text) == "/MediaBox " + text + " "
    ensures LineOf("Resources", text) == "/Resources " + text + " "
            && LineOf("Contents", text) == "/Contents " + text + " "
  {
  }

  lemma ResourcesText()
    ensures Show(Resources()) == RESOURCES
  {
    FontDictText();
    var inner := Dict([Entry("F1", Ref(3, 0)), Entry("F2", Ref(4, 0))]);
    OneEntry(Entry("Font", inner), FONTS);
    FieldLines(FONTS);
    ShowDict([Entry("Font", inner)], "/Font " + FONTS + " ");
  }

  lemma PageEntryLines()
    ensures LineOf("Type", "/" + "Page") == "/Type /Page " && LineOf("Parent", "2 0 R") == "/Parent 2 0 R "
    ensures "/MediaBox " + "[0 0 595.28 841.89]" + " " == "/MediaBox [0 0 595.28 841.89] "
  {
  }

  lemma ParentText()
    ensures Show(Ref(2, 0)) == "2 0 R"
  {
    ShowRef(2);
    assert OfNat(2) == "2";
  }

  lemma FiveEntries(a: Entry, ta: string, b: Entry, tb: string, c: Entry, tc: string, d: Entry, td: string,
                    e: Entry, te: string)
    requires Show(a.val) == ta && Show(b.val) == tb && Show(c.val) == tc && Show(d.val) == td && Show(e.val) == te
    ensures PrintEntries([a] + ([b] + ([c] + ([d] + [e]))), "") ==
            LineOf(a.key, ta) + (LineOf(b.key, tb) + (LineOf(c.key, tc) + (LineOf(d.key, td) + LineOf(e.key, te))))
  {
    FourEntries(b, tb, c, tc, d, td, e, te);
    MoreEntries(a, ta, [b] + ([c] + ([d] + [e])),
                LineOf(b.key, tb) + (LineOf(c.key, tc) + (LineOf(d.key, td) + LineOf(e.key, te))));
  }

  lemma PageEntriesAre(content: nat)
    ensures Page(content).entries ==
            [Entry("Type", NameObj("Page"))] + ([Entry("Parent", Ref(2, 0))] + ([Entry("MediaBox", MediaBox())]
            + ([Entry("Resources", Resources())] + [Entry("Contents", Ref(content, 0))])))
  {
  }

  lemma PageEntriesText(content: nat, c: string)
    requires Show(Ref(content, 0)) == c
    ensures PrintEntries(Page(content).entries, "") ==
            LineOf("Type", "/" + "Page") + (LineOf("Parent", "2 0 R") + (LineOf("MediaBox", "[0 0 595.28 841.89]")
            + (LineOf("Resources", RESOURCES) + LineOf("Contents", c))))
  {
    ShowName("Page");
    ParentText();
    BoxText();
    ResourcesText();
    PageEntriesAre(content);
    FiveEntries(Entry("Type", NameObj("Page")), "/" + "Page", Entry("Parent", Ref(2, 0)), "2 0 R",
                Entry("MediaBox", MediaBox()), "[0 0 595.28 841.89]", Entry("Resources", Resources()), RESOURCES,
                Entry("Contents", Ref(content, 0)), c);
  }

  lemma PageAsText(content: nat)
    ensures Show(Page(content)) == PageText(content)
  {
    var c := OfNat(content) + " 0 R";
    ShowRef(content);
    PageEntriesText(content, c);
    PageEntryLines();
    FieldLines("[0 0 595.28 841.89]");
    FieldLines(RESOURCES);
    FieldLines(c);
    ShowDict(Page(content).entries, "/Type /Page " + ("/Parent 2 0 R " + ("/MediaBox [0 0 595.28 841.89] " +
             (("/Resources " + RESOURCES + " ") + ("/Contents " + c + " ")))));
  }

  lemma StreamAsText(content: string)
    ensures BodyText(Body(StreamDict(|content|), Some(content)), "") == StreamText(content)
  {
    var line := "/Length " + OfNat(|content|) + " ";
    var es := StreamDict(|content|).entries;
    LastEntryText(es, line);
    ShowDict(es, line);
    var tail := "\nstream\n" + (content + ("\nendstream" + ""));
    PrintTail(StreamDict(|content|), tail);
    assert "\nendstream" + "" == "\nendstream";
  }

  // ----- drawing operators -----

  /** A formatted float: its sign, and its magnitude in units of the last printed place. */
  datatype Num = Num(neg: bool, units: nat)
  datatype Color = Color(r: Num, g: Num, b: Num)

  datatype Op =
    | TextOp(x: Num, y: Num, size: Num, text: string, bold: bool, color: Color)
    | RectOp(x: Num, y: Num, w: Num, h: Num, color: Color)
    | LineOp(x1: Num, y1: Num, x2: Num, y2: Num, color: Color, width: Num)

  function Quotient(n: nat, d: nat): nat
    requires d > 0
  {
    n / d
  }

  function Remainder(n: nat, d: nat): nat
    requires d > 0
  {
    n % d
  }

  /** `f"{n:.{places}f}"` */
  function Fixed(n: Num, places: nat): string {
    PowPositive(places);
    (if n.neg then "-" else "") + OfNat(Quotient(n.units, Pow10(places)))
    + "." + Padded(Remainder(n.units, Pow10(places)), places)
  }

  function Rgb(c: Color): string {
    Fixed(c.r, 3) + " " + Fixed(c.g, 3) + " " + Fixed(c.b, 3)
  }

  function BeforeText(op: Op): string
    requires op.TextOp?
  {
    "BT /" + (if op.bold then "F2" else "F1") + " " + Fixed(op.size, 2) + " Tf " + Rgb(op.color) + " rg "
    + "1 0 0 1 " + Fixed(op.x, 2) + " " + Fixed(op.y, 2) + " Tm "
  }

  predicate Drawable(op: Op) {
    op.TextOp? ==> EscFrom(op.text).Some?
  }

  /** The content-stream line of a drawing call. */
  function OpText(op: Op): string
    requires Drawable(op)
  {
    match op
    case TextOp(_, _, _, text, _, _) => BeforeText(op) + "(" + EscFrom(text).value + ") Tj ET"
    case RectOp(x, y, w, h, color) =>
      Rgb(color) + " rg " + Fixed(x, 2) + " " + Fixed(y, 2) + " " + Fixed(w, 2) + " " + Fixed(h, 2) + " re f"
    case LineOp(x1, y1, x2, y2, color, width) =>
      Fixed(width, 2) + " w " + Rgb(color) + " RG " + Fixed(x1, 2) + " " + Fixed(y1, 2) + " m "
      + Fixed(x2, 2) + " " + Fixed(y2, 2) + " l S"
  }

  /** `s.encode("latin-1", "replace")` */
  function Latin1(s: string): (r: string)
    ensures |r| == |s| && IsBytes(r)
  {
    seq(|s|, i requires 0 <= i < |s| => if s[i] as int > 255 then '?' else s[i])
  }

  /** The string stands for bytes. */
  predicate IsBytes(s: string) {
    forall i :: 0 <= i < |s| ==> s[i] as int <= 255
  }

  lemma BytesConcats()
    ensures forall a: string, b: string {:trigger IsBytes(a + b)} :: IsBytes(a) && IsBytes(b) ==> IsBytes(a + b)
  {
  }

  lemma BytesThree(a: string, b: string, c: string)
    requires IsBytes(a) && IsBytes(b) && IsBytes(c)
    ensures IsBytes(a + b + c)
  {
  }

  lemma DigitsAreBytes(s: string)
    requires AllDigits(s)
    ensures IsBytes(s)
  {
    forall i | 0 <= i < |s| ensures s[i] as int <= 255 {
      assert IsDigit(s[i]);
    }
  }

  lemma HeaderIsBytes()
    ensures IsBytes(HEADER)
  {
  }

  lemma CatalogIsBytes()
    ensures IsBytes(CATALOG)
  {
    BytesThree("<< ", "/Type /Catalog " + "/Pages 2 0 R ", ">>");
  }

  lemma ResourcesIsBytes()
    ensures IsBytes("/Resources " + RESOURCES + " ")
  {
    BytesThree("/Font ", FONTS, " ");
    BytesThree("<< ", "/Font " + FONTS + " ", ">>");
    BytesThree("/Resources ", RESOURCES, " ");
  }

  lemma FontIsBytes(name: string)
    requires IsBytes(name)
    ensures IsBytes(FontText(name))
  {
    BytesThree("/BaseFont /", name, " ");
    var t := "/BaseFont /" + name + " " + "/Encoding /WinAnsiEncoding ";
    BytesThree("/Type /Font ", "/Subtype /Type1 " + t, "");
    assert "/Type /Font " + ("/Subtype /Type1 " + t) + "" == "/Type /Font " + ("/Subtype /Type1 " + t);
    BytesThree("<< ", "/Type /Font " + ("/Subtype /Type1 " + t), ">>");
  }

  lemma {:induction false} JoinIsBytes(sep: string, parts: seq<string>)
    requires IsBytes(sep) && forall i :: 0 <= i < |parts| ==> IsBytes(parts[i])
    ensures IsBytes(Join(sep, parts))
  {
    if |parts| > 1 {
      JoinIsBytes(sep, parts[1..]);
      BytesThree(parts[0], sep, Join(sep, parts[1..]));
    }
  }

  lemma BytesTwo(a: string, b: string)
    requires IsBytes(a) && IsBytes(b)
    ensures IsBytes(a + b)
  {
  }

  lemma KidsAreBytes(nums: seq<nat>)
    ensures IsBytes(Join(" ", seq(|nums|, k requires 0 <= k < |nums| => OfNat(nums[k]) + " 0 R")))
  {
    var parts := seq(|nums|, k requires 0 <= k < |nums| => OfNat(nums[k]) + " 0 R");
    forall i | 0 <= i < |parts| ensures IsBytes(parts[i]) {
      DigitsAreBytes(OfNat(nums[i]));
    }
    JoinIsBytes(" ", parts);
  }

  lemma PagesPieces(kids: string, count: string)
    requires IsBytes(kids) && IsBytes(count)
    ensures IsBytes("<< " + ("/Type /Pages " + (("/Kids [" + kids + "] ") + ("/Count " + count + " "))) + ">>")
  {
    BytesThree("/Kids [", kids, "] ");
    BytesThree("/Count ", count, " ");
    var rest := ("/Kids [" + kids + "] ") + ("/Count " + count + " ");
    BytesTwo("/Kids [" + kids + "] ", "/Count " + count + " ");
    BytesTwo("/Type /Pages ", rest);
    BytesThree("<< ", "/Type /Pages " + rest, ">>");
  }

  lemma PagesTextIsBytes(nums: seq<nat>)
    ensures IsBytes(PagesText(nums))
  {
    KidsAreBytes(nums);
    DigitsAreBytes(OfNat(|nums|));
    PagesPieces(Join(" ", seq(|nums|, k requires 0 <= k < |nums| => OfNat(nums[k]) + " 0 R")), OfNat(|nums|));
  }

  lemma PageTextIsBytes(content: nat)
    ensures IsBytes(PageText(content))
  {
    var c := OfNat(content) + " 0 R";
    DigitsAreBytes(OfNat(content));
    ResourcesIsBytes();
    BytesThree("/Contents ", c, " ");
    var r, t := "/Resources " + RESOURCES + " ", "/Contents " + c + " ";
    PageBytes(r, t);
  }

  lemma PageBytes(r: string, t: string)
    requires IsBytes(r) && IsBytes(t)
    ensures IsBytes("<< " + ("/Type /Page " + ("/Parent 2 0 R " + ("/MediaBox [0 0 595.28 841.89] " + (r + t)))) + ">>")
  {
    BytesTwo(r, t);
    BytesTwo("/MediaBox [0 0 595.28 841.89] ", r + t);
    var box := "/MediaBox [0 0 595.28 841.89] " + (r + t);
    BytesTwo("/Parent 2 0 R ", box);
    BytesTwo("/Type /Page ", "/Parent 2 0 R " + box);
    BytesThree("<< ", "/Type /Page " + ("/Parent 2 0 R " + box), ">>");
  }

  lemma StreamTextIsBytes(content: string)
    requires IsBytes(content)
    ensures IsBytes(StreamText(content))
  {
    DigitsAreBytes(OfNat(|content|));
    BytesConcats();
  }

  predicate AllBytes(parts: seq<string>) {
    forall i :: 0 <= i < |parts| ==> IsBytes(parts[i])
  }

  // ----- the class -----

  /** A page's list of operators; the builder and the page list share it. */
  class OpList {
    var items: seq<string>

    constructor ()
      ensures items == []
    {
      items := [];
    }
  }

  datatype PageSpec = PageSpec(pageNum: nat, contentNum: nat, stream: string)

  class Pdf {
    var pages: seq<OpList>
    var ops: OpList

    /** The operator list that calls append to is the last page's own list, and no two pages share one. */
    ghost predicate Valid()
      reads this
    {
      && |pages| > 0 && ops == pages[|pages| - 1]
      && forall i, j :: 0 <= i < j < |pages| ==> pages[i] != pages[j]
    }

    /** The operators of every page, in page order. */
    ghost function Operators(): (r: seq<seq<string>>)
      reads this, pages
      ensures |r| == |pages|
    {
      seq(|pages|, i requires 0 <= i < |pages| reads this, pages => pages[i].items)
    }

    constructor ()
      ensures Valid() && fresh(pages[..]) && Operators() == [[]]
    {
      var first := new OpList();
      ops := first;
      pages := [first];
    }

    method NewPage()
      requires Valid()
      modifies this
      ensures Valid() && fresh(ops)
      ensures Operators() == old(Operators()) + [[]]
    {
      ops := new OpList();
      pages := pages + [ops];
    }

    /** Appends one operator to the current page and leaves all other pages alone. */
    method Append(line: string)
      requires Valid()
      modifies ops
      ensures Valid() && pages == old(pages)
      ensures Operators() == old(Operators())[|pages| - 1 := old(Operators())[|pages| - 1] + [line]]
    {
      ops.items := ops.items + [line];
      var n := |pages|;
      assert forall i :: 0 <= i < n - 1 ==> pages[i] != ops;
    }

    /** False stands for the exception that esc raises; nothing is drawn then. */
    method Text(x: Num, y: Num, size: Num, s: string, bold: bool, color: Color) returns (ok: bool)
      requires Valid()
      modifies ops
      ensures Valid() && pages == old(pages)
      ensures ok <==> ELLIPSIS !in s
      ensures ok <==> Drawable(TextOp(x, y, size, s, bold, color))
      ensures Operators() == if !ok then old(Operators())
                else old(Operators())[|pages| - 1 := old(Operators())[|pages| - 1]
                                                     + [OpText(TextOp(x, y, size, s, bold, color))]]
    {
      EscapeFailsOnEllipsis(s);
      var escaped := Esc(s);
      if escaped.None? {
        return false;
      }
      var font := if bold then "F2" else "F1";
      Append("BT /" + font + " " + Fixed(size, 2) + " Tf " + Rgb(color) + " rg " + "1 0 0 1 " + Fixed(x, 2) + " "
             + Fixed(y, 2) + " Tm " + "(" + escaped.value + ") Tj ET");
      return true;
    }

    method RectFill(x: Num, y: Num, w: Num, h: Num, color: Color)
      requires Valid()
      modifies ops
      ensures Valid() && pages == old(pages)
      ensures Operators() == old(Operators())[|pages| - 1 := old(Operators())[|pages| - 1]
                                                             + [OpText(RectOp(x, y, w, h, color))]]
    {
      Append(Rgb(color) + " rg " + Fixed(x, 2) + " " + Fixed(y, 2) + " " + Fixed(w, 2) + " " + Fixed(h, 2) + " re f");
    }

    method Line(x1: Num, y1: Num, x2: Num, y2: Num, color: Color, width: Num)
      requires Valid()
      modifies ops
      ensures Valid() && pages == old(pages)
      ensures Operators() == old(Operators())[|pages| - 1 := old(Operators())[|pages| - 1]
                                                             + [OpText(LineOp(x1, y1, x2, y2, color, width))]]
    {
      Append(Fixed(width, 2) + " w " + Rgb(color) + " RG " + Fixed(x1, 2) + " " + Fixed(y1, 2) + " m "
             + Fixed(x2, 2) + " " + Fixed(y2, 2) + " l S");
    }

    /** The serialised file: the document whose page contents are the joined, encoded operators. */
    method ToBytes() returns (out: string)
      requires Valid()
      ensures out == DocText(Contents(Operators()))
      ensures IsBytes(out)
    {
      ghost var contents := Contents(Operators());
      ghost var bs := DocBodies(contents);
      var specs: seq<PageSpec>, nums: seq<nat>, next := [], [], 5;
      for i := 0 to |pages|
        invariant |specs| == |nums| == i && next == 5 + 2 * i
        invariant forall k :: 0 <= k < i ==> specs[k] == PageSpec(5 + 2 * k, 6 + 2 * k, StreamText(contents[k]))
        invariant forall k :: 0 <= k < i ==> nums[k] == 5 + 2 * k
        invariant forall k :: 0 <= k < i ==> IsBytes(specs[k].stream)
      {
        var content := Latin1(Join("\n", pages[i].items));
        var stream := StreamText(content);
        StreamTextIsBytes(content);
        var pageNum, contentNum := next, next + 1;
        next := next + 2;
        specs := specs + [PageSpec(pageNum, contentNum, stream)];
        nums := nums + [pageNum];
      }
      var objects := AddObjects(contents, specs, nums);
      out := WriteFile(bs, objects);
    }
  }

  /** `"\n".join(ops)` encoded, for every page. */
  function Contents(pages: seq<seq<string>>): (r: seq<string>)
    ensures |r| == |pages|
  {
    seq(|pages|, i requires 0 <= i < |pages| => Latin1(Join("\n", pages[i])))
  }

  /** The four head objects, then a page and its stream for every page; each lands on its planned number. */
  method AddObjects(ghost contents: seq<string>, specs: seq<PageSpec>, nums: seq<nat>) returns (objects: seq<string>)
    requires |specs| == |nums| == |contents|
    requires forall k :: 0 <= k < |nums| ==> specs[k] == PageSpec(5 + 2 * k, 6 + 2 * k, StreamText(contents[k]))
    requires forall k :: 0 <= k < |nums| ==> nums[k] == 5 + 2 * k
    requires forall k :: 0 <= k < |nums| ==> IsBytes(specs[k].stream)
    ensures objects == DocTexts(contents)
    ensures AllBytes(objects)
  {
    ghost var texts := DocTexts(contents);
    objects := [CATALOG, PagesText(nums), FontText("Helvetica"), FontText("Helvetica-Bold")];
    HeadTexts(contents, nums);
    CatalogIsBytes();
    FontIsBytes("Helvetica");
    FontIsBytes("Helvetica-Bold");
    PagesTextIsBytes(nums);
    for i := 0 to |specs|
      invariant objects == texts[..4 + 2 * i]
      invariant AllBytes(objects)
    {
      PageTextIsBytes(specs[i].contentNum);
      PageTexts(contents, i);
      TakeTwo(texts, 4 + 2 * i, PageText(specs[i].contentNum), specs[i].stream);
      objects := objects + [PageText(specs[i].contentNum)];
      assert |objects| == specs[i].pageNum;
      objects := objects + [specs[i].stream];
      assert |objects| == specs[i].contentNum;
    }
  }

  /** The text of every object of a document. */
  function DocTexts(contents: seq<string>): (r: seq<string>)
    ensures |r| == 4 + 2 * |contents|
  {
    seq(4 + 2 * |contents|, i requires 0 <= i < 4 + 2 * |contents| => BodyText(DocBody(contents, i), ""))
  }

  lemma HeadBodies(contents: seq<string>)
    ensures DocBody(contents, 0) == Body(Catalog(), None) && DocBody(contents, 1) == Body(Pages(|contents|), None)
    ensures DocBody(contents, 2) == Body(Font("Helvetica"), None)
    ensures DocBody(contents, 3) == Body(Font("Helvetica-Bold"), None)
  {
  }

  lemma FirstFour(texts: seq<string>, a: string, b: string, c: string, d: string)
    requires |texts| >= 4 && texts[0] == a && texts[1] == b && texts[2] == c && texts[3] == d
    ensures texts[..4] == [a, b, c, d]
  {
  }

  lemma HeadTexts(contents: seq<string>, nums: seq<nat>)
    requires |nums| == |contents| && forall k :: 0 <= k < |nums| ==> nums[k] == 5 + 2 * k
    ensures DocTexts(contents)[..4] == [CATALOG, PagesText(nums), FontText("Helvetica"), FontText("Helvetica-Bold")]
  {
    HeadBodies(contents);
    CatalogText();
    PagesAsText(nums);
    FontAsText("Helvetica");
    FontAsText("Helvetica-Bold");
    TextsOf(contents, 0, Catalog());
    TextsOf(contents, 1, Pages(|contents|));
    TextsOf(contents, 2, Font("Helvetica"));
    TextsOf(contents, 3, Font("Helvetica-Bold"));
    FirstFour(DocTexts(contents), CATALOG, PagesText(nums), FontText("Helvetica"), FontText("Helvetica-Bold"));
  }

  lemma TakeTwo(texts: seq<string>, n: nat, a: string, b: string)
    requires n + 2 <= |texts| && a == texts[n] && b == texts[n + 1]
    requires AllBytes(texts[..n]) && IsBytes(a) && IsBytes(b)
    ensures texts[..n + 2] == texts[..n] + [a] + [b]
    ensures AllBytes(texts[..n] + [a] + [b])
  {
  }

  lemma TextsOf(contents: seq<string>, i: nat, o: Obj)
    requires i < 4 + 2 * |contents| && DocBody(contents, i) == Body(o, None)
    ensures DocTexts(contents)[i] == Show(o)
  {
  }

  lemma StreamTextsOf(contents: seq<string>, i: nat, data: string)
    requires i < 4 + 2 * |contents| && DocBody(contents, i) == Body(StreamDict(|data|), Some(data))
    ensures DocTexts(contents)[i] == StreamText(data)
  {
    StreamAsText(data);
  }

  /** The numbers assigned before the objects exist are the positions where they end up. */
  lemma PageTexts(contents: seq<string>, k: nat)
    requires k < |contents|
    ensures DocTexts(contents)[4 + 2 * k] == PageText(6 + 2 * k)
    ensures DocTexts(contents)[5 + 2 * k] == StreamText(contents[k])
  {
    PageBodies(contents, k);
    PageAsText(6 + 2 * k);
    TextsOf(contents, 4 + 2 * k, Page(6 + 2 * k));
    StreamTextsOf(contents, 5 + 2 * k, contents[k]);
  }

  lemma ObjectLine(num: nat, b: Body, text: string)
    requires BodyText(b, "") == text
    ensures ObjText(num, b, "") == OfNat(num) + " 0 obj\n" + text + "\nendobj\n"
  {
    var e := "\nendobj\n" + "";
    assert BodyText(b, e) == text + e by {
      match b.data {
        case None => PrintTail(b.obj, e);
        case Some(data) =>
          PrintTail(b.obj, "\nstream\n" + (data + ("\nendstream" + e)));
          PrintTail(b.obj, "\nstream\n" + (data + ("\nendstream" + "")));
      }
    }
  }

  lemma OneMoreObject(bs: seq<Body>, i: nat, text: string)
    requires i < |bs| && text == BodyText(bs[i], "")
    ensures HEADER + Objects(bs, i) + (OfNat(i + 1) + " 0 obj\n" + text + "\nendobj\n") == HEADER + Objects(bs, i + 1)
  {
    ObjectLine(i + 1, bs[i], text);
    AssocThree(HEADER, Objects(bs, i), ObjTexts(bs)[i]);
  }

  lemma OneMoreOffset(offs: seq<nat>, i: nat)
    requires i < |offs|
    ensures [0] + offs[..i] + [offs[i]] == [0] + offs[..i + 1]
  {
  }

  /** One object behind what is there. */
  method WriteObject(ghost bs: seq<Body>, i: nat, before: string, text: string) returns (out: string)
    requires i < |bs| && text == BodyText(bs[i], "") && before == HEADER + Objects(bs, i)
    requires IsBytes(before) && IsBytes(text)
    ensures out == HEADER + Objects(bs, i + 1) && IsBytes(out)
  {
    DigitsAreBytes(OfNat(i + 1));
    ObjectIsBytes(OfNat(i + 1), text);
    OneMoreObject(bs, i, text);
    out := before + (OfNat(i + 1) + " 0 obj\n" + text + "\nendobj\n");
  }

  /** The objects behind the header, with the offset of each. */
  method WriteObjects(ghost bs: seq<Body>, objects: seq<string>) returns (out: string, offsets: seq<nat>)
    requires |bs| == |objects| && forall k :: 0 <= k < |bs| ==> objects[k] == BodyText(bs[k], "")
    requires AllBytes(objects)
    ensures out == HEADER + Objects(bs, |bs|)
    ensures offsets == [0] + Offsets(bs)
    ensures IsBytes(out)
  {
    out := HEADER;
    offsets := [0];
    ghost var all := Offsets(bs);
    HeaderIsBytes();
    for i := 0 to |objects|
      invariant IsBytes(out) && out == HEADER + Objects(bs, i)
      invariant offsets == [0] + all[..i]
    {
      OneMoreOffset(all, i);
      offsets := offsets + [|out|];
      out := WriteObject(bs, i, out, objects[i]);
    }
    assert all[..|bs|] == all;
  }

  lemma ObjectIsBytes(num: string, text: string)
    requires IsBytes(num) && IsBytes(text)
    ensures IsBytes(num + " 0 obj\n" + text + "\nendobj\n")
  {
  }

  lemma AssocThree(a: string, b: string, c: string)
    ensures (a + b) + c == a + (b + c)
  {
  }

  /** The head of the table behind the objects. */
  method WriteTableHead(before: string, n: nat) returns (out: string)
    requires IsBytes(before)
    ensures out == before + ("xref\n0 " + OfNat(n) + "\n") + "0000000000 65535 f \n" && IsBytes(out)
  {
    DigitsAreBytes(OfNat(n));
    BytesThree("xref\n0 ", OfNat(n), "\n");
    BytesThree(before, "xref\n0 " + OfNat(n) + "\n", "0000000000 65535 f \n");
    out := before + ("xref\n0 " + OfNat(n) + "\n");
    out := out + "0000000000 65535 f \n";
  }

  /** Objects with their offsets, then the table, then the trailer. */
  method WriteFile(ghost bs: seq<Body>, objects: seq<string>) returns (out: string)
    requires |bs| == |objects| && forall k :: 0 <= k < |bs| ==> objects[k] == BodyText(bs[k], "")
    requires AllBytes(objects)
    ensures out == FileText(bs)
    ensures IsBytes(out)
  {
    var body, offsets := WriteObjects(bs, objects);
    var pos, n, offs := |body|, |objects| + 1, offsets[1..];
    assert offs == Offsets(bs);
    out := WriteTableHead(body, n);
    out := WriteLines(out, offs);
    DigitsAreBytes(OfNat(n));
    DigitsAreBytes(OfNat(pos));
    TrailerIsBytes(OfNat(n), OfNat(pos));
    out := out + ("trailer\n<< /Size " + OfNat(n) + " /Root 1 0 R >>\n" + "startxref\n" + OfNat(pos) + "\n%%EOF");
    XrefPieces(body, offs, pos);
  }

  lemma TrailerIsBytes(n: string, pos: string)
    requires IsBytes(n) && IsBytes(pos)
    ensures IsBytes("trailer\n<< /Size " + n + " /Root 1 0 R >>\n" + "startxref\n" + pos + "\n%%EOF")
  {
  }

  method WriteLines(before: string, offs: seq<nat>) returns (out: string)
    requires IsBytes(before)
    ensures out == before + EntryLines(offs, "")
    ensures IsBytes(out)
  {
    out := before;
    for i := 0 to |offs|
      invariant IsBytes(out)
      invariant out == before + EntryLines(offs[..i], "")
    {
      LinesAppend(offs[..i], offs[i]);
      assert offs[..i + 1] == offs[..i] + [offs[i]];
      AssocThree(before, EntryLines(offs[..i], ""), Padded(offs[i], 10) + " 00000 n \n");
      DigitsAreBytes(Padded(offs[i], 10));
      out := out + (Padded(offs[i], 10) + " 00000 n \n");
    }
    assert offs[..|offs|] == offs;
  }

  lemma {:induction false} LinesAppend(offs: seq<nat>, off: nat)
    ensures EntryLines(offs + [off], "") == EntryLines(offs, "") + (Padded(off, 10) + " 00000 n \n")
  {
    if offs == [] {
      assert EntryLines([off], "") == EntryText(off, "");
    } else {
      assert (offs + [off])[1..] == offs[1..] + [off];
      LinesAppend(offs[1..], off);
      EntryTail(offs[0], EntryLines(offs[1..], ""), Padded(off, 10) + " 00000 n \n");
    }
  }

  lemma TrailerLines(n: nat)
    ensures "/Root 1 0 R " == "/" + "Root" + " " + "1 0 R" + " "
    ensures "/Size " + OfNat(n) + " " == "/" + "Size" + " " + OfNat(n) + " "
    ensures Show(Int(n)) == OfNat(n) && Show(Ref(1, 0)) == "1 0 R"
  {
    ShowRef(1);
    assert OfNat(1) == "1";
  }

  lemma TrailerText(n: nat)
    ensures Show(TrailerDict(n)) == "<< /Size " + OfNat(n) + " /Root 1 0 R >>"
  {
    var es := TrailerDict(n).entries;
    TrailerLines(n);
    LastEntryText(es[1..], "/Root 1 0 R ");
    var line := "/Size " + OfNat(n) + " ";
    FirstEntryText(es, Entry("Size", Int(n)), OfNat(n), line, "/Root 1 0 R ");
    ShowDict(es, line + "/Root 1 0 R ");
    TrailerDictPieces(OfNat(n));
  }

  lemma TrailerDictPieces(n: string)
    ensures "<< " + (("/Size " + n + " ") + "/Root 1 0 R ") + ">>" == "<< /Size " + n + " /Root 1 0 R >>"
  {
  }

  lemma XrefPieces(body: string, offs: seq<nat>, pos: nat)
    ensures body + ("xref\n0 " + OfNat(|offs| + 1) + "\n") + "0000000000 65535 f \n" + EntryLines(offs, "")
            + ("trailer\n<< /Size " + OfNat(|offs| + 1) + " /Root 1 0 R >>\n" + "startxref\n" + OfNat(pos) + "\n%%EOF")
         == body + XrefText(offs, pos)
  {
    var n := OfNat(|offs| + 1);
    var d := TrailerDict(|offs| + 1);
    TrailerText(|offs| + 1);
    PrintTail(d, EndText(pos));
    var tr := "\n" + Print(d, EndText(pos));
    LinesTail(offs, "trailer" + tr);
    TrailerPieces(n, OfNat(pos));
    var t := "trailer\n<< /Size " + n + " /Root 1 0 R >>\n" + "startxref\n" + OfNat(pos) + "\n%%EOF";
    assert "trailer" + tr == t;
    TablePieces(body, n, EntryLines(offs, ""), t);
  }

  lemma TrailerPieces(n: string, pos: string)
    ensures "trailer" +
            ("\n" + (("<< /Size " + n + " /Root 1 0 R >>") + ("\n" + "startxref" + ("\n" + (pos + ("\n" + "%%EOF"))))))
         == "trailer\n<< /Size " + n + " /Root 1 0 R >>\n" + "startxref\n" + pos + "\n%%EOF"
  {
  }

  lemma TablePieces(body: string, n: string, lines: string, t: string)
    ensures body + ("xref\n0 " + n + "\n") + "0000000000 65535 f \n" + lines + t
         == body + ("xref" + ("\n0 " + (n + ("\n" + ("0000000000 65535 f \n" + (lines + t))))))
  {
  }
}
