/** The layout of a PDF file as a function of its objects, and the proof that the reader recovers them. */
module PdfFile {
  import opened Text
  import opened PdfSyntax
  import opened PdfReader
  import opened Wrappers

  const HEADER := "%PDF-1.4\n%\U{E2}\U{E3}\U{CF}\U{D3}\n"
  const OFFSET_LIMIT := 10_000_000_000

  /** The bytes between `obj` and `endobj`, followed by `t`. */
  function BodyText(b: Body, t: string): string {
    match b.data
    case None => Print(b.obj, t)
    case Some(data) => Print(b.obj, "\nstream\n" + (data + ("\nendstream" + t)))
  }

  /** Object number `num` as it stands in the file, followed by `t`. */
  function ObjText(num: nat, b: Body, t: string): string {
    OfNat(num) + (" 0 obj\n" + BodyText(b, "\nendobj\n" + t))
  }

  function Concat(parts: seq<string>, k: nat): string
    requires k <= |parts|
  {
    if k == 0 then "" else Concat(parts, k - 1) + parts[k - 1]
  }

  function ObjTexts(bs: seq<Body>): (r: seq<string>)
    ensures |r| == |bs|
  {
    seq(|bs|, i requires 0 <= i < |bs| => ObjText(i + 1, bs[i], ""))
  }

  /** The first `k` objects in file order. */
  function Objects(bs: seq<Body>, k: nat): string
    requires k <= |bs|
  {
    Concat(ObjTexts(bs), k)
  }

  /** The file offset of object number `i + 1`, or of the table when `i` is the number of objects. */
  function Offset(bs: seq<Body>, i: nat): nat
    requires i <= |bs|
  {
    |HEADER| + |Objects(bs, i)|
  }

  function Offsets(bs: seq<Body>): (r: seq<nat>)
    ensures |r| == |bs|
  {
    seq(|bs|, i requires 0 <= i < |bs| => Offset(bs, i))
  }

  function EntryText(off: nat, t: string): string {
    Padded(off, 10) + (" 00000 n \n" + t)
  }

  function EntryLines(offs: seq<nat>, t: string): string {
    if offs == [] then t else EntryText(offs[0], EntryLines(offs[1..], t))
  }

  function TrailerDict(n: nat): Obj {
    Dict([Entry("Size", Int(n)), Entry("Root", Ref(1, 0))])
  }

  function EndText(pos: nat): string {
    "\n" + "startxref" + ("\n" + (OfNat(pos) + ("\n" + "%%EOF")))
  }

  /** The table and the keyword trailer, followed by `tr`. */
  function TableText(offs: seq<nat>, tr: string): string {
    "xref" + ("\n0 " + (OfNat(|offs| + 1) + ("\n" + ("0000000000 65535 f \n" + EntryLines(offs, "trailer" + tr)))))
  }

  function XrefText(offs: seq<nat>, pos: nat): string {
    TableText(offs, "\n" + Print(TrailerDict(|offs| + 1), EndText(pos)))
  }

  function FileText(bs: seq<Body>): string {
    HEADER + Objects(bs, |bs|) + XrefText(Offsets(bs), Offset(bs, |bs|))
  }

  /** Every object can be printed, and every stream states its own length. */
  predicate WfBody(b: Body) {
    && Wf(b.obj)
    && (b.data.Some? ==> StreamLength(b.obj) == Some(|b.data.value|))
  }

  // ----- one object -----

  /** A word after one blank, in front of something that is no longer part of it. */
  lemma BlankWord(c: char, w: string, t: string)
    requires IsWhite(c) && w != "" && AllRegular(w) && Stops(t)
    ensures Next([c] + w + t) == Lexeme(Word(w), t) && Stops([c] + w + t)
  {
    assert [c] + w + t == [c] + (w + t);
    NextWhite(c, w + t);
    NextWord(w, t);
  }

  lemma BlankNat(c: char, n: nat, t: string)
    requires IsWhite(c) && Stops(t)
    ensures Next([c] + (OfNat(n) + t)) == Lexeme(Word(OfNat(n)), t)
  {
    NextWhite(c, OfNat(n) + t);
    NextNat(n, t);
  }

  /** A keyword is no number, so it begins no reference. */
  lemma KeywordIsNoRef(s: string, w: string, t: string)
    requires Next(s) == Lexeme(Word(w), t) && w != "" && !IsDigit(w[0])
    ensures !RefTail(s)
  {
  }

  lemma EndstreamTail(t: string)
    requires Stops(t)
    ensures Next("\nendstream" + t) == Lexeme(Word("endstream"), t)
  {
    assert "\nendstream" + t == ['\n'] + "endstream" + t;
    BlankWord('\n', "endstream", t);
  }

  lemma ReadStreamStep(o: Obj, data: string, after: string, t: string)
    requires StreamLength(o) == Some(|data|)
    requires Next(after) == Lexeme(Word("endstream"), t) && Next(t).tok == Word("endobj")
    ensures ReadStream(o, "\n" + (data + after)) == Some(Body(o, Some(data)))
  {
    var s := "\n" + (data + after);
    assert s[1..] == data + after;
    assert (data + after)[..|data|] == data && (data + after)[|data|..] == after;
  }

  lemma ReadStreamData(o: Obj, data: string, t: string)
    requires StreamLength(o) == Some(|data|)
    ensures ReadStream(o, "\n" + (data + ("\nendstream" + ("\nendobj\n" + t)))) == Some(Body(o, Some(data)))
  {
    assert "\nendobj\n" + t == ['\n'] + "endobj" + ("\n" + t);
    BlankWord('\n', "endobj", "\n" + t);
    KeywordIsNoRef("\nendobj\n" + t, "endobj", "\n" + t);
    EndstreamTail("\nendobj\n" + t);
    ReadStreamStep(o, data, "\nendstream" + ("\nendobj\n" + t), "\nendobj\n" + t);
  }

  lemma ZeroValue()
    ensures AllDigits("0") && ToNat("0") == 0
  {
    ToNatOfNat(0);
    assert OfNat(0) == "0";
  }

  predicate IsHead(s: string, num: nat, rest: string) {
    var a := Next(s);
    var b := Next(a.rest);
    && IsInt(a.tok) && ToNat(a.tok.w) == num
    && b.tok == Word("0") && Next(b.rest) == Lexeme(Word("obj"), rest)
  }

  lemma HeadStep(s: string, w: string, num: nat, a: string, b: string, c: string)
    requires Next(s) == Lexeme(Word(w), a) && w != "" && AllDigits(w) && ToNat(w) == num
    requires Next(a) == Lexeme(Word("0"), b)
    requires Next(b) == Lexeme(Word("obj"), c)
    ensures IsHead(s, num, c)
  {
  }

  lemma ReadHead(num: nat, s: string)
    ensures IsHead(OfNat(num) + (" 0 obj\n" + s), num, "\n" + s)
  {
    var c := "\n" + s;
    var b := [' '] + "obj" + c;
    var a := [' '] + "0" + b;
    assert " 0 obj\n" + s == a;
    BlankWord(' ', "obj", c);
    BlankWord(' ', "0", b);
    NextNat(num, a);
    ToNatOfNat(num);
    HeadStep(OfNat(num) + a, OfNat(num), num, a, b, c);
  }

  lemma ReadPlainStep(s: string, num: nat, rest: string, o: Obj, tail: string)
    requires IsHead(s, num, "\n" + rest) && ParseObj(rest) == Some(Parsed(o, tail)) && Next(tail).tok == Word("endobj")
    ensures ReadIndirect(s, num, 0) == Some(Body(o, None))
  {
    ZeroValue();
    NextWhite('\n', rest);
    assert ParseObj("\n" + rest) == ParseObj(rest);
  }

  lemma ReadStreamObject(s: string, num: nat, rest: string, o: Obj, tail: string, after: string, b: Body)
    requires IsHead(s, num, "\n" + rest) && ParseObj(rest) == Some(Parsed(o, tail))
    requires Next(tail) == Lexeme(Word("stream"), after) && ReadStream(o, after) == Some(b)
    ensures ReadIndirect(s, num, 0) == Some(b)
  {
    ZeroValue();
    NextWhite('\n', rest);
    assert ParseObj("\n" + rest) == ParseObj(rest);
  }

  lemma ReadPlainAt(num: nat, o: Obj, tail: string)
    requires Wf(o) && Stops(tail) && !RefTail(tail) && Next(tail).tok == Word("endobj")
    ensures ReadIndirect(OfNat(num) + (" 0 obj\n" + Print(o, tail)), num, 0) == Some(Body(o, None))
  {
    var text := Print(o, tail);
    ReadHead(num, text);
    ParsePrint(o, tail);
    ReadPlainStep(OfNat(num) + (" 0 obj\n" + text), num, text, o, tail);
  }

  lemma ReadStreamAt(num: nat, o: Obj, data: string, tail: string, after: string)
    requires Wf(o) && Stops(tail) && !RefTail(tail) && Next(tail) == Lexeme(Word("stream"), after)
    requires ReadStream(o, after) == Some(Body(o, Some(data)))
    ensures ReadIndirect(OfNat(num) + (" 0 obj\n" + Print(o, tail)), num, 0) == Some(Body(o, Some(data)))
  {
    var text := Print(o, tail);
    ReadHead(num, text);
    ParsePrint(o, tail);
    ReadStreamObject(OfNat(num) + (" 0 obj\n" + text), num, text, o, tail, after, Body(o, Some(data)));
  }

  /** An object is read back whole, wherever it stands: its own Length decides where a stream ends. */
  lemma ReadObject(num: nat, b: Body, t: string)
    requires WfBody(b)
    ensures ReadIndirect(ObjText(num, b, t), num, 0) == Some(b)
  {
    match b.data {
      case None =>
        assert "\nendobj\n" + t == ['\n'] + "endobj" + ("\n" + t);
        BlankWord('\n', "endobj", "\n" + t);
        KeywordIsNoRef("\nendobj\n" + t, "endobj", "\n" + t);
        ReadPlainAt(num, b.obj, "\nendobj\n" + t);
      case Some(data) =>
        var rest := data + ("\nendstream" + ("\nendobj\n" + t));
        assert "\nstream\n" + rest == ['\n'] + "stream" + ("\n" + rest);
        BlankWord('\n', "stream", "\n" + rest);
        KeywordIsNoRef("\nstream\n" + rest, "stream", "\n" + rest);
        ReadStreamData(b.obj, data, t);
        ReadStreamAt(num, b.obj, data, "\nstream\n" + rest, "\n" + rest);
    }
  }

  // ----- the object section -----

  lemma BodyTail(num: nat, b: Body, t: string)
    ensures ObjText(num, b, t) == ObjText(num, b, "") + t
  {
    var e := "\nendobj\n";
    match b.data {
      case None =>
        PrintTail(b.obj, e + t);
        PrintTail(b.obj, e + "");
      case Some(data) =>
        PrintTail(b.obj, "\nstream\n" + (data + ("\nendstream" + (e + t))));
        PrintTail(b.obj, "\nstream\n" + (data + ("\nendstream" + (e + ""))));
    }
  }

  lemma StaysPrefix(a: string, b: string, c: string)
    requires |a| <= |b| && b[..|a|] == a
    ensures |a| <= |b + c| && (b + c)[..|a|] == a
  {
    assert (b + c)[..|a|] == b[..|a|];
  }

  lemma {:induction false} ConcatPrefix(ps: seq<string>, i: nat, k: nat)
    requires i <= k <= |ps|
    ensures |Concat(ps, i)| <= |Concat(ps, k)|
    ensures Concat(ps, k)[..|Concat(ps, i)|] == Concat(ps, i)
  {
    if i < k {
      ConcatPrefix(ps, i, k - 1);
      StaysPrefix(Concat(ps, i), Concat(ps, k - 1), ps[k - 1]);
    }
  }

  lemma Middle(h: string, a: string, o: string, f: string)
    requires |h| + |a + o| <= |f| && f[..|h| + |a + o|] == h + (a + o)
    ensures f[|h| + |a|..] == o + f[|h| + |a + o|..]
  {
    var rest := f[|h| + |a + o|..];
    assert f == h + a + o + rest;
  }

  lemma OffsetIs(bs: seq<Body>, i: nat)
    requires i < |bs|
    ensures Offset(bs, i) == |HEADER| + |Concat(ObjTexts(bs), i)|
    ensures Offset(bs, i + 1) == |HEADER| + |Concat(ObjTexts(bs), i + 1)|
  {
  }

  lemma ObjectTail(bs: seq<Body>, i: nat, rest: string)
    requires i < |bs|
    ensures ObjText(i + 1, bs[i], rest) == ObjTexts(bs)[i] + rest
  {
    BodyTail(i + 1, bs[i], rest);
  }

  /** The offset recorded for an object is where its text starts, whatever follows the objects. */
  lemma ObjectAt(bs: seq<Body>, x: string, i: nat)
    requires i < |bs|
    ensures var f := HEADER + Objects(bs, |bs|) + x;
            && Offset(bs, i) <= Offset(bs, i + 1) <= |f|
            && f[Offset(bs, i)..] == ObjText(i + 1, bs[i], f[Offset(bs, i + 1)..])
  {
    OffsetIs(bs, i);
    PartAt(HEADER, ObjTexts(bs), x, i);
    ObjectTail(bs, i, (HEADER + Objects(bs, |bs|) + x)[Offset(bs, i + 1)..]);
  }

  lemma PartAt(h: string, ps: seq<string>, x: string, i: nat)
    requires i < |ps|
    ensures var f := h + Concat(ps, |ps|) + x;
            && |h| + |Concat(ps, i)| <= |h| + |Concat(ps, i + 1)| <= |f|
            && f[|h| + |Concat(ps, i)|..] == ps[i] + f[|h| + |Concat(ps, i + 1)|..]
  {
    ConcatPrefix(ps, i + 1, |ps|);
    StartsWith(h, Concat(ps, i + 1), Concat(ps, |ps|), x);
    Middle(h, Concat(ps, i), ps[i], h + Concat(ps, |ps|) + x);
  }

  lemma StartsWith(h: string, b: string, all: string, x: string)
    requires |b| <= |all| && all[..|b|] == b
    ensures |h| + |b| <= |h + all + x| && (h + all + x)[..|h| + |b|] == h + b
  {
  }

  // ----- the cross-reference table -----

  lemma FixedFields(d: string, g: string, kind: char, t: string)
    requires |d| == 10 && |g| == 5
    ensures var s := d + (" " + g + " " + [kind] + " \n" + t);
            && |s| >= 20 && s[..10] == d && s[10] == ' ' && s[11..16] == g && s[16] == ' '
            && s[17] == kind && s[18..20] == " \n" && s[20..] == t
  {
  }

  lemma ReadWideEntry(off: nat, t: string)
    requires off >= OFFSET_LIMIT
    ensures ReadEntry(EntryText(off, t)).None?
  {
    DigitCount(off, 10);
    TenToTen();
    var d := Padded(off, 10);
    assert |d| > 10;
    assert EntryText(off, t)[10] == d[10];
  }

  lemma ReadGoodEntry(off: nat, t: string)
    requires off < OFFSET_LIMIT
    ensures |EntryText(off, t)| >= 20 && EntryText(off, t)[20..] == t
    ensures ReadEntry(EntryText(off, t)) == Some(InUse(off, 0))
  {
    DigitCount(off, 10);
    TenToTen();
    var d := Padded(off, 10);
    ToNatPadded(off, 10);
    FixedFields(d, "00000", 'n', t);
    assert EntryText(off, t) == d + (" " + "00000" + " " + "n" + " \n" + t);
    assert ToNat("00000") == 0 by { FiveZeroes(); }
  }

  lemma FiveZeroes()
    ensures AllDigits("00000") && ToNat("00000") == 0
  {
    ToNatZeroes(5, "");
    assert Zeroes(5) + "" == "00000";
  }

  lemma TenToTen()
    ensures Pow10(10) == OFFSET_LIMIT
  {
    assert Pow10(1) == 10;
    assert Pow10(2) == 100;
    assert Pow10(3) == 1000;
    assert Pow10(4) == 10000;
    assert Pow10(5) == 100000;
    assert Pow10(6) == 1000000;
    assert Pow10(7) == 10000000;
    assert Pow10(8) == 100000000;
    assert Pow10(9) == 1000000000;
  }

  predicate AllFit(offs: seq<nat>) {
    forall i :: 0 <= i < |offs| ==> offs[i] < OFFSET_LIMIT
  }

  function Used(offs: seq<nat>): (r: seq<XEntry>)
    ensures |r| == |offs|
  {
    seq(|offs|, i requires 0 <= i < |offs| => InUse(offs[i], 0))
  }

  lemma EntryStep(s: string, e: Option<XEntry>, rest: string, n: nat, r: Option<XEntries>)
    requires ReadEntry(s) == e
    requires e.Some? ==> |s| >= 20 && s[20..] == rest
    requires ReadEntries(rest, n) == r
    ensures ReadEntries(s, n + 1)
         == if e.None? || r.None? then None else Some(XEntries([e.value] + r.value.entries, r.value.rest))
  {
  }

  lemma AllFitStep(offs: seq<nat>)
    requires offs != []
    ensures AllFit(offs) <==> offs[0] < OFFSET_LIMIT && AllFit(offs[1..])
  {
    assert forall i :: 0 < i < |offs| ==> offs[i] == offs[1..][i - 1];
  }

  lemma UsedStep(offs: seq<nat>)
    requires offs != []
    ensures Used(offs) == [InUse(offs[0], 0)] + Used(offs[1..])
  {
  }

  lemma ReadLine(off: nat, rest: string, n: nat, r: Option<XEntries>)
    requires ReadEntries(rest, n) == r
    ensures ReadEntries(EntryText(off, rest), n + 1)
         == if off >= OFFSET_LIMIT || r.None? then None
            else Some(XEntries([InUse(off, 0)] + r.value.entries, r.value.rest))
  {
    if off < OFFSET_LIMIT {
      ReadGoodEntry(off, rest);
      EntryStep(EntryText(off, rest), Some(InUse(off, 0)), rest, n, r);
    } else {
      ReadWideEntry(off, rest);
      EntryStep(EntryText(off, rest), None, rest, n, r);
    }
  }

  /** What reading the entries of these offsets must give. */
  function EntriesFor(offs: seq<nat>, t: string): Option<XEntries> {
    if AllFit(offs) then Some(XEntries(Used(offs), t)) else None
  }

  lemma EntriesForStep(offs: seq<nat>, t: string)
    requires offs != []
    ensures var r := EntriesFor(offs[1..], t);
            EntriesFor(offs, t) == if offs[0] >= OFFSET_LIMIT || r.None? then None
                                   else Some(XEntries([InUse(offs[0], 0)] + r.value.entries, r.value.rest))
  {
    AllFitStep(offs);
    UsedStep(offs);
  }

  /** The table is readable exactly when every offset has at most ten digits. */
  lemma {:induction false} ReadLines(offs: seq<nat>, t: string)
    ensures ReadEntries(EntryLines(offs, t), |offs|) == EntriesFor(offs, t)
  {
    if offs != [] {
      ReadLines(offs[1..], t);
      EntriesForStep(offs, t);
      ReadLine(offs[0], EntryLines(offs[1..], t), |offs| - 1, EntriesFor(offs[1..], t));
    }
  }

  lemma FreeHead(t: string)
    ensures ReadEntry("0000000000 65535 f \n" + t) == Some(Free(0, 65535))
    ensures ("0000000000 65535 f \n" + t)[20..] == t
  {
    var s := "0000000000 65535 f \n" + t;
    assert s[..10] == Zeroes(10) + "";
    ToNatZeroes(10, "");
    assert s[11..16] == "65535";
    assert OfNat(65535) == "65535" by {
      assert OfNat(6) == "6";
      assert OfNat(65) == OfNat(6) + "5";
      assert OfNat(655) == OfNat(65) + "5";
      assert OfNat(6553) == OfNat(655) + "3";
      assert OfNat(65535) == OfNat(6553) + "5";
    }
    ToNatOfNat(65535);
    assert s[18..20] == " \n";
  }

  /** A line that starts with a word stops an object and continues no reference. */
  lemma WordTail(e: string, w: string, rest: string)
    requires AllRegular(w) && w != "" && !IsDigit(w[0]) && e == ['\n'] + w + ("\n" + rest)
    ensures Stops(e) && !RefTail(e)
  {
    BlankWord('\n', w, "\n" + rest);
    KeywordIsNoRef(e, w, "\n" + rest);
  }

  lemma TrailerStep(table: seq<XEntry>, p: string, es: seq<Entry>, t: string)
    requires ParseObj(p) == Some(Parsed(Dict(es), t)) && Lookup(es, "Size") == Some(Int(|table|))
    ensures ReadTrailer(table, "\n" + p) == Some(Document(table, es))
  {
    NextWhite('\n', p);
    assert ParseObj("\n" + p) == ParseObj(p);
  }

  lemma TrailerWf(n: nat)
    ensures Wf(TrailerDict(n)) && Lookup(TrailerDict(n).entries, "Size") == Some(Int(n))
  {
    assert AllRegular("Size") && AllRegular("Root");
  }

  lemma ReadTrailerOf(table: seq<XEntry>, pos: nat)
    requires |table| > 0
    ensures ReadTrailer(table, "\n" + Print(TrailerDict(|table|), EndText(pos)))
         == Some(Document(table, TrailerDict(|table|).entries))
  {
    var d, e := TrailerDict(|table|), EndText(pos);
    TrailerWf(|table|);
    assert AllRegular("startxref");
    WordTail(e, "startxref", OfNat(pos) + ("\n" + "%%EOF"));
    ParsePrint(d, e);
    TrailerStep(table, Print(d, e), d.entries, e);
  }

  lemma ReadXrefStep(s: string, n: nat, body: string, table: seq<XEntry>, tr: string)
    requires XrefStart(s, n, body)
    requires Next(tr).tok == Word("trailer")
    requires ReadEntries(body, n) == Some(XEntries(table, tr))
    ensures ReadXref(s) == ReadTrailer(table, Next(tr).rest)
  {
  }

  lemma ReadXrefFails(s: string, n: nat, body: string)
    requires XrefStart(s, n, body)
    requires ReadEntries(body, n).None?
    ensures ReadXref(s).None?
  {
  }

  predicate XrefStart(s: string, n: nat, body: string) {
    var a := Next(s);
    var b := Next(a.rest);
    var c := Next(b.rest);
    && a.tok == Word("xref") && IsInt(b.tok) && ToNat(b.tok.w) == 0
    && IsInt(c.tok) && ToNat(c.tok.w) == n && AfterEol(c.rest) == Some(body)
  }

  lemma XrefBranches(s: string, n: nat, body: string, table: seq<XEntry>, tr: string, trailer: seq<Entry>, ok: bool)
    requires XrefStart(s, n, body)
    requires Next("trailer" + tr) == Lexeme(Word("trailer"), tr)
    requires ReadEntries(body, n) == if ok then Some(XEntries(table, "trailer" + tr)) else None
    requires ReadTrailer(table, tr) == Some(Document(table, trailer))
    ensures ReadXref(s) == if ok then Some(Document(table, trailer)) else None
  {
    if ok {
      ReadXrefStep(s, n, body, table, "trailer" + tr);
    } else {
      ReadXrefFails(s, n, body);
    }
  }

  lemma ReadTableText(offs: seq<nat>, tr: string, trailer: seq<Entry>)
    requires Next("trailer" + tr) == Lexeme(Word("trailer"), tr)
    requires ReadTrailer([Free(0, 65535)] + Used(offs), tr) == Some(Document([Free(0, 65535)] + Used(offs), trailer))
    ensures ReadXref(TableText(offs, tr))
         == if AllFit(offs) then Some(Document([Free(0, 65535)] + Used(offs), trailer)) else None
  {
    var n := |offs| + 1;
    var table := [Free(0, 65535)] + Used(offs);
    var body := "0000000000 65535 f \n" + EntryLines(offs, "trailer" + tr);
    XrefHead(n, body);
    ReadTable(offs, "trailer" + tr);
    XrefBranches(TableText(offs, tr), n, body, table, tr, trailer, AllFit(offs));
  }

  /** The cross-reference section is read back exactly when every offset fits its ten digits. */
  lemma ReadXrefOf(offs: seq<nat>, pos: nat)
    ensures ReadXref(XrefText(offs, pos))
         == if AllFit(offs) then Some(Document([Free(0, 65535)] + Used(offs), TrailerDict(|offs| + 1).entries))
            else None
  {
    var n := |offs| + 1;
    var p := Print(TrailerDict(n), EndText(pos));
    TrailerWord(p);
    ReadTrailerOf([Free(0, 65535)] + Used(offs), pos);
    ReadTableText(offs, "\n" + p, TrailerDict(n).entries);
  }

  lemma TrailerWord(p: string)
    ensures Next("trailer" + ("\n" + p)) == Lexeme(Word("trailer"), "\n" + p)
  {
    NextWord("trailer", "\n" + p);
  }

  lemma ReadTable(offs: seq<nat>, t: string)
    ensures ReadEntries("0000000000 65535 f \n" + EntryLines(offs, t), |offs| + 1)
         == if AllFit(offs) then Some(XEntries([Free(0, 65535)] + Used(offs), t)) else None
  {
    FreeHead(EntryLines(offs, t));
    ReadLines(offs, t);
  }

  lemma XrefHead(n: nat, body: string)
    ensures XrefStart("xref" + ("\n0 " + (OfNat(n) + ("\n" + body))), n, body)
  {
    var d := "\n" + body;
    var c := [' '] + (OfNat(n) + d);
    var b := ['\n'] + "0" + c;
    assert "\n0 " + (OfNat(n) + d) == b;
    assert Next("xref" + b) == Lexeme(Word("xref"), b) by { NextWord("xref", b); }
    assert Next(b) == Lexeme(Word("0"), c) by { BlankWord('\n', "0", c); }
    assert Next(c) == Lexeme(Word(OfNat(n)), d) by { BlankNat(' ', n, d); }
    ToNatOfNat(n);
    ZeroValue();
    assert AfterEol(d) == Some(body) by { assert d[1..] == body; }
  }

  // ----- the end of the file -----

  lemma {:induction false} LastLine(p: string, line: string)
    requires '\n' !in line
    ensures SplitLast(p + "\n" + line) == Lines(p, line)
  {
    var s := p + "\n" + line;
    if line == "" {
      assert s[..|s| - 1] == p;
    } else {
      var l := line[..|line| - 1];
      assert s[..|s| - 1] == p + "\n" + l;
      LastLine(p, l);
      assert line == l + [line[|line| - 1]];
    }
  }

  lemma FindStart(p: string, pos: nat)
    ensures StartXref(p + EndText(pos)) == Some(pos)
  {
    var d := OfNat(pos);
    var b := p + "\n" + "startxref";
    var a := b + "\n" + d;
    FourLines(p, "startxref", d, "%%EOF");
    LastLine(a, "%%EOF");
    NoNewline(d);
    LastLine(b, d);
    LastLine(p, "startxref");
    ToNatOfNat(pos);
    assert StartXref(a + "\n" + "%%EOF") == Some(pos);
  }

  lemma NoNewline(d: string)
    requires AllDigits(d)
    ensures '\n' !in d
  {
    assert forall i :: 0 <= i < |d| ==> IsDigit(d[i]);
  }

  lemma FourLines(p: string, k: string, d: string, e: string)
    ensures p + ("\n" + k + ("\n" + (d + ("\n" + e)))) == p + "\n" + k + "\n" + d + "\n" + e
  {
  }

  lemma EntryTail(off: nat, e: string, t: string)
    ensures EntryText(off, e + t) == EntryText(off, e) + t
  {
  }

  lemma {:induction false} LinesTail(offs: seq<nat>, t: string)
    ensures EntryLines(offs, t) == EntryLines(offs, "") + t
  {
    if offs != [] {
      LinesTail(offs[1..], t);
      EntryTail(offs[0], EntryLines(offs[1..], ""), t);
    }
  }

  lemma Assoc(a: string, b: string, c: string)
    ensures a + (b + c) == (a + b) + c
  {
  }

  lemma XrefEnd(offs: seq<nat>, pos: nat) returns (p: string)
    ensures XrefText(offs, pos) == p + EndText(pos)
  {
    var d := TrailerDict(|offs| + 1);
    var e := EndText(pos);
    var tr := "trailer" + ("\n" + Print(d, e));
    PrintTail(d, e);
    var p0 := "trailer" + ("\n" + Print(d, ""));
    assert tr == p0 + e;
    LinesTail(offs, tr);
    var p1 := EntryLines(offs, "") + p0;
    assert EntryLines(offs, tr) == p1 + e;
    var h := "0000000000 65535 f \n";
    var p2 := "\n" + (h + p1);
    assert "\n" + (h + (p1 + e)) == p2 + e;
    var k := OfNat(|offs| + 1);
    Assoc(k, p2, e);
    var p3 := "\n0 " + (k + p2);
    Assoc("\n0 ", k + p2, e);
    Assoc("xref", p3, e);
    p := "xref" + p3;
  }

  // ----- the whole file -----

  /**
   * Reading any file laid out this way gives its table and trailer when every offset is below 10^10,
   * and fails otherwise, because an eleven-digit offset breaks the 20-byte entry.
   */
  lemma ReadDocumentOf(bs: seq<Body>)
    ensures ReadDocument(FileText(bs))
         == if AllFit(Offsets(bs)) then Some(Document(Table(bs), TrailerDict(|bs| + 1).entries)) else None
  {
    var pos := Offset(bs, |bs|);
    var x := XrefText(Offsets(bs), pos);
    var h := HEADER + Objects(bs, |bs|);
    var p := XrefEnd(Offsets(bs), pos);
    assert FileText(bs) == (h + p) + EndText(pos);
    FindStart(h + p, pos);
    assert FileText(bs)[pos..] == x;
    ReadXrefOf(Offsets(bs), pos);
  }

  lemma ResolveStep(f: string, table: seq<XEntry>, num: nat, off: nat, b: Body)
    requires num < |table| && table[num] == InUse(off, 0) && off <= |f|
    requires ReadIndirect(f[off..], num, 0) == Some(b)
    ensures Resolve(f, table, Ref(num, 0)) == Some(b)
  {
  }

  function Table(bs: seq<Body>): (r: seq<XEntry>)
    ensures |r| == |bs| + 1
  {
    [Free(0, 65535)] + Used(Offsets(bs))
  }

  lemma ReadAt(f: string, off: nat, next: nat, num: nat, b: Body)
    requires off <= |f| && next <= |f| && WfBody(b) && f[off..] == ObjText(num, b, f[next..])
    ensures ReadIndirect(f[off..], num, 0) == Some(b)
  {
    ReadObject(num, b, f[next..]);
  }

  /** Every object number in the table leads back to exactly the object that was written. */
  lemma ResolveOf(bs: seq<Body>, i: nat)
    requires i < |bs| && WfBody(bs[i])
    ensures Resolve(FileText(bs), Table(bs), Ref(i + 1, 0)) == Some(bs[i])
  {
    var x := XrefText(Offsets(bs), Offset(bs, |bs|));
    var f := FileText(bs);
    assert f == HEADER + Objects(bs, |bs|) + x;
    ObjectAt(bs, x, i);
    ReadAt(f, Offset(bs, i), Offset(bs, i + 1), i + 1, bs[i]);
    ResolveStep(f, Table(bs), i + 1, Offset(bs, i), bs[i]);
  }

  /** Offsets only grow, so all of them fit exactly when the last one does. */
  lemma LastOffsetDecides(bs: seq<Body>)
    requires bs != []
    ensures AllFit(Offsets(bs)) <==> Offset(bs, |bs| - 1) < OFFSET_LIMIT
  {
    var offs := Offsets(bs);
    assert offs[|bs| - 1] == Offset(bs, |bs| - 1);
    forall i | 0 <= i < |offs|
      ensures offs[i] <= Offset(bs, |bs| - 1)
    {
      ConcatPrefix(ObjTexts(bs), i, |bs| - 1);
    }
  }
}
