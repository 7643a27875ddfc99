/** The objects of a document with the given page contents, and the walk from startxref to every page. */
module PdfDocument {
  import opened Text
  import opened PdfSyntax
  import opened PdfReader
  import opened PdfFile
  import opened Wrappers

  function Font(name: string): Obj {
    Dict([Entry("Type", NameObj("Font")), Entry("Subtype", NameObj("Type1")), Entry("BaseFont", NameObj(name)),
          Entry("Encoding", NameObj("WinAnsiEncoding"))])
  }

  function Catalog(): Obj {
    Dict([Entry("Type", NameObj("Catalog")), Entry("Pages", Ref(2, 0))])
  }

  /** References to the page objects 5, 7, 9, ... */
  function Kids(n: nat): (r: seq<Obj>)
    ensures |r| == n
  {
    seq(n, k requires 0 <= k < n => Ref(5 + 2 * k, 0))
  }

  function Pages(n: nat): Obj {
    Dict([Entry("Type", NameObj("Pages")), Entry("Kids", Arr(Kids(n))), Entry("Count", Int(n))])
  }

  function MediaBox(): Obj {
    Arr([Int(0), Int(0), Real("595.28"), Real("841.89")])
  }

  function Resources(): Obj {
    Dict([Entry("Font", Dict([Entry("F1", Ref(3, 0)), Entry("F2", Ref(4, 0))]))])
  }

  function Page(content: nat): Obj {
    Dict([Entry("Type", NameObj("Page")), Entry("Parent", Ref(2, 0)), Entry("MediaBox", MediaBox()),
          Entry("Resources", Resources()), Entry("Contents", Ref(content, 0))])
  }

  function StreamDict(length: nat): Obj {
    Dict([Entry("Length", Int(length))])
  }

  /** Object number `i + 1` of a document with these page contents. */
  function DocBody(contents: seq<string>, i: nat): Body
    requires i < 4 + 2 * |contents|
  {
    if i == 0 then Body(Catalog(), None)
    else if i == 1 then Body(Pages(|contents|), None)
    else if i == 2 then Body(Font("Helvetica"), None)
    else if i == 3 then Body(Font("Helvetica-Bold"), None)
    else if i % 2 == 0 then Body(Page(i + 2), None)
    else Body(StreamDict(|contents[(i - 5) / 2]|), Some(contents[(i - 5) / 2]))
  }

  function DocBodies(contents: seq<string>): (r: seq<Body>)
    ensures |r| == 4 + 2 * |contents|
  {
    seq(4 + 2 * |contents|, i requires 0 <= i < 4 + 2 * |contents| => DocBody(contents, i))
  }

  // ----- well-formedness -----

  lemma TreeKeys()
    ensures AllRegular("Type") && AllRegular("Pages") && AllRegular("Kids") && AllRegular("Count")
    ensures AllRegular("Catalog") && AllRegular("Length")
  {
  }

  lemma PageKeys()
    ensures AllRegular("Parent") && AllRegular("MediaBox") && AllRegular("Resources") && AllRegular("Contents")
    ensures AllRegular("Font") && AllRegular("F1") && AllRegular("F2") && AllRegular("Page")
  {
  }

  lemma FontKeys()
    ensures AllRegular("Subtype") && AllRegular("BaseFont") && AllRegular("Encoding")
    ensures AllRegular("Type1") && AllRegular("WinAnsiEncoding")
    ensures AllRegular("Helvetica") && AllRegular("Helvetica-Bold")
  {
  }

  lemma FontWf(name: string)
    requires AllRegular(name)
    ensures Wf(Font(name))
  {
    TreeKeys();
    PageKeys();
    FontKeys();
    var es := Font(name).entries;
    assert Wf(es[0].val) && Wf(es[1].val) && Wf(es[2].val) && Wf(es[3].val);
  }

  lemma PageWf(content: nat)
    ensures Wf(Page(content))
  {
    TreeKeys();
    PageKeys();
    assert IsReal("595.28") by { assert !IsDigit("595.28"[3]); }
    assert IsReal("841.89") by { assert !IsDigit("841.89"[3]); }
    assert Wf(MediaBox());
    assert Wf(Resources()) by {
      assert Wf(Dict([Entry("F1", Ref(3, 0)), Entry("F2", Ref(4, 0))]));
    }
  }

  lemma StreamWf(data: string)
    ensures WfBody(Body(StreamDict(|data|), Some(data)))
  {
    TreeKeys();
    PageKeys();
    assert Lookup(StreamDict(|data|).entries, "Length") == Some(Int(|data|));
  }

  lemma HeadWf(n: nat)
    ensures Wf(Catalog()) && Wf(Pages(n))
  {
    TreeKeys();
    PageKeys();
    assert Wf(Arr(Kids(n)));
  }

  lemma DocBodyWf(contents: seq<string>, i: nat)
    requires i < 4 + 2 * |contents|
    ensures WfBody(DocBody(contents, i))
  {
    FontKeys();
    if i < 2 {
      HeadWf(|contents|);
    } else if i == 2 {
      FontWf("Helvetica");
    } else if i == 3 {
      FontWf("Helvetica-Bold");
    } else if i % 2 == 0 {
      PageWf(i + 2);
    } else {
      StreamWf(contents[(i - 5) / 2]);
    }
  }

  // ----- reading the document back -----

  /** Following any reference in the file gives the object with that number. */
  ghost predicate Resolves(f: string, table: seq<XEntry>, contents: seq<string>) {
    forall num: nat :: 1 <= num <= 4 + 2 * |contents| ==>
      Resolve(f, table, Ref(num, 0)) == Some(DocBody(contents, num - 1))
  }

  lemma BodyResolves(bs: seq<Body>, num: nat, b: Body)
    requires 1 <= num <= |bs| && bs[num - 1] == b && WfBody(b)
    ensures Resolve(FileText(bs), Table(bs), Ref(num, 0)) == Some(b)
  {
    ResolveOf(bs, num - 1);
  }

  lemma ObjectResolves(contents: seq<string>, num: nat)
    requires 1 <= num <= 4 + 2 * |contents|
    ensures Resolve(DocText(contents), Table(DocBodies(contents)), Ref(num, 0)) == Some(DocBody(contents, num - 1))
  {
    DocBodyWf(contents, num - 1);
    BodyResolves(DocBodies(contents), num, DocBody(contents, num - 1));
  }

  lemma EveryObjectResolves(contents: seq<string>)
    ensures Resolves(DocText(contents), Table(DocBodies(contents)), contents)
  {
    forall num: nat | 1 <= num <= 4 + 2 * |contents|
      ensures Resolve(DocText(contents), Table(DocBodies(contents)), Ref(num, 0)) == Some(DocBody(contents, num - 1))
    {
      ObjectResolves(contents, num);
    }
  }

  lemma FieldStep(f: string, table: seq<XEntry>, o: Obj, es: seq<Entry>, kind: string, key: string, v: Obj)
    requires Resolve(f, table, o) == Some(Body(Dict(es), None))
    requires Lookup(es, "Type") == Some(NameObj(kind)) && Lookup(es, key) == Some(v)
    ensures Field(f, table, o, kind, key) == Some(v)
  {
  }

  lemma PageEntries(content: nat)
    ensures Lookup(Page(content).entries, "Type") == Some(NameObj("Page"))
    ensures Lookup(Page(content).entries, "Parent") == Some(Ref(2, 0))
    ensures Lookup(Page(content).entries, "Contents") == Some(Ref(content, 0))
  {
    var es := Page(content).entries;
    assert Lookup(es[4..], "Contents") == Some(Ref(content, 0));
    assert Lookup(es[3..], "Contents") == Lookup(es[4..], "Contents");
    assert Lookup(es[2..], "Contents") == Lookup(es[3..], "Contents");
    assert Lookup(es[1..], "Contents") == Lookup(es[2..], "Contents");
  }

  lemma MorePageEntries(content: nat)
    ensures Lookup(Page(content).entries, "MediaBox") == Some(MediaBox())
    ensures Lookup(Page(content).entries, "Resources") == Some(Resources())
  {
    var es := Page(content).entries;
    assert Lookup(es[3..], "Resources") == Some(Resources());
    assert Lookup(es[2..], "Resources") == Lookup(es[3..], "Resources");
    assert Lookup(es[1..], "Resources") == Lookup(es[2..], "Resources");
    assert Lookup(es[2..], "MediaBox") == Some(MediaBox());
    assert Lookup(es[1..], "MediaBox") == Lookup(es[2..], "MediaBox");
  }

  lemma PageContentStep(f: string, table: seq<XEntry>, kid: Obj, c: Obj, o: Obj, data: string)
    requires Field(f, table, kid, "Page", "Parent") == Some(Ref(2, 0))
    requires Field(f, table, kid, "Page", "Contents") == Some(c)
    requires Resolve(f, table, c) == Some(Body(o, Some(data)))
    ensures PageContent(f, table, Ref(2, 0), kid) == Some(data)
  {
  }

  lemma PageBodies(contents: seq<string>, k: nat)
    requires k < |contents|
    ensures DocBody(contents, 4 + 2 * k) == Body(Page(6 + 2 * k), None)
    ensures DocBody(contents, 5 + 2 * k) == Body(StreamDict(|contents[k]|), Some(contents[k]))
  {
  }

  lemma PageContentFrom(f: string, table: seq<XEntry>, kid: Obj, content: nat, data: string)
    requires Resolve(f, table, kid) == Some(Body(Page(content), None))
    requires Resolve(f, table, Ref(content, 0)) == Some(Body(StreamDict(|data|), Some(data)))
    ensures PageContent(f, table, Ref(2, 0), kid) == Some(data)
  {
    PageEntries(content);
    FieldStep(f, table, kid, Page(content).entries, "Page", "Parent", Ref(2, 0));
    FieldStep(f, table, kid, Page(content).entries, "Page", "Contents", Ref(content, 0));
    PageContentStep(f, table, kid, Ref(content, 0), StreamDict(|data|), data);
  }

  lemma PageResolves(f: string, table: seq<XEntry>, contents: seq<string>, k: nat)
    requires Resolves(f, table, contents) && k < |contents|
    ensures Resolve(f, table, Ref(5 + 2 * k, 0)) == Some(Body(Page(6 + 2 * k), None))
    ensures Resolve(f, table, Ref(6 + 2 * k, 0)) == Some(Body(StreamDict(|contents[k]|), Some(contents[k])))
  {
    PageBodies(contents, k);
  }

  /** Each page object leads to its own content stream. */
  lemma PageContentOf(f: string, table: seq<XEntry>, contents: seq<string>, k: nat, kid: Obj)
    requires Resolves(f, table, contents) && k < |contents| && kid == Ref(5 + 2 * k, 0)
    ensures PageContent(f, table, Ref(2, 0), kid) == Some(contents[k])
  {
    PageResolves(f, table, contents, k);
    PageContentFrom(f, table, kid, 6 + 2 * k, contents[k]);
  }

  lemma {:induction false} CollectAll(os: seq<Option<string>>, contents: seq<string>)
    requires |os| == |contents| && forall k :: 0 <= k < |os| ==> os[k] == Some(contents[k])
    ensures Collect(os) == Some(contents)
  {
    if os != [] {
      CollectAll(os[1..], contents[1..]);
      assert contents == [contents[0]] + contents[1..];
    }
  }

  lemma PagesEntries(n: nat)
    ensures Lookup(Pages(n).entries, "Type") == Some(NameObj("Pages"))
    ensures Lookup(Pages(n).entries, "Kids") == Some(Arr(Kids(n)))
    ensures Lookup(Pages(n).entries, "Count") == Some(Int(n))
  {
    var es := Pages(n).entries;
    assert Lookup(es[2..], "Count") == Some(Int(n));
    assert Lookup(es[1..], "Count") == Lookup(es[2..], "Count");
    assert Lookup(es[1..], "Kids") == Some(Arr(Kids(n)));
  }

  lemma KidsAt(n: nat)
    ensures forall k :: 0 <= k < n ==> Kids(n)[k] == Ref(5 + 2 * k, 0)
  {
  }

  lemma KidsAreRead(f: string, table: seq<XEntry>, contents: seq<string>)
    requires Resolves(f, table, contents)
    ensures PageContents(f, table, Ref(2, 0), Kids(|contents|)) == Some(contents)
  {
    var kids := Kids(|contents|);
    KidsAt(|contents|);
    var values := seq(|kids|, i requires 0 <= i < |kids| => PageContent(f, table, Ref(2, 0), kids[i]));
    forall k | 0 <= k < |kids| ensures values[k] == Some(contents[k]) {
      PageContentOf(f, table, contents, k, kids[k]);
    }
    CollectAll(values, contents);
  }

  lemma KidsStep(f: string, table: seq<XEntry>, kids: seq<Obj>, r: Option<seq<string>>)
    requires Field(f, table, Ref(2, 0), "Pages", "Kids") == Some(Arr(kids))
    requires Field(f, table, Ref(2, 0), "Pages", "Count") == Some(Int(|kids|))
    requires PageContents(f, table, Ref(2, 0), kids) == r
    ensures ReadKids(f, table, Ref(2, 0)) == r
  {
  }

  lemma ReadKidsOf(f: string, table: seq<XEntry>, contents: seq<string>)
    requires Resolves(f, table, contents)
    ensures ReadKids(f, table, Ref(2, 0)) == Some(contents)
  {
    var n := |contents|;
    PagesEntries(n);
    FieldStep(f, table, Ref(2, 0), Pages(n).entries, "Pages", "Kids", Arr(Kids(n)));
    FieldStep(f, table, Ref(2, 0), Pages(n).entries, "Pages", "Count", Int(n));
    KidsAreRead(f, table, contents);
    KidsStep(f, table, Kids(n), Some(contents));
  }

  lemma RootEntry(n: nat)
    ensures Lookup(TrailerDict(n).entries, "Root") == Some(Ref(1, 0))
    ensures Lookup(Catalog().entries, "Type") == Some(NameObj("Catalog"))
    ensures Lookup(Catalog().entries, "Pages") == Some(Ref(2, 0))
  {
    assert Lookup(TrailerDict(n).entries[1..], "Root") == Some(Ref(1, 0));
    assert Lookup(Catalog().entries[1..], "Pages") == Some(Ref(2, 0));
  }

  lemma KidsKnown(f: string, table: seq<XEntry>, n: nat)
    requires Resolve(f, table, Ref(2, 0)) == Some(Body(Pages(n), None))
    ensures Field(f, table, Ref(2, 0), "Pages", "Kids") == Some(Arr(Kids(n)))
    ensures Field(f, table, Ref(2, 0), "Pages", "Count") == Some(Int(n))
  {
    PagesEntries(n);
    FieldStep(f, table, Ref(2, 0), Pages(n).entries, "Pages", "Kids", Arr(Kids(n)));
    FieldStep(f, table, Ref(2, 0), Pages(n).entries, "Pages", "Count", Int(n));
  }

  lemma CatalogKnown(f: string, table: seq<XEntry>, contents: seq<string>)
    requires Resolves(f, table, contents)
    ensures Field(f, table, Ref(1, 0), "Catalog", "Pages") == Some(Ref(2, 0))
    ensures Resolve(f, table, Ref(2, 0)) == Some(Body(Pages(|contents|), None))
  {
    RootEntry(0);
    FieldStep(f, table, Ref(1, 0), Catalog().entries, "Catalog", "Pages", Ref(2, 0));
  }

  lemma ReadTreeStep(f: string, table: seq<XEntry>, contents: seq<string>, ok: bool)
    requires ReadDocument(f) == if ok then Some(Document(table, TrailerDict(|table|).entries)) else None
    requires Resolves(f, table, contents)
    ensures ReadTree(f) == if ok then Some(Tree(table, Ref(2, 0), Kids(|contents|))) else None
  {
    if ok {
      RootEntry(|table|);
      CatalogKnown(f, table, contents);
      KidsKnown(f, table, |contents|);
    }
  }

  lemma ReadPagesStep(f: string, table: seq<XEntry>, contents: seq<string>, ok: bool)
    requires ReadDocument(f) == if ok then Some(Document(table, TrailerDict(|table|).entries)) else None
    requires Resolves(f, table, contents)
    ensures ReadPages(f) == if ok then Some(contents) else None
  {
    if ok {
      RootEntry(|table|);
      FieldStep(f, table, Ref(1, 0), Catalog().entries, "Catalog", "Pages", Ref(2, 0));
      ReadKidsOf(f, table, contents);
    }
  }

  /** The file of a document with these page contents. */
  function DocText(contents: seq<string>): string {
    FileText(DocBodies(contents))
  }

  /** The offset of the last object, which decides whether ten digits are enough for all of them. */
  function LastOffset(contents: seq<string>): nat {
    Offset(DocBodies(contents), 3 + 2 * |contents|)
  }

  lemma LastDecides(bs: seq<Body>, last: nat)
    requires |bs| == last + 1
    ensures AllFit(Offsets(bs)) <==> Offset(bs, last) < OFFSET_LIMIT
    ensures |Table(bs)| == |bs| + 1
  {
    LastOffsetDecides(bs);
  }

  lemma DocumentOfBodies(bs: seq<Body>, last: nat)
    requires |bs| == last + 1
    ensures ReadDocument(FileText(bs))
         == if Offset(bs, last) < OFFSET_LIMIT then
             Some(Document(Table(bs), TrailerDict(|Table(bs)|).entries)) else None
  {
    ReadDocumentOf(bs);
    LastDecides(bs, last);
  }

  lemma DocumentOf(contents: seq<string>)
    ensures ReadDocument(DocText(contents))
         == if LastOffset(contents) < OFFSET_LIMIT
            then Some(Document(Table(DocBodies(contents)), TrailerDict(|Table(DocBodies(contents))|).entries))
            else None
  {
    DocumentOfBodies(DocBodies(contents), 3 + 2 * |contents|);
  }

  /**
   * A standard reader that starts at the end of the file gets every page's content stream back,
   * byte for byte and in page order, exactly when the last object starts below byte 10^10.
   */
  lemma PagesAreReadBack(contents: seq<string>)
    ensures ReadPages(DocText(contents)) == if LastOffset(contents) < OFFSET_LIMIT then Some(contents) else None
  {
    DocumentOf(contents);
    EveryObjectResolves(contents);
    ReadPagesStep(DocText(contents), Table(DocBodies(contents)), contents, LastOffset(contents) < OFFSET_LIMIT);
  }

  /** The page tree as a reader finds it, under the same condition. */
  lemma TreeIsReadBack(contents: seq<string>)
    ensures ReadTree(DocText(contents))
         == if LastOffset(contents) < OFFSET_LIMIT
            then Some(Tree(Table(DocBodies(contents)), Ref(2, 0), Kids(|contents|))) else None
  {
    DocumentOf(contents);
    EveryObjectResolves(contents);
    ReadTreeStep(DocText(contents), Table(DocBodies(contents)), contents, LastOffset(contents) < OFFSET_LIMIT);
  }

  // ----- fonts and boxes -----

  const HELVETICA := FontInfo("Helvetica", "WinAnsiEncoding")
  const HELVETICA_BOLD := FontInfo("Helvetica-Bold", "WinAnsiEncoding")

  lemma FontFields(name: string)
    ensures var es := Font(name).entries;
            && Lookup(es, "Type") == Some(NameObj("Font")) && Lookup(es, "Subtype") == Some(NameObj("Type1"))
            && Lookup(es, "BaseFont") == Some(NameObj(name))
            && Lookup(es, "Encoding") == Some(NameObj("WinAnsiEncoding"))
  {
    var es := Font(name).entries;
    assert Lookup(es[1..], "Subtype") == Some(NameObj("Type1"));
    assert Lookup(es[2..], "BaseFont") == Some(NameObj(name));
    assert Lookup(es[1..], "BaseFont") == Lookup(es[2..], "BaseFont");
    assert Lookup(es[3..], "Encoding") == Some(NameObj("WinAnsiEncoding"));
    assert Lookup(es[2..], "Encoding") == Lookup(es[3..], "Encoding");
    assert Lookup(es[1..], "Encoding") == Lookup(es[2..], "Encoding");
  }

  lemma FontIsRead(f: string, table: seq<XEntry>, o: Obj, name: string)
    requires o.Ref? && Resolve(f, table, o) == Some(Body(Font(name), None))
    ensures FontIn(f, table, o) == Some(FontInfo(name, "WinAnsiEncoding"))
  {
    FontFields(name);
  }

  /** A page's font dictionary. */
  function Fonts(): seq<Entry> {
    [Entry("F1", Ref(3, 0)), Entry("F2", Ref(4, 0))]
  }

  lemma FontNames()
    ensures Lookup(Resources().entries, "Font") == Some(Dict(Fonts()))
    ensures Lookup(Fonts(), "F1") == Some(Ref(3, 0)) && Lookup(Fonts(), "F2") == Some(Ref(4, 0))
  {
    assert Lookup(Fonts()[1..], "F2") == Some(Ref(4, 0));
  }

  lemma PageFontStep(f: string, table: seq<XEntry>, kid: Obj, name: string, o: Obj, font: FontInfo)
    requires Field(f, table, kid, "Page", "Resources") == Some(Resources())
    requires Lookup(Resources().entries, "Font") == Some(Dict(Fonts())) && Lookup(Fonts(), name) == Some(o)
    requires FontIn(f, table, o) == Some(font)
    ensures PageFont(f, table, kid, name) == Some(font)
  {
  }

  lemma FontObjects(f: string, table: seq<XEntry>, contents: seq<string>)
    requires Resolves(f, table, contents)
    ensures Resolve(f, table, Ref(3, 0)) == Some(Body(Font("Helvetica"), None))
    ensures Resolve(f, table, Ref(4, 0)) == Some(Body(Font("Helvetica-Bold"), None))
  {
  }

  lemma PageFieldsFrom(f: string, table: seq<XEntry>, kid: Obj, content: nat)
    requires Resolve(f, table, kid) == Some(Body(Page(content), None))
    ensures Field(f, table, kid, "Page", "Resources") == Some(Resources())
    ensures Field(f, table, kid, "Page", "MediaBox") == Some(MediaBox())
  {
    PageEntries(content);
    MorePageEntries(content);
    FieldStep(f, table, kid, Page(content).entries, "Page", "Resources", Resources());
    FieldStep(f, table, kid, Page(content).entries, "Page", "MediaBox", MediaBox());
  }

  /** On every page F1 is Helvetica and F2 Helvetica-Bold, both in the Windows encoding. */
  lemma PageFontsOf(f: string, table: seq<XEntry>, contents: seq<string>, k: nat, kid: Obj)
    requires Resolves(f, table, contents) && k < |contents| && kid == Ref(5 + 2 * k, 0)
    ensures PageFont(f, table, kid, "F1") == Some(HELVETICA)
    ensures PageFont(f, table, kid, "F2") == Some(HELVETICA_BOLD)
  {
    PageResolves(f, table, contents, k);
    PageFieldsFrom(f, table, kid, 6 + 2 * k);
    FontObjects(f, table, contents);
    FontIsRead(f, table, Ref(3, 0), "Helvetica");
    FontIsRead(f, table, Ref(4, 0), "Helvetica-Bold");
    FontNames();
    PageFontStep(f, table, kid, "F1", Ref(3, 0), HELVETICA);
    PageFontStep(f, table, kid, "F2", Ref(4, 0), HELVETICA_BOLD);
  }

  lemma PageBoxStep(f: string, table: seq<XEntry>, kid: Obj, items: seq<Obj>)
    requires Field(f, table, kid, "Page", "MediaBox") == Some(Arr(items)) && |items| == 4
    ensures PageBox(f, table, kid) == Some(items)
  {
  }

  /** Every page is an upright A4 sheet. */
  lemma PageBoxOf(f: string, table: seq<XEntry>, contents: seq<string>, k: nat, kid: Obj)
    requires Resolves(f, table, contents) && k < |contents| && kid == Ref(5 + 2 * k, 0)
    ensures PageBox(f, table, kid) == Some([Int(0), Int(0), Real("595.28"), Real("841.89")])
  {
    PageResolves(f, table, contents, k);
    PageFieldsFrom(f, table, kid, 6 + 2 * k);
    PageBoxStep(f, table, kid, [Int(0), Int(0), Real("595.28"), Real("841.89")]);
  }
}
