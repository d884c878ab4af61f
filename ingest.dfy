/**
 * Page collection of the ingestion run: every PDF in the data directory is
 * loaded, each page is tagged with the bare file name and a page number, and
 * the pages are gathered in listing order. The directory listing and the PDF
 * loader are parameters.
 */
module Ingest {
  import opened PyText
  import opened Documents

  const DATA_DIR: string := "data"

  /** A loader: from a file path to the pages it extracts, in page order. */
  type Loader = string -> seq<Document>

  /** `os.path.join(DATA_DIR, fname)` for a bare name from the listing. */
  function PathOf(fname: string): (path: string)
    ensures |path| > |fname| && path[|path| - |fname|..] == fname
  {
    DATA_DIR + "/" + fname
  }

  /** `fname.lower().endswith(".pdf")`. */
  predicate IsPdfName(fname: string): (accepted: bool)
    ensures accepted ==> |fname| >= 4 && fname[|fname| - 4] == '.'
    ensures EndsWith(fname, ".pdf") || EndsWith(fname, ".PDF") ==> accepted
  {
    if |fname| >= 4 then
      assert Lower(fname)[|fname| - 4] == LowerChar(fname[|fname| - 4]);
      EndsWith(Lower(fname), ".pdf")
    else EndsWith(Lower(fname), ".pdf")
  }

  /** The extension test is a case-insensitive look at the last four characters. */
  lemma PdfNameIff(fname: string)
    ensures IsPdfName(fname) <==>
      && |fname| >= 4
      && fname[|fname| - 4] == '.'
      && fname[|fname| - 3] in {'p', 'P'}
      && fname[|fname| - 2] in {'d', 'D'}
      && fname[|fname| - 1] in {'f', 'F'}
  {
    var n := |fname|;
    if n >= 4 {
      var low := Lower(fname);
      assert low[n - 4..] == [low[n - 4], low[n - 3], low[n - 2], low[n - 1]];
    }
  }

  lemma PdfNameExamples()
    ensures IsPdfName("X.PDF")
    ensures IsPdfName("kimia.Pdf")
    ensures !IsPdfName("a.pdf.txt")
    ensures !IsPdfName("pdf")
  {
    PdfNameIff("X.PDF");
    PdfNameIff("kimia.Pdf");
    PdfNameIff("a.pdf.txt");
    PdfNameIff("pdf");
  }

  /**
   * The two metadata updates applied to page `i` of file `fname`: `source`
   * becomes the bare name, `page` keeps its value or else becomes `i + 1`.
   */
  function TagPage(fname: string, i: nat, d: Document): (t: Document)
    ensures t.pageContent == d.pageContent
    ensures t.metadata.Keys == d.metadata.Keys + {"source", "page"}
    ensures t.metadata["source"] == PyStr(fname)
    ensures t.metadata["page"] == if "page" in d.metadata then d.metadata["page"] else PyInt(i + 1)
    ensures forall key :: key in d.metadata && key != "source" && key != "page" ==>
      t.metadata[key] == d.metadata[key]
  {
    var m := d.metadata["source" := PyStr(fname)];
    Document(d.pageContent, m["page" := GetOr(m, "page", PyInt(i + 1))])
  }

  /** The pages of one file after tagging, in page order. */
  function TaggedPages(fname: string, pages: seq<Document>): (r: seq<Document>)
    ensures |r| == |pages|
  {
    seq(|pages|, i requires 0 <= i < |pages| => TagPage(fname, i, pages[i]))
  }

  /** What one listed name contributes: its tagged pages if it is a PDF, else nothing. */
  function FilePages(fname: string, load: Loader): seq<Document> {
    if IsPdfName(fname) then TaggedPages(fname, load(PathOf(fname))) else []
  }

  /** The pages `build_store` keeps for each listed name. */
  function PagesOf(load: Loader): string -> seq<Document> {
    fname => FilePages(fname, load)
  }

  /** The blocks `pagesOf(name)` for the names of `names`, concatenated in order. */
  function ConcatPages(names: seq<string>, pagesOf: string -> seq<Document>): seq<Document>
    decreases |names|
  {
    if names == [] then []
    else ConcatPages(names[..|names| - 1], pagesOf) + pagesOf(names[|names| - 1])
  }

  /** The collected list after processing `listing` from first to last name. */
  function Collected(listing: seq<string>, load: Loader): seq<Document> {
    ConcatPages(listing, PagesOf(load))
  }

  /** The loop of `build_store` that fills `docs`. */
  method CollectPages(listing: seq<string>, load: Loader) returns (docs: seq<Document>)
    ensures docs == Collected(listing, load)
  {
    docs := [];
    for j := 0 to |listing|
      invariant docs == Collected(listing[..j], load)
    {
      var fname := listing[j];
      if IsPdfName(fname) {
        var path := PathOf(fname);
        var pages := load(path);
        pages := TagFilePages(fname, pages);
        docs := docs + pages;
      }
      assert listing[..j + 1][..j] == listing[..j];
    }
    assert listing[..|listing|] == listing;
  }

  /** The inner loop of `build_store`: the metadata updates of every page of one file. */
  method TagFilePages(fname: string, loaded: seq<Document>) returns (pages: seq<Document>)
    ensures pages == TaggedPages(fname, loaded)
  {
    pages := loaded;
    for i := 0 to |pages|
      invariant |pages| == |loaded|
      invariant forall k :: 0 <= k < i ==> pages[k] == TagPage(fname, k, loaded[k])
      invariant forall k :: i <= k < |pages| ==> pages[k] == loaded[k]
    {
      var d := pages[i];
      var md := d.metadata["source" := PyStr(fname)];
      md := md["page" := GetOr(md, "page", PyInt(i + 1))];
      pages := pages[i := Document(d.pageContent, md)];
    }
  }

  /** Concatenating over a listing in two halves concatenates the halves' results. */
  lemma {:induction false} ConcatPagesAppend(a: seq<string>, b: seq<string>, pagesOf: string -> seq<Document>)
    ensures ConcatPages(a + b, pagesOf) == ConcatPages(a, pagesOf) + ConcatPages(b, pagesOf)
    decreases |b|
  {
    if b == [] {
      assert a + b == a;
    } else {
      var b' := b[..|b| - 1];
      assert (a + b)[..|a + b| - 1] == a + b';
      ConcatPagesAppend(a, b', pagesOf);
    }
  }

  /** Collecting a listing in two halves concatenates the halves' results. */
  lemma CollectedAppend(a: seq<string>, b: seq<string>, load: Loader)
    ensures Collected(a + b, load) == Collected(a, load) + Collected(b, load)
  {
    ConcatPagesAppend(a, b, PagesOf(load));
  }

  /** A listed name's pages sit, as one block, between those of the names before and after it. */
  lemma CollectedAt(listing: seq<string>, j: nat, load: Loader)
    requires j < |listing|
    ensures Collected(listing, load) ==
      Collected(listing[..j], load) + FilePages(listing[j], load) + Collected(listing[j + 1..], load)
  {
    var front, back := listing[..j], listing[j + 1..];
    var one := [listing[j]];
    assert listing == (front + one) + back;
    ConcatPagesAppend(front + one, back, PagesOf(load));
    ConcatPagesAppend(front, one, PagesOf(load));
    CollectedSingle(listing[j], load);
  }

  /** A single listed name contributes its tagged pages if it is a PDF, and nothing otherwise. */
  lemma CollectedSingle(fname: string, load: Loader)
    ensures Collected([fname], load) == FilePages(fname, load)
  {
    assert [fname][..0] == [];
    assert ConcatPages([fname], PagesOf(load)) == ConcatPages([], PagesOf(load)) + PagesOf(load)(fname);
  }

  /** Number of pages the loader yields for the PDF names of the listing. */
  function PageCount(listing: seq<string>, load: Loader): nat
    decreases |listing|
  {
    if listing == [] then 0
    else
      var f := listing[|listing| - 1];
      PageCount(listing[..|listing| - 1], load) + (if IsPdfName(f) then |load(PathOf(f))| else 0)
  }

  lemma {:induction false} CollectedLength(listing: seq<string>, load: Loader)
    ensures |Collected(listing, load)| == PageCount(listing, load)
    decreases |listing|
  {
    if listing != [] {
      CollectedLength(listing[..|listing| - 1], load);
    }
  }

  /** Every collected page is tagged with the bare name of a listed PDF file. */
  lemma {:induction false} CollectedSources(listing: seq<string>, load: Loader, k: nat)
    requires k < |Collected(listing, load)|
    ensures "source" in Collected(listing, load)[k].metadata
    ensures exists j ::
      && 0 <= j < |listing|
      && IsPdfName(listing[j])
      && Collected(listing, load)[k].metadata["source"] == PyStr(listing[j])
    decreases |listing|
  {
    var n := |listing|;
    var front := listing[..n - 1];
    var c := Collected(front, load);
    if k < |c| {
      CollectedSources(front, load, k);
      var j :| 0 <= j < |front| && IsPdfName(front[j]) && c[k].metadata["source"] == PyStr(front[j]);
      assert listing[j] == front[j];
    } else {
      assert IsPdfName(listing[n - 1]);
      assert Collected(listing, load)[k] == FilePages(listing[n - 1], load)[k - |c|];
    }
  }

  /** Only the paths of PDF names reach the loader: other paths cannot affect the result. */
  lemma {:induction false} LoaderSeesOnlyPdfs(listing: seq<string>, load1: Loader, load2: Loader)
    requires forall f :: f in listing && IsPdfName(f) ==> load1(PathOf(f)) == load2(PathOf(f))
    ensures Collected(listing, load1) == Collected(listing, load2)
    decreases |listing|
  {
    if listing != [] {
      LoaderSeesOnlyPdfs(listing[..|listing| - 1], load1, load2);
      assert listing[|listing| - 1] in listing;
    }
  }
}
