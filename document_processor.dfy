/** Turning an uploaded file into a document graph and the plain text the
    legacy embedding index works on. The extractors themselves (pdfjs for
    PDF, the slide reader for PPTX) and the file I/O are not part of this
    model: the graph an extractor returns is a parameter. */
module DocumentProcessor {
  import opened Common
  import opened DocumentGraph
  import opened StableSorting

  // ------------------------------------------------------------ ordering

  /** The sort key of a node: `a.position?.y || 0`. */
  function YKey(n: ContentNode): real
  {
    if n.position.y.Some? then n.position.y.value else 0.0
  }


  /** `page.nodes.sort(...)`: the page's nodes are reordered in place. */
  method SortNodes(p: DocumentPage)
    modifies p
    ensures p.nodes == StableSort(old(p.nodes), YKey)
    ensures p.index == old(p.index) && p.kind == old(p.kind) && p.dimensions == old(p.dimensions) && p.title == old(p.title)
  {
    var nodes := p.nodes;
    var sorted := [];
    for i := 0 to |nodes|
      invariant sorted == StableSort(nodes[..i], YKey)
      invariant unchanged(p)
    {
      StableSortStep(nodes, i, YKey);
      sorted := Insert(sorted, nodes[i], YKey);
    }
    assert nodes[..|nodes|] == nodes;
    p.nodes := sorted;
  }

  // ------------------------------------------------------------ plain text

  /** `--- Page/Slide {index} ---` */
  function Header(index: int): string
  {
    "--- Page/Slide " + IntToString(index) + " ---"
  }

  /** `node.content.text` for each text node, in order; a text node without
      a text gives an empty line, as `join` renders `undefined`. */
  function TextLines(ns: seq<ContentNode>): (r: seq<string>)
    ensures |r| <= |ns|
    decreases |ns|
  {
    if ns == [] then []
    else
      var last := ns[|ns| - 1];
      TextLines(ns[..|ns| - 1])
        + (if last.kind == "text" then [if last.content.TextContent? then last.content.text else ""] else [])
  }

  /** A page's lines: the header, the texts of its text nodes once sorted,
      then a line break of its own. */
  function PageLines(v: PageView): seq<string>
  {
    [Header(v.index)] + TextLines(StableSort(v.nodes, YKey)) + ["\n"]
  }

  /** All the pages' lines, in page order. */
  function AllLines(vs: seq<PageView>): seq<string>
    decreases |vs|
  {
    if vs == [] then [] else AllLines(vs[..|vs| - 1]) + PageLines(vs[|vs| - 1])
  }

  /** `derivePlainText(docGraph)` on the pages as they were before. */
  function PlainText(vs: seq<PageView>): (r: string)
    ensures vs == [] ==> r == ""
    ensures vs != [] ==> StartsWith(r, Header(vs[0].index)) && EndsWith(r, "\n")
  {
    if vs == [] then ""
    else
      AllLinesEnds(vs);
      JoinEnds(AllLines(vs), "\n");
      Join(AllLines(vs), "\n")
  }

  /** The lines begin with the first page's header and end with the last
      page's line break. */
  lemma {:induction false} AllLinesEnds(vs: seq<PageView>)
    requires vs != []
    ensures var ls := AllLines(vs); ls != [] && ls[0] == Header(vs[0].index) && ls[|ls| - 1] == "\n"
    decreases |vs|
  {
    var init := vs[..|vs| - 1];
    if init != [] {
      AllLinesEnds(init);
      assert init[0] == vs[0];
    }
  }

  /** The page's lines start with its header and end with a line break;
      the text lines are the page's text nodes in ascending `y`. */
  lemma PageLinesShape(v: PageView)
    ensures PageLines(v)[0] == Header(v.index) && PageLines(v)[|PageLines(v)| - 1] == "\n"
    ensures PageLines(v)[1..|PageLines(v)| - 1] == TextLines(StableSort(v.nodes, YKey))
    ensures SortedBy(StableSort(v.nodes, YKey), YKey) && multiset(StableSort(v.nodes, YKey)) == multiset(v.nodes)
  {
    StableSortSorted(v.nodes, YKey);
  }

  /** The pages with their nodes sorted by `y` and their indices kept. */
  function SortedViews(vs: seq<PageView>): (r: seq<PageView>)
    ensures |r| == |vs|
  {
    seq(|vs|, j requires 0 <= j < |vs| => PageView(vs[j].index, StableSort(vs[j].nodes, YKey)))
  }

  /** `derivePlainText(docGraph)`: one header per page in page order, the
      page's text nodes in ascending `y`, and a line break per page, all
      joined by line breaks. Each page's nodes are left sorted. */
  method DerivePlainText(root: DocumentRoot) returns (text: string)
    modifies root.pages
    ensures text == PlainText(old(Views(root.pages)))
    ensures Views(root.pages) == SortedViews(old(Views(root.pages)))
  {
    var pages := root.pages;
    ghost var before := Views(pages);
    ghost var done: set<DocumentPage> := {};
    var lines: seq<string> := [];
    for i := 0 to |pages|
      invariant before == old(Views(pages))
      invariant lines == AllLines(before[..i])
      invariant SortedUpTo(pages, before, done, i)
    {
      var pageLines;
      pageLines, done := SortPage(pages, before, done, i);
      lines := lines + pageLines;
      AllLinesStep(before, i);
    }
    assert before[..|pages|] == before;
    AllPagesSorted(pages, before, done);
    text := Join(lines, "\n");
  }

  /** Once the loop has met every page, each page is sorted and keeps its
      index. */
  lemma AllPagesSorted(pages: seq<DocumentPage>, before: seq<PageView>, done: set<DocumentPage>)
    requires SortedUpTo(pages, before, done, |pages|)
    ensures Views(pages) == SortedViews(before)
  {
    var now, want := Views(pages), SortedViews(before);
    forall j | 0 <= j < |pages| ensures now[j] == want[j] {
      assert pages[j] in done;
    }
  }

  /** The loop's progress over the pages: `done` holds the pages met so
      far, which are sorted; the others are as they were (`before`). */
  ghost predicate SortedUpTo(pages: seq<DocumentPage>, before: seq<PageView>, done: set<DocumentPage>, i: nat)
    reads pages
  {
    && |before| == |pages| && i <= |pages|
    && (forall j, k :: 0 <= j < |pages| && 0 <= k < |pages| && pages[j] == pages[k] ==> before[j] == before[k])
    && (forall j :: 0 <= j < |pages| ==> pages[j].index == before[j].index)
    && (forall j :: 0 <= j < i ==> pages[j] in done)
    && (forall j :: 0 <= j < |pages| ==>
          pages[j].nodes == if pages[j] in done then StableSort(before[j].nodes, YKey) else before[j].nodes)
  }

  /** One page of `derivePlainText`: its header, then its nodes sorted in
      place, then the texts of its text nodes and a line break. A page met
      a second time is already sorted and keeps its order. */
  method SortPage(pages: seq<DocumentPage>, ghost before: seq<PageView>, ghost done: set<DocumentPage>, i: nat)
      returns (pageLines: seq<string>, ghost done': set<DocumentPage>)
    requires i < |pages| && SortedUpTo(pages, before, done, i)
    modifies pages[i]
    ensures pageLines == PageLines(before[i])
    ensures SortedUpTo(pages, before, done', i + 1)
  {
    var p := pages[i];
    ghost var target := StableSort(before[i].nodes, YKey);
    assert StableSort(p.nodes, YKey) == target by {
      if p in done {
        StableSortIdempotent(before[i].nodes, YKey);
      }
    }
    var header := Header(p.index);
    assert header == Header(before[i].index);
    SortNodes(p);
    pageLines := [header] + TextLines(p.nodes) + ["\n"];
    done' := done + {p};
    assert SortedUpTo(pages, before, done', i + 1) by {
      forall j | 0 <= j < i + 1 ensures pages[j] in done' {
        if j == i { assert pages[j] == p; }
      }
      forall j | 0 <= j < |pages|
        ensures pages[j].index == before[j].index
        ensures pages[j].nodes == if pages[j] in done' then StableSort(before[j].nodes, YKey) else before[j].nodes
      {
        if pages[j] == p {
          assert before[j] == before[i];
        } else {
          assert pages[j].nodes == old(pages[j].nodes) && pages[j].index == old(pages[j].index);
        }
      }
    }
  }

  /** One more page adds its lines. */
  lemma AllLinesStep(vs: seq<PageView>, i: nat)
    requires i < |vs|
    ensures AllLines(vs[..i + 1]) == AllLines(vs[..i]) + PageLines(vs[i])
  {
    assert vs[..i + 1][..i] == vs[..i];
  }

  // ------------------------------------------------------------ dispatch

  /** The extractor a file goes to. */
  datatype Extractor = PdfExtractor | PptxExtractor

  /** `processFile`'s choice: exactly `application/pdf` goes to the PDF
      extractor, a type mentioning a presentation or PowerPoint to the
      slide extractor, and anything else throws. */
  function ChooseExtractor(mime: string): (r: Result<Extractor>)
    ensures r == Ok(PdfExtractor) <==> mime == "application/pdf"
    ensures r == Ok(PptxExtractor) <==> mime != "application/pdf" && (Contains(mime, "presentation") || Contains(mime, "powerpoint"))
    ensures r.Thrown? <==> mime != "application/pdf" && !Contains(mime, "presentation") && !Contains(mime, "powerpoint")
  {
    if mime == "application/pdf" then Ok(PdfExtractor)
    else if Contains(mime, "presentation") || Contains(mime, "powerpoint") then Ok(PptxExtractor)
    else Thrown
  }

  /** The PPTX MIME type goes to the slide extractor, and the graph built
      from it is typed `'pptx'`. */
  lemma PptxMimeChosen()
    ensures ChooseExtractor(PptxMime) == Ok(PptxExtractor)
  {
    PptxMimeDetected();
  }

  /** What `processFile` returns. */
  datatype Processed = Processed(documentId: string, graph: DocumentRoot, extractedText: string)

  /** `processFile(file)` given the graph the chosen extractor returns
      (`pdfGraph` for PDF, `pptxGraph` for slides): unsupported types throw
      before anything is touched; otherwise the result carries the graph's
      id and its plain text. Writing the graph to disk is not modelled. */
  method ProcessFile(mime: string, pdfGraph: DocumentRoot, pptxGraph: DocumentRoot) returns (r: Result<Processed>)
    modifies pdfGraph.pages, pptxGraph.pages
    ensures r.Thrown? <==> ChooseExtractor(mime).Thrown?
    ensures ChooseExtractor(mime) == Ok(PdfExtractor) ==>
              r == Ok(Processed(pdfGraph.documentId, pdfGraph, PlainText(old(Views(pdfGraph.pages)))))
    ensures ChooseExtractor(mime) == Ok(PptxExtractor) ==>
              r == Ok(Processed(pptxGraph.documentId, pptxGraph, PlainText(old(Views(pptxGraph.pages)))))
    ensures r.Thrown? ==> unchanged(pdfGraph.pages) && unchanged(pptxGraph.pages)
  {
    var choice := ChooseExtractor(mime);
    if choice.Thrown? {
      return Thrown;
    }
    var graph := if choice.value == PdfExtractor then pdfGraph else pptxGraph;
    var text := DerivePlainText(graph);
    r := Ok(Processed(graph.documentId, graph, text));
  }
}
