/** Cutting a document graph into retrieval chunks, one per page or slide
    that has text, each carrying the page's structural metadata for
    citations; and the legacy plain text made of those chunks. */
module StructuredChunker {
  import opened Common
  import opened DocumentGraph

  /** The metadata of a chunk. */
  datatype ChunkMeta = ChunkMeta(
    documentId: string, documentType: string, pageIndex: int, pageType: string,
    nodeIds: seq<string>, textNodeCount: nat, imageNodeCount: nat,
    imageUrls: seq<Option<string>>, dimensions: Dimensions, slideTitle: Option<string>)

  datatype Chunk = Chunk(content: string, meta: ChunkMeta)

  /** `nodes.filter(node => node.type === kind)` */
  function OfKind(ns: seq<ContentNode>, kind: string): (r: seq<ContentNode>)
    ensures |r| <= |ns|
    ensures forall i :: 0 <= i < |r| ==> r[i] in ns && r[i].kind == kind
    ensures forall i :: 0 <= i < |ns| && ns[i].kind == kind ==> ns[i] in r
    decreases |ns|
  {
    if ns == [] then []
    else
      var last := ns[|ns| - 1];
      assert ns == ns[..|ns| - 1] + [last];
      OfKind(ns[..|ns| - 1], kind) + (if last.kind == kind then [last] else [])
  }

  /** `node.content.text || ''` */
  function TextOf(c: NodeContent): string
  {
    if c.TextContent? then c.text else ""
  }

  /** `node.content.url`, absent on a node whose payload has none. */
  function UrlOf(c: NodeContent): Option<string>
  {
    if c.ImageContent? then Some(c.url) else None
  }

  /** The texts of text nodes that are not blank, in node order. */
  function PageTexts(ns: seq<ContentNode>): (r: seq<string>)
    ensures forall i :: 0 <= i < |r| ==> !IsBlank(r[i])
    ensures |r| <= |ns|
    decreases |ns|
  {
    if ns == [] then []
    else
      var last := ns[|ns| - 1];
      PageTexts(ns[..|ns| - 1])
        + (if last.kind == "text" && !IsBlank(TextOf(last.content)) then [TextOf(last.content)] else [])
  }

  /** The chunk text of a page: its non-blank texts, one per line. */
  function PageContent(p: DocumentPage): string
    reads p
  {
    Join(PageTexts(p.nodes), "\n")
  }

  /** `createChunkFromPage(page, docGraph)` */
  function CreateChunk(p: DocumentPage, root: DocumentRoot): (c: Chunk)
    reads p, root
    ensures c.content == PageContent(p)
    ensures |c.meta.nodeIds| == |p.nodes| && forall i :: 0 <= i < |p.nodes| ==> c.meta.nodeIds[i] == p.nodes[i].id
    ensures c.meta.textNodeCount + c.meta.imageNodeCount <= |c.meta.nodeIds|
    ensures c.meta.imageNodeCount == |c.meta.imageUrls|
    ensures c.meta.slideTitle.Some? <==> p.kind == "slide" && p.title.Some? && p.title.value != ""
    ensures c.meta.slideTitle.Some? ==> c.meta.slideTitle == p.title
    ensures c.meta.pageIndex == p.index && c.meta.documentId == root.documentId && c.meta.documentType == root.kind
  {
    var texts, images := OfKind(p.nodes, "text"), OfKind(p.nodes, "image");
    KindsDisjoint(p.nodes);
    Chunk(PageContent(p), ChunkMeta(
      root.documentId, root.kind, p.index, p.kind,
      seq(|p.nodes|, i reads p requires 0 <= i < |p.nodes| => p.nodes[i].id),
      |texts|, |images|,
      seq(|images|, i requires 0 <= i < |images| => UrlOf(images[i].content)),
      p.dimensions,
      if p.kind == "slide" && p.title.Some? && p.title.value != "" then p.title else None))
  }

  /** A node is counted as text or as image, never both. */
  lemma {:induction false} KindsDisjoint(ns: seq<ContentNode>)
    ensures |OfKind(ns, "text")| + |OfKind(ns, "image")| <= |ns|
    decreases |ns|
  {
    if ns != [] {
      KindsDisjoint(ns[..|ns| - 1]);
    }
  }

  /** The page has a text node whose text is not blank; its chunk text is
      then not blank either (`PageHasTextIff`). */
  predicate HasText(p: DocumentPage)
    reads p
  {
    PageTexts(p.nodes) != []
  }

  /** Joined texts are blank only if the first one is. */
  lemma JoinNotBlank(parts: seq<string>, sep: string)
    requires parts != [] && !IsBlank(parts[0])
    ensures !IsBlank(Join(parts, sep))
  {
    var i :| 0 <= i < |parts[0]| && !IsSpace(parts[0][i]);
    if |parts| > 1 {
      assert Join(parts, sep)[i] == parts[0][i];
    }
  }

  /** `chunk.content.trim()` is truthy exactly when the page has a text
      node with non-blank text. */
  lemma PageHasTextIff(p: DocumentPage)
    ensures HasText(p) <==> Trim(PageContent(p)) != ""
  {
    TrimEmptyIffBlank(PageContent(p));
    if HasText(p) {
      JoinNotBlank(PageTexts(p.nodes), "\n");
    }
  }

  /** The chunks of the pages, in page order: one for each page whose text
      is not blank. */
  function Chunks(pages: seq<DocumentPage>, root: DocumentRoot): (r: seq<Chunk>)
    reads root, pages
    ensures |r| <= |pages|
    decreases |pages|
  {
    if pages == [] then []
    else
      var n := |pages| - 1;
      Chunks(pages[..n], root) + (if HasText(pages[n]) then [CreateChunk(pages[n], root)] else [])
  }

  /** `chunkByStructure(docGraph)`: the loop over the pages, pushing each
      page's chunk when its text is not blank. */
  method ChunkByStructure(root: DocumentRoot) returns (chunks: seq<Chunk>)
    ensures chunks == Chunks(root.pages, root)
  {
    var pages := root.pages;
    chunks := [];
    var i := 0;
    while i < |pages|
      invariant 0 <= i <= |pages|
      invariant chunks == Chunks(pages[..i], root)
    {
      var c := CreateChunk(pages[i], root);
      ChunksStep(pages, i, root);
      PageHasTextIff(pages[i]);
      if Trim(c.content) != "" {
        chunks := chunks + [c];
      }
      i := i + 1;
    }
    assert pages[..i] == pages;
  }

  /** One more page adds its chunk exactly when its text is not blank. */
  lemma ChunksStep(pages: seq<DocumentPage>, i: nat, root: DocumentRoot)
    requires i < |pages|
    ensures Chunks(pages[..i + 1], root)
            == Chunks(pages[..i], root)
               + (if HasText(pages[i]) then [CreateChunk(pages[i], root)] else [])
  {
    assert pages[..i + 1][..i] == pages[..i];
  }

  /** Which pages have text, page by page. */
  function TextFlags(pages: seq<DocumentPage>): (r: seq<bool>)
    reads pages
    ensures |r| == |pages| && forall i :: 0 <= i < |pages| ==> r[i] == HasText(pages[i])
  {
    seq(|pages|, i reads pages requires 0 <= i < |pages| => HasText(pages[i]))
  }

  /** The positions of the first `n` flags that are set, in order. */
  function SetPositions(flags: seq<bool>, n: nat): (r: seq<nat>)
    requires n <= |flags|
    ensures forall j :: 0 <= j < |r| ==> r[j] < n && flags[r[j]]
    ensures forall i :: 0 <= i < n && flags[i] ==> i in r
    ensures forall j, k :: 0 <= j < k < |r| ==> r[j] < r[k]
    decreases n
  {
    if n == 0 then [] else SetPositions(flags, n - 1) + (if flags[n - 1] then [n - 1] else [])
  }

  /** The chunks are those of the pages with text, in page order, one each. */
  lemma {:induction false} ChunksOfTextPages(pages: seq<DocumentPage>, n: nat, root: DocumentRoot)
    requires n <= |pages|
    ensures var idx := SetPositions(TextFlags(pages), n);
            |Chunks(pages[..n], root)| == |idx|
            && forall j :: 0 <= j < |idx| ==> Chunks(pages[..n], root)[j] == CreateChunk(pages[idx[j]], root)
    decreases n
  {
    if n > 0 {
      ChunksOfTextPages(pages, n - 1, root);
      ChunksStep(pages, n - 1, root);
    }
  }

  /** The contents of chunks, in order. */
  function Contents(chunks: seq<Chunk>): (r: seq<string>)
    ensures |r| == |chunks| && forall j :: 0 <= j < |r| ==> r[j] == chunks[j].content
  {
    seq(|chunks|, j requires 0 <= j < |chunks| => chunks[j].content)
  }

  /** `deriveTextFromGraph(docGraph)`: the chunk texts, a blank line apart. */
  method DeriveTextFromGraph(root: DocumentRoot) returns (text: string)
    ensures text == Join(Contents(Chunks(root.pages, root)), "\n\n")
  {
    var chunks := ChunkByStructure(root);
    text := Join(Contents(chunks), "\n\n");
  }

  /** A graph without pages gives no chunks and an empty text. */
  lemma NoPagesNoChunks(root: DocumentRoot)
    requires root.pages == []
    ensures Chunks(root.pages, root) == [] && Join(Contents(Chunks(root.pages, root)), "\n\n") == ""
  {
  }
}
