/** The document graph the server builds from an uploaded file: a root with
    the file's details and metadata, its pages or slides in order, and on
    each page its content nodes (text blocks, images, shapes). Ids come from
    `crypto.randomUUID()` and the processing time from the clock: both are
    parameters. */
module DocumentGraph {
  import opened Common

  /** Where a node sits on its page; `position = {}` leaves both out. */
  datatype Position = Position(x: Option<real>, y: Option<real>)

  /** A text block's formatting, kept as opaque entries. */
  datatype Style = Style(entries: seq<(string, string)>)

  /** A node's payload: `{text, style}` for text, `{url, alt}` for images,
      something else for the other kinds. */
  datatype NodeContent =
    | TextContent(text: string, style: Style)
    | ImageContent(url: string, alt: string)
    | OtherContent

  /** `ContentNode`: an id, a kind (`'text'`, `'image'`, `'shape'`, ...),
      a payload and a position. */
  datatype ContentNode = ContentNode(id: string, kind: string, content: NodeContent, position: Position)

  /** `new TextNode(text, style, position)` */
  function TextNode(id: string, text: string, style: Style, position: Position): (n: ContentNode)
    ensures n.kind == "text" && n.content.TextContent? && n.content.text == text && n.content.style == style
    ensures n.id == id && n.position == position
  {
    ContentNode(id, "text", TextContent(text, style), position)
  }

  /** `new ImageNode(url, alt, position)`: the alternative text is `''`
      unless given. */
  function ImageNode(id: string, url: string, alt: Option<string>, position: Position): (n: ContentNode)
    ensures n.kind == "image" && n.content.ImageContent? && n.content.url == url
    ensures n.content.alt == if alt.Some? then alt.value else ""
    ensures n.id == id && n.position == position
  {
    ContentNode(id, "image", ImageContent(url, if alt.Some? then alt.value else ""), position)
  }

  /** A page's size; `dimensions = {}` leaves both out. */
  datatype Dimensions = Dimensions(width: Option<real>, height: Option<real>)

  /** `DocumentPage`: a page or slide with its nodes in the order added. A
      title is only ever attached from outside the class. */
  class DocumentPage {
    var index: int
    var kind: string
    var dimensions: Dimensions
    var title: Option<string>
    var nodes: seq<ContentNode>

    /** `new DocumentPage(index, dimensions, type)`, `type` being `'page'`
        unless given. */
    constructor (index: int, dimensions: Dimensions, kind: Option<string>)
      ensures this.index == index && this.kind == (if kind.Some? then kind.value else "page")
      ensures this.dimensions == dimensions && title == None && nodes == []
    {
      this.index := index;
      this.kind := if kind.Some? then kind.value else "page";
      this.dimensions := dimensions;
      title := None;
      nodes := [];
    }

    /** `addNode(node)`: the node goes last. */
    method AddNode(node: ContentNode)
      modifies this
      ensures nodes == old(nodes) + [node]
      ensures index == old(index) && kind == old(kind) && dimensions == old(dimensions) && title == old(title)
    {
      nodes := nodes + [node];
    }
  }

  /** A page's index and nodes at one moment, as the passes over a graph
      read them. */
  datatype PageView = PageView(index: int, nodes: seq<ContentNode>)

  function Views(pages: seq<DocumentPage>): (r: seq<PageView>)
    reads pages
    ensures |r| == |pages| && forall j :: 0 <= j < |pages| ==> r[j] == PageView(pages[j].index, pages[j].nodes)
  {
    seq(|pages|, j reads pages requires 0 <= j < |pages| => PageView(pages[j].index, pages[j].nodes))
  }

  /** `detectType(mime)`: by the first of `pdf`, then `presentation` or
      `powerpoint`, then `word` or `document`, that the MIME type contains. */
  function DetectType(mime: string): (r: string)
    ensures r in {"pdf", "pptx", "docx", "unknown"}
    ensures r == "pdf" <==> Contains(mime, "pdf")
    ensures r == "pptx" <==> !Contains(mime, "pdf") && (Contains(mime, "presentation") || Contains(mime, "powerpoint"))
    ensures r == "docx" <==> !Contains(mime, "pdf") && !Contains(mime, "presentation") && !Contains(mime, "powerpoint")
                             && (Contains(mime, "word") || Contains(mime, "document"))
  {
    if Contains(mime, "pdf") then "pdf"
    else if Contains(mime, "presentation") || Contains(mime, "powerpoint") then "pptx"
    else if Contains(mime, "word") || Contains(mime, "document") then "docx"
    else "unknown"
  }

  /** No `p` is directly followed by `d` in the text. */
  predicate NoPdPair(s: string)
  {
    forall i :: 0 <= i < |s| - 1 ==> !(s[i] == 'p' && s[i + 1] == 'd')
  }

  /** Two such texts joined where no `p` meets a `d` make one. */
  lemma NoPdPairJoin(a: string, b: string)
    requires NoPdPair(a) && NoPdPair(b)
    requires a == [] || b == [] || !(a[|a| - 1] == 'p' && b[0] == 'd')
    ensures NoPdPair(a + b)
  {
    var s := a + b;
    forall i | 0 <= i < |s| - 1 ensures !(s[i] == 'p' && s[i + 1] == 'd') {
      if i + 1 < |a| {
        assert s[i] == a[i] && s[i + 1] == a[i + 1];
      } else if i >= |a| {
        assert s[i] == b[i - |a|] && s[i + 1] == b[i - |a| + 1];
      }
    }
  }

  /** Without a `p` followed by `d`, there is no `pdf`. */
  lemma NoPdfIn(s: string)
    requires NoPdPair(s)
    ensures !Contains(s, "pdf")
  {
    forall i: nat | i <= |s|
      ensures !OccursAt(s, "pdf", i)
    {
      if i + 3 <= |s| {
        assert s[i..i + 3][0] == s[i] && s[i..i + 3][1] == s[i + 1];
      }
    }
  }

  /** `application/vnd.openxmlformats-officedocument.presentationml.presentation` */
  const PptxMime := "application/" + "vnd.openxmlformats-" + "officedocument." + "presentationml.presentation"

  /** The PPTX MIME type is detected as `'pptx'`: it mentions a
      presentation and no `pdf`. */
  lemma PptxMimeDetected()
    ensures DetectType(PptxMime) == "pptx"
  {
    var a, b, c, d := "application/", "vnd.openxmlformats-", "officedocument.", "presentationml.presentation";
    assert NoPdPair(a) && NoPdPair(b) && NoPdPair(c) && NoPdPair(d);
    NoPdPairJoin(a, b);
    NoPdPairJoin(a + b, c);
    NoPdPairJoin(a + b + c, d);
    assert a + b + c + d == PptxMime;
    NoPdfIn(PptxMime);
    var k := |a + b + c|;
    assert PptxMime[k..k + 12] == d[..12];
    assert OccursAt(PptxMime, "presentation", k);
  }

  /** `DocumentRoot`: the file's details, the metadata and the pages, with
      `pageCount` kept equal to the number of pages. */
  class DocumentRoot {
    var documentId: string
    var kind: string
    var fileName: string
    var mime: string
    var processedAt: string
    var title: string
    var pageCount: nat
    var language: string
    var pages: seq<DocumentPage>

    ghost predicate Valid()
      reads this
    {
      pageCount == |pages|
    }

    /** `new DocumentRoot(originalFileName, mimeType, title)`: the title is
        the file name unless a non-empty one is given; no pages yet. */
    constructor (documentId: string, fileName: string, mime: string, title: Option<string>, processedAt: string)
      ensures Valid() && pages == [] && pageCount == 0
      ensures this.documentId == documentId && this.fileName == fileName && this.mime == mime
      ensures kind == DetectType(mime) && this.processedAt == processedAt && language == "en"
      ensures this.title == if title.Some? && title.value != "" then title.value else fileName
    {
      this.documentId := documentId;
      kind := DetectType(mime);
      this.fileName, this.mime, this.processedAt := fileName, mime, processedAt;
      this.title := if title.Some? && title.value != "" then title.value else fileName;
      pageCount := 0;
      language := "en";
      pages := [];
    }

    /** `addPage(page)`: the page goes last and the count follows. */
    method AddPage(page: DocumentPage)
      requires Valid()
      modifies this
      ensures Valid()
      ensures pages == old(pages) + [page] && pageCount == old(pageCount) + 1
      ensures documentId == old(documentId) && kind == old(kind) && title == old(title)
      ensures fileName == old(fileName) && mime == old(mime) && processedAt == old(processedAt) && language == old(language)
    {
      pages := pages + [page];
      pageCount := |pages|;
    }
  }
}
