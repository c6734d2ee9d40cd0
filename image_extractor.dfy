/** Moving the images a slide extractor embedded as `data:image/...;base64,`
    URLs out of the document graph into files, and pointing each image node
    at the file's API path instead. Writing a file is the one effect kept:
    whether the write of a given path succeeds is a parameter. */
module ImageExtractor {
  import opened Common
  import opened DocumentGraph

  // ------------------------------------------------------------ data URLs

  const DataImagePrefix := "data:image/"

  /** The parts of `^data:image\/(\w+);base64,(.+)$`. */
  datatype DataUrl = DataUrl(extension: string, data: string)

  /** A line terminator, which `.` does not match. */
  predicate IsLineTerminator(c: char)
  {
    c == '\n' || c == '\r' || c == '\U{2028}' || c == '\U{2029}'
  }

  predicate IsWord(s: string)
  {
    forall i :: 0 <= i < |s| ==> IsWordChar(s[i])
  }

  predicate OnOneLine(s: string)
  {
    forall i :: 0 <= i < |s| ==> !IsLineTerminator(s[i])
  }

  /** The number of word characters from `i` on. */
  function WordRun(s: string, i: nat): (n: nat)
    requires i <= |s|
    ensures i + n <= |s| && IsWord(s[i..i + n])
    ensures i + n == |s| || !IsWordChar(s[i + n])
    decreases |s| - i
  {
    if i < |s| && IsWordChar(s[i]) then
      var n := 1 + WordRun(s, i + 1);
      assert s[i..i + n] == [s[i]] + s[i + 1..i + n];
      n
    else 0
  }

  /** `dataUrl.match(/^data:image\/(\w+);base64,(.+)$/)`: the extension is
      the whole run of word characters after the prefix (a `;` is not one,
      so backtracking cannot shorten it), and the data is the rest, on one
      line and not empty. */
  function ParseDataUrl(s: string): (r: Option<DataUrl>)
    ensures r.Some? ==> s == DataImagePrefix + r.value.extension + ";base64," + r.value.data
    ensures r.Some? ==> r.value.extension != [] && IsWord(r.value.extension)
    ensures r.Some? ==> r.value.data != [] && OnOneLine(r.value.data)
  {
    if !StartsWith(s, DataImagePrefix) then None
    else
      var k := |DataImagePrefix|;
      var n := WordRun(s, k);
      if n == 0 || !OccursAt(s, ";base64,", k + n) then None
      else
        var data := s[k + n + 8..];
        if data == [] || !OnOneLine(data) then None
        else
          assert s == s[..k] + s[k..k + n] + s[k + n..k + n + 8] + data;
          Some(DataUrl(s[k..k + n], data))
  }

  /** Every well-formed data URL parses back into its parts. */
  lemma ParseDataUrlOf(ext: string, data: string)
    requires ext != [] && IsWord(ext) && data != [] && OnOneLine(data)
    ensures ParseDataUrl(DataImagePrefix + ext + ";base64," + data) == Some(DataUrl(ext, data))
  {
    var s := DataImagePrefix + ext + ";base64," + data;
    var k := |DataImagePrefix|;
    assert s[..k] == DataImagePrefix;
    assert s[k..k + |ext|] == ext;
    assert s[k + |ext|..k + |ext| + 8] == ";base64,";
    assert s[k + |ext|] == ';';
    WordRunOf(s, k, |ext|);
    assert s[k + |ext| + 8..] == data;
  }

  /** A word run that a non-word character ends has exactly its length. */
  lemma {:induction false} WordRunOf(s: string, i: nat, n: nat)
    requires i + n < |s| && IsWord(s[i..i + n]) && !IsWordChar(s[i + n])
    ensures WordRun(s, i) == n
    decreases n
  {
    if n > 0 {
      assert s[i] == s[i..i + n][0];
      assert s[i + 1..i + n] == s[i..i + n][1..];
      WordRunOf(s, i + 1, n - 1);
    }
  }

  // ------------------------------------------------------------ file names

  /** `slide_{pageIndex}_img_{imgIndex}.{extension}` */
  function FileName(pageIndex: int, imgIndex: nat, extension: string): string
  {
    "slide_" + IntToString(pageIndex) + "_img_" + NatToString(imgIndex) + "." + extension
  }

  /** `/api/documents/{documentId}/images/{filename}` */
  function RelativePath(documentId: string, filename: string): string
  {
    "/api/documents/" + documentId + "/images/" + filename
  }

  /** `path.join(imageDir, filename)`, with `/` as the separator. */
  function AbsolutePath(imageDir: string, filename: string): string
  {
    imageDir + "/" + filename
  }

  /** A character a rendered integer is made of. */
  predicate IsNumeralChar(c: char)
  {
    IsDigit(c) || c == '-'
  }

  predicate IsNumeral(s: string)
  {
    forall i :: 0 <= i < |s| ==> IsNumeralChar(s[i])
  }

  /** The length of the numeral at the start. */
  function NumeralLength(s: string): (n: nat)
    ensures n <= |s|
  {
    if s != [] && IsNumeralChar(s[0]) then 1 + NumeralLength(s[1..]) else 0
  }

  /** A numeral followed by another character is read back whole. */
  lemma {:induction false} NumeralLengthOf(a: string, c: char, x: string)
    requires IsNumeral(a) && !IsNumeralChar(c)
    ensures NumeralLength(a + [c] + x) == |a|
    decreases |a|
  {
    if a != [] {
      assert (a + [c] + x)[1..] == a[1..] + [c] + x;
      NumeralLengthOf(a[1..], c, x);
    }
  }

  /** A numeral ended by a character that cannot be part of one is read
      back unambiguously. */
  lemma NumeralThenDelimiter(a: string, b: string, c: char, x: string, y: string)
    requires IsNumeral(a) && IsNumeral(b) && !IsNumeralChar(c)
    requires a + [c] + x == b + [c] + y
    ensures a == b && x == y
  {
    var s, t := a + [c] + x, b + [c] + y;
    NumeralLengthOf(a, c, x);
    NumeralLengthOf(b, c, y);
    assert a == s[..|a|] && b == t[..|b|];
    assert x == s[|a| + 1..] && y == t[|b| + 1..];
  }

  /** Different integers render differently. */
  lemma IntToStringInjective(a: int, b: int)
    requires IntToString(a) == IntToString(b)
    ensures a == b
  {
    SameSign(a, b);
    if a < 0 {
      NegativeInjective(-a, -b);
    } else {
      NatToStringInjective(a, b);
    }
  }

  /** Equal renderings have the same sign. */
  lemma SameSign(a: int, b: int)
    requires IntToString(a) == IntToString(b)
    ensures a < 0 <==> b < 0
  {
    assert IntToString(a)[0] == IntToString(b)[0];
  }

  /** Different negative integers render differently. */
  lemma NegativeInjective(m: nat, n: nat)
    requires m > 0 && n > 0 && IntToString(-(m as int)) == IntToString(-(n as int))
    ensures m == n
  {
    SignedTailsEqual(NatToString(m), NatToString(n));
    NatToStringInjective(m, n);
  }

  /** Equal texts after the same sign are equal. */
  lemma SignedTailsEqual(x: string, y: string)
    requires "-" + x == "-" + y
    ensures x == y
  {
    assert x == ("-" + x)[1..];
  }

  lemma IntToStringNumeral(i: int)
    ensures IsNumeral(IntToString(i))
  {
    var s := IntToString(i);
    if i < 0 {
      assert forall k :: 1 <= k < |s| ==> s[k] == NatToString(-i)[k - 1];
    }
  }

  /** Two images get the same file name only if they are the same image of
      the same page: no image file overwrites another. */
  lemma FileNamesDistinct(p1: int, i1: nat, e1: string, p2: int, i2: nat, e2: string)
    requires FileName(p1, i1, e1) == FileName(p2, i2, e2)
    ensures p1 == p2 && i1 == i2 && e1 == e2
  {
    IntToStringNumeral(p1);
    IntToStringNumeral(p2);
    NatToStringNumeral(i1);
    NatToStringNumeral(i2);
    NamePartsEqual(IntToString(p1), NatToString(i1), e1, IntToString(p2), NatToString(i2), e2);
    IntToStringInjective(p1, p2);
    NatToStringInjective(i1, i2);
  }

  lemma NatToStringNumeral(i: nat)
    ensures IsNumeral(NatToString(i))
  {
  }

  /** File names built from numerals split back into their parts. */
  lemma NamePartsEqual(n1: string, m1: string, e1: string, n2: string, m2: string, e2: string)
    requires IsNumeral(n1) && IsNumeral(m1) && IsNumeral(n2) && IsNumeral(m2)
    requires "slide_" + n1 + "_img_" + m1 + "." + e1 == "slide_" + n2 + "_img_" + m2 + "." + e2
    ensures n1 == n2 && m1 == m2 && e1 == e2
  {
    var rest1, rest2 := "img_" + m1 + ['.'] + e1, "img_" + m2 + ['.'] + e2;
    var f1, f2 := "slide_" + n1 + "_img_" + m1 + "." + e1, "slide_" + n2 + "_img_" + m2 + "." + e2;
    assert "_img_" == ['_'] + "img_" && "." == ['.'];
    assert f1 == "slide_" + (n1 + ['_'] + rest1);
    assert f2 == "slide_" + (n2 + ['_'] + rest2);
    assert f1[6..] == n1 + ['_'] + rest1 && f2[6..] == n2 + ['_'] + rest2;
    NumeralThenDelimiter(n1, n2, '_', rest1, rest2);
    assert rest1[4..] == m1 + ['.'] + e1 && rest2[4..] == m2 + ['.'] + e2;
    NumeralThenDelimiter(m1, m2, '.', e1, e2);
  }

  // ------------------------------------------------------------ saving

  /** Where and how files are written: the document, its image directory,
      and whether writing a given path succeeds. */
  datatype Target = Target(documentId: string, imageDir: string, canWrite: string -> bool)

  datatype Saved = Saved(absolutePath: string, relativePath: string)

  /** `saveBase64Image(dataUrl, imageDir, pageIndex, imgIndex, documentId)`:
      a URL the pattern rejects throws, as does a failed write; otherwise
      the file is named after the page, the image and the extension. */
  function SaveBase64Image(dataUrl: string, pageIndex: int, imgIndex: nat, t: Target): (r: Result<Saved>)
    ensures ParseDataUrl(dataUrl).None? ==> r.Thrown?
    ensures r.Ok? ==> exists d :: ParseDataUrl(dataUrl) == Some(d)
                        && r.value.relativePath == RelativePath(t.documentId, FileName(pageIndex, imgIndex, d.extension))
                        && r.value.absolutePath == AbsolutePath(t.imageDir, FileName(pageIndex, imgIndex, d.extension))
    ensures ParseDataUrl(dataUrl).Some? ==>
              (r.Ok? <==> t.canWrite(AbsolutePath(t.imageDir, FileName(pageIndex, imgIndex, ParseDataUrl(dataUrl).value.extension))))
  {
    match ParseDataUrl(dataUrl)
    case None => Thrown
    case Some(d) =>
      var name := FileName(pageIndex, imgIndex, d.extension);
      var abs := AbsolutePath(t.imageDir, name);
      if t.canWrite(abs) then Ok(Saved(abs, RelativePath(t.documentId, name))) else Thrown
  }

  // ------------------------------------------------------------ one page

  /** An image node whose URL is a data URL: the nodes the extraction
      looks at. */
  predicate IsDataImage(x: ContentNode)
  {
    x.kind == "image" && x.content.ImageContent? && StartsWith(x.content.url, DataImagePrefix)
  }

  /** The number of image nodes: `imgIndex` counts among these only. */
  function ImageCount(ns: seq<ContentNode>): (n: nat)
    ensures n <= |ns|
    decreases |ns|
  {
    if ns == [] then 0 else ImageCount(ns[..|ns| - 1]) + (if ns[|ns| - 1].kind == "image" then 1 else 0)
  }

  /** One image node: a data URL that is saved is replaced by the file's
      API path, and the file's path is reported; anything else stays. */
  function NodeStep(x: ContentNode, pageIndex: int, imgIndex: nat, t: Target): (ContentNode, seq<string>)
  {
    if IsDataImage(x) then
      match SaveBase64Image(x.content.url, pageIndex, imgIndex, t)
      case Ok(s) => (x.(content := x.content.(url := s.relativePath)), [s.absolutePath])
      case Thrown => (x, [])
    else (x, [])
  }

  /** A page's nodes after the extraction, and the paths of the files saved
      from it, in node order. */
  datatype PageResult = PageResult(nodes: seq<ContentNode>, paths: seq<string>)

  function RewriteNodes(ns: seq<ContentNode>, pageIndex: int, t: Target): (r: PageResult)
    ensures |r.nodes| == |ns|
    decreases |ns|
  {
    if ns == [] then PageResult([], [])
    else
      var n := |ns| - 1;
      var pre := RewriteNodes(ns[..n], pageIndex, t);
      var step := NodeStep(ns[n], pageIndex, ImageCount(ns[..n]), t);
      PageResult(pre.nodes + [step.0], pre.paths + step.1)
  }

  /** Only data-URL image nodes change, and a changed node keeps its id,
      kind and position and points at the document's image API. */
  lemma {:induction false} RewriteChangesOnlyDataImages(ns: seq<ContentNode>, pageIndex: int, t: Target, j: nat)
    requires j < |ns|
    ensures var y := RewriteNodes(ns, pageIndex, t).nodes[j];
            y == ns[j]
            || (IsDataImage(ns[j]) && y.id == ns[j].id && y.kind == ns[j].kind && y.position == ns[j].position
                && y.content.ImageContent? && y.content.alt == ns[j].content.alt
                && StartsWith(y.content.url, "/api/documents/" + t.documentId + "/images/"))
    decreases |ns|
  {
    var n := |ns| - 1;
    if j < n {
      RewriteChangesOnlyDataImages(ns[..n], pageIndex, t, j);
    } else {
      var x := ns[n];
      if IsDataImage(x) {
        var r := SaveBase64Image(x.content.url, pageIndex, ImageCount(ns[..n]), t);
        if r.Ok? {
          var d :| ParseDataUrl(x.content.url) == Some(d)
                   && r.value.relativePath == RelativePath(t.documentId, FileName(pageIndex, ImageCount(ns[..n]), d.extension));
          var prefix := "/api/documents/" + t.documentId + "/images/";
          assert r.value.relativePath == prefix + FileName(pageIndex, ImageCount(ns[..n]), d.extension);
        }
      }
    }
  }

  /** A page without data-URL images is left as it is and saves nothing. */
  lemma {:induction false} NoDataImagesNoChange(ns: seq<ContentNode>, pageIndex: int, t: Target)
    requires forall j :: 0 <= j < |ns| ==> !IsDataImage(ns[j])
    ensures RewriteNodes(ns, pageIndex, t) == PageResult(ns, [])
    decreases |ns|
  {
    if ns != [] {
      var n := |ns| - 1;
      NoDataImagesNoChange(ns[..n], pageIndex, t);
      assert ns[..n] + [ns[n]] == ns;
    }
  }

  /** At most one file per image node. */
  lemma {:induction false} PathsPerImage(ns: seq<ContentNode>, pageIndex: int, t: Target)
    ensures |RewriteNodes(ns, pageIndex, t).paths| <= ImageCount(ns)
    decreases |ns|
  {
    if ns != [] {
      PathsPerImage(ns[..|ns| - 1], pageIndex, t);
    }
  }

  /** The extraction keeps every node's kind, so image indices stay put. */
  lemma {:induction false} RewriteKeepsImageCount(ns: seq<ContentNode>, pageIndex: int, t: Target)
    ensures ImageCount(RewriteNodes(ns, pageIndex, t).nodes) == ImageCount(ns)
    ensures ns != [] ==> RewriteNodes(ns, pageIndex, t).nodes[..|ns| - 1] == RewriteNodes(ns[..|ns| - 1], pageIndex, t).nodes
    decreases |ns|
  {
    if ns != [] {
      var n := |ns| - 1;
      RewriteKeepsImageCount(ns[..n], pageIndex, t);
      var r := RewriteNodes(ns, pageIndex, t).nodes;
      assert r[..n] == RewriteNodes(ns[..n], pageIndex, t).nodes;
    }
  }

  /** A node already handled is left alone the second time: a saved image
      now points at the API, and one that failed fails the same way. */
  lemma NodeStepTwice(x: ContentNode, pageIndex: int, imgIndex: nat, t: Target)
    ensures NodeStep(NodeStep(x, pageIndex, imgIndex, t).0, pageIndex, imgIndex, t)
            == (NodeStep(x, pageIndex, imgIndex, t).0, [])
  {
    if IsDataImage(x) && SaveBase64Image(x.content.url, pageIndex, imgIndex, t).Ok? {
      var y := NodeStep(x, pageIndex, imgIndex, t).0;
      var d :| ParseDataUrl(x.content.url) == Some(d)
               && y.content.url == RelativePath(t.documentId, FileName(pageIndex, imgIndex, d.extension));
      assert y.content.url[0] == '/';
      assert !IsDataImage(y);
    }
  }

  /** Extracting a page a second time changes nothing and saves nothing. */
  lemma {:induction false} RewriteTwice(ns: seq<ContentNode>, pageIndex: int, t: Target)
    ensures var once := RewriteNodes(ns, pageIndex, t);
            RewriteNodes(once.nodes, pageIndex, t) == PageResult(once.nodes, [])
    decreases |ns|
  {
    if ns != [] {
      var n := |ns| - 1;
      var once := RewriteNodes(ns, pageIndex, t);
      RewriteTwice(ns[..n], pageIndex, t);
      RewriteKeepsImageCount(ns, pageIndex, t);
      RewriteKeepsImageCount(ns[..n], pageIndex, t);
      NodeStepTwice(ns[n], pageIndex, ImageCount(ns[..n]), t);
      assert once.nodes[..n] + [once.nodes[n]] == once.nodes;
    }
  }

  /** The inner loop of `extractAndSave` over one page: `imgIndex` counts
      the image nodes, and each saved image's node is rewritten in place. */
  method ExtractPage(p: DocumentPage, t: Target) returns (paths: seq<string>)
    modifies p
    ensures var r := RewriteNodes(old(p.nodes), old(p.index), t); p.nodes == r.nodes && paths == r.paths
    ensures p.index == old(p.index) && p.kind == old(p.kind) && p.dimensions == old(p.dimensions) && p.title == old(p.title)
  {
    var nodes := p.nodes;
    ghost var orig := nodes;
    var imgIndex := 0;
    paths := [];
    for j := 0 to |nodes|
      invariant |nodes| == |orig| && unchanged(p)
      invariant nodes == RewriteNodes(orig[..j], p.index, t).nodes + orig[j..]
      invariant paths == RewriteNodes(orig[..j], p.index, t).paths
      invariant imgIndex == ImageCount(orig[..j])
    {
      ghost var pre := RewriteNodes(orig[..j], p.index, t);
      RewriteStep(orig, j, p.index, t);
      ReplaceNext(pre.nodes, orig[j..], orig[j]);
      var node := nodes[j];
      if node.kind == "image" {
        var updated, saved := SaveImageNode(node, p.index, imgIndex, t);
        ReplaceNext(pre.nodes, orig[j..], updated);
        nodes := nodes[j := updated];
        paths := paths + saved;
        imgIndex := imgIndex + 1;
      } else {
        assert NodeStep(orig[j], p.index, imgIndex, t) == (orig[j], []);
        assert paths + [] == paths;
      }
    }
    assert orig[..|orig|] == orig && orig[|orig|..] == [];
    assert nodes == RewriteNodes(orig, p.index, t).nodes;
    assert paths == RewriteNodes(orig, p.index, t).paths;
    p.nodes := nodes;
  }

  /** The body of the inner loop for an image node: a data URL is saved
      and the node's URL replaced by the file's API path; a failure to
      save is logged and the node left as it is. */
  method SaveImageNode(node: ContentNode, pageIndex: int, imgIndex: nat, t: Target)
      returns (updated: ContentNode, saved: seq<string>)
    requires node.kind == "image"
    ensures (updated, saved) == NodeStep(node, pageIndex, imgIndex, t)
  {
    updated, saved := node, [];
    if node.content.ImageContent? && StartsWith(node.content.url, DataImagePrefix) {
      var result := SaveBase64Image(node.content.url, pageIndex, imgIndex, t);
      if result.Ok? {
        updated := node.(content := node.content.(url := result.value.relativePath));
        saved := [result.value.absolutePath];
      }
    }
  }

  /** One more node: the rewrite of a prefix grows by the node's step. */
  lemma RewriteStep(ns: seq<ContentNode>, j: nat, pageIndex: int, t: Target)
    requires j < |ns|
    ensures var pre := RewriteNodes(ns[..j], pageIndex, t);
            var step := NodeStep(ns[j], pageIndex, ImageCount(ns[..j]), t);
            RewriteNodes(ns[..j + 1], pageIndex, t) == PageResult(pre.nodes + [step.0], pre.paths + step.1)
    ensures ImageCount(ns[..j + 1]) == ImageCount(ns[..j]) + if ns[j].kind == "image" then 1 else 0
  {
    assert ns[..j + 1][..j] == ns[..j];
  }

  /** Replacing the first of the remaining elements. */
  lemma ReplaceNext<T>(done: seq<T>, rest: seq<T>, y: T)
    requires rest != []
    ensures (done + rest)[|done| := y] == (done + [y]) + rest[1..]
    ensures (done + rest)[|done|] == rest[0]
    ensures done + rest == (done + [rest[0]]) + rest[1..]
  {
  }

  // ------------------------------------------------------------ the graph

  /** The pages among the first `i`. */
  function PagesBefore(pages: seq<DocumentPage>, i: nat): (r: set<DocumentPage>)
    requires i <= |pages|
    ensures forall j :: 0 <= j < i ==> pages[j] in r
  {
    set j | 0 <= j < i :: pages[j]
  }

  /** A page object seen for the first time at position `j`. */
  predicate FirstVisit(pages: seq<DocumentPage>, j: nat)
    requires j < |pages|
  {
    pages[j] !in PagesBefore(pages, j)
  }

  /** The files saved from the first `i` pages, in page and node order; a
      page object met again saves nothing more (`RewriteTwice`). */
  function AllPaths(pages: seq<DocumentPage>, vs: seq<PageView>, i: nat, t: Target): seq<string>
    requires i <= |pages| == |vs|
    decreases i
  {
    if i == 0 then []
    else
      AllPaths(pages, vs, i - 1, t)
        + (if FirstVisit(pages, i - 1) then RewriteNodes(vs[i - 1].nodes, vs[i - 1].index, t).paths else [])
  }

  /** The result of `extractAndSave`. */
  datatype Extraction = Extraction(extractedCount: nat, imagePaths: seq<string>, wroteMetadata: bool)

  /** `extractAndSave(documentId, docGraph, docDir)`: every page's data-URL
      images are saved and their nodes rewritten; the count is the number
      of files saved, and the graph is written back only when one was. */
  method ExtractAndSave(root: DocumentRoot, t: Target) returns (r: Extraction)
    modifies root.pages
    ensures r.extractedCount == |r.imagePaths|
    ensures r.imagePaths == AllPaths(root.pages, old(Views(root.pages)), |root.pages|, t)
    ensures r.wroteMetadata <==> r.extractedCount > 0
    ensures forall j :: 0 <= j < |root.pages| ==>
              root.pages[j].nodes == RewriteNodes(old(root.pages[j].nodes), old(root.pages[j].index), t).nodes
              && root.pages[j].index == old(root.pages[j].index)
  {
    var pages := root.pages;
    ghost var before := Views(pages);
    var extractedCount := 0;
    var imagePaths: seq<string> := [];
    for i := 0 to |pages|
      invariant before == old(Views(pages))
      invariant extractedCount == |imagePaths|
      invariant imagePaths == AllPaths(pages, before, i, t)
      invariant ExtractedUpTo(pages, before, i, t)
    {
      var paths := ExtractPageStep(pages, before, i, t);
      imagePaths := imagePaths + paths;
      extractedCount := extractedCount + |paths|;
    }
    forall j | 0 <= j < |pages|
      ensures pages[j].nodes == RewriteNodes(before[j].nodes, before[j].index, t).nodes
      ensures pages[j].index == before[j].index
    {
      assert pages[j] in PagesBefore(pages, |pages|);
    }
    r := Extraction(extractedCount, imagePaths, extractedCount > 0);
  }

  /** The loop's progress: the first `i` pages are extracted, the others
      are as they were (`before`). */
  ghost predicate ExtractedUpTo(pages: seq<DocumentPage>, before: seq<PageView>, i: nat, t: Target)
    reads pages
  {
    && |before| == |pages| && i <= |pages|
    && (forall j, k :: 0 <= j < |pages| && 0 <= k < |pages| && pages[j] == pages[k] ==> before[j] == before[k])
    && (forall j :: 0 <= j < |pages| ==> pages[j].index == before[j].index)
    && (forall j :: 0 <= j < |pages| ==>
          pages[j].nodes == if pages[j] in PagesBefore(pages, i)
                            then RewriteNodes(before[j].nodes, before[j].index, t).nodes
                            else before[j].nodes)
  }

  /** One page of the outer loop, with the progress it makes. */
  method ExtractPageStep(pages: seq<DocumentPage>, ghost before: seq<PageView>, i: nat, t: Target)
      returns (paths: seq<string>)
    requires i < |pages| && ExtractedUpTo(pages, before, i, t)
    modifies pages[i]
    ensures paths == if FirstVisit(pages, i) then RewriteNodes(before[i].nodes, before[i].index, t).paths else []
    ensures ExtractedUpTo(pages, before, i + 1, t)
  {
    var p := pages[i];
    ghost var once := RewriteNodes(before[i].nodes, before[i].index, t);
    ghost var first := FirstVisit(pages, i);
    assert RewriteNodes(p.nodes, p.index, t) == if first then once else PageResult(once.nodes, []) by {
      if !first {
        RewriteTwice(before[i].nodes, before[i].index, t);
      }
    }
    paths := ExtractPage(p, t);
    assert ExtractedUpTo(pages, before, i + 1, t) by {
      assert PagesBefore(pages, i + 1) == PagesBefore(pages, i) + {p};
      forall j | 0 <= j < |pages|
        ensures pages[j].index == before[j].index
        ensures pages[j].nodes == if pages[j] in PagesBefore(pages, i + 1)
                                  then RewriteNodes(before[j].nodes, before[j].index, t).nodes
                                  else before[j].nodes
      {
        if pages[j] == p {
          assert before[j] == before[i];
        } else {
          assert pages[j].nodes == old(pages[j].nodes) && pages[j].index == old(pages[j].index);
        }
      }
    }
  }

  /** A graph without pages extracts nothing and writes nothing. */
  lemma NoPagesNothingExtracted(pages: seq<DocumentPage>, t: Target)
    requires pages == []
    ensures AllPaths(pages, [], 0, t) == []
  {
  }

  // ------------------------------------------------------------ detection

  /** Some page has an image node with a data URL. */
  predicate HasDataImage(vs: seq<PageView>)
  {
    exists j, k :: 0 <= j < |vs| && 0 <= k < |vs[j].nodes| && IsDataImage(vs[j].nodes[k])
  }

  /** `hasBase64Images(docGraph)`: the nested loops return at the first
      image node with a data URL. */
  method HasBase64Images(root: DocumentRoot) returns (found: bool)
    ensures found <==> HasDataImage(Views(root.pages))
  {
    var pages := root.pages;
    ghost var vs := Views(pages);
    for j := 0 to |pages|
      invariant forall j', k :: 0 <= j' < j && 0 <= k < |vs[j'].nodes| ==> !IsDataImage(vs[j'].nodes[k])
    {
      var nodes := pages[j].nodes;
      for k := 0 to |nodes|
        invariant forall k' :: 0 <= k' < k ==> !IsDataImage(nodes[k'])
      {
        var node := nodes[k];
        if node.kind == "image" && node.content.ImageContent? && StartsWith(node.content.url, DataImagePrefix) {
          assert IsDataImage(vs[j].nodes[k]);
          return true;
        }
      }
    }
    return false;
  }

  /** Without data-URL images the extraction changes no page and saves
      nothing. */
  lemma {:induction false} NothingToExtract(pages: seq<DocumentPage>, vs: seq<PageView>, i: nat, t: Target)
    requires i <= |pages| == |vs| && !HasDataImage(vs)
    ensures AllPaths(pages, vs, i, t) == []
    ensures forall j :: 0 <= j < |vs| ==> RewriteNodes(vs[j].nodes, vs[j].index, t).nodes == vs[j].nodes
    decreases i
  {
    forall j | 0 <= j < |vs| ensures RewriteNodes(vs[j].nodes, vs[j].index, t) == PageResult(vs[j].nodes, []) {
      NoDataImagesNoChange(vs[j].nodes, vs[j].index, t);
    }
    if i > 0 {
      NothingToExtract(pages, vs, i - 1, t);
    }
  }
}
