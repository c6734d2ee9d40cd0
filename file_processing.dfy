/** Checking an uploaded file's type, reading a PDF's text page by page and
    cleaning extracted text. The file-type sniffer and the PDF reader are
    not part of this model: what they report is a parameter. */
module FileProcessing {
  import opened Common
  import DocumentGraph

  // ------------------------------------------------------------ file type

  /** What the sniffer reports: a MIME type and an extension. */
  datatype FileType = FileType(mime: string, ext: string)

  const PdfMime := "application/pdf"
  const PptMime := "application/vnd.ms-powerpoint"
  const OctetMime := "application/octet-stream"

  /** The MIME types accepted as detected. */
  const AllowedMimes: seq<string> := [PdfMime, "text/plain", DocumentGraph.PptxMime, PptMime, OctetMime]

  /** The types the sniffer gives a zip archive. */
  const ZipMimes: seq<string> := ["application/zip", "application/x-zip-compressed"]

  /** The type returned for a presentation recognised by its extension. */
  const PptxType := FileType(DocumentGraph.PptxMime, "pptx")

  /** `/\.(pptx|ppt)$/i`: the path ends in `.pptx` or `.ppt`, in any case. */
  predicate HasPptExtension(path: string)
  {
    EndsWith(Lower(path), ".pptx") || EndsWith(Lower(path), ".ppt")
  }

  /** The type was detected and is on the allowed list. */
  predicate AllowedType(detected: Option<FileType>)
  {
    detected.Some? && detected.value.mime in AllowedMimes
  }

  /** `checkFileType(filePath)` once the sniffer has reported `detected`
      (`None`: it recognised nothing). */
  function CheckFileType(path: string, detected: Option<FileType>): (r: Result<FileType>)
    ensures r.Ok? ==> r.value == PptxType || AllowedType(detected)
  {
    if AllowedType(detected) then Ok(detected.value)
    else
      var isZip := detected.Some? && detected.value.mime in ZipMimes;
      if (isZip || detected.None? || detected.value.mime == OctetMime) && HasPptExtension(path) then Ok(PptxType)
      else Thrown
  }

  /** An allowed type is returned as detected; anything else is accepted
      exactly when it is a zip archive or unrecognised and its path has a
      presentation extension, and then as a PPTX file; everything else
      throws. */
  lemma CheckFileTypeDecision(path: string, detected: Option<FileType>)
    ensures AllowedType(detected) ==> CheckFileType(path, detected) == Ok(detected.value)
    ensures !AllowedType(detected) ==>
              ((CheckFileType(path, detected) == Ok(PptxType))
               <==> ((detected.None? || detected.value.mime in ZipMimes) && HasPptExtension(path)))
    ensures CheckFileType(path, detected).Thrown? <==>
              !AllowedType(detected) && !((detected.None? || detected.value.mime in ZipMimes) && HasPptExtension(path))
  {
    if detected.Some? && detected.value.mime == OctetMime {
      assert AllowedType(detected) by {
        assert AllowedMimes[4] == OctetMime;
      }
    }
  }

  /** A generic binary file is allowed as it is, whatever its extension:
      the extension test is never reached for it. */
  lemma GenericBinaryKept(path: string, ext: string)
    ensures CheckFileType(path, Some(FileType(OctetMime, ext))) == Ok(FileType(OctetMime, ext))
  {
    assert AllowedMimes[4] == OctetMime;
  }

  /** `deck.PPTX` reported as a zip archive is a PPTX file. */
  lemma ZippedDeckAccepted(name: string)
    ensures CheckFileType(name + ".PPTX", Some(FileType("application/zip", "zip"))) == Ok(PptxType)
  {
    var path := name + ".PPTX";
    var low := Lower(path);
    assert low[|low| - 5..] == ".pptx" by {
      forall i | 0 <= i < 5 ensures low[|low| - 5 + i] == ".pptx"[i] {
        assert path[|path| - 5 + i] == ".PPTX"[i];
      }
    }
    assert !AllowedType(Some(FileType("application/zip", "zip"))) by {
      var m := "application/zip";
      assert m != AllowedMimes[0] && m != AllowedMimes[1] && m != AllowedMimes[3] && m != AllowedMimes[4] by {
        assert AllowedMimes[0][12] != m[12] && AllowedMimes[1][0] != m[0] && |AllowedMimes[3]| != |m| && |AllowedMimes[4]| != |m|;
      }
      assert m != AllowedMimes[2] by {
        assert |DocumentGraph.PptxMime| != |m|;
      }
    }
  }

  // ------------------------------------------------------------ PDF text

  /** The text of the pages: each page's items joined by spaces, followed by
      a line break. */
  function PdfText(pages: seq<seq<string>>): (r: string)
    decreases |pages|
  {
    if pages == [] then ""
    else PdfText(pages[..|pages| - 1]) + Join(pages[|pages| - 1], " ") + "\n"
  }

  /** `extractTextFromPdf(filePath)`: the loop over the pages, given each
      page's text items. */
  method ExtractTextFromPdf(pages: seq<seq<string>>) returns (text: string)
    ensures text == PdfText(pages)
  {
    text := "";
    for i := 0 to |pages|
      invariant text == PdfText(pages[..i])
    {
      assert pages[..i + 1][..i] == pages[..i];
      text := text + Join(pages[i], " ") + "\n";
    }
    assert pages[..|pages|] == pages;
  }

  /** The text of two runs of pages is the text of the first followed by
      that of the second: each page contributes its own line. */
  lemma {:induction false} PdfTextAppend(a: seq<seq<string>>, b: seq<seq<string>>)
    ensures PdfText(a + b) == PdfText(a) + PdfText(b)
    decreases |b|
  {
    if b == [] {
      assert a + b == a;
    } else {
      var init, page := b[..|b| - 1], b[|b| - 1];
      assert b == init + [page] && a + b == (a + init) + [page];
      PdfTextAppend(a, init);
      PdfTextSnoc(a + init, page);
      PdfTextSnoc(init, page);
      var line := Join(page, " ") + "\n";
      assert PdfText(a) + PdfText(init) + line == PdfText(a) + (PdfText(init) + line);
    }
  }

  /** One more page adds its line at the end. */
  lemma PdfTextSnoc(pages: seq<seq<string>>, page: seq<string>)
    ensures PdfText(pages + [page]) == PdfText(pages) + Join(page, " ") + "\n"
  {
    assert (pages + [page])[..|pages|] == pages;
  }

  /** One page gives its items joined by spaces and a line break. */
  lemma PdfTextPage(items: seq<string>)
    ensures PdfText([items]) == Join(items, " ") + "\n"
  {
    assert [items][..0] == [];
  }

  // ------------------------------------------------------------ cleaning

  /** No two whitespace characters in a row. */
  predicate NoDoubleSpace(s: string)
  {
    forall i :: 0 <= i < |s| - 1 ==> !(IsSpace(s[i]) && IsSpace(s[i + 1]))
  }

  /** Every whitespace character is a plain space. */
  predicate PlainSpaces(s: string)
  {
    forall i :: 0 <= i < |s| && IsSpace(s[i]) ==> s[i] == ' '
  }

  /** `replace(/\s+/g, ' ')`: each run of whitespace becomes one space. */
  function Collapse(s: string): (r: string)
    ensures NoDoubleSpace(r) && PlainSpaces(r)
    ensures (r != [] && IsSpace(r[0])) <==> (s != [] && IsSpace(s[0]))
    ensures r == [] <==> s == []
    decreases |s|
  {
    if s == [] then []
    else if IsSpace(s[0]) then
      var rest := Collapse(TrimStart(s));
      assert forall i :: 1 <= i < |" " + rest| ==> (" " + rest)[i] == rest[i - 1];
      " " + rest
    else
      var rest := Collapse(s[1..]);
      assert forall i :: 1 <= i < |[s[0]] + rest| ==> ([s[0]] + rest)[i] == rest[i - 1];
      [s[0]] + rest
  }

  /** `cleanText(text)`: whitespace runs collapsed, then trimmed. */
  function CleanText(text: string): (r: string)
    ensures r == [] || (!IsSpace(r[0]) && !IsSpace(r[|r| - 1]))
  {
    Trim(Collapse(text))
  }

  /** A slice keeps the absence of doubled whitespace. */
  lemma SliceKeeps(s: string, a: nat, b: nat)
    requires a <= b <= |s| && NoDoubleSpace(s) && PlainSpaces(s)
    ensures NoDoubleSpace(s[a..b]) && PlainSpaces(s[a..b])
  {
    var t := s[a..b];
    forall i | 0 <= i < |t| - 1 ensures !(IsSpace(t[i]) && IsSpace(t[i + 1])) {
      assert t[i] == s[a + i] && t[i + 1] == s[a + i + 1];
    }
    forall i | 0 <= i < |t| && IsSpace(t[i]) ensures t[i] == ' ' {
      assert t[i] == s[a + i];
    }
  }

  /** Trimming keeps the absence of doubled whitespace. */
  lemma TrimKeeps(s: string)
    requires NoDoubleSpace(s) && PlainSpaces(s)
    ensures NoDoubleSpace(Trim(s)) && PlainSpaces(Trim(s))
  {
    var t := TrimStart(s);
    SliceKeeps(s, |s| - |t|, |s|);
    SliceKeeps(t, 0, |TrimEnd(t)|);
  }

  /** The cleaned text has no whitespace at either end, no two whitespace
      characters in a row, and only plain spaces. */
  lemma CleanTextShape(text: string)
    ensures var r := CleanText(text);
            (r == [] || (!IsSpace(r[0]) && !IsSpace(r[|r| - 1]))) && NoDoubleSpace(r) && PlainSpaces(r)
  {
    TrimKeeps(Collapse(text));
  }

  /** Text already in that shape is left alone by collapsing. */
  lemma {:induction false} CollapseFixed(s: string)
    requires NoDoubleSpace(s) && PlainSpaces(s)
    ensures Collapse(s) == s
    decreases |s|
  {
    if s != [] {
      SliceKeeps(s, 1, |s|);
      if IsSpace(s[0]) {
        assert s[1..] == [] || !IsSpace(s[1..][0]) by {
          if s[1..] != [] { assert s[1..][0] == s[1]; }
        }
        assert TrimStart(s[1..]) == s[1..];
        assert TrimStart(s) == s[1..];
        CollapseFixed(s[1..]);
        assert s == " " + s[1..];
      } else {
        CollapseFixed(s[1..]);
        assert s == [s[0]] + s[1..];
      }
    }
  }

  /** A trimmed text is its own trim. */
  lemma TrimFixed(s: string)
    requires s == [] || (!IsSpace(s[0]) && !IsSpace(s[|s| - 1]))
    ensures Trim(s) == s
  {
  }

  /** Cleaning twice is cleaning once. */
  lemma CleanTextIdempotent(text: string)
    ensures CleanText(CleanText(text)) == CleanText(text)
  {
    var r := CleanText(text);
    CleanTextShape(text);
    CollapseFixed(r);
    TrimFixed(r);
  }

  /** The characters other than whitespace, in order. */
  function NonSpaces(s: string): string
    decreases |s|
  {
    if s == [] then [] else (if IsSpace(s[0]) then [] else [s[0]]) + NonSpaces(s[1..])
  }

  /** Leading whitespace holds no other character. */
  lemma {:induction false} NonSpacesTrimStart(s: string)
    ensures NonSpaces(TrimStart(s)) == NonSpaces(s)
    decreases |s|
  {
    if s != [] && IsSpace(s[0]) {
      NonSpacesTrimStart(s[1..]);
    }
  }

  /** The characters of a concatenation are those of its parts. */
  lemma {:induction false} NonSpacesAppend(a: string, b: string)
    ensures NonSpaces(a + b) == NonSpaces(a) + NonSpaces(b)
    decreases |a|
  {
    if a != [] {
      assert (a + b)[1..] == a[1..] + b;
      NonSpacesAppend(a[1..], b);
    } else {
      assert a + b == b;
    }
  }

  /** Trailing whitespace holds no other character. */
  lemma {:induction false} NonSpacesTrimEnd(s: string)
    ensures NonSpaces(TrimEnd(s)) == NonSpaces(s)
    decreases |s|
  {
    if s != [] && IsSpace(s[|s| - 1]) {
      var init := s[..|s| - 1];
      NonSpacesTrimEnd(init);
      NonSpacesAppend(init, [s[|s| - 1]]);
      assert s == init + [s[|s| - 1]];
    }
  }

  /** Collapsing whitespace keeps every other character, in order. */
  lemma {:induction false} NonSpacesCollapse(s: string)
    ensures NonSpaces(Collapse(s)) == NonSpaces(s)
    decreases |s|
  {
    if s != [] {
      if IsSpace(s[0]) {
        var x := Collapse(TrimStart(s));
        NonSpacesCollapse(TrimStart(s));
        NonSpacesTrimStart(s);
        assert (" " + x)[1..] == x;
      } else {
        var x := Collapse(s[1..]);
        NonSpacesCollapse(s[1..]);
        assert ([s[0]] + x)[1..] == x;
      }
    }
  }

  /** Cleaning keeps every character that is not whitespace, in order. */
  lemma CleanTextKeepsText(text: string)
    ensures NonSpaces(CleanText(text)) == NonSpaces(text)
  {
    NonSpacesCollapse(text);
    NonSpacesTrimStart(Collapse(text));
    NonSpacesTrimEnd(TrimStart(Collapse(text)));
  }
}
