/** The export dialog opened from the store's export state: which formats it
    offers, the request it posts for each format, and the page it renders
    the exported data into. */
module ExportModal {
  import opened Common
  import opened JsValue
  import opened ExportRender

  /** `if (!showExportModal || !exportContent) return null` */
  predicate IsShown(showExportModal: bool, exportContent: Js)
  {
    showExportModal && Truthy(exportContent)
  }

  datatype ExportFormat = Pdf | Docx | Csv

  function FormatName(f: ExportFormat): (r: string)
    ensures r in {"pdf", "docx", "csv"}
  {
    match f
    case Pdf => "pdf"
    case Docx => "docx"
    case Csv => "csv"
  }

  /** Whether the data is a quiz: a quiz module, or a preview whose data
      carries a quiz. */
  predicate OffersCsv(mode: string, data: Js)
  {
    mode == "quiz" || (mode == "preview" && Truthy(Get(data, "quiz")))
  }

  /** `getOptions()`: PDF, then Word, then CSV for quiz data only. */
  function Options(mode: string, data: Js): (r: seq<ExportFormat>)
    ensures |r| >= 2 && r[0] == Pdf && r[1] == Docx
    ensures Csv in r <==> OffersCsv(mode, data)
    ensures |r| == if OffersCsv(mode, data) then 3 else 2
  {
    [Pdf, Docx] + (if OffersCsv(mode, data) then [Csv] else [])
  }

  /** Flashcard rows in this dialog read `front` and `back`. */
  const ModalCardsAsWritten := CardFields("front", "back")

  /** The fields flashcards have, which the rows are evidently meant to show. */
  const ModalCards := CardFields("question", "answer")

  const ModalErrorHead := "<h1>Error rendering content</h1><p>"

  /** This dialog's `renderDataToHtml`, as written. */
  function ModalHtmlAsWritten(mode: string, data: Js, stringify: Js -> string): (r: string)
    ensures mode == "editor" && data.Str? ==> r == data.s
    ensures mode != "editor" && !Truthy(data) ==> r == NoContent
  {
    RenderDataToHtml(mode, data, ModalCardsAsWritten, ModalErrorHead, stringify)
  }

  /** This dialog's `renderDataToHtml` with flashcard rows reading the
      question and answer of each card. */
  function ModalHtml(mode: string, data: Js, stringify: Js -> string): (r: string)
    ensures mode == "editor" && data.Str? ==> r == data.s
    ensures mode != "editor" && !Truthy(data) ==> r == NoContent
  {
    RenderDataToHtml(mode, data, ModalCards, ModalErrorHead, stringify)
  }

  /** A flashcard has a question and an answer and no `front` or `back`, so
      as written both of its cells are empty; read by its own fields, the
      row shows them. */
  lemma FlashcardCellsEmptyAsWritten()
    ensures CardRow(ModalCardsAsWritten, Obj([("question", Str("Q")), ("answer", Str("A"))]))
            == Some("<tr><td>" + "" + "</td><td>" + "" + "</td></tr>")
    ensures CardRow(ModalCards, Obj([("question", Str("Q")), ("answer", Str("A"))]))
            == Some("<tr><td>" + "Q" + "</td><td>" + "A" + "</td></tr>")
  {
  }

  /** Outside flashcards the two readings render the same page. */
  lemma OnlyFlashcardsDiffer(mode: string, data: Js, stringify: Js -> string)
    requires mode != "flashcards"
    ensures ModalHtmlAsWritten(mode, data, stringify) == ModalHtml(mode, data, stringify)
  {
    assert ModeBody(mode, data, ModalCardsAsWritten) == ModeBody(mode, data, ModalCards);
  }

  const ModalStyleHead := "<html><head><style>"
    + "body { font-family: sans-serif; padding: 40px; line-height: 1.6; color: #333; } "
    + "h1, h2, h3 { color: #111; } .preview-list { list-style: none; padding: 0; } "
    + ".preview-list-item { margin-bottom: 12px; } img { max-width: 100%; height: auto; } "
    + "table { width: 100%; border-collapse: collapse; margin-top: 20px; } "
    + "th, td { border: 1px solid #ddd; padding: 8px; text-align: left; } th { background-color: #f5f5f5; }"
    + "</style></head>"

  /** `wrapInStyle(html)`: the fragment becomes the whole body of a page. */
  function WrapInStyle(html: string): (r: string)
    ensures |r| == |ModalStyleHead + "<body>"| + |html| + |"</body></html>"|
    ensures StartsWith(r, ModalStyleHead + "<body>") && EndsWith(r, "</body></html>")
    ensures r[|ModalStyleHead + "<body>"|..|r| - |"</body></html>"|] == html
  {
    ModalStyleHead + "<body>" + html + "</body></html>"
  }

  /** The body `handleExportAction` posts. The time stamp in the file name
      is a parameter. */
  datatype ExportRequest = ExportRequest(format: ExportFormat, filename: string, mode: string,
                                         html: Option<string>, data: Option<Js>)

  /** PDF and Word carry the styled page and no data; CSV carries the data
      and no page. */
  function RequestBody(format: ExportFormat, mode: string, data: Js, now: int, stringify: Js -> string): (r: ExportRequest)
    ensures r.format == format && r.mode == mode
    ensures r.filename == "pdfy-" + mode + "-" + IntToString(now)
    ensures r.html.Some? <==> format != Csv
    ensures r.data.Some? <==> format == Csv
    ensures r.html.Some? ==> r.html.value == WrapInStyle(ModalHtml(mode, data, stringify))
    ensures r.data.Some? ==> r.data.value == data
  {
    var filename := "pdfy-" + mode + "-" + IntToString(now);
    if format == Csv then ExportRequest(format, filename, mode, None, Some(data))
    else ExportRequest(format, filename, mode, Some(WrapInStyle(ModalHtml(mode, data, stringify))), None)
  }
}
