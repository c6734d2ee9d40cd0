/** The export button of a project module on the dashboard: the dropdown
    shared between modules, the label of a generation scope, the preview
    preset, the version whose data is exported, whether the module has
    anything to export, and the page sent to the export endpoint. */
module ProjectExport {
  import opened Common
  import opened JsValue
  import opened StoreState
  import opened ExportRender

  /** `toggleDropdown`: the open dropdown is this module's exactly when it
      was not before; opening one closes any other. */
  function ToggleDropdown(active: Option<string>, mode: string): (r: Option<string>)
    ensures r == Some(mode) <==> active != Some(mode)
    ensures r != Some(mode) ==> r == None
  {
    if active == Some(mode) then None else Some(mode)
  }

  /** A detected topic: its id and the label shown for it. */
  datatype Topic = Topic(id: string, text: string)

  /** `topics.find(t => t.id === id)` */
  function FindTopic(topics: seq<Topic>, id: string): (r: Option<Topic>)
    ensures r.None? <==> forall i :: 0 <= i < |topics| ==> topics[i].id != id
    ensures r.Some? ==> r.value in topics && r.value.id == id
  {
    if topics == [] then None
    else if topics[0].id == id then Some(topics[0])
    else FindTopic(topics[1..], id)
  }

  /** `String(xs[i])` of an element that may be absent. */
  function ElementText(xs: seq<string>, i: nat): string
  {
    if i < |xs| then xs[i] else "undefined"
  }

  /** The topic ids `Array.isArray(scope.value) ? scope.value : []` reads:
      a page pair is an array of two numbers. */
  function ScopeTopicIds(value: ScopeValue): (r: seq<string>)
    ensures value.NoValue? ==> r == []
    ensures value.TopicIds? ==> r == value.ids
    ensures value.PagePair? ==> |r| == 2
  {
    match value
    case NoValue => []
    case PagePair(s, e) => [IntToString(s), IntToString(e)]
    case TopicIds(ids) => ids
  }

  /** `getScopeLabel(scope)`; None when a page scope has no value to index
      (`null[0]` throws). */
  function ScopeLabel(scope: Option<Scope>, topics: seq<Topic>): (r: Option<string>)
    ensures scope.None? || scope.value.kind == AllScope ==> r == Some("Full Document")
    ensures scope.Some? && scope.value.kind == PagesScope ==> (r.None? <==> scope.value.value.NoValue?)
    ensures scope.Some? && scope.value.kind == PagesScope && scope.value.value.PagePair? ==>
              r == Some("Pages " + IntToString(scope.value.value.start) + " -" + IntToString(scope.value.value.end) + " ")
    ensures scope.Some? && scope.value.kind == TopicsScope ==>
              var ids := ScopeTopicIds(scope.value.value);
              r.Some? &&
              (|ids| == 0 ==> r.value == "Selected Topics") &&
              (|ids| == 1 && FindTopic(topics, ids[0]).Some? ==> r.value == FindTopic(topics, ids[0]).value.text + " ") &&
              (|ids| == 1 && FindTopic(topics, ids[0]).None? ==> r.value == "Selected Topic") &&
              (|ids| >= 2 ==> r.value == NatToString(|ids|) + " Topics")
  {
    if scope.None? || scope.value.kind == AllScope then Some("Full Document")
    else if scope.value.kind == PagesScope then
      match scope.value.value
      case NoValue => None
      case PagePair(s, e) => Some("Pages " + IntToString(s) + " -" + IntToString(e) + " ")
      case TopicIds(ids) => Some("Pages " + ElementText(ids, 0) + " -" + ElementText(ids, 1) + " ")
    else
      var ids := ScopeTopicIds(scope.value.value);
      if |ids| == 0 then Some("Selected Topics")
      else if |ids| == 1 then
        var t := FindTopic(topics, ids[0]);
        if t.Some? then Some(t.value.text + " ") else Some("Selected Topic")
      else Some(NatToString(|ids|) + " Topics")
  }

  /** A selection of several topics is labelled by their number, so two
      selections of different sizes get different labels. */
  lemma TopicCountLabelsDiffer(a: seq<string>, b: seq<string>, topics: seq<Topic>)
    requires |a| >= 2 && |b| >= 2 && |a| != |b|
    ensures ScopeLabel(Some(Scope(TopicsScope, TopicIds(a))), topics) != ScopeLabel(Some(Scope(TopicsScope, TopicIds(b))), topics)
  {
    var la, lb := NatToString(|a|), NatToString(|b|);
    if la + " Topics" == lb + " Topics" {
      assert la == (la + " Topics")[..|la + " Topics"| - 7];
      assert lb == (lb + " Topics")[..|lb + " Topics"| - 7];
      NatToStringInjective(|a|, |b|);
    }
  }

  datatype PresetEntry = PresetEntry(value: string, text: string)

  const Presets: seq<PresetEntry> := [
    PresetEntry("professional", "Professional"),
    PresetEntry("academic", "Academic"),
    PresetEntry("minimal", "Minimal"),
    PresetEntry("creative", "Creative")]

  function FindPreset(presets: seq<PresetEntry>, value: string): (r: Option<PresetEntry>)
    ensures r.None? <==> forall i :: 0 <= i < |presets| ==> presets[i].value != value
    ensures r.Some? ==> r.value in presets && r.value.value == value
  {
    if presets == [] then None
    else if presets[0].value == value then Some(presets[0])
    else FindPreset(presets[1..], value)
  }

  /** `presets.find(p => p.value === previewPreset) || presets[0]`: the
      stored preset when it is one of the four, else the first. */
  function CurrentPreset(stored: string): (r: PresetEntry)
    ensures r in Presets
    ensures FindPreset(Presets, stored).Some? ==> r.value == stored
    ensures FindPreset(Presets, stored).None? ==> r == Presets[0]
  {
    var found := FindPreset(Presets, stored);
    if found.Some? then found.value else Presets[0]
  }

  /** `revisions.find(r => r.id === id)` */
  function FindRevision(revisions: seq<Revision>, id: string): (r: Option<Revision>)
    ensures r.None? <==> forall i :: 0 <= i < |revisions| ==> revisions[i].id != id
    ensures r.Some? ==> r.value in revisions && r.value.id == id
  {
    if revisions == [] then None
    else if revisions[0].id == id then Some(revisions[0])
    else FindRevision(revisions[1..], id)
  }

  /** The data `handleExportAction` exports, as written: a matching
      revision is read through `revision.content`, a field a revision does
      not have, so the export gets `undefined`. */
  function ExportDataAsWritten(data: Js, selected: string, revisions: seq<Revision>): (r: Js)
    ensures selected == "current" || FindRevision(revisions, selected).None? ==> r == data
    ensures selected != "current" && FindRevision(revisions, selected).Some? ==> r == Undefined
  {
    if selected != "current" && |revisions| > 0 && FindRevision(revisions, selected).Some? then Undefined
    else data
  }

  /** The data exported: the selected revision's data when a version other
      than `'current'` matches one, else the module's current data. */
  function ExportData(data: Js, selected: string, revisions: seq<Revision>): (r: Js)
    ensures selected == "current" || FindRevision(revisions, selected).None? ==> r == data
    ensures selected != "current" && FindRevision(revisions, selected).Some? ==> r == FindRevision(revisions, selected).value.data
  {
    if selected != "current" && |revisions| > 0 && FindRevision(revisions, selected).Some? then
      FindRevision(revisions, selected).value.data
    else data
  }

  /** A saved version of a notes module is exported as the no-content page
      as written, and as its own notes once the revision's data is read. */
  lemma RevisionExportLosesData(current: Js, stringify: Js -> string)
    ensures var revs := [Revision("r1", "Version 1", Obj([("notes", Arr([Str("point")]))]), "t")];
            ProjectHtml("notes", ExportDataAsWritten(current, "r1", revs), stringify) == NoContent
            && ProjectHtml("notes", ExportData(current, "r1", revs), stringify) != NoContent
  {
    var notes := Obj([("notes", Arr([Str("point")]))]);
    var revs := [Revision("r1", "Version 1", notes, "t")];
    assert FindRevision(revs, "r1") == Some(revs[0]);
    assert ExportDataAsWritten(current, "r1", revs) == Undefined;
    assert ExportData(current, "r1", revs) == notes;
    NotesPageHasContent(notes, stringify);
  }

  /** A notes module with one point renders a page with content. */
  lemma NotesPageHasContent(notes: Js, stringify: Js -> string)
    requires notes == Obj([("notes", Arr([Str("point")]))])
    ensures ProjectHtml("notes", notes, stringify) != NoContent
  {
    var items := Get(notes, "notes");
    assert items == Arr([Str("point")]);
    assert NonEmptyList(items) && NoteSection(Str("point")).Some?;
    var mb := ModeBody("notes", notes, ProjectCards);
    assert mb == ConcatMap([Str("point")], NoteSection);
    assert mb.Some?;
    var b := Body("notes", notes, ProjectCards, stringify);
    var h := "<h1>Study Notes</h1>";
    assert b.value == h + mb.value;
    assert (h + mb.value)[..5] == h[..5] == "<h1>S";
  }

  /** Flashcard rows here read the fields a flashcard has. */
  const ProjectCards := CardFields("question", "answer")

  const ProjectErrorHead := "<h1>Error rendering content</h1> <p>"

  /** This component's `renderDataToHtml`. */
  function ProjectHtml(mode: string, data: Js, stringify: Js -> string): (r: string)
    ensures mode == "editor" && data.Str? ==> r == data.s
    ensures mode != "editor" && !Truthy(data) ==> r == NoContent
  {
    RenderDataToHtml(mode, data, ProjectCards, ProjectErrorHead, stringify)
  }

  const ProjectStyleHead := "<!DOCTYPE html><html><head><meta charset=\"utf-8\"><style>"
    + "body { font-family: 'Helvetica', 'Arial', sans-serif; padding: 40px; line-height: 1.6; color: #333; background-color: #ffffff; } "
    + "h1, h2, h3 { color: #111; margin-top: 1.5em; margin-bottom: 0.5em; } "
    + "h1 { font-size: 24px; border-bottom: 2px solid #eee; padding-bottom: 10px; } "
    + "h2 { font-size: 20px; color: #444; } ul { padding-left: 20px; } li { margin-bottom: 8px; } "
    + "table { width: 100%; border-collapse: collapse; margin-top: 20px; font-size: 14px; } "
    + "th, td { border: 1px solid #ddd; padding: 12px; text-align: left; } "
    + "th { background-color: #f5f5f5; font-weight: bold; } tr:nth-child(even) { background-color: #fafafa; }"
    + "</style></head>"

  /** `wrapInStyle(html)`: the fragment becomes the whole body of a styled page. */
  function WrapInStyle(html: string): (r: string)
    ensures |r| == |ProjectStyleHead + "<body>"| + |html| + |"</body></html>"|
    ensures StartsWith(r, ProjectStyleHead + "<body>") && EndsWith(r, "</body></html>")
    ensures r[|ProjectStyleHead + "<body>"|..|r| - |"</body></html>"|] == html
  {
    ProjectStyleHead + "<body>" + html + "</body></html>"
  }

  /** `hasContent(d)`: falsy data and blank strings have nothing; each
      known module checks its own list, a summary its text or key points,
      and any other module's data counts. */
  function HasContent(mode: string, d: Js): (r: bool)
    ensures !Truthy(d) ==> !r
    ensures Truthy(d) && d.Str? ==> (r <==> !IsBlank(d.s))
    ensures Truthy(d) && !d.Str? && Heading(mode).None? ==> r
    ensures Truthy(d) && !d.Str? && mode in {"notes", "insights", "flashcards", "quiz", "mindmap"}
            ==> (r <==> NonEmptyList(Get(d, ListField(mode))))
  {
    if !Truthy(d) then false
    else if d.Str? then (TrimEmptyIffBlank(d.s); |Trim(d.s)| > 0)
    else if mode == "summary" then Truthy(Get(d, "summary")) || NonEmptyList(Get(d, "keyPoints"))
    else if mode == "notes" then NonEmptyList(Get(d, "notes"))
    else if mode == "insights" then NonEmptyList(Get(d, "insights"))
    else if mode == "flashcards" then NonEmptyList(Get(d, "flashcards"))
    else if mode == "quiz" then NonEmptyList(Get(d, "quiz"))
    else if mode == "mindmap" then NonEmptyList(Get(d, "nodes"))
    else true
  }

  /** When the button is disabled for a list module's object data, its page
      would show only the heading and the empty-list line. */
  lemma NoContentRendersPlaceholder(mode: string, d: Js, stringify: Js -> string)
    requires mode in {"notes", "insights", "flashcards", "quiz", "mindmap"}
    requires Truthy(d) && !d.Str?
    requires !HasContent(mode, d)
    ensures ProjectHtml(mode, d, stringify) == Heading(mode).value + EmptyBody(mode)
  {
    EmptyListBody(mode, d, ProjectCards);
  }

  /** The request body `handleExportAction` posts: the styled page of the
      exported data, the format and the module. */
  datatype ExportRequest = ExportRequest(content: string, format: string, mode: string)

  function ExportBody(format: string, mode: string, data: Js, selected: string, revisions: seq<Revision>,
                      stringify: Js -> string): (r: ExportRequest)
    ensures r.format == format && r.mode == mode
    ensures r.content == WrapInStyle(ProjectHtml(mode, ExportData(data, selected, revisions), stringify))
  {
    ExportRequest(WrapInStyle(ProjectHtml(mode, ExportData(data, selected, revisions), stringify)), format, mode)
  }
}
