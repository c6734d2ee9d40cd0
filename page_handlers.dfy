/** The workspace page's handlers: the editor statistics, the request that
    generation sends (with the summary's target length), which generated
    flag the page shows, and what the export button opens. The page works on
    the single-file store. The DOM text of the preview and the API's answer
    are parameters. */
module PageHandlers {
  import opened Common
  import opened JsValue
  import opened StoreState
  import opened LegacyStore
  import ProjectSlice

  // ------------------------------------------------------------------
  // Editor statistics
  // ------------------------------------------------------------------

  /** `text.trim().split(/\s+/).filter(w => w.length > 0).length`: a blank
      text has no words, any other text at least one. */
  function EditorWords(text: string): (r: nat)
    ensures IsBlank(text) <==> r == 0
  {
    TrimEmptyIffBlank(text);
    TrimmedSplitCountsWords(text);
    WordCount(Trim(text))
  }

  /** The editor counts words as the store's `updateStats` does, except for a
      blank text: 0 here, 1 there. */
  lemma EditorWordsAgainstStatWords(text: string)
    ensures !IsBlank(text) ==> EditorWords(text) == ProjectSlice.StatWords(text)
    ensures IsBlank(text) ==> EditorWords(text) == 0 && ProjectSlice.StatWords(text) == 1
  {
    if IsBlank(text) {
      ProjectSlice.BlankTextCountsOne(text);
    }
  }

  /** The statistics `handleEditorChange` stores. */
  function EditorStats(text: string): (st: LegacyStats)
    ensures st.wordCount == EditorWords(text) && st.charCount == |text|
    ensures st.lineCount == CountChar(text, '\n') + 1
    ensures st.readTime == CeilDiv(EditorWords(text), 200)
    ensures st.readTime == 0 <==> IsBlank(text)
  {
    SplitJoin(text, '\n');
    var words := EditorWords(text);
    LegacyStats(words, |text|, |Split(text, '\n')|, CeilDiv(words, 200))
  }

  /** `handleEditorChange(html, text)` */
  method HandleEditorChange(s: Store, html: string, text: string)
    modifies s`htmlPreview, s`stats
    ensures s.htmlPreview == Some(html) && s.stats == EditorStats(text)
  {
    s.SetHtmlPreview(Some(html));
    s.SetStats(EditorStats(text));
  }

  // ------------------------------------------------------------------
  // Generation
  // ------------------------------------------------------------------

  /** `Math.floor(Math.floor(wordCount / 3) * (summaryLength / 100))`: the
      summary's target length, a share of a third of the document. */
  function TargetWordCount(wordCount: int, summaryLength: real): (r: int)
    ensures wordCount >= 0 && 0.0 <= summaryLength <= 100.0 ==> 0 <= r <= wordCount / 3
    ensures summaryLength == 100.0 ==> r == wordCount / 3
    ensures summaryLength == 0.0 ==> r == 0
  {
    var maxWords := wordCount / 3;
    var share := Share(maxWords as real, summaryLength / 100.0);
    FloorWithin(share, maxWords);
    share.Floor
  }

  /** A share `f` of `m`: within [0, m] when `m` is non-negative and `f` is
      in [0, 1]; the whole of it is `m` and none of it is 0. */
  function Share(m: real, f: real): (r: real)
    ensures m >= 0.0 && 0.0 <= f <= 1.0 ==> 0.0 <= r <= m
    ensures f == 1.0 ==> r == m
    ensures f == 0.0 ==> r == 0.0
  {
    ShareBound(m, f);
    m * f
  }

  lemma ShareBound(m: real, f: real)
    ensures m >= 0.0 && 0.0 <= f <= 1.0 ==> 0.0 <= m * f <= m
  {
    if m >= 0.0 && 0.0 <= f <= 1.0 {
      assert m - m * f == m * (1.0 - f);
      assert m * (1.0 - f) >= 0.0;
      assert m * f >= 0.0;
    }
  }

  /** The floor of a real within [0, n] is within [0, n]; the floor of `n`
      itself is `n`. */
  lemma FloorWithin(x: real, n: int)
    ensures 0.0 <= x <= n as real ==> 0 <= x.Floor <= n
    ensures x == n as real ==> x.Floor == n
  {
  }

  /** A longer summary setting never asks for fewer words. */
  lemma TargetGrowsWithLength(wordCount: nat, a: real, b: real)
    requires a <= b
    ensures TargetWordCount(wordCount, a) <= TargetWordCount(wordCount, b)
  {
    var m := (wordCount / 3) as real;
    var fa, fb := a / 100.0, b / 100.0;
    assert fa <= fb;
    ShareMonotone(m, fa, fb);
    FloorMonotone(Share(m, fa), Share(m, fb));
  }

  /** A larger share of a non-negative amount is no smaller. */
  lemma ShareMonotone(m: real, fa: real, fb: real)
    requires m >= 0.0 && fa <= fb
    ensures Share(m, fa) <= Share(m, fb)
  {
    assert m * fb - m * fa == m * (fb - fa);
    assert m * (fb - fa) >= 0.0;
  }

  /** Taking the floor keeps the order of two reals. */
  lemma FloorMonotone(x: real, y: real)
    requires x <= y
    ensures x.Floor <= y.Floor
  {
    assert (x.Floor as real) <= x && y < (y.Floor as real) + 1.0;
  }

  /** Where the request takes its text from: the uploaded file, else the
      text of the preview. */
  datatype Source = FileSource(fileId: string) | TextSource(text: string)

  /** The generation request body. */
  datatype Payload = Payload(source: Source, settings: Js)

  /** The settings entry the `switch` in `handleGenerate` picks; flashcards
      have none there. */
  function SettingsName(m: Mode): (r: Option<string>)
    ensures r.Some? <==> m in {Summary, Insights, Notes, Quiz, Mindmap}
    ensures m == Flashcards ==> r.None?
  {
    match m
    case Summary => Some("summarySettings")
    case Insights => Some("insightsSettings")
    case Notes => Some("notesSettings")
    case Quiz => Some("quizSettings")
    case Mindmap => Some("mindmapSettings")
    case _ => None
  }

  /** The mode's settings object, or `{}`. */
  function ModeSettings(m: Mode, settings: map<string, Js>): Js
  {
    var name := SettingsName(m);
    if name.Some? && name.value in settings then settings[name.value] else Obj([])
  }

  /** `fileId` is truthy. */
  predicate HasFileId(fileId: Option<string>) { fileId.Some? && fileId.value != "" }

  /** The request `handleGenerate(mode)` sends, or None when it returns
      early: no preview, or no file and a preview without text. A non-number
      `summaryLength` gives no target (null in the request). */
  function GeneratePayload(mode: Mode, html: Option<string>, fileId: Option<string>, textContent: string,
                           wordCount: int, settings: map<string, Js>): (r: Option<Payload>)
    ensures r.None? <==> html.None? || html.value == "" || (!HasFileId(fileId) && textContent == "")
    ensures r.Some? ==> r.value.source == if HasFileId(fileId) then FileSource(fileId.value) else TextSource(textContent)
    ensures r.Some? && mode != Summary ==> r.value.settings == ModeSettings(mode, settings)
    ensures r.Some? && mode == Summary ==>
      var length := Get(ModeSettings(Summary, settings), "summaryLength");
      Get(r.value.settings, "targetWordCount")
        == if length.Num? then Num(TargetWordCount(wordCount, length.n) as real) else Null
    ensures r.Some? && mode == Summary ==>
      forall k :: k != "targetWordCount" ==> Get(r.value.settings, k) == Get(ModeSettings(Summary, settings), k)
  {
    if html.None? || html.value == "" then None
    else if !HasFileId(fileId) && textContent == "" then None
    else
      var source := if HasFileId(fileId) then FileSource(fileId.value) else TextSource(textContent);
      var modeSettings := ModeSettings(mode, settings);
      if mode == Summary then
        var length := Get(modeSettings, "summaryLength");
        var target := if length.Num? then Num(TargetWordCount(wordCount, length.n) as real) else Null;
        Some(Payload(source, With(modeSettings, "targetWordCount", target)))
      else
        Some(Payload(source, modeSettings))
  }

  /** `getHasGenerated()`: the current module's flag; false for the editor,
      chat and slides. */
  function HasGenerated(mode: Mode, generated: map<Mode, bool>): bool
  {
    mode.IsContent() && mode in generated && generated[mode]
  }

  /** `handleGenerate(targetMode)`: returns the request it sends, or None
      when it returns early and changes nothing. `fetched` is what the API
      answered (None: the call threw). On an answer for a content module the
      module's data and flag are set, and the page then shows that module as
      generated; loading ends false either way. */
  method HandleGenerate(s: Store, targetMode: Mode, textContent: string, fetched: Option<Js>)
      returns (payload: Option<Payload>)
    modifies s`isLoading, s`moduleData, s`generated
    ensures payload == GeneratePayload(targetMode, old(s.htmlPreview), old(s.fileId), textContent,
                                       old(s.stats.wordCount), old(s.settings))
    ensures payload.None? ==> s.isLoading == old(s.isLoading) && s.moduleData == old(s.moduleData)
                              && s.generated == old(s.generated)
    ensures payload.Some? ==> !s.isLoading
    ensures payload.Some? && fetched.Some? && targetMode.IsContent() ==>
      s.moduleData == old(s.moduleData)[targetMode := fetched.value]
      && s.generated == old(s.generated)[targetMode := true]
      && HasGenerated(targetMode, s.generated)
    ensures payload.Some? && !(fetched.Some? && targetMode.IsContent()) ==>
      s.moduleData == old(s.moduleData) && s.generated == old(s.generated)
    ensures forall m :: m != targetMode ==> HasGenerated(m, s.generated) == HasGenerated(m, old(s.generated))
  {
    payload := GeneratePayload(targetMode, s.htmlPreview, s.fileId, textContent, s.stats.wordCount, s.settings);
    if payload.None? {
      return;
    }
    s.SetIsLoading(true);
    if fetched.Some? && targetMode.IsContent() {
      s.SetModuleData(targetMode, fetched.value);
      s.SetGenerated(targetMode, true);
    }
    s.SetIsLoading(false);
  }

  // ------------------------------------------------------------------
  // Export
  // ------------------------------------------------------------------

  /** What the export button does: an alert, or the modal opened on a
      target with its data. */
  datatype ExportAction = Alert(message: string) | OpenModal(target: ExportTarget, data: Js)

  /** `handleExport()`: the editor exports its preview; every other mode its
      module's data, which must be truthy. */
  function ExportChoice(mode: Mode, html: Option<string>, moduleData: map<Mode, Js>): (r: ExportAction)
    ensures mode == Editor ==> (r.OpenModal? <==> html.Some? && html.value != "")
    ensures mode != Editor ==> (r.OpenModal? <==> mode.IsContent() && mode in moduleData && Truthy(moduleData[mode]))
    ensures r.OpenModal? ==> r.target == ModeTarget(mode)
    ensures r.OpenModal? && mode == Editor ==> r.data == Str(html.value)
    ensures r.OpenModal? && mode != Editor ==> r.data == moduleData[mode]
  {
    if mode == Editor then
      if html.None? || html.value == "" then Alert("No content to export.")
      else OpenModal(ModeTarget(Editor), Str(html.value))
    else
      var data := if mode.IsContent() && mode in moduleData then moduleData[mode] else Null;
      if !Truthy(data) then Alert("No generated content to export.")
      else OpenModal(ModeTarget(mode), data)
  }

  /** `handleExport()` on the store: the modal opens exactly as
      `ExportChoice` says; otherwise the alert's text is returned and the
      store is unchanged. */
  method HandleExport(s: Store) returns (alert: Option<string>)
    modifies s`isExportModalOpen, s`exportContext
    ensures var action := ExportChoice(old(s.mode), old(s.htmlPreview), old(s.moduleData));
      (action.OpenModal? ==> alert.None? && s.isExportModalOpen
                             && s.exportContext == Some(ExportContext(action.target, action.data)))
      && (action.Alert? ==> alert == Some(action.message) && s.isExportModalOpen == old(s.isExportModalOpen)
                            && s.exportContext == old(s.exportContext))
  {
    var action := ExportChoice(s.mode, s.htmlPreview, s.moduleData);
    if action.Alert? {
      return Some(action.message);
    }
    s.OpenExportModal(action.target, action.data);
    alert := None;
  }
}
