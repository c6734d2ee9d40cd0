/** The single-file store that the chat hook reads: document and navigation
    state, the modules' data and generation flags, the generation settings,
    the preview and the export modal, with `resetAll` restoring the initial
    state. */
module LegacyStore {
  import opened Common
  import opened JsValue
  import opened StoreState

  datatype LegacyView = Import | Edit

  datatype Sender = UserSender | AiSender

  /** A chat message of this store: sender, text and display time. */
  datatype ChatMessage = ChatMessage(sender: Sender, text: string, timestamp: string)

  datatype LegacyStats = LegacyStats(wordCount: int, charCount: int, lineCount: int, readTime: int)

  datatype Preset = Professional | Academic | Minimal | Creative

  /** The export modal's target: a mode, or the document preview. */
  datatype ExportTarget = ModeTarget(mode: Mode) | PreviewTarget

  datatype ExportContext = ExportContext(target: ExportTarget, data: Js)

  /** The generation settings of the initial state, by setting name. */
  const InitialSettings: map<string, Js> := map[
    "summarySettings" := Obj([("summaryLength", Num(100.0)), ("summaryFormat", Str("paragraph")),
                              ("keywords", Str("")), ("tone", Str("professional")), ("language", Str("English")),
                              ("keySentences", Bool(true)), ("summaryType", Str("abstractive"))]),
    "insightsSettings" := Obj([("keyEntities", Bool(true)), ("topics", Bool(true)), ("customExtraction", Str(""))]),
    "notesSettings" := Obj([("keyConcepts", Bool(true)), ("actionItems", Bool(true)), ("aiSummary", Bool(false))]),
    "quizSettings" := Obj([("questionTypes", Arr([Str("multiple-choice")])), ("difficulty", Str("medium")),
                           ("timed", Bool(false)), ("timeLimit", Num(10.0))]),
    "mindmapSettings" := Obj([("layout", Str("organic")), ("theme", Str("default")), ("focusMode", Bool(false)),
                              ("presentationMode", Bool(false)), ("searchTerm", Str(""))]),
    "flashcardsSettings" := Obj([("cardsCount", Num(10.0)), ("difficulty", Str("mixed"))]),
    "activeNotesToggles" := Obj([("highlight", Bool(false)), ("markdown", Bool(false)), ("autoOutline", Bool(false)),
                                 ("comments", Bool(false)), ("tagging", Bool(false)), ("aiSummary", Bool(false)),
                                 ("versioning", Bool(false))]),
    "activeInsightsToggles" := Obj([("key-entities", Bool(false)), ("topics", Bool(false)), ("keywords", Bool(false)),
                                    ("questions", Bool(false)), ("action-items", Bool(false)),
                                    ("dates-events", Bool(false))])
  ]

  class Store {
    var view: LegacyView
    var mode: Mode
    var htmlPreview: Option<string>
    var fileId: Option<string>
    var isLoading: bool
    var isTyping: bool
    var prompt: string
    var leftPanelView: PanelView
    var stats: LegacyStats
    var moduleData: map<Mode, Js>
    var chatHistory: seq<ChatMessage>
    var generated: map<Mode, bool>
    var settings: map<string, Js>
    var isPreviewMode: bool
    var previewPreset: Preset
    var isExportModalOpen: bool
    var exportContext: Option<ExportContext>

    /** `initialState`. */
    predicate IsInitial()
      reads this
    {
      view == Edit && mode == Editor && htmlPreview == None && fileId == None
      && !isLoading && !isTyping && prompt == "" && leftPanelView == EditorPanel
      && stats == LegacyStats(0, 0, 0, 0) && moduleData == NullData && chatHistory == []
      && generated == AllFalse && settings == InitialSettings
      && !isPreviewMode && previewPreset == Professional && !isExportModalOpen && exportContext == None
    }

    constructor ()
      ensures IsInitial()
    {
      view, mode, htmlPreview, fileId := Edit, Editor, None, None;
      isLoading, isTyping, prompt, leftPanelView := false, false, "", EditorPanel;
      stats, moduleData, chatHistory := LegacyStats(0, 0, 0, 0), NullData, [];
      generated, settings := AllFalse, InitialSettings;
      isPreviewMode, previewPreset, isExportModalOpen, exportContext := false, Professional, false, None;
    }

    /** `resetAll()`: every field back to `initialState`. */
    method ResetAll()
      modifies this
      ensures IsInitial()
    {
      ResetDocument();
      ResetContent();
    }

    /** The navigation, document and modal part of `initialState`. */
    method ResetDocument()
      modifies `view, `mode, `htmlPreview, `fileId, `isLoading, `isTyping, `prompt, `leftPanelView,
               `isPreviewMode, `previewPreset, `isExportModalOpen, `exportContext
      ensures view == Edit && mode == Editor && htmlPreview == None && fileId == None
      ensures !isLoading && !isTyping && prompt == "" && leftPanelView == EditorPanel
      ensures !isPreviewMode && previewPreset == Professional && !isExportModalOpen && exportContext == None
    {
      view, mode, htmlPreview, fileId := Edit, Editor, None, None;
      isLoading, isTyping, prompt, leftPanelView := false, false, "", EditorPanel;
      isPreviewMode, previewPreset, isExportModalOpen, exportContext := false, Professional, false, None;
    }

    /** The statistics, module data, chat, flags and settings part. */
    method ResetContent()
      modifies `stats, `moduleData, `chatHistory, `generated, `settings
      ensures stats == LegacyStats(0, 0, 0, 0) && moduleData == NullData && chatHistory == []
      ensures generated == AllFalse && settings == InitialSettings
    {
      stats, moduleData, chatHistory := LegacyStats(0, 0, 0, 0), NullData, [];
      generated, settings := AllFalse, InitialSettings;
    }

    method SetView(v: LegacyView)
      modifies `view
      ensures view == v
    {
      view := v;
    }

    /** `setMode(mode)` of this store also leaves the preview. */
    method SetMode(m: Mode)
      modifies `mode, `isPreviewMode
      ensures mode == m && !isPreviewMode
    {
      mode := m;
      isPreviewMode := false;
    }

    method SetHtmlPreview(html: Option<string>)
      modifies `htmlPreview
      ensures htmlPreview == html
    {
      htmlPreview := html;
    }

    method SetFileId(id: Option<string>)
      modifies `fileId
      ensures fileId == id
    {
      fileId := id;
    }

    method SetIsLoading(loading: bool)
      modifies `isLoading
      ensures isLoading == loading
    {
      isLoading := loading;
    }

    method SetPrompt(p: string)
      modifies `prompt
      ensures prompt == p
    {
      prompt := p;
    }

    method SetLeftPanelView(v: PanelView)
      modifies `leftPanelView
      ensures leftPanelView == v
    {
      leftPanelView := v;
    }

    method SetStats(st: LegacyStats)
      modifies `stats
      ensures stats == st
    {
      stats := st;
    }

    /** `setSummaryData`, `setNotesData`, … : one setter per content module. */
    method SetModuleData(m: Mode, data: Js)
      requires m.IsContent()
      modifies `moduleData
      ensures moduleData == old(moduleData)[m := data]
    {
      moduleData := moduleData[m := data];
    }

    /** `setChatHistory(updater)`: the history becomes `updater(previous)`. */
    method SetChatHistory(updater: seq<ChatMessage> -> seq<ChatMessage>)
      modifies `chatHistory
      ensures chatHistory == updater(old(chatHistory))
    {
      chatHistory := updater(chatHistory);
    }

    /** `setSummarySettings`, … `setActiveInsightsToggles`, by setting name. */
    method SetSettings(name: string, value: Js)
      requires name in InitialSettings
      modifies `settings
      ensures settings == old(settings)[name := value]
    {
      settings := settings[name := value];
    }

    /** `setIs{Module}Generated(val)` */
    method SetGenerated(m: Mode, val: bool)
      requires m.IsContent()
      modifies `generated
      ensures generated == old(generated)[m := val]
    {
      generated := generated[m := val];
    }

    method SetPreviewMode(enabled: bool)
      modifies `isPreviewMode
      ensures isPreviewMode == enabled
    {
      isPreviewMode := enabled;
    }

    method SetPreviewPreset(p: Preset)
      modifies `previewPreset
      ensures previewPreset == p
    {
      previewPreset := p;
    }

    method SetIsTyping(typing: bool)
      modifies `isTyping
      ensures isTyping == typing
    {
      isTyping := typing;
    }

    /** `setExportModalOpen(open)`: the export context is kept. */
    method SetExportModalOpen(open: bool)
      modifies `isExportModalOpen
      ensures isExportModalOpen == open
    {
      isExportModalOpen := open;
    }

    /** `openExportModal(mode, data)` */
    method OpenExportModal(target: ExportTarget, data: Js)
      modifies `isExportModalOpen, `exportContext
      ensures isExportModalOpen && exportContext == Some(ExportContext(target, data))
    {
      isExportModalOpen := true;
      exportContext := Some(ExportContext(target, data));
    }
  }
}
