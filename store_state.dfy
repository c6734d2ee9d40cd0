/** The client's application state: the record that the zustand slices
    (tabs, content, slides, UI, settings, project) share, as one object whose
    fields the slice actions overwrite. Keys that the source computes from
    the name of a module (`${module}Data`, `${module}Revisions`,
    `is${Module}Generated`, `activeRevisionIds[module]`,
    `localDrafts[module]`) are maps keyed by the module. */
module StoreState {
  import opened Common
  import opened JsValue

  /** The workspace modes of `src/store/types.ts`. */
  datatype Mode = Summary | Insights | Notes | Quiz | Flashcards | Mindmap | Editor | Chat | Slides
  {
    /** The six modules that hold generated content, drafts and revisions. */
    predicate IsContent()
    {
      this in {Summary, Notes, Insights, Flashcards, Quiz, Mindmap}
    }
  }

  /** The module's name as it appears in keys such as `summaryData`. */
  function ModeName(m: Mode): (r: string)
    ensures r != [] && '.' !in r && 'D' !in r
  {
    match m
    case Summary => "summary"
    case Insights => "insights"
    case Notes => "notes"
    case Quiz => "quiz"
    case Flashcards => "flashcards"
    case Mindmap => "mindmap"
    case Editor => "editor"
    case Chat => "chat"
    case Slides => "slides"
  }

  /** The mode with a given name, if there is one. */
  function ModeNamed(name: string): (r: Option<Mode>)
    ensures r.Some? ==> ModeName(r.value) == name
  {
    if name == "summary" then Some(Summary)
    else if name == "insights" then Some(Insights)
    else if name == "notes" then Some(Notes)
    else if name == "quiz" then Some(Quiz)
    else if name == "flashcards" then Some(Flashcards)
    else if name == "mindmap" then Some(Mindmap)
    else if name == "editor" then Some(Editor)
    else if name == "chat" then Some(Chat)
    else if name == "slides" then Some(Slides)
    else None
  }

  /** Every mode is found again from its name. */
  lemma ModeNamedInverse(m: Mode)
    ensures ModeNamed(ModeName(m)) == Some(m)
  {
  }

  /** A local (unsaved) draft tab. */
  datatype Draft = Draft(id: string, name: string, data: Js)

  /** A server revision of a module's content. */
  datatype Revision = Revision(id: string, name: string, data: Js, timestamp: string)

  datatype TabKind = DraftTab | RevisionTab

  /** An entry of the unified tab list. */
  datatype Tab = Tab(id: string, name: string, kind: TabKind, data: Js)

  datatype Role = User | Assistant | Ai

  /** A message of the content slice's chat history. */
  datatype ChatEntry = ChatEntry(role: Role, content: string, timestamp: Option<string>)

  datatype View = ImportView | EditorView | ViewerView

  datatype PanelView = EditorPanel | ArtboardPanel | SlidesPanel

  datatype FileType = Pdf | Pptx | PlainText

  datatype Stats = Stats(wordCount: int, charCount: int, lineCount: int, readTime: int, pageCount: int)

  const ZeroStats := Stats(0, 0, 0, 0, 1)

  datatype Slide = Slide(title: string, content: string)

  /** A rectangle selected on a page, with the text nodes under it. */
  datatype Selection = Selection(x: real, y: real, width: real, height: real, pageIndex: int, textNodes: seq<string>)

  datatype ScopeKind = AllScope | PagesScope | TopicsScope

  /** `GenerationScope.value`: `null`, a `[start, end]` page pair, or topic ids. */
  datatype ScopeValue = NoValue | PagePair(start: int, end: int) | TopicIds(ids: seq<string>)

  datatype Scope = Scope(kind: ScopeKind, value: ScopeValue)

  datatype ItemType = QuizItem | FlashcardItem

  datatype EmbeddedChat = EmbeddedChat(itemId: string, itemType: ItemType, itemData: Js, isOpen: bool)

  /** One day of the study-activity log. It is an object: `logActivity`
      increments `count` of an existing entry in place. */
  class ActivityEntry {
    var date: string
    var count: int

    constructor (date: string, count: int)
      ensures this.date == date && this.count == count
    {
      this.date := date;
      this.count := count;
    }
  }

  /** The six content modules, in the order the project loader visits them. */
  const ContentModes: seq<Mode> := [Summary, Notes, Insights, Flashcards, Quiz, Mindmap]

  const EmptyDrafts: map<Mode, seq<Draft>> :=
    map[Summary := [], Notes := [], Insights := [], Flashcards := [], Quiz := [], Mindmap := []]

  const EmptyRevisions: map<Mode, seq<Revision>> :=
    map[Summary := [], Notes := [], Insights := [], Flashcards := [], Quiz := [], Mindmap := []]

  /** `activeRevisionIds` with every mode set to `''`. */
  const NoActiveIds: map<Mode, string> :=
    map[Summary := "", Notes := "", Insights := "", Flashcards := "", Quiz := "", Mindmap := "",
        Editor := "", Chat := "", Slides := ""]

  const NullData: map<Mode, Js> :=
    map[Summary := Null, Notes := Null, Insights := Null, Flashcards := Null, Quiz := Null, Mindmap := Null]

  const AllFalse: map<Mode, bool> :=
    map[Summary := false, Notes := false, Insights := false, Flashcards := false, Quiz := false, Mindmap := false]

  /** The initial maps have an entry for each content module (the active
      ids for every mode), all empty, `''`, `null` or false. */
  lemma InitialMaps(m: Mode)
    ensures (m in EmptyDrafts <==> m.IsContent()) && (m in EmptyDrafts ==> EmptyDrafts[m] == [])
    ensures (m in EmptyRevisions <==> m.IsContent()) && (m in EmptyRevisions ==> EmptyRevisions[m] == [])
    ensures m in NoActiveIds && NoActiveIds[m] == ""
    ensures (m in NullData <==> m.IsContent()) && (m in NullData ==> NullData[m] == Null)
    ensures (m in AllFalse <==> m.IsContent()) && (m in AllFalse ==> !AllFalse[m])
  {
  }

  class AppStore {
    // tab slice
    var localDrafts: map<Mode, seq<Draft>>
    var revisions: map<Mode, seq<Revision>>
    var activeIds: map<Mode, string>
    // content slice
    var moduleData: map<Mode, Js>
    var chatHistory: seq<ChatEntry>
    var generated: map<Mode, bool>
    var generating: map<Mode, bool>
    // slide slice
    var isSlideMode: bool
    var isProcessingSlides: bool
    var renderingProgress: real
    var slides: seq<Slide>
    var currentSlideIndex: int
    var selectionMode: bool
    var activeSelection: Option<Selection>
    // UI slice
    var isLoading: bool
    var isPageLoading: bool
    var isDocumentLoading: bool
    var view: View
    var mode: Mode
    var leftPanelView: PanelView
    var isPreviewMode: bool
    var isTyping: bool
    var showExportModal: bool
    var exportMode: string
    var exportContent: Js
    var headersLoaded: bool
    var authHeaders: map<string, string>
    // settings slice
    var generationScope: Scope
    var studyActivity: seq<ActivityEntry>
    var embeddedChats: map<string, EmbeddedChat>
    // project slice
    var fileId: Option<string>
    var fileType: Option<FileType>
    var stats: Stats
    var isHydrating: bool
    var htmlPreview: Option<string>

    /** `localDrafts[module] || []` */
    function DraftsOf(m: Mode): seq<Draft>
      reads this
    {
      if m in localDrafts then localDrafts[m] else []
    }

    /** `state[`${module}Revisions`] || []` */
    function RevisionsOf(m: Mode): seq<Revision>
      reads this
    {
      if m in revisions then revisions[m] else []
    }

    /** `activeRevisionIds[module]`, with a missing entry read as `''`. */
    function ActiveIdOf(m: Mode): string
      reads this
    {
      if m in activeIds then activeIds[m] else ""
    }

    /** `state[`${module}Data`]`, with a missing entry read as `null`. */
    function DataOf(m: Mode): Js
      reads this
    {
      if m in moduleData then moduleData[m] else Null
    }

    /** The initial values the slices declare. */
    constructor ()
      ensures localDrafts == EmptyDrafts && revisions == EmptyRevisions && activeIds == NoActiveIds
      ensures moduleData == NullData && chatHistory == []
      ensures generated == AllFalse && generating == AllFalse
      ensures !isSlideMode && !isProcessingSlides && renderingProgress == 0.0 && slides == []
      ensures currentSlideIndex == 0 && !selectionMode && activeSelection == None
      ensures !isLoading && !isPageLoading && !isDocumentLoading
      ensures view == ImportView && mode == Editor && leftPanelView == EditorPanel
      ensures !isPreviewMode && !isTyping && !showExportModal && exportMode == "editor" && exportContent == Null
      ensures !headersLoaded && authHeaders == map[]
      ensures generationScope == Scope(AllScope, NoValue) && studyActivity == [] && embeddedChats == map[]
      ensures fileId == None && fileType == None && stats == ZeroStats && !isHydrating && htmlPreview == None
    {
      localDrafts := EmptyDrafts;
      revisions := EmptyRevisions;
      activeIds := NoActiveIds;
      moduleData := NullData;
      chatHistory := [];
      generated := AllFalse;
      generating := AllFalse;
      isSlideMode := false;
      isProcessingSlides := false;
      renderingProgress := 0.0;
      slides := [];
      currentSlideIndex := 0;
      selectionMode := false;
      activeSelection := None;
      isLoading := false;
      isPageLoading := false;
      isDocumentLoading := false;
      view := ImportView;
      mode := Editor;
      leftPanelView := EditorPanel;
      isPreviewMode := false;
      isTyping := false;
      showExportModal := false;
      exportMode := "editor";
      exportContent := Null;
      headersLoaded := false;
      authHeaders := map[];
      generationScope := Scope(AllScope, NoValue);
      studyActivity := [];
      embeddedChats := map[];
      fileId := None;
      fileType := None;
      stats := ZeroStats;
      isHydrating := false;
      htmlPreview := None;
    }
  }
}
