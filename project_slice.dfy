/** The project slice: document statistics, the workspace reset, and the
    loading of a project from a fetched document. The fetch itself, the
    browser's saved drafts and the id and clock parts of new draft ids are
    parameters; a failed fetch is `None`. */
module ProjectSlice {
  import opened Common
  import opened JsValue
  import opened StoreState
  import TabSlice

  // ------------------------------------------------------------------
  // Statistics
  // ------------------------------------------------------------------

  /** `text.trim().split(/\s+/).length`: the number of words, except that a
      blank text still counts one. */
  function StatWords(text: string): (r: nat)
    ensures r >= 1
    ensures r == Max(1, WordCount(Trim(text)))
  {
    TrimmedSplitCountsWords(text);
    |WsSplit(Trim(text))|
  }

  /** A blank text counts one word. */
  lemma BlankTextCountsOne(text: string)
    requires IsBlank(text)
    ensures StatWords(text) == 1
  {
    TrimEmptyIffBlank(text);
  }

  /** `updateStats(text, pageCount)`: words, characters and reading time are
      recomputed, the page count changes only when one is given, and the
      line count is kept. */
  method UpdateStats(s: AppStore, text: string, pageCount: Option<int>)
    modifies s`stats
    ensures s.stats.wordCount == StatWords(text) && s.stats.charCount == |text|
    ensures s.stats.readTime == CeilDiv(StatWords(text), 200) && s.stats.readTime >= 1
    ensures s.stats.pageCount == (if pageCount.Some? then pageCount.value else old(s.stats.pageCount))
    ensures s.stats.lineCount == old(s.stats.lineCount)
  {
    var words := StatWords(text);
    var readTime := CeilDiv(words, 200);
    var pages := if pageCount.Some? then pageCount.value else s.stats.pageCount;
    s.stats := s.stats.(wordCount := words, charCount := |text|, readTime := readTime, pageCount := pages);
  }

  // ------------------------------------------------------------------
  // Workspace reset
  // ------------------------------------------------------------------

  /** The fields `resetWorkspace` writes, at the values it writes. */
  predicate IsResetWorkspace(s: AppStore)
    reads s`htmlPreview, s`moduleData, s`chatHistory, s`fileId, s`fileType, s`isPreviewMode,
          s`generated, s`stats, s`slides, s`currentSlideIndex, s`isSlideMode, s`view, s`mode,
          s`leftPanelView, s`localDrafts, s`revisions, s`activeIds
  {
    s.htmlPreview == None && s.moduleData == NullData && s.chatHistory == []
    && s.fileId == None && s.fileType == None && !s.isPreviewMode
    && s.generated == AllFalse && s.stats == ZeroStats
    && s.slides == [] && s.currentSlideIndex == 0 && !s.isSlideMode
    && s.view == ImportView && s.mode == Editor && s.leftPanelView == EditorPanel
    && s.localDrafts == EmptyDrafts && s.revisions == EmptyRevisions && s.activeIds == NoActiveIds
  }

  /** After a reset every module shows no tab, no data and no active id. */
  lemma ResetLeavesNoTabs(s: AppStore, m: Mode)
    requires IsResetWorkspace(s)
    ensures TabSlice.GetTabs(s, m) == [] && s.DataOf(m) == Null && s.ActiveIdOf(m) == ""
  {
  }

  method ResetWorkspace(s: AppStore)
    modifies s`htmlPreview, s`moduleData, s`chatHistory, s`fileId, s`fileType, s`isPreviewMode,
             s`generated, s`stats, s`slides, s`currentSlideIndex, s`isSlideMode, s`view, s`mode,
             s`leftPanelView, s`localDrafts, s`revisions, s`activeIds
    ensures IsResetWorkspace(s)
  {
    ResetModules(s);
    ResetDocument(s);
    ResetLayout(s);
  }

  /** The per-module part of the reset: data, flags, tabs and chat. */
  method ResetModules(s: AppStore)
    modifies s`moduleData, s`chatHistory, s`generated, s`localDrafts, s`revisions, s`activeIds
    ensures s.moduleData == NullData && s.chatHistory == [] && s.generated == AllFalse
    ensures s.localDrafts == EmptyDrafts && s.revisions == EmptyRevisions && s.activeIds == NoActiveIds
  {
    s.moduleData := NullData;
    s.chatHistory := [];
    s.generated := AllFalse;
    s.localDrafts := EmptyDrafts;
    s.revisions := EmptyRevisions;
    s.activeIds := NoActiveIds;
  }

  /** The document part of the reset. */
  method ResetDocument(s: AppStore)
    modifies s`htmlPreview, s`fileId, s`fileType, s`isPreviewMode, s`stats
    ensures s.htmlPreview == None && s.fileId == None && s.fileType == None && !s.isPreviewMode
    ensures s.stats == ZeroStats
  {
    s.htmlPreview := None;
    s.fileId := None;
    s.fileType := None;
    s.isPreviewMode := false;
    s.stats := ZeroStats;
  }

  /** The layout part of the reset: slides, view, mode and panel. */
  method ResetLayout(s: AppStore)
    modifies s`slides, s`currentSlideIndex, s`isSlideMode, s`view, s`mode, s`leftPanelView
    ensures s.slides == [] && s.currentSlideIndex == 0 && !s.isSlideMode
    ensures s.view == ImportView && s.mode == Editor && s.leftPanelView == EditorPanel
  {
    s.slides := [];
    s.currentSlideIndex := 0;
    s.isSlideMode := false;
    s.view := ImportView;
    s.mode := Editor;
    s.leftPanelView := EditorPanel;
  }

  // ------------------------------------------------------------------
  // The document-id guard
  // ------------------------------------------------------------------

  predicate IsHexDigit(c: char)
  {
    ('0' <= c <= '9') || ('a' <= c <= 'f') || ('A' <= c <= 'F')
  }

  /** The positions of the four hyphens of an 8-4-4-4-12 id. */
  predicate IsDashPosition(i: int)
  {
    i == 8 || i == 13 || i == 18 || i == 23
  }

  /** `/^[0-9a-f]{8}-[0-9a-f]{4}-[0-9a-f]{4}-[0-9a-f]{4}-[0-9a-f]{12}$/i`:
      the textual layout of a UUID in section 4 of RFC 9562, in either case. */
  predicate IsUuid(id: string)
  {
    |id| == 36
    && forall i :: 0 <= i < 36 ==> (if IsDashPosition(i) then id[i] == '-' else IsHexDigit(id[i]))
  }

  /** 32 hex digits laid out in groups of 8, 4, 4, 4 and 12. */
  function FormatUuid(hex: string): (r: string)
    requires |hex| == 32
  {
    hex[..8] + "-" + hex[8..12] + "-" + hex[12..16] + "-" + hex[16..20] + "-" + hex[20..]
  }

  /** The id without its hyphens. */
  function Undashed(id: string): (r: string)
    requires |id| == 36
  {
    id[..8] + id[9..13] + id[14..18] + id[19..23] + id[24..]
  }

  /** Laying out 32 hex digits gives an id the guard accepts, and removing the
      hyphens gives the digits back. */
  lemma FormatUuidAccepted(hex: string)
    requires |hex| == 32 && forall i :: 0 <= i < 32 ==> IsHexDigit(hex[i])
    ensures IsUuid(FormatUuid(hex)) && Undashed(FormatUuid(hex)) == hex
  {
    var r := FormatUuid(hex);
    forall i | 0 <= i < 36 ensures if IsDashPosition(i) then r[i] == '-' else IsHexDigit(r[i]) {
      if i < 8 { assert r[i] == hex[i]; }
      else if 8 < i < 13 { assert r[i] == hex[i - 1]; }
      else if 13 < i < 18 { assert r[i] == hex[i - 2]; }
      else if 18 < i < 23 { assert r[i] == hex[i - 3]; }
      else if 23 < i { assert r[i] == hex[i - 4]; }
    }
    assert Undashed(r) == hex[..8] + hex[8..12] + hex[12..16] + hex[16..20] + hex[20..];
    assert hex[..8] + hex[8..12] + hex[12..16] + hex[16..20] + hex[20..] == hex;
  }

  /** Every accepted id is the layout of its own hex digits. */
  lemma AcceptedIsFormatted(id: string)
    requires IsUuid(id)
    ensures |Undashed(id)| == 32 && FormatUuid(Undashed(id)) == id
  {
    var hex := Undashed(id);
    var r := FormatUuid(hex);
    assert hex[..8] == id[..8] && hex[8..12] == id[9..13] && hex[12..16] == id[14..18];
    assert hex[16..20] == id[19..23] && hex[20..] == id[24..];
    assert id[8] == '-' && id[13] == '-' && id[18] == '-' && id[23] == '-';
    assert r == id[..8] + [id[8]] + id[9..13] + [id[13]] + id[14..18] + [id[18]] + id[19..23] + [id[23]] + id[24..];
    assert id == id[..8] + [id[8]] + id[9..13] + [id[13]] + id[14..18] + [id[18]] + id[19..23] + [id[23]] + id[24..];
  }

  // ------------------------------------------------------------------
  // Loading a project
  // ------------------------------------------------------------------

  /** What the loader reads from a fetched document. An empty string stands
      for a missing or falsy field; `content` is each module's current content
      as the content reader extracts it. */
  datatype FetchedDocument = FetchedDocument(
    documentId: string, fileId: string, fileType: Option<FileType>, stats: Option<Stats>,
    pdfUrl: string, originalFileUrl: string,
    revisions: map<Mode, seq<Revision>>, content: map<Mode, Js>)

  /** `data[`${m}Data`]?.revisions || []` */
  function ServerRevisions(revisions: map<Mode, seq<Revision>>, m: Mode): seq<Revision>
  {
    if m in revisions then revisions[m] else []
  }

  /** The content of a module, `null` when the document has none. */
  function ServerContent(data: FetchedDocument, m: Mode): Js
  {
    if m in data.content then data.content[m] else Null
  }

  /** `a || b`, then `null`, on strings where `''` is falsy. */
  function FirstNonEmpty(a: string, b: string): (r: Option<string>)
    ensures r.Some? <==> a != "" || b != ""
    ensures r.Some? ==> r.value == a || r.value == b
    ensures a != "" ==> r == Some(a)
  {
    if a != "" then Some(a) else if b != "" then Some(b) else None
  }

  lemma ContentModesAreContent(m: Mode)
    ensures m in ContentModes <==> m.IsContent()
  {
  }

  /** `data[`${m}Revisions`]` for each content module in turn, from `i`. */
  function WithServerRevisions(revs: map<Mode, seq<Revision>>, data: map<Mode, seq<Revision>>, i: nat): map<Mode, seq<Revision>>
    requires i <= |ContentModes|
    decreases |ContentModes| - i
  {
    if i == |ContentModes| then revs
    else
      var m := ContentModes[i];
      WithServerRevisions(revs[m := ServerRevisions(data, m)], data, i + 1)
  }

  /** Writes each content module's server revisions, in the loader's order. */
  method SetServerRevisions(s: AppStore, data: map<Mode, seq<Revision>>)
    modifies s`revisions
    ensures s.revisions == WithServerRevisions(old(s.revisions), data, 0)
  {
    for i := 0 to |ContentModes|
      invariant WithServerRevisions(s.revisions, data, i) == WithServerRevisions(old(s.revisions), data, 0)
    {
      var m := ContentModes[i];
      s.revisions := s.revisions[m := ServerRevisions(data, m)];
    }
  }

  /** The writes from position `i` on: the modules still to come get their
      server revisions, every other module keeps what it had. */
  lemma {:induction false} WrittenFrom(revs: map<Mode, seq<Revision>>, data: map<Mode, seq<Revision>>, i: nat, m: Mode)
    requires i <= |ContentModes|
    ensures var r := WithServerRevisions(revs, data, i);
      (m in ContentModes[i..] ==> m in r && r[m] == ServerRevisions(data, m))
      && (m !in ContentModes[i..] ==> (m in r <==> m in revs) && (m in revs ==> r[m] == revs[m]))
    decreases |ContentModes| - i
  {
    if i < |ContentModes| {
      var n := ContentModes[i];
      WrittenFrom(revs[n := ServerRevisions(data, n)], data, i + 1, m);
      assert ContentModes[i..] == [n] + ContentModes[i + 1..];
      if m == n && m !in ContentModes[i + 1..] {
        assert m in revs[n := ServerRevisions(data, n)];
      }
    }
  }

  /** After the write every content module holds exactly its server
      revisions, and the other modules keep theirs. */
  lemma ServerRevisionsWritten(revs: map<Mode, seq<Revision>>, data: map<Mode, seq<Revision>>, m: Mode)
    ensures var r := WithServerRevisions(revs, data, 0);
      (m.IsContent() ==> m in r && r[m] == ServerRevisions(data, m))
      && (!m.IsContent() ==> (m in r <==> m in revs) && (m in revs ==> r[m] == revs[m]))
  {
    WrittenFrom(revs, data, 0, m);
    assert ContentModes[0..] == ContentModes;
  }

  /** Every content module's entries reconciled from those in `before` with
      the document's content and its revisions; the other modes keep theirs. */
  predicate TabsLoaded(t: TabSlice.TabMaps, before: TabSlice.TabMaps, data: FetchedDocument,
                       revs: map<Mode, seq<Revision>>, id: string)
  {
    forall m: Mode {:trigger TabSlice.SlotIn(t, m)} :: TabSlice.SlotIn(t, m)
      == if m.IsContent() then
           TabSlice.ReconciledSlot(TabSlice.SlotIn(before, m), m, ServerContent(data, m),
                                   ServerRevisions(revs, m), ServerRevisions(revs, m), id)
         else TabSlice.SlotIn(before, m)
  }

  /** Reconciles each content module's tabs with the fetched content and the
      module's revisions in the store, in the loader's order. Each content
      module's entries end as one reconcile of its own tabs leaves them;
      the other modes keep theirs, and revisions are not touched. */
  method ReconcileAll(s: AppStore, data: FetchedDocument, randomPart: string, now: string)
    modifies s`localDrafts, s`moduleData, s`generated, s`activeIds
    ensures s.revisions == old(s.revisions)
    ensures TabsLoaded(TabSlice.MapsOf(s), old(TabSlice.MapsOf(s)), data, s.revisions, TabSlice.NewDraftId(randomPart, now))
  {
    ghost var id := TabSlice.NewDraftId(randomPart, now);
    ghost var start := TabSlice.MapsOf(s);
    for i := 0 to |ContentModes|
      invariant s.revisions == old(s.revisions)
      invariant LoadedSoFar(TabSlice.MapsOf(s), start, ContentModes[..i], data, s.revisions, id)
    {
      var m := ContentModes[i];
      ghost var t0 := TabSlice.MapsOf(s);
      var rs := s.RevisionsOf(m);
      assert rs == ServerRevisions(s.revisions, m);
      TabSlice.ReconcileProjectTabs(s, m, ServerContent(data, m), rs, randomPart, now);
      TabSlice.ReconciledSlots(m, ServerContent(data, m), rs, rs, id, t0, TabSlice.MapsOf(s));
      NotYetLoaded(i);
      LoadedOneMore(TabSlice.MapsOf(s), t0, start, ContentModes[..i], m, data, s.revisions, id);
      assert ContentModes[..i + 1] == ContentModes[..i] + [m];
    }
    AllLoaded(TabSlice.MapsOf(s), start, data, s.revisions, id);
  }

  /** The modes in `done` reconciled from `before`, the others as in `before`. */
  predicate LoadedSoFar(t: TabSlice.TabMaps, before: TabSlice.TabMaps, done: seq<Mode>, data: FetchedDocument,
                        revs: map<Mode, seq<Revision>>, id: string)
  {
    forall m: Mode {:trigger TabSlice.SlotIn(t, m)} :: TabSlice.SlotIn(t, m)
      == if m in done then
           TabSlice.ReconciledSlot(TabSlice.SlotIn(before, m), m, ServerContent(data, m),
                                   ServerRevisions(revs, m), ServerRevisions(revs, m), id)
         else TabSlice.SlotIn(before, m)
  }

  /** No content module comes twice in the loader's order. */
  lemma NotYetLoaded(i: nat)
    requires i < |ContentModes|
    ensures ContentModes[i] !in ContentModes[..i]
  {
  }

  /** Reconciling one more module, not yet done, extends the loaded prefix. */
  lemma LoadedOneMore(t: TabSlice.TabMaps, t0: TabSlice.TabMaps, before: TabSlice.TabMaps, done: seq<Mode>, m: Mode,
                      data: FetchedDocument, revs: map<Mode, seq<Revision>>, id: string)
    requires LoadedSoFar(t0, before, done, data, revs, id)
    requires m !in done
    requires t == TabSlice.WithSlot(t0, m, TabSlice.ReconciledSlot(TabSlice.SlotIn(t0, m), m, ServerContent(data, m),
                                                                  ServerRevisions(revs, m), ServerRevisions(revs, m), id))
    ensures LoadedSoFar(t, before, done + [m], data, revs, id)
  {
    forall n: Mode
      ensures TabSlice.SlotIn(t, n)
           == if n in done + [m] then
                TabSlice.ReconciledSlot(TabSlice.SlotIn(before, n), n, ServerContent(data, n),
                                        ServerRevisions(revs, n), ServerRevisions(revs, n), id)
              else TabSlice.SlotIn(before, n)
    {
      assert n in done + [m] <==> n in done || n == m;
    }
  }

  /** Having gone through every content module, the tabs are loaded. */
  lemma AllLoaded(t: TabSlice.TabMaps, before: TabSlice.TabMaps, data: FetchedDocument,
                  revs: map<Mode, seq<Revision>>, id: string)
    requires LoadedSoFar(t, before, ContentModes[..|ContentModes|], data, revs, id)
    ensures TabsLoaded(t, before, data, revs, id)
  {
    assert ContentModes[..|ContentModes|] == ContentModes;
    forall n: Mode
      ensures n in ContentModes <==> n.IsContent()
    {
      ContentModesAreContent(n);
    }
  }

  /** The document's fields as the loader writes them. */
  predicate ShowsDocument(s: AppStore, data: FetchedDocument)
    reads s`fileId, s`fileType, s`stats, s`isPreviewMode, s`view, s`htmlPreview
  {
    s.fileId == FirstNonEmpty(data.documentId, data.fileId)
    && s.fileType == Some(if data.fileType.Some? then data.fileType.value else Pdf)
    && s.stats == (if data.stats.Some? then data.stats.value else ZeroStats)
    && !s.isPreviewMode && s.view == EditorView
    && s.htmlPreview == FirstNonEmpty(data.pdfUrl, data.originalFileUrl)
  }

  method ApplyDocument(s: AppStore, data: FetchedDocument)
    modifies s`fileId, s`fileType, s`stats, s`isPreviewMode, s`htmlPreview, s`view
    ensures ShowsDocument(s, data)
  {
    s.fileId := FirstNonEmpty(data.documentId, data.fileId);
    s.fileType := Some(if data.fileType.Some? then data.fileType.value else Pdf);
    s.stats := if data.stats.Some? then data.stats.value else ZeroStats;
    s.isPreviewMode := false;
    s.htmlPreview := FirstNonEmpty(data.pdfUrl, data.originalFileUrl);
    s.view := EditorView;
  }

  /** The tab maps with the saved drafts, when there are some, in place of
      the local drafts. */
  function WithSaved(t: TabSlice.TabMaps, savedDrafts: Option<map<Mode, seq<Draft>>>): TabSlice.TabMaps
  {
    if savedDrafts.Some? then t.(drafts := savedDrafts.value) else t
  }

  /** The body of the loader's `try` once the document has been fetched. */
  method Hydrate(s: AppStore, data: FetchedDocument, savedDrafts: Option<map<Mode, seq<Draft>>>,
                 randomPart: string, now: string)
    modifies s`fileId, s`fileType, s`stats, s`isPreviewMode, s`htmlPreview, s`view,
             s`revisions, s`localDrafts, s`moduleData, s`generated, s`activeIds
    ensures ShowsDocument(s, data)
    ensures s.revisions == WithServerRevisions(old(s.revisions), data.revisions, 0)
    ensures TabsLoaded(TabSlice.MapsOf(s), WithSaved(old(TabSlice.MapsOf(s)), savedDrafts), data, data.revisions,
                       TabSlice.NewDraftId(randomPart, now))
  {
    ApplyDocument(s, data);
    SetServerRevisions(s, data.revisions);
    if savedDrafts.Some? {
      s.localDrafts := savedDrafts.value;
    }
    ghost var before := TabSlice.MapsOf(s);
    assert before == WithSaved(old(TabSlice.MapsOf(s)), savedDrafts);
    ReconcileAll(s, data, randomPart, now);
    LoadedWithServerRevisions(TabSlice.MapsOf(s), before, data, old(s.revisions), TabSlice.NewDraftId(randomPart, now));
  }

  /** Only the content modules' revisions matter to the load, and after the
      write those are the document's. */
  lemma LoadedWithServerRevisions(t: TabSlice.TabMaps, before: TabSlice.TabMaps, data: FetchedDocument,
                                  revs0: map<Mode, seq<Revision>>, id: string)
    requires TabsLoaded(t, before, data, WithServerRevisions(revs0, data.revisions, 0), id)
    ensures TabsLoaded(t, before, data, data.revisions, id)
  {
    forall m: Mode | m.IsContent()
      ensures ServerRevisions(WithServerRevisions(revs0, data.revisions, 0), m) == ServerRevisions(data.revisions, m)
    {
      ServerRevisionsWritten(revs0, data.revisions, m);
    }
  }

  /** The tab maps of a reset workspace. */
  const ResetTabs := TabSlice.TabMaps(EmptyDrafts, NullData, AllFalse, NoActiveIds)

  /** A content module loaded into a reset workspace without saved drafts:
      with server revisions the first one becomes active and shown (when its
      id names a revision), with none valid content becomes the one active
      `Imported Content` draft, and otherwise the module stays empty. */
  lemma FreshModuleLoaded(m: Mode, content: Js, revs: seq<Revision>, id: string)
    requires m.IsContent() && StartsWith(id, TabSlice.DraftIdPrefix)
    ensures var after := TabSlice.ReconciledSlot(TabSlice.SlotIn(ResetTabs, m), m, content, revs, revs, id);
      (revs != [] && revs[0].id != "" ==>
         after.drafts == Some([]) && after.active == Some(revs[0].id)
         && (!StartsWith(revs[0].id, TabSlice.DraftIdPrefix) ==> after.data == Some(Or(revs[0].data, Null))))
      && (revs == [] && TabSlice.HasValidContent(content) ==>
            after == TabSlice.Slot(Some([Draft(id, "Imported Content", content)]), Some(content), Some(true), Some(id)))
      && (revs == [] && !TabSlice.HasValidContent(content) ==>
            after == TabSlice.Slot(Some([]), Some(Null), Some(false), Some("")))
  {
    InitialMaps(m);
    if revs != [] {
      assert TabSlice.RevisionIds(revs)[0] == revs[0].id;
      var noIds: seq<string> := [];
      assert noIds + TabSlice.RevisionIds(revs) == TabSlice.RevisionIds(revs);
    }
  }

  /** `loadProject(documentId)`. A call made while another is hydrating does
      nothing. Otherwise the workspace is reset, the fetched document's fields
      and revisions are written, saved drafts replace the local drafts, each
      module's tabs are reconciled, and both busy flags end false whether the
      fetch succeeded or failed. */
  method LoadProject(s: AppStore, fetched: Option<FetchedDocument>, savedDrafts: Option<map<Mode, seq<Draft>>>,
                     randomPart: string, now: string)
    modifies s`isHydrating, s`isLoading,
             s`htmlPreview, s`moduleData, s`chatHistory, s`fileId, s`fileType, s`isPreviewMode,
             s`generated, s`stats, s`slides, s`currentSlideIndex, s`isSlideMode, s`view, s`mode,
             s`leftPanelView, s`localDrafts, s`revisions, s`activeIds
    ensures old(s.isHydrating) ==> unchanged(s)
    ensures !old(s.isHydrating) ==> !s.isLoading && !s.isHydrating
    ensures !old(s.isHydrating) && fetched.None? ==> IsResetWorkspace(s)
    ensures !old(s.isHydrating) && fetched.Some? ==>
      ShowsDocument(s, fetched.value) && s.revisions == WithServerRevisions(EmptyRevisions, fetched.value.revisions, 0)
      && TabsLoaded(TabSlice.MapsOf(s), WithSaved(ResetTabs, savedDrafts), fetched.value, fetched.value.revisions,
                    TabSlice.NewDraftId(randomPart, now))
  {
    if s.isHydrating {
      return;
    }
    if fetched.Some? {
      LoadFetched(s, fetched.value, savedDrafts, randomPart, now);
    } else {
      LoadFailed(s);
    }
  }

  /** The loader's first steps: mark hydrating, reset, mark loading. */
  method Begin(s: AppStore)
    modifies s`isHydrating, s`isLoading,
             s`htmlPreview, s`moduleData, s`chatHistory, s`fileId, s`fileType, s`isPreviewMode,
             s`generated, s`stats, s`slides, s`currentSlideIndex, s`isSlideMode, s`view, s`mode,
             s`leftPanelView, s`localDrafts, s`revisions, s`activeIds
    ensures s.isHydrating && s.isLoading && IsResetWorkspace(s)
  {
    s.isHydrating := true;
    ResetWorkspace(s);
    s.isLoading := true;
  }

  /** The loader past its re-entry guard when the fetch fails: the reset
      workspace stays, and the `finally` clears both flags. */
  method LoadFailed(s: AppStore)
    modifies s`isHydrating, s`isLoading,
             s`htmlPreview, s`moduleData, s`chatHistory, s`fileId, s`fileType, s`isPreviewMode,
             s`generated, s`stats, s`slides, s`currentSlideIndex, s`isSlideMode, s`view, s`mode,
             s`leftPanelView, s`localDrafts, s`revisions, s`activeIds
    ensures !s.isLoading && !s.isHydrating && IsResetWorkspace(s)
  {
    Begin(s);
    s.isLoading := false;
    s.isHydrating := false;
  }

  /** The loader past its re-entry guard when the fetch succeeds. */
  method LoadFetched(s: AppStore, data: FetchedDocument, savedDrafts: Option<map<Mode, seq<Draft>>>,
                     randomPart: string, now: string)
    modifies s`isHydrating, s`isLoading,
             s`htmlPreview, s`moduleData, s`chatHistory, s`fileId, s`fileType, s`isPreviewMode,
             s`generated, s`stats, s`slides, s`currentSlideIndex, s`isSlideMode, s`view, s`mode,
             s`leftPanelView, s`localDrafts, s`revisions, s`activeIds
    ensures !s.isLoading && !s.isHydrating
    ensures ShowsDocument(s, data) && s.revisions == WithServerRevisions(EmptyRevisions, data.revisions, 0)
    ensures TabsLoaded(TabSlice.MapsOf(s), WithSaved(ResetTabs, savedDrafts), data, data.revisions,
                       TabSlice.NewDraftId(randomPart, now))
  {
    Begin(s);
    assert TabSlice.MapsOf(s) == ResetTabs;
    Hydrate(s, data, savedDrafts, randomPart, now);
    s.isLoading := false;
    s.isHydrating := false;
  }

  /** `refreshCurrentProject(documentId)`: the id given, else the current
      file id (`''` stands for none given), must pass the guard; then each
      content module's revisions are replaced by the fetched ones. */
  method RefreshCurrentProject(s: AppStore, documentId: string, fetched: Option<map<Mode, seq<Revision>>>)
    modifies s`revisions
    ensures var id := if documentId != "" then documentId else if s.fileId.Some? then s.fileId.value else "";
      !IsUuid(id) || fetched.None? ==> s.revisions == old(s.revisions)
    ensures var id := if documentId != "" then documentId else if s.fileId.Some? then s.fileId.value else "";
      IsUuid(id) && fetched.Some? ==> s.revisions == WithServerRevisions(old(s.revisions), fetched.value, 0)
  {
    var id := if documentId != "" then documentId else if s.fileId.Some? then s.fileId.value else "";
    if !IsUuid(id) || fetched.None? {
      return;
    }
    SetServerRevisions(s, fetched.value);
  }

  /** `loadProjectModule(m)`: with a file id that passes the guard, the
      module's revisions are replaced by the fetched ones and its tabs are
      reconciled with the fetched content. */
  method LoadProjectModule(s: AppStore, m: Mode, fetched: Option<(Js, seq<Revision>)>, randomPart: string, now: string)
    modifies s`revisions, s`localDrafts, s`moduleData, s`generated, s`activeIds
    ensures s.fileId.None? || !IsUuid(s.fileId.value) || fetched.None? ==>
      s.revisions == old(s.revisions) && s.localDrafts == old(s.localDrafts) && s.moduleData == old(s.moduleData)
      && s.generated == old(s.generated) && s.activeIds == old(s.activeIds)
    ensures s.fileId.Some? && IsUuid(s.fileId.value) && fetched.Some? ==>
      s.revisions == old(s.revisions)[m := fetched.value.1]
      && TabSlice.MapsOf(s)
         == TabSlice.WithSlot(old(TabSlice.MapsOf(s)), m,
                              TabSlice.ReconciledSlot(old(TabSlice.SlotOf(s, m)), m, fetched.value.0, fetched.value.1,
                                                      fetched.value.1, TabSlice.NewDraftId(randomPart, now)))
  {
    if s.fileId.None? || !IsUuid(s.fileId.value) || fetched.None? {
      return;
    }
    var (content, revs) := fetched.value;
    s.revisions := s.revisions[m := revs];
    ghost var t0 := TabSlice.MapsOf(s);
    TabSlice.ReconcileProjectTabs(s, m, content, revs, randomPart, now);
    TabSlice.ReconciledSlots(m, content, revs, revs, TabSlice.NewDraftId(randomPart, now), t0, TabSlice.MapsOf(s));
  }
}
