/** The UI slice: loading flags, the current view, mode and panel, and the
    export modal. Every setter writes one field; the modal keeps its mode and
    content when it is closed. */
module UiSlice {
  import opened JsValue
  import opened StoreState

  method SetIsLoading(s: AppStore, loading: bool)
    modifies s`isLoading
    ensures s.isLoading == loading
  {
    s.isLoading := loading;
  }

  method SetIsPageLoading(s: AppStore, loading: bool)
    modifies s`isPageLoading
    ensures s.isPageLoading == loading
  {
    s.isPageLoading := loading;
  }

  method SetIsDocumentLoading(s: AppStore, loading: bool)
    modifies s`isDocumentLoading
    ensures s.isDocumentLoading == loading
  {
    s.isDocumentLoading := loading;
  }

  method SetView(s: AppStore, view: View)
    modifies s`view
    ensures s.view == view
  {
    s.view := view;
  }

  /** `setMode(mode)` of the slice: the preview flag is left as it is. */
  method SetMode(s: AppStore, mode: Mode)
    modifies s`mode
    ensures s.mode == mode
  {
    s.mode := mode;
  }

  method SetLeftPanelView(s: AppStore, view: PanelView)
    modifies s`leftPanelView
    ensures s.leftPanelView == view
  {
    s.leftPanelView := view;
  }

  method SetPreviewMode(s: AppStore, preview: bool)
    modifies s`isPreviewMode
    ensures s.isPreviewMode == preview
  {
    s.isPreviewMode := preview;
  }

  method SetIsTyping(s: AppStore, typing: bool)
    modifies s`isTyping
    ensures s.isTyping == typing
  {
    s.isTyping := typing;
  }

  method SetHeadersLoaded(s: AppStore, loaded: bool)
    modifies s`headersLoaded
    ensures s.headersLoaded == loaded
  {
    s.headersLoaded := loaded;
  }

  method SetAuthHeaders(s: AppStore, headers: map<string, string>)
    modifies s`authHeaders
    ensures s.authHeaders == headers
  {
    s.authHeaders := headers;
  }

  /** `openExportModal(mode, content)` */
  method OpenExportModal(s: AppStore, mode: string, content: Js)
    modifies s`showExportModal, s`exportMode, s`exportContent
    ensures s.showExportModal && s.exportMode == mode && s.exportContent == content
  {
    s.showExportModal := true;
    s.exportMode := mode;
    s.exportContent := content;
  }

  /** `closeExportModal()`: the mode and content stay for the next opening. */
  method CloseExportModal(s: AppStore)
    modifies s`showExportModal
    ensures !s.showExportModal
  {
    s.showExportModal := false;
  }
}
