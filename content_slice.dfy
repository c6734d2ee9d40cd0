/** The content slice: setting a module's data also writes it into the
    module's active draft, so that the draft tab shows the edit. */
module ContentSlice {
  import opened Common
  import opened JsValue
  import opened StoreState
  import TabSlice

  /** The drafts with `data` written into the one whose id is `activeId`
      (`drafts.map(d => d.id === activeId ? { ...d, data } : d)`). */
  function Mirror(ds: seq<Draft>, activeId: string, data: Js): (r: seq<Draft>)
    ensures |r| == |ds|
    ensures forall i :: 0 <= i < |ds| ==>
      r[i].id == ds[i].id && r[i].name == ds[i].name
      && r[i].data == (if ds[i].id == activeId then data else ds[i].data)
  {
    seq(|ds|, i requires 0 <= i < |ds| => if ds[i].id == activeId then ds[i].(data := data) else ds[i])
  }

  /** The draft list the setter leaves: mirrored only for a `draft-` id. */
  function MirroredDrafts(drafts: map<Mode, seq<Draft>>, m: Mode, activeId: string, data: Js): map<Mode, seq<Draft>>
  {
    if StartsWith(activeId, TabSlice.DraftIdPrefix) then
      drafts[m := Mirror(if m in drafts then drafts[m] else [], activeId, data)]
    else drafts
  }

  /** After an edit, switching back to the active draft shows the edited
      data (or `null` when it is falsy): the mirror and the switch agree. */
  lemma MirrorThenSwitchShowsEdit(ds: seq<Draft>, rs: seq<Revision>, activeId: string, data: Js)
    requires StartsWith(activeId, TabSlice.DraftIdPrefix) && TabSlice.FindDraft(ds, activeId).Some?
    ensures TabSlice.SwitchContent(Mirror(ds, activeId, data), rs, activeId) == Or(data, Null)
  {
    var es := Mirror(ds, activeId, data);
    assert TabSlice.DraftIds(es) == TabSlice.DraftIds(ds);
    TabSlice.FindDraftByIds(es, ds, activeId);
  }

  /** An edit leaves the tab list's ids, names and kinds as they were. */
  lemma MirrorKeepsTabs(ds: seq<Draft>, rs: seq<Revision>, activeId: string, data: Js)
    ensures var before, after := TabSlice.Tabs(ds, rs), TabSlice.Tabs(Mirror(ds, activeId, data), rs);
      |after| == |before| && forall k :: 0 <= k < |before| ==>
        after[k].id == before[k].id && after[k].name == before[k].name && after[k].kind == before[k].kind
  {
    var es := Mirror(ds, activeId, data);
    var before, after := TabSlice.Tabs(ds, rs), TabSlice.Tabs(es, rs);
    forall k | 0 <= k < |before|
      ensures after[k].id == before[k].id && after[k].name == before[k].name && after[k].kind == before[k].kind
    {
      if k < |ds| {
        assert es[k].id == ds[k].id && es[k].name == ds[k].name;
      } else {
        var j := k - |ds|;
        assert after[|es| + j].id == rs[j].id == before[|ds| + j].id;
        assert after[|es| + j].name == rs[j].name == before[|ds| + j].name;
      }
    }
  }

  /** Writing twice is writing the second value. */
  lemma MirrorTwice(ds: seq<Draft>, activeId: string, a: Js, b: Js)
    ensures Mirror(Mirror(ds, activeId, a), activeId, b) == Mirror(ds, activeId, b)
  {
  }

  /** `setSummaryData`, `setNotesData`, … `setMindmapData`: one setter per
      content module, identical apart from the module. */
  method SetModuleData(s: AppStore, m: Mode, data: Js)
    requires m.IsContent()
    modifies s`moduleData, s`localDrafts
    ensures s.moduleData == old(s.moduleData)[m := data]
    ensures s.localDrafts == MirroredDrafts(old(s.localDrafts), m, old(s.ActiveIdOf(m)), data)
  {
    var activeId := s.ActiveIdOf(m);
    ghost var mirrored := MirroredDrafts(s.localDrafts, m, activeId, data);
    if StartsWith(activeId, TabSlice.DraftIdPrefix) {
      var drafts := s.DraftsOf(m);
      s.localDrafts := s.localDrafts[m := Mirror(drafts, activeId, data)];
    }
    assert s.localDrafts == mirrored;
    s.moduleData := s.moduleData[m := data];
  }

  /** Only the edited module's drafts can change. */
  lemma MirrorTouchesOneModule(drafts: map<Mode, seq<Draft>>, m: Mode, activeId: string, data: Js, other: Mode)
    requires other != m
    ensures var after := MirroredDrafts(drafts, m, activeId, data);
      (other in after <==> other in drafts) && (other in drafts ==> after[other] == drafts[other])
  {
  }

  /** `setChatHistory(history)` with a value. */
  method SetChatHistory(s: AppStore, history: seq<ChatEntry>)
    modifies s`chatHistory
    ensures s.chatHistory == history
  {
    s.chatHistory := history;
  }

  /** `setChatHistory(updater)` with a function of the previous history. */
  method UpdateChatHistory(s: AppStore, updater: seq<ChatEntry> -> seq<ChatEntry>)
    modifies s`chatHistory
    ensures s.chatHistory == updater(old(s.chatHistory))
  {
    s.chatHistory := updater(s.chatHistory);
  }

  /** `setIs{Module}Generated(val)` */
  method SetGenerated(s: AppStore, m: Mode, val: bool)
    requires m.IsContent()
    modifies s`generated
    ensures s.generated == old(s.generated)[m := val]
  {
    s.generated := s.generated[m := val];
  }

  /** `setIsGenerating{Module}(val)` */
  method SetGenerating(s: AppStore, m: Mode, val: bool)
    requires m.IsContent()
    modifies s`generating
    ensures s.generating == old(s.generating)[m := val]
  {
    s.generating := s.generating[m := val];
  }
}
