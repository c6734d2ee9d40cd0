/** The tab slice: each content module shows its local drafts followed by
    its server revisions as tabs; one tab per module is active and its data
    is the module's data. Server synchronisation and the revision
    delete/rename calls are outside the model. */
module TabSlice {
  import opened Common
  import opened JsValue
  import opened StoreState

  const DraftIdPrefix := "draft-"

  // ------------------------------------------------------------------
  // The unified tab list
  // ------------------------------------------------------------------

  /** `getTabs`: every draft as a `'draft'` tab, then every revision as a
      `'revision'` tab, each keeping its id, name and data. */
  function Tabs(ds: seq<Draft>, rs: seq<Revision>): (r: seq<Tab>)
    ensures |r| == |ds| + |rs|
    ensures forall i :: 0 <= i < |ds| ==>
      r[i].kind == DraftTab && r[i].id == ds[i].id && r[i].name == ds[i].name && r[i].data == ds[i].data
    ensures forall j :: 0 <= j < |rs| ==>
      r[|ds| + j].kind == RevisionTab && r[|ds| + j].id == rs[j].id
      && r[|ds| + j].name == rs[j].name && r[|ds| + j].data == rs[j].data
  {
    DraftTabs(ds) + RevisionTabs(rs)
  }

  /** Each draft as a `'draft'` tab. */
  function DraftTabs(ds: seq<Draft>): (r: seq<Tab>)
    ensures |r| == |ds| && forall i :: 0 <= i < |ds| ==> r[i] == Tab(ds[i].id, ds[i].name, DraftTab, ds[i].data)
  {
    seq(|ds|, i requires 0 <= i < |ds| => Tab(ds[i].id, ds[i].name, DraftTab, ds[i].data))
  }

  /** Each revision as a `'revision'` tab. */
  function RevisionTabs(rs: seq<Revision>): (r: seq<Tab>)
    ensures |r| == |rs| && forall j :: 0 <= j < |rs| ==> r[j] == Tab(rs[j].id, rs[j].name, RevisionTab, rs[j].data)
  {
    seq(|rs|, j requires 0 <= j < |rs| => Tab(rs[j].id, rs[j].name, RevisionTab, rs[j].data))
  }

  /** `getTabs(mode)`: the module's drafts, then its revisions. */
  function GetTabs(s: AppStore, m: Mode): (r: seq<Tab>)
    reads s
    ensures |r| == |s.DraftsOf(m)| + |s.RevisionsOf(m)|
    ensures TabIds(r) == DraftIds(s.DraftsOf(m)) + RevisionIds(s.RevisionsOf(m))
  {
    TabIdsAreDraftThenRevisionIds(s.DraftsOf(m), s.RevisionsOf(m));
    Tabs(s.DraftsOf(m), s.RevisionsOf(m))
  }

  function DraftIds(ds: seq<Draft>): (r: seq<string>)
    ensures |r| == |ds| && forall i :: 0 <= i < |ds| ==> r[i] == ds[i].id
  {
    seq(|ds|, i requires 0 <= i < |ds| => ds[i].id)
  }

  function RevisionIds(rs: seq<Revision>): (r: seq<string>)
    ensures |r| == |rs| && forall i :: 0 <= i < |rs| ==> r[i] == rs[i].id
  {
    seq(|rs|, i requires 0 <= i < |rs| => rs[i].id)
  }

  function TabIds(ts: seq<Tab>): (r: seq<string>)
    ensures |r| == |ts| && forall i :: 0 <= i < |ts| ==> r[i] == ts[i].id
  {
    seq(|ts|, i requires 0 <= i < |ts| => ts[i].id)
  }

  /** The ids that `reconcileProjectTabs` collects are exactly the ids of
      the tab list, in the same order. */
  lemma TabIdsAreDraftThenRevisionIds(ds: seq<Draft>, rs: seq<Revision>)
    ensures TabIds(Tabs(ds, rs)) == DraftIds(ds) + RevisionIds(rs)
  {
    var a, b := DraftTabs(ds), RevisionTabs(rs);
    TabIdsAppend(a, b);
    assert TabIds(a) == DraftIds(ds);
    assert TabIds(b) == RevisionIds(rs);
  }

  /** The ids of two lists of tabs, one after the other. */
  lemma TabIdsAppend(a: seq<Tab>, b: seq<Tab>)
    ensures TabIds(a + b) == TabIds(a) + TabIds(b)
  {
    var l, r := TabIds(a + b), TabIds(a) + TabIds(b);
    forall k | 0 <= k < |l| ensures l[k] == r[k] {
      if k >= |a| {
        assert (a + b)[k] == b[k - |a|];
      }
    }
  }

  // ------------------------------------------------------------------
  // Switching tabs
  // ------------------------------------------------------------------

  /** The first draft with the given id (`find`). */
  function FindDraft(ds: seq<Draft>, id: string): (r: Option<nat>)
    ensures r.Some? ==> (r.value < |ds| && ds[r.value].id == id
                         && forall j :: 0 <= j < r.value ==> ds[j].id != id)
    ensures r.None? ==> forall j :: 0 <= j < |ds| ==> ds[j].id != id
  {
    if ds == [] then None
    else if ds[0].id == id then Some(0)
    else
      var rest := FindDraft(ds[1..], id);
      if rest.Some? then Some(rest.value + 1) else None
  }

  /** The first revision with the given id. */
  function FindRevision(rs: seq<Revision>, id: string): (r: Option<nat>)
    ensures r.Some? ==> (r.value < |rs| && rs[r.value].id == id
                         && forall j :: 0 <= j < r.value ==> rs[j].id != id)
    ensures r.None? ==> forall j :: 0 <= j < |rs| ==> rs[j].id != id
  {
    if rs == [] then None
    else if rs[0].id == id then Some(0)
    else
      var rest := FindRevision(rs[1..], id);
      if rest.Some? then Some(rest.value + 1) else None
  }

  /** `content` in `switchRevision`: a `draft-` id reads the draft list, any
      other id the revision list, and a missing tab or falsy data gives `null`. */
  function SwitchContent(ds: seq<Draft>, rs: seq<Revision>, id: string): (r: Js)
    ensures r == Null || Truthy(r)
  {
    if StartsWith(id, DraftIdPrefix) then
      var i := FindDraft(ds, id);
      if i.Some? then Or(ds[i.value].data, Null) else Null
    else
      var j := FindRevision(rs, id);
      if j.Some? then Or(rs[j.value].data, Null) else Null
  }

  /** The data, generated-flag and active-id maps after
      `switchRevision(m, id)` on a module whose tabs are `ds` and `rs`,
      starting from the maps `data0`, `gen0` and `active0`: an empty id
      changes nothing. */
  predicate SwitchedTo(m: Mode, id: string, ds: seq<Draft>, rs: seq<Revision>,
                       data: map<Mode, Js>, gen: map<Mode, bool>, active: map<Mode, string>,
                       data0: map<Mode, Js>, gen0: map<Mode, bool>, active0: map<Mode, string>)
  {
    if id == "" then data == data0 && gen == gen0 && active == active0
    else
      var content := SwitchContent(ds, rs, id);
      data == data0[m := content] && gen == gen0[m := Truthy(content)] && active == active0[m := id]
  }

  /** Every module other than `m` keeps its drafts, data, generated flag
      and active tab. */
  predicate OthersKept(s: AppStore, m: Mode, drafts0: map<Mode, seq<Draft>>, data0: map<Mode, Js>,
                       gen0: map<Mode, bool>, active0: map<Mode, string>)
    reads s
  {
    s.localDrafts - {m} == drafts0 - {m} && s.moduleData - {m} == data0 - {m}
    && s.generated - {m} == gen0 - {m} && s.activeIds - {m} == active0 - {m}
  }

  /** Replacing the entry of `m` leaves the other entries alone. */
  lemma UpdateKeepsOthers<V>(a: map<Mode, V>, m: Mode, v: V)
    ensures a[m := v] - {m} == a - {m}
  {
  }

  method SwitchRevision(s: AppStore, m: Mode, id: string)
    modifies s`moduleData, s`generated, s`activeIds
    ensures SwitchedTo(m, id, old(s.DraftsOf(m)), old(s.RevisionsOf(m)), s.moduleData, s.generated, s.activeIds,
                    old(s.moduleData), old(s.generated), old(s.activeIds))
    ensures OthersKept(s, m, s.localDrafts, old(s.moduleData), old(s.generated), old(s.activeIds))
  {
    if id == "" {
      return;
    }
    var content := SwitchContent(s.DraftsOf(m), s.RevisionsOf(m), id);
    UpdateKeepsOthers(s.moduleData, m, content);
    UpdateKeepsOthers(s.generated, m, Truthy(content));
    UpdateKeepsOthers(s.activeIds, m, id);
    s.moduleData := s.moduleData[m := content];
    s.generated := s.generated[m := Truthy(content)];
    s.activeIds := s.activeIds[m := id];
  }

  /** The first draft with an id is the one found. */
  lemma FindDraftAt(ds: seq<Draft>, id: string, i: nat)
    requires i < |ds| && ds[i].id == id
    requires forall j :: 0 <= j < i ==> ds[j].id != id
    ensures FindDraft(ds, id) == Some(i)
  {
    var r := FindDraft(ds, id);
    if r.Some? {
      assert !(r.value < i) && !(i < r.value);
    }
  }

  /** Switching to a draft shows that draft's data (or `null` when it is
      falsy), and the generated flag says whether there is data. */
  lemma SwitchToDraftShowsItsData(ds: seq<Draft>, rs: seq<Revision>, i: nat)
    requires i < |ds| && StartsWith(ds[i].id, DraftIdPrefix)
    requires forall j :: 0 <= j < i ==> ds[j].id != ds[i].id
    ensures SwitchContent(ds, rs, ds[i].id) == (if Truthy(ds[i].data) then ds[i].data else Null)
    ensures Truthy(SwitchContent(ds, rs, ds[i].id)) <==> Truthy(ds[i].data)
  {
    FindDraftAt(ds, ds[i].id, i);
  }

  /** Draft lists with the same ids give the same lookups. */
  lemma {:induction false} FindDraftByIds(ds: seq<Draft>, es: seq<Draft>, id: string)
    requires DraftIds(ds) == DraftIds(es)
    ensures FindDraft(ds, id) == FindDraft(es, id)
    decreases |ds|
  {
    assert |ds| == |DraftIds(ds)| == |es|;
    if ds != [] {
      assert ds[0].id == DraftIds(ds)[0] == es[0].id;
      assert DraftIds(ds[1..]) == DraftIds(ds)[1..] == DraftIds(es)[1..] == DraftIds(es[1..]);
      FindDraftByIds(ds[1..], es[1..], id);
    }
  }

  // ------------------------------------------------------------------
  // Adding a draft
  // ------------------------------------------------------------------

  /** The default name `Draft ${counter}`. */
  function DraftName(k: nat): (r: string)
    ensures StartsWith(r, "Draft ")
  {
    "Draft " + NatToString(k)
  }

  /** Different counters give different names. */
  lemma DraftNamesDiffer(a: nat, b: nat)
    ensures a != b ==> DraftName(a) != DraftName(b)
  {
    if DraftName(a) == DraftName(b) {
      assert NatToString(a) == DraftName(a)[6..] == DraftName(b)[6..] == NatToString(b);
      NatToStringInjective(a, b);
    }
  }

  /** `existing.some(d => d.name === n) || revisions.some(r => r.name === n)` */
  predicate NameTaken(n: string, ds: seq<Draft>, rs: seq<Revision>)
  {
    (exists i :: 0 <= i < |ds| && ds[i].name == n) || (exists j :: 0 <= j < |rs| && rs[j].name == n)
  }

  /** The names of all tabs. */
  function TabNames(ds: seq<Draft>, rs: seq<Revision>): (r: seq<string>)
    ensures |r| == |ds| + |rs|
    ensures forall i :: 0 <= i < |ds| ==> r[i] == ds[i].name
    ensures forall j :: 0 <= j < |rs| ==> r[|ds| + j] == rs[j].name
  {
    seq(|ds|, i requires 0 <= i < |ds| => ds[i].name) + seq(|rs|, j requires 0 <= j < |rs| => rs[j].name)
  }

  lemma {:induction false} DistinctValuesBound(ns: seq<string>)
    ensures |(set x | x in ns)| <= |ns|
  {
    if ns != [] {
      DistinctValuesBound(ns[1..]);
      assert (set x | x in ns) == (set x | x in ns[1..]) + {ns[0]};
    }
  }

  lemma {:induction false} SubsetSmaller(a: set<string>, b: set<string>)
    requires a <= b
    ensures |a| <= |b|
    decreases |a|
  {
    if a != {} {
      var x :| x in a;
      SubsetSmaller(a - {x}, b - {x});
    }
  }

  /** The default names of the counters `lo` up to `hi`. */
  function DraftNames(lo: nat, hi: nat): set<string>
  {
    set j: nat | lo <= j < hi :: DraftName(j)
  }

  /** `hi - lo` consecutive counters give `hi - lo` different names. */
  lemma {:induction false} DraftNamesCount(lo: nat, hi: nat)
    requires lo <= hi
    ensures |DraftNames(lo, hi)| == hi - lo
    decreases hi - lo
  {
    if lo < hi {
      DraftNamesCount(lo, hi - 1);
      DraftNamesGrow(lo, hi);
    }
  }

  /** One more counter adds a name not among the earlier ones. */
  lemma DraftNamesGrow(lo: nat, hi: nat)
    requires lo < hi
    ensures |DraftNames(lo, hi)| == |DraftNames(lo, hi - 1)| + 1
  {
    forall j: nat | lo <= j < hi - 1 ensures DraftName(j) != DraftName(hi - 1) {
      DraftNamesDiffer(j, hi - 1);
    }
    var a, x := DraftNames(lo, hi - 1), DraftName(hi - 1);
    assert DraftNames(lo, hi) == a + {x} && x !in a;
  }

  /** Pigeonhole: the tabs cannot hold more consecutive default names than
      there are tabs. */
  lemma TakenNamesBound(ds: seq<Draft>, rs: seq<Revision>, lo: nat, hi: nat)
    requires lo <= hi
    requires forall j :: lo <= j < hi ==> NameTaken(DraftName(j), ds, rs)
    ensures hi - lo <= |ds| + |rs|
  {
    var names := TabNames(ds, rs);
    var taken := DraftNames(lo, hi);
    forall n | n in taken ensures n in names {
      var j: nat :| lo <= j < hi && n == DraftName(j);
      assert NameTaken(n, ds, rs);
      if exists i :: 0 <= i < |ds| && ds[i].name == n {
        var i :| 0 <= i < |ds| && ds[i].name == n;
        assert names[i] == n;
      } else {
        var i :| 0 <= i < |rs| && rs[i].name == n;
        assert names[|ds| + i] == n;
      }
    }
    assert taken <= set x | x in names;
    SubsetSmaller(taken, set x | x in names);
    DraftNamesCount(lo, hi);
    DistinctValuesBound(names);
  }

  /** The `while` loop of `addLocalDraft` that picks a default name: the
      first `Draft k`, counting from one past the number of tabs, that no
      draft or revision of the module already uses. */
  method PickDraftName(ds: seq<Draft>, rs: seq<Revision>) returns (name: string, ghost k: nat)
    ensures k > |ds| + |rs| && name == DraftName(k)
    ensures !NameTaken(name, ds, rs)
    ensures forall j :: |ds| + |rs| < j < k ==> NameTaken(DraftName(j), ds, rs)
  {
    var total := |ds| + |rs|;
    var counter := total + 1;
    name := DraftName(counter);
    while NameTaken(name, ds, rs)
      invariant total < counter && name == DraftName(counter)
      invariant forall j :: total < j < counter ==> NameTaken(DraftName(j), ds, rs)
      decreases 2 * total + 1 - counter
    {
      TakenNamesBound(ds, rs, total + 1, counter + 1);
      counter := counter + 1;
      name := DraftName(counter);
    }
    k := counter;
  }

  /** The first draft whose (truthy) data equals the given data: the
      `JSON.stringify` comparison of `addLocalDraft`, taken as equality of
      values. The two part only where `JSON.stringify` loses information:
      an object field holding `undefined` is left out of the text, and a
      number that is not finite is written as `null`. */
  function FindDuplicate(ds: seq<Draft>, data: Js): (r: Option<nat>)
    ensures r.Some? ==> (r.value < |ds| && Truthy(ds[r.value].data) && ds[r.value].data == data
                         && forall j :: 0 <= j < r.value ==> !(Truthy(ds[j].data) && ds[j].data == data))
    ensures r.None? ==> forall j :: 0 <= j < |ds| ==> !(Truthy(ds[j].data) && ds[j].data == data)
  {
    if ds == [] then None
    else if Truthy(ds[0].data) && ds[0].data == data then Some(0)
    else
      var rest := FindDuplicate(ds[1..], data);
      if rest.Some? then Some(rest.value + 1) else None
  }

  /** `draft-${random}-${now}` */
  function NewDraftId(randomPart: string, now: string): (r: string)
    ensures StartsWith(r, DraftIdPrefix)
  {
    DraftIdPrefix + randomPart + "-" + now
  }

  /** A freshly appended draft whose id no earlier draft uses becomes the
      content shown by switching to it. */
  lemma AppendedDraftShown(ds: seq<Draft>, rs: seq<Revision>, d: Draft)
    requires StartsWith(d.id, DraftIdPrefix) && FindDraft(ds, d.id).None?
    ensures SwitchContent(ds + [d], rs, d.id) == Or(d.data, Null)
  {
    FindDraftAt(ds + [d], d.id, |ds|);
  }

  /** `addLocalDraft(m, name, initialData)`. An empty `name` stands for a
      missing one; `randomPart` and `now` are the random and clock parts of
      the new id. */
  method AddLocalDraft(s: AppStore, m: Mode, name: string, initialData: Js, randomPart: string, now: string)
    returns (id: string)
    modifies s`localDrafts, s`moduleData, s`generated, s`activeIds
    ensures s.revisions == old(s.revisions)
    ensures var dup := FindDuplicate(old(s.DraftsOf(m)), initialData);
      Truthy(initialData) && dup.Some? ==>
        id == old(s.DraftsOf(m))[dup.value].id && s.localDrafts == old(s.localDrafts)
        && SwitchedTo(m, id, old(s.DraftsOf(m)), old(s.RevisionsOf(m)), s.moduleData, s.generated, s.activeIds,
                    old(s.moduleData), old(s.generated), old(s.activeIds))
    ensures var ds, rs := old(s.DraftsOf(m)), old(s.RevisionsOf(m));
      !(Truthy(initialData) && FindDuplicate(ds, initialData).Some?) ==>
        id == NewDraftId(randomPart, now)
        && |s.DraftsOf(m)| == |ds| + 1
        && s.localDrafts == old(s.localDrafts)[m := ds + [Draft(id, s.DraftsOf(m)[|ds|].name, initialData)]]
        && (name != "" ==> s.DraftsOf(m)[|ds|].name == name)
        && (name == "" ==> !NameTaken(s.DraftsOf(m)[|ds|].name, ds, rs)
                           && exists k: nat :: k > |ds| + |rs| && s.DraftsOf(m)[|ds|].name == DraftName(k))
        && SwitchedTo(m, id, s.DraftsOf(m), rs, s.moduleData, s.generated, s.activeIds,
                    old(s.moduleData), old(s.generated), old(s.activeIds))
    ensures OthersKept(s, m, old(s.localDrafts), old(s.moduleData), old(s.generated), old(s.activeIds))
  {
    var existing := s.DraftsOf(m);
    if Truthy(initialData) {
      var dup := FindDuplicate(existing, initialData);
      if dup.Some? {
        id := existing[dup.value].id;
        SwitchRevision(s, m, id);
        return;
      }
    }
    var revs := s.RevisionsOf(m);
    var finalName := name;
    ghost var k: nat := 0;
    if finalName == "" {
      finalName, k := PickDraftName(existing, revs);
    }
    id := NewDraftId(randomPart, now);
    var drafts := existing + [Draft(id, finalName, initialData)];
    UpdateKeepsOthers(s.localDrafts, m, drafts);
    s.localDrafts := s.localDrafts[m := drafts];
    assert s.DraftsOf(m) == drafts;
    SwitchRevision(s, m, id);
    assert s.DraftsOf(m) == drafts && drafts[|existing|].name == finalName;
    if name == "" {
      assert k > |existing| + |revs| && finalName == DraftName(k);
    }
  }

  // ------------------------------------------------------------------
  // Renaming and closing drafts
  // ------------------------------------------------------------------

  /** The drafts with the given one renamed (`map` with a spread). */
  function Renamed(ds: seq<Draft>, id: string, name: string): (r: seq<Draft>)
    ensures |r| == |ds|
    ensures forall i :: 0 <= i < |ds| ==>
      r[i].id == ds[i].id && r[i].data == ds[i].data
      && r[i].name == (if ds[i].id == id then name else ds[i].name)
  {
    seq(|ds|, i requires 0 <= i < |ds| => if ds[i].id == id then ds[i].(name := name) else ds[i])
  }

  /** Renaming never changes what a tab shows: every switch reads the same
      content before and after. */
  lemma RenameKeepsContent(ds: seq<Draft>, rs: seq<Revision>, id: string, name: string, target: string)
    ensures SwitchContent(Renamed(ds, id, name), rs, target) == SwitchContent(ds, rs, target)
  {
    var es := Renamed(ds, id, name);
    assert DraftIds(es) == DraftIds(ds);
    FindDraftByIds(es, ds, target);
  }

  /** A second rename of the same draft overrides the first. */
  lemma RenameTwice(ds: seq<Draft>, id: string, a: string, b: string)
    ensures Renamed(Renamed(ds, id, a), id, b) == Renamed(ds, id, b)
  {
  }

  method RenameLocalDraft(s: AppStore, m: Mode, draftId: string, name: string)
    modifies s`localDrafts
    ensures s.localDrafts == old(s.localDrafts)[m := Renamed(old(s.DraftsOf(m)), draftId, name)]
  {
    s.localDrafts := s.localDrafts[m := Renamed(s.DraftsOf(m), draftId, name)];
  }

  /** The drafts other than `id`, in order (`filter`). */
  function Without(ds: seq<Draft>, id: string): (r: seq<Draft>)
    ensures |r| <= |ds|
    ensures forall i :: 0 <= i < |r| ==> r[i].id != id && r[i] in ds
    ensures forall i :: 0 <= i < |ds| && ds[i].id != id ==> ds[i] in r
  {
    if ds == [] then []
    else if ds[0].id == id then Without(ds[1..], id)
    else [ds[0]] + Without(ds[1..], id)
  }

  /** Closing a draft that is not there keeps the list as it is. */
  lemma {:induction false} WithoutAbsent(ds: seq<Draft>, id: string)
    requires FindDraft(ds, id).None?
    ensures Without(ds, id) == ds
  {
    if ds != [] {
      WithoutAbsent(ds[1..], id);
    }
  }

  // ------------------------------------------------------------------
  // Keeping at least one tab
  // ------------------------------------------------------------------

  /** `hasValidContent`: non-blank text, or an object or array with keys. */
  predicate HasValidContent(v: Js)
  {
    Truthy(v) && ((v.Str? && Trim(v.s) != []) || (v.Obj? && |v.fields| > 0) || (v.Arr? && |v.items| > 0))
  }

  /** Blank text is never imported. */
  lemma BlankIsNotContent(t: string)
    ensures HasValidContent(Str(t)) <==> !IsBlank(t)
  {
    TrimEmptyIffBlank(t);
  }

  /** What `reconcileProjectTabs` does to a module whose tab ids are the
      ids of `ds` then of `serverRevs`: an active id that names one of them
      stays, otherwise the first is switched to (reading the content from
      `ds` and the store's revisions `rs`). */
  predicate ReconciledTabs(m: Mode, ds: seq<Draft>, serverRevs: seq<Revision>, rs: seq<Revision>, active: string,
                           data: map<Mode, Js>, gen: map<Mode, bool>, act: map<Mode, string>,
                           data0: map<Mode, Js>, gen0: map<Mode, bool>, act0: map<Mode, string>)
  {
    var all := DraftIds(ds) + RevisionIds(serverRevs);
    all != [] ==>
      (active != "" && active in all ==> data == data0 && gen == gen0 && act == act0)
      && (active == "" || active !in all ==> SwitchedTo(m, all[0], ds, rs, data, gen, act, data0, gen0, act0))
  }

  /** The four maps the tab operations change, each keyed by module. */
  datatype TabMaps = TabMaps(drafts: map<Mode, seq<Draft>>, data: map<Mode, Js>, gen: map<Mode, bool>,
                             active: map<Mode, string>)

  function MapsOf(s: AppStore): TabMaps
    reads s`localDrafts, s`moduleData, s`generated, s`activeIds
  {
    TabMaps(s.localDrafts, s.moduleData, s.generated, s.activeIds)
  }

  /** One module's entries in the four maps, `None` where a map has none. */
  datatype Slot = Slot(drafts: Option<seq<Draft>>, data: Option<Js>, gen: Option<bool>, active: Option<string>)

  function Entry<V>(a: map<Mode, V>, m: Mode): Option<V>
  {
    if m in a then Some(a[m]) else None
  }

  function SlotIn(t: TabMaps, m: Mode): Slot
  {
    Slot(Entry(t.drafts, m), Entry(t.data, m), Entry(t.gen, m), Entry(t.active, m))
  }

  function SlotOf(s: AppStore, m: Mode): Slot
    reads s`localDrafts, s`moduleData, s`generated, s`activeIds
  {
    SlotIn(MapsOf(s), m)
  }

  /** `a` with the entry of `m` set to `e`, or removed when `e` is `None`. */
  function WithEntry<V>(a: map<Mode, V>, m: Mode, e: Option<V>): (r: map<Mode, V>)
    ensures Entry(r, m) == e
    ensures forall n :: n != m ==> Entry(r, n) == Entry(a, n)
  {
    if e.Some? then a[m := e.value] else a - {m}
  }

  /** The maps with module `m`'s entries replaced by `x`. */
  function WithSlot(t: TabMaps, m: Mode, x: Slot): (r: TabMaps)
    ensures SlotIn(r, m) == x
    ensures forall n :: n != m ==> SlotIn(r, n) == SlotIn(t, n)
  {
    TabMaps(WithEntry(t.drafts, m, x.drafts), WithEntry(t.data, m, x.data), WithEntry(t.gen, m, x.gen),
            WithEntry(t.active, m, x.active))
  }

  /** Maps with the same entries for every module are equal. */
  lemma SlotsDetermine(t: TabMaps, r: TabMaps)
    requires forall n :: SlotIn(t, n) == SlotIn(r, n)
    ensures t == r
  {
    forall n
      ensures Entry(t.drafts, n) == Entry(r.drafts, n) && Entry(t.data, n) == Entry(r.data, n)
              && Entry(t.gen, n) == Entry(r.gen, n) && Entry(t.active, n) == Entry(r.active, n)
    {
      assert SlotIn(t, n) == SlotIn(r, n);
    }
    EntriesDetermine(t.drafts, r.drafts);
    EntriesDetermine(t.data, r.data);
    EntriesDetermine(t.gen, r.gen);
    EntriesDetermine(t.active, r.active);
  }

  lemma EntriesDetermine<V>(a: map<Mode, V>, b: map<Mode, V>)
    requires forall n :: Entry(a, n) == Entry(b, n)
    ensures a == b
  {
    assert forall n :: n in a <==> Entry(a, n).Some?;
    assert forall n :: n in b <==> Entry(b, n).Some?;
    assert forall n :: n in a ==> a[n] == Entry(a, n).value;
    assert forall n :: n in b ==> b[n] == Entry(b, n).value;
  }

  /** Maps equal away from `m` have the same entry for any other key. */
  lemma KeptEntry<V>(a: map<Mode, V>, b: map<Mode, V>, m: Mode, n: Mode)
    requires a - {m} == b - {m} && n != m
    ensures Entry(a, n) == Entry(b, n)
  {
    assert n in a <==> n in a - {m};
    assert n in b <==> n in b - {m};
    if n in a {
      assert a[n] == (a - {m})[n];
    }
  }

  /** `reconcileProjectTabs(m, content, serverRevs)` on module `m`'s own
      entries, `rs` being the store's revisions of `m` and `id` the id a
      new draft takes. With tabs present the drafts stay, an active id
      naming one of them stays, and otherwise the first tab is switched to;
      with none, valid content becomes one active `Imported Content` draft;
      otherwise nothing changes. */
  function ReconciledSlot(before: Slot, m: Mode, content: Js, serverRevs: seq<Revision>, rs: seq<Revision>,
                          id: string): Slot
  {
    var ds := if before.drafts.Some? then before.drafts.value else [];
    var active := if before.active.Some? then before.active.value else "";
    var all := DraftIds(ds) + RevisionIds(serverRevs);
    if ds != [] || serverRevs != [] then
      if (active != "" && active in all) || all[0] == "" then before
      else
        var c := SwitchContent(ds, rs, all[0]);
        Slot(before.drafts, Some(c), Some(Truthy(c)), Some(all[0]))
    else if HasValidContent(content) then
      Slot(Some([Draft(id, "Imported Content", content)]), Some(content), Some(true), Some(id))
    else before
  }

  /** After a reconcile the module points at one of its tabs whenever it
      has any (and the first has an id), and whenever anything changed it
      shows the active tab's content, flagged as generated exactly when
      there is some. */
  lemma ReconciledShowsATab(before: Slot, m: Mode, content: Js, serverRevs: seq<Revision>, rs: seq<Revision>,
                            id: string)
    requires StartsWith(id, DraftIdPrefix)
    ensures var after := ReconciledSlot(before, m, content, serverRevs, rs, id);
      var ds := if after.drafts.Some? then after.drafts.value else [];
      var active := if after.active.Some? then after.active.value else "";
      var all := DraftIds(ds) + RevisionIds(serverRevs);
      (all != [] && all[0] != "" ==> active in all)
      && (after != before ==> after.data == Some(SwitchContent(ds, rs, active)) && after.gen == Some(Truthy(after.data.value)))
  {
    var ds := if before.drafts.Some? then before.drafts.value else [];
    if ds != [] || serverRevs != [] {
      TabsShowATab(before, m, content, serverRevs, rs, id);
    } else if HasValidContent(content) {
      ImportedShowsATab(before, m, content, serverRevs, rs, id);
    }
  }

  /** `ReconciledShowsATab` when the module has tabs. */
  lemma TabsShowATab(before: Slot, m: Mode, content: Js, serverRevs: seq<Revision>, rs: seq<Revision>, id: string)
    requires var ds := if before.drafts.Some? then before.drafts.value else [];
      ds != [] || serverRevs != []
    ensures var after := ReconciledSlot(before, m, content, serverRevs, rs, id);
      var ds := if after.drafts.Some? then after.drafts.value else [];
      var active := if after.active.Some? then after.active.value else "";
      var all := DraftIds(ds) + RevisionIds(serverRevs);
      (all != [] && all[0] != "" ==> active in all)
      && (after != before ==> after.data == Some(SwitchContent(ds, rs, active)) && after.gen == Some(Truthy(after.data.value)))
  {
    var ds := if before.drafts.Some? then before.drafts.value else [];
    var all := DraftIds(ds) + RevisionIds(serverRevs);
    assert all != [] by {
      if ds != [] {
        assert |DraftIds(ds)| > 0;
      } else {
        assert |RevisionIds(serverRevs)| > 0;
      }
    }
    assert all[0] in all;
  }

  /** `ReconciledShowsATab` when valid content is imported into an empty module. */
  lemma ImportedShowsATab(before: Slot, m: Mode, content: Js, serverRevs: seq<Revision>, rs: seq<Revision>,
                          id: string)
    requires StartsWith(id, DraftIdPrefix)
    requires var ds := if before.drafts.Some? then before.drafts.value else [];
      ds == [] && serverRevs == [] && HasValidContent(content)
    ensures var after := ReconciledSlot(before, m, content, serverRevs, rs, id);
      var ds := if after.drafts.Some? then after.drafts.value else [];
      var active := if after.active.Some? then after.active.value else "";
      var all := DraftIds(ds) + RevisionIds(serverRevs);
      (all != [] && all[0] != "" ==> active in all)
      && (after != before ==> after.data == Some(SwitchContent(ds, rs, active)) && after.gen == Some(Truthy(after.data.value)))
  {
    var d := Draft(id, "Imported Content", content);
    AppendedDraftShown([], rs, d);
    assert [] + [d] == [d];
    assert DraftIds([d])[0] == id;
  }

  method ReconcileProjectTabs(s: AppStore, m: Mode, serverContent: Js, serverRevisions: seq<Revision>,
                              randomPart: string, now: string)
    modifies s`localDrafts, s`moduleData, s`generated, s`activeIds
    ensures s.revisions == old(s.revisions)
    ensures ReconcileOutcome(m, serverContent, serverRevisions, old(s.RevisionsOf(m)), NewDraftId(randomPart, now),
                             old(MapsOf(s)), MapsOf(s))
  {
    var drafts := s.DraftsOf(m);
    var activeId := s.ActiveIdOf(m);
    if |drafts| > 0 || |serverRevisions| > 0 {
      var allIds := DraftIds(drafts) + RevisionIds(serverRevisions);
      if activeId == "" || activeId !in allIds {
        SwitchRevision(s, m, allIds[0]);
      }
      return;
    }
    if HasValidContent(serverContent) {
      var id := AddLocalDraft(s, m, "Imported Content", serverContent, randomPart, now);
      AppendedDraftShown([], s.RevisionsOf(m), Draft(id, "Imported Content", serverContent));
      assert [] + [Draft(id, "Imported Content", serverContent)] == [Draft(id, "Imported Content", serverContent)];
    }
  }

  /** The facts `reconcileProjectTabs(m, content, serverRevs)` establishes
      about the maps `t` it leaves, from `t0`. */
  predicate ReconcileOutcome(m: Mode, content: Js, serverRevs: seq<Revision>, rs: seq<Revision>, id: string,
                             t0: TabMaps, t: TabMaps)
  {
    var ds := if m in t0.drafts then t0.drafts[m] else [];
    (ds != [] || serverRevs != [] ==>
       t.drafts == t0.drafts
       && ReconciledTabs(m, ds, serverRevs, rs, if m in t0.active then t0.active[m] else "", t.data, t.gen, t.active,
                         t0.data, t0.gen, t0.active))
    && (ds == [] && serverRevs == [] && !HasValidContent(content) ==> t == t0)
    && (ds == [] && serverRevs == [] && HasValidContent(content) ==>
          (if m in t.drafts then t.drafts[m] else []) == [Draft(id, "Imported Content", content)]
          && (if m in t.active then t.active[m] else "") == id
          && (if m in t.data then t.data[m] else Null) == content && m in t.gen && t.gen[m])
    && t.drafts - {m} == t0.drafts - {m} && t.data - {m} == t0.data - {m}
    && t.gen - {m} == t0.gen - {m} && t.active - {m} == t0.active - {m}
  }

  /** What `reconcileProjectTabs(m, content, serverRevs)` does to the whole
      maps is its effect on module `m`'s entries alone: the maps after are
      those before with `m`'s entries reconciled. */
  lemma ReconciledSlots(m: Mode, content: Js, serverRevs: seq<Revision>, rs: seq<Revision>, id: string,
                        t0: TabMaps, t: TabMaps)
    requires StartsWith(id, DraftIdPrefix)
    requires ReconcileOutcome(m, content, serverRevs, rs, id, t0, t)
    ensures t == WithSlot(t0, m, ReconciledSlot(SlotIn(t0, m), m, content, serverRevs, rs, id))
  {
    var r := WithSlot(t0, m, ReconciledSlot(SlotIn(t0, m), m, content, serverRevs, rs, id));
    forall n
      ensures SlotIn(t, n) == SlotIn(r, n)
    {
      if n == m {
        ReconciledOwnSlot(m, content, serverRevs, rs, id, t0, t);
      } else {
        KeptEntry(t.drafts, t0.drafts, m, n);
        KeptEntry(t.data, t0.data, m, n);
        KeptEntry(t.gen, t0.gen, m, n);
        KeptEntry(t.active, t0.active, m, n);
      }
    }
    SlotsDetermine(t, r);
  }

  /** Module `m`'s own entries after `reconcileProjectTabs(m, ...)`. */
  lemma ReconciledOwnSlot(m: Mode, content: Js, serverRevs: seq<Revision>, rs: seq<Revision>, id: string,
                          t0: TabMaps, t: TabMaps)
    requires StartsWith(id, DraftIdPrefix)
    requires ReconcileOutcome(m, content, serverRevs, rs, id, t0, t)
    ensures SlotIn(t, m) == ReconciledSlot(SlotIn(t0, m), m, content, serverRevs, rs, id)
  {
    var ds := if m in t0.drafts then t0.drafts[m] else [];
    if ds != [] || serverRevs != [] {
      OwnSlotWithTabs(m, content, serverRevs, rs, id, t0, t);
    } else if HasValidContent(content) {
      OwnSlotImported(m, content, rs, id, t0, t);
    }
  }

  /** With tabs present the drafts stay and the maps are those `ReconciledTabs` allows. */
  lemma OwnSlotWithTabs(m: Mode, content: Js, serverRevs: seq<Revision>, rs: seq<Revision>, id: string,
                        t0: TabMaps, t: TabMaps)
    requires var ds := if m in t0.drafts then t0.drafts[m] else [];
      (ds != [] || serverRevs != []) && t.drafts == t0.drafts
      && ReconciledTabs(m, ds, serverRevs, rs, if m in t0.active then t0.active[m] else "", t.data, t.gen, t.active,
                        t0.data, t0.gen, t0.active)
    ensures SlotIn(t, m) == ReconciledSlot(SlotIn(t0, m), m, content, serverRevs, rs, id)
  {
    var ds := if m in t0.drafts then t0.drafts[m] else [];
    var active := if m in t0.active then t0.active[m] else "";
    var all := DraftIds(ds) + RevisionIds(serverRevs);
    if (active != "" && active in all) || all[0] == "" {
      OwnSlotKept(m, content, serverRevs, rs, id, t0, t);
    } else {
      OwnSlotSwitched(m, content, serverRevs, rs, id, t0, t);
    }
  }

  lemma OwnSlotKept(m: Mode, content: Js, serverRevs: seq<Revision>, rs: seq<Revision>, id: string,
                    t0: TabMaps, t: TabMaps)
    requires var ds := if m in t0.drafts then t0.drafts[m] else [];
      var active := if m in t0.active then t0.active[m] else "";
      var all := DraftIds(ds) + RevisionIds(serverRevs);
      (ds != [] || serverRevs != []) && ((active != "" && active in all) || all[0] == "")
      && t == t0
    ensures SlotIn(t, m) == ReconciledSlot(SlotIn(t0, m), m, content, serverRevs, rs, id)
  {
  }

  lemma OwnSlotSwitched(m: Mode, content: Js, serverRevs: seq<Revision>, rs: seq<Revision>, id: string,
                        t0: TabMaps, t: TabMaps)
    requires var ds := if m in t0.drafts then t0.drafts[m] else [];
      var active := if m in t0.active then t0.active[m] else "";
      var all := DraftIds(ds) + RevisionIds(serverRevs);
      (ds != [] || serverRevs != []) && !((active != "" && active in all) || all[0] == "")
      && t.drafts == t0.drafts
      && var c := SwitchContent(ds, rs, all[0]);
         t.data == t0.data[m := c] && t.gen == t0.gen[m := Truthy(c)] && t.active == t0.active[m := all[0]]
    ensures SlotIn(t, m) == ReconciledSlot(SlotIn(t0, m), m, content, serverRevs, rs, id)
  {
  }

  /** With no tab, valid content is imported as the module's only draft. */
  lemma OwnSlotImported(m: Mode, content: Js, rs: seq<Revision>, id: string, t0: TabMaps, t: TabMaps)
    requires StartsWith(id, DraftIdPrefix) && HasValidContent(content)
    requires (if m in t0.drafts then t0.drafts[m] else []) == []
    requires (if m in t.drafts then t.drafts[m] else []) == [Draft(id, "Imported Content", content)]
    requires (if m in t.active then t.active[m] else "") == id
    requires (if m in t.data then t.data[m] else Null) == content && m in t.gen && t.gen[m]
    ensures SlotIn(t, m) == ReconciledSlot(SlotIn(t0, m), m, content, [], rs, id)
  {
    assert content != Null;
  }

  method EnsureMinimumOneTab(s: AppStore, m: Mode, randomPart: string, now: string)
    modifies s`localDrafts, s`moduleData, s`generated, s`activeIds
    ensures s.revisions == old(s.revisions)
    ensures |s.DraftsOf(m)| + |s.RevisionsOf(m)| >= 1
    ensures |old(s.DraftsOf(m))| + |old(s.RevisionsOf(m))| > 0 ==>
      s.localDrafts == old(s.localDrafts) && s.moduleData == old(s.moduleData)
      && s.generated == old(s.generated) && s.activeIds == old(s.activeIds)
    ensures |old(s.DraftsOf(m))| + |old(s.RevisionsOf(m))| == 0 ==>
      var id := NewDraftId(randomPart, now);
      s.DraftsOf(m) == [Draft(id, "Draft 1", Null)] && s.ActiveIdOf(m) == id
      && s.DataOf(m) == Null && m in s.generated && !s.generated[m]
    ensures OthersKept(s, m, old(s.localDrafts), old(s.moduleData), old(s.generated), old(s.activeIds))
  {
    if |s.DraftsOf(m)| == 0 && |s.RevisionsOf(m)| == 0 {
      var id := AddLocalDraft(s, m, "Draft 1", Null, randomPart, now);
      AppendedDraftShown([], s.RevisionsOf(m), Draft(id, "Draft 1", Null));
      assert [] + [Draft(id, "Draft 1", Null)] == [Draft(id, "Draft 1", Null)];
    }
  }

  /** `closeLocalDraft(m, id)`: the draft goes; when the module has no tab
      left its data is cleared and a fresh `Draft 1` is opened. */
  method CloseLocalDraft(s: AppStore, m: Mode, draftId: string, randomPart: string, now: string)
    modifies s`localDrafts, s`moduleData, s`generated, s`activeIds
    ensures s.revisions == old(s.revisions)
    ensures |s.DraftsOf(m)| + |s.RevisionsOf(m)| >= 1
    ensures var kept, revs := Without(old(s.DraftsOf(m)), draftId), old(s.RevisionsOf(m));
      kept != [] || revs != [] ==> s.DraftsOf(m) == kept
    ensures var kept, revs := Without(old(s.DraftsOf(m)), draftId), old(s.RevisionsOf(m));
      kept == [] && revs == [] ==>
        s.DraftsOf(m) == [Draft(NewDraftId(randomPart, now), "Draft 1", Null)]
        && s.ActiveIdOf(m) == NewDraftId(randomPart, now)
        && s.DataOf(m) == Null && m in s.generated && !s.generated[m]
    ensures ReconciledTabs(m, Without(old(s.DraftsOf(m)), draftId), old(s.RevisionsOf(m)), old(s.RevisionsOf(m)),
                           old(s.ActiveIdOf(m)),
                           s.moduleData, s.generated, s.activeIds, old(s.moduleData), old(s.generated), old(s.activeIds))
    ensures OthersKept(s, m, old(s.localDrafts), old(s.moduleData), old(s.generated), old(s.activeIds))
  {
    var filtered := Without(s.DraftsOf(m), draftId);
    var revs := s.RevisionsOf(m);
    if |filtered| == 0 && |revs| == 0 {
      UpdateKeepsOthers(s.moduleData, m, Null);
      UpdateKeepsOthers(s.generated, m, false);
      s.moduleData := s.moduleData[m := Null];
      s.generated := s.generated[m := false];
    }
    UpdateKeepsOthers(s.localDrafts, m, filtered);
    s.localDrafts := s.localDrafts[m := filtered];
    ReconcileProjectTabs(s, m, Null, revs, randomPart, now);
    EnsureMinimumOneTab(s, m, randomPart, now);
  }

  // ------------------------------------------------------------------
  // Applying a server sync
  // ------------------------------------------------------------------

  datatype SyncField = RevisionsField | ContentField

  /** The module and field a dotted sync key such as `summaryData.revisions`
      names: the key is split at `.`, the first `Data` is removed from the
      first piece, and the second piece must be `revisions` or `content`.
      A key whose first piece names no mode gives `None` and is skipped by
      the model; the source writes it to a stray `<x>Revisions`/`<x>Data`
      store field that nothing reads (tabSlice.ts:306-311). */
  function SyncTarget(key: string): (r: Option<(Mode, SyncField)>)
    ensures r.Some? ==> '.' in key
  {
    if '.' !in key then None
    else
      var parts := Split(key, '.');
      if |parts| < 2 then None
      else
        var md := ModeNamed(ReplaceFirst(parts[0], "Data", ""));
        if md.None? then None
        else if parts[1] == "revisions" then Some((md.value, RevisionsField))
        else if parts[1] == "content" then Some((md.value, ContentField))
        else None
  }

  /** The keys the server writes lead back to their module. */
  lemma SyncKeyNamesModule(m: Mode, field: string)
    requires field == "revisions" || field == "content"
    ensures SyncTarget(ModeName(m) + "Data." + field)
         == Some((m, if field == "revisions" then RevisionsField else ContentField))
  {
    var head := ModeName(m) + "Data";
    ModeDataStripped(m);
    assert '.' !in field;
    assert ModeName(m) + "Data." + field == head + ['.'] + field;
    SplitInTwo(head, field, '.');
    ModeNamedInverse(m);
  }

  /** A module's data key is dot-free and gives the module's name back once
      `Data` is removed. */
  lemma ModeDataStripped(m: Mode)
    ensures '.' !in ModeName(m) + "Data"
    ensures ReplaceFirst(ModeName(m) + "Data", "Data", "") == ModeName(m)
  {
    assert 'D' !in ModeName(m) && '.' !in ModeName(m);
    ReplaceFirstStripsSuffix(ModeName(m), "Data");
  }

  function StrOr(v: Js): string
  {
    if v.Str? then v.s else ""
  }

  /** A synced revision object read as a revision. */
  function AsRevision(v: Js): Revision
  {
    Revision(StrOr(Get(v, "id")), StrOr(Get(v, "name")), Get(v, "data"), StrOr(Get(v, "timestamp")))
  }

  /** A synced revisions array read as revisions. */
  function AsRevisions(v: Js): (r: seq<Revision>)
    ensures v.Arr? ==> |r| == |v.items|
  {
    if v.Arr? then seq(|v.items|, i requires 0 <= i < |v.items| => AsRevision(v.items[i])) else []
  }

  /** The revisions after applying the sync entries in order. */
  function SyncRevisions(entries: seq<(string, Js)>, revs: map<Mode, seq<Revision>>): map<Mode, seq<Revision>>
    decreases |entries|
  {
    if entries == [] then revs
    else
      var before := SyncRevisions(entries[..|entries| - 1], revs);
      var t := SyncTarget(entries[|entries| - 1].0);
      if t.Some? && t.value.1 == RevisionsField then before[t.value.0 := AsRevisions(entries[|entries| - 1].1)]
      else before
  }

  /** The module data after applying the sync entries in order. */
  function SyncData(entries: seq<(string, Js)>, data: map<Mode, Js>): (r: map<Mode, Js>)
    ensures data.Keys <= r.Keys
    decreases |entries|
  {
    if entries == [] then data
    else
      var before := SyncData(entries[..|entries| - 1], data);
      var t := SyncTarget(entries[|entries| - 1].0);
      if t.Some? && t.value.1 == ContentField then before[t.value.0 := entries[|entries| - 1].1]
      else before
  }

  /** A module that no entry names keeps its revisions; in particular keys
      without a `.` change nothing. */
  lemma {:induction false} SyncKeepsUnnamed(entries: seq<(string, Js)>, revs: map<Mode, seq<Revision>>, m: Mode)
    requires forall k :: 0 <= k < |entries| ==> SyncTarget(entries[k].0) != Some((m, RevisionsField))
    ensures m in SyncRevisions(entries, revs) <==> m in revs
    ensures m in revs ==> SyncRevisions(entries, revs)[m] == revs[m]
    decreases |entries|
  {
    if entries != [] {
      SyncKeepsUnnamed(entries[..|entries| - 1], revs, m);
    }
  }

  /** A module that no entry names as `content` keeps its data. */
  lemma {:induction false} SyncDataKeepsUnnamed(entries: seq<(string, Js)>, data: map<Mode, Js>, m: Mode)
    requires forall k :: 0 <= k < |entries| ==> SyncTarget(entries[k].0) != Some((m, ContentField))
    ensures m in SyncData(entries, data) <==> m in data
    ensures m in data ==> SyncData(entries, data)[m] == data[m]
    decreases |entries|
  {
    if entries != [] {
      SyncDataKeepsUnnamed(entries[..|entries| - 1], data, m);
    }
  }

  /** A module's data is the value of the last entry naming its `content`. */
  lemma {:induction false} SyncDataLastWins(entries: seq<(string, Js)>, data: map<Mode, Js>, m: Mode, i: nat)
    requires i < |entries| && SyncTarget(entries[i].0) == Some((m, ContentField))
    requires forall k :: i < k < |entries| ==> SyncTarget(entries[k].0) != Some((m, ContentField))
    ensures m in SyncData(entries, data) && SyncData(entries, data)[m] == entries[i].1
    decreases |entries|
  {
    if i < |entries| - 1 {
      var init := entries[..|entries| - 1];
      assert forall k :: i < k < |init| ==> init[k] == entries[k];
      SyncDataLastWins(init, data, m, i);
    }
  }

  /** A module's revisions are read from the last entry naming its
      `revisions`. */
  lemma {:induction false} SyncRevisionsLastWins(entries: seq<(string, Js)>, revs: map<Mode, seq<Revision>>, m: Mode, i: nat)
    requires i < |entries| && SyncTarget(entries[i].0) == Some((m, RevisionsField))
    requires forall k :: i < k < |entries| ==> SyncTarget(entries[k].0) != Some((m, RevisionsField))
    ensures m in SyncRevisions(entries, revs) && SyncRevisions(entries, revs)[m] == AsRevisions(entries[i].1)
    decreases |entries|
  {
    if i < |entries| - 1 {
      var init := entries[..|entries| - 1];
      assert forall k :: i < k < |init| ==> init[k] == entries[k];
      SyncRevisionsLastWins(init, revs, m, i);
    }
  }

  /** `updateRevisionsFromSync`: every dotted key naming a module's
      `revisions` or `content` overwrites that module's revisions or data.
      Keys naming no mode are not kept (see `SyncTarget`): the stray store
      fields the source writes for them are not part of the model. */
  method UpdateRevisionsFromSync(s: AppStore, entries: seq<(string, Js)>)
    modifies s`revisions, s`moduleData
    ensures s.revisions == SyncRevisions(entries, old(s.revisions))
    ensures s.moduleData == SyncData(entries, old(s.moduleData))
  {
    for i := 0 to |entries|
      invariant s.revisions == SyncRevisions(entries[..i], old(s.revisions))
      invariant s.moduleData == SyncData(entries[..i], old(s.moduleData))
    {
      SyncStep(entries, i, old(s.revisions), old(s.moduleData));
      var key := entries[i].0;
      var value := entries[i].1;
      if '.' in key {
        var t := SyncTarget(key);
        if t.Some? {
          if t.value.1 == RevisionsField {
            s.revisions := s.revisions[t.value.0 := AsRevisions(value)];
          } else {
            s.moduleData := s.moduleData[t.value.0 := value];
          }
        }
      }
    }
    assert entries[..|entries|] == entries;
  }

  /** One more sync entry updates the revisions or the data of the module
      it names, if any. */
  lemma SyncStep(entries: seq<(string, Js)>, i: nat, revs: map<Mode, seq<Revision>>, data: map<Mode, Js>)
    requires i < |entries|
    ensures SyncRevisions(entries[..i + 1], revs)
         == if SyncTarget(entries[i].0).Some? && SyncTarget(entries[i].0).value.1 == RevisionsField
            then SyncRevisions(entries[..i], revs)[SyncTarget(entries[i].0).value.0 := AsRevisions(entries[i].1)]
            else SyncRevisions(entries[..i], revs)
    ensures SyncData(entries[..i + 1], data)
         == if SyncTarget(entries[i].0).Some? && SyncTarget(entries[i].0).value.1 == ContentField
            then SyncData(entries[..i], data)[SyncTarget(entries[i].0).value.0 := entries[i].1]
            else SyncData(entries[..i], data)
  {
    assert entries[..i + 1][..i] == entries[..i] && entries[..i + 1][i] == entries[i];
  }
}
