/** The mode switcher: four visible mode buttons and a dropdown with the
    other four. Choosing a hidden mode swaps it with the fourth visible one,
    so the two lists always split the eight modes between them. */
module ModeSwitcher {
  import opened Common
  import opened StoreState

  /** An entry of `ALL_MODES`: its id is the mode's name. */
  type ModeEntry = Mode

  /** The button text of each entry. */
  function Title(m: ModeEntry): string
  {
    match m
    case Editor => "Editor"
    case Chat => "Chat"
    case Notes => "Notes"
    case Quiz => "Quiz"
    case Summary => "Summary"
    case Mindmap => "Mind Map"
    case Insights => "Insights"
    case Flashcards => "Flashcards"
    case Slides => "Slides"
  }

  const AllModes: seq<ModeEntry> := InitialVisible + InitialHidden

  /** `ALL_MODES.slice(0, 4)`: the modes shown at first. */
  const InitialVisible: seq<ModeEntry> := [Editor, Chat, Notes, Quiz]

  /** `ALL_MODES.slice(4)`: the modes in the dropdown at first. */
  const InitialHidden: seq<ModeEntry> := [Summary, Mindmap, Insights, Flashcards]

  /** No two entries share an id. */
  predicate DistinctIds(s: seq<ModeEntry>)
  {
    forall i, j :: 0 <= i < j < |s| ==> ModeName(s[i]) != ModeName(s[j])
  }

  /** Entries with distinct modes have distinct ids. */
  lemma {:induction false} DistinctModesDistinctIds(s: seq<ModeEntry>)
    requires forall i, j :: 0 <= i < j < |s| ==> s[i] != s[j]
    ensures DistinctIds(s)
  {
    forall i, j | 0 <= i < j < |s|
      ensures ModeName(s[i]) != ModeName(s[j])
    {
      ModeNamedInverse(s[i]);
      ModeNamedInverse(s[j]);
    }
  }

  /** `hidden.findIndex(m => m.id === id)`, as an Option. */
  function IndexOfId(s: seq<ModeEntry>, id: string): (r: Option<nat>)
    ensures r.Some? ==> r.value < |s| && ModeName(s[r.value]) == id
                        && forall i :: 0 <= i < r.value ==> ModeName(s[i]) != id
    ensures r.None? ==> forall i :: 0 <= i < |s| ==> ModeName(s[i]) != id
  {
    if s == [] then None
    else if ModeName(s[0]) == id then Some(0)
    else
      var rest := IndexOfId(s[1..], id);
      if rest.None? then None else Some(rest.value + 1)
  }

  /** The lists after clicking `id`: a hidden mode trades places with the
      fourth visible one; anything else leaves both lists as they are. */
  function SwapIn(visible: seq<ModeEntry>, hidden: seq<ModeEntry>, id: string): (r: (seq<ModeEntry>, seq<ModeEntry>))
    requires |visible| == 4
    ensures |r.0| == 4 && |r.1| == |hidden|
    ensures r.0[..3] == visible[..3]
    ensures multiset(r.0 + r.1) == multiset(visible + hidden)
    ensures IndexOfId(hidden, id).None? ==> r == (visible, hidden)
    ensures IndexOfId(hidden, id).Some? ==>
      var j := IndexOfId(hidden, id).value;
      r.0[3] == hidden[j] && r.1[j] == visible[3]
      && forall k :: 0 <= k < |hidden| && k != j ==> r.1[k] == hidden[k]
  {
    var found := IndexOfId(hidden, id);
    if found.None? then (visible, hidden)
    else
      var j := found.value;
      SwapKeepsElements(visible, hidden, 3, j);
      (visible[3 := hidden[j]], hidden[j := visible[3]])
  }

  /** Trading an element of one list for one of the other keeps the
      elements of both together. */
  lemma SwapKeepsElements<T>(v: seq<T>, h: seq<T>, i: nat, j: nat)
    requires i < |v| && j < |h|
    ensures multiset(v[i := h[j]] + h[j := v[i]]) == multiset(v + h)
  {
    assert v + h == v[..i] + [v[i]] + v[i + 1..] + h[..j] + [h[j]] + h[j + 1..];
    assert v[i := h[j]] + h[j := v[i]] == v[..i] + [h[j]] + v[i + 1..] + h[..j] + [v[i]] + h[j + 1..];
  }

  /** With distinct ids, clicking the mode that was just swapped out swaps it
      back: the two lists are restored. */
  lemma {:induction false} SwapBackRestores(visible: seq<ModeEntry>, hidden: seq<ModeEntry>, id: string)
    requires |visible| == 4 && DistinctIds(visible + hidden)
    requires IndexOfId(hidden, id).Some?
    ensures var r := SwapIn(visible, hidden, id); SwapIn(r.0, r.1, ModeName(visible[3])) == (visible, hidden)
  {
    var j := IndexOfId(hidden, id).value;
    var r := SwapIn(visible, hidden, id);
    forall k | 0 <= k < |r.1| && k != j
      ensures ModeName(r.1[k]) != ModeName(visible[3])
    {
      assert r.1[k] == hidden[k];
      assert (visible + hidden)[3] == visible[3] && (visible + hidden)[4 + k] == hidden[k];
    }
    IndexOfUnique(r.1, ModeName(visible[3]), j);
    assert r.0[3 := r.1[j]] == visible by {
      assert forall k :: 0 <= k < 3 ==> r.0[k] == r.0[..3][k] == visible[..3][k];
    }
    assert r.1[j := r.0[3]] == hidden;
  }

  /** The only entry with a given id is the one found. */
  lemma IndexOfUnique(s: seq<ModeEntry>, id: string, j: nat)
    requires j < |s| && ModeName(s[j]) == id
    requires forall k :: 0 <= k < |s| && k != j ==> ModeName(s[k]) != id
    ensures IndexOfId(s, id) == Some(j)
  {
  }

  /** The initial lists are the first four modes and the other four. */
  lemma InitialSplit()
    ensures AllModes[..4] == InitialVisible && AllModes[4..] == InitialHidden
  {
    assert |InitialVisible| == 4;
  }

  class Switcher {
    var visibleModes: seq<ModeEntry>
    var hiddenModes: seq<ModeEntry>
    var isDropdownOpen: bool

    /** Four visible, four hidden, together the eight modes. */
    ghost predicate Valid()
      reads this
    {
      |visibleModes| == 4 && |hiddenModes| == 4
      && multiset(visibleModes + hiddenModes) == multiset(AllModes)
    }

    /** The first four modes shown, the last four in the dropdown. */
    constructor ()
      ensures Valid() && !isDropdownOpen
      ensures visibleModes == InitialVisible && hiddenModes == InitialHidden
    {
      visibleModes := InitialVisible;
      hiddenModes := InitialHidden;
      isDropdownOpen := false;
    }

    /** `handleModeClick(id)`: the parent is told (the returned id), the
        dropdown closes, and a hidden mode is swapped into the fourth slot. */
    method HandleModeClick(id: string) returns (notified: string)
      requires Valid()
      modifies this
      ensures Valid() && notified == id && !isDropdownOpen
      ensures (visibleModes, hiddenModes) == SwapIn(old(visibleModes), old(hiddenModes), id)
      ensures visibleModes[..3] == old(visibleModes)[..3]
    {
      var r := SwapIn(visibleModes, hiddenModes, id);
      assert |r.1| == 4 && multiset(r.0 + r.1) == multiset(AllModes);
      notified := id;
      isDropdownOpen := false;
      visibleModes, hiddenModes := r.0, r.1;
    }
  }
}
