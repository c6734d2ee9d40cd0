/** The template sidebar: the search filter over the template list, and
    the rule that the list is fetched only when the store holds none. */
module LeftSidebar {
  import opened Common

  datatype Template = Template(name: string, description: string)

  /** The name or the description contains the term, ignoring case. */
  predicate Matches(t: Template, term: string)
  {
    Contains(Lower(t.name), Lower(term)) || Contains(Lower(t.description), Lower(term))
  }

  /** `r` is `s` with some elements left out, the rest in order. */
  ghost predicate IsSubsequence<T>(r: seq<T>, s: seq<T>)
    decreases |s|
  {
    if s == [] then r == []
    else (r != [] && r[0] == s[0] && IsSubsequence(r[1..], s[1..])) || IsSubsequence(r, s[1..])
  }

  /** `templates.filter(t => matches)` */
  function KeepMatching(templates: seq<Template>, term: string): (r: seq<Template>)
    ensures IsSubsequence(r, templates)
    ensures forall t :: t in r ==> t in templates && Matches(t, term)
    ensures forall t :: t in templates && Matches(t, term) ==> t in r
  {
    if templates == [] then []
    else
      var rest := KeepMatching(templates[1..], term);
      if Matches(templates[0], term) then [templates[0]] + rest
      else rest
  }

  /** The templates shown for a search term: all of them for an empty term,
      else those whose name or description contains it, in list order. */
  function Filtered(templates: seq<Template>, searchTerm: string): (r: seq<Template>)
    ensures searchTerm == "" ==> r == templates
    ensures IsSubsequence(r, templates)
    ensures searchTerm != "" ==> forall t :: t in r <==> t in templates && Matches(t, searchTerm)
  {
    if searchTerm == "" then
      SubsequenceRefl(templates);
      templates
    else KeepMatching(templates, searchTerm)
  }

  lemma {:induction false} SubsequenceRefl<T>(s: seq<T>)
    ensures IsSubsequence(s, s)
  {
    if s != [] {
      SubsequenceRefl(s[1..]);
    }
  }

  /** An empty term matches every template, so filtering with one would
      also keep them all. */
  lemma EmptyTermMatchesAll(t: Template)
    ensures Matches(t, "")
  {
    assert OccursAt(Lower(t.name), Lower(""), 0);
  }

  /** What the mount effect does: whether it fetches, and the templates
      then held by the store and shown. `fetched` is what the request gave
      (None: it failed, and nothing is set). */
  datatype Loaded = Loaded(fetches: bool, stored: seq<Template>, shown: Option<seq<Template>>)

  function OnMount(stored: seq<Template>, fetched: Option<seq<Template>>): (r: Loaded)
    ensures r.fetches <==> stored == []
    ensures stored != [] ==> r.stored == stored && r.shown == Some(stored)
    ensures stored == [] && fetched.Some? ==> r.stored == fetched.value && r.shown == fetched
    ensures stored == [] && fetched.None? ==> r.stored == stored && r.shown.None?
  {
    if |stored| > 0 then Loaded(false, stored, Some(stored))
    else if fetched.Some? then Loaded(true, fetched.value, fetched)
    else Loaded(true, stored, None)
  }
}
