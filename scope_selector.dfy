/** The generation-scope selector of the dashboard: the page-range state
    that follows the document's page count, the three scope buttons, the two
    range handles, and the topic toggle. Each handler builds a new scope
    value and hands it to `setGenerationScope`. */
module ScopeSelector {
  import opened Common
  import opened StoreState

  /** The local `pageRange` state. */
  datatype PageRange = PageRange(start: int, end: int)

  /** `stats.pageCount || 1`: a page count of 0 counts as one page. */
  function LastPage(pageCount: int): (r: int)
    ensures r != 0
    ensures pageCount != 0 ==> r == pageCount
    ensures pageCount == 0 ==> r == 1
  {
    if pageCount == 0 then 1 else pageCount
  }

  /** The range set on mount and whenever the page count changes: the whole
      document. */
  function InitialRange(pageCount: int): (r: PageRange)
    ensures r.start == 1 && r.end == LastPage(pageCount)
    ensures pageCount >= 1 ==> r.start <= r.end
  {
    PageRange(1, LastPage(pageCount))
  }

  /** `handleTypeChange(type)`: 'all' has no value, 'pages' carries the
      current range, 'topics' starts with no topic selected. */
  function TypeChange(kind: ScopeKind, range: PageRange): (r: Scope)
    ensures r.kind == kind
    ensures kind == AllScope <==> r.value == NoValue
    ensures kind == PagesScope <==> r.value == PagePair(range.start, range.end)
    ensures kind == TopicsScope <==> r.value == TopicIds([])
  {
    match kind
    case AllScope => Scope(AllScope, NoValue)
    case PagesScope => Scope(PagesScope, PagePair(range.start, range.end))
    case TopicsScope => Scope(TopicsScope, TopicIds([]))
  }

  /** `handlePageChange(start, end)`: the local range and the scope both
      become the new pair. */
  function PageChange(start: int, end: int): (r: (PageRange, Scope))
    ensures r.0.start == start && r.0.end == end
    ensures r.1.kind == PagesScope && r.1.value == PagePair(r.0.start, r.0.end)
  {
    (PageRange(start, end), Scope(PagesScope, PagePair(start, end)))
  }

  /** The value a range input reports: the browser keeps it within the
      input's `min` of 1 and `max` of `stats.pageCount || 1`. */
  function SliderValue(v: int, pageCount: int): (r: int)
    requires LastPage(pageCount) >= 1
    ensures 1 <= r <= LastPage(pageCount)
    ensures 1 <= v <= LastPage(pageCount) ==> r == v
  {
    if v < 1 then 1 else if v > LastPage(pageCount) then LastPage(pageCount) else v
  }

  /** The start handle moved to `v`: the end is pushed up to `v` when it
      would fall below it. */
  function MoveStart(range: PageRange, v: int, pageCount: int): (r: (PageRange, Scope))
    requires LastPage(pageCount) >= 1
    ensures 1 <= r.0.start <= r.0.end
    ensures r.0.start == SliderValue(v, pageCount)
    ensures r.0.end == if range.end < r.0.start then r.0.start else range.end
    ensures range.end <= LastPage(pageCount) ==> r.0.end <= LastPage(pageCount)
    ensures r.1 == Scope(PagesScope, PagePair(r.0.start, r.0.end))
  {
    var s := SliderValue(v, pageCount);
    PageChange(s, Max(s, range.end))
  }

  /** The end handle moved to `v`: the start is pulled down to `v` when it
      would rise above it. */
  function MoveEnd(range: PageRange, v: int, pageCount: int): (r: (PageRange, Scope))
    requires LastPage(pageCount) >= 1
    ensures r.0.start <= r.0.end <= LastPage(pageCount)
    ensures r.0.end == SliderValue(v, pageCount)
    ensures r.0.start == if range.start > r.0.end then r.0.end else range.start
    ensures range.start >= 1 ==> r.0.start >= 1
    ensures r.1 == Scope(PagesScope, PagePair(r.0.start, r.0.end))
  {
    var e := SliderValue(v, pageCount);
    PageChange(Min(e, range.start), e)
  }

  /** The topics a `toggleTopic` starts from: the selection when the scope
      is a topic scope, else none. */
  function SelectedTopics(scope: Scope): (r: seq<string>)
    ensures scope.kind != TopicsScope ==> r == []
    ensures scope.kind == TopicsScope && scope.value.TopicIds? ==> r == scope.value.ids
  {
    if scope.kind == TopicsScope && scope.value.TopicIds? then scope.value.ids else []
  }

  /** `toggleTopic(topicId)`: the result is always a topic scope in which
      `topicId` changed membership and every other topic kept it. */
  function ToggleTopic(scope: Scope, topicId: string): (r: Scope)
    ensures r.kind == TopicsScope && r.value.TopicIds?
    ensures topicId in r.value.ids <==> topicId !in SelectedTopics(scope)
    ensures forall t :: t != topicId ==> (t in r.value.ids <==> t in SelectedTopics(scope))
  {
    Scope(TopicsScope, TopicIds(Toggle(SelectedTopics(scope), topicId)))
  }

  /** A toggle from any scope other than a topic scope selects exactly the
      one topic. */
  lemma ToggleFromOtherScope(scope: Scope, topicId: string)
    requires scope.kind != TopicsScope
    ensures ToggleTopic(scope, topicId) == Scope(TopicsScope, TopicIds([topicId]))
  {
    assert SelectedTopics(scope) + [topicId] == [topicId];
  }

  /** Toggling a topic twice restores the selection: membership always, and
      the list itself when the topic was not selected. */
  lemma ToggleTopicTwice(scope: Scope, topicId: string)
    requires scope.kind == TopicsScope && scope.value.TopicIds?
    ensures forall t :: t in ToggleTopic(ToggleTopic(scope, topicId), topicId).value.ids <==> t in scope.value.ids
    ensures topicId !in scope.value.ids ==> ToggleTopic(ToggleTopic(scope, topicId), topicId) == scope
  {
    ToggleTwice(scope.value.ids, topicId);
  }
}
