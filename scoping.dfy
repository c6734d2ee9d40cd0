/** The text a generation request works on, resolved from a stored document
    and the scope the user picked: the whole document, chosen pages or
    chosen topics. The database lookup is left out: the document found is a
    parameter, and a missing one is the 404 error. */
module Scoping {
  import opened Common
  import opened JsValue

  /** A node of a page: `id` is `None` when absent, `text` is
      `node.content?.text || ''`. */
  datatype Node = Node(id: Option<string>, kind: string, text: string)

  /** A page; `p.nodes || []` gives `[]` for a page without nodes. */
  datatype Page = Page(nodes: seq<Node>)

  /** A detected topic and the ids of the nodes it covers. */
  datatype Topic = Topic(id: Js, nodes: seq<string>)

  /** The stored document: its plain text, the pages at `structure.pages`
      or at `structure.structure.pages`, and its topics. */
  datatype Document = Document(extractedText: string, pages: Option<seq<Page>>,
                               nestedPages: Option<seq<Page>>, topics: seq<Topic>)

  /** A request's scope: `type` and `value`. */
  datatype Scope = Scope(kind: string, value: Js)

  datatype Outcome = Text(text: string) | NotFound(status: nat)

  /** `structure?.pages || structure?.structure?.pages || []` */
  function PagesOf(d: Document): (r: seq<Page>)
    ensures d.pages.Some? ==> r == d.pages.value
    ensures d.pages.None? && d.nestedPages.Some? ==> r == d.nestedPages.value
    ensures d.pages.None? && d.nestedPages.None? ==> r == []
  {
    if d.pages.Some? then d.pages.value
    else if d.nestedPages.Some? then d.nestedPages.value
    else []
  }

  /** `formatContent(node)`: the text, tagged with a present non-empty id
      when ids are asked for. */
  function FormatContent(n: Node, includeIds: bool): (r: string)
    ensures includeIds && n.id.Some? && n.id.value != "" ==> r == "[[" + n.id.value + "]]: " + n.text
    ensures !(includeIds && n.id.Some? && n.id.value != "") ==> r == n.text
    ensures EndsWith(r, n.text)
  {
    if includeIds && n.id.Some? && n.id.value != "" then
      var r := "[[" + n.id.value + "]]: " + n.text;
      assert r[|r| - |n.text|..] == n.text;
      r
    else n.text
  }

  /** `pages.flatMap(p => p.nodes || [])` */
  function AllNodes(pages: seq<Page>): (r: seq<Node>)
    ensures forall n :: n in r <==> exists p :: p in pages && n in p.nodes
    decreases |pages|
  {
    if pages == [] then []
    else
      var last := pages[|pages| - 1];
      var r := AllNodes(pages[..|pages| - 1]) + last.nodes;
      assert forall p :: p in pages <==> p in pages[..|pages| - 1] || p == last by {
        assert pages == pages[..|pages| - 1] + [last];
      }
      r
  }

  /** `.filter(keep)` on nodes. */
  function FilterNodes(ns: seq<Node>, keep: Node -> bool): (r: seq<Node>)
    ensures forall n :: n in r <==> n in ns && keep(n)
    ensures |r| <= |ns|
    decreases |ns|
  {
    if ns == [] then []
    else
      var last := ns[|ns| - 1];
      assert ns == ns[..|ns| - 1] + [last];
      FilterNodes(ns[..|ns| - 1], keep) + (if keep(last) then [last] else [])
  }

  /** `.filter(n => n.type === 'text')` */
  function TextNodes(ns: seq<Node>): (r: seq<Node>)
    ensures forall n :: n in r <==> n in ns && n.kind == "text"
  {
    FilterNodes(ns, (n: Node) => n.kind == "text")
  }

  /** `.map(formatContent).join(sep)` */
  function Render(ns: seq<Node>, includeIds: bool, sep: string): string
  {
    Join(seq(|ns|, i requires 0 <= i < |ns| => FormatContent(ns[i], includeIds)), sep)
  }

  /** `Array.isArray(value) ? value : [value]` */
  function AsList(v: Js): (r: seq<Js>)
    ensures v.Arr? ==> r == v.items
    ensures !v.Arr? ==> r == [v]
  {
    if v.Arr? then v.items else [v]
  }

  /** `list.includes(v)`: arrays and objects are references and are never
      equal to a value built elsewhere. */
  predicate Includes(list: seq<Js>, v: Js)
  {
    !v.Arr? && !v.Obj? && v in list
  }

  /** The indices below `n` that `keep` accepts, in increasing order. */
  function KeptIndices(n: nat, keep: nat -> bool): (r: seq<nat>)
    ensures forall j :: 0 <= j < |r| ==> r[j] < n && keep(r[j])
    ensures forall i :: 0 <= i < n && keep(i) ==> i in r
    ensures forall j, k :: 0 <= j < k < |r| ==> r[j] < r[k]
    decreases n
  {
    if n == 0 then [] else KeptIndices(n - 1, keep) + (if keep(n - 1) then [n - 1] else [])
  }

  /** `pages.filter((p, i) => keep(i))` */
  function PickPages(pages: seq<Page>, keep: nat -> bool): (r: seq<Page>)
    ensures var idx := KeptIndices(|pages|, keep);
            |r| == |idx| && forall j :: 0 <= j < |r| ==> r[j] == pages[idx[j]]
  {
    var idx := KeptIndices(|pages|, keep);
    seq(|idx|, j requires 0 <= j < |idx| => pages[idx[j]])
  }

  /** `selectedPages.includes(i + 1)`: the page at index `i` is kept when
      its 1-based number is listed. */
  function ListedPage(selected: seq<Js>): nat -> bool
  {
    i => Includes(selected, Num((i + 1) as real))
  }

  /** The nodes the chosen topics cover: `new Set(selectedTopics.flatMap(t => t.nodes))`. */
  function TopicNodeIds(topics: seq<Topic>, selected: seq<Js>): (r: set<string>)
    ensures forall x :: x in r <==> exists t :: t in topics && Includes(selected, t.id) && x in t.nodes
    decreases |topics|
  {
    if topics == [] then {}
    else
      var last := topics[|topics| - 1];
      assert topics == topics[..|topics| - 1] + [last];
      TopicNodeIds(topics[..|topics| - 1], selected)
        + (if Includes(selected, last.id) then set x | x in last.nodes else {})
  }

  /** `nodeIds.has(n.id)` */
  function CoveredBy(ids: set<string>): Node -> bool
  {
    (n: Node) => n.id.Some? && n.id.value in ids
  }

  /** `resolveScopedText(fileId, scope, includeIds)` once the lookup has
      returned `doc` (`None`: no document, a 404 error). */
  function ResolveScopedText(doc: Option<Document>, scope: Option<Scope>, includeIds: bool): (r: Outcome)
    ensures doc.None? <==> r == NotFound(404)
    ensures doc.Some? && (scope.None? || scope.value.kind == "all") && !includeIds ==> r == Text(doc.value.extractedText)
    ensures doc.Some? && scope.Some? && scope.value.kind !in {"all", "pages", "topics"} ==> r == Text(doc.value.extractedText)
    ensures doc.Some? && scope.Some? && scope.value.kind == "topics" && AsList(scope.value.value) == [] ==> r == Text(doc.value.extractedText)
  {
    if doc.None? then NotFound(404)
    else
      var d := doc.value;
      var pages := PagesOf(d);
      if scope.None? || scope.value.kind == "all" then
        if !includeIds then Text(d.extractedText)
        else Text(Render(TextNodes(AllNodes(pages)), includeIds, "\n"))
      else if scope.value.kind == "pages" then
        var selected := AsList(scope.value.value);
        Text(Render(TextNodes(AllNodes(PickPages(pages, ListedPage(selected)))), includeIds, "\n"))
      else if scope.value.kind == "topics" then
        var selected := AsList(scope.value.value);
        if selected == [] then Text(d.extractedText)
        else
          var ids := TopicNodeIds(d.topics, selected);
          Text(Render(FilterNodes(TextNodes(AllNodes(pages)), CoveredBy(ids)), includeIds, " "))
      else Text(d.extractedText)
  }

  /** The text of the whole document with ids is every text node of every
      page, tagged, one per line. */
  lemma AllWithIds(d: Document, scope: Option<Scope>)
    requires scope.None? || scope.value.kind == "all"
    ensures ResolveScopedText(Some(d), scope, true)
            == Text(Render(TextNodes(AllNodes(PagesOf(d))), true, "\n"))
  {
  }

  /** The page scope keeps exactly the pages whose 1-based number is listed,
      in page order. */
  lemma ListedPagesKept(pages: seq<Page>, selected: seq<Js>, i: nat)
    requires i < |pages|
    ensures i in KeptIndices(|pages|, ListedPage(selected)) <==> Num((i + 1) as real) in selected
  {
    var keep := ListedPage(selected);
    var kept := KeptIndices(|pages|, keep);
    assert keep(i) <==> Num((i + 1) as real) in selected;
    if i in kept {
      var j :| 0 <= j < |kept| && kept[j] == i;
      assert keep(kept[j]);
    }
  }

  /** The topic scope keeps a text node exactly when a chosen topic covers
      its id. */
  lemma TopicNodeKept(d: Document, selected: seq<Js>, n: Node)
    requires n in AllNodes(PagesOf(d)) && n.kind == "text"
    ensures n in FilterNodes(TextNodes(AllNodes(PagesOf(d))), CoveredBy(TopicNodeIds(d.topics, selected)))
            <==> n.id.Some? && exists t :: t in d.topics && Includes(selected, t.id) && n.id.value in t.nodes
  {
  }

  // ------------------------------------------------------------ page ranges

  /** The scope the page-range selector sends, `[start, end]`, keeps only
      those two pages: a page strictly between them is not kept. */
  lemma PagePairSkipsMiddle(pages: seq<Page>, start: nat, end: nat, m: nat)
    requires 1 <= start < m < end <= |pages|
    ensures start - 1 in KeptIndices(|pages|, ListedPage([Num(start as real), Num(end as real)]))
    ensures end - 1 in KeptIndices(|pages|, ListedPage([Num(start as real), Num(end as real)]))
    ensures m - 1 !in KeptIndices(|pages|, ListedPage([Num(start as real), Num(end as real)]))
  {
    var keep := ListedPage([Num(start as real), Num(end as real)]);
    assert keep(start - 1) && keep(end - 1);
    assert !keep(m - 1);
  }

  /** The page at index `i` is in the range the selector shows. */
  function InRange(selected: seq<Js>): nat -> bool
  {
    i =>
      if |selected| == 2 && selected[0].Num? && selected[1].Num?
      then selected[0].n <= (i + 1) as real <= selected[1].n
      else Includes(selected, Num((i + 1) as real))
  }

  /** The page scope read as the range the selector offers: a `[start, end]`
      pair keeps every page from `start` to `end`; other lists keep the
      pages they name. */
  function ResolvePagesRanged(d: Document, selected: seq<Js>, includeIds: bool): string
  {
    Render(TextNodes(AllNodes(PickPages(PagesOf(d), InRange(selected)))), includeIds, "\n")
  }

  /** Read as a range, `[start, end]` keeps exactly the pages numbered
      `start` to `end`. */
  lemma RangedPagesKept(pages: seq<Page>, start: nat, end: nat, i: nat)
    requires i < |pages|
    ensures i in KeptIndices(|pages|, InRange([Num(start as real), Num(end as real)])) <==> start <= i + 1 <= end
  {
  }
}
