/** The summary view: the plain text it copies (every HTML tag removed),
    the HTML it shows (a summary with a tag as it is, anything else rendered
    as Markdown), and the edit handlers for the summary text and its key
    points. */
module SummaryView {
  import opened Common
  import opened JsValue
  import opened ListEdit

  // The key-point handlers below give `Throws` for a key-point list that is
  // not an array. On a string the handlers would spread it instead, but the
  // view maps over the key points while rendering and that throws first.

  /** The point `addKeyPoint` appends. */
  const NewKeyPoint: Js := Str("New key point...")

  /** The position of the first `c` in `s`. */
  function FirstIndex(s: string, c: char): (k: nat)
    requires c in s
    ensures k < |s| && s[k] == c && c !in s[..k]
  {
    if s[0] == c then 0 else FirstIndex(s[1..], c) + 1
  }

  /** No `<` is followed, anywhere later, by a `>`: the text holds no
      complete tag. */
  predicate NoTag(s: string)
  {
    forall i, j :: 0 <= i < j < |s| && s[i] == '<' ==> s[j] != '>'
  }

  /** `s.replace(/<[^>]*>/g, '')`: from each `<` up to the next `>` is
      removed; a `<` with no `>` after it stays. */
  function StripTags(s: string): (r: string)
    ensures forall c :: c in r ==> c in s
    ensures NoTag(r)
    ensures '<' !in s ==> r == s
    decreases |s|
  {
    if s == [] then []
    else if s[0] == '<' && '>' in s[1..] then
      var k := FirstIndex(s[1..], '>');
      StripTags(s[k + 2..])
    else
      var rest := StripTags(s[1..]);
      assert s[0] == '<' ==> '>' !in rest;
      [s[0]] + rest
  }

  /** A text without a complete tag is left as it is. */
  lemma {:induction false} NoTagUnchanged(t: string)
    requires NoTag(t)
    ensures StripTags(t) == t
    decreases |t|
  {
    if t != [] {
      NoTagUnchanged(t[1..]);
    }
  }

  /** Copying twice strips nothing more. */
  lemma StripTagsIdempotent(s: string)
    ensures StripTags(StripTags(s)) == StripTags(s)
  {
    NoTagUnchanged(StripTags(s));
  }

  /** `handleCopy()`: nothing without a summary; otherwise the summary's
      text with every tag removed. */
  function CopyText(summary: Js): (r: Option<string>)
    requires Truthy(summary) ==> summary.Str?
    ensures r.None? <==> !Truthy(summary)
    ensures r.Some? ==> NoTag(r.value) && ('<' !in summary.s ==> r.value == summary.s)
  {
    if !Truthy(summary) then None else Some(StripTags(summary.s))
  }

  /** `/<[a-z][\s\S]*>/i.test(s)`: a `<`, a letter, then a `>` later on. */
  predicate LooksLikeHtml(s: string)
  {
    exists i, j :: 0 <= i && i + 1 < j < |s| && s[i] == '<' && IsLetter(s[i + 1]) && s[j] == '>'
  }

  /** Text that looks like HTML always has a tag to strip. */
  lemma HtmlHasTag(s: string)
    requires LooksLikeHtml(s)
    ensures !NoTag(s)
  {
    var i, j :| 0 <= i && i + 1 < j < |s| && s[i] == '<' && IsLetter(s[i + 1]) && s[j] == '>';
    assert s[i] == '<' && s[j] == '>';
  }

  /** `getSummaryHtml()`: `''` without a summary; an HTML-looking summary
      unchanged; anything else through the Markdown renderer `markdown`. */
  function SummaryHtml(summary: Js, markdown: string -> string): (r: string)
    requires Truthy(summary) ==> summary.Str?
    ensures !Truthy(summary) ==> r == ""
    ensures Truthy(summary) && LooksLikeHtml(summary.s) ==> r == summary.s
    ensures Truthy(summary) && !LooksLikeHtml(summary.s) ==> r == markdown(summary.s)
  {
    if !Truthy(summary) then "" else if LooksLikeHtml(summary.s) then summary.s else markdown(summary.s)
  }

  /** `{...summaryData, keyPoints}` */
  function WithKeyPoints(data: Js, points: seq<Js>): (r: Js)
    ensures Get(r, "keyPoints") == Arr(points)
    ensures data.Obj? ==> forall k :: k != "keyPoints" ==> Get(r, k) == Get(data, k)
  {
    With(data, "keyPoints", Arr(points))
  }

  /** `handleSummaryChange(html)`: the summary text replaced, the rest kept. */
  function SummaryChange(data: Js, html: string): (r: Edit)
    ensures r.Unchanged? <==> !Truthy(data)
    ensures r.Written? ==>
      Get(r.data, "summary") == Str(html)
      && (data.Obj? ==> forall k :: k != "summary" ==> Get(r.data, k) == Get(data, k))
  {
    if !Truthy(data) then Unchanged else Written(With(data, "summary", Str(html)))
  }

  /** `handleKeyPointChange(index)`: only key point `i` changes. */
  function KeyPointChange(data: Js, i: nat, text: string): (r: Edit)
    requires Truthy(data) && Get(data, "keyPoints").Arr? ==> i < |Get(data, "keyPoints").items|
    ensures r.Unchanged? <==> !Truthy(data)
    ensures r.Throws? <==> Truthy(data) && !Get(data, "keyPoints").Arr?
    ensures r.Written? ==>
      var before, after := Get(data, "keyPoints").items, Get(r.data, "keyPoints");
      after.Arr? && |after.items| == |before| && after.items[i] == Str(text)
      && (forall j :: 0 <= j < |before| && j != i ==> after.items[j] == before[j])
      && (data.Obj? ==> forall k :: k != "keyPoints" ==> Get(r.data, k) == Get(data, k))
  {
    if !Truthy(data) then Unchanged
    else
      var points := Get(data, "keyPoints");
      if !points.Arr? then Throws else Written(WithKeyPoints(data, points.items[i := Str(text)]))
  }

  /** `addKeyPoint()`: the default point appended. */
  function AddKeyPoint(data: Js): (r: Edit)
    ensures r.Unchanged? <==> !Truthy(data)
    ensures r.Throws? <==> Truthy(data) && !Get(data, "keyPoints").Arr?
    ensures r.Written? ==>
      Get(r.data, "keyPoints") == Arr(Get(data, "keyPoints").items + [NewKeyPoint])
      && (data.Obj? ==> forall k :: k != "keyPoints" ==> Get(r.data, k) == Get(data, k))
  {
    if !Truthy(data) then Unchanged
    else
      var points := Get(data, "keyPoints");
      if !points.Arr? then Throws else Written(WithKeyPoints(data, points.items + [NewKeyPoint]))
  }

  /** `deleteKeyPoint(index)`: key point `i` removed, the rest in order. */
  function DeleteKeyPoint(data: Js, i: int): (r: Edit)
    ensures r.Unchanged? <==> !Truthy(data)
    ensures r.Throws? <==> Truthy(data) && !Get(data, "keyPoints").Arr?
    ensures r.Written? ==>
      Get(r.data, "keyPoints") == Arr(RemoveAt(Get(data, "keyPoints").items, i))
      && (data.Obj? ==> forall k :: k != "keyPoints" ==> Get(r.data, k) == Get(data, k))
  {
    if !Truthy(data) then Unchanged
    else
      var points := Get(data, "keyPoints");
      if !points.Arr? then Throws else Written(WithKeyPoints(data, RemoveAt(points.items, i)))
  }
}
