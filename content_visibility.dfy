/** Whether a project module has content worth showing: a revision wrapper
    is first unwrapped, a string counts when it is not blank, and each
    module's data counts when its own list is non-empty. */
module ContentVisibility {
  import opened Common
  import opened JsValue

  /** The data checked: an object without `nodes` gives its non-null
      `content`, else the `data` of its first revision when it has some;
      a first revision that is `null` or `undefined` throws. */
  function ActiveData(data: Js): (r: Result<Js>)
    ensures r.Thrown? <==>
      data.Obj? && !Has(data, "nodes") && !(Has(data, "content") && !Get(data, "content").Null?)
      && Has(data, "revisions") && NonEmptyArray(Get(data, "revisions")) && Nullish(Get(data, "revisions").items[0])
  {
    if data.Obj? && !Has(data, "nodes") then
      if Has(data, "content") && !Get(data, "content").Null? then Ok(Get(data, "content"))
      else if Has(data, "revisions") && NonEmptyArray(Get(data, "revisions")) then
        var first := Get(data, "revisions").items[0];
        if Nullish(first) then Thrown else Ok(Get(first, "data"))
      else Ok(data)
    else Ok(data)
  }

  predicate NonEmptyArray(v: Js)
  {
    v.Arr? && |v.items| > 0
  }

  /** The module check on unwrapped, truthy, non-string data, by lower-cased mode. */
  predicate ModuleHasContent(mode: string, active: Js)
  {
    if mode == "summary" then Truthy(Get(active, "summary")) || NonEmptyList(Get(active, "keyPoints"))
    else if mode == "notes" then NonEmptyList(Get(active, "notes")) || NonEmptyList(Get(active, "blocks"))
    else if mode == "insights" then NonEmptyList(Get(active, "insights")) || NonEmptyList(Get(active, "blocks"))
    else if mode == "flashcards" then NonEmptyList(Get(active, "flashcards"))
    else if mode == "quiz" then NonEmptyList(Get(active, "quiz"))
    else if mode == "mindmap" then NonEmptyList(Get(active, "nodes"))
    else true
  }

  /** `hasProjectContent(mode, data)`, or Thrown when unwrapping reads a
      property of a `null` or `undefined` first revision. */
  function HasProjectContent(mode: string, data: Js): (r: Result<bool>)
    ensures !Truthy(data) ==> r == Ok(false)
    ensures Truthy(data) ==> (r.Thrown? <==> ActiveData(data).Thrown?)
    ensures Truthy(data) && ActiveData(data).Ok? && ActiveData(data).value.Str? ==>
      r == Ok(!IsBlank(ActiveData(data).value.s))
    ensures Truthy(data) && ActiveData(data).Ok? && Truthy(ActiveData(data).value) && !ActiveData(data).value.Str? ==>
      r == Ok(ModuleHasContent(Lower(mode), ActiveData(data).value))
    ensures Truthy(data) && ActiveData(data).Ok? && !Truthy(ActiveData(data).value) ==> r == Ok(false)
  {
    if !Truthy(data) then Ok(false)
    else
      match ActiveData(data)
      case Thrown => Thrown
      case Ok(active) =>
        if !Truthy(active) then Ok(false)
        else if active.Str? then
          TrimEmptyIffBlank(active.s);
          Ok(|Trim(active.s)| > 0)
        else Ok(ModuleHasContent(Lower(mode), active))
  }

  /** A revision wrapper whose first revision is `null` throws, whatever the mode. */
  lemma NullRevisionThrows(mode: string)
    ensures HasProjectContent(mode, Obj([("revisions", Arr([Null]))])).Thrown?
  {
    var data := Obj([("revisions", Arr([Null]))]);
    assert Has(data, "revisions") && !Has(data, "nodes") && !Has(data, "content");
  }

  /** The mode is matched whatever its letter case. */
  lemma {:induction false} ModeIgnoresCase(mode: string, other: string, data: Js)
    requires Lower(mode) == Lower(other)
    ensures HasProjectContent(mode, data) == HasProjectContent(other, data)
  {
  }

  /** `toLowerCase` twice is `toLowerCase` once. */
  lemma LowerTwice(s: string)
    ensures Lower(Lower(s)) == Lower(s)
  {
    forall i | 0 <= i < |s| ensures Lower(Lower(s))[i] == Lower(s)[i] {
      var c := s[i];
      if IsUpper(c) {
        assert !IsUpper(LowerChar(c));
      }
    }
  }

  /** A mode already in lower case checks the same as any spelling of it. */
  lemma LowerModeSame(mode: string, data: Js)
    ensures HasProjectContent(Lower(mode), data) == HasProjectContent(mode, data)
  {
    LowerTwice(mode);
  }

  /** A summary counts when it has a summary text or some key points. */
  lemma SummaryContent(data: Js)
    requires data.Obj? && !Has(data, "content") && !Has(data, "revisions") && !Has(data, "nodes")
    ensures HasProjectContent("summary", data)
            == Ok(Truthy(Get(data, "summary")) || NonEmptyList(Get(data, "keyPoints")))
  {
    assert Lower("summary") == "summary";
  }

  /** A wrapper is judged by its content: wrapping data that is no wrapper
      itself in `{content: …}` changes nothing. */
  lemma WrapperJudgedByContent(mode: string, data: Js)
    requires data.Obj? && !Has(data, "nodes") && Has(data, "content")
    requires var c := Get(data, "content"); !c.Null? && ActiveData(c) == Ok(c)
    ensures HasProjectContent(mode, data) == HasProjectContent(mode, Get(data, "content"))
  {
  }

  /** A mode without its own rule shows any truthy non-string data. */
  lemma UnknownModeShows(mode: string, data: Js)
    requires Lower(mode) !in {"summary", "notes", "insights", "flashcards", "quiz", "mindmap"}
    requires ActiveData(data).Ok? && Truthy(ActiveData(data).value) && !ActiveData(data).value.Str? && Truthy(data)
    ensures HasProjectContent(mode, data) == Ok(true)
  {
  }
}
