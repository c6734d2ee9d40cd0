/** The insights view's edit handlers: a title or description replaced in
    place, a default insight appended, an insight deleted. The list is the
    insights data itself when it is an array, else its `insights` field. */
module InsightsView {
  import opened Common
  import opened JsValue
  import opened ListEdit

  /** The insight `addInsight` appends. */
  const NewInsight: Js := Obj([("title", Str("New Insight Title")), ("description", Str("New insight description..."))])

  /** The two editable fields of an insight. */
  datatype InsightField = Title | Description

  function FieldName(f: InsightField): (r: string)
    ensures r in {"title", "description"}
  {
    match f
    case Title => "title"
    case Description => "description"
  }

  /** `handleContentChange(index, field)`: that field of insight `i` gets the
      edited text; the other field, the other insights and the wrapper's
      other fields are kept. */
  function ContentChange(data: Js, i: nat, f: InsightField, text: string): (r: Edit)
    requires InRange(data, "insights", i)
    ensures r.Unchanged? <==> !Truthy(data)
    ensures r.Throws? <==> Truthy(data) && !WorkingList(data, "insights").Arr?
    ensures r.Written? ==> WorkingList(r.data, "insights").Arr?
    ensures r.Written? ==>
      var before, after := WorkingList(data, "insights").items, WorkingList(r.data, "insights").items;
      SameShape(data, "insights", r.data) && |after| == |before|
      && Get(after[i], FieldName(f)) == Str(text)
      && (before[i].Obj? && f == Title ==> Get(after[i], "description") == Get(before[i], "description"))
      && (before[i].Obj? && f == Description ==> Get(after[i], "title") == Get(before[i], "title"))
      && (forall j :: 0 <= j < |before| && j != i ==> after[j] == before[j])
  {
    EditItemField(data, "insights", i, FieldName(f), text)
  }

  /** `addInsight()`: one default insight appended. */
  function AddInsight(data: Js): (r: Edit)
    ensures r.Unchanged? <==> !Truthy(data)
    ensures r.Throws? <==> Truthy(data) && !WorkingList(data, "insights").Arr?
    ensures r.Written? ==>
      SameShape(data, "insights", r.data) && WorkingList(r.data, "insights").Arr?
      && |WorkingList(r.data, "insights").items| == |WorkingList(data, "insights").items| + 1
      && Last(WorkingList(r.data, "insights").items) == NewInsight
  {
    AppendItem(data, "insights", NewInsight)
  }

  /** `deleteInsight(index)`: insight `i` removed, the others kept in order;
      an index past the end removes nothing. */
  function DeleteInsight(data: Js, i: int): (r: Edit)
    ensures r.Unchanged? <==> !Truthy(data)
    ensures r.Throws? <==> Truthy(data) && !WorkingList(data, "insights").Arr?
    ensures r.Written? ==>
      SameShape(data, "insights", r.data)
      && WorkingList(r.data, "insights") == Arr(RemoveAt(WorkingList(data, "insights").items, i))
  {
    DeleteItem(data, "insights", i)
  }

  function Last<T>(s: seq<T>): T
    requires s != []
  {
    s[|s| - 1]
  }
}
