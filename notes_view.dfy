/** The notes view's edit handlers: section titles, points within a
    section, and adding or deleting sections and points. The list is the
    notes data itself when it is an array, else its `notes` field. */
module NotesView {
  import opened Common
  import opened JsValue
  import opened ListEdit

  /** The section `addSection` appends. */
  const NewSection: Js := Obj([("section", Str("New Section")), ("points", Arr([Str("New insights here...")]))])

  /** The point `addPoint` appends. */
  const NewPoint: Js := Str("New point...")

  /** The sections the view renders. */
  function Sections(data: Js): Js
  {
    WorkingList(data, "notes")
  }

  /** Section `i` is rendered, so the handlers may index it. */
  predicate SectionShown(data: Js, i: nat)
  {
    Truthy(data) && Sections(data).Arr? ==> i < |Sections(data).items|
  }

  /** The points of section `i`. */
  function PointsOf(data: Js, i: nat): Js
    requires Sections(data).Arr? && i < |Sections(data).items|
  {
    Get(Sections(data).items[i], "points")
  }

  /** `{...sections[i], points}` written back. */
  function WithPoints(data: Js, i: nat, points: seq<Js>): (r: Js)
    requires Sections(data).Arr? && i < |Sections(data).items|
    ensures SameShape(data, "notes", r) && Sections(r).Arr?
    ensures |Sections(r).items| == |Sections(data).items|
    ensures PointsOf(r, i) == Arr(points)
    ensures Sections(data).items[i].Obj? ==>
      forall k :: k != "points" ==> Get(Sections(r).items[i], k) == Get(Sections(data).items[i], k)
    ensures forall j :: 0 <= j < |Sections(data).items| && j != i ==> Sections(r).items[j] == Sections(data).items[j]
  {
    var list := Sections(data).items;
    WriteBack(data, "notes", list[i := With(list[i], "points", Arr(points))])
  }

  /** What every point handler does with section `i`: nothing without data;
      a TypeError when the list or the section's points are not arrays;
      otherwise only the points of section `i` change, and the data keeps its
      shape. */
  ghost predicate PointEditShape(data: Js, i: nat, r: Edit)
    requires SectionShown(data, i)
  {
    (r.Unchanged? <==> !Truthy(data))
    && (r.Throws? <==> Truthy(data) && (!Sections(data).Arr? || !PointsOf(data, i).Arr?))
    && (r.Written? ==>
          SameShape(data, "notes", r.data) && Sections(r.data).Arr?
          && |Sections(r.data).items| == |Sections(data).items|
          && PointsOf(r.data, i).Arr?
          && (Sections(data).items[i].Obj? ==>
                forall k :: k != "points" ==> Get(Sections(r.data).items[i], k) == Get(Sections(data).items[i], k))
          && forall j :: 0 <= j < |Sections(data).items| && j != i ==> Sections(r.data).items[j] == Sections(data).items[j])
  }

  /** `handleSectionTitleChange(e, section)`: the title of section `i`
      becomes the edited text; its points and the other sections are kept. */
  function SectionTitleChange(data: Js, i: nat, text: string): (r: Edit)
    requires InRange(data, "notes", i)
    ensures r.Unchanged? <==> !Truthy(data)
    ensures r.Throws? <==> Truthy(data) && !Sections(data).Arr?
    ensures r.Written? ==> SameShape(data, "notes", r.data) && Sections(r.data).Arr?
    ensures r.Written? ==>
      var before, after := Sections(data).items, Sections(r.data).items;
      |after| == |before| && Get(after[i], "section") == Str(text)
      && (before[i].Obj? ==> Get(after[i], "points") == Get(before[i], "points"))
      && (forall j :: 0 <= j < |before| && j != i ==> after[j] == before[j])
  {
    EditItemField(data, "notes", i, "section", text)
  }

  /** `deleteSection(section)`: section `i` removed, the others kept in
      order; an index past the end removes nothing. */
  function DeleteSection(data: Js, i: int): (r: Edit)
    ensures r.Unchanged? <==> !Truthy(data)
    ensures r.Throws? <==> Truthy(data) && !Sections(data).Arr?
    ensures r.Written? ==>
      SameShape(data, "notes", r.data)
      && Sections(r.data) == Arr(RemoveAt(Sections(data).items, i))
  {
    DeleteItem(data, "notes", i)
  }

  /** `handlePointChange(section, point)`: point `j` of section `i` gets the
      edited text; nothing else changes. */
  function PointChange(data: Js, i: nat, j: nat, text: string): (r: Edit)
    requires SectionShown(data, i)
    requires Truthy(data) && Sections(data).Arr? && PointsOf(data, i).Arr? ==> j < |PointsOf(data, i).items|
    ensures PointEditShape(data, i, r)
    ensures r.Written? ==>
      var before, after := PointsOf(data, i).items, PointsOf(r.data, i).items;
      |after| == |before| && after[j] == Str(text)
      && forall k :: 0 <= k < |before| && k != j ==> after[k] == before[k]
  {
    if !Truthy(data) then Unchanged
    else if !Sections(data).Arr? || !PointsOf(data, i).Arr? then Throws
    else Written(WithPoints(data, i, PointsOf(data, i).items[j := Str(text)]))
  }

  /** `addPoint(section)`: one default point appended to section `i`. */
  function AddPoint(data: Js, i: nat): (r: Edit)
    requires SectionShown(data, i)
    ensures PointEditShape(data, i, r)
    ensures r.Written? ==> PointsOf(r.data, i) == Arr(PointsOf(data, i).items + [NewPoint])
  {
    if !Truthy(data) then Unchanged
    else if !Sections(data).Arr? || !PointsOf(data, i).Arr? then Throws
    else Written(WithPoints(data, i, PointsOf(data, i).items + [NewPoint]))
  }

  /** `deletePoint(section, point)`: point `j` of section `i` removed, the
      others kept in order. */
  function DeletePoint(data: Js, i: nat, j: int): (r: Edit)
    requires SectionShown(data, i)
    ensures PointEditShape(data, i, r)
    ensures r.Written? ==> PointsOf(r.data, i) == Arr(RemoveAt(PointsOf(data, i).items, j))
  {
    if !Truthy(data) then Unchanged
    else if !Sections(data).Arr? || !PointsOf(data, i).Arr? then Throws
    else Written(WithPoints(data, i, RemoveAt(PointsOf(data, i).items, j)))
  }

  /** `addSection()`: the default section appended. */
  function AddSection(data: Js): (r: Edit)
    ensures r.Unchanged? <==> !Truthy(data)
    ensures r.Throws? <==> Truthy(data) && !Sections(data).Arr?
    ensures r.Written? ==>
      SameShape(data, "notes", r.data)
      && Sections(r.data) == Arr(Sections(data).items + [NewSection])
  {
    AppendItem(data, "notes", NewSection)
  }
}
