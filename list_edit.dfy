/** The list editing shared by the notes, insights and flashcards views:
    the list a view works on (the data when it is an array, else one of its
    fields, else empty), the write-back in the same shape, and the replace,
    append and delete handlers. Every handler does nothing without data. */
module ListEdit {
  import opened Common
  import opened JsValue

  /** What a handler does to the module's data: nothing, a new value for
      the setter, or a TypeError (a list field that is not an array).
      `Throws` stands for the view failing on such data rather than for the
      handler itself: a handler spreads a string list into its characters
      instead of throwing, but every view first maps over its list while
      rendering, and `.map` on a string throws before any handler runs. */
  datatype Edit = Unchanged | Written(data: Js) | Throws

  /** `Array.isArray(data) ? data : (data?.[field] || [])` */
  function WorkingList(data: Js, field: string): (r: Js)
    ensures data.Arr? ==> r == data
    ensures !data.Arr? && !Truthy(Get(data, field)) ==> r == Arr([])
    ensures !data.Arr? && Truthy(Get(data, field)) ==> r == Get(data, field)
  {
    if data.Arr? then data else Or(Get(data, field), Arr([]))
  }

  /** `Array.isArray(data) ? list : {...data, [field]: list}`: a bare array
      stays an array, a wrapper keeps its other fields, and the view then
      works on exactly the list written. */
  function WriteBack(data: Js, field: string, list: seq<Js>): (r: Js)
    ensures data.Arr? <==> r.Arr?
    ensures data.Obj? ==> forall k :: k != field ==> Get(r, k) == Get(data, k)
    ensures WorkingList(r, field) == Arr(list)
  {
    if data.Arr? then Arr(list) else With(data, field, Arr(list))
  }

  /** `list.filter((_, k) => k !== i)`: the item at `i` removed, the rest in
      order; an index outside the list removes nothing. */
  function RemoveAt<T>(list: seq<T>, i: int): (r: seq<T>)
    ensures 0 <= i < |list| ==>
      |r| == |list| - 1
      && (forall k :: 0 <= k < i ==> r[k] == list[k])
      && (forall k :: i <= k < |r| ==> r[k] == list[k + 1])
    ensures !(0 <= i < |list|) ==> r == list
    ensures 0 <= i < |list| ==> multiset(r) + multiset{list[i]} == multiset(list)
  {
    if 0 <= i < |list| then
      assert list == list[..i] + [list[i]] + list[i + 1..];
      list[..i] + list[i + 1..]
    else list
  }

  /** The write-back keeps the data's shape and its other fields. */
  ghost predicate SameShape(data: Js, field: string, out: Js)
  {
    (data.Arr? <==> out.Arr?)
    && (data.Obj? ==> forall k :: k != field ==> Get(out, k) == Get(data, k))
  }

  /** A handler's index is one of the rendered items. */
  predicate InRange(data: Js, field: string, i: nat)
  {
    Truthy(data) && WorkingList(data, field).Arr? ==> i < |WorkingList(data, field).items|
  }

  /** `{...list[i], [key]: text}` written back: only that field of item `i`
      changes. */
  function EditItemField(data: Js, field: string, i: nat, key: string, text: string): (r: Edit)
    requires InRange(data, field, i)
    ensures r.Unchanged? <==> !Truthy(data)
    ensures r.Throws? <==> Truthy(data) && !WorkingList(data, field).Arr?
    ensures r.Written? ==> SameShape(data, field, r.data) && WorkingList(r.data, field).Arr?
    ensures r.Written? ==>
      var before, after := WorkingList(data, field).items, WorkingList(r.data, field).items;
      |after| == |before| && Get(after[i], key) == Str(text)
      && (before[i].Obj? ==> forall k :: k != key ==> Get(after[i], k) == Get(before[i], k))
      && (forall j :: 0 <= j < |before| && j != i ==> after[j] == before[j])
  {
    if !Truthy(data) then Unchanged
    else
      var list := WorkingList(data, field);
      if !list.Arr? then Throws
      else Written(WriteBack(data, field, list.items[i := With(list.items[i], key, Str(text))]))
  }

  /** `[...list, item]` written back. */
  function AppendItem(data: Js, field: string, item: Js): (r: Edit)
    ensures r.Unchanged? <==> !Truthy(data)
    ensures r.Throws? <==> Truthy(data) && !WorkingList(data, field).Arr?
    ensures r.Written? ==>
      SameShape(data, field, r.data)
      && WorkingList(r.data, field) == Arr(WorkingList(data, field).items + [item])
  {
    if !Truthy(data) then Unchanged
    else
      var list := WorkingList(data, field);
      if !list.Arr? then Throws else Written(WriteBack(data, field, list.items + [item]))
  }

  /** `list.filter((_, k) => k !== i)` written back. */
  function DeleteItem(data: Js, field: string, i: int): (r: Edit)
    ensures r.Unchanged? <==> !Truthy(data)
    ensures r.Throws? <==> Truthy(data) && !WorkingList(data, field).Arr?
    ensures r.Written? ==>
      SameShape(data, field, r.data)
      && WorkingList(r.data, field) == Arr(RemoveAt(WorkingList(data, field).items, i))
  {
    if !Truthy(data) then Unchanged
    else
      var list := WorkingList(data, field);
      if !list.Arr? then Throws else Written(WriteBack(data, field, RemoveAt(list.items, i)))
  }

  /** Adding an item and then deleting it gives the list back. */
  lemma AppendThenDelete(data: Js, field: string, item: Js)
    requires AppendItem(data, field, item).Written?
    ensures var added := AppendItem(data, field, item).data;
            var n := |WorkingList(data, field).items|;
            DeleteItem(added, field, n).Written?
            && WorkingList(DeleteItem(added, field, n).data, field) == WorkingList(data, field)
  {
    var list := WorkingList(data, field).items;
    var added := AppendItem(data, field, item).data;
    assert (list + [item])[..|list|] == list;
    assert WorkingList(added, field) == Arr(list + [item]);
    assert Truthy(added) by {
      if !added.Arr? { assert added.Obj?; }
    }
  }
}
