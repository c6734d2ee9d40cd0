/** The flashcards view: which cards are flipped, and the edit handlers for
    a card's question or answer, adding and deleting cards. The list is the
    flashcards data itself when it is an array, else its `flashcards`
    field. Deleting a card leaves the flipped indices as they are, so a
    flipped index then names the card that moved into that place. */
module FlashcardsView {
  import opened Common
  import opened JsValue
  import opened ListEdit

  /** The card `addCard` appends. */
  const NewCard: Js := Obj([("question", Str("New Question")), ("answer", Str("New Answer"))])

  /** `handleCardClick(e, index)`: a click on editable text never flips. */
  function CardClick(flipped: seq<int>, i: int, onEditable: bool): (r: seq<int>)
    ensures onEditable ==> r == flipped
    ensures !onEditable ==> forall x :: (x in r <==> x in flipped) == (x != i)
  {
    if onEditable then flipped else Toggle(flipped, i)
  }

  /** The two editable sides of a card. */
  datatype CardField = Question | Answer

  function FieldName(f: CardField): (r: string)
    ensures r in {"question", "answer"}
  {
    match f
    case Question => "question"
    case Answer => "answer"
  }

  /** `handleContentChange(index, field)`: that side of card `i` gets the
      edited text; the other side and the other cards are kept. */
  function ContentChange(data: Js, i: nat, f: CardField, text: string): (r: Edit)
    requires InRange(data, "flashcards", i)
    ensures r.Unchanged? <==> !Truthy(data)
    ensures r.Throws? <==> Truthy(data) && !WorkingList(data, "flashcards").Arr?
    ensures r.Written? ==> WorkingList(r.data, "flashcards").Arr?
    ensures r.Written? ==>
      var before, after := WorkingList(data, "flashcards").items, WorkingList(r.data, "flashcards").items;
      SameShape(data, "flashcards", r.data) && |after| == |before|
      && Get(after[i], FieldName(f)) == Str(text)
      && (before[i].Obj? && f == Question ==> Get(after[i], "answer") == Get(before[i], "answer"))
      && (before[i].Obj? && f == Answer ==> Get(after[i], "question") == Get(before[i], "question"))
      && (forall j :: 0 <= j < |before| && j != i ==> after[j] == before[j])
  {
    EditItemField(data, "flashcards", i, FieldName(f), text)
  }

  /** `addCard()`: one default card appended. */
  function AddCard(data: Js): (r: Edit)
    ensures r.Unchanged? <==> !Truthy(data)
    ensures r.Throws? <==> Truthy(data) && !WorkingList(data, "flashcards").Arr?
    ensures r.Written? ==>
      SameShape(data, "flashcards", r.data) && WorkingList(r.data, "flashcards").Arr?
      && WorkingList(r.data, "flashcards").items == WorkingList(data, "flashcards").items + [NewCard]
  {
    AppendItem(data, "flashcards", NewCard)
  }

  /** `deleteCard(index)`: card `i` removed, the others kept in order;
      an index past the end removes nothing. */
  function DeleteCard(data: Js, i: int): (r: Edit)
    ensures r.Unchanged? <==> !Truthy(data)
    ensures r.Throws? <==> Truthy(data) && !WorkingList(data, "flashcards").Arr?
    ensures r.Written? ==>
      SameShape(data, "flashcards", r.data)
      && WorkingList(r.data, "flashcards") == Arr(RemoveAt(WorkingList(data, "flashcards").items, i))
  {
    DeleteItem(data, "flashcards", i)
  }
}
