/** The typed preview transformers: each module's content becomes a titled
    list of sections. Summaries give a paragraph or one list item per key
    point; insights and notes use their adaptive blocks when present; quiz
    questions are numbered with their options marked; flashcards are
    numbered cards. `transformModeContent` unwraps a revision wrapper and
    dispatches by mode. A call that would throw a TypeError gives `Throws`. */
module PreviewTs {
  import opened Common
  import opened JsValue
  import opened PreviewModel

  const EmptySummary := "(Empty summary)"
  const NoKeyPoints := "(No key points available)"
  const NotTextOrList := "Summary content is not text or list."

  // ---------------------------------------------------------------- summary

  /** The summary content: the data itself when it is a string, else its `summary`. */
  function SummaryContent(data: Js): Js
  {
    if data.Str? then data else Get(data, "summary")
  }

  function SummarySections(content: Js): seq<Section>
  {
    if content.Str? then [Section(None, Or(content, Str(EmptySummary)), Paragraph)]
    else if content.Arr? && content.items == [] then [Section(None, Str(NoKeyPoints), Paragraph)]
    else if content.Arr? then ListSections(content.items)
    else [Section(None, Str(NotTextOrList), Paragraph)]
  }

  /** `(content || '').split(...)` works on a falsy value or a string; any
      other value has no `split` and the call throws. */
  predicate Splittable(c: Js)
  {
    !Truthy(c) || c.Str?
  }

  /** `sections.reduce((acc, s) => acc + (s.content || '').split(/\s+/).length, 0)`,
      or None when some section's content cannot be split. */
  function TotalWords(sections: seq<Section>): (r: Option<nat>)
    ensures r.Some? <==> forall i :: 0 <= i < |sections| ==> Splittable(sections[i].content)
    ensures r.Some? ==> r.value >= |sections|
  {
    if sections == [] then Some(0)
    else
      var init, c := TotalWords(sections[..|sections| - 1]), sections[|sections| - 1].content;
      if init.None? || !Splittable(c) then None
      else Some(init.value + (if c.Str? then |WsSplit(c.s)| else 1))
  }

  /** `transformSummary(data)` */
  function SummaryPreview(data: Js): (r: Outcome)
    ensures r == NoPreview <==> !Truthy(data) || SummaryContent(data).Null? || SummaryContent(data).Undefined?
    ensures r == Throws <==> Truthy(data) && SummaryContent(data).Arr?
                             && exists i :: 0 <= i < |SummaryContent(data).items| && !Splittable(SummaryContent(data).items[i])
    ensures r.Shown? ==>
      var p := r.preview;
      p.title == "Document Summary" && |p.sections| >= 1
      && p.metadata.wordCount.Some? && p.metadata.wordCount.value >= |p.sections|
      && p.metadata.readTime == Some(CeilDiv(p.metadata.wordCount.value, 200)) && p.metadata.readTime.value >= 1
    ensures r.Shown? && SummaryContent(data).Str? ==> var s := SummaryContent(data).s;
      r.preview.sections == [Section(None, Str(if s == "" then EmptySummary else s), Paragraph)]
    ensures r.Shown? && SummaryContent(data).Arr? && SummaryContent(data).items != [] ==>
      var points := SummaryContent(data).items;
      |r.preview.sections| == |points|
      && forall i :: 0 <= i < |points| ==> r.preview.sections[i] == Section(None, points[i], ListItem)
  {
    if !Truthy(data) then NoPreview
    else
      var content := SummaryContent(data);
      if content.Null? || content.Undefined? then NoPreview
      else
        var sections := SummarySections(content);
        var words := TotalWords(sections);
        if words.None? then Throws
        else Shown(Preview("Document Summary", sections,
                           NoMetadata.(wordCount := Some(words.value), readTime := Some(CeilDiv(words.value, 200)))))
  }

  /** `transformSummary(data)`, building its sections with `push`. */
  method TransformSummary(data: Js) returns (r: Outcome)
    ensures r == SummaryPreview(data)
  {
    if !Truthy(data) {
      return NoPreview;
    }
    var content := if data.Str? then data else Get(data, "summary");
    if content.Null? || content.Undefined? {
      return NoPreview;
    }
    var sections := PushSummarySections(content);
    var words := TotalWords(sections);
    if words.None? {
      return Throws;
    }
    r := Shown(Preview("Document Summary", sections,
                       NoMetadata.(wordCount := Some(words.value), readTime := Some(CeilDiv(words.value, 200)))));
  }

  /** The `sections.push` steps of `transformSummary` for a content that is
      neither null nor undefined. */
  method PushSummarySections(content: Js) returns (sections: seq<Section>)
    ensures sections == SummarySections(content)
  {
    sections := [];
    if content.Str? {
      sections := sections + [Section(None, Or(content, Str(EmptySummary)), Paragraph)];
    } else if content.Arr? {
      if |content.items| == 0 {
        sections := sections + [Section(None, Str(NoKeyPoints), Paragraph)];
      } else {
        sections := PushPoints(sections, content.items);
      }
    }
    if |sections| == 0 {
      sections := sections + [Section(None, Str(NotTextOrList), Paragraph)];
    }
  }

  // ---------------------------------------------------------- adaptive blocks

  /** Sections without a heading whose content is truthy. */
  predicate AllPlain(ss: seq<Section>)
  {
    forall k :: 0 <= k < |ss| ==> ss[k].heading.None? && Truthy(ss[k].content)
  }

  /** The values a block item's sections are built from: the first truthy
      of `heading`, `example`, `term`, `step`; the first truthy of
      `explanation`, `description`, `content`; and `question`, `hint`,
      `formula`, `label` as they are. */
  datatype BlockItem = BlockItem(title: Js, body: Js, question: Js, hint: Js, formula: Js, caption: Js)

  function ItemOf(item: Js): BlockItem
  {
    BlockItem(Or(Or(Or(Get(item, "heading"), Get(item, "example")), Get(item, "term")), Get(item, "step")),
              Or(Or(Get(item, "explanation"), Get(item, "description")), Get(item, "content")),
              Get(item, "question"), Get(item, "hint"), Get(item, "formula"), Get(item, "label"))
  }

  function ItemsOf(items: seq<Js>): (r: seq<BlockItem>)
    ensures |r| == |items| && forall i :: 0 <= i < |items| ==> r[i] == ItemOf(items[i])
  {
    seq(|items|, i requires 0 <= i < |items| => ItemOf(items[i]))
  }

  function TitlePart(it: BlockItem): seq<Section>
  {
    if Truthy(it.title) then [Section(None, it.title, HeadingKind)] else []
  }

  function BodyPart(it: BlockItem): seq<Section>
  {
    if Truthy(it.body) then [Section(None, it.body, Paragraph)] else []
  }

  /** `Q: {question}` */
  function QuestionLine(q: Js): (r: Section)
    ensures r.heading.None? && Truthy(r.content)
  {
    Section(None, Str("Q: " + Text(q)), Paragraph)
  }

  /** `Hint: {hint}` */
  function HintLine(hint: Js): (r: Section)
    ensures r.heading.None? && Truthy(r.content)
  {
    Section(None, Str("Hint: " + Text(hint)), Paragraph)
  }

  /** The question line, then the hint line when a hint is given. */
  function QuestionPart(it: BlockItem): seq<Section>
  {
    if !Truthy(it.question) then []
    else if Truthy(it.hint) then [QuestionLine(it.question), HintLine(it.hint)]
    else [QuestionLine(it.question)]
  }

  /** The formula, as `{label}: {formula}` when a label is given. */
  function FormulaLine(formula: Js, caption: Js): (r: Section)
    requires Truthy(formula)
    ensures r.heading.None? && Truthy(r.content)
  {
    Section(None, if Truthy(caption) then Str(Text(caption) + ": " + Text(formula)) else formula, Paragraph)
  }

  function FormulaPart(it: BlockItem): seq<Section>
  {
    if Truthy(it.formula) then [FormulaLine(it.formula, it.caption)] else []
  }

  /** Two runs of plain sections make a plain run. */
  lemma AllPlainConcat(a: seq<Section>, b: seq<Section>)
    requires AllPlain(a) && AllPlain(b)
    ensures AllPlain(a + b)
  {
    forall k | 0 <= k < |a + b| ensures (a + b)[k].heading.None? && Truthy((a + b)[k].content) {
      if k >= |a| {
        assert (a + b)[k] == b[k - |a|];
      }
    }
  }

  /** The sections of one block item, in the order they are pushed. */
  function ItemSections(it: BlockItem): seq<Section>
  {
    TitlePart(it) + BodyPart(it) + QuestionPart(it) + FormulaPart(it)
  }

  /** The items' sections, in order. */
  function ItemsSections(items: seq<BlockItem>): seq<Section>
  {
    if items == [] then [] else ItemsSections(items[..|items| - 1]) + ItemSections(items[|items| - 1])
  }

  /** An item gives at most five sections; none has a heading field and
      none is empty, since each is pushed only for a truthy value. */
  lemma ItemPlain(it: BlockItem)
    ensures |ItemSections(it)| <= 5 && AllPlain(ItemSections(it))
  {
    var t, b, q, f := TitlePart(it), BodyPart(it), QuestionPart(it), FormulaPart(it);
    AllPlainConcat(t, b);
    AllPlainConcat(t + b, q);
    AllPlainConcat(t + b + q, f);
  }

  /** The items of a block give at most five sections each, all plain. */
  lemma {:induction false} ItemsPlain(items: seq<BlockItem>)
    ensures |ItemsSections(items)| <= 5 * |items| && AllPlain(ItemsSections(items))
  {
    if items != [] {
      ItemsPlain(items[..|items| - 1]);
      ItemPlain(items[|items| - 1]);
      AllPlainConcat(ItemsSections(items[..|items| - 1]), ItemSections(items[|items| - 1]));
    }
  }

  /** The block's pass throws: `block.title` on a `null` or `undefined`
      block, `forEach` on truthy `items` that are not an array, or
      `item.heading` on an item that is `null` or `undefined`. */
  predicate BlockThrows(block: Js)
  {
    Nullish(block)
    || (Truthy(Get(block, "items")) && (!Get(block, "items").Arr? || SomeNullish(Get(block, "items").items)))
  }

  /** A block's own sections: its title as a heading, then its content as
      list items (an array) or a paragraph. */
  function BlockHead(block: Js): seq<Section>
  {
    var title, content := Get(block, "title"), Get(block, "content");
    (if Truthy(title) then [Section(None, title, HeadingKind)] else [])
    + (if !Truthy(content) then []
       else if content.Arr? then ListSections(content.items)
       else [Section(None, content, Paragraph)])
  }

  /** One block's sections: its own, then its items' sections. */
  function BlockPart(block: Js): (r: Option<seq<Section>>)
    ensures r.None? <==> BlockThrows(block)
  {
    var items := Get(block, "items");
    if Nullish(block) then None
    else if !Truthy(items) then Some(BlockHead(block))
    else if items.Arr? && !SomeNullish(items.items) then Some(BlockHead(block) + ItemsSections(ItemsOf(items.items)))
    else None
  }

  /** `transformAdaptiveBlocks(blocks)`, or None when it throws. */
  function BlockSections(blocks: seq<Js>): (r: Option<seq<Section>>)
    ensures r.None? <==> exists i :: 0 <= i < |blocks| && BlockThrows(blocks[i])
  {
    if blocks == [] then Some([])
    else
      var init, last := BlockSections(blocks[..|blocks| - 1]), BlockPart(blocks[|blocks| - 1]);
      assert forall i :: 0 <= i < |blocks| - 1 ==> blocks[..|blocks| - 1][i] == blocks[i];
      if init.None? || last.None? then None else Some(init.value + last.value)
  }

  /** Four runs pushed one after another are their concatenation pushed at once. */
  lemma PushedInOrder(s: seq<Section>, a: seq<Section>, b: seq<Section>, c: seq<Section>, d: seq<Section>,
                      r1: seq<Section>, r2: seq<Section>, r3: seq<Section>, r: seq<Section>)
    requires r1 == s + a && r2 == r1 + b && r3 == r2 + c && r == r3 + d
    ensures r == s + (a + b + c + d)
  {
  }

  /** The sections of one block item, pushed one condition at a time. */
  method AddItem(sections: seq<Section>, it: BlockItem) returns (r: seq<Section>)
    ensures r == sections + ItemSections(it)
  {
    r := sections;
    if Truthy(it.title) {
      r := r + [Section(None, it.title, HeadingKind)];
    }
    ghost var r1 := r;
    if Truthy(it.body) {
      r := r + [Section(None, it.body, Paragraph)];
    }
    ghost var r2 := r;
    if Truthy(it.question) {
      r := r + [QuestionLine(it.question)];
      if Truthy(it.hint) {
        r := r + [HintLine(it.hint)];
        assert r == r2 + [QuestionLine(it.question), HintLine(it.hint)];
      }
    }
    ghost var r3 := r;
    if Truthy(it.formula) {
      r := r + [FormulaLine(it.formula, it.caption)];
    }
    PushedInOrder(sections, TitlePart(it), BodyPart(it), QuestionPart(it), FormulaPart(it), r1, r2, r3, r);
  }

  /** One block's pass of the `forEach`; None when its items throw. */
  method AddBlock(sections: seq<Section>, block: Js) returns (r: Option<seq<Section>>)
    ensures r == (if BlockPart(block).None? then None else Some(sections + BlockPart(block).value))
  {
    if Nullish(block) {
      return None;
    }
    var acc := PushHead(sections, block);
    var items := Get(block, "items");
    if Truthy(items) {
      if !items.Arr? {
        return None;
      }
      ghost var head := acc;
      var pushed := PushItems(acc, items.items);
      if pushed.None? {
        return None;
      }
      acc := pushed.value;
      Appended(sections, BlockHead(block), ItemsSections(ItemsOf(items.items)), head, acc);
      BlockPartOfItems(block);
    }
    r := Some(acc);
  }

  /** Two runs pushed one after the other are their concatenation pushed at once. */
  lemma Appended<T>(s: seq<T>, a: seq<T>, b: seq<T>, r1: seq<T>, r: seq<T>)
    requires r1 == s + a && r == r1 + b
    ensures r == s + (a + b)
  {
  }

  /** A block with an array of items: its own sections, then its items'. */
  lemma BlockPartOfItems(block: Js)
    requires !Nullish(block) && Truthy(Get(block, "items")) && Get(block, "items").Arr?
    requires !SomeNullish(Get(block, "items").items)
    ensures BlockPart(block) == Some(BlockHead(block) + ItemsSections(ItemsOf(Get(block, "items").items)))
  {
  }

  /** The block's title, then its content. */
  method PushHead(sections: seq<Section>, block: Js) returns (r: seq<Section>)
    ensures r == sections + BlockHead(block)
  {
    r := sections;
    var title := Get(block, "title");
    if Truthy(title) {
      r := r + [Section(None, title, HeadingKind)];
    }
    var content := Get(block, "content");
    if Truthy(content) {
      if content.Arr? {
        r := PushPoints(r, content.items);
      } else {
        r := r + [Section(None, content, Paragraph)];
      }
    }
  }

  /** `block.items.forEach(item => …)`: None when an item is `null` or
      `undefined`, since its `heading` is read. */
  method PushItems(sections: seq<Section>, items: seq<Js>) returns (r: Option<seq<Section>>)
    ensures r == if SomeNullish(items) then None else Some(sections + ItemsSections(ItemsOf(items)))
  {
    var acc := sections;
    for j := 0 to |items|
      invariant !SomeNullish(items[..j]) && acc == sections + ItemsSections(ItemsOf(items[..j]))
    {
      SomeNullishStep(items, j);
      if Nullish(items[j]) {
        return None;
      }
      ghost var before := acc;
      acc := AddItem(acc, ItemOf(items[j]));
      ItemsSectionsStep(sections, items, j, before, acc);
    }
    assert items[..|items|] == items;
    r := Some(acc);
  }

  /** The sections of one more item follow those of the items before it. */
  lemma ItemsSectionsStep(sections: seq<Section>, items: seq<Js>, j: nat, before: seq<Section>, after: seq<Section>)
    requires j < |items|
    requires before == sections + ItemsSections(ItemsOf(items[..j]))
    requires after == before + ItemSections(ItemOf(items[j]))
    ensures after == sections + ItemsSections(ItemsOf(items[..j + 1]))
  {
    var xs, x := ItemsOf(items[..j]), ItemOf(items[j]);
    ItemsOfStep(items, j);
    ItemsSectionsSnoc(xs, x);
    Appended(sections, ItemsSections(xs), ItemSections(x), before, after);
  }

  lemma ItemsOfStep(items: seq<Js>, j: nat)
    requires j < |items|
    ensures ItemsOf(items[..j + 1]) == ItemsOf(items[..j]) + [ItemOf(items[j])]
  {
  }

  lemma ItemsSectionsSnoc(xs: seq<BlockItem>, x: BlockItem)
    ensures ItemsSections(xs + [x]) == ItemsSections(xs) + ItemSections(x)
  {
    assert (xs + [x])[..|xs|] == xs;
  }

  /** `transformAdaptiveBlocks(blocks)` */
  method TransformAdaptiveBlocks(blocks: seq<Js>) returns (r: Option<seq<Section>>)
    ensures r == BlockSections(blocks)
  {
    var sections: seq<Section> := [];
    for i := 0 to |blocks|
      invariant BlockSections(blocks[..i]) == Some(sections)
    {
      var next := AddBlock(sections, blocks[i]);
      assert blocks[..i + 1][..i] == blocks[..i];
      if next.None? {
        assert BlockSections(blocks[..i + 1]).None?;
        BlocksThrowLater(blocks, i + 1);
        return None;
      }
      sections := next.value;
    }
    assert blocks[..|blocks|] == blocks;
    r := Some(sections);
  }

  /** Once a prefix of the blocks throws, so do all of them. */
  lemma BlocksThrowLater(blocks: seq<Js>, n: nat)
    requires n <= |blocks| && BlockSections(blocks[..n]).None?
    ensures BlockSections(blocks).None?
  {
    var i :| 0 <= i < n && BlockThrows(blocks[..n][i]);
    assert blocks[i] == blocks[..n][i];
  }

  /** `data?.blocks && Array.isArray(data.blocks)` */
  predicate HasBlocks(data: Js)
  {
    Truthy(Get(data, "blocks")) && Get(data, "blocks").Arr?
  }

  /** A preview built from the data's blocks, counting the blocks. */
  function BlocksPreview(title: string, data: Js): (r: Outcome)
    requires HasBlocks(data)
    ensures r != NoPreview
    ensures r.Shown? ==> r.preview.title == title && r.preview.metadata.count == Some(|Get(data, "blocks").items|)
  {
    var blocks := Get(data, "blocks").items;
    var sections := BlockSections(blocks);
    if sections.None? then Throws
    else Shown(Preview(title, sections.value, NoMetadata.(count := Some(|blocks|))))
  }

  // --------------------------------------------------------------- insights

  /** `xs.length === 0` */
  predicate LengthIsZero(xs: Js)
  {
    StrictEq(LengthOf(xs), Num(0.0))
  }

  /** `transformInsights(data)`: the blocks when present; otherwise one
      paragraph per insight, headed by its title; `null` for no insights. */
  function TransformInsights(data: Js): (r: Outcome)
    ensures HasBlocks(data) ==> r == BlocksPreview("Key Insights", data)
    ensures !HasBlocks(data) && Or(Get(data, "insights"), Arr([])).Arr? ==>
      var xs := Or(Get(data, "insights"), Arr([])).items;
      (r == NoPreview <==> xs == [])
      && (r == Throws <==> SomeNullish(xs))
      && (r.Shown? ==> var p := r.preview;
            p.title == "Key Insights" && |p.sections| == |xs|
            && p.metadata.count == Some(|xs|) && p.metadata.topics.Some? && |p.metadata.topics.value| == |xs|
            && forall i :: 0 <= i < |xs| ==>
                 p.sections[i] == Section(Some(Get(xs[i], "title")), Get(xs[i], "description"), Paragraph)
                 && p.metadata.topics.value[i] == Get(xs[i], "title"))
  {
    if HasBlocks(data) then BlocksPreview("Key Insights", data)
    else
      var xs := Or(Get(data, "insights"), Arr([]));
      if LengthIsZero(xs) then NoPreview
      else if !xs.Arr? || SomeNullish(xs.items) then Throws
      else
        var items := xs.items;
        Shown(Preview("Key Insights",
                      seq(|items|, i requires 0 <= i < |items| =>
                        Section(Some(Get(items[i], "title")), Get(items[i], "description"), Paragraph)),
                      NoMetadata.(count := Some(|items|),
                                  topics := Some(seq(|items|, i requires 0 <= i < |items| => Get(items[i], "title"))))))
  }

  // ------------------------------------------------------------------ notes

  /** The section one note gives: a note that is `null` or `undefined`
      throws at `note.section`; otherwise only a note with a truthy
      `section` and truthy `points` counts, an array of points joined with
      newlines. */
  function NoteSection(note: Js): (r: Result<Option<Section>>)
    ensures r.Thrown? <==> Nullish(note)
    ensures r.Ok? ==> (r.value.Some? <==> Truthy(Get(note, "section")) && Truthy(Get(note, "points")))
    ensures r.Ok? && r.value.Some? ==> r.value.value.heading == Some(Get(note, "section")) && r.value.value.kind == ListItem
  {
    if Nullish(note) then Thrown
    else
      var section, points := Get(note, "section"), Get(note, "points");
      if Truthy(section) && Truthy(points) then
        Ok(Some(Section(Some(section), if points.Arr? then Str(JoinText(points.items, "\n")) else points, ListItem)))
      else Ok(None)
  }

  /** The notes that count, as sections, in order; Thrown when some note is
      `null` or `undefined`. */
  function NoteSections(notes: seq<Js>): (r: Result<seq<Section>>)
    ensures r.Thrown? <==> SomeNullish(notes)
    ensures r.Ok? ==> |r.value| <= |notes|
    ensures r.Ok? ==> (r.value == [] <==> forall i :: 0 <= i < |notes| ==> NoteSection(notes[i]) == Ok(None))
    ensures r.Ok? ==> forall k :: 0 <= k < |r.value| ==>
      r.value[k].kind == ListItem && r.value[k].heading.Some? && Truthy(r.value[k].heading.value)
  {
    if notes == [] then Ok([])
    else
      var init, last := NoteSections(notes[..|notes| - 1]), NoteSection(notes[|notes| - 1]);
      assert forall i :: 0 <= i < |notes| - 1 ==> notes[..|notes| - 1][i] == notes[i];
      if init.Thrown? || last.Thrown? then Thrown
      else if last.value.Some? then Ok(init.value + [last.value.value])
      else init
  }

  /** `notesArray.forEach(note => { if (…) sections.push(…) })` */
  method CollectNotes(notes: seq<Js>) returns (r: Result<seq<Section>>)
    ensures r == NoteSections(notes)
  {
    var sections := [];
    for i := 0 to |notes|
      invariant NoteSections(notes[..i]) == Ok(sections)
    {
      assert notes[..i + 1][..i] == notes[..i];
      if Nullish(notes[i]) {
        assert Nullish(notes[..i + 1][i]);
        NotesThrowLater(notes, i + 1);
        return Thrown;
      }
      var section, points := Get(notes[i], "section"), Get(notes[i], "points");
      if Truthy(section) && Truthy(points) {
        sections := sections + [Section(Some(section), if points.Arr? then Str(JoinText(points.items, "\n")) else points, ListItem)];
      }
    }
    assert notes[..|notes|] == notes;
    r := Ok(sections);
  }

  /** Once a prefix of the notes throws, so do all of them. */
  lemma NotesThrowLater(notes: seq<Js>, n: nat)
    requires n <= |notes| && SomeNullish(notes[..n])
    ensures NoteSections(notes).Thrown?
  {
    var i :| 0 <= i < n && Nullish(notes[..n][i]);
    assert notes[i] == notes[..n][i];
  }

  /** `transformNotes(data)` */
  function NotesPreview(data: Js): (r: Outcome)
    ensures HasBlocks(data) ==> r == BlocksPreview("Study Notes", data)
    ensures !HasBlocks(data) && Or(Get(data, "notes"), Arr([])).Arr? ==>
      var notes := Or(Get(data, "notes"), Arr([])).items;
      (r == Throws <==> SomeNullish(notes))
      && (r == NoPreview <==> forall i :: 0 <= i < |notes| ==> NoteSection(notes[i]) == Ok(None))
      && (r.Shown? ==> r.preview.title == "Study Notes" && NoteSections(notes) == Ok(r.preview.sections)
                       && r.preview.metadata.count == Some(|r.preview.sections|))
    ensures !HasBlocks(data) && !Or(Get(data, "notes"), Arr([])).Arr? ==> r == Throws
  {
    if HasBlocks(data) then BlocksPreview("Study Notes", data)
    else
      var xs := Or(Get(data, "notes"), Arr([]));
      if !xs.Arr? then Throws
      else
        var sections := NoteSections(xs.items);
        if sections.Thrown? then Throws
        else if sections.value == [] then NoPreview
        else Shown(Preview("Study Notes", sections.value, NoMetadata.(count := Some(|sections.value|))))
  }

  /** A `null` note throws rather than being skipped. */
  lemma NullNoteThrows()
    ensures NotesPreview(Obj([("notes", Arr([Null]))])) == Throws
  {
    var data := Obj([("notes", Arr([Null]))]);
    assert !HasBlocks(data);
    assert Nullish(Or(Get(data, "notes"), Arr([])).items[0]);
  }

  /** `transformNotes(data)`, collecting the notes with `push`. */
  method TransformNotes(data: Js) returns (r: Outcome)
    ensures r == NotesPreview(data)
  {
    var blocks := Get(data, "blocks");
    if Truthy(blocks) && blocks.Arr? {
      var sections := TransformAdaptiveBlocks(blocks.items);
      if sections.None? {
        return Throws;
      }
      return Shown(Preview("Study Notes", sections.value, NoMetadata.(count := Some(|blocks.items|))));
    }
    var xs := Or(Get(data, "notes"), Arr([]));
    if !xs.Arr? {
      return Throws;
    }
    var sections := CollectNotes(xs.items);
    if sections.Thrown? {
      return Throws;
    }
    if |sections.value| == 0 {
      return NoPreview;
    }
    r := Shown(Preview("Study Notes", sections.value, NoMetadata.(count := Some(|sections.value|))));
  }

  // ------------------------------------------------------------------- quiz

  /** One option's line: `✓` exactly when its value is the correct answer. */
  function OptionLine(opt: Js, correct: Js): (r: string)
    ensures |r| > 0 && (r[0] == '✓' <==> StrictEq(Get(opt, "value"), correct))
    ensures r[|r| - 1] == '\n'
  {
    var marker := if StrictEq(Get(opt, "value"), correct) then "✓" else "○";
    marker + " " + Text(Get(opt, "label")) + ". " + Text(Get(opt, "value")) + "\n"
  }

  /** The option lines of a multiple-choice question, in order. */
  function OptionLines(opts: seq<Js>, correct: Js): string
  {
    if opts == [] then "" else OptionLines(opts[..|opts| - 1], correct) + OptionLine(opts[|opts| - 1], correct)
  }

  /** `Q{n}: {question}` and a blank line: the head of question `n`'s section. */
  function QuestionHead(q: Js, n: nat): string
  {
    "Q" + NatToString(n) + ": " + Text(Get(q, "question")) + "\n\n"
  }

  /** `q.type === 'mc' && q.options` whose options are not an array (no
      `forEach`) or hold a `null` or `undefined` option (its `value` is read). */
  predicate HasBadOptions(q: Js)
  {
    StrictEq(Get(q, "type"), Str("mc")) && Truthy(Get(q, "options"))
    && (!Get(q, "options").Arr? || SomeNullish(Get(q, "options").items))
  }

  /** Building question `q`'s text throws: `q.question` on a `null` or
      `undefined` question, or options that cannot be gone through. */
  predicate QuestionThrows(q: Js)
  {
    Nullish(q) || HasBadOptions(q)
  }

  const TrueFalseLines := "○ True\n○ False\n"

  /** `\nCorrect Answer: {answer}`, after the true/false lines. */
  function CorrectAnswerLine(correct: Js): string
  {
    "\nCorrect Answer: " + Text(correct)
  }

  /** `Answer: {answer}`, for a fill-in-the-blank question. */
  function AnswerLine(correct: Js): string
  {
    "Answer: " + Text(correct)
  }

  /** What follows the head: the marked options of a multiple-choice
      question, the true/false lines and answer, or the fill-in answer; None
      when the options cannot be iterated. */
  function QuestionTail(q: Js): (r: Option<string>)
    ensures r.None? <==> HasBadOptions(q)
  {
    var kind, correct, options := Get(q, "type"), Get(q, "correctAnswer"), Get(q, "options");
    if StrictEq(kind, Str("mc")) && Truthy(options) then
      (if options.Arr? && !SomeNullish(options.items) then Some(OptionLines(options.items, correct)) else None)
    else if StrictEq(kind, Str("tf")) then Some(TrueFalseLines + CorrectAnswerLine(correct))
    else if StrictEq(kind, Str("fib")) then Some(AnswerLine(correct))
    else Some("")
  }

  /** The section text of question `q` at 1-based position `n`, or None
      when it throws. */
  function QuestionText(q: Js, n: nat): (r: Option<string>)
    ensures r.None? <==> QuestionThrows(q)
  {
    var tail := QuestionTail(q);
    if Nullish(q) || tail.None? then None else Some(QuestionHead(q, n) + tail.value)
  }

  /** The text of question `q` at position `n`, built with `+=`. */
  method BuildQuestion(q: Js, n: nat) returns (r: Option<string>)
    ensures r == QuestionText(q, n)
  {
    if Nullish(q) {
      return None;
    }
    var content := QuestionHead(q, n);
    ghost var head := content;
    var kind, correct, options := Get(q, "type"), Get(q, "correctAnswer"), Get(q, "options");
    if StrictEq(kind, Str("mc")) && Truthy(options) {
      if !options.Arr? {
        return None;
      }
      var pushed := PushOptions(content, options.items, correct);
      if pushed.None? {
        return None;
      }
      content := pushed.value;
      assert QuestionTail(q) == Some(OptionLines(options.items, correct));
    } else if StrictEq(kind, Str("tf")) {
      content := content + TrueFalseLines;
      content := content + CorrectAnswerLine(correct);
      assert content == head + (TrueFalseLines + CorrectAnswerLine(correct));
      assert QuestionTail(q) == Some(TrueFalseLines + CorrectAnswerLine(correct));
    } else if StrictEq(kind, Str("fib")) {
      content := content + AnswerLine(correct);
      assert QuestionTail(q) == Some(AnswerLine(correct));
    } else {
      assert QuestionTail(q) == Some("");
    }
    assert content == head + QuestionTail(q).value;
    r := Some(content);
  }

  /** `q.options.forEach(opt => content += …)`: None when an option is
      `null` or `undefined`, since its `value` is read. */
  method PushOptions(content: string, opts: seq<Js>, correct: Js) returns (r: Option<string>)
    ensures r == if SomeNullish(opts) then None else Some(content + OptionLines(opts, correct))
  {
    var acc := content;
    for i := 0 to |opts|
      invariant !SomeNullish(opts[..i]) && acc == content + OptionLines(opts[..i], correct)
    {
      SomeNullishStep(opts, i);
      if Nullish(opts[i]) {
        return None;
      }
      ghost var before := acc;
      acc := acc + OptionLine(opts[i], correct);
      OptionLinesStep(opts, i, correct);
      Appended(content, OptionLines(opts[..i], correct), OptionLine(opts[i], correct), before, acc);
    }
    assert opts[..|opts|] == opts;
    r := Some(acc);
  }

  /** The lines of one more option follow those of the options before it. */
  lemma OptionLinesStep(opts: seq<Js>, i: nat, correct: Js)
    requires i < |opts|
    ensures OptionLines(opts[..i + 1], correct) == OptionLines(opts[..i], correct) + OptionLine(opts[i], correct)
  {
    assert opts[..i + 1][..i] == opts[..i];
  }

  /** One paragraph per question, or None when some question throws. */
  function QuizSections(qs: seq<Js>): (r: Option<seq<Section>>)
    ensures r.None? <==> exists i :: 0 <= i < |qs| && QuestionThrows(qs[i])
    ensures r.Some? ==> |r.value| == |qs|
  {
    if qs == [] then Some([])
    else
      var init, last := QuizSections(qs[..|qs| - 1]), QuestionText(qs[|qs| - 1], |qs|);
      assert forall i :: 0 <= i < |qs| - 1 ==> qs[..|qs| - 1][i] == qs[i];
      if init.None? || last.None? then None else Some(init.value + [Section(None, Str(last.value), Paragraph)])
  }

  /** A question's text starts with its head. */
  lemma QuestionTextStarts(q: Js, n: nat)
    requires QuestionText(q, n).Some?
    ensures StartsWith(QuestionText(q, n).value, QuestionHead(q, n))
  {
    var head, tail := QuestionHead(q, n), QuestionTail(q).value;
    assert (head + tail)[..|head|] == head;
  }

  /** The paragraph question `q`, numbered `n`, gives: it starts with the
      question's head. */
  predicate QuestionParagraph(sec: Section, q: Js, n: nat)
  {
    sec.kind == Paragraph && sec.heading.None? && sec.content.Str?
    && StartsWith(sec.content.s, QuestionHead(q, n))
  }

  /** Question `i` gives a paragraph that starts `Q{i+1}: {question}`. */
  lemma {:induction false} QuizShape(qs: seq<Js>)
    requires QuizSections(qs).Some?
    ensures forall i :: 0 <= i < |qs| ==> QuestionParagraph(QuizSections(qs).value[i], qs[i], i + 1)
  {
    if qs != [] {
      var n := |qs|;
      var init := qs[..n - 1];
      QuizSectionsLast(qs);
      var prev := QuizSections(init).value;
      var secs := QuizSections(qs).value;
      QuizShape(init);
      forall i | 0 <= i < n ensures QuestionParagraph(secs[i], qs[i], i + 1) {
        if i < n - 1 {
          assert secs[i] == prev[i] && qs[i] == init[i];
        }
      }
    }
  }

  /** The sections of a quiz are those of all but its last question, then
      the last question's paragraph. */
  lemma QuizSectionsLast(qs: seq<Js>)
    requires qs != [] && QuizSections(qs).Some?
    ensures QuizSections(qs[..|qs| - 1]).Some?
    ensures QuestionText(qs[|qs| - 1], |qs|).Some?
    ensures QuizSections(qs).value
         == QuizSections(qs[..|qs| - 1]).value + [Section(None, Str(QuestionText(qs[|qs| - 1], |qs|).value), Paragraph)]
    ensures QuestionParagraph(QuizSections(qs).value[|qs| - 1], qs[|qs| - 1], |qs|)
  {
    QuestionTextStarts(qs[|qs| - 1], |qs|);
  }

  /** `transformQuiz(data)` */
  function QuizPreview(data: Js): (r: Outcome)
    ensures Or(Get(data, "quiz"), Arr([])).Arr? ==>
      var qs := Or(Get(data, "quiz"), Arr([])).items;
      (r == NoPreview <==> qs == [])
      && (r.Shown? ==> r.preview.title == "Assessment Quiz" && |r.preview.sections| == |qs|
                       && r.preview.metadata.totalQuestions == Some(|qs|))
  {
    var xs := Or(Get(data, "quiz"), Arr([]));
    if LengthIsZero(xs) then NoPreview
    else if !xs.Arr? then Throws
    else
      var sections := QuizSections(xs.items);
      if sections.None? then Throws
      else Shown(Preview("Assessment Quiz", sections.value, NoMetadata.(totalQuestions := Some(|xs.items|))))
  }

  /** `transformQuiz(data)`, one question at a time. */
  method TransformQuiz(data: Js) returns (r: Outcome)
    ensures r == QuizPreview(data)
  {
    var xs := Or(Get(data, "quiz"), Arr([]));
    if LengthIsZero(xs) {
      return NoPreview;
    }
    if !xs.Arr? {
      return Throws;
    }
    var qs := xs.items;
    var sections: seq<Section> := [];
    for i := 0 to |qs|
      invariant QuizSections(qs[..i]) == Some(sections)
    {
      var text := BuildQuestion(qs[i], i + 1);
      assert qs[..i + 1][..i] == qs[..i];
      if text.None? {
        assert QuestionThrows(qs[i]) && qs[i] == qs[..i + 1][i];
        return Throws;
      }
      sections := sections + [Section(None, Str(text.value), Paragraph)];
    }
    assert qs[..|qs|] == qs;
    r := Shown(Preview("Assessment Quiz", sections, NoMetadata.(totalQuestions := Some(|qs|))));
  }

  /** Different questions of a quiz start with different labels. */
  lemma QuestionLabelsDiffer(qs: seq<Js>, i: nat, j: nat)
    requires QuizSections(qs).Some? && i < j < |qs|
    ensures QuizSections(qs).value[i] != QuizSections(qs).value[j]
  {
    QuizShape(qs);
    HeadsDiffer(QuizSections(qs).value, qs, i, j);
  }

  /** Two paragraphs that start with the heads of differently numbered
      questions differ. */
  lemma HeadsDiffer(ss: seq<Section>, qs: seq<Js>, i: nat, j: nat)
    requires i < j < |ss| && j < |qs|
    requires ss[i].content.Str? && StartsWith(ss[i].content.s, QuestionHead(qs[i], i + 1))
    requires ss[j].content.Str? && StartsWith(ss[j].content.s, QuestionHead(qs[j], j + 1))
    ensures ss[i] != ss[j]
  {
    var x := LabelRest(ss[i].content.s, qs[i], i + 1);
    var y := LabelRest(ss[j].content.s, qs[j], j + 1);
    NumberedLabelsDiffer("Q", i + 1, j + 1, x, y);
  }

  /** A text that starts with question `n`'s head is its `Q{n}: ` label, then the rest. */
  lemma LabelRest(s: string, q: Js, n: nat) returns (rest: string)
    requires StartsWith(s, QuestionHead(q, n))
    ensures s == "Q" + NatToString(n) + ": " + rest
  {
    var p := "Q" + NatToString(n) + ": ";
    var after := Text(Get(q, "question")) + "\n\n";
    assert QuestionHead(q, n) == p + after;
    PrefixSplit(s, p, after);
    rest := s[|p|..];
  }

  /** A string that starts with `p + q` is `p` followed by the rest. */
  lemma PrefixSplit(s: string, p: string, q: string)
    requires StartsWith(s, p + q)
    ensures s == p + s[|p|..]
  {
    assert s[..|p|] == (p + q)[..|p|] == p;
    assert s == s[..|p|] + s[|p|..];
  }

  // ------------------------------------------------------------- flashcards

  /** `transformFlashcards(data)`: one numbered card per flashcard. */
  function TransformFlashcards(data: Js): (r: Outcome)
    ensures Or(Get(data, "flashcards"), Arr([])).Arr? ==>
      var cards := Or(Get(data, "flashcards"), Arr([])).items;
      (r == NoPreview <==> cards == [])
      && (r == Throws <==> SomeNullish(cards))
      && (r.Shown? ==> var p := r.preview;
            p.title == "Flashcard Deck" && |p.sections| == |cards|
            && p.metadata.totalCards == Some(Num(|cards| as real))
            && forall i :: 0 <= i < |cards| ==>
                 p.sections[i] == Section(Some(Str(CardHeading(cards[i], i + 1))), Get(cards[i], "answer"), Paragraph))
  {
    var xs := Or(Get(data, "flashcards"), Arr([]));
    if LengthIsZero(xs) then NoPreview
    else if !xs.Arr? || SomeNullish(xs.items) then Throws
    else
      var cards := xs.items;
      Shown(Preview("Flashcard Deck",
                    seq(|cards|, i requires 0 <= i < |cards| =>
                      Section(Some(Str(CardHeading(cards[i], i + 1))), Get(cards[i], "answer"), Paragraph)),
                    NoMetadata.(totalCards := Some(Num(|cards| as real)))))
  }

  /** A deck holding a `null` card throws rather than showing `Card 1: undefined`. */
  lemma NullCardThrows()
    ensures TransformFlashcards(Obj([("flashcards", Arr([Null]))])) == Throws
  {
    var xs := Or(Get(Obj([("flashcards", Arr([Null]))]), "flashcards"), Arr([]));
    assert Nullish(xs.items[0]);
  }

  /** `Card {n}: {question}` */
  function CardHeading(card: Js, n: nat): string
  {
    "Card " + NatToString(n) + ": " + Text(Get(card, "question"))
  }

  /** No two cards of a deck share a heading, whatever their questions. */
  lemma CardHeadingsDiffer(c: Js, d: Js, i: nat, j: nat)
    requires i != j
    ensures CardHeading(c, i) != CardHeading(d, j)
  {
    NumberedLabelsDiffer("Card ", i, j, Text(Get(c, "question")), Text(Get(d, "question")));
  }

  // --------------------------------------------------------------- dispatch

  /** `data` is an object with an array `revisions` field. */
  predicate IsRevisionWrapper(data: Js)
  {
    data.Obj? && Has(data, "revisions") && Get(data, "revisions").Arr?
  }

  /** The five modes with a preview, by their names. */
  function Dispatch(mode: string, data: Js): Outcome
  {
    if mode == "summary" then SummaryPreview(data)
    else if mode == "insights" then TransformInsights(data)
    else if mode == "notes" then NotesPreview(data)
    else if mode == "quiz" then QuizPreview(data)
    else if mode == "flashcards" then TransformFlashcards(data)
    else NoPreview
  }

  /** A revision wrapper whose first revision is `null` or `undefined`:
      reading its `content` throws. */
  predicate NullFirstRevision(data: Js)
  {
    IsRevisionWrapper(data) && Get(data, "revisions").items != [] && Nullish(Get(data, "revisions").items[0])
  }

  /** `transformModeContent(mode, data)` */
  function TransformModeContent(mode: string, data: Js): (r: Outcome)
    ensures !Truthy(data) ==> r == NoPreview
    ensures NullFirstRevision(data) ==> r == Throws
    ensures mode !in {"summary", "insights", "notes", "quiz", "flashcards"} && !NullFirstRevision(data) ==> r == NoPreview
    ensures IsRevisionWrapper(data) && !NullFirstRevision(data) ==>
      var revs := Get(data, "revisions").items;
      if revs != [] && Truthy(Get(revs[0], "content")) then r == Dispatch(mode, Get(revs[0], "content"))
      else r == NoPreview
    ensures Truthy(data) && !IsRevisionWrapper(data) ==> r == Dispatch(mode, data)
  {
    if !Truthy(data) then NoPreview
    else if IsRevisionWrapper(data) then
      var revs := Get(data, "revisions").items;
      if |revs| > 0 && Nullish(revs[0]) then Throws
      else if |revs| > 0 && Truthy(Get(revs[0], "content")) then Dispatch(mode, Get(revs[0], "content"))
      else NoPreview
    else Dispatch(mode, data)
  }

  /** A revision wrapper whose latest revision is `null` throws, whatever the mode. */
  lemma NullRevisionThrows(mode: string)
    ensures TransformModeContent(mode, Obj([("revisions", Arr([Null]))])) == Throws
  {
    var data := Obj([("revisions", Arr([Null]))]);
    assert IsRevisionWrapper(data) && Nullish(Get(data, "revisions").items[0]);
  }
}
