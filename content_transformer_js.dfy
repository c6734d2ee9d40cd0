/** The older, untyped preview transformers. They share the section format
    of the typed ones but differ in the details: a summary falls back to
    `summaryText` and to the data itself; insights, notes and flashcards
    fall back to a `data` field; the metadata of insights and flashcards is
    read from the wrapped field, so only the wrapped input form completes;
    a quiz is `null` only when its `quiz` field is missing; a true/false
    answer prints as `True` or `False`. A call that would throw a TypeError
    gives `Throws`. */
module PreviewJs {
  import opened Common
  import opened JsValue
  import opened PreviewModel
  import PreviewTs

  // ---------------------------------------------------------------- summary

  /** The sections `transformSummary` pushes before counting words. */
  function SummarySections(data: Js): seq<Section>
  {
    var summary, summaryText := Get(data, "summary"), Get(data, "summaryText");
    if Truthy(summary) then
      (if summary.Str? then [Section(None, summary, Paragraph)]
       else if summary.Arr? then ListSections(summary.items)
       else [])
    else if Truthy(summaryText) then [Section(None, summaryText, Paragraph)]
    else if data.Str? then [Section(None, data, Paragraph)]
    else []
  }

  /** `sections.reduce((acc, s) => acc + s.content.split(/\s+/).length, 0)`,
      or None when some content is not a string and has no `split`. */
  function Words(sections: seq<Section>): (r: Option<nat>)
    ensures r.Some? <==> forall i :: 0 <= i < |sections| ==> sections[i].content.Str?
    ensures r.Some? ==> r.value >= |sections|
  {
    if sections == [] then Some(0)
    else
      var init, c := Words(sections[..|sections| - 1]), sections[|sections| - 1].content;
      if init.None? || !c.Str? then None else Some(init.value + |WsSplit(c.s)|)
  }

  /** `transformSummary(data)` */
  function SummaryPreview(data: Js): (r: Outcome)
    ensures r == NoPreview <==> !Truthy(data) || SummarySections(data) == []
    ensures r.Shown? ==>
      var p := r.preview;
      p.title == "Document Summary" && p.sections == SummarySections(data) && |p.sections| >= 1
      && p.metadata.wordCount.Some? && p.metadata.wordCount.value >= |p.sections|
      && p.metadata.readTime == Some(CeilDiv(p.metadata.wordCount.value, 200))
    // a string summary is one paragraph
    ensures Truthy(data) && Truthy(Get(data, "summary")) && Get(data, "summary").Str? ==>
      r.Shown? && r.preview.sections == [Section(None, Get(data, "summary"), Paragraph)]
    // an array summary is one list item per point, and throws on a point that is no string
    ensures Truthy(data) && Get(data, "summary").Arr? ==>
      var points := Get(data, "summary").items;
      (r == NoPreview <==> points == [])
      && (r == Throws <==> exists i :: 0 <= i < |points| && !points[i].Str?)
      && (r.Shown? ==> |r.preview.sections| == |points|
                       && forall i :: 0 <= i < |points| ==> r.preview.sections[i] == Section(None, points[i], ListItem))
    // `summaryText`, then a string data, are the fallbacks
    ensures Truthy(data) && !Truthy(Get(data, "summary")) && Truthy(Get(data, "summaryText")) ==>
      (r == Throws <==> !Get(data, "summaryText").Str?)
      && (r.Shown? ==> r.preview.sections == [Section(None, Get(data, "summaryText"), Paragraph)])
    ensures Truthy(data) && !Truthy(Get(data, "summary")) && !Truthy(Get(data, "summaryText")) ==>
      (r.Shown? <==> data.Str?) && (r.Shown? ==> r.preview.sections == [Section(None, data, Paragraph)])
  {
    if !Truthy(data) then NoPreview
    else
      var sections := SummarySections(data);
      if sections == [] then NoPreview
      else
        var words := Words(sections);
        if words.None? then Throws
        else Shown(Preview("Document Summary", sections,
                           NoMetadata.(wordCount := Some(words.value), readTime := Some(CeilDiv(words.value, 200)))))
  }

  /** `transformSummary(data)`, pushing its sections. */
  method TransformSummary(data: Js) returns (r: Outcome)
    ensures r == SummaryPreview(data)
  {
    if !Truthy(data) {
      return NoPreview;
    }
    var sections := PushSummarySections(data);
    if |sections| == 0 {
      return NoPreview;
    }
    var words := Words(sections);
    if words.None? {
      return Throws;
    }
    r := Shown(Preview("Document Summary", sections,
                       NoMetadata.(wordCount := Some(words.value), readTime := Some(CeilDiv(words.value, 200)))));
  }

  /** The summary's sections, pushed one branch at a time. */
  method PushSummarySections(data: Js) returns (sections: seq<Section>)
    ensures sections == SummarySections(data)
  {
    sections := [];
    var summary := Get(data, "summary");
    if Truthy(summary) {
      if summary.Str? {
        sections := sections + [Section(None, summary, Paragraph)];
      } else if summary.Arr? {
        sections := PushPoints(sections, summary.items);
      }
    } else if Truthy(Get(data, "summaryText")) {
      sections := sections + [Section(None, Get(data, "summaryText"), Paragraph)];
    } else if data.Str? {
      sections := sections + [Section(None, data, Paragraph)];
    }
  }

  // --------------------------------------------------------------- insights

  /** The list a transformer works on: the data itself when it is an array,
      else its `field`, else its `data`. */
  function ListOf(data: Js, field: string): Js
  {
    if data.Arr? then data else Or(Get(data, field), Get(data, "data"))
  }

  /** `data.insights.length` and `data.insights.map(…)` both complete only
      when `insights` is an array; on `null` the first property read throws,
      and so does `insight.title` on a `null` or `undefined` insight. */
  function TransformInsights(data: Js): (r: Outcome)
    ensures data.Null? || data.Undefined? ==> r == Throws
    ensures data.Arr? ==> r == Throws
    ensures r == NoPreview <==> !data.Null? && !data.Undefined? && !ListOf(data, "insights").Arr?
    ensures r.Shown? <==> !data.Null? && !data.Undefined? && Get(data, "insights").Arr?
                          && !SomeNullish(Get(data, "insights").items)
    ensures r.Shown? ==>
      var xs, p := Get(data, "insights").items, r.preview;
      p.title == "Key Insights" && |p.sections| == |xs|
      && p.metadata.count == Some(|xs|) && p.metadata.topics.Some? && |p.metadata.topics.value| == |xs|
      && forall i :: 0 <= i < |xs| ==>
           p.sections[i] == Section(Some(Get(xs[i], "title")), Get(xs[i], "description"), Paragraph)
           && p.metadata.topics.value[i] == Get(xs[i], "title")
  {
    if data.Null? || data.Undefined? then Throws
    else
      var xs := ListOf(data, "insights");
      if !xs.Arr? then NoPreview
      else
        var insights := Get(data, "insights");
        if !insights.Arr? || SomeNullish(xs.items) then Throws
        else
          var items := xs.items;
          Shown(Preview("Key Insights",
                        seq(|items|, i requires 0 <= i < |items| =>
                          Section(Some(Get(items[i], "title")), Get(items[i], "description"), Paragraph)),
                        NoMetadata.(count := Some(|insights.items|),
                                    topics := Some(seq(|insights.items|, i requires 0 <= i < |insights.items| =>
                                                         Get(insights.items[i], "title"))))))
  }

  /** On wrapped insights without blocks, the two transformers agree. */
  lemma InsightsAgree(data: Js)
    requires data.Obj? && Get(data, "insights").Arr? && Get(data, "insights").items != []
    requires !PreviewTs.HasBlocks(data)
    ensures TransformInsights(data) == PreviewTs.TransformInsights(data)
  {
    var xs := Get(data, "insights");
    assert Or(xs, Arr([])) == xs;
    assert !PreviewTs.LengthIsZero(xs);
  }

  // ------------------------------------------------------------------ notes

  const KeyConcepts := "Key Concepts"

  /** The sections of `transformNotes`: the kept notes of the notes array
      (Thrown when a note is `null` or `undefined`), else the key concepts
      joined by newlines, else none. */
  function NoteSectionsOf(data: Js): (r: Result<seq<Section>>)
    ensures ListOf(data, "notes").Arr? ==> r == PreviewTs.NoteSections(ListOf(data, "notes").items)
    ensures ListOf(data, "notes").Arr? ==> (r.Thrown? <==> SomeNullish(ListOf(data, "notes").items))
    ensures !ListOf(data, "notes").Arr? && Get(data, "keyConcepts").Arr? ==>
      r == Ok([Section(Some(Str(KeyConcepts)), Str(JoinText(Get(data, "keyConcepts").items, "\n")), ListItem)])
    ensures !ListOf(data, "notes").Arr? && !Get(data, "keyConcepts").Arr? ==> r == Ok([])
  {
    var notes, concepts := ListOf(data, "notes"), Get(data, "keyConcepts");
    if notes.Arr? then PreviewTs.NoteSections(notes.items)
    else if concepts.Arr? then Ok([Section(Some(Str(KeyConcepts)), Str(JoinText(concepts.items, "\n")), ListItem)])
    else Ok([])
  }

  /** `transformNotes(data)`: throws only on a `null` or `undefined` note. */
  function NotesPreview(data: Js): (r: Outcome)
    ensures r == Throws <==> Truthy(data) && NoteSectionsOf(data).Thrown?
    ensures r == NoPreview <==> !Truthy(data) || NoteSectionsOf(data) == Ok([])
    ensures r.Shown? ==> r.preview.title == "Study Notes" && NoteSectionsOf(data) == Ok(r.preview.sections)
                         && r.preview.metadata.count == Some(|r.preview.sections|)
  {
    if !Truthy(data) then NoPreview
    else
      var sections := NoteSectionsOf(data);
      if sections.Thrown? then Throws
      else if sections.value == [] then NoPreview
      else Shown(Preview("Study Notes", sections.value, NoMetadata.(count := Some(|sections.value|))))
  }

  /** A bare notes array holding `null` throws. */
  lemma NullNoteThrows()
    ensures NotesPreview(Arr([Null])) == Throws
  {
    assert Nullish(ListOf(Arr([Null]), "notes").items[0]);
  }

  /** Without a notes array, the key concepts give one section holding all of
      them, one per line. */
  lemma KeyConceptsFallback(data: Js)
    requires data.Obj? && !Truthy(Get(data, "notes")) && !Get(data, "data").Arr?
    requires Get(data, "keyConcepts").Arr?
    ensures NotesPreview(data).Shown?
    ensures NotesPreview(data).preview.sections
            == [Section(Some(Str(KeyConcepts)), Str(JoinText(Get(data, "keyConcepts").items, "\n")), ListItem)]
  {
    assert ListOf(data, "notes") == Get(data, "data");
  }

  /** `transformNotes(data)`, collecting the notes with `push`. */
  method TransformNotes(data: Js) returns (r: Outcome)
    ensures r == NotesPreview(data)
  {
    if !Truthy(data) {
      return NoPreview;
    }
    var sections: seq<Section> := [];
    var notes := ListOf(data, "notes");
    var concepts := Get(data, "keyConcepts");
    if notes.Arr? {
      var collected := PreviewTs.CollectNotes(notes.items);
      if collected.Thrown? {
        return Throws;
      }
      sections := collected.value;
    } else if concepts.Arr? {
      sections := sections + [Section(Some(Str(KeyConcepts)), Str(JoinText(concepts.items, "\n")), ListItem)];
    }
    if |sections| == 0 {
      return NoPreview;
    }
    r := Shown(Preview("Study Notes", sections, NoMetadata.(count := Some(|sections|))));
  }

  // ------------------------------------------------------------------- quiz

  /** `\nCorrect Answer: True` or `False`, by the answer's truthiness. */
  function TrueFalseAnswer(correct: Js): (r: string)
    ensures r == "\nCorrect Answer: True" || r == "\nCorrect Answer: False"
    ensures Truthy(correct) <==> r == "\nCorrect Answer: True"
  {
    "\nCorrect Answer: " + (if Truthy(correct) then "True" else "False")
  }

  /** What follows a question's head, or None when its options cannot be
      iterated. */
  function QuestionTail(q: Js): (r: Option<string>)
    ensures r.None? <==> PreviewTs.HasBadOptions(q)
  {
    var kind, correct, options := Get(q, "type"), Get(q, "correctAnswer"), Get(q, "options");
    if StrictEq(kind, Str("mc")) && Truthy(options) then
      (if options.Arr? && !SomeNullish(options.items) then Some(PreviewTs.OptionLines(options.items, correct)) else None)
    else if StrictEq(kind, Str("tf")) then Some(PreviewTs.TrueFalseLines + TrueFalseAnswer(correct))
    else if StrictEq(kind, Str("fib")) then Some(PreviewTs.AnswerLine(correct))
    else Some("")
  }

  /** The section text of question `q` at 1-based position `n`, or None
      when it throws. */
  function QuestionText(q: Js, n: nat): (r: Option<string>)
    ensures r.None? <==> PreviewTs.QuestionThrows(q)
    ensures r.Some? ==> StartsWith(r.value, PreviewTs.QuestionHead(q, n))
  {
    var tail := QuestionTail(q);
    if Nullish(q) || tail.None? then None
    else
      var head := PreviewTs.QuestionHead(q, n);
      assert (head + tail.value)[..|head|] == head;
      Some(head + tail.value)
  }

  /** The text of question `q` at position `n`, built with `+=`. */
  method BuildQuestion(q: Js, n: nat) returns (r: Option<string>)
    ensures r == QuestionText(q, n)
  {
    if Nullish(q) {
      return None;
    }
    var content := PreviewTs.QuestionHead(q, n);
    ghost var head := content;
    var kind, correct, options := Get(q, "type"), Get(q, "correctAnswer"), Get(q, "options");
    if StrictEq(kind, Str("mc")) && Truthy(options) {
      if !options.Arr? {
        return None;
      }
      var pushed := PreviewTs.PushOptions(content, options.items, correct);
      if pushed.None? {
        return None;
      }
      content := pushed.value;
      assert QuestionTail(q) == Some(PreviewTs.OptionLines(options.items, correct));
    } else if StrictEq(kind, Str("tf")) {
      content := content + PreviewTs.TrueFalseLines;
      content := content + TrueFalseAnswer(correct);
      assert content == head + (PreviewTs.TrueFalseLines + TrueFalseAnswer(correct));
      assert QuestionTail(q) == Some(PreviewTs.TrueFalseLines + TrueFalseAnswer(correct));
    } else if StrictEq(kind, Str("fib")) {
      content := content + PreviewTs.AnswerLine(correct);
      assert QuestionTail(q) == Some(PreviewTs.AnswerLine(correct));
    } else {
      assert QuestionTail(q) == Some("");
    }
    assert content == head + QuestionTail(q).value;
    r := Some(content);
  }

  /** One paragraph per question, or None when some question throws. */
  function QuizSections(qs: seq<Js>): (r: Option<seq<Section>>)
    ensures r.None? <==> exists i :: 0 <= i < |qs| && PreviewTs.QuestionThrows(qs[i])
    ensures r.Some? ==> |r.value| == |qs|
  {
    if qs == [] then Some([])
    else
      var init, last := QuizSections(qs[..|qs| - 1]), QuestionText(qs[|qs| - 1], |qs|);
      assert forall i :: 0 <= i < |qs| - 1 ==> qs[..|qs| - 1][i] == qs[i];
      if init.None? || last.None? then None else Some(init.value + [Section(None, Str(last.value), Paragraph)])
  }

  /** `transformQuiz(data)`: `null` only without a quiz; an empty quiz is
      shown with no sections; difficulty defaults to `medium`. */
  function QuizPreview(data: Js): (r: Outcome)
    ensures r == NoPreview <==> !Truthy(data) || !Truthy(Get(data, "quiz"))
    ensures r == Throws <==> Truthy(data) && Truthy(Get(data, "quiz"))
                             && (!Get(data, "quiz").Arr? || QuizSections(Get(data, "quiz").items).None?)
    ensures r.Shown? ==>
      var qs, p := Get(data, "quiz").items, r.preview;
      p.title == "Assessment Quiz" && |p.sections| == |qs|
      && p.metadata.totalQuestions == Some(|qs|)
      && p.metadata.difficulty == Some(Or(Get(data, "difficulty"), Str("medium")))
  {
    if !Truthy(data) || !Truthy(Get(data, "quiz")) then NoPreview
    else
      var quiz := Get(data, "quiz");
      if !quiz.Arr? then Throws
      else
        var sections := QuizSections(quiz.items);
        if sections.None? then Throws
        else Shown(Preview("Assessment Quiz", sections.value,
                           NoMetadata.(totalQuestions := Some(|quiz.items|),
                                       difficulty := Some(Or(Get(data, "difficulty"), Str("medium"))))))
  }

  /** One more question's paragraph follows those of the questions before it. */
  lemma QuizSectionsStep(qs: seq<Js>, i: nat)
    requires i < |qs|
    ensures QuizSections(qs[..i + 1])
            == (var init, last := QuizSections(qs[..i]), QuestionText(qs[i], i + 1);
                if init.None? || last.None? then None else Some(init.value + [Section(None, Str(last.value), Paragraph)]))
  {
    var pre := qs[..i + 1];
    assert pre[..|pre| - 1] == qs[..i] && pre[|pre| - 1] == qs[i];
  }

  /** `transformQuiz(data)`, mapping the questions one at a time. */
  method TransformQuiz(data: Js) returns (r: Outcome)
    ensures r == QuizPreview(data)
  {
    if !Truthy(data) || !Truthy(Get(data, "quiz")) {
      return NoPreview;
    }
    var quiz := Get(data, "quiz");
    if !quiz.Arr? {
      return Throws;
    }
    var qs := quiz.items;
    var sections: seq<Section> := [];
    for i := 0 to |qs|
      invariant QuizSections(qs[..i]) == Some(sections)
    {
      var text := BuildQuestion(qs[i], i + 1);
      QuizSectionsStep(qs, i);
      if text.None? {
        assert PreviewTs.QuestionThrows(qs[i]);
        return Throws;
      }
      sections := sections + [Section(None, Str(text.value), Paragraph)];
    }
    assert qs[..|qs|] == qs;
    r := Shown(Preview("Assessment Quiz", sections,
                       NoMetadata.(totalQuestions := Some(|qs|), difficulty := Some(Or(Get(data, "difficulty"), Str("medium"))))));
  }

  // ------------------------------------------------------------- flashcards

  /** `transformFlashcards(data)`: `card.question` throws on a `null` or
      `undefined` card; `totalCards` is `data.flashcards.length`, which
      throws on `null` and on an array input. */
  function TransformFlashcards(data: Js): (r: Outcome)
    ensures data.Null? || data.Undefined? || data.Arr? ==> r == Throws
    ensures r == NoPreview <==> !data.Null? && !data.Undefined? && !ListOf(data, "flashcards").Arr?
    ensures !Nullish(data) && ListOf(data, "flashcards").Arr? && SomeNullish(ListOf(data, "flashcards").items) ==>
      r == Throws
    ensures r.Shown? ==> !SomeNullish(ListOf(data, "flashcards").items)
    ensures r.Shown? ==>
      var cards, p := ListOf(data, "flashcards").items, r.preview;
      p.title == "Flashcard Deck" && |p.sections| == |cards|
      && p.metadata.totalCards == Some(LengthOf(Get(data, "flashcards")))
      && forall i :: 0 <= i < |cards| ==>
           p.sections[i] == Section(Some(Str(PreviewTs.CardHeading(cards[i], i + 1))), Get(cards[i], "answer"), Paragraph)
    ensures Truthy(Get(data, "flashcards")) && Get(data, "flashcards").Arr? && !data.Arr?
            && !SomeNullish(Get(data, "flashcards").items) ==>
      r.Shown? && r.preview.metadata.totalCards == Some(Num(|Get(data, "flashcards").items| as real))
  {
    if data.Null? || data.Undefined? then Throws
    else
      var xs := ListOf(data, "flashcards");
      if !xs.Arr? then NoPreview
      else
        var fc := Get(data, "flashcards");
        if SomeNullish(xs.items) || fc.Null? || fc.Undefined? then Throws
        else
          var cards := xs.items;
          Shown(Preview("Flashcard Deck",
                        seq(|cards|, i requires 0 <= i < |cards| =>
                          Section(Some(Str(PreviewTs.CardHeading(cards[i], i + 1))), Get(cards[i], "answer"), Paragraph)),
                        NoMetadata.(totalCards := Some(LengthOf(fc)))))
  }

  // --------------------------------------------------------------- dispatch

  /** `transformModeContent(mode, data)`: the five modes by name, `null`
      otherwise; no unwrapping and no check of the data first. */
  function TransformModeContent(mode: string, data: Js): (r: Outcome)
    ensures mode == "summary" ==> r == SummaryPreview(data)
    ensures mode == "insights" ==> r == TransformInsights(data)
    ensures mode == "notes" ==> r == NotesPreview(data)
    ensures mode == "quiz" ==> r == QuizPreview(data)
    ensures mode == "flashcards" ==> r == TransformFlashcards(data)
    ensures mode !in {"summary", "insights", "notes", "quiz", "flashcards"} ==> r == NoPreview
  {
    match mode
    case "summary" => SummaryPreview(data)
    case "insights" => TransformInsights(data)
    case "notes" => NotesPreview(data)
    case "quiz" => QuizPreview(data)
    case "flashcards" => TransformFlashcards(data)
    case _ => NoPreview
  }

  /** Unlike the typed dispatcher, which gives `null` for missing data, this
      one throws on missing insights or flashcards. */
  lemma MissingDataDiffers(mode: string)
    requires mode == "insights" || mode == "flashcards"
    ensures TransformModeContent(mode, Null) == Throws
    ensures PreviewTs.TransformModeContent(mode, Null) == NoPreview
  {
  }
}
