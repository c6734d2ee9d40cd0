/** The HTML fragment both export dialogs render from a module's data before
    it is wrapped in a page and sent to the export endpoint. The two
    components carry the same `renderDataToHtml`; they differ only in the
    field names a flashcard row reads and in the error text, which are
    parameters here. A `TypeError` inside the `try` (a property read on
    `null`, `.map` on something that is not an array) is `None`. */
module ExportRender {
  import opened Common
  import opened JsValue

  /** A property read on these throws. */
  predicate Missing(v: Js) { v.Null? || v.Undefined? }

  /** Both parts rendered without throwing, concatenated. */
  function Both(a: Option<string>, b: Option<string>): (r: Option<string>)
    ensures r.Some? <==> a.Some? && b.Some?
    ensures r.Some? ==> r.value == a.value + b.value
  {
    if a.Some? && b.Some? then Some(a.value + b.value) else None
  }

  lemma BothAssoc(a: Option<string>, b: Option<string>, c: Option<string>)
    ensures Both(Both(a, b), c) == Both(a, Both(b, c))
  {
    if a.Some? && b.Some? && c.Some? {
      assert (a.value + b.value) + c.value == a.value + (b.value + c.value);
    }
  }

  /** `xs.map(f).join('')` for a callback that may throw. */
  function ConcatMap(xs: seq<Js>, f: Js -> Option<string>): (r: Option<string>)
    ensures r.Some? <==> forall i :: 0 <= i < |xs| ==> f(xs[i]).Some?
  {
    if xs == [] then Some("") else Both(f(xs[0]), ConcatMap(xs[1..], f))
  }

  /** `xs && xs.length > 0 ? xs.map(f).join('') : empty` */
  function ListPart(xs: Js, f: Js -> Option<string>, empty: string): (r: Option<string>)
    ensures !NonEmptyList(xs) ==> r == Some(empty)
    ensures NonEmptyList(xs) && !xs.Arr? ==> r.None?
    ensures NonEmptyList(xs) && xs.Arr? ==> r == ConcatMap(xs.items, f)
  {
    if !NonEmptyList(xs) then Some(empty)
    else if xs.Arr? then ConcatMap(xs.items, f)
    else None
  }

  /** `<li>${p}</li>` */
  function ListItem(p: Js): Option<string>
  {
    Some("<li>" + Text(p) + "</li>")
  }

  /** `(s.points || []).map(p => `<li>${p}</li>`).join('')` */
  function PointItems(points: Js): (r: Option<string>)
    ensures r.Some? <==> !Truthy(points) || points.Arr?
  {
    var list := Or(points, Arr([]));
    if list.Arr? then ConcatMap(list.items, ListItem) else None
  }

  function NoteSection(s: Js): (r: Option<string>)
    ensures r.Some? <==> !Missing(s) && (!Truthy(Get(s, "points")) || Get(s, "points").Arr?)
  {
    if Missing(s) then None
    else Both(Some("<h2>" + Text(Or(Get(s, "section"), Str("Unstructured Section"))) + "</h2><ul>"),
              Both(PointItems(Get(s, "points")), Some("</ul>")))
  }

  function InsightBlock(i: Js): (r: Option<string>)
    ensures r.Some? <==> !Missing(i)
  {
    if Missing(i) then None
    else Some("<h3>" + Text(Or(Get(i, "title"), Str("Untitled Insight"))) + "</h3><p>"
              + Text(Or(Get(i, "description"), Str(""))) + "</p>")
  }

  /** The two fields a flashcard row shows, in its two cells. */
  datatype CardFields = CardFields(front: string, back: string)

  function CardRow(fields: CardFields, f: Js): (r: Option<string>)
    ensures r.Some? <==> !Missing(f)
  {
    if Missing(f) then None
    else Some("<tr><td>" + Text(Or(Get(f, fields.front), Str(""))) + "</td><td>"
              + Text(Or(Get(f, fields.back), Str(""))) + "</td></tr>")
  }

  /** `[ ] ${o.label}: ${o.value}` */
  function OptionItem(o: Js): (r: Option<string>)
    ensures r.Some? <==> !Missing(o)
  {
    if Missing(o) then None
    else Some("<li>[ ] " + Text(Get(o, "label")) + ": " + Text(Get(o, "value")) + "</li>")
  }

  predicate IsMc(q: Js) { StrictEq(Get(q, "type"), Str("mc")) }

  /** The heading line of question number `n`. */
  function QuestionHead(q: Js, n: nat): string
  {
    "<div><p><strong>Question " + NatToString(n) + ": " + Text(Or(Get(q, "question"), Str("..."))) + "</strong></p>"
  }

  function AnswerPart(q: Js): string
  {
    "<p><i>Correct Answer: " + Text(Or(Get(q, "correctAnswer"), Str("Not provided"))) + "</i></p></div>"
  }

  /** The option list of a multiple-choice question. */
  function OptionsPart(q: Js): (r: Option<string>)
    ensures r.Some? <==> !Truthy(Get(q, "options"))
                         || (Get(q, "options").Arr? && forall k :: 0 <= k < |Get(q, "options").items| ==> !Missing(Get(q, "options").items[k]))
  {
    var opts := Or(Get(q, "options"), Arr([]));
    if opts.Arr? then Both(Some("<ul>"), Both(ConcatMap(opts.items, OptionItem), Some("</ul>"))) else None
  }

  /** The block of question `q` at 1-based position `n`: options are listed
      only for a multiple-choice question. */
  function QuestionBlock(q: Js, n: nat): (r: Option<string>)
    ensures Missing(q) ==> r.None?
    ensures !Missing(q) && !IsMc(q) ==> r == Some(QuestionHead(q, n) + AnswerPart(q))
    ensures !Missing(q) && IsMc(q) ==> (r.Some? <==> OptionsPart(q).Some?)
    ensures r.Some? ==> StartsWith(r.value, "<div><p><strong>Question " + NatToString(n) + ": ")
  {
    if Missing(q) then None
    else
      var r := Both(Some(QuestionHead(q, n)), Both(if IsMc(q) then OptionsPart(q) else Some(""), Some(AnswerPart(q))));
      assert "" + AnswerPart(q) == AnswerPart(q);
      assert r.Some? ==> r.value == QuestionHead(q, n) + (r.value[|QuestionHead(q, n)|..]);
      r
  }

  /** `xs.map((x, idx) => f(x, idx + n)).join('')`: each element rendered
      with its position counted from `n`. */
  function NumberedConcat(xs: seq<Js>, n: nat, f: (Js, nat) -> Option<string>): Option<string>
    decreases |xs|
  {
    if xs == [] then Some("") else Both(f(xs[0], n), NumberedConcat(xs[1..], n + 1, f))
  }

  /** The rendering succeeds exactly when every element renders. */
  lemma {:induction false} NumberedConcatDefined(xs: seq<Js>, n: nat, f: (Js, nat) -> Option<string>)
    ensures NumberedConcat(xs, n, f).Some? <==> forall k :: 0 <= k < |xs| ==> f(xs[k], n + k).Some?
    decreases |xs|
  {
    if xs != [] {
      NumberedConcatDefined(xs[1..], n + 1, f);
      forall k | 0 < k < |xs| ensures xs[k] == xs[1..][k - 1] && n + k == n + 1 + (k - 1) { }
    }
  }

  /** Numbering runs on across a split of the list: the elements after the
      first `|a|` are numbered from `n + |a|`. */
  lemma {:induction false} NumberedConcatAppend(a: seq<Js>, b: seq<Js>, n: nat, f: (Js, nat) -> Option<string>)
    ensures NumberedConcat(a + b, n, f) == Both(NumberedConcat(a, n, f), NumberedConcat(b, n + |a|, f))
    decreases |a|
  {
    if a == [] {
      assert a + b == b;
      var rest := NumberedConcat(b, n, f);
      if rest.Some? {
        assert "" + rest.value == rest.value;
      }
    } else {
      var h, ra, rb := f(a[0], n), NumberedConcat(a[1..], n + 1, f), NumberedConcat(b, n + |a|, f);
      NumberedConcatCons(a, b, n, f);
      NumberedConcatAppend(a[1..], b, n + 1, f);
      assert n + 1 + |a[1..]| == n + |a|;
      assert NumberedConcat(a[1..] + b, n + 1, f) == Both(ra, rb);
      BothAssoc(h, ra, rb);
    }
  }

  /** A list with a first element renders it first, at position `n`. */
  lemma NumberedConcatCons(a: seq<Js>, b: seq<Js>, n: nat, f: (Js, nat) -> Option<string>)
    requires a != []
    ensures NumberedConcat(a + b, n, f) == Both(f(a[0], n), NumberedConcat(a[1..] + b, n + 1, f))
    ensures NumberedConcat(a, n, f) == Both(f(a[0], n), NumberedConcat(a[1..], n + 1, f))
  {
    assert (a + b)[0] == a[0] && (a + b)[1..] == a[1..] + b;
  }

  /** A one-element list renders as its element at position `n`. */
  lemma NumberedConcatSingle(x: Js, n: nat, f: (Js, nat) -> Option<string>)
    ensures NumberedConcat([x], n, f) == f(x, n)
  {
    assert [x][1..] == [];
    if f(x, n).Some? {
      assert f(x, n).value + "" == f(x, n).value;
    }
  }

  /** The question blocks of `qs`, numbered from 1. */
  function QuizItems(qs: seq<Js>): (r: Option<string>)
    ensures r.Some? <==> forall k :: 0 <= k < |qs| ==> QuestionBlock(qs[k], k + 1).Some?
  {
    NumberedConcatDefined(qs, 1, QuestionBlock);
    NumberedConcat(qs, 1, QuestionBlock)
  }

  /** Splitting the quiz: the questions after the first `|a|` are numbered
      from `|a| + 1`, and a quiz of one question is numbered 1. */
  lemma QuizNumbering(a: seq<Js>, b: seq<Js>, q: Js)
    ensures QuizItems(a + b) == Both(QuizItems(a), NumberedConcat(b, |a| + 1, QuestionBlock))
    ensures QuizItems([q]) == QuestionBlock(q, 1)
  {
    NumberedConcatAppend(a, b, 1, QuestionBlock);
    NumberedConcatSingle(q, 1, QuestionBlock);
  }

  function MindmapItem(node: Js): (r: Option<string>)
    ensures r.Some? <==> !Missing(node)
  {
    if Missing(node) then None
    else Some("<li>" + Text(Or(Get(Get(node, "data"), "label"), Get(node, "id"))) + "</li>")
  }

  const NoContent := "<h1>No content available</h1>"

  /** The heading each known mode's fragment opens with. */
  function Heading(mode: string): (r: Option<string>)
    ensures r.Some? <==> mode in {"summary", "notes", "insights", "flashcards", "quiz", "mindmap"}
  {
    if mode == "summary" then Some("<h1>Executive Summary</h1>")
    else if mode == "notes" then Some("<h1>Study Notes</h1>")
    else if mode == "insights" then Some("<h1>Core Insights</h1>")
    else if mode == "flashcards" then Some("<h1>Flashcards</h1>")
    else if mode == "quiz" then Some("<h1>Quiz Assessment</h1>")
    else if mode == "mindmap" then Some("<h1>Mind Map Structure</h1>")
    else None
  }

  /** What follows the heading of a known mode, or None when it throws. */
  function ModeBody(mode: string, data: Js, fields: CardFields): Option<string>
  {
    if mode == "summary" then
      Both(Some("<div>" + Text(Or(Get(data, "summary"), Str("<i>No summary content available.</i>")))
                + "</div><h2>Key Highlights</h2><ul>"),
           Both(ListPart(Get(data, "keyPoints"), ListItem, "<li>No key points available.</li>"), Some("</ul>")))
    else if mode == "notes" then ListPart(Get(data, "notes"), NoteSection, "<p>No notes available.</p>")
    else if mode == "insights" then ListPart(Get(data, "insights"), InsightBlock, "<p>No insights available.</p>")
    else if mode == "flashcards" then
      Both(Some("<table>"),
           Both(ListPart(Get(data, "flashcards"), f => CardRow(fields, f), "<tr><td>No flashcards available.</td></tr>"),
                Some("</table>")))
    else if mode == "quiz" then
      var qs := Get(data, "quiz");
      if !NonEmptyList(qs) then Some("<p>No quiz questions available.</p>")
      else if qs.Arr? then QuizItems(qs.items) else None
    else
      Both(Some("<ul>"), Both(ListPart(Get(data, "nodes"), MindmapItem, "<li>No mind map nodes available.</li>"), Some("</ul>")))
  }

  /** The `switch` inside the `try`: a known mode renders its heading and
      body; any other mode gives the string itself or the value's JSON text.
      None is a `TypeError` the `catch` turns into the error fragment. */
  function Body(mode: string, data: Js, fields: CardFields, stringify: Js -> string): (r: Option<string>)
    ensures Heading(mode).Some? ==> (r.Some? <==> ModeBody(mode, data, fields).Some?)
    ensures Heading(mode).Some? && r.Some? ==> r.value == Heading(mode).value + ModeBody(mode, data, fields).value
    ensures Heading(mode).None? && data.Str? ==> r == Some(data.s)
    ensures Heading(mode).None? && !data.Str? ==> r == Some(stringify(data))
  {
    var h := Heading(mode);
    if h.Some? then
      Both(h, ModeBody(mode, data, fields))
    else if data.Str? then Some(data.s)
    else Some(stringify(data))
  }

  /** The list each list module renders. */
  function ListField(mode: string): string
  {
    if mode == "mindmap" then "nodes" else mode
  }

  /** What a list module's fragment shows after its heading when its list
      is empty. */
  function EmptyBody(mode: string): string
  {
    if mode == "notes" then "<p>No notes available.</p>"
    else if mode == "insights" then "<p>No insights available.</p>"
    else if mode == "flashcards" then "<table>" + ("<tr><td>No flashcards available.</td></tr>" + "</table>")
    else if mode == "quiz" then "<p>No quiz questions available.</p>"
    else "<ul>" + ("<li>No mind map nodes available.</li>" + "</ul>")
  }

  /** A list module whose list is missing or empty renders only the empty-list line. */
  lemma EmptyListBody(mode: string, data: Js, fields: CardFields)
    requires mode in {"notes", "insights", "flashcards", "quiz", "mindmap"}
    requires !NonEmptyList(Get(data, ListField(mode)))
    ensures ModeBody(mode, data, fields) == Some(EmptyBody(mode))
  {
  }

  /** `renderDataToHtml(mode, data)`: editor data passes through (`''` when
      falsy), other falsy data gives the no-content heading, and a throw in
      the body gives `errorHead` followed by the JSON text and `</p>`. */
  function RenderDataToHtml(mode: string, data: Js, fields: CardFields, errorHead: string, stringify: Js -> string): (r: string)
    ensures mode == "editor" && data.Str? ==> r == data.s
    ensures mode == "editor" && !Truthy(data) ==> r == ""
    ensures mode != "editor" && !Truthy(data) ==> r == NoContent
    ensures mode != "editor" && Truthy(data) && Body(mode, data, fields, stringify).Some?
            ==> r == Body(mode, data, fields, stringify).value
    ensures mode != "editor" && Truthy(data) && Body(mode, data, fields, stringify).None?
            ==> r == errorHead + stringify(data) + "</p>"
  {
    if mode == "editor" then Text(Or(data, Str("")))
    else if !Truthy(data) then NoContent
    else
      var b := Body(mode, data, fields, stringify);
      if b.Some? then b.value else errorHead + stringify(data) + "</p>"
  }

  /** A quiz whose questions are all objects, and whose multiple-choice
      options are arrays of objects, renders without the error fragment. */
  ghost predicate WellFormedQuestion(q: Js)
  {
    q.Obj? && (IsMc(q) ==> Get(q, "options").Arr? && forall k :: 0 <= k < |Get(q, "options").items| ==> Get(q, "options").items[k].Obj?)
  }

  lemma WellFormedQuizRenders(qs: seq<Js>)
    requires forall k :: 0 <= k < |qs| ==> WellFormedQuestion(qs[k])
    ensures QuizItems(qs).Some?
  {
    forall k | 0 <= k < |qs|
      ensures QuestionBlock(qs[k], k + 1).Some?
    {
      var q := qs[k];
      if IsMc(q) {
        assert OptionsPart(q).Some?;
      }
    }
  }
}
