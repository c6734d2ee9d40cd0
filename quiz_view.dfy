/** The quiz view: the learner's answers by question key, scoring on submit,
    the submit button's rule, and the inline edit of a question's text. A
    new quiz resets answers, results and score. */
module QuizView {
  import opened Common
  import opened JsValue

  /** `q${index}`: the key an answer is stored under. */
  function AnswerKey(i: nat): (k: string)
    ensures |k| >= 2 && k[0] == 'q'
  {
    "q" + NatToString(i)
  }

  /** Different questions store their answers under different keys. */
  lemma AnswerKeysDiffer(i: nat, j: nat)
    requires i != j
    ensures AnswerKey(i) != AnswerKey(j)
  {
    if AnswerKey(i) == AnswerKey(j) {
      assert AnswerKey(i)[1..] == NatToString(i) && AnswerKey(j)[1..] == NatToString(j);
      NatToStringInjective(i, j);
    }
  }

  /** `selectedAnswers[`q${i}`]`, `undefined` when unanswered. */
  function AnswerOf(answers: map<string, Js>, i: nat): Js
  {
    var k := AnswerKey(i);
    if k in answers then answers[k] else Undefined
  }

  /** Whether one question scores: true/false and multiple-choice questions
      by strict equality with the correct answer; fill-in-the-blank when both
      are strings equal after trimming and lower-casing; any other type (a
      short answer) never. A `null` or `undefined` question has no `type`
      to read: `checkQuiz` throws on it before asking. */
  predicate Counts(q: Js, answer: Js)
    requires !Nullish(q)
    ensures Counts(q, answer) ==> Get(q, "type") in {Str("tf"), Str("mc"), Str("fib")}
    ensures Counts(q, answer) && Get(q, "type") == Str("fib") ==> answer.Str? && Get(q, "correctAnswer").Str?
  {
    var kind, correct := Get(q, "type"), Get(q, "correctAnswer");
    if kind == Str("tf") || kind == Str("mc") then StrictEq(answer, correct)
    else if kind == Str("fib") then
      answer.Str? && correct.Str? && Lower(Trim(answer.s)) == Lower(Trim(correct.s))
    else false
  }

  /** For each question, whether it scores. */
  function Marks(items: seq<Js>, answers: map<string, Js>): (b: seq<bool>)
    requires !SomeNullish(items)
    ensures |b| == |items|
    ensures forall i :: 0 <= i < |items| ==> b[i] == Counts(items[i], AnswerOf(answers, i))
  {
    seq(|items|, i requires 0 <= i < |items| => Counts(items[i], AnswerOf(answers, i)))
  }

  /** The number of true marks. */
  function CountTrue(b: seq<bool>): (n: nat)
    ensures n <= |b|
  {
    if b == [] then 0 else CountTrue(b[..|b| - 1]) + (if b[|b| - 1] then 1 else 0)
  }

  /** One more mark adds one exactly when it is true. */
  lemma CountTrueSnoc(b: seq<bool>, x: bool)
    ensures CountTrue(b + [x]) == CountTrue(b) + (if x then 1 else 0)
  {
    assert (b + [x])[..|b|] == b;
  }

  /** The positions of the true marks. */
  function TrueIndices(b: seq<bool>): set<nat>
  {
    set i: nat | i < |b| && b[i]
  }

  /** Counting the true marks counts their positions. */
  lemma {:induction false} CountTrueIsSize(b: seq<bool>)
    ensures CountTrue(b) == |TrueIndices(b)|
  {
    if b != [] {
      var last := |b| - 1;
      CountTrueIsSize(b[..last]);
      var extra: set<nat> := if b[last] then {last} else {};
      assert TrueIndices(b) == TrueIndices(b[..last]) + extra;
      assert last !in TrueIndices(b[..last]);
    }
  }

  /** All marks true: the count is the length. */
  lemma {:induction false} CountAllTrue(b: seq<bool>)
    requires forall i :: 0 <= i < |b| ==> b[i]
    ensures CountTrue(b) == |b|
  {
    if b != [] {
      CountAllTrue(b[..|b| - 1]);
    }
  }

  /** The marks of one more question follow those of the questions before it. */
  lemma MarksStep(items: seq<Js>, answers: map<string, Js>, i: nat)
    requires i < |items| && !SomeNullish(items[..i + 1])
    ensures !SomeNullish(items[..i]) && !Nullish(items[i])
    ensures Marks(items[..i + 1], answers) == Marks(items[..i], answers) + [Counts(items[i], AnswerOf(answers, i))]
  {
    SomeNullishStep(items, i);
    var longer := Marks(items[..i + 1], answers);
    assert longer[..i] == Marks(items[..i], answers);
  }

  /** The number of questions that score. */
  function Score(items: seq<Js>, answers: map<string, Js>): (n: nat)
    requires !SomeNullish(items)
    ensures n <= |items|
  {
    CountTrue(Marks(items, answers))
  }

  /** The indices of the questions that score. */
  function CorrectIndices(items: seq<Js>, answers: map<string, Js>): (r: set<nat>)
    requires !SomeNullish(items)
    ensures forall i: nat :: i in r <==> i < |items| && Counts(items[i], AnswerOf(answers, i))
  {
    TrueIndices(Marks(items, answers))
  }

  /** The score is exactly the number of questions answered correctly. */
  lemma ScoreCountsCorrect(items: seq<Js>, answers: map<string, Js>)
    requires !SomeNullish(items)
    ensures Score(items, answers) == |CorrectIndices(items, answers)|
  {
    CountTrueIsSize(Marks(items, answers));
  }

  /** Every question answered correctly gives full marks. */
  lemma AllCorrectFullMarks(items: seq<Js>, answers: map<string, Js>)
    requires !SomeNullish(items)
    requires forall i: nat :: i < |items| ==> Counts(items[i], AnswerOf(answers, i))
    ensures Score(items, answers) == |items|
  {
    CountAllTrue(Marks(items, answers));
  }

  /** The keys of the first `n` questions. */
  function AnswerKeys(n: nat): set<string>
  {
    set i: nat | i < n :: AnswerKey(i)
  }

  lemma {:induction false} AnswerKeysSize(n: nat)
    ensures |AnswerKeys(n)| == n
  {
    if n > 0 {
      AnswerKeysSize(n - 1);
      assert AnswerKeys(n) == AnswerKeys(n - 1) + {AnswerKey(n - 1)};
      forall i: nat | i < n - 1
        ensures AnswerKey(i) != AnswerKey(n - 1)
      {
        AnswerKeysDiffer(i, n - 1);
      }
    }
  }

  /** Submit is enabled once there are at least as many answers as questions. */
  predicate SubmitEnabled(answers: map<string, Js>, questions: nat)
  {
    |answers.Keys| >= questions
  }

  /** Answering every question enables submit. */
  lemma AnsweringAllEnablesSubmit(answers: map<string, Js>, n: nat)
    requires forall i: nat :: i < n ==> AnswerKey(i) in answers
    ensures SubmitEnabled(answers, n)
  {
    AnswerKeysSize(n);
    SubsetSize(AnswerKeys(n), answers.Keys);
  }

  lemma {:induction false} SubsetSize<T>(a: set<T>, b: set<T>)
    requires a <= b
    ensures |a| <= |b|
    decreases |a|
  {
    if a != {} {
      var x :| x in a;
      SubsetSize(a - {x}, b - {x});
    }
  }

  /** The question list of a quiz that the edit handler works on. */
  predicate EditableQuiz(quizData: Js, i: nat)
  {
    quizData.Obj? && Get(quizData, "quiz").Arr? && i < |Get(quizData, "quiz").items|
  }

  /** `handleQuestionChange(index)` with the edited text: None (no change)
      without quiz data; otherwise question `index` gets the new text and
      nothing else changes. */
  function EditQuestion(quizData: Js, i: nat, text: string): (r: Option<Js>)
    requires Truthy(quizData) ==> EditableQuiz(quizData, i)
    ensures r.None? <==> !Truthy(quizData)
    ensures r.Some? ==>
      var before, after := Get(quizData, "quiz").items, Get(r.value, "quiz");
      after.Arr? && |after.items| == |before|
      && Get(after.items[i], "question") == Str(text)
      && (before[i].Obj? ==> forall k :: k != "question" ==> Get(after.items[i], k) == Get(before[i], k))
      && (forall j :: 0 <= j < |before| && j != i ==> after.items[j] == before[j])
      && (forall k :: k != "quiz" ==> Get(r.value, k) == Get(quizData, k))
  {
    if !Truthy(quizData) then None
    else
      var items := Get(quizData, "quiz").items;
      var updated := items[i := With(items[i], "question", Str(text))];
      Some(With(quizData, "quiz", Arr(updated)))
  }

  class QuizState {
    var selectedAnswers: map<string, Js>
    var showResults: bool
    var score: int

    constructor ()
      ensures selectedAnswers == map[] && !showResults && score == 0
    {
      selectedAnswers, showResults, score := map[], false, 0;
    }

    /** The effect on a new `quizData`: answers, results and score reset. */
    method OnQuizDataChange()
      modifies this
      ensures selectedAnswers == map[] && !showResults && score == 0
    {
      selectedAnswers, showResults, score := map[], false, 0;
    }

    /** `handleAnswerChange(index, value)`: only that question's answer
        changes. */
    method HandleAnswerChange(index: nat, value: Js)
      modifies `selectedAnswers
      ensures selectedAnswers == old(selectedAnswers)[AnswerKey(index) := value]
      ensures AnswerOf(selectedAnswers, index) == value
      ensures forall j: nat :: j != index ==> AnswerOf(selectedAnswers, j) == AnswerOf(old(selectedAnswers), j)
    {
      selectedAnswers := selectedAnswers[AnswerKey(index) := value];
      forall j: nat | j != index
        ensures AnswerOf(selectedAnswers, j) == AnswerOf(old(selectedAnswers), j)
      {
        AnswerKeysDiffer(j, index);
      }
    }

    /** `checkQuiz()`: nothing without quiz data; a quiz field that is not an
        array, or a `null` or `undefined` question, throws (returned as true)
        before anything changes; otherwise the score is the number of
        questions answered correctly and the results are shown. */
    method CheckQuiz(quizData: Js) returns (throws: bool)
      modifies `score, `showResults
      ensures throws <==> Truthy(quizData) && (!Get(quizData, "quiz").Arr? || SomeNullish(Get(quizData, "quiz").items))
      ensures !Truthy(quizData) || throws ==> score == old(score) && showResults == old(showResults)
      ensures Truthy(quizData) && !throws ==>
        showResults && score == Score(Get(quizData, "quiz").items, selectedAnswers)
        && 0 <= score <= |Get(quizData, "quiz").items|
    {
      if !Truthy(quizData) {
        return false;
      }
      var quiz := Get(quizData, "quiz");
      if !quiz.Arr? {
        return true;
      }
      var items := quiz.items;
      var current := 0;
      for i := 0 to |items|
        invariant score == old(score) && showResults == old(showResults)
        invariant !SomeNullish(items[..i])
        invariant current == CountTrue(Marks(items[..i], selectedAnswers))
      {
        SomeNullishStep(items, i);
        if Nullish(items[i]) {
          assert Nullish(items[i]);
          return true;
        }
        MarksStep(items, selectedAnswers, i);
        CountTrueSnoc(Marks(items[..i], selectedAnswers), Counts(items[i], AnswerOf(selectedAnswers, i)));
        if Counts(items[i], AnswerOf(selectedAnswers, i)) {
          current := current + 1;
        }
      }
      assert items[..|items|] == items;
      score := current;
      showResults := true;
      throws := false;
    }
  }
}
