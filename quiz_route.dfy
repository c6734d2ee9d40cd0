/** The quiz endpoints: `/analyze` sizes a text and suggests how many
    questions to ask; `/` asks the AI service for a quiz, in the background
    when the text is long, and trims the answer to the requested number of
    questions. The document lookup, the AI service and the job queue are
    parameters: what they return is given. */
module QuizRoute {
  import opened Common
  import opened JsValue
  import Scoping
  import AiJson

  // ------------------------------------------------------------ analyze

  /** The answer of `/analyze`; `maxCount` is absent for an empty text. */
  datatype Analysis = Analysis(wordCount: nat, readingTime: nat, suggestedCount: nat, maxCount: Option<nat>)

  /** Words read per minute. */
  const WordsPerMinute := 200

  /** One suggested question per this many words. */
  const WordsPerSuggested := 150

  /** At most one question per this many words. */
  const WordsPerQuestion := 75

  /** `Math.min(hi, Math.max(lo, n))` */
  function Clamp(lo: int, hi: int, n: int): int
  {
    Min(hi, Max(lo, n))
  }

  /** The analysis of a non-empty text: the reading time is the word count
      over 200 rounded up, the suggestion lies between 5 and 50 and the
      maximum between 20 and 100. */
  function Density(text: string): (r: Analysis)
    ensures r.wordCount == WordCount(text)
    ensures r.readingTime * WordsPerMinute >= r.wordCount
    ensures r.readingTime == 0 || (r.readingTime - 1) * WordsPerMinute < r.wordCount
    ensures 5 <= r.suggestedCount <= 50 && r.maxCount.Some? && 20 <= r.maxCount.value <= 100
  {
    var wc := WordCount(text);
    Analysis(wc, CeilDiv(wc, WordsPerMinute),
             Clamp(5, 50, wc / WordsPerSuggested),
             Some(Clamp(20, 100, wc / WordsPerQuestion)))
  }

  /** `/analyze` once the text is known: the given text, or the document's
      scoped text when a file is named. */
  function AnalyzeText(text: string): (r: Analysis)
    ensures text == [] ==> r == Analysis(0, 0, 5, None)
  {
    if text == [] then Analysis(0, 0, 5, None) else Density(text)
  }

  /** `POST /analyze`: a named file's text comes from its stored document
      (`doc`, `None` when there is none: a 404 error). */
  function Analyze(text: string, fileId: string, doc: Option<Scoping.Document>, scope: Option<Scoping.Scope>): (r: Result<Analysis>)
    ensures fileId == [] ==> r == Ok(AnalyzeText(text))
    ensures fileId != [] ==> (r.Thrown? <==> doc.None?)
  {
    if fileId == [] then Ok(AnalyzeText(text))
    else match Scoping.ResolveScopedText(doc, scope, false)
      case NotFound(_) => Thrown
      case Text(t) => Ok(AnalyzeText(t))
  }

  /** The counts of a non-empty text: the reading time is the word count
      over 200 rounded up; the suggestion lies between 5 and 50, the maximum
      between 20 and 100, and the suggestion never exceeds the maximum. */
  lemma DensityBounds(text: string)
    requires text != []
    ensures var a := AnalyzeText(text);
            a.wordCount == WordCount(text)
            && a.readingTime * WordsPerMinute >= a.wordCount
            && (a.readingTime == 0 || (a.readingTime - 1) * WordsPerMinute < a.wordCount)
            && 5 <= a.suggestedCount <= 50
            && a.maxCount.Some? && 20 <= a.maxCount.value <= 100
            && a.suggestedCount <= a.maxCount.value
  {
  }

  /** The empty text's answer agrees with the formula at no words, except
      that it leaves out the maximum, which the formula puts at 20. */
  lemma EmptyAgreesExceptMax()
    ensures var e := AnalyzeText("");
            var f := Density(" ");
            e.wordCount == f.wordCount && e.readingTime == f.readingTime
            && e.suggestedCount == f.suggestedCount
            && e.maxCount == None && f.maxCount == Some(20)
  {
    assert TrimStart(" ") == "";
    assert WsSplit(" ") == ["", ""];
    assert CountNonEmpty(["", ""]) == 0 by {
      assert CountNonEmpty([""]) == 0;
    }
    assert WordCount(" ") == 0;
    assert CeilDiv(0, WordsPerMinute) == 0;
  }

  /** More words never lower the suggestion or the maximum. */
  lemma DensityMonotone(a: string, b: string)
    requires a != [] && b != [] && WordCount(a) <= WordCount(b)
    ensures AnalyzeText(a).suggestedCount <= AnalyzeText(b).suggestedCount
    ensures AnalyzeText(a).maxCount.value <= AnalyzeText(b).maxCount.value
    ensures AnalyzeText(a).readingTime <= AnalyzeText(b).readingTime
  {
  }

  // ------------------------------------------------------------ generate

  /** The question types the service knows, with their names in a request. */
  datatype QuestionType = MultipleChoice | TrueFalse | FillInTheBlank

  function TypeName(t: QuestionType): string
  {
    match t
    case MultipleChoice => "multiple-choice"
    case TrueFalse => "true-false"
    case FillInTheBlank => "fill-in-the-blank"
  }

  /** The instruction block that describes one question type's fields. */
  function Block(t: QuestionType): string
  {
    match t
    case MultipleChoice => "\n            - Multiple Choice (mc): Provide \"question\", \"options\": [{\"label\": \"A\", \"value\": \"option1\"}, ...], and \"correctAnswer\": \"value_of_correct_option\"."
    case TrueFalse => "\n            - True/False (tf): Provide \"question\", \"correctAnswer\": \"true\" or \"false\"."
    case FillInTheBlank => "\n            - Fill-in-the-Blank (fib): Provide \"question\" (use ____ for blank), and \"correctAnswer\": \"string_answer\"."
  }

  /** The blocks of the requested types, in the fixed order multiple
      choice, true/false, fill in the blank. */
  function Blocks(types: seq<string>): seq<QuestionType>
  {
    (if TypeName(MultipleChoice) in types then [MultipleChoice] else [])
    + (if TypeName(TrueFalse) in types then [TrueFalse] else [])
    + (if TypeName(FillInTheBlank) in types then [FillInTheBlank] else [])
  }

  /** The texts of blocks, one after another. */
  function Concat(bs: seq<QuestionType>): string
  {
    if bs == [] then "" else Block(bs[0]) + Concat(bs[1..])
  }

  /** `questionTypeInstructions`. */
  function TypeInstructions(types: seq<string>): string
  {
    Concat(Blocks(types))
  }

  /** A type's place in the fixed order. */
  function Rank(t: QuestionType): nat
  {
    match t
    case MultipleChoice => 0
    case TrueFalse => 1
    case FillInTheBlank => 2
  }

  /** Each type's block is part of the instructions exactly when the type
      is requested, and the blocks come once each, in the fixed order. */
  lemma BlocksIffRequested(types: seq<string>, t: QuestionType)
    ensures t in Blocks(types) <==> TypeName(t) in types
    ensures forall i, j :: 0 <= i < j < |Blocks(types)| ==> Rank(Blocks(types)[i]) < Rank(Blocks(types)[j])
  {
    var a := if TypeName(MultipleChoice) in types then [MultipleChoice] else [];
    var b := if TypeName(TrueFalse) in types then [TrueFalse] else [];
    var c := if TypeName(FillInTheBlank) in types then [FillInTheBlank] else [];
    var r := Blocks(types);
    assert r == a + b + c;
    forall i, j | 0 <= i < j < |r| ensures Rank(r[i]) < Rank(r[j]) {
      assert Rank(r[i]) < |a| + |b| + |c| && Rank(r[i]) >= 0;
      if i < |a| {
        assert r[i] == MultipleChoice;
        assert r[j] in b + c;
      } else if i < |a| + |b| {
        assert r[i] == TrueFalse && r[j] in c;
      } else {
        assert false;
      }
    }
  }

  /** The validated `settings` object; each field is `None` when absent. */
  datatype Settings = Settings(questionTypes: Option<seq<string>>, difficulty: Option<string>, questionCount: Option<nat>)

  /** The settings after their defaults: multiple choice, medium, ten. */
  datatype Choices = Choices(types: seq<string>, difficulty: string, count: nat)

  /** `const { questionTypes = [...], difficulty = 'medium', questionCount = 10 } = settings || {}` */
  function ChoicesOf(settings: Option<Settings>): (r: Choices)
    ensures settings.None? ==> r == Choices(["multiple-choice"], "medium", 10)
    ensures settings.Some? && settings.value.questionCount.Some? ==> r.count == settings.value.questionCount.value
    ensures settings.Some? && settings.value.questionCount.None? ==> r.count == 10
  {
    var s := match settings case Some(s) => s case None => Settings(None, None, None);
    Choices(match s.questionTypes case Some(ts) => ts case None => ["multiple-choice"],
            match s.difficulty case Some(d) => d case None => "medium",
            match s.questionCount case Some(c) => c case None => 10)
  }

  /** What the AI service is asked: the difficulty, the exact number of
      questions, the requested types (joined with `, `) and their
      instruction blocks. The fixed wording around them is left out. */
  datatype Prompt = Prompt(difficulty: string, count: nat, typeList: string, instructions: string)

  function PromptOf(c: Choices): Prompt
  {
    Prompt(c.difficulty, c.count, Join(c.types, ", "), TypeInstructions(c.types))
  }

  /** Texts longer than this are generated in the background. */
  const BackgroundThreshold := 10000

  /** What `POST /` answers: a queued job, the quiz, or an error passed on. */
  datatype Reply = Queued(jobId: string, text: string, prompt: Prompt) | Quiz(json: Js) | Failed

  /** `json.quiz.slice(0, count)` when it is longer than `count`; an object
      with a numeric length but no `slice` method is an error. */
  function Truncated(quiz: Js, count: nat): (r: Result<Js>)
    ensures quiz.Arr? && |quiz.items| > count ==> r == Ok(Arr(quiz.items[..count]))
    ensures quiz.Arr? && |quiz.items| <= count ==> r == Ok(quiz)
  {
    var len := LengthOf(quiz);
    if !(len.Num? && len.n > count as real) then Ok(quiz)
    else match quiz
      case Arr(items) => Ok(Arr(items[..count]))
      case Str(s) => Ok(Str(s[..count]))
      case _ => Thrown
  }

  /** `POST /`: `text` is the given text, used unless a file is named;
      `doc` is the named file's stored document; `background` is the
      request's flag; `redis` whether the queue is reachable; `jobId` the
      id the queue assigns; `aiReply` what the AI service answers; `parse`
      the JSON parser. */
  function Generate(text: string, fileId: string, doc: Option<Scoping.Document>, scope: Option<Scoping.Scope>,
                    settings: Option<Settings>, background: bool, redis: bool, jobId: string,
                    aiReply: Js, parse: string -> Option<Js>): (r: Reply)
    ensures fileId != [] && doc.None? ==> r == Failed
    ensures r.Queued? ==> redis && r.jobId == jobId && r.prompt == PromptOf(ChoicesOf(settings))
    ensures fileId == [] && r.Queued? ==> r.text == text && (background || |text| > BackgroundThreshold)
    ensures !redis && (fileId == [] || doc.Some?) ==>
      r == Answer(AiJson.SafeParseAiJson(aiReply, parse), ChoicesOf(settings).count)
  {
    var resolved := if fileId == [] then Scoping.Text(text) else Scoping.ResolveScopedText(doc, scope, true);
    if resolved.NotFound? then Failed
    else
      var fullText := resolved.text;
      var choices := ChoicesOf(settings);
      var prompt := PromptOf(choices);
      if (background || |fullText| > BackgroundThreshold) && redis then Queued(jobId, fullText, prompt)
      else Answer(AiJson.SafeParseAiJson(aiReply, parse), choices.count)
  }

  /** The reply built from the parsed AI answer: an error without a quiz,
      else the answer with its quiz cut to `count` questions. */
  function Answer(parsed: Option<Js>, count: nat): (r: Reply)
    ensures parsed.None? || !Truthy(Get(parsed.value, "quiz")) ==> r == Failed
    ensures !r.Queued?
    ensures r.Quiz? ==>
      parsed.Some? && Truncated(Get(parsed.value, "quiz"), count) == Ok(Get(r.json, "quiz"))
      && forall k :: k != "quiz" ==> Get(r.json, k) == Get(parsed.value, k)
  {
    match parsed
    case None => Failed
    case Some(json) =>
      if !Truthy(Get(json, "quiz")) then Failed
      else match Truncated(Get(json, "quiz"), count)
        case Thrown => Failed
        case Ok(quiz) => Quiz(With(json, "quiz", quiz))
  }

  /** A long text, or a request for the background, is queued when the
      queue is reachable, with the text and the prompt; nothing is asked of
      the AI service then. */
  lemma LongTextQueued(text: string, settings: Option<Settings>, background: bool, jobId: string,
                       aiReply: Js, parse: string -> Option<Js>)
    requires background || |text| > BackgroundThreshold
    ensures Generate(text, "", None, None, settings, background, true, jobId, aiReply, parse)
            == Queued(jobId, text, PromptOf(ChoicesOf(settings)))
  {
  }

  /** Without the queue, or for a short text not sent to the background,
      the parsed reply comes back with its quiz truncated. */
  lemma QuizReply(text: string, settings: Option<Settings>, background: bool, redis: bool, jobId: string,
                  aiReply: Js, parse: string -> Option<Js>, questions: seq<Js>)
    requires !redis || (!background && |text| <= BackgroundThreshold)
    requires var json := AiJson.SafeParseAiJson(aiReply, parse);
             json.Some? && Get(json.value, "quiz") == Arr(questions)
    ensures var json := AiJson.SafeParseAiJson(aiReply, parse).value;
            Generate(text, "", None, None, settings, background, redis, jobId, aiReply, parse)
            == Quiz(With(json, "quiz", Truncated(Arr(questions), ChoicesOf(settings).count).value))
  {
    AnsweredDirectly(text, settings, background, redis, jobId, aiReply, parse);
    AnswerWithQuiz(AiJson.SafeParseAiJson(aiReply, parse), ChoicesOf(settings).count, questions);
  }

  /** Without the queue, or for a short text not sent to the background,
      the reply is built from the AI service's answer. */
  lemma AnsweredDirectly(text: string, settings: Option<Settings>, background: bool, redis: bool, jobId: string,
                         aiReply: Js, parse: string -> Option<Js>)
    requires !redis || (!background && |text| <= BackgroundThreshold)
    ensures Generate(text, "", None, None, settings, background, redis, jobId, aiReply, parse)
            == Answer(AiJson.SafeParseAiJson(aiReply, parse), ChoicesOf(settings).count)
  {
  }

  /** An answer holding a quiz array comes back with that array truncated. */
  lemma AnswerWithQuiz(parsed: Option<Js>, count: nat, questions: seq<Js>)
    requires parsed.Some? && Get(parsed.value, "quiz") == Arr(questions)
    ensures Answer(parsed, count) == Quiz(With(parsed.value, "quiz", Truncated(Arr(questions), count).value))
  {
    assert Truncated(Arr(questions), count).Ok?;
  }

  /** The quiz that comes back has at most the requested number of
      questions: the first ones the AI service wrote, with the reply's
      other fields as they were. */
  lemma QuizTruncated(text: string, settings: Option<Settings>, background: bool, redis: bool, jobId: string,
                      aiReply: Js, parse: string -> Option<Js>, questions: seq<Js>, other: string)
    requires !redis || (!background && |text| <= BackgroundThreshold)
    requires var json := AiJson.SafeParseAiJson(aiReply, parse);
             json.Some? && Get(json.value, "quiz") == Arr(questions)
    ensures var r := Generate(text, "", None, None, settings, background, redis, jobId, aiReply, parse);
            var json := AiJson.SafeParseAiJson(aiReply, parse).value;
            var count := ChoicesOf(settings).count;
            r.Quiz? && Get(r.json, "quiz") == Arr(questions[..Min(count, |questions|)])
            && (other != "quiz" ==> Get(r.json, other) == Get(json, other))
  {
    QuizReply(text, settings, background, redis, jobId, aiReply, parse, questions);
    var json := AiJson.SafeParseAiJson(aiReply, parse).value;
    TruncatedPrefix(questions, ChoicesOf(settings).count);
    assert json.Obj? by { assert Get(json, "quiz").Arr?; }
  }

  /** Truncating a quiz array keeps its first `count` questions. */
  lemma TruncatedPrefix(questions: seq<Js>, count: nat)
    ensures Truncated(Arr(questions), count) == Ok(Arr(questions[..Min(count, |questions|)]))
  {
    if |questions| <= count {
      assert questions[..Min(count, |questions|)] == questions;
    }
  }

  /** A reply without a quiz is an error. */
  lemma NoQuizFails(text: string, settings: Option<Settings>, background: bool, redis: bool, jobId: string,
                    aiReply: Js, parse: string -> Option<Js>)
    requires !redis || (!background && |text| <= BackgroundThreshold)
    requires var json := AiJson.SafeParseAiJson(aiReply, parse);
             json.None? || !Truthy(Get(json.value, "quiz"))
    ensures Generate(text, "", None, None, settings, background, redis, jobId, aiReply, parse) == Failed
  {
  }
}
