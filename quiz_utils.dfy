/**
 * utils/quizUtils.js: the prompt builders, the validator/normaliser of the AI
 * provider's reply, and the conversion of a validated reply into the shape the
 * Quiz collection stores.
 */
module QuizUtils {
  import opened Wrappers
  import opened Js
  import opened QuizModel

  const NoExplanation := "No explanation provided."

  // ---------------------------------------------------------------------------
  // Prompt builders
  // ---------------------------------------------------------------------------

  const TopicPromptRules :=
    "generate a concise, specific, and "
    + "educational topic name for a quiz. The topic "
    + "should be descriptive but no longer than 5-7 "
    + "words. Respond only with the topic name, "
    + "without any additional text."
  const HintPromptOpening := "Based on this hint "
  const HintPromptBridge := " and the image (if provided), "
  const ImageOnlyOpening := "Based on the provided image, "

  /** The opening of the topic instruction: the quoted hint when there is one, otherwise the image. */
  function TopicPromptOpening(topicHint: string): (r: string)
    ensures Trim(topicHint) != "" <==> r != ImageOnlyOpening
  {
    if topicHint != "" && Trim(topicHint) != "" then
      var r := HintPromptOpening + ("\"" + topicHint + "\"") + HintPromptBridge;
      assert r[11] == HintPromptOpening[11] == 'i' != ImageOnlyOpening[11];
      r
    else
      ImageOnlyOpening
  }

  /** The instruction asking the provider to name a topic, from a hint or from the image alone. */
  function GenerateTopicPrompt(topicHint: string): (r: string)
    ensures Trim(topicHint) != "" <==> r != ImageOnlyOpening + TopicPromptRules
  {
    var opening := TopicPromptOpening(topicHint);
    SameEndingCancels(opening, ImageOnlyOpening, TopicPromptRules);
    opening + TopicPromptRules
  }

  /** Two strings that agree after the same ending was appended to each agree before. */
  lemma SameEndingCancels(a: string, b: string, c: string)
    ensures a + c == b + c ==> a == b
  {
    if a + c == b + c {
      assert a == (a + c)[..|a|];
      assert b == (b + c)[..|b|];
    }
  }

  /** A non-blank hint is quoted verbatim inside the prompt, ahead of the fixed instructions. */
  lemma TopicPromptQuotesHint(topicHint: string)
    requires Trim(topicHint) != ""
    ensures Contains(GenerateTopicPrompt(topicHint), "\"" + topicHint + "\"")
    ensures Contains(GenerateTopicPrompt(topicHint), TopicPromptRules)
  {
    var quoted := "\"" + topicHint + "\"";
    assert topicHint != "";
    var front := HintPromptOpening + quoted + HintPromptBridge;
    assert GenerateTopicPrompt(topicHint) == front + TopicPromptRules;
    ContainsMiddle(HintPromptOpening, quoted, HintPromptBridge);
    ContainsInLeft(front, TopicPromptRules, quoted);
    ContainsEnd(front, TopicPromptRules);
  }

  const QuizPromptOpening := "Generate a quiz on the topic "
  const QuizPromptLevel := " with a difficulty level of "
  const QuizPromptCount :=
    ".\n\n"
    + "Create 10 multiple-choice questions.\n\n"
    + "For each question:\n"
    + "1. Include the question text\n"
  const FourOptionsRule := "2. Provide exactly 4 options (labeled 1-4)"
  const OneBasedRule := "3. Indicate the correct option (as a number 1-4)"
  const QuizPromptFormat :=
    "\n"
    + "4. Include a detailed explanation of why the "
    + "correct answer is right and why others are "
    + "wrong\n\n"
    + "Return the result as a valid JSON object "
    + "with the following structure:\n"
    + "{\n"
    + "  \"questions\": [\n"
    + "    {\n"
    + "      \"questionText\": \"Your question here\",\n"
    + "      \"options\": [\"Option 1\", \"Option 2\", "
    + "\"Option 3\", \"Option 4\"],\n"
    + "      \"correctOption\": 2,\n"
    + "      \"explanation\": \"Detailed explanation "
    + "for why option 2 is correct and why others "
    + "are wrong\"\n"
    + "    },\n"
    + "    ...more questions\n"
    + "  ]\n"
    + "}\n\n"
    + "Ensure all questions relate directly to the "
    + "topic "
  const QuizPromptAppropriate := " and are appropriate for the "
  const QuizPromptClosing :=
    " difficulty level. If using an image as "
    + "context, make the questions relevant to the "
    + "content of the image."

  /** The instruction asking the provider for ten questions on a topic at a level. */
  function GenerateQuizPrompt(topic: string, level: string): string {
    QuizPromptHead(topic, level) + QuizPromptTail(topic, level)
  }

  /** Everything up to the third numbered instruction. */
  function QuizPromptHead(topic: string, level: string): string {
    QuizPromptOpening + ("\"" + topic + "\"") + QuizPromptLevel + ("\"" + level + "\"") + QuizPromptCount
    + FourOptionsRule + "\n" + OneBasedRule
  }

  /** The fourth instruction, the JSON layout and the closing reminder. */
  function QuizPromptTail(topic: string, level: string): string {
    QuizPromptFormat + ("\"" + topic + "\"") + QuizPromptAppropriate + level + QuizPromptClosing
  }

  /**
   * The prompt names the topic and the level, each in double quotes, and asks
   * for four options per question with a 1-based correct option. These are
   * stated here rather than on GenerateQuizPrompt, so that the requests built
   * from the prompt do not carry them.
   */
  lemma QuizPromptStatesContract(topic: string, level: string)
    ensures Contains(GenerateQuizPrompt(topic, level), "\"" + topic + "\"")
    ensures Contains(GenerateQuizPrompt(topic, level), "\"" + level + "\"")
    ensures Contains(GenerateQuizPrompt(topic, level), FourOptionsRule)
    ensures Contains(GenerateQuizPrompt(topic, level), OneBasedRule)
  {
    var head := QuizPromptHead(topic, level);
    QuizPromptHeadStatesContract(topic, level);
    ContainsInLeft(head, QuizPromptTail(topic, level), "\"" + topic + "\"");
    ContainsInLeft(head, QuizPromptTail(topic, level), "\"" + level + "\"");
    ContainsInLeft(head, QuizPromptTail(topic, level), FourOptionsRule);
    ContainsInLeft(head, QuizPromptTail(topic, level), OneBasedRule);
  }

  lemma QuizPromptHeadStatesContract(topic: string, level: string)
    ensures Contains(QuizPromptHead(topic, level), "\"" + topic + "\"")
    ensures Contains(QuizPromptHead(topic, level), "\"" + level + "\"")
    ensures Contains(QuizPromptHead(topic, level), FourOptionsRule)
    ensures Contains(QuizPromptHead(topic, level), OneBasedRule)
  {
    var quotedTopic := "\"" + topic + "\"";
    var quotedLevel := "\"" + level + "\"";
    var p1 := QuizPromptOpening + quotedTopic;
    ContainsEnd(QuizPromptOpening, quotedTopic);
    var p2 := p1 + QuizPromptLevel;
    ContainsInLeft(p1, QuizPromptLevel, quotedTopic);
    var p3 := p2 + quotedLevel;
    ContainsInLeft(p2, quotedLevel, quotedTopic);
    ContainsEnd(p2, quotedLevel);
    var p4 := p3 + QuizPromptCount;
    ContainsInLeft(p3, QuizPromptCount, quotedTopic);
    ContainsInLeft(p3, QuizPromptCount, quotedLevel);
    var p5 := p4 + FourOptionsRule;
    ContainsInLeft(p4, FourOptionsRule, quotedTopic);
    ContainsInLeft(p4, FourOptionsRule, quotedLevel);
    ContainsEnd(p4, FourOptionsRule);
    var p6 := p5 + "\n";
    ContainsInLeft(p5, "\n", quotedTopic);
    ContainsInLeft(p5, "\n", quotedLevel);
    ContainsInLeft(p5, "\n", FourOptionsRule);
    var p7 := p6 + OneBasedRule;
    ContainsInLeft(p6, OneBasedRule, quotedTopic);
    ContainsInLeft(p6, OneBasedRule, quotedLevel);
    ContainsInLeft(p6, OneBasedRule, FourOptionsRule);
    ContainsEnd(p6, OneBasedRule);
  }

  // ---------------------------------------------------------------------------
  // Locating the JSON text: the regular expression /\{[\s\S]*\}/
  // ---------------------------------------------------------------------------

  function FirstIndex(s: string, c: char): (r: Option<nat>)
    ensures r.Some? ==> r.value < |s| && s[r.value] == c && forall k :: 0 <= k < r.value ==> s[k] != c
    ensures r.None? ==> forall k :: 0 <= k < |s| ==> s[k] != c
  {
    if s == [] then None
    else if s[0] == c then Some(0)
    else match FirstIndex(s[1..], c)
      case None => None
      case Some(k) => Some(k + 1)
  }

  function LastIndex(s: string, c: char): (r: Option<nat>)
    ensures r.Some? ==> r.value < |s| && s[r.value] == c && forall k :: r.value < k < |s| ==> s[k] != c
    ensures r.None? ==> forall k :: 0 <= k < |s| ==> s[k] != c
  {
    if s == [] then None
    else if s[|s| - 1] == c then Some(|s| - 1)
    else LastIndex(s[..|s| - 1], c)
  }

  /** Some `{` comes before some `}`: the regular expression can match at all. */
  predicate HasBracePair(s: string) {
    exists i, j :: 0 <= i < j < |s| && s[i] == '{' && s[j] == '}'
  }

  /** s[i..j+1] is the leftmost, greedy match: i is the first `{` and j the last `}`. */
  predicate IsBraceMatch(s: string, i: int, j: int) {
    && 0 <= i < j < |s| && s[i] == '{' && s[j] == '}'
    && (forall k :: 0 <= k < i ==> s[k] != '{')
    && (forall k :: j < k < |s| ==> s[k] != '}')
  }

  /** `aiResponse.match(/\{[\s\S]*\}/)`: the text from the first `{` to the last `}` after it. */
  function ExtractJson(s: string): (r: Option<string>)
    ensures r.None? <==> !HasBracePair(s)
    ensures r.Some? ==> exists i, j :: IsBraceMatch(s, i, j) && r.value == s[i..j + 1]
  {
    match FirstIndex(s, '{')
    case None => None
    case Some(i) =>
      match LastIndex(s, '}')
      case None => None
      case Some(j) =>
        if i < j then
          assert IsBraceMatch(s, i, j);
          Some(s[i..j + 1])
        else None
  }

  // ---------------------------------------------------------------------------
  // Validation of the parsed reply
  // ---------------------------------------------------------------------------

  /** Why parseQuizResponse throws. TypeErr stands for the engine's own TypeError. */
  datatype QuizError =
    | NoJsonFound
    | InvalidJson
    | TypeErr
    | MissingQuestions
    | MissingQuestionText(number: nat)
    | InvalidOptions(number: nat)
    | InvalidCorrectOption(number: nat)

  function Message(e: QuizError): string {
    match e
    case NoJsonFound => "No valid JSON found in the response"
    case InvalidJson => "JSON.parse: syntax error"
    case TypeErr => "TypeError"
    case MissingQuestions => "Invalid quiz format: missing questions array"
    case MissingQuestionText(n) => "Question " + DecimalString(n) + " is missing questionText"
    case InvalidOptions(n) => "Question " + DecimalString(n) + " has invalid options"
    case InvalidCorrectOption(n) => "Question " + DecimalString(n) + " has invalid correctOption"
  }

  /** The first check a question fails, in the order the validator makes them. */
  datatype Fault = NullQuestion | NoText | BadOptions | BadCorrectOption

  predicate TextOk(q: Value)
    requires !IsNullish(q)
  {
    Truthy(Prop(q, "questionText"))
  }

  predicate OptionsOk(q: Value)
    requires !IsNullish(q)
  {
    var o := Prop(q, "options");
    o.Arr? && |o.items| >= 2
  }

  predicate CorrectOptionOk(q: Value)
    requires !IsNullish(q) && OptionsOk(q)
  {
    var c := Prop(q, "correctOption");
    c.Num? && 1.0 <= c.n <= |Prop(q, "options").items| as real
  }

  /** A question every check accepts. */
  predicate WellFormedQuestion(q: Value) {
    !IsNullish(q) && TextOk(q) && OptionsOk(q) && CorrectOptionOk(q)
  }

  /** The checks of utils/quizUtils.js:267-275, made in order; None when all pass. */
  function QuestionFault(q: Value): (r: Option<Fault>)
    ensures r.None? <==> WellFormedQuestion(q)
    ensures r == Some(NullQuestion) <==> IsNullish(q)
    ensures r == Some(NoText) <==> !IsNullish(q) && !TextOk(q)
    ensures r == Some(BadOptions) <==> !IsNullish(q) && TextOk(q) && !OptionsOk(q)
    ensures r == Some(BadCorrectOption) <==> !IsNullish(q) && TextOk(q) && OptionsOk(q) && !CorrectOptionOk(q)
  {
    if IsNullish(q) then Some(NullQuestion)
    else if !TextOk(q) then Some(NoText)
    else if !OptionsOk(q) then Some(BadOptions)
    else if !CorrectOptionOk(q) then Some(BadCorrectOption)
    else None
  }

  /** The error thrown for the question at 0-based position k; messages count from 1. */
  function FaultError(k: nat, f: Fault): QuizError {
    match f
    case NullQuestion => TypeErr
    case NoText => MissingQuestionText(k + 1)
    case BadOptions => InvalidOptions(k + 1)
    case BadCorrectOption => InvalidCorrectOption(k + 1)
  }

  /** A question with truthy text is an object (primitives have no such property). */
  lemma TextMeansObject(q: Value)
    requires !IsNullish(q) && TextOk(q)
    ensures q.Obj?
  {
  }

  /** `q.explanation = "No explanation provided."` when the explanation is falsy. */
  function Repair(q: Value): (r: Value)
    requires q.Obj?
    ensures r.Obj? && Truthy(Prop(r, "explanation"))
    ensures r.fields.Keys == q.fields.Keys + {"explanation"}
    ensures forall key :: key in q.fields && key != "explanation" ==> r.fields[key] == q.fields[key]
    ensures Truthy(Prop(q, "explanation")) ==> r == q
  {
    if Truthy(Prop(q, "explanation")) then q
    else Obj(q.fields["explanation" := Str(NoExplanation)])
  }

  /**
   * The forEach of utils/quizUtils.js:266-280 run over the first n questions:
   * either every one of them is well formed and the result holds them repaired,
   * or the error names the first one that is not.
   */
  function ValidatePrefix(qs: seq<Value>, n: nat): (r: Result<seq<Value>, QuizError>)
    requires n <= |qs|
    ensures r.Ok? <==> forall k :: 0 <= k < n ==> WellFormedQuestion(qs[k])
    ensures r.Ok? ==> |r.value| == n && forall k :: 0 <= k < n ==> r.value[k] == Repair(qs[k])
    ensures r.Err? ==> exists k :: 0 <= k < n && FirstFaultAt(qs, k) && r.error == FaultError(k, QuestionFault(qs[k]).value)
  {
    if n == 0 then Ok([])
    else
      match ValidatePrefix(qs, n - 1)
      case Err(e) => Err(e)
      case Ok(done) =>
        match QuestionFault(qs[n - 1])
        case Some(f) =>
          assert FirstFaultAt(qs, n - 1);
          Err(FaultError(n - 1, f))
        case None => Ok(done + [Repair(qs[n - 1])])
  }

  /** Question k is the first question that fails a check. */
  predicate FirstFaultAt(qs: seq<Value>, k: nat) {
    && k < |qs|
    && !WellFormedQuestion(qs[k])
    && forall j :: 0 <= j < k ==> WellFormedQuestion(qs[j])
  }

  /** One more question: the prefix either fails on it or grows by its repaired form. */
  lemma ValidateStep(qs: seq<Value>, n: nat)
    requires n < |qs| && ValidatePrefix(qs, n).Ok?
    ensures QuestionFault(qs[n]).Some? ==> ValidatePrefix(qs, n + 1) == Err(FaultError(n, QuestionFault(qs[n]).value))
    ensures QuestionFault(qs[n]).None? ==> ValidatePrefix(qs, n + 1) == Ok(ValidatePrefix(qs, n).value + [Repair(qs[n])])
  {
  }

  /** Once a prefix fails, every longer prefix fails with the same error. */
  lemma {:induction false} ValidateErrorPersists(qs: seq<Value>, m: nat, n: nat)
    requires m <= n <= |qs|
    requires ValidatePrefix(qs, m).Err?
    ensures ValidatePrefix(qs, n) == ValidatePrefix(qs, m)
    decreases n - m
  {
    if m < n {
      ValidateErrorPersists(qs, m, n - 1);
    }
  }

  /** parseQuizResponse as a function of the reply and of JSON.parse. */
  function QuizResponse(reply: Value, parse: string -> Option<Value>): (r: Result<Value, QuizError>)
    ensures !reply.Str? ==> (r.Ok? <==> reply.Null? || reply.Arr? || reply.Obj?)
    ensures !reply.Str? && r.Ok? ==> r.value == reply
  {
    if reply.Null? || reply.Arr? || reply.Obj? then Ok(reply)
    else if !reply.Str? then Err(TypeErr)
    else if ExtractJson(reply.s).None? then Err(NoJsonFound)
    else if parse(ExtractJson(reply.s).value).None? then Err(InvalidJson)
    else ValidateParsed(parse(ExtractJson(reply.s).value).value)
  }

  /** The checks on the parsed object, lines 261-282. */
  function ValidateParsed(parsed: Value): Result<Value, QuizError> {
    if IsNullish(parsed) then Err(TypeErr)
    else
      var questions := Prop(parsed, "questions");
      if !Truthy(questions) || !questions.Arr? then Err(MissingQuestions)
      else
        match ValidatePrefix(questions.items, |questions.items|)
        case Err(e) => Err(e)
        case Ok(repaired) => Ok(Obj(parsed.fields["questions" := Arr(repaired)]))
  }

  /**
   * utils/quizUtils.js:244-287. Structured input is handed back untouched; text
   * is cut down to its brace-delimited part, parsed, and its questions checked
   * one by one, the first bad one aborting, a missing explanation patched in place.
   */
  method ParseQuizResponse(reply: Value, parse: string -> Option<Value>) returns (r: Result<Value, QuizError>)
    ensures r == QuizResponse(reply, parse)
  {
    if reply.Null? || reply.Arr? || reply.Obj? {
      return Ok(reply);
    }
    if !reply.Str? {
      return Err(TypeErr);
    }
    var jsonMatch := ExtractJson(reply.s);
    if jsonMatch.None? {
      return Err(NoJsonFound);
    }
    var parsedOrFail := parse(jsonMatch.value);
    if parsedOrFail.None? {
      return Err(InvalidJson);
    }
    var parsed := parsedOrFail.value;
    if IsNullish(parsed) {
      return Err(TypeErr);
    }
    var original := Prop(parsed, "questions");
    if !Truthy(original) || !original.Arr? {
      return Err(MissingQuestions);
    }
    var checked := ValidateQuestions(original.items);
    if checked.Err? {
      return Err(checked.error);
    }
    return Ok(Obj(parsed.fields["questions" := Arr(checked.value)]));
  }

  /** The first malformed question decides the outcome of the whole array. */
  lemma ValidateStopsAt(original: seq<Value>, index: nat)
    requires index < |original| && ValidatePrefix(original, index).Ok?
    requires QuestionFault(original[index]).Some?
    ensures ValidatePrefix(original, |original|) == Err(FaultError(index, QuestionFault(original[index]).value))
  {
    ValidateStep(original, index);
    ValidateErrorPersists(original, index + 1, |original|);
  }

  /** One well-formed question: writing its repaired form at the boundary extends the validated prefix. */
  lemma ValidateAdvance(original: seq<Value>, questions: seq<Value>, index: nat)
    requires |questions| == |original| && index < |original|
    requires ValidatePrefix(original, index) == Ok(questions[..index])
    requires questions[index..] == original[index..]
    requires QuestionFault(original[index]).None?
    ensures var next := questions[index := Repair(original[index])];
      && ValidatePrefix(original, index + 1) == Ok(next[..index + 1])
      && next[index + 1..] == original[index + 1..]
  {
    var next := questions[index := Repair(original[index])];
    ValidateStep(original, index);
    assert next[..index + 1] == questions[..index] + [Repair(original[index])];
    assert next[index + 1..] == questions[index + 1..];
    assert questions[index + 1..] == questions[index..][1..];
  }

  /**
   * The forEach of utils/quizUtils.js:266-280: each question in turn is checked
   * for text, options and correctOption, the first failure aborting with its
   * 1-based number, and a falsy explanation is replaced in the array.
   */
  method ValidateQuestions(original: seq<Value>) returns (r: Result<seq<Value>, QuizError>)
    ensures r == ValidatePrefix(original, |original|)
  {
    var questions := original;
    var index := 0;
    while index < |questions|
      invariant |questions| == |original| && 0 <= index <= |original|
      invariant ValidatePrefix(original, index) == Ok(questions[..index])
      invariant questions[index..] == original[index..]
    {
      var q := questions[index];
      assert q == questions[index..][0] == original[index];
      var fault := QuestionFault(q);
      if fault.Some? {
        ValidateStopsAt(original, index);
        return Err(FaultError(index, fault.value));
      }
      ValidateAdvance(original, questions, index);
      if !Truthy(Prop(q, "explanation")) {
        var patched := Obj(q.fields["explanation" := Str(NoExplanation)]);
        assert patched == Repair(q);
        questions := questions[index := patched];
      } else {
        assert Repair(q) == q;
        assert questions[index := q] == questions;
      }
      index := index + 1;
    }
    assert questions[..index] == questions;
    return Ok(questions);
  }

  // ---------------------------------------------------------------------------
  // Conversion to the stored shape
  // ---------------------------------------------------------------------------

  /** The shape a quiz takes before the controller adds its owner. */
  datatype FormattedQuiz = FormattedQuiz(topic: string, level: string, questions: seq<Question>)

  function FormatQuestion(q: Value): Question
    requires !IsNullish(q)
  {
    var explanation := Prop(q, "explanation");
    Question(Prop(q, "questionText"), Prop(q, "options"), Prop(q, "correctOption"),
             if Truthy(explanation) then explanation else Str(NoExplanation))
  }

  /** `questions.map(...)`: None when some question is null or undefined (a TypeError). */
  function FormatQuestions(qs: seq<Value>): (r: Option<seq<Question>>)
    ensures r.Some? <==> forall k :: 0 <= k < |qs| ==> !IsNullish(qs[k])
    ensures r.Some? ==> |r.value| == |qs| && forall k :: 0 <= k < |qs| ==> r.value[k] == FormatQuestion(qs[k])
  {
    if qs == [] then Some([])
    else if IsNullish(qs[0]) then None
    else
      match FormatQuestions(qs[1..])
      case None => None
      case Some(rest) => Some([FormatQuestion(qs[0])] + rest)
  }

  /**
   * utils/quizUtils.js:296-310: each question keeps its text, options and
   * correctOption as they are (no index shift), its explanation defaulted;
   * topic and level come from the arguments, not from the AI data.
   */
  function FormatQuizForStorage(quizData: Value, topic: string, level: string): (r: Result<FormattedQuiz, QuizError>)
    ensures r.Ok? ==> r.value.topic == topic && r.value.level == level
  {
    if IsNullish(quizData) then Err(TypeErr)
    else
      var questions := Prop(quizData, "questions");
      if !questions.Arr? then Err(TypeErr)
      else
        match FormatQuestions(questions.items)
        case None => Err(TypeErr)
        case Some(qs) => Ok(FormattedQuiz(topic, level, qs))
  }

  // ---------------------------------------------------------------------------
  // Properties of the pipeline
  // ---------------------------------------------------------------------------

  /** Structured replies are returned unchanged, without any validation. */
  lemma StructuredReplyUnchecked(reply: Value, parse: string -> Option<Value>)
    requires reply.Null? || reply.Arr? || reply.Obj?
    ensures QuizResponse(reply, parse) == Ok(reply)
  {
  }

  /** Text without a `{` followed later by a `}` fails before JSON.parse is consulted. */
  lemma NoBracesNoJson(s: string, parse: string -> Option<Value>)
    ensures QuizResponse(Str(s), parse) == Err(NoJsonFound) <==> !HasBracePair(s)
  {
  }

  /**
   * For a text reply whose questions array has been parsed, the reply is
   * accepted exactly when every question is well formed; if it is, each
   * question comes back repaired and well formed, in the same order.
   */
  lemma {:induction false} TextReplyAcceptance(s: string, parse: string -> Option<Value>, text: string, parsed: Value)
    requires ExtractJson(s) == Some(text) && parse(text) == Some(parsed)
    requires parsed.Obj? && "questions" in parsed.fields && parsed.fields["questions"].Arr?
    ensures var qs := parsed.fields["questions"].items;
      QuizResponse(Str(s), parse).Ok? <==> forall k :: 0 <= k < |qs| ==> WellFormedQuestion(qs[k])
    ensures var qs := parsed.fields["questions"].items;
      QuizResponse(Str(s), parse).Ok? ==>
        var v := QuizResponse(Str(s), parse).value;
        && v.Obj? && "questions" in v.fields && v.fields["questions"].Arr?
        && |v.fields["questions"].items| == |qs|
        && (forall k :: 0 <= k < |qs| ==> v.fields["questions"].items[k] == Repair(qs[k]) && WellFormedQuestion(Repair(qs[k])))
        && (forall key :: key in parsed.fields && key != "questions" ==> key in v.fields && v.fields[key] == parsed.fields[key])
  {
    var qs := parsed.fields["questions"].items;
    var r := ValidatePrefix(qs, |qs|);
    if r.Ok? {
      forall k | 0 <= k < |qs| ensures WellFormedQuestion(Repair(qs[k])) {
        RepairKeepsWellFormed(qs[k]);
      }
    }
  }

  /** Repairing the explanation leaves the three checked fields as they were. */
  lemma RepairKeepsWellFormed(q: Value)
    requires WellFormedQuestion(q)
    ensures q.Obj? && WellFormedQuestion(Repair(q))
    ensures Prop(Repair(q), "questionText") == Prop(q, "questionText")
    ensures Prop(Repair(q), "options") == Prop(q, "options")
    ensures Prop(Repair(q), "correctOption") == Prop(q, "correctOption")
  {
  }

  /**
   * A failure names the first faulty question, counting from 1, and says which
   * check failed; all questions before it pass every check.
   */
  lemma FailureNamesFirstFault(qs: seq<Value>, n: nat)
    requires n <= |qs|
    requires ValidatePrefix(qs, n).Err?
    ensures NamesFirstFault(qs, n, ValidatePrefix(qs, n).error)
  {
    var e := ValidatePrefix(qs, n).error;
    var k :| 0 <= k < n && FirstFaultAt(qs, k) && e == FaultError(k, QuestionFault(qs[k]).value);
    FaultErrorNamesFault(qs, n, k);
  }

  /**
   * The error names, counting from 1, a question among the first n that is the
   * first faulty one, and says which check it failed.
   */
  predicate NamesFirstFault(qs: seq<Value>, n: nat, e: QuizError)
    requires n <= |qs|
  {
    && (e.MissingQuestionText? ==> 1 <= e.number <= n && FirstFaultAt(qs, e.number - 1) && !IsNullish(qs[e.number - 1]) && !TextOk(qs[e.number - 1]))
    && (e.InvalidOptions? ==> 1 <= e.number <= n && FirstFaultAt(qs, e.number - 1) && !IsNullish(qs[e.number - 1]) && TextOk(qs[e.number - 1]) && !OptionsOk(qs[e.number - 1]))
    && (e.InvalidCorrectOption? ==> 1 <= e.number <= n && FirstFaultAt(qs, e.number - 1) && !IsNullish(qs[e.number - 1]) && TextOk(qs[e.number - 1]) && OptionsOk(qs[e.number - 1]) && !CorrectOptionOk(qs[e.number - 1]))
    && (e.MissingQuestionText? || e.InvalidOptions? || e.InvalidCorrectOption? || e.TypeErr?)
  }

  /** The error built for the first faulty question names it. */
  lemma FaultErrorNamesFault(qs: seq<Value>, n: nat, k: nat)
    requires n <= |qs| && k < n && FirstFaultAt(qs, k)
    ensures NamesFirstFault(qs, n, FaultError(k, QuestionFault(qs[k]).value))
  {
  }

  /**
   * A validated text reply is an object holding a questions array, and it formats into as many well-shaped stored questions,
   * in order, with text, options and correctOption unchanged (no +1 shift) and
   * any falsy explanation replaced by the placeholder.
   */
  lemma {:induction false} ValidatedReplyStoresWellShaped(s: string, parse: string -> Option<Value>, topic: string, level: string)
    requires QuizResponse(Str(s), parse).Ok?
    ensures var v := QuizResponse(Str(s), parse).value;
      var f := FormatQuizForStorage(v, topic, level);
      && v.Obj? && "questions" in v.fields && v.fields["questions"].Arr?
      && f.Ok? && f.value.topic == topic && f.value.level == level
      && exists parsed :: parse(ExtractJson(s).value) == Some(parsed) && StoredFrom(parsed, f.value.questions)
  {
    var parsed := parse(ExtractJson(s).value).value;
    var qs := Prop(parsed, "questions").items;
    var repaired := ValidatePrefix(qs, |qs|).value;
    var v := QuizResponse(Str(s), parse).value;
    assert v == Obj(parsed.fields["questions" := Arr(repaired)]);
    assert Prop(v, "questions") == Arr(repaired);
    forall k | 0 <= k < |repaired| ensures !IsNullish(repaired[k]) {
      RepairKeepsWellFormed(qs[k]);
    }
    var stored := FormatQuestions(repaired).value;
    forall k | 0 <= k < |qs|
      ensures WellShaped(stored[k])
      ensures stored[k].questionText == Prop(qs[k], "questionText")
      ensures stored[k].options == Prop(qs[k], "options")
      ensures stored[k].correctOption == Prop(qs[k], "correctOption")
      ensures Truthy(Prop(qs[k], "explanation")) ==> stored[k].explanation == Prop(qs[k], "explanation")
      ensures !Truthy(Prop(qs[k], "explanation")) ==> stored[k].explanation == Str(NoExplanation)
    {
      RepairKeepsWellFormed(qs[k]);
    }
    assert StoredFrom(parsed, stored);
  }

  /**
   * `stored` is the storage form of the questions of `parsed`: one per
   * question, same order, same text, options and correctOption, and a truthy
   * explanation (the original one when it was truthy).
   */
  ghost predicate StoredFrom(parsed: Value, stored: seq<Question>) {
    && !IsNullish(parsed) && Prop(parsed, "questions").Arr?
    && var qs := Prop(parsed, "questions").items;
    && |stored| == |qs|
    && forall k :: 0 <= k < |qs| ==>
      && !IsNullish(qs[k])
      && WellShaped(stored[k])
      && stored[k].questionText == Prop(qs[k], "questionText")
      && stored[k].options == Prop(qs[k], "options")
      && stored[k].correctOption == Prop(qs[k], "correctOption")
      && (Truthy(Prop(qs[k], "explanation")) ==> stored[k].explanation == Prop(qs[k], "explanation"))
      && (!Truthy(Prop(qs[k], "explanation")) ==> stored[k].explanation == Str(NoExplanation))
  }
}
