/**
 * utils/openRouterService.js: the requests sent to the OpenRouter chat
 * completions endpoint, the clean-up of a generated topic name with its
 * fallback, the translation of failures into user-facing messages and the
 * question prompt of askAI. The HTTP exchange itself is the parameter `ai`,
 * which maps a request to the provider's reply or to the error it raised.
 */
module OpenRouter {
  import opened Wrappers
  import opened Js
  import opened QuizUtils

  const DefaultModel := "mistralai/mistral-small-3.2-24b-instruct-2506:free"
  const Temperature: real := 0.7

  datatype Role = System | User

  /** One element of a multi-part user message. */
  datatype Part = TextPart(text: string) | ImageUrlPart(url: string)

  /** A message body: a plain string or a list of parts. */
  datatype Content = Plain(text: string) | Parts(parts: seq<Part>)

  datatype ChatMessage = ChatMessage(role: Role, content: Content)

  /** The JSON body posted to the endpoint; jsonObject is `response_format: { type: 'json_object' }`. */
  datatype ChatRequest = ChatRequest(model: string, messages: seq<ChatMessage>, temperature: real, maxTokens: nat, jsonObject: bool)

  /**
   * An error caught by the service: the HTTP status of the provider's answer if
   * there was one, the provider's `data.error` field, the system error code
   * (ECONNREFUSED, ...) and the error's own message.
   */
  datatype Thrown = Thrown(status: Option<int>, providerError: Value, code: string, message: string)

  /** An error the service raises itself with `new Error(message)`. */
  function Raised(message: string): Thrown {
    Thrown(None, Undefined, "", message)
  }

  /** What the request produced: `response.data?.choices?.[0]?.message?.content`, or an error. */
  datatype Reply = Answered(content: Value) | Failed(error: Thrown)

  const MissingKey := "OpenRouter API key is not configured"
  const EmptyResponse := "Invalid or empty response from OpenRouter API"
  const AuthFailed :=
    "API authentication failed. Please check your "
    + "OpenRouter API key."
  const RateLimited := "API rate limit exceeded. Please try again later."
  const Unreachable :=
    "Failed to connect to OpenRouter. Please "
    + "check your internet connection."
  const UnparsableQuiz := "Failed to parse AI response as valid JSON"
  const NoQuizData := "Failed to parse quiz data from AI response"
  const QuizDefault := "Failed to generate quiz questions"
  const AskDefault := "Failed to process AI query"
  const DefaultTopic := "General Knowledge Quiz"

  // ---------------------------------------------------------------------------
  // Message lists
  // ---------------------------------------------------------------------------

  const TopicSystem :=
    "You are an intelligent topic generator. "
    + "Generate a concise, specific, and "
    + "descriptive topic name."
  const QuizSystem :=
    "You are a quiz question generator assistant. "
    + "Generate well-formatted, valid JSON quiz "
    + "questions on the requested topic. Each "
    + "question must include an explanation for the "
    + "correct answer."
  const AskSystem :=
    "You are an expert assistant providing clear "
    + "and concise explanations for quiz questions "
    + "in plain text without markdown or special "
    + "formatting."

  /**
   * The two-message conversation of generateTopicWithAI and generateQuizWithAI:
   * the system instruction, then the user prompt, which carries the image as a
   * second part exactly when an image URL is given.
   */
  function Messages(system: string, prompt: string, imageUrl: string): (r: seq<ChatMessage>)
    ensures |r| == 2
    ensures r[0] == ChatMessage(System, Plain(system)) && r[1].role == User
    ensures imageUrl != "" <==> r[1].content.Parts?
    ensures imageUrl != "" ==> r[1].content.parts == [TextPart(prompt), ImageUrlPart(imageUrl)]
    ensures imageUrl == "" ==> r[1].content == Plain(prompt)
  {
    var messages := [ChatMessage(System, Plain(system))];
    if imageUrl != "" then
      messages + [ChatMessage(User, Parts([TextPart(prompt), ImageUrlPart(imageUrl)]))]
    else
      messages + [ChatMessage(User, Plain(prompt))]
  }

  function TopicRequest(topicHint: string, imageUrl: string): ChatRequest {
    ChatRequest(DefaultModel, Messages(TopicSystem, GenerateTopicPrompt(topicHint), imageUrl), Temperature, 100, false)
  }

  function QuizRequest(topic: string, level: string, imageUrl: string): ChatRequest {
    ChatRequest(DefaultModel, Messages(QuizSystem, GenerateQuizPrompt(topic, level), imageUrl), Temperature, 4000, true)
  }

  function AskRequest(prompt: string): ChatRequest {
    ChatRequest(DefaultModel, [ChatMessage(System, Plain(AskSystem)), ChatMessage(User, Plain(prompt))], Temperature, 500, false)
  }

  /** Only the quiz request asks for a JSON object; the budgets are 100, 4000 and 500 tokens. */
  lemma RequestSettings(hint: string, topic: string, level: string, imageUrl: string, prompt: string)
    ensures QuizRequest(topic, level, imageUrl).jsonObject && QuizRequest(topic, level, imageUrl).maxTokens == 4000
    ensures !TopicRequest(hint, imageUrl).jsonObject && TopicRequest(hint, imageUrl).maxTokens == 100
    ensures !AskRequest(prompt).jsonObject && AskRequest(prompt).maxTokens == 500
    ensures |AskRequest(prompt).messages| == 2 && AskRequest(prompt).messages[1].content == Plain(prompt)
  {
  }

  // ---------------------------------------------------------------------------
  // Error translation
  // ---------------------------------------------------------------------------

  /**
   * The catch blocks of generateQuizWithAI and askAI: a 401, a 429, a refused
   * or unresolved connection each get a fixed message, checked in that order;
   * otherwise the provider's error, else the error's message, else `fallback`.
   */
  function Translate(e: Thrown, fallback: string, numeral: real -> string): (r: string)
    ensures e.status == Some(401) ==> r == AuthFailed
    ensures e.status == Some(429) ==> r == RateLimited
    ensures e.status != Some(401) && e.status != Some(429) && (e.code == "ECONNREFUSED" || e.code == "ENOTFOUND") ==> r == Unreachable
    ensures fallback != "" && !e.providerError.Arr? && !e.providerError.Num? ==> r != ""
    ensures !StatusOrConnection(e) && Truthy(e.providerError) ==> r == ToText(e.providerError, numeral)
    ensures !StatusOrConnection(e) && !Truthy(e.providerError) && e.message != "" ==> r == e.message
    ensures !StatusOrConnection(e) && !Truthy(e.providerError) && e.message == "" ==> r == fallback
  {
    if e.status == Some(401) then AuthFailed
    else if e.status == Some(429) then RateLimited
    else if e.code == "ECONNREFUSED" || e.code == "ENOTFOUND" then Unreachable
    else if Truthy(e.providerError) then ToText(e.providerError, numeral)
    else if e.message != "" then e.message
    else fallback
  }

  /** A 401, a 429, or a refused or unresolved connection: the cases with a fixed message. */
  predicate StatusOrConnection(e: Thrown) {
    e.status == Some(401) || e.status == Some(429) || e.code == "ECONNREFUSED" || e.code == "ENOTFOUND"
  }

  /** An error the service raised itself passes through translation unchanged. */
  lemma RaisedPassesThrough(message: string, fallback: string, numeral: real -> string)
    requires message != ""
    ensures Translate(Raised(message), fallback, numeral) == message
  {
  }

  /** A translated error, thrown again by the caller, keeps its message. */
  lemma {:induction false} TranslateIdempotent(e: Thrown, fallback: string, fallback2: string, numeral: real -> string)
    requires fallback != "" && !e.providerError.Arr? && !e.providerError.Num?
    ensures Translate(Raised(Translate(e, fallback, numeral)), fallback2, numeral) == Translate(e, fallback, numeral)
  {
    RaisedPassesThrough(Translate(e, fallback, numeral), fallback2, numeral);
  }

  // ---------------------------------------------------------------------------
  // Topic generation
  // ---------------------------------------------------------------------------

  predicate IsQuote(c: char) {
    c == '"' || c == '\''
  }

  /** `.replace(/^["']|["']$/g, '')`: one quote removed at each end, if present. */
  function StripQuotes(s: string): (r: string)
    ensures |s| <= 1 ==> r == (if s != [] && IsQuote(s[0]) then [] else s)
    ensures |s| >= 2 ==> r == s[(if IsQuote(s[0]) then 1 else 0)..(if IsQuote(s[|s| - 1]) then |s| - 1 else |s|)]
  {
    var t := if s != [] && IsQuote(s[0]) then s[1..] else s;
    if |s| >= 2 && IsQuote(s[|s| - 1]) then t[..|t| - 1] else t
  }

  const TopicLabel := "topic:"

  /** The reply starts with `Topic:` in any letter case. */
  predicate HasTopicLabel(s: string) {
    |s| >= 6 && IsTopicLabel(s[..6])
  }

  /** `Topic:` in any letter case: lower-cased, the six characters spell `topic:`. */
  predicate IsTopicLabel(p: string) {
    |p| == 6 && forall i :: 0 <= i < 6 ==> LowerChar(p[i]) == TopicLabel[i]
  }

  /** `.replace(/^Topic:\s*\/i, '')`: the label and the whitespace after it. */
  function StripTopicLabel(s: string): (r: string)
    ensures HasTopicLabel(s) ==> SpaceTrimmedFrom(s, 6, r)
    ensures !HasTopicLabel(s) ==> r == s
  {
    if HasTopicLabel(s) then
      TrimStartAfter(s, 6);
      TrimStart(s[6..])
    else s
  }

  /** utils/openRouterService.js:151-154: trim, unquote, drop the label, trim again. */
  function CleanTopic(reply: string): (r: string)
    ensures Trimmed(r)
  {
    Trim(StripTopicLabel(StripQuotes(Trim(reply))))
  }

  /** `topicHint || 'General Knowledge Quiz'`. */
  function TopicFallback(topicHint: string): (r: string)
    ensures r != ""
    ensures topicHint != "" ==> r == topicHint
  {
    if topicHint != "" then topicHint else DefaultTopic
  }

  /**
   * generateTopicWithAI: never fails. Without a key, on a failed request, on an
   * empty or non-text reply and when nothing is left after clean-up, the hint
   * (or the default topic) is returned.
   */
  function GenerateTopicWithAI(topicHint: string, imageUrl: string, apiKey: bool, ai: ChatRequest -> Reply): (r: string)
    ensures r != ""
    ensures !apiKey ==> r == TopicFallback(topicHint)
    ensures apiKey ==>
      var reply := ai(TopicRequest(topicHint, imageUrl));
      && (reply.Answered? && reply.content.Str? && CleanTopic(reply.content.s) != "" ==> r == CleanTopic(reply.content.s))
      && (reply.Failed? || !reply.content.Str? || CleanTopic(reply.content.s) == "" ==> r == TopicFallback(topicHint))
  {
    if !apiKey then TopicFallback(topicHint)
    else TopicFromReply(ai(TopicRequest(topicHint, imageUrl)), topicHint)
  }

  /** What generateTopicWithAI makes of the provider's reply, once the request was sent. */
  function TopicFromReply(reply: Reply, topicHint: string): (r: string)
    ensures reply.Answered? && reply.content.Str? && CleanTopic(reply.content.s) != "" ==> r == CleanTopic(reply.content.s)
    ensures reply.Failed? || !reply.content.Str? || CleanTopic(reply.content.s) == "" ==> r == TopicFallback(topicHint)
  {
    match reply
    case Failed(_) => TopicFallback(topicHint)
    case Answered(content) =>
      if !Truthy(content) || !content.Str? then TopicFallback(topicHint)
      else
        var generated := CleanTopic(content.s);
        if generated == "" then TopicFallback(topicHint) else generated
  }

  /** A quoted, labelled and padded name comes back as the bare name. */
  lemma CleanTopicOfQuoted(w1: string, name: string, w2: string)
    requires AllSpace(w1) && AllSpace(w2)
    requires name != [] && !IsSpace(name[0]) && !IsSpace(name[|name| - 1])
    requires !HasTopicLabel(name)
    ensures CleanTopic(w1 + ("\"" + name + "\"") + w2) == name
  {
    var quoted := "\"" + name + "\"";
    TrimOfPadded(w1, quoted, w2);
    assert quoted[1..|quoted| - 1] == name;
    assert StripQuotes(quoted) == name;
    assert StripTopicLabel(name) == name;
    TrimOfPadded("", name, "");
    assert "" + name + "" == name;
  }

  /** `Topic: ` in any letter case, with any spacing after it, is removed. */
  lemma CleanTopicOfLabelled(prefix: string, w: string, name: string)
    requires IsTopicLabel(prefix)
    requires AllSpace(w)
    requires name != [] && !IsSpace(name[0]) && !IsSpace(name[|name| - 1])
    requires !IsQuote(name[|name| - 1])
    ensures CleanTopic(prefix + (w + name)) == name
  {
    var s := prefix + (w + name);
    LabelStartsPlainly(prefix);
    LabelledText(prefix, w + name);
    LabelledStrips(s, w, name);
  }

  /** Unquoting and dropping the label leave `name`; the outer trims change nothing. */
  lemma LabelledStrips(s: string, w: string, name: string)
    requires HasTopicLabel(s) && !IsSpace(s[0]) && !IsQuote(s[0])
    requires AllSpace(w) && s[6..] == w + name
    requires name != [] && !IsSpace(name[0]) && !IsSpace(name[|name| - 1])
    requires !IsQuote(name[|name| - 1])
    ensures CleanTopic(s) == name
  {
    assert s[|s| - 1] == name[|name| - 1];
    TrimOfPadded("", s, "");
    assert "" + s + "" == s;
    assert StripQuotes(s) == s[0..|s|];
    assert s[0..|s|] == s;
    TrimStartOfSpaces(w, name);
    TrimOfPadded("", name, "");
    assert "" + name + "" == name;
  }

  lemma LabelledText(prefix: string, rest: string)
    requires IsTopicLabel(prefix)
    ensures HasTopicLabel(prefix + rest) && (prefix + rest)[6..] == rest
    ensures (prefix + rest)[0] == prefix[0]
  {
    assert (prefix + rest)[..6] == prefix;
  }

  /** A label spelled `topic:` in any case starts with a letter t. */
  lemma LabelStartsPlainly(prefix: string)
    requires IsTopicLabel(prefix)
    ensures !IsSpace(prefix[0]) && !IsQuote(prefix[0])
  {
    assert LowerChar(prefix[0]) == TopicLabel[0] == 't';
  }

  // ---------------------------------------------------------------------------
  // Quiz generation
  // ---------------------------------------------------------------------------

  /**
   * generateQuizWithAI: the provider's answer goes through parseQuizResponse;
   * whatever that rejects surfaces as one fixed message. Errors of the request
   * are translated; the service's own errors keep their message.
   */
  function GenerateQuizWithAI(topic: string, level: string, imageUrl: string, apiKey: bool,
                              ai: ChatRequest -> Reply, parse: string -> Option<Value>,
                              numeral: real -> string): (r: Result<Value, string>)
    ensures !apiKey ==> r == Err(MissingKey)
    ensures r.Ok? ==>
      && apiKey && ai(QuizRequest(topic, level, imageUrl)).Answered?
      && Truthy(r.value) && QuizResponse(ai(QuizRequest(topic, level, imageUrl)).content, parse) == Ok(r.value)
    ensures apiKey ==>
      var reply := ai(QuizRequest(topic, level, imageUrl));
      && (reply.Failed? ==> r == Err(Translate(reply.error, QuizDefault, numeral)))
      && (reply.Answered? && !Truthy(reply.content) ==> r == Err(EmptyResponse))
      && (reply.Answered? && Truthy(reply.content) && QuizResponse(reply.content, parse).Err? ==> r == Err(UnparsableQuiz))
      && (reply.Answered? && Truthy(reply.content) && QuizResponse(reply.content, parse).Ok? ==>
            r == Ok(QuizResponse(reply.content, parse).value))
  {
    if !apiKey then Err(Translate(Raised(MissingKey), QuizDefault, numeral))
    else
      QuizFromReply(ai(QuizRequest(topic, level, imageUrl)), parse, numeral)
  }

  /** What generateQuizWithAI makes of the provider's reply, once the request was sent. */
  function QuizFromReply(reply: Reply, parse: string -> Option<Value>, numeral: real -> string): (r: Result<Value, string>)
    ensures r.Ok? ==> reply.Answered? && Truthy(r.value) && QuizResponse(reply.content, parse) == Ok(r.value)
    ensures reply.Failed? ==> r == Err(Translate(reply.error, QuizDefault, numeral))
    ensures reply.Answered? && !Truthy(reply.content) ==> r == Err(EmptyResponse)
    ensures reply.Answered? && Truthy(reply.content) && QuizResponse(reply.content, parse).Err? ==> r == Err(UnparsableQuiz)
    ensures reply.Answered? && Truthy(reply.content) && QuizResponse(reply.content, parse).Ok? ==>
      r == Ok(QuizResponse(reply.content, parse).value)
  {
    match reply
    case Failed(e) => Err(Translate(e, QuizDefault, numeral))
    case Answered(content) =>
      if !Truthy(content) then Err(Translate(Raised(EmptyResponse), QuizDefault, numeral))
      else
        match QuizResponse(content, parse)
        case Err(_) => Err(Translate(Raised(UnparsableQuiz), QuizDefault, numeral))
        case Ok(parsedQuiz) =>
          if !Truthy(parsedQuiz) then Err(Translate(Raised(NoQuizData), QuizDefault, numeral))
          else Ok(parsedQuiz)
  }

  /** A truthy reply never parses to a falsy value, so the `!parsedQuiz` branch is dead. */
  lemma ParsedReplyIsTruthy(content: Value, parse: string -> Option<Value>)
    requires Truthy(content) && QuizResponse(content, parse).Ok?
    ensures Truthy(QuizResponse(content, parse).value)
  {
    if content.Str? {
      var parsed := parse(ExtractJson(content.s).value).value;
      assert QuizResponse(content, parse) == ValidateParsed(parsed);
    }
  }

  /** Every rejection by the validator reaches the caller as the same message. */
  lemma ParseFailureLosesReason(topic: string, level: string, imageUrl: string,
                                ai: ChatRequest -> Reply, parse: string -> Option<Value>, numeral: real -> string)
    requires ai(QuizRequest(topic, level, imageUrl)).Answered?
    requires var content := ai(QuizRequest(topic, level, imageUrl)).content;
      Truthy(content) && QuizResponse(content, parse).Err?
    ensures GenerateQuizWithAI(topic, level, imageUrl, true, ai, parse, numeral) == Err(UnparsableQuiz)
  {
  }

  /** A failed request is reported by status first, then by connection code, then by its own text. */
  lemma RequestFailureTranslated(topic: string, level: string, imageUrl: string, e: Thrown,
                                 ai: ChatRequest -> Reply, parse: string -> Option<Value>, numeral: real -> string)
    requires ai(QuizRequest(topic, level, imageUrl)) == Failed(e)
    ensures GenerateQuizWithAI(topic, level, imageUrl, true, ai, parse, numeral) == Err(Translate(e, QuizDefault, numeral))
  {
  }

  // ---------------------------------------------------------------------------
  // Questions about a question
  // ---------------------------------------------------------------------------

  /** `options.map((opt, idx) => `${idx + 1}. ${opt}`)`. */
  function NumberedOptions(options: seq<Value>, numeral: real -> string): (r: seq<string>)
    ensures |r| == |options|
    ensures forall k :: 0 <= k < |options| ==> NumberedLine(r[k], k + 1, ToText(options[k], numeral))
  {
    var r := seq(|options|, k requires 0 <= k < |options| => DecimalString(k + 1) + ". " + ToText(options[k], numeral));
    assert forall k :: 0 <= k < |options| ==> NumberedLine(r[k], k + 1, ToText(options[k], numeral)) by {
      forall k | 0 <= k < |options| ensures NumberedLine(r[k], k + 1, ToText(options[k], numeral)) {
        NumberedLineOf(k + 1, ToText(options[k], numeral));
      }
    }
    r
  }

  /**
   * `line` is `text` under the number n: a decimal numeral without leading
   * zero reading n, then ". ", then the text.
   */
  predicate NumberedLine(line: string, n: nat, text: string) {
    && |line| >= |text| + 3
    && line[|line| - |text| - 2..] == ". " + text
    && var p := line[..|line| - |text| - 2];
       AllDigits(p) && p[0] != '0' && DecimalValue(p) == n
  }

  lemma NumberedLineOf(n: nat, text: string)
    requires n >= 1
    ensures NumberedLine(DecimalString(n) + ". " + text, n, text)
  {
    var p := DecimalString(n);
    var line := p + ". " + text;
    assert line[..|line| - |text| - 2] == p;
    assert line[|line| - |text| - 2..] == ". " + text;
    DecimalRoundTrip(n);
  }

  /** The options listed one per line. */
  function EnumerateOptions(options: seq<Value>, numeral: real -> string): string {
    Join(NumberedOptions(options, numeral), "\n")
  }

  /** Option k is listed under the number k + 1. */
  lemma EnumerationListsEveryOption(options: seq<Value>, numeral: real -> string, k: nat)
    requires k < |options|
    ensures Contains(EnumerateOptions(options, numeral), DecimalString(k + 1) + ". " + ToText(options[k], numeral))
  {
    var lines := NumberedOptions(options, numeral);
    assert lines[k] == DecimalString(k + 1) + ". " + ToText(options[k], numeral);
    JoinContainsPart(lines, "\n", k);
  }

  /** Options without line breaks take exactly one line each. */
  lemma EnumerationLineCount(options: seq<Value>, numeral: real -> string)
    requires options != []
    requires forall k :: 0 <= k < |options| ==> Count(ToText(options[k], numeral), '\n') == 0
    ensures Count(EnumerateOptions(options, numeral), '\n') == |options| - 1
  {
    var lines := NumberedOptions(options, numeral);
    forall k | 0 <= k < |lines| ensures Count(lines[k], '\n') == 0 {
      var n := DecimalString(k + 1);
      CountAppend(n, ". ", '\n');
      CountAppend(n + ". ", ToText(options[k], numeral), '\n');
      NoBreakInDigits(n);
    }
    JoinSeparatorCount(lines, '\n');
  }

  lemma {:induction false} NoBreakInDigits(s: string)
    requires AllDigits(s)
    ensures Count(s, '\n') == 0
  {
    if s != [] {
      NoBreakInDigits(s[1..]);
    }
  }

  const AskRole := "You are an expert assistant."
  const AskIntro :=
    AskRole
    + " A user has asked for clarification or "
    + "additional information about the following "
    + "quiz question:\n\n"
    + "**Question:**\n"
  const AskOptionsHeading := "\n\n**Options:**\n"
  const AskExplanationHeading := "\n\n**Explanation:**\n"
  const AskClosing :=
    "\n\n"
    + "Please provide a clear, concise, and "
    + "informative response that enhances the "
    + "user's understanding of the question, "
    + "options, or explanation. You may clarify the "
    + "explanation, provide additional context, or "
    + "highlight key concepts related to the "
    + "question. Respond in plain text without "
    + "markdown, code blocks, or special formatting."

  /** The prompt with the template literal's surrounding line breaks and indentation trimmed off. */
  function AskPrompt(questionText: string, optionLines: string, explanation: string): string {
    Trim("\n" + AskPromptBody(questionText, optionLines, explanation) + "\n    ")
  }

  function AskPromptBody(questionText: string, optionLines: string, explanation: string): string {
    AskIntro + questionText + AskOptionsHeading + optionLines + AskExplanationHeading + explanation + AskClosing
  }

  /** The trim only removes the template's own padding: the question, options and explanation are intact. */
  lemma AskPromptKeepsInputs(questionText: string, optionLines: string, explanation: string)
    ensures AskPrompt(questionText, optionLines, explanation) == AskPromptBody(questionText, optionLines, explanation)
    ensures Contains(AskPrompt(questionText, optionLines, explanation), questionText)
    ensures Contains(AskPrompt(questionText, optionLines, explanation), optionLines)
    ensures Contains(AskPrompt(questionText, optionLines, explanation), explanation)
  {
    var b := AskPromptBody(questionText, optionLines, explanation);
    var p1 := AskIntro + questionText;
    var p2 := p1 + AskOptionsHeading;
    var p3 := p2 + optionLines;
    var p4 := p3 + AskExplanationHeading;
    var p5 := p4 + explanation;
    assert b == p5 + AskClosing;
    assert b[0] == AskRole[0] == 'Y';
    assert b[|b| - 1] == AskClosing[|AskClosing| - 1] == '.';
    assert AllSpace("\n") && AllSpace("\n    ");
    TrimOfPadded("\n", b, "\n    ");
    ContainsEnd(AskIntro, questionText);
    ContainsInLeft(p1, AskOptionsHeading, questionText);
    ContainsInLeft(p2, optionLines, questionText);
    ContainsEnd(p2, optionLines);
    ContainsInLeft(p3, AskExplanationHeading, questionText);
    ContainsInLeft(p3, AskExplanationHeading, optionLines);
    ContainsInLeft(p4, explanation, questionText);
    ContainsInLeft(p4, explanation, optionLines);
    ContainsEnd(p4, explanation);
    ContainsInLeft(p5, AskClosing, questionText);
    ContainsInLeft(p5, AskClosing, optionLines);
    ContainsInLeft(p5, AskClosing, explanation);
  }

  /** The engine's TypeError messages for `options.map` and `response.replace` on non-arrays and non-strings. */
  const OptionsNotArray := "options.map is not a function"
  const MapOfUndefined := "Cannot read properties " + "of undefined" + " (reading 'map')"
  const MapOfNull := "Cannot read properties " + "of null" + " (reading 'map')"
  const ReplyNotText := "response.replace is not a function"

  /**
   * askAI: the prompt lists the options; the answer is passed through
   * sanitizeResponse, here the parameter `sanitize`. Failures are translated
   * like those of quiz generation, with their own default.
   */
  function AskAI(questionText: Value, options: Value, explanation: Value, apiKey: bool,
                 ai: ChatRequest -> Reply, sanitize: string -> string, numeral: real -> string): (r: Result<string, string>)
    ensures !apiKey ==> r == Err(MissingKey)
    ensures apiKey && options.Undefined? ==> r == Err(MapOfUndefined)
    ensures apiKey && options.Null? ==> r == Err(MapOfNull)
    ensures apiKey && !IsNullish(options) && !options.Arr? ==> r == Err(OptionsNotArray)
    ensures apiKey && options.Arr? ==>
      var reply := ai(AskRequest(AskPrompt(ToText(questionText, numeral), EnumerateOptions(options.items, numeral), ToText(explanation, numeral))));
      && (reply.Failed? ==> r == Err(Translate(reply.error, AskDefault, numeral)))
      && (reply.Answered? && !Truthy(reply.content) ==> r == Err(EmptyResponse))
      && (reply.Answered? && Truthy(reply.content) && !reply.content.Str? ==> r == Err(ReplyNotText))
      && (reply.Answered? && reply.content.Str? && reply.content.s != "" ==> r == Ok(sanitize(reply.content.s)))
  {
    if !apiKey then Err(Translate(Raised(MissingKey), AskDefault, numeral))
    else if options.Undefined? then Err(Translate(Raised(MapOfUndefined), AskDefault, numeral))
    else if options.Null? then Err(Translate(Raised(MapOfNull), AskDefault, numeral))
    else if !options.Arr? then Err(Translate(Raised(OptionsNotArray), AskDefault, numeral))
    else
      var prompt := AskPrompt(ToText(questionText, numeral), EnumerateOptions(options.items, numeral), ToText(explanation, numeral));
      AnswerFromReply(ai(AskRequest(prompt)), sanitize, numeral)
  }

  /** What askAI makes of the provider's reply, once the request was sent. */
  function AnswerFromReply(reply: Reply, sanitize: string -> string, numeral: real -> string): (r: Result<string, string>)
    ensures reply.Failed? ==> r == Err(Translate(reply.error, AskDefault, numeral))
    ensures reply.Answered? && !Truthy(reply.content) ==> r == Err(EmptyResponse)
    ensures reply.Answered? && Truthy(reply.content) && !reply.content.Str? ==> r == Err(ReplyNotText)
    ensures reply.Answered? && reply.content.Str? && reply.content.s != "" ==> r == Ok(sanitize(reply.content.s))
  {
    match reply
    case Failed(e) => Err(Translate(e, AskDefault, numeral))
    case Answered(content) =>
      if !Truthy(content) then Err(Translate(Raised(EmptyResponse), AskDefault, numeral))
      else if !content.Str? then Err(Translate(Raised(ReplyNotText), AskDefault, numeral))
      else Ok(sanitize(content.s))
  }
}
