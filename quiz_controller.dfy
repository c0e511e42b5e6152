/**
 * controllers/quizController.js: quiz generation from a topic and/or an
 * uploaded image, owner-only deletion, newest-first listings and the
 * question-help endpoint. The Cloudinary upload is the parameter `upload`
 * (None when it failed, otherwise the image URL); the AI provider, JSON.parse,
 * the response sanitiser and number rendering are those of OpenRouter.
 */
module QuizController {
  import opened Wrappers
  import opened Js
  import opened QuizModel
  import opened QuizUtils
  import opened OpenRouter
  import opened Store

  /** What a handler answers. */
  datatype QuizOutcome =
    | QuizCreated(quiz: Quiz, autoGeneratedTopic: bool)
    | Deleted
    | AiAnswer(aiResponse: string)
    | Refused(status: nat, error: string)

  const TopicOrImageRequired := Refused(400, "Either topic or image is required")
  const LevelRequired := Refused(400, "Valid difficulty level is required (easy, medium, hard)")
  const ImageFailed := Refused(500, "Failed to process image")
  const GenerationDefault := "Quiz generation failed"

  /** `['easy', 'medium', 'hard'].includes(level)`: exact, case-sensitive. */
  predicate IsLevel(level: string) {
    level == "easy" || level == "medium" || level == "hard"
  }

  /** `imageUrl || !topic || topic.trim() === ''`: when the topic is generated rather than taken as sent. */
  predicate TopicIsGenerated(topic: string, imageUrl: string) {
    imageUrl != "" || topic == "" || Trim(topic) == ""
  }

  /** `err.message || fallback`. */
  function MessageOr(message: string, fallback: string): (r: string)
    ensures fallback != "" ==> r != ""
    ensures message != "" ==> r == message
  {
    if message != "" then message else fallback
  }

  /**
   * The topic the quiz is generated for: the one sent, or, when it is blank or
   * an image came with it, a generated one. Either way it is never empty.
   */
  function QuizTopic(topic: string, imageUrl: string, apiKey: bool, ai: ChatRequest -> Reply): (r: string)
    ensures r != ""
    ensures !TopicIsGenerated(topic, imageUrl) ==> r == topic
    ensures TopicIsGenerated(topic, imageUrl) ==> r == GenerateTopicWithAI(topic, imageUrl, apiKey, ai)
  {
    if TopicIsGenerated(topic, imageUrl) then GenerateTopicWithAI(topic, imageUrl, apiKey, ai) else topic
  }

  /**
   * A whitespace-only topic passes the presence check but is then replaced by
   * a generated one, which falls back to that same blank text when there is no key.
   */
  lemma BlankTopicIsGenerated(topic: string, imageUrl: string, apiKey: bool, ai: ChatRequest -> Reply)
    requires topic != "" && AllSpace(topic)
    ensures TopicIsGenerated(topic, imageUrl)
    ensures QuizTopic(topic, imageUrl, apiKey, ai) == GenerateTopicWithAI(topic, imageUrl, apiKey, ai)
    ensures !apiKey ==> QuizTopic(topic, imageUrl, apiKey, ai) == topic
  {
    TrimEmptyIffAllSpace(topic);
  }

  /**
   * generateQuiz, controllers/quizController.js:198-252: the checks in order,
   * the upload, the topic decision, generation, formatting, and a single
   * insert at the very end; every failure leaves the store as it was.
   */
  method GenerateQuiz(db: Db, userId: nat, topic: string, level: string, hasFile: bool, upload: Option<string>,
                      apiKey: bool, ai: ChatRequest -> Reply, parse: string -> Option<Value>, numeral: real -> string)
    returns (r: QuizOutcome)
    requires db.Valid()
    modifies db
    ensures db.Valid()
    ensures topic == "" && !hasFile ==> r == TopicOrImageRequired
    ensures (topic != "" || hasFile) && !IsLevel(level) ==> r == LevelRequired
    ensures (topic != "" || hasFile) && IsLevel(level) && hasFile && upload.None? ==> r == ImageFailed
    ensures !r.QuizCreated? ==> unchanged(db)
    ensures r.QuizCreated? ==> (topic != "" || hasFile) && IsLevel(level) && (hasFile ==> upload.Some?)
    ensures (topic != "" || hasFile) && IsLevel(level) && (hasFile ==> upload.Some?) ==>
      var imageUrl := if hasFile then upload.value else "";
      var quizTopic := QuizTopic(topic, imageUrl, apiKey, ai);
      var made := Generation(quizTopic, level, imageUrl, apiKey, ai, parse, numeral);
      && (made.Err? ==> r == Refused(500, made.error))
      && (made.Ok? ==>
            && r == QuizCreated(Quiz(old(db.nextId), userId, quizTopic, level, made.value, old(db.clock)),
                                TopicIsGenerated(topic, imageUrl))
            && db.quizzes == old(db.quizzes) + [r.quiz]
            && db.otps == old(db.otps) && db.users == old(db.users)
            && db.nextId == old(db.nextId) + 1 && db.clock == old(db.clock) + 1)
    ensures r.Refused? ==> r.status in {400, 500} && r.error != ""
  {
    if topic == "" && !hasFile {
      return TopicOrImageRequired;
    }
    if !IsLevel(level) {
      return LevelRequired;
    }
    var imageUrl := "";
    if hasFile {
      if upload.None? {
        return ImageFailed;
      }
      imageUrl := upload.value;
    }
    // the topic decision of lines 223-228, as QuizTopic states it
    var autoGeneratedTopic := TopicIsGenerated(topic, imageUrl);
    var quizTopic := QuizTopic(topic, imageUrl, apiKey, ai);
    var made := Generation(quizTopic, level, imageUrl, apiKey, ai, parse, numeral);
    if made.Err? {
      return Refused(500, made.error);
    }
    var quiz := Quiz(db.nextId, userId, quizTopic, level, made.value, db.clock);
    db.InsertQuiz(quiz);
    return QuizCreated(quiz, autoGeneratedTopic);
  }

  /**
   * The try block of generateQuiz after the topic is settled: generation, then
   * formatting; either failure is answered with its message or the default.
   */
  function Generation(quizTopic: string, level: string, imageUrl: string, apiKey: bool,
                      ai: ChatRequest -> Reply, parse: string -> Option<Value>, numeral: real -> string)
    : (r: Result<seq<Question>, string>)
    ensures r.Err? ==> r.error != ""
  {
    match GenerateQuizWithAI(quizTopic, level, imageUrl, apiKey, ai, parse, numeral)
    case Err(e) => Err(MessageOr(e, GenerationDefault))
    case Ok(data) =>
      match FormatQuizForStorage(data, quizTopic, level)
      case Err(e) => Err(MessageOr(Message(e), GenerationDefault))
      case Ok(formatted) => Ok(formatted.questions)
  }

  /**
   * Generation succeeds exactly when the AI call and the formatting both do,
   * with the formatted questions; a failed AI call is answered with its message.
   */
  lemma GenerationOutcome(quizTopic: string, level: string, imageUrl: string, apiKey: bool,
                          ai: ChatRequest -> Reply, parse: string -> Option<Value>, numeral: real -> string)
    ensures var data := GenerateQuizWithAI(quizTopic, level, imageUrl, apiKey, ai, parse, numeral);
      var r := Generation(quizTopic, level, imageUrl, apiKey, ai, parse, numeral);
      && (r.Ok? <==> data.Ok? && FormatQuizForStorage(data.value, quizTopic, level).Ok?)
      && (r.Ok? ==> r.value == FormatQuizForStorage(data.value, quizTopic, level).value.questions)
      && (data.Err? ==> r == Err(MessageOr(data.error, GenerationDefault)))
      && (data.Ok? && FormatQuizForStorage(data.value, quizTopic, level).Err? ==>
            r == Err(MessageOr(Message(FormatQuizForStorage(data.value, quizTopic, level).error), GenerationDefault)))
  {
  }

  /** A quiz generated from a valid AI text reply stores only well-shaped questions, in the reply's order. */
  lemma CreatedFromTextReplyIsWellShaped(topic: string, level: string, imageUrl: string, apiKey: bool,
                                         ai: ChatRequest -> Reply, parse: string -> Option<Value>, numeral: real -> string)
    requires GenerateQuizWithAI(topic, level, imageUrl, apiKey, ai, parse, numeral).Ok?
    requires ai(QuizRequest(topic, level, imageUrl)).content.Str?
    ensures var data := GenerateQuizWithAI(topic, level, imageUrl, apiKey, ai, parse, numeral).value;
      && FormatQuizForStorage(data, topic, level).Ok?
      && forall k :: 0 <= k < |FormatQuizForStorage(data, topic, level).value.questions| ==>
           WellShaped(FormatQuizForStorage(data, topic, level).value.questions[k])
  {
    var s := ai(QuizRequest(topic, level, imageUrl)).content.s;
    ValidatedReplyStoresWellShaped(s, parse, topic, level);
  }

  /** The position of the quiz with this id: `Quiz.findById(id)`. */
  function FindQuiz(quizzes: seq<Quiz>, id: nat): (r: Option<nat>)
    ensures r.Some? ==> r.value < |quizzes| && quizzes[r.value].id == id
    ensures r.None? <==> forall k :: 0 <= k < |quizzes| ==> quizzes[k].id != id
  {
    if quizzes == [] then None
    else if quizzes[0].id == id then Some(0)
    else match FindQuiz(quizzes[1..], id)
      case None => None
      case Some(k) => Some(k + 1)
  }

  /** Removing the quiz at k keeps the rest in store order. */
  lemma RemovalKeepsChronological(quizzes: seq<Quiz>, k: nat, clock: nat, nextId: nat)
    requires Chronological(quizzes, clock, nextId) && k < |quizzes|
    ensures Chronological(quizzes[..k] + quizzes[k + 1..], clock, nextId)
  {
    var r := quizzes[..k] + quizzes[k + 1..];
    forall i, j | 0 <= i < j < |r|
      ensures r[i].createdAt < r[j].createdAt && r[i].id != r[j].id
    {
      assert r[i] == quizzes[if i < k then i else i + 1];
      assert r[j] == quizzes[if j < k then j else j + 1];
    }
    forall i | 0 <= i < |r| ensures r[i].createdAt < clock && r[i].id < nextId {
      assert r[i] == quizzes[if i < k then i else i + 1];
    }
  }

  /**
   * Removing the quiz at k removes exactly that quiz: ids being distinct, no
   * quiz with its id is left and every other one stays.
   */
  lemma RemovalIsExact(quizzes: seq<Quiz>, k: nat, clock: nat, nextId: nat)
    requires Chronological(quizzes, clock, nextId) && k < |quizzes|
    ensures var r := quizzes[..k] + quizzes[k + 1..];
      && (forall q :: q in r ==> q.id != quizzes[k].id)
      && (forall q :: q in quizzes && q.id != quizzes[k].id ==> q in r)
  {
    var r := quizzes[..k] + quizzes[k + 1..];
    forall q | q in r ensures q.id != quizzes[k].id {
      var i :| 0 <= i < |r| && r[i] == q;
      assert q == quizzes[if i < k then i else i + 1];
    }
    forall q | q in quizzes && q.id != quizzes[k].id ensures q in r {
      var i :| 0 <= i < |quizzes| && quizzes[i] == q;
      assert q == r[if i < k then i else i - 1];
    }
  }

  /**
   * deleteQuiz, controllers/quizController.js:254-267: only the owner may
   * delete, and exactly that quiz goes.
   */
  method DeleteQuiz(db: Db, userId: nat, quizId: nat) returns (r: QuizOutcome)
    requires db.Valid()
    modifies db
    ensures db.Valid()
    ensures FindQuiz(old(db.quizzes), quizId).None? ==> r == Refused(404, "Quiz not found") && unchanged(db)
    ensures FindQuiz(old(db.quizzes), quizId).Some? ==>
      var k := FindQuiz(old(db.quizzes), quizId).value;
      if old(db.quizzes)[k].userId != userId then r == Refused(403, "Unauthorized") && unchanged(db)
      else
        && r == Deleted
        && db.quizzes == old(db.quizzes)[..k] + old(db.quizzes)[k + 1..]
        && db.otps == old(db.otps) && db.users == old(db.users)
    ensures r == Deleted ==>
      && (forall q :: q in db.quizzes ==> q.id != quizId)
      && (forall q :: q in old(db.quizzes) && q.id != quizId ==> q in db.quizzes)
  {
    var found := FindQuiz(db.quizzes, quizId);
    if found.None? {
      return Refused(404, "Quiz not found");
    }
    var k := found.value;
    if db.quizzes[k].userId != userId {
      return Refused(403, "Unauthorized");
    }
    RemovalKeepsChronological(db.quizzes, k, db.clock, db.nextId);
    RemovalIsExact(db.quizzes, k, db.clock, db.nextId);
    db.quizzes := db.quizzes[..k] + db.quizzes[k + 1..];
    return Deleted;
  }

  /** `Quiz.find().sort({ createdAt: -1 })`: the store's insertion order reversed. */
  function NewestFirst(quizzes: seq<Quiz>): (r: seq<Quiz>)
    ensures |r| == |quizzes|
    ensures forall k :: 0 <= k < |r| ==> r[k] == quizzes[|quizzes| - 1 - k]
  {
    if quizzes == [] then [] else [quizzes[|quizzes| - 1]] + NewestFirst(quizzes[..|quizzes| - 1])
  }

  /** The listing is sorted by createdAt, newest first. */
  lemma NewestFirstIsSorted(quizzes: seq<Quiz>)
    requires CreatedInOrder(quizzes)
    ensures var r := NewestFirst(quizzes);
      forall i, j :: 0 <= i < j < |r| ==> r[i].createdAt > r[j].createdAt
  {
  }

  /** `Quiz.find({ userId })`: the user's quizzes in store order. */
  function OwnedBy(quizzes: seq<Quiz>, userId: nat): (r: seq<Quiz>)
    ensures forall q :: q in r <==> q in quizzes && q.userId == userId
  {
    if quizzes == [] then []
    else (if quizzes[0].userId == userId then [quizzes[0]] else []) + OwnedBy(quizzes[1..], userId)
  }

  /** The user's listing holds exactly their quizzes, newest first. */
  lemma UserListingIsSortedAndOwned(quizzes: seq<Quiz>, userId: nat, clock: nat, nextId: nat)
    requires Chronological(quizzes, clock, nextId)
    ensures var r := NewestFirst(OwnedBy(quizzes, userId));
      && (forall q :: q in r <==> q in quizzes && q.userId == userId)
      && forall i, j :: 0 <= i < j < |r| ==> r[i].createdAt > r[j].createdAt
  {
    OwnedByKeepsOrder(quizzes, userId);
    NewestFirstIsSorted(OwnedBy(quizzes, userId));
    var owned := OwnedBy(quizzes, userId);
    var r := NewestFirst(owned);
    forall q ensures q in r <==> q in owned {
      if q in r {
        var k :| 0 <= k < |r| && r[k] == q;
        assert owned[|owned| - 1 - k] == q;
      }
      if q in owned {
        var k :| 0 <= k < |owned| && owned[k] == q;
        assert r[|owned| - 1 - k] == q;
      }
    }
  }

  /** Filtering keeps a lower bound on createdAt. */
  lemma {:induction false} OwnedByKeepsBound(quizzes: seq<Quiz>, userId: nat, t: nat)
    requires forall k :: 0 <= k < |quizzes| ==> t < quizzes[k].createdAt
    ensures forall k :: 0 <= k < |OwnedBy(quizzes, userId)| ==> t < OwnedBy(quizzes, userId)[k].createdAt
  {
    if quizzes != [] {
      OwnedByKeepsBound(quizzes[1..], userId, t);
    }
  }

  /** Filtering keeps the relative order. */
  lemma {:induction false} OwnedByKeepsOrder(quizzes: seq<Quiz>, userId: nat)
    requires CreatedInOrder(quizzes)
    ensures CreatedInOrder(OwnedBy(quizzes, userId))
  {
    if quizzes != [] {
      var tail := quizzes[1..];
      assert CreatedInOrder(tail);
      OwnedByKeepsOrder(tail, userId);
      var rest := OwnedBy(tail, userId);
      if quizzes[0].userId == userId {
        OwnedByKeepsBound(tail, userId, quizzes[0].createdAt);
        var r := [quizzes[0]] + rest;
        assert OwnedBy(quizzes, userId) == r;
        forall i, j | 0 <= i < j < |r| ensures r[i].createdAt < r[j].createdAt {
          assert r[j] == rest[j - 1];
          if 0 < i {
            assert r[i] == rest[i - 1];
          }
        }
      }
    }
  }

  const AskFieldsRequired := Refused(400, "Question text, options, and explanation are required")

  /**
   * askAIAboutQuestion, controllers/quizController.js:301-318: the three
   * fields must be truthy; an AI failure answers 500 with its message.
   */
  function AskAboutQuestion(questionText: Value, options: Value, explanation: Value, apiKey: bool,
                            ai: ChatRequest -> Reply, sanitize: string -> string, numeral: real -> string)
    : (r: QuizOutcome)
    ensures !Truthy(questionText) || !Truthy(options) || !Truthy(explanation) ==> r == AskFieldsRequired
    ensures r.AiAnswer? <==>
      Truthy(questionText) && Truthy(options) && Truthy(explanation)
      && AskAI(questionText, options, explanation, apiKey, ai, sanitize, numeral).Ok?
    ensures r.AiAnswer? ==> r.aiResponse == AskAI(questionText, options, explanation, apiKey, ai, sanitize, numeral).value
    ensures Truthy(questionText) && Truthy(options) && Truthy(explanation) && !apiKey ==> r == Refused(500, MissingKey)
    ensures Truthy(questionText) && Truthy(options) && Truthy(explanation)
            && AskAI(questionText, options, explanation, apiKey, ai, sanitize, numeral).Err? ==>
      r == Refused(500, MessageOr(AskAI(questionText, options, explanation, apiKey, ai, sanitize, numeral).error, AskDefault))
    ensures r.Refused? ==> r.error != ""
  {
    if !Truthy(questionText) || !Truthy(options) || !Truthy(explanation) then AskFieldsRequired
    else match AskAI(questionText, options, explanation, apiKey, ai, sanitize, numeral)
      case Err(m) => Refused(500, MessageOr(m, AskDefault))
      case Ok(answer) => AiAnswer(answer)
  }

  /** A truthy non-array `options` (a string, say) passes the controller's check and fails inside askAI. */
  lemma StringOptionsFailInside(questionText: Value, options: string, explanation: Value,
                                ai: ChatRequest -> Reply, sanitize: string -> string, numeral: real -> string)
    requires Truthy(questionText) && options != "" && Truthy(explanation)
    ensures AskAboutQuestion(questionText, Str(options), explanation, true, ai, sanitize, numeral)
      == Refused(500, OptionsNotArray)
  {
  }
}
