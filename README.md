# Quiz backend model

This project models the decision logic of an Express/MongoDB quiz backend in Dafny:

- Users register by e-mail one-time password (OTP) or through a legacy direct registration, log in, and reset their password by OTP.
- The backend generates multiple-choice quizzes through an AI chat provider. The input is a topic, an uploaded image, or both.
- It validates and repairs the provider's JSON reply, then stores the quiz.
- It records one score per quiz and user.
- It deletes a quiz only for its owner.
- It answers follow-up questions about a quiz question.

The model is written in Dafny, and every file listed below verifies.

| file | models |
|---|---|
| `wrappers.dfy` | `Option` and `Result` |
| `js.dfy` | JavaScript values and the built-ins the code relies on: truthiness, `trim`, `toLowerCase`, decimal rendering, `String(v)`, `join` |
| `quiz_model.dfy`, `otp_model.dfy`, `user_model.dfy` | the three Mongoose schemas and the invariants their collections keep |
| `store.dfy` | the store itself: a class `Db` whose fields are the three collections, a clock standing for `Date.now`/`createdAt`, and an id counter standing for ObjectIds |
| `quiz_utils.dfy` | prompt builders, `parseQuizResponse` and `formatQuizForStorage` |
| `open_router.dfy` | request construction, topic clean-up and fallback, error translation, and the askAI prompt |
| `otp_controller.dfy`, `user_controller.dfy`, `quiz_controller.dfy` | the request handlers, as methods that change the `Db` and return an outcome value instead of an HTTP response |

`parseQuizResponse` validates questions in a `forEach` loop and repairs missing explanations in place. It is modelled as a `while` loop and proved equal to a recursive specification, `ValidatePrefix`. Each handler is proved against pure functions on the collections, such as `Issue`, `VerifyStep`, `UpsertAttempt` and `DeleteAllFor`. The lemmas state what those functions guarantee.

Collaborators are parameters:

| collaborator | modelled as |
|---|---|
| the AI provider | `ai: ChatRequest -> Reply` |
| `JSON.parse` | `parse: string -> Option<Value>` |
| the Cloudinary upload | `upload: Option<string>` |
| `sendEmail` succeeding | `mailOk` |
| `crypto.randomInt` | the drawn number `code` |
| `bcrypt.hash` | its result `digest` |
| `bcrypt.compare` | `compare` |
| `jwt.verify` | the e-mail claim it yields, `decoded` |
| `sanitizeResponse` | `sanitize` |
| how the engine prints a fractional or very large number | `numeral` |
| whether an API key is configured | `apiKey` |

Two details of the source that the model keeps as written:

- generateOTP's comment promises a 4-digit OTP, and `crypto.randomInt(1000, 9999)` excludes its upper bound, so codes are 1000..9998 and "9999" never occurs (`OtpController.OtpNeverAllNines`).
- The User schema has no `lowercase` option on its e-mail, unlike models/OTP.js:7, and the legacy `registerUser` stores e-mails as sent. `loginUser` looks accounts up by the lower-cased e-mail, so an account with upper-case letters in its e-mail cannot log in (`UserController.MixedCaseCannotLogIn`).

## Model

| member | source | states |
|---|---|---|
| QuizUtils.GenerateTopicPrompt | utils/quizUtils.js:197-203 | the fixed image-only prompt is returned exactly when the hint is empty after trimming |
| QuizUtils.TopicPromptQuotesHint | utils/quizUtils.js:198-199 | a non-blank hint appears in double quotes in the prompt, followed by the shared instructions |
| QuizUtils.QuizPromptStatesContract | utils/quizUtils.js:211-235 | the prompt `GenerateQuizPrompt` builds quotes the topic and the level, asks for exactly 4 options and states the correct option as a number 1-4 |
| QuizUtils.ExtractJson | utils/quizUtils.js:252-257 | no candidate exactly when no `{` is followed by a `}`; otherwise the text from the first `{` to the last `}` |
| QuizUtils.QuestionFault | utils/quizUtils.js:266-275 | the first failing check, in source order: text truthy, then options an array of at least 2, then correctOption a number in 1..length; none fails exactly when the question is well formed |
| QuizUtils.Repair | utils/quizUtils.js:276-279 | a falsy explanation becomes the placeholder; every other field is kept and a truthy explanation leaves the question unchanged |
| QuizUtils.ValidatePrefix | utils/quizUtils.js:266-280 | succeeds exactly when every question is well formed, returning the repaired questions in order; a failure names the first faulty question |
| QuizUtils.ValidateErrorPersists | utils/quizUtils.js:266-275 | once a question fails, later questions do not change the error (fail fast) |
| QuizUtils.ValidateQuestions | utils/quizUtils.js:266-280 | the in-place loop returns exactly the specification `ValidatePrefix` of all questions |
| QuizUtils.ParseQuizResponse | utils/quizUtils.js:244-287 | the method computes the `QuizResponse` specification: objects pass unchanged; text goes through extraction, parsing, the questions-array check and the question loop |
| QuizUtils.QuizResponse | utils/quizUtils.js:244-287 | a value that is not text is accepted exactly when it is null, an array or an object, and is then returned unchanged (that accepted text yields an object whose `questions` is an array is stated by `QuizUtils.ValidatedReplyStoresWellShaped`) |
| QuizUtils.StructuredReplyUnchecked | utils/quizUtils.js:247-249 | a reply that is already an object (or null or an array) is returned as is, without validation |
| QuizUtils.NoBracesNoJson | utils/quizUtils.js:252-255 | a text reply fails with "No valid JSON found in the response" exactly when it has no brace pair |
| QuizUtils.TextReplyAcceptance | utils/quizUtils.js:258-282 | a parsed object with a questions array is accepted exactly when all questions are well formed; then the result has the repaired questions, the same count, and every other field unchanged |
| QuizUtils.RepairKeepsWellFormed | utils/quizUtils.js:276-279 | repairing keeps text, options and correctOption and leaves the question well formed |
| QuizUtils.FailureNamesFirstFault | utils/quizUtils.js:266-275 | a failure names question index+1, every earlier question passed, and the failed check is the first in order for that question |
| QuizUtils.FormatQuestions | utils/quizUtils.js:298-303 | maps every question (same count and order) and fails exactly when one is null or undefined |
| QuizUtils.FormatQuizForStorage | utils/quizUtils.js:296-310 | topic and level come from the arguments, not from the AI data |
| QuizUtils.ValidatedReplyStoresWellShaped | utils/quizUtils.js:296-309 | a validated text reply is an object whose `questions` is an array, and it formats into well-shaped questions in the same order, with text, options and correctOption unchanged (no +1 shift) and a defaulted explanation |
| OpenRouter.Messages | utils/openRouterService.js:101-124 | one system message, then one user message; with an image the user content is the text prompt followed by the image URL, otherwise the plain prompt |
| OpenRouter.RequestSettings | utils/openRouterService.js:210-217 | the quiz request asks for a JSON object with 4000 tokens; the topic request uses 100 tokens and the ask request 500, both with plain content |
| OpenRouter.Translate | utils/openRouterService.js:248-259 | checks 401, then 429, then ECONNREFUSED/ENOTFOUND; otherwise a truthy provider error as text, else the error's message, else the default; the result is non-empty for a non-empty default |
| OpenRouter.RaisedPassesThrough | utils/openRouterService.js:259 | an error the service raised itself surfaces with its own message |
| OpenRouter.TranslateIdempotent | utils/openRouterService.js:248-259 | translating an already-translated message again changes nothing |
| OpenRouter.StripQuotes | utils/openRouterService.js:152 | removes one leading and one trailing quote character, if present |
| OpenRouter.StripTopicLabel | utils/openRouterService.js:153 | with a case-insensitive "Topic:" prefix, the result is the part of the text after it that remains once the whitespace after the label is dropped: a suffix that starts with a non-space; other text is unchanged |
| OpenRouter.CleanTopic | utils/openRouterService.js:151-154 | the cleaned topic is empty or starts and ends with a non-space |
| OpenRouter.CleanTopicOfQuoted | utils/openRouterService.js:151-154 | a padded, quoted name cleans to the name |
| OpenRouter.CleanTopicOfLabelled | utils/openRouterService.js:151-154 | "Topic:" in any letter case, followed by spaces and a name, cleans to the name |
| OpenRouter.TopicFallback | utils/openRouterService.js:157-166 | the hint if non-empty, otherwise "General Knowledge Quiz"; never empty |
| OpenRouter.GenerateTopicWithAI | utils/openRouterService.js:94-167 | never fails and never returns empty; without a key it returns the fallback; with one, the cleaned text reply when it is non-empty, and the fallback on a failed request, a non-text reply or an empty clean-up |
| OpenRouter.TopicFromReply | utils/openRouterService.js:144-166 | a text reply that cleans to something non-empty gives the cleaned text; a failed request, a non-text reply or an empty clean-up gives the fallback |
| OpenRouter.GenerateQuizWithAI | utils/openRouterService.js:177-261 | without a key, the missing-key error; with one, a failed request is translated, a falsy reply gives the empty-response error, a reply `parseQuizResponse` rejects gives the unparsable-JSON error, and an accepted one is returned as parsed |
| OpenRouter.QuizFromReply | utils/openRouterService.js:228-261 | the same four cases for the provider's reply, and a success is always a truthy value `parseQuizResponse` produced from it |
| OpenRouter.ParsedReplyIsTruthy | utils/openRouterService.js:243-245 | a truthy reply that parses never yields a falsy value, so the "Failed to parse quiz data" branch cannot be taken |
| OpenRouter.ParseFailureLosesReason | utils/openRouterService.js:236-241 | any parse failure becomes "Failed to parse AI response as valid JSON" |
| OpenRouter.RequestFailureTranslated | utils/openRouterService.js:248-259 | a failed request surfaces as the translation of its error |
| OpenRouter.NumberedOptions | utils/openRouterService.js:285 | one line per option, in order; line k is a decimal numeral without leading zero whose value is k+1, then ". ", then the text of option k |
| OpenRouter.EnumerationListsEveryOption | utils/openRouterService.js:285 | every numbered option appears in the enumeration |
| OpenRouter.EnumerationLineCount | utils/openRouterService.js:285 | options without line breaks are joined by exactly one newline each |
| OpenRouter.AskPromptKeepsInputs | utils/openRouterService.js:278-291 | the trimmed prompt keeps the question, the option lines and the explanation |
| OpenRouter.AskAI | utils/openRouterService.js:271-343 | missing-key error without a key; for options undefined or null, the engine's "Cannot read properties of undefined (reading 'map')" or "... of null ..."; "options.map is not a function" for any other non-array; otherwise, for the reply to the built prompt: a non-empty text answer gives its sanitised form, a failed request is translated, a falsy answer gives the empty-response error and a non-text one "response.replace is not a function" |
| OpenRouter.AnswerFromReply | utils/openRouterService.js:323-342 | the same four cases for the provider's reply to the prompt |
| OtpModel.NewOtpRecord | models/OTP.js:3-27 | a new record holds the given e-mail with each character lower-cased, the given code and time, is unverified, and has 0 attempts |
| OtpModel.IndexAllowsDuplicates | models/OTP.js:29-30 | the (email, verified) index allows two unverified records for one e-mail |
| UserModel.ToPublic | models/User.js:17-21 | the public view keeps every field but the password |
| UserModel.FindByEmail | controllers/userController.js:186 | the first user with exactly this e-mail, or none when no user has it |
| UserModel.FindById | controllers/userController.js:290-301 | the user with this id, or none when no user has it |
| Store.Db.InsertUser | models/User.js:3-26 | a new account is appended with the next id, and the store invariant is kept |
| Store.Db.InsertQuiz | models/Quiz.js:10-15 | a new quiz is appended with the next id and the clock as createdAt, and the store invariant is kept |
| OtpController.GenerateOtp | controllers/otpController.js:9-11 | four decimal digits with no leading zero, whose value is the drawn number |
| OtpController.OtpNeverAllNines | controllers/otpController.js:9-11 | the code "9999" is never generated |
| OtpController.EmailCheckIsPattern | controllers/otpController.js:19-21 | the e-mail check accepts exactly the strings the regular expression matches: no whitespace, one `@`, a non-empty local part, and an inner `.` in the domain |
| OtpController.IsValidEmail | controllers/otpController.js:19-20 | an address the check accepts has at least five characters: a local part, `@`, and a domain with an inner dot |
| OtpController.DeleteAllForFrames | controllers/otpController.js:31 | deleteMany removes every record of the address and no record of any other |
| OtpController.DeleteAllForKeepsWellKept | controllers/otpController.js:31 | deleteMany keeps the order and invariant of the other records |
| OtpController.IssueLeavesOneRecord | controllers/otpController.js:31-40 | after issuing, the address has exactly one record (new code, unverified, 0 attempts) and other addresses are unchanged |
| OtpController.Issue | controllers/otpController.js:30-40 | the new record, unverified with no attempts, comes last; every record before it comes from the old collection and belongs to another address; the collection grows by at most one |
| OtpController.IssueTwiceLeavesOne | controllers/otpController.js:189-198 | issuing twice still leaves a single record, the second |
| OtpController.IssueKeepsWellKept | controllers/otpController.js:31-40 | issuing keeps the collection's invariant |
| OtpController.NewestLive | controllers/otpController.js:100-103 | the last unverified record of the address, or none exactly when it has none |
| OtpController.NewestLiveIsNewest | controllers/otpController.js:100-103 | the selected record has the latest createdAt among the address's unverified records |
| OtpController.VerifyStep | controllers/otpController.js:99-129 | no live record exactly when nothing is found, with no change; exhausted attempts delete one record; a wrong code keeps the length and reports fewer than 3 attempts remaining; an accepted code is the newest live record's, which alone changes, to verified |
| OtpController.RemoveAtKeepsWellKept | controllers/otpController.js:111 | deleting one record keeps the invariant |
| OtpController.NoRecordChangesNothing | controllers/otpController.js:105-107 | with no unverified record, verification reports not found and changes nothing |
| OtpController.ExhaustedBeforeCompare | controllers/otpController.js:110-113 | a record with 3 attempts is deleted and refused before the code is compared |
| OtpController.WrongCodeCountsOne | controllers/otpController.js:116-124 | a wrong code adds exactly one attempt to that record only, and reports 3 minus the attempts now used |
| OtpController.AcceptedIsNotPickedAgain | controllers/otpController.js:327-329 | a right code marks only that record verified; it is never selected or accepted again |
| OtpController.VerifyKeepsWellKept | controllers/otpController.js:109-129 | verification keeps the invariant, so attempts never exceed 3 |
| OtpController.ThreeStrikes | controllers/otpController.js:110-124 | from a fresh record, three wrong codes report 2, 1, 0; the fourth try is refused even with the right code, and then nothing is left to verify |
| OtpController.MailsCarryCode | controllers/otpController.js:43-53 | each of the three mail templates contains the code |
| OtpController.VerifyFailure | controllers/otpController.js:105-124 | a failure message exists for every outcome except an accepted code |
| OtpController.IssueOtp | controllers/otpController.js:30-40 | the collection becomes `Issue` of the old one with the generated code; nothing else changes |
| OtpController.SendOtp | controllers/otpController.js:14-70 | bad format gives 400; an existing lower-cased account gives 400; otherwise a code is issued and mailed, or 500 with the record kept |
| OtpController.ResendOtp | controllers/otpController.js:168-226 | the same flow, with an e-mail presence check first and the resend mail |
| OtpController.SendPasswordResetOtp | controllers/otpController.js:231-287 | an unknown account gives 404; otherwise a code is issued and mailed to the account's name |
| OtpController.VerifyLatestOtp | controllers/otpController.js:99-129 | the verdict and the new collection are `VerifyStep` of the old collection |
| OtpController.NewAccount | controllers/otpController.js:135-140 | the account has trimmed name and phone and a lower-cased e-mail; it fails the schema exactly when a trimmed required field is empty |
| OtpController.RegisterWithOtp | controllers/otpController.js:73-165 | each of the field, format, length and duplicate checks rejects with its own message and no store change; past them a refused code answers with the `VerifyStep` message and keeps only the attempt update; once `VerifyStep` accepts the code, an account is created exactly when the new record has all its required fields (otherwise 500 'Registration failed' with only the attempt update kept), and the OTP record is then deleted |
| OtpController.VerifyPasswordResetOtp | controllers/otpController.js:290-348 | missing input gives 400 with no change; otherwise the collection is `VerifyStep` of the old one, and the reset is allowed exactly when the code is accepted |
| OtpController.ResetPassword | controllers/otpController.js:351-397 | 400, 400, 401 and 404 in source order with no change; otherwise only that user's hash changes and every record of the e-mail is deleted |
| OtpController.DeleteOtp | controllers/otpController.js:150 | removes the one record, keeping the rest and the invariant |
| UserController.RegisterUser | controllers/userController.js:183-196 | an exact duplicate gives 400, and so does an absent e-mail whenever any user is stored; otherwise a missing password or a missing or empty field gives 500; otherwise the user is stored with the e-mail as sent and the next id |
| UserController.Login | controllers/userController.js:198-222 | succeeds exactly when the lower-cased e-mail is found and the password matches, returning the user without the password; an unknown user and a wrong password get the same 400 'Invalid credentials', and a request without an e-mail, or without a password for an existing account, gets 500 'Login failed' |
| UserController.MixedCaseCannotLogIn | controllers/userController.js:198-203 | whoever logs in has a lower-case e-mail, so no account stored with upper-case letters in its e-mail is ever the one logged in |
| UserController.FirstAttemptFor | controllers/userController.js:260-265 | the first attempt at the quiz, or none exactly when there is none |
| UserController.UpsertAttempt | controllers/userController.js:260-302 | afterwards the first attempt at the quiz holds the new score and time; the list grows by one exactly when there was no attempt at the quiz |
| UserController.UpsertKeepsOthers | controllers/userController.js:260-302 | attempts at other quizzes are unchanged; the list grows by one exactly when the quiz had no attempt |
| UserController.UpsertLeavesOneAttempt | controllers/userController.js:260-302 | with at most one attempt per quiz before, exactly one attempt, holding the new score, exists after |
| UserController.UpsertIdempotent | controllers/userController.js:260-272 | recording the same score twice equals recording it once |
| UserController.RetakeReplacesScore | controllers/userController.js:260-287 | a second score replaces the first without lengthening the list |
| UserController.WithScore | controllers/userController.js:259-302 | only the user at that position changes, and only in its attempt list, which becomes `UpsertAttempt` of the old one |
| UserController.WithScoreKeepsWellKept | controllers/userController.js:260-302 | recording a score keeps the user collection's invariant |
| UserController.UpdateQuizScore | controllers/userController.js:241-321 | the 400 checks come before any store access; an unknown user gives 404; otherwise only that user's attempts change, with "updated" or "recorded" according to the branch taken |
| QuizController.MessageOr | controllers/quizController.js:250 | the error's message if non-empty, otherwise the default |
| QuizController.QuizTopic | controllers/quizController.js:223-228 | the sent topic unless it is blank or an image came with it; otherwise a generated topic; never empty |
| QuizController.BlankTopicIsGenerated | controllers/quizController.js:205-230 | a whitespace-only topic passes the presence check and is then generated |
| QuizController.GenerateQuiz | controllers/quizController.js:198-252 | checks in order, each with its 400 or 500 and no store change; past them the answer is decided by `Generation`: its failure message with 500 and no change, or exactly one quiz, owned by the caller, with the settled topic, the level and the formatted questions, appended to the store, and `autoGeneratedTopic` true exactly when the topic was generated |
| QuizController.GenerationOutcome | controllers/quizController.js:231-234 | generation succeeds exactly when the AI call and the formatting both succeed, with the formatted questions; an AI failure is answered with its message or 'Quiz generation failed', a formatting failure with the formatting error's message |
| QuizController.CreatedFromTextReplyIsWellShaped | controllers/quizController.js:233-236 | a quiz made from a validated text reply stores only well-shaped questions |
| QuizController.FindQuiz | controllers/quizController.js:256-257 | the quiz with this id, or none exactly when none has it |
| QuizController.RemovalKeepsChronological | controllers/quizController.js:262 | removing one quiz keeps the others' order and the invariant |
| QuizController.RemovalIsExact | controllers/quizController.js:262 | removing one quiz leaves no quiz with its id and keeps every other |
| QuizController.DeleteQuiz | controllers/quizController.js:254-267 | 404 if missing, 403 for a non-owner, with no change; for the owner exactly that quiz is removed |
| QuizController.NewestFirst | controllers/quizController.js:272 | the listing is the store order reversed |
| QuizController.NewestFirstIsSorted | controllers/quizController.js:272 | the listing is sorted by createdAt, newest first |
| QuizController.OwnedBy | controllers/quizController.js:283 | exactly the user's quizzes |
| QuizController.UserListingIsSortedAndOwned | controllers/quizController.js:283 | the user's listing holds exactly their quizzes, newest first |
| QuizController.AskAboutQuestion | controllers/quizController.js:301-318 | a falsy field gives 400; otherwise the answer exactly when askAI succeeds, and on its failure 500 with askAI's message or 'Failed to process AI query' |
| QuizController.StringOptionsFailInside | controllers/quizController.js:306-311 | truthy non-array options pass the controller's check and fail inside askAI |

## Left out

- The HTTP layer, routing, multer disk storage and its file filter, and logging. Handlers return an outcome value instead of an HTTP response.
- Network I/O: the OpenRouter request, the Cloudinary upload with its local file removal, and `sendEmail`. Each is a parameter that either yields a value or fails.
- `sanitizeResponse` is the parameter `sanitize`. It is a chain of regular expressions, and modelling it would take a regular-expression engine.
- `JSON.parse` is the parameter `parse`. Only the brace extraction and the validation of the parsed value are modelled.
- bcrypt and JWT are parameters:
  - the token strings themselves are not modelled;
  - `ResetPassword` assumes the reset token carries an e-mail claim. A token that verifies but has none, such as a login token signed with the same secret (it carries only `id`), is not modelled. In the source, Mongoose drops the undefined key, so `findOne({ email: undefined })` matches an arbitrary stored user, whose password is then replaced, and `deleteMany({ email: undefined })` deletes every OTP record.
- Time is a counter in the store:
  - the TTL sweep is `OtpController.DeleteOtp`, which may remove any record at any time;
  - the `updatedAt` in the "recorded" reply of updateQuizScore reads the clock a second time in the source; the model reports the stored time.
- Store operations always succeed. In the source every Mongoose call can reject into the handler's catch (500), and two such failures leave partial state the model never reaches:
  - in sendOTP and resendOTP, `OTP.create` failing after `deleteMany` leaves the address with no record;
  - in registerWithOTP, `User.create` failing after the record was saved as verified leaves a verified record and no user.
- Concurrency: handlers run one at a time, so the race between a concurrent `deleteMany` and `create` is not modelled.
- Mongoose casting is not modelled:
  - invalid ObjectIds, which make a handler answer 500;
  - non-string body fields;
  - the schema's coercion of question fields.
- The body fields below are modelled differently from the source:
  - absent string fields are "", which the source's truthiness tests treat the same way. `registerUser`'s e-mail is the exception: it is an `Option`, because an absent e-mail turns `findOne({ email })` into a query that matches any stored user;
  - `quizId` is `None` when absent or empty;
  - `loginUser`'s e-mail and password, and `registerUser`'s password, are `Option`s because their absence makes the source throw.
- UserController.RegisterUser: with an absent e-mail and a non-empty store, the query returns an arbitrary user; the model only states that some user was found, which is all the handler looks at.
- `toLowerCase` is modelled only for ASCII letters, and `trim` only for the whitespace characters listed in `Js.IsSpace`. String lengths count characters, not UTF-16 code units.
- Numbers are exact reals:
  - the text of a fractional or very large number comes from the parameter `numeral`;
  - inside parseQuizResponse, the engine's own wording for a JSON syntax error and for the TypeError of a null question is reduced to fixed texts. No response carries them, because generateQuizWithAI replaces every parse failure with its own message (`OpenRouter.ParseFailureLosesReason`).
- The handlers createQuiz, getQuizTitles, getProfile and logoutUser are not part of this model. The superseded, commented-out code is not modelled either.
- OpenRouter.Translate: the result is proved non-empty only when the provider error is neither an array nor a number. The source then renders it with `String(...)`, which can be empty.
- QuizUtils.FormatQuizForStorage: its own contract states only topic and level. The per-question content is stated by `QuizUtils.FormatQuestions` and `QuizUtils.ValidatedReplyStoresWellShaped`.
- OtpController.GenerateOtp: the drawn number is the parameter `code`. Uniformity of the draw is not modelled.
