/**
 * controllers/userController.js: the legacy registration, login, and the
 * recording of a quiz score in the user's quizAttempts list. bcrypt is a
 * parameter: `digest` is what bcrypt.hash produced and `compare(password,
 * hash)` what bcrypt.compare answers. The user id comes from the
 * authentication middleware as `userId`.
 */
module UserController {
  import opened Wrappers
  import opened Js
  import opened UserModel
  import opened Store

  /** What a handler answers; `field` is the JSON key the text goes under ("error" or "message"). */
  datatype UserOutcome =
    | Registered
    | LoggedIn(user: PublicUser)
    | ScoreSaved(message: string, attempt: QuizAttempt)
    | Refused(status: nat, field: string, text: string)

  const InvalidCredentials := Refused(400, "message", "Invalid credentials")
  const LoginFailed := Refused(500, "message", "Login failed")

  /**
   * registerUser, controllers/userController.js:183-196. The email is looked
   * up and stored exactly as sent (no lower-casing); a missing password makes
   * the hash throw and an empty required field makes the insert fail, both
   * answered 500. A request without an email queries `findOne({ email:
   * undefined })`, whose undefined key Mongoose drops: the query then matches
   * any stored user.
   */
  method RegisterUser(db: Db, name: string, email: Option<string>, phone: string, password: Option<string>, digest: string)
    returns (r: UserOutcome)
    requires db.Valid() && digest != ""
    modifies db
    ensures db.Valid()
    ensures EmailTaken(old(db.users), email) ==> r == Refused(400, "error", "Email already in use") && unchanged(db)
    ensures email.None? && old(db.users) != [] ==> r == Refused(400, "error", "Email already in use")
    ensures !EmailTaken(old(db.users), email) && password.None? ==> r == Refused(500, "error", "Registration failed") && unchanged(db)
    ensures !EmailTaken(old(db.users), email) && password.Some? && (name == "" || email.None? || email == Some("") || phone == "") ==>
      r == Refused(500, "error", "Registration failed") && unchanged(db)
    ensures r == Registered <==>
      && email.Some? && FindByEmail(old(db.users), email.value).None? && password.Some?
      && name != "" && email.value != "" && phone != ""
    ensures r == Registered ==> db.users == old(db.users) + [User(old(db.nextId), name, email.value, phone, digest, [])]
    ensures r == Registered ==> db.nextId == old(db.nextId) + 1 && db.clock == old(db.clock)
    ensures r != Registered ==> unchanged(db)
    ensures db.otps == old(db.otps) && db.quizzes == old(db.quizzes)
  {
    if EmailTaken(db.users, email) {
      return Refused(400, "error", "Email already in use");
    }
    if password.None? || email.None? {
      return Refused(500, "error", "Registration failed");
    }
    var user := User(db.nextId, name, email.value, phone, digest, []);
    if !HasRequiredFields(user) {
      return Refused(500, "error", "Registration failed");
    }
    db.InsertUser(user);
    return Registered;
  }

  /**
   * `User.findOne({ email })` finds someone: the stored user with this exact
   * email, or, when the email is absent and its key dropped, any stored user.
   */
  predicate EmailTaken(users: seq<User>, email: Option<string>) {
    match email
    case None => users != []
    case Some(e) => FindByEmail(users, e).Some?
  }

  /**
   * loginUser, controllers/userController.js:198-222: the account is looked up
   * by the lower-cased email. An unknown account and a wrong password get the
   * same answer; a missing email or password makes the handler throw (500).
   */
  function Login(users: seq<User>, email: Option<string>, password: Option<string>, compare: (string, string) -> bool)
    : (r: UserOutcome)
    ensures email.None? ==> r == LoginFailed
    ensures email.Some? && FindByEmail(users, Lower(email.value)).None? ==> r == InvalidCredentials
    ensures email.Some? && FindByEmail(users, Lower(email.value)).Some? && password.None? ==> r == LoginFailed
    ensures email.Some? && FindByEmail(users, Lower(email.value)).Some? && password.Some?
            && !compare(password.value, users[FindByEmail(users, Lower(email.value)).value].password) ==>
      r == InvalidCredentials
    ensures r.LoggedIn? <==>
      && email.Some? && password.Some?
      && FindByEmail(users, Lower(email.value)).Some?
      && compare(password.value, users[FindByEmail(users, Lower(email.value)).value].password)
    ensures r.LoggedIn? ==> r.user == ToPublic(users[FindByEmail(users, Lower(email.value)).value])
    ensures r.LoggedIn? || r == InvalidCredentials || r == LoginFailed
  {
    if email.None? then LoginFailed
    else match FindByEmail(users, Lower(email.value))
      case None => InvalidCredentials
      case Some(k) =>
        if password.None? then LoginFailed
        else if !compare(password.value, users[k].password) then InvalidCredentials
        else LoggedIn(ToPublic(users[k]))
  }

  /**
   * Whoever logs in has a lower-case email: an account registered through
   * registerUser with upper-case letters in its email can never log in,
   * whatever is typed.
   */
  lemma MixedCaseCannotLogIn(users: seq<User>, email: Option<string>, password: Option<string>,
                             compare: (string, string) -> bool)
    ensures Login(users, email, password, compare).LoggedIn? ==>
      IsLowerCase(Login(users, email, password, compare).user.email)
    ensures Login(users, email, password, compare).LoggedIn? ==>
      forall k :: 0 <= k < |users| && !IsLowerCase(users[k].email) ==>
        Login(users, email, password, compare).user.email != users[k].email
  {
    var r := Login(users, email, password, compare);
    if r.LoggedIn? {
      var k := FindByEmail(users, Lower(email.value)).value;
      assert r.user.email == users[k].email == Lower(email.value);
    }
  }

  /** The index of the first attempt at `quiz`: the element the positional `$` update selects. */
  function FirstAttemptFor(attempts: seq<QuizAttempt>, quiz: nat): (r: Option<nat>)
    ensures r.Some? ==> r.value < |attempts| && attempts[r.value].quiz == quiz
    ensures r.Some? ==> forall k :: 0 <= k < r.value ==> attempts[k].quiz != quiz
    ensures r.None? <==> forall k :: 0 <= k < |attempts| ==> attempts[k].quiz != quiz
  {
    if attempts == [] then None
    else if attempts[0].quiz == quiz then Some(0)
    else match FirstAttemptFor(attempts[1..], quiz)
      case None => None
      case Some(k) => Some(k + 1)
  }

  /** The first matching index is the one before which nothing matches. */
  lemma {:induction false} FirstAttemptForIs(attempts: seq<QuizAttempt>, quiz: nat, i: nat)
    requires i < |attempts| && attempts[i].quiz == quiz
    requires forall k :: 0 <= k < i ==> attempts[k].quiz != quiz
    ensures FirstAttemptFor(attempts, quiz) == Some(i)
  {
    if i > 0 {
      FirstAttemptForIs(attempts[1..], quiz, i - 1);
    }
  }

  /**
   * The attempt list after recording `score`: the first attempt at the quiz
   * gets the new score and time, otherwise a new attempt is pushed at the end.
   */
  function UpsertAttempt(attempts: seq<QuizAttempt>, quiz: nat, score: real, now: nat): (r: seq<QuizAttempt>)
    ensures FirstAttemptFor(r, quiz).Some? && r[FirstAttemptFor(r, quiz).value] == QuizAttempt(quiz, score, now)
    ensures |r| == if FirstAttemptFor(attempts, quiz).Some? then |attempts| else |attempts| + 1
  {
    match FirstAttemptFor(attempts, quiz)
    case Some(k) =>
      FirstAfterReplace(attempts, quiz, k, QuizAttempt(quiz, score, now));
      attempts[k := QuizAttempt(quiz, score, now)]
    case None =>
      FirstAfterAppend(attempts, quiz, QuizAttempt(quiz, score, now));
      attempts + [QuizAttempt(quiz, score, now)]
  }

  /** Overwriting the first attempt at a quiz keeps it the first one. */
  lemma FirstAfterReplace(attempts: seq<QuizAttempt>, quiz: nat, k: nat, a: QuizAttempt)
    requires FirstAttemptFor(attempts, quiz) == Some(k) && a.quiz == quiz
    ensures FirstAttemptFor(attempts[k := a], quiz) == Some(k)
  {
    var r := attempts[k := a];
    assert r[k].quiz == quiz;
    var f := FirstAttemptFor(r, quiz);
    assert f.Some?;
  }

  /** An attempt appended where there was none is the first one. */
  lemma FirstAfterAppend(attempts: seq<QuizAttempt>, quiz: nat, a: QuizAttempt)
    requires FirstAttemptFor(attempts, quiz).None? && a.quiz == quiz
    ensures FirstAttemptFor(attempts + [a], quiz) == Some(|attempts|)
  {
    var r := attempts + [a];
    assert r[|attempts|].quiz == quiz;
    var f := FirstAttemptFor(r, quiz);
    assert f.Some?;
  }

  /** Recording a score touches no attempt at another quiz and loses none. */
  lemma UpsertKeepsOthers(attempts: seq<QuizAttempt>, quiz: nat, score: real, now: nat)
    ensures var r := UpsertAttempt(attempts, quiz, score, now);
      && |attempts| <= |r| <= |attempts| + 1
      && (forall k :: 0 <= k < |attempts| && attempts[k].quiz != quiz ==> r[k] == attempts[k])
      && (|r| == |attempts| + 1 <==> forall k :: 0 <= k < |attempts| ==> attempts[k].quiz != quiz)
  {
  }

  /**
   * With at most one attempt per quiz, recording a score leaves exactly one
   * attempt at that quiz, holding the new score and time.
   */
  lemma UpsertLeavesOneAttempt(attempts: seq<QuizAttempt>, quiz: nat, score: real, now: nat)
    requires OneAttemptPerQuiz(attempts)
    ensures var r := UpsertAttempt(attempts, quiz, score, now);
      && OneAttemptPerQuiz(r)
      && (exists k :: 0 <= k < |r| && r[k] == QuizAttempt(quiz, score, now))
      && forall i, j :: 0 <= i < |r| && 0 <= j < |r| && r[i].quiz == quiz && r[j].quiz == quiz ==> i == j
  {
    var r := UpsertAttempt(attempts, quiz, score, now);
    match FirstAttemptFor(attempts, quiz)
    case Some(k) =>
      assert r[k] == QuizAttempt(quiz, score, now);
    case None =>
      assert r[|attempts|] == QuizAttempt(quiz, score, now);
  }

  /** Recording the same score twice is the same as recording it once. */
  lemma UpsertIdempotent(attempts: seq<QuizAttempt>, quiz: nat, score: real, now: nat)
    ensures UpsertAttempt(UpsertAttempt(attempts, quiz, score, now), quiz, score, now) == UpsertAttempt(attempts, quiz, score, now)
  {
    var once := UpsertAttempt(attempts, quiz, score, now);
    match FirstAttemptFor(attempts, quiz)
    case Some(k) =>
      FirstAttemptForIs(once, quiz, k);
    case None =>
      FirstAttemptForIs(once, quiz, |attempts|);
  }

  /** A second, later score for the same quiz replaces the first rather than adding to the list. */
  lemma RetakeReplacesScore(attempts: seq<QuizAttempt>, quiz: nat, first: real, second: real, t1: nat, t2: nat)
    requires OneAttemptPerQuiz(attempts)
    ensures var r := UpsertAttempt(UpsertAttempt(attempts, quiz, first, t1), quiz, second, t2);
      && |r| == |UpsertAttempt(attempts, quiz, first, t1)|
      && (forall k :: 0 <= k < |r| && r[k].quiz == quiz ==> r[k] == QuizAttempt(quiz, second, t2))
  {
    var once := UpsertAttempt(attempts, quiz, first, t1);
    UpsertLeavesOneAttempt(attempts, quiz, first, t1);
    var k :| 0 <= k < |once| && once[k] == QuizAttempt(quiz, first, t1);
    FirstAttemptForIs(once, quiz, k);
  }

  /** The users after user `k` records a score. */
  function WithScore(users: seq<User>, k: nat, quiz: nat, score: real, now: nat): (r: seq<User>)
    requires k < |users|
    ensures |r| == |users| && forall i :: 0 <= i < |users| && i != k ==> r[i] == users[i]
    ensures r[k].(quizAttempts := users[k].quizAttempts) == users[k]
    ensures r[k].quizAttempts == UpsertAttempt(users[k].quizAttempts, quiz, score, now)
  {
    users[k := users[k].(quizAttempts := UpsertAttempt(users[k].quizAttempts, quiz, score, now))]
  }

  lemma WithScoreKeepsWellKept(users: seq<User>, nextId: nat, k: nat, quiz: nat, score: real, now: nat)
    requires UserModel.WellKept(users, nextId) && k < |users|
    ensures UserModel.WellKept(WithScore(users, k, quiz, score, now), nextId)
  {
    UpsertLeavesOneAttempt(users[k].quizAttempts, quiz, score, now);
  }

  const ScoresRequired := Refused(400, "error", "Quiz ID and score are required")
  const ScoreNotValid := Refused(400, "error", "Score must be a non-negative number")

  /**
   * updateQuizScore, controllers/userController.js:241-321. `quiz` is None when
   * the request's quizId is missing or empty. The existing attempt is updated
   * in place, or, when the user has none for the quiz, a new one is pushed.
   */
  method UpdateQuizScore(db: Db, userId: nat, quiz: Option<nat>, score: Value) returns (r: UserOutcome)
    requires db.Valid()
    modifies db
    ensures db.Valid()
    ensures quiz.None? || score.Undefined? || score.Null? ==> r == ScoresRequired && unchanged(db)
    ensures quiz.Some? && !score.Undefined? && !score.Null? && !(score.Num? && score.n >= 0.0) ==>
      r == ScoreNotValid && unchanged(db)
    ensures quiz.Some? && score.Num? && score.n >= 0.0 ==>
      match FindById(old(db.users), userId)
      case None => r == Refused(404, "error", "User not found") && unchanged(db)
      case Some(k) =>
        && db.users == WithScore(old(db.users), k, quiz.value, score.n, old(db.clock))
        && r == ScoreSaved(
             if FirstAttemptFor(old(db.users)[k].quizAttempts, quiz.value).Some?
             then "Quiz score updated successfully" else "Quiz score recorded successfully",
             QuizAttempt(quiz.value, score.n, old(db.clock)))
        && db.otps == old(db.otps) && db.quizzes == old(db.quizzes)
        && db.clock == old(db.clock) + 1 && db.nextId == old(db.nextId)
  {
    if quiz.None? || score.Undefined? || score.Null? {
      return ScoresRequired;
    }
    if !score.Num? || score.n < 0.0 {
      return ScoreNotValid;
    }
    var found := FindById(db.users, userId);
    if found.None? {
      return Refused(404, "error", "User not found");
    }
    var k := found.value;
    var message := if FirstAttemptFor(db.users[k].quizAttempts, quiz.value).Some?
      then "Quiz score updated successfully" else "Quiz score recorded successfully";
    WithScoreKeepsWellKept(db.users, db.nextId, k, quiz.value, score.n, db.clock);
    var now := db.Tick();
    db.users := WithScore(db.users, k, quiz.value, score.n, now);
    return ScoreSaved(message, QuizAttempt(quiz.value, score.n, now));
  }
}
