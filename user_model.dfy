/**
 * models/User.js: accounts. Every field but the attempt list is required;
 * the email is unique as stored (no lower-casing); the password hash is left
 * out of query results unless asked for; quizAttempts is an ordered list of
 * {quiz, score, updatedAt}.
 */
module UserModel {
  import opened Wrappers

  /** One entry of quizAttempts; updatedAt is the store's clock at the last write. */
  datatype QuizAttempt = QuizAttempt(quiz: nat, score: real, updatedAt: nat)

  datatype User = User(id: nat, name: string, email: string, phone: string, password: string, quizAttempts: seq<QuizAttempt>)

  /** A user as queries return it without `select('+password')`. */
  datatype PublicUser = PublicUser(id: nat, name: string, email: string, phone: string, quizAttempts: seq<QuizAttempt>)

  /** `const { password: _, ...userData } = user.toObject()`. */
  function ToPublic(u: User): (p: PublicUser)
    ensures p.id == u.id && p.name == u.name && p.email == u.email && p.phone == u.phone
    ensures p.quizAttempts == u.quizAttempts
  {
    PublicUser(u.id, u.name, u.email, u.phone, u.quizAttempts)
  }

  /** The schema's required string fields: Mongoose rejects an empty string. */
  predicate HasRequiredFields(u: User) {
    u.name != "" && u.email != "" && u.phone != "" && u.password != ""
  }

  /** At most one attempt per quiz. */
  predicate OneAttemptPerQuiz(attempts: seq<QuizAttempt>) {
    forall i, j :: 0 <= i < j < |attempts| ==> attempts[i].quiz != attempts[j].quiz
  }

  /**
   * What every stored user satisfies: required fields present, ids distinct
   * and already allocated, emails unique as written, one attempt per quiz.
   */
  predicate WellKept(users: seq<User>, nextId: nat) {
    && (forall i :: 0 <= i < |users| ==> HasRequiredFields(users[i]) && users[i].id < nextId)
    && (forall i :: 0 <= i < |users| ==> OneAttemptPerQuiz(users[i].quizAttempts))
    && (forall i, j :: 0 <= i < j < |users| ==> users[i].id != users[j].id && users[i].email != users[j].email)
  }

  /** The first user with this exact email: `User.findOne({ email })`.
    * Kept apart from `FindById` because the two look up different keys and
    * promise different things: the e-mail is matched exactly as sent, and
    * the result is the first match in insertion order, as `findOne`
    * returns it, so callers need not know the e-mails are distinct. */
  function FindByEmail(users: seq<User>, email: string): (r: Option<nat>)
    ensures r.Some? ==> r.value < |users| && users[r.value].email == email
    ensures r.Some? ==> forall k :: 0 <= k < r.value ==> users[k].email != email
    ensures r.None? <==> forall k :: 0 <= k < |users| ==> users[k].email != email
  {
    if users == [] then None
    else if users[0].email == email then Some(0)
    else match FindByEmail(users[1..], email)
      case None => None
      case Some(k) => Some(k + 1)
  }

  /** The user with this id: `User.findById(id)`. Ids are unique in a
    * well-kept store, so no first-match promise is needed here. */
  function FindById(users: seq<User>, id: nat): (r: Option<nat>)
    ensures r.Some? ==> r.value < |users| && users[r.value].id == id
    ensures r.None? <==> forall k :: 0 <= k < |users| ==> users[k].id != id
  {
    if users == [] then None
    else if users[0].id == id then Some(0)
    else match FindById(users[1..], id)
      case None => None
      case Some(k) => Some(k + 1)
  }
}
