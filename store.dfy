/**
 * The three MongoDB collections the controllers read and write, with the
 * clock that stamps createdAt and updatedAt and the counter that hands out
 * document ids. Collections keep insertion order.
 */
module Store {
  import opened OtpModel
  import opened UserModel
  import opened QuizModel

  class Db {
    var otps: seq<OtpRecord>
    var users: seq<User>
    var quizzes: seq<Quiz>
    var clock: nat
    var nextId: nat

    /** Every collection keeps its schema's and its controllers' invariants. */
    ghost predicate Valid()
      reads this
    {
      && OtpModel.WellKept(otps, clock)
      && UserModel.WellKept(users, nextId)
      && Chronological(quizzes, clock, nextId)
    }

    constructor ()
      ensures Valid()
      ensures otps == [] && users == [] && quizzes == [] && clock == 0 && nextId == 0
    {
      otps := [];
      users := [];
      quizzes := [];
      clock := 0;
      nextId := 0;
    }

    /** Reads the clock for a timestamp and moves it on, so later stamps are later. */
    method Tick() returns (now: nat)
      requires Valid()
      modifies this
      ensures Valid()
      ensures now == old(clock) && clock == old(clock) + 1
      ensures otps == old(otps) && users == old(users) && quizzes == old(quizzes) && nextId == old(nextId)
    {
      now := clock;
      clock := clock + 1;
    }

    /** `Quiz.create(...)`: the new quiz takes the next id, the clock as createdAt, and goes last. */
    method InsertQuiz(q: Quiz)
      requires Valid() && q.id == nextId && q.createdAt == clock
      modifies this
      ensures Valid()
      ensures quizzes == old(quizzes) + [q] && nextId == old(nextId) + 1 && clock == old(clock) + 1
      ensures otps == old(otps) && users == old(users)
    {
      quizzes := quizzes + [q];
      nextId := nextId + 1;
      clock := clock + 1;
    }

    /** `User.create(...)`: the new account takes the next id and goes last. */
    method InsertUser(u: User)
      requires Valid()
      requires u.id == nextId && HasRequiredFields(u) && OneAttemptPerQuiz(u.quizAttempts)
      requires FindByEmail(users, u.email).None?
      modifies this
      ensures Valid()
      ensures users == old(users) + [u] && nextId == old(nextId) + 1
      ensures otps == old(otps) && quizzes == old(quizzes) && clock == old(clock)
    {
      users := users + [u];
      nextId := nextId + 1;
    }
  }
}
