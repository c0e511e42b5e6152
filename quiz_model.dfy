/**
 * The Quiz collection's documents. The schema declares questionText, options
 * and correctOption with String, [String] and Number types but bounds none of
 * them; the values the backend hands to the store are kept here as the
 * JavaScript values they are (the store's own casting is not modelled).
 */
module QuizModel {
  import opened Js

  /** One question; correctOption is 1-based by convention only. */
  datatype Question = Question(questionText: Value, options: Value, correctOption: Value, explanation: Value)

  /** A stored quiz: owner, topic, level, ordered questions and the createdAt timestamp. */
  datatype Quiz = Quiz(id: nat, userId: nat, topic: string, level: string, questions: seq<Question>, createdAt: nat)

  /**
   * The shape every question produced by the generation pipeline has: a truthy
   * text, at least two options, a numeric 1-based correct option within range
   * and a truthy explanation.
   */
  predicate WellShaped(q: Question) {
    && Truthy(q.questionText)
    && q.options.Arr? && |q.options.items| >= 2
    && q.correctOption.Num? && 1.0 <= q.correctOption.n <= |q.options.items| as real
    && Truthy(q.explanation)
  }

  /** Quizzes are kept in insertion order: ids distinct and below nextId, createdAt increasing and below clock. */
  ghost predicate Chronological(quizzes: seq<Quiz>, clock: nat, nextId: nat) {
    && CreatedInOrder(quizzes)
    && (forall i, j :: 0 <= i < j < |quizzes| ==> quizzes[i].id != quizzes[j].id)
    && (forall i :: 0 <= i < |quizzes| ==> quizzes[i].createdAt < clock && quizzes[i].id < nextId)
  }

  /** createdAt strictly increases along the sequence. */
  predicate CreatedInOrder(quizzes: seq<Quiz>) {
    forall i, j :: 0 <= i < j < |quizzes| ==> quizzes[i].createdAt < quizzes[j].createdAt
  }
}
