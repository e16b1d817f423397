/**
 * The brain quiz of `BrainQuiz` (src/components/BrainQuiz.tsx): four
 * questions drawn from a bank of ten, answered one at a time, then a score
 * and a restart.
 *
 * The random shuffle is an argument of the constructor: the order in which
 * the shuffle puts the bank's ten positions, any permutation of them. Each
 * button press is one call of `OnAnswer`.
 */
module BrainQuiz {

  /** A question: its text, its options and the index `a` of the right one. */
  datatype Question = Question(q: string, options: seq<string>, a: nat)

  /** `QUESTIONS`. */
  const Bank: seq<Question> := [
    Question("What day comes after Monday?", ["Sunday", "Tuesday", "Friday"], 1),
    Question("How many minutes are in one hour?", ["30", "60", "90"], 1),
    Question("Which is a fruit?", ["Carrot", "Apple", "Broccoli"], 1),
    Question("What is the capital of India?", ["Bihar", "Delhi", "Mumbai"], 1),
    Question("What color is the sky on a clear day?", ["Green", "Blue", "Red"], 1),
    Question("How many sides does a triangle have?", ["2", "3", "4"], 1),
    Question("What is 2 + 2?", ["3", "4", "5"], 1),
    Question("What is the largest planet in our solar system?", ["Earth", "Mars", "Jupiter"], 2),
    Question("What is the boiling point of water?", ["100\U{B0}C", "90\U{B0}C", "80\U{B0}C"], 0),
    Question("What is the main ingredient in bread?", ["Rice", "Wheat", "Corn"], 1)
  ]

  /** The number of questions a quiz takes from the shuffled bank. */
  const QuizLength: nat := 4

  predicate WellFormed(x: Question)
  {
    |x.options| == 3 && x.a < |x.options|
  }

  /** Every bank question has three options and its answer is one of them. */
  lemma BankIsWellFormed()
    ensures |Bank| == 10
    ensures forall i :: 0 <= i < |Bank| ==> WellFormed(Bank[i])
  {
  }

  predicate NoRepeats<T(==)>(s: seq<T>)
  {
    forall i, j :: 0 <= i < j < |s| ==> s[i] != s[j]
  }

  /** The bank holds each question once. */
  lemma BankHasNoRepeats()
    ensures NoRepeats(Bank)
  {
    forall i, j | 0 <= i < j < |Bank|
      ensures Bank[i] != Bank[j]
    {
      assert Bank[i].q[..6] != Bank[j].q[..6] || Bank[i].options[0] != Bank[j].options[0];
    }
  }

  /** A random order of the `n` bank positions: each position exactly once. */
  predicate IsOrder(order: seq<nat>, n: nat)
  {
    |order| == n && (forall i :: 0 <= i < n ==> order[i] < n) && NoRepeats(order)
  }

  /**
   * A quiz of the first four questions of `pool` shuffled into `order`: the
   * question at place `i` is the pool's question at position `order[i]`, and
   * no question comes twice.
   */
  function Select(pool: seq<Question>, order: seq<nat>): (qs: seq<Question>)
    requires QuizLength <= |pool| && NoRepeats(pool) && IsOrder(order, |pool|)
    ensures |qs| == QuizLength
    ensures forall i :: 0 <= i < |qs| ==> qs[i] == pool[order[i]]
    ensures NoRepeats(qs)
  {
    seq(QuizLength, k requires 0 <= k < QuizLength => pool[order[k]])
  }

  /** The quiz drawn from the shuffled bank: four different well-formed bank questions. */
  function DrawQuiz(order: seq<nat>): (qs: seq<Question>)
    requires IsOrder(order, |Bank|)
    ensures |qs| == QuizLength && NoRepeats(qs)
    ensures forall i :: 0 <= i < |qs| ==> qs[i] == Bank[order[i]] && WellFormed(qs[i])
  {
    BankIsWellFormed();
    BankHasNoRepeats();
    Select(Bank, order)
  }

  /**
   * The score: the number of positions whose answer is the right index, as
   * `answers.filter((a, i) => a === quizQuestions[i].a).length` counts it.
   */
  function Score(answers: seq<nat>, qs: seq<Question>): (r: nat)
    requires |answers| <= |qs|
    ensures r <= |answers|
  {
    if answers == [] then 0
    else
      var n := |answers| - 1;
      Score(answers[..n], qs) + (if answers[n] == qs[n].a then 1 else 0)
  }

  /** The positions answered correctly. */
  function CorrectPositions(answers: seq<nat>, qs: seq<Question>): set<nat>
    requires |answers| <= |qs|
  {
    set i: nat | i < |answers| && answers[i] == qs[i].a
  }

  /** The score is the number of correctly answered positions. */
  lemma {:induction false} ScoreCountsCorrect(answers: seq<nat>, qs: seq<Question>)
    requires |answers| <= |qs|
    ensures Score(answers, qs) == |CorrectPositions(answers, qs)|
    decreases |answers|
  {
    if answers != [] {
      var n := |answers| - 1;
      var prefix := answers[..n];
      ScoreCountsCorrect(prefix, qs);
      if answers[n] == qs[n].a {
        assert CorrectPositions(answers, qs) == CorrectPositions(prefix, qs) + {n};
      } else {
        assert CorrectPositions(answers, qs) == CorrectPositions(prefix, qs);
      }
    } else {
      assert CorrectPositions(answers, qs) == {};
    }
  }

  /** One more answer adds one to the score exactly when it is the right index. */
  lemma ScoreAppend(answers: seq<nat>, idx: nat, qs: seq<Question>)
    requires |answers| < |qs|
    ensures Score(answers + [idx], qs) == Score(answers, qs) + (if idx == qs[|answers|].a then 1 else 0)
  {
    assert (answers + [idx])[..|answers|] == answers;
  }

  /** Answering every question right scores full marks. */
  lemma {:induction false} AllRightScoresAll(qs: seq<Question>, n: nat)
    requires n <= |qs|
    ensures Score(seq(n, i requires 0 <= i < n => qs[i].a), qs) == n
  {
    if n > 0 {
      var right := seq(n, i requires 0 <= i < n => qs[i].a);
      AllRightScoresAll(qs, n - 1);
      assert right[..n - 1] == seq(n - 1, i requires 0 <= i < n - 1 => qs[i].a);
    }
  }

  class Quiz {
    /** `quizQuestions`, fixed for the life of the component. */
    const questions: seq<Question>
    var currentIndex: nat
    var answers: seq<nat>

    ghost predicate Valid()
      reads this
    {
      && |questions| == QuizLength
      && (forall i :: 0 <= i < |questions| ==> WellFormed(questions[i]))
      && |answers| == currentIndex <= |questions|
    }

    /** `done`. */
    function Done(): bool
      reads this
    {
      currentIndex >= |questions|
    }

    /** `score`. */
    function CurrentScore(): (r: nat)
      requires Valid()
      reads this
      ensures r <= |answers| <= QuizLength
    {
      Score(answers, questions)
    }

    /** A fresh quiz over the shuffled bank: nothing answered yet. */
    constructor (order: seq<nat>)
      requires IsOrder(order, |Bank|)
      ensures Valid() && questions == DrawQuiz(order)
      ensures currentIndex == 0 && answers == [] && !Done()
    {
      questions := DrawQuiz(order);
      currentIndex := 0;
      answers := [];
    }

    /**
     * `onAnswer(idx)`, offered only while the quiz is not done and only with
     * an option index of the current question: the answer is appended and the
     * next question comes up.
     */
    method OnAnswer(idx: nat)
      requires Valid() && !Done() && idx < |questions[currentIndex].options|
      modifies this
      ensures Valid()
      ensures answers == old(answers) + [idx] && currentIndex == old(currentIndex) + 1
      ensures CurrentScore() == old(CurrentScore()) + (if idx == questions[old(currentIndex)].a then 1 else 0)
    {
      ScoreAppend(answers, idx, questions);
      answers := answers + [idx];
      currentIndex := currentIndex + 1;
    }

    /** Play Again: back to the first question with no answers, over the same questions. */
    method Restart()
      requires Valid()
      modifies this
      ensures Valid() && currentIndex == 0 && answers == [] && !Done() && CurrentScore() == 0
    {
      currentIndex := 0;
      answers := [];
    }
  }
}
