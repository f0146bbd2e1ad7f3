/** Values shared by the quiz session page and the result page. */
module QuizTypes {

  datatype Option<+T> = None | Some(value: T)

  /** The setup record written by the setup flow and read once by the session. */
  datatype QuizSetup = QuizSetup(topic: string, difficulty: string, numberOfQuestions: int)

  /** A generated multiple-choice question; `answer` is the text of the correct option. */
  datatype Question = Question(question: string, options: seq<string>, answer: string)

  /** A question together with the answer recorded for it (`{...question, userAnswer}`). */
  datatype AnsweredQuestion = AnsweredQuestion(item: Question, userAnswer: string)

  /** The record handed from the session to the result page. */
  datatype QuizResult = QuizResult(score: int, total: int, questions: seq<AnsweredQuestion>, timeTaken: int)

  /**
   * Correctness is exact string equality: no trimming, no case folding, no
   * partial credit. In particular a blank answer, as left by a time-out,
   * scores only against a blank correct answer.
   */
  predicate IsCorrect(q: AnsweredQuestion)
    ensures IsCorrect(q) ==> |q.userAnswer| == |q.item.answer| && forall k :: 0 <= k < |q.userAnswer| ==> q.userAnswer[k] == q.item.answer[k]
    ensures q.userAnswer == "" ==> (IsCorrect(q) <==> q.item.answer == "")
  {
    q.userAnswer == q.item.answer
  }

  /** Number of correctly answered questions, counted left to right. */
  function CountCorrect(qs: seq<AnsweredQuestion>): (n: nat)
    ensures n <= |qs|
  {
    if qs == [] then 0
    else CountCorrect(qs[..|qs| - 1]) + (if IsCorrect(qs[|qs| - 1]) then 1 else 0)
  }

  /** The positions whose recorded answer is correct. */
  ghost function CorrectPositions(qs: seq<AnsweredQuestion>): set<int> {
    set i | 0 <= i < |qs| && IsCorrect(qs[i])
  }

  /** The running count and the set of correct positions agree. */
  lemma {:induction false} CountCorrectIsCardinality(qs: seq<AnsweredQuestion>)
    ensures |CorrectPositions(qs)| == CountCorrect(qs)
  {
    if qs != [] {
      var n := |qs| - 1;
      var front := qs[..n];
      CountCorrectIsCardinality(front);
      assert n !in CorrectPositions(front);
      if IsCorrect(qs[n]) {
        assert CorrectPositions(qs) == CorrectPositions(front) + {n};
      } else {
        assert CorrectPositions(qs) == CorrectPositions(front);
      }
    }
  }
}
