/**
 * The result page: grading of the stored result (percentage, pass mark,
 * colour and message ladders, minutes taken) and the review position moved
 * by the Previous and Next buttons and the overview grid.
 */
module ResultPage {
  import opened QuizTypes
  import QuizPage

  const PassMark := 70

  /**
   * `Math.round(score / total * 100)` over the rationals: the nearest whole
   * percentage, halves rounded up. Floating-point error is not modelled.
   */
  function Percentage(score: int, total: int): (percentage: int)
    requires total > 0
    ensures 2 * total * percentage <= 200 * score + total < 2 * total * (percentage + 1)
  {
    (200 * score + total) / (2 * total)
  }

  lemma MultiplyMonotone(a: int, b: int, c: int)
    requires a > 0 && b <= c
    ensures a * b <= a * c
  {
    assert a * c - a * b == a * (c - b);
  }

  /** A score between 0 and the total gives a percentage between 0 and 100. */
  lemma PercentageBounds(score: int, total: int)
    requires 0 <= score <= total && total > 0
    ensures 0 <= Percentage(score, total) <= 100
  {
    var p := Percentage(score, total);
    if p < 0 {
      MultiplyMonotone(2 * total, p + 1, 0);
    }
    if p > 100 {
      MultiplyMonotone(2 * total, 101, p);
    }
  }

  /**
   * `passed`: the percentage reaches the pass mark. The green or red trophy
   * agrees with the score colour: a pass is never drawn red and a fail never
   * green.
   */
  predicate Passed(percentage: int)
    ensures Passed(percentage) ==> ScoreColorOf(percentage) != Red
    ensures !Passed(percentage) ==> ScoreColorOf(percentage) != Green
  {
    percentage >= PassMark
  }

  /** A quiz is passed exactly when the score is at least 69.5% of the total. */
  lemma PassedByScore(score: int, total: int)
    requires total > 0
    ensures Passed(Percentage(score, total)) <==> 200 * score >= 139 * total
  {
    var p := Percentage(score, total);
    if p >= PassMark {
      MultiplyMonotone(2 * total, PassMark, p);
    } else {
      MultiplyMonotone(2 * total, p + 1, PassMark);
    }
  }

  datatype ScoreColor = Green | Yellow | Red

  /** `getScoreColor`. */
  function ScoreColorOf(percentage: int): (color: ScoreColor)
    ensures color == Green <==> percentage >= 80
    ensures color == Yellow <==> 60 <= percentage < 80
    ensures color == Red <==> percentage < 60
  {
    if percentage >= 80 then Green
    else if percentage >= 60 then Yellow
    else Red
  }

  /** The text colour class of each colour; no two colours share a class. */
  function ColorClass(color: ScoreColor): (className: string)
    ensures color == Green <==> className == "text-green-600"
    ensures color == Yellow <==> className == "text-yellow-600"
    ensures color == Red <==> className == "text-red-600"
  {
    match color
    case Green => "text-green-600"
    case Yellow => "text-yellow-600"
    case Red => "text-red-600"
  }

  datatype ScoreMessage = Outstanding | Excellent | GreatJob | GoodEffort | KeepPracticing

  /** `getScoreMessage`: thresholds 90, 80, 70 and 60; the top three are exactly the passing grades. */
  function ScoreMessageOf(percentage: int): (message: ScoreMessage)
    ensures message == Outstanding <==> percentage >= 90
    ensures message == Excellent <==> 80 <= percentage < 90
    ensures message == GreatJob <==> 70 <= percentage < 80
    ensures message == GoodEffort <==> 60 <= percentage < 70
    ensures message == KeepPracticing <==> percentage < 60
    ensures message in {Outstanding, Excellent, GreatJob} <==> Passed(percentage)
  {
    if percentage >= 90 then Outstanding
    else if percentage >= 80 then Excellent
    else if percentage >= 70 then GreatJob
    else if percentage >= 60 then GoodEffort
    else KeepPracticing
  }

  /** The text of each message; no two messages share a text, and each names its grade first. */
  function MessageText(message: ScoreMessage): (text: string)
    ensures message == Outstanding <==> text == "Outstanding! \U{1F31F}"
    ensures message == Excellent <==> text == "Excellent work! \U{1F389}"
    ensures message == GreatJob <==> text == "Great job! \U{1F44F}"
    ensures message == GoodEffort <==> text == "Good effort! \U{1F44D}"
    ensures message == KeepPracticing <==> text == "Keep practicing! \U{1F4AA}"
  {
    match message
    case Outstanding => "Outstanding! \U{1F31F}"
    case Excellent => "Excellent work! \U{1F389}"
    case GreatJob => "Great job! \U{1F44F}"
    case GoodEffort => "Good effort! \U{1F44D}"
    case KeepPracticing => "Keep practicing! \U{1F4AA}"
  }

  /** The "Time Taken" figure: whole minutes, and 0 when no time was recorded. */
  function MinutesShown(timeTaken: Option<int>): (minutes: int)
    ensures timeTaken.None? ==> minutes == 0
    ensures timeTaken.Some? ==> minutes * 60 <= timeTaken.value < minutes * 60 + 60
  {
    match timeTaken
    case None => 0
    case Some(seconds) => if seconds == 0 then 0 else seconds / 60
  }

  /**
   * Reviewing the result the session stored, the overview grid draws as many
   * cells correct as the stored score.
   */
  lemma CorrectCellsMatchScore(review: Review, questions: seq<Question>, finalAnswers: seq<string>, elapsedMs: int)
    requires |finalAnswers| == |questions|
    requires review.questions == QuizPage.ResultOf(questions, finalAnswers, elapsedMs).questions
    ensures |set i | 0 <= i < |review.questions| && review.CellIsCorrect(i)| ==
      QuizPage.ResultOf(questions, finalAnswers, elapsedMs).score
  {
    CountCorrectIsCardinality(review.questions);
    assert (set i | 0 <= i < |review.questions| && review.CellIsCorrect(i)) == CorrectPositions(review.questions);
  }

  /** The question under review, moved by Previous, Next and the overview grid. */
  class Review {
    const questions: seq<AnsweredQuestion>
    var currentQuestionIndex: int

    ghost predicate Valid()
      reads this
    {
      0 <= currentQuestionIndex < |questions|
    }

    /** The page shows `questions[0]` first, so the stored result has at least one question. */
    constructor (results: QuizResult)
      requires |results.questions| >= 1
      ensures Valid() && questions == results.questions && currentQuestionIndex == 0
    {
      questions := results.questions;
      currentQuestionIndex := 0;
    }

    /** `Math.max(0, index - 1)`: a step back that stays on the first question. */
    method Previous()
      requires Valid()
      modifies this
      ensures Valid()
      ensures old(currentQuestionIndex) > 0 ==> currentQuestionIndex == old(currentQuestionIndex) - 1
      ensures old(currentQuestionIndex) == 0 ==> currentQuestionIndex == 0
    {
      currentQuestionIndex := if currentQuestionIndex - 1 > 0 then currentQuestionIndex - 1 else 0;
    }

    /** `Math.min(length - 1, index + 1)`: a step on that stays on the last question. */
    method Next()
      requires Valid()
      modifies this
      ensures Valid()
      ensures old(currentQuestionIndex) < |questions| - 1 ==> currentQuestionIndex == old(currentQuestionIndex) + 1
      ensures old(currentQuestionIndex) == |questions| - 1 ==> currentQuestionIndex == |questions| - 1
    {
      var last := |questions| - 1;
      currentQuestionIndex := if last < currentQuestionIndex + 1 then last else currentQuestionIndex + 1;
    }

    /** A click on overview cell `index` shows exactly that question. */
    method Jump(index: int)
      requires Valid() && 0 <= index < |questions|
      modifies this
      ensures Valid() && currentQuestionIndex == index
    {
      currentQuestionIndex := index;
    }

    /** Whether the overview cell at `index` is drawn as correct: exactly the positions the score counts. */
    predicate CellIsCorrect(index: int)
      requires 0 <= index < |questions|
      ensures CellIsCorrect(index) <==> index in CorrectPositions(questions)
    {
      IsCorrect(questions[index])
    }
  }
}
