/**
 * The quiz session page: the question list, the current position, the
 * recorded answers, the pending selection and the timer switch, with the
 * handlers that change them and the scoring done when the quiz finishes.
 * Question generation, the identity lookup and the remote store are inputs;
 * session storage and the router are fields that record what was written.
 */
module QuizPage {
  import opened QuizTypes
  import Countdown

  const DefaultError := "Failed to generate questions"
  const SetupRoute := "/setup"
  const ResultRoute := "/result"
  /** The constant `duration` the page gives its timer. */
  const TimerSeconds := 60

  /** What a rejected generation call threw. */
  datatype Thrown = ErrorInstance(message: string) | OtherValue

  /** The outcome of the question generator, an external service. */
  datatype Generation = Generated(questions: seq<Question>) | Rejected(thrown: Thrown)

  /** The request handed to the remote result store. */
  datatype SaveRecord = SaveRecord(
    topic: string, difficulty: string, questions: seq<AnsweredQuestion>,
    score: int, totalQuestions: int, timeTaken: int)

  /**
   * `!selectedAnswer` is false: of the values the selection can hold, only
   * `null` and the empty string are falsy.
   */
  predicate HasSelection(selected: Option<string>)
    ensures !HasSelection(selected) <==> selected == None || selected == Some("")
  {
    selected.Some? && selected.value != ""
  }

  /** `stored || null`: the selection restored from a recorded answer. */
  function Restore(stored: string): (selected: Option<string>)
    ensures HasSelection(selected) <==> stored != ""
    ensures HasSelection(selected) ==> selected.value == stored
    ensures !HasSelection(selected) ==> selected == None
  {
    if stored == "" then None else Some(stored)
  }

  /** `new Array(n).fill('')`. */
  function BlankAnswers(n: nat): (answers: seq<string>)
    ensures |answers| == n
    ensures forall i :: 0 <= i < n ==> answers[i] == ""
  {
    seq(n, _ => "")
  }

  /** The error text shown when generation is rejected: the error's own message, or the default text for anything else thrown. */
  function ErrorMessage(thrown: Thrown): (message: string)
    ensures thrown.ErrorInstance? ==> message == thrown.message
    ensures thrown.OtherValue? ==> message == DefaultError && message != ""
  {
    match thrown
    case ErrorInstance(message) => message
    case OtherValue => DefaultError
  }

  /** `questions.map((q, i) => ({...q, userAnswer: finalAnswers[i]}))`. */
  function Annotate(questions: seq<Question>, finalAnswers: seq<string>): (annotated: seq<AnsweredQuestion>)
    requires |finalAnswers| == |questions|
    ensures |annotated| == |questions|
    ensures forall i :: 0 <= i < |questions| ==>
      annotated[i].item == questions[i] && annotated[i].userAnswer == finalAnswers[i]
  {
    seq(|questions|, i requires 0 <= i < |questions| => AnsweredQuestion(questions[i], finalAnswers[i]))
  }

  /** `Math.floor(elapsed / 1000)`: whole seconds elapsed, rounded down. */
  function TimeTaken(elapsedMs: int): (seconds: int)
    ensures seconds * 1000 <= elapsedMs < seconds * 1000 + 1000
  {
    elapsedMs / 1000
  }

  /**
   * The result record a finished quiz stores for the result page: every
   * question in order with its final answer, a score between 0 and the total,
   * the total equal to the number of questions, and whole seconds taken.
   */
  function ResultOf(questions: seq<Question>, finalAnswers: seq<string>, elapsedMs: int): (result: QuizResult)
    requires |finalAnswers| == |questions|
    ensures result.total == |questions| == |result.questions|
    ensures 0 <= result.score <= result.total
    ensures forall i :: 0 <= i < |questions| ==> result.questions[i] == AnsweredQuestion(questions[i], finalAnswers[i])
    ensures result.timeTaken * 1000 <= elapsedMs < result.timeTaken * 1000 + 1000
  {
    var annotated := Annotate(questions, finalAnswers);
    QuizResult(CountCorrect(annotated), |questions|, annotated, TimeTaken(elapsedMs))
  }

  /**
   * The request sent to the remote store for a finished quiz: topic and
   * difficulty from the setup, the answered questions, score, total and time
   * exactly as in the stored result.
   */
  function SaveOf(setup: QuizSetup, result: QuizResult): (record: SaveRecord)
    ensures record.topic == setup.topic && record.difficulty == setup.difficulty
    ensures record.questions == result.questions && record.score == result.score
    ensures record.totalQuestions == result.total && record.timeTaken == result.timeTaken
  {
    SaveRecord(setup.topic, setup.difficulty, result.questions, result.score, result.total, result.timeTaken)
  }

  /** The `forEach` loop that counts the questions whose recorded answer is correct. */
  method CountScore(annotated: seq<AnsweredQuestion>) returns (score: nat)
    ensures score == CountCorrect(annotated)
  {
    score := 0;
    for k := 0 to |annotated|
      invariant score == CountCorrect(annotated[..k])
    {
      if annotated[k].userAnswer == annotated[k].item.answer {
        score := score + 1;
      }
      assert annotated[..k + 1][..k] == annotated[..k];
    }
    assert annotated[..|annotated|] == annotated;
  }

  /**
   * The score is the number of positions whose final answer equals the
   * question's answer exactly, so it lies between 0 and the total, and the
   * stored questions keep the order and length of the quiz.
   */
  lemma ScoreCountsExactMatches(questions: seq<Question>, finalAnswers: seq<string>, elapsedMs: int)
    requires |finalAnswers| == |questions|
    ensures var r := ResultOf(questions, finalAnswers, elapsedMs);
      && r.score == |set i | 0 <= i < |questions| && finalAnswers[i] == questions[i].answer|
      && 0 <= r.score <= r.total == |questions| == |r.questions|
  {
    var annotated := Annotate(questions, finalAnswers);
    CountCorrectIsCardinality(annotated);
    assert CorrectPositions(annotated) == set i | 0 <= i < |questions| && finalAnswers[i] == questions[i].answer;
  }

  class Session {
    var quizSetup: Option<QuizSetup>
    var questions: seq<Question>
    var currentQuestionIndex: nat
    var userAnswers: seq<string>
    var selectedAnswer: Option<string>
    var loading: bool
    var error: Option<string>
    var isTimerActive: bool
    var startTime: int
    /** The `quizResults` entry of session storage. */
    var storedResults: Option<QuizResult>
    /** Every request handed to the remote result store, oldest first. */
    var saveRequests: seq<SaveRecord>
    /** The last route pushed to the router. */
    var route: Option<string>

    /**
     * One recorded answer per question; the index is inside the list once
     * there is one; every question before the current one has a non-blank
     * recorded answer, since the only way forward is Next with a selection.
     */
    ghost predicate Valid()
      reads this
    {
      && |userAnswers| == |questions|
      && (currentQuestionIndex < |questions| || currentQuestionIndex == 0)
      && (questions != [] ==> quizSetup.Some?)
      && (forall j :: 0 <= j < currentQuestionIndex ==> userAnswers[j] != "")
    }

    /**
     * The question screen, and so its buttons and its timer, is rendered: not
     * loading, no error and a non-empty list, so the current question exists.
     */
    predicate Ready()
      reads this
      ensures Ready() && Valid() ==> currentQuestionIndex < |questions|
    {
      !loading && error.None? && questions != []
    }

    /** The state the page starts in, before its mount effect has run. */
    ghost predicate Initial()
      reads this
    {
      && quizSetup == None && questions == [] && currentQuestionIndex == 0 && userAnswers == []
      && selectedAnswer == None && loading && error == None && !isTimerActive && startTime == 0
      && storedResults == None && saveRequests == [] && route == None
    }

    constructor ()
      ensures Valid() && Initial()
    {
      quizSetup, questions, currentQuestionIndex, userAnswers := None, [], 0, [];
      selectedAnswer, loading, error, isTimerActive, startTime := None, true, None, false, 0;
      storedResults, saveRequests, route := None, [], None;
    }

    /**
     * The mount effect: read the setup record (redirecting when there is none)
     * and load the questions. On success there is one blank answer per
     * question, the index is 0 and the timer runs; on failure only the error
     * is set.
     */
    method LoadQuestions(setup: Option<QuizSetup>, generation: Generation, now: int)
      requires Valid() && Initial()
      modifies this
      ensures Valid()
      ensures currentQuestionIndex == 0 && selectedAnswer == None
      ensures storedResults == None && saveRequests == []
      ensures setup.None? ==>
        && route == Some(SetupRoute) && quizSetup == None && questions == [] && userAnswers == []
        && loading && error == None && !isTimerActive && startTime == 0
      ensures setup.Some? ==> route == None && quizSetup == setup && !loading
      ensures setup.Some? && generation.Generated? ==>
        && questions == generation.questions && userAnswers == BlankAnswers(|questions|)
        && error == None && isTimerActive && startTime == now
      ensures setup.Some? && generation.Rejected? ==>
        && questions == [] && userAnswers == [] && error == Some(ErrorMessage(generation.thrown))
        && !isTimerActive && startTime == 0
    {
      if setup.None? {
        route := Some(SetupRoute);
        return;
      }
      quizSetup := setup;
      loading := true;
      match generation {
        case Generated(generated) =>
          questions := generated;
          userAnswers := BlankAnswers(|generated|);
          startTime := now;
          isTimerActive := true;
        case Rejected(thrown) =>
          error := Some(ErrorMessage(thrown));
      }
      loading := false;
    }

    /** `handleAnswerSelect`: the pending selection becomes `answer`, nothing else changes. */
    method SelectAnswer(answer: string)
      requires Valid() && Ready()
      modifies this`selectedAnswer
      ensures Valid() && Ready()
      ensures selectedAnswer == Some(answer)
    {
      selectedAnswer := Some(answer);
    }

    /**
     * The quiz has been finished with `finalAnswers`: the timer is off, the
     * result page route was pushed, the result is stored, and one save request
     * was added to `saves0` exactly when a user is present and a setup exists.
     */
    ghost predicate FinishedWith(finalAnswers: seq<string>, now: int, userPresent: bool, saves0: seq<SaveRecord>)
      reads this
      requires |finalAnswers| == |questions|
    {
      var result := ResultOf(questions, finalAnswers, now - startTime);
      && !isTimerActive
      && route == Some(ResultRoute)
      && storedResults == Some(result)
      && saveRequests == saves0 + (if userPresent && quizSetup.Some? then [SaveOf(quizSetup.value, result)] else [])
    }

    /**
     * `finishQuiz`: stop the timer, score `finalAnswers` against the questions,
     * ask the remote store to save the result when a user is present, then
     * store the result and go to the result page whether or not the save
     * succeeded.
     */
    method FinishQuiz(finalAnswers: seq<string>, now: int, userPresent: bool)
      requires Valid() && |finalAnswers| == |questions|
      modifies this`isTimerActive, this`storedResults, this`saveRequests, this`route
      ensures Valid()
      ensures FinishedWith(finalAnswers, now, userPresent, old(saveRequests))
    {
      isTimerActive := false;
      var annotated := Annotate(questions, finalAnswers);
      var score := CountScore(annotated);
      var timeTaken := TimeTaken(now - startTime);
      var result := QuizResult(score, |questions|, annotated, timeTaken);
      if userPresent && quizSetup.Some? {
        saveRequests := saveRequests + [SaveOf(quizSetup.value, result)];
      }
      storedResults := Some(result);
      route := Some(ResultRoute);
    }

    /**
     * The state `handleNextQuestion` leaves when the answer `selected` was
     * pending at index `i0` over the answers `answers0`: the answer is
     * recorded at `i0` only; before the last question the index moves on by
     * one and the selection is restored from the next recorded answer,
     * otherwise the quiz finishes with the updated answers.
     */
    ghost predicate Advanced(i0: nat, answers0: seq<string>, selected: string, now: int, userPresent: bool,
                             saves0: seq<SaveRecord>, stored0: Option<QuizResult>, route0: Option<string>)
      reads this
      requires i0 < |answers0| == |questions|
    {
      && userAnswers == answers0[i0 := selected]
      && if i0 < |questions| - 1 then
           && currentQuestionIndex == i0 + 1
           && selectedAnswer == Restore(answers0[i0 + 1])
           && saveRequests == saves0 && storedResults == stored0 && route == route0
         else
           && currentQuestionIndex == i0
           && selectedAnswer == Some(selected)
           && FinishedWith(answers0[i0 := selected], now, userPresent, saves0)
    }

    /** `handleNextQuestion`. Without a selection (null or empty) it only alerts. */
    method Next(now: int, userPresent: bool)
      requires Valid() && Ready()
      modifies this
      ensures Valid() && Ready()
      ensures questions == old(questions) && quizSetup == old(quizSetup) && startTime == old(startTime)
      ensures !HasSelection(old(selectedAnswer)) ==> unchanged(this)
      ensures HasSelection(old(selectedAnswer)) ==>
        Advanced(old(currentQuestionIndex), old(userAnswers), old(selectedAnswer).value, now, userPresent,
                 old(saveRequests), old(storedResults), old(route))
      ensures HasSelection(old(selectedAnswer)) && old(currentQuestionIndex) < |questions| - 1 ==>
        isTimerActive == old(isTimerActive)
    {
      if !HasSelection(selectedAnswer) {
        return;
      }
      var i, previousAnswers := currentQuestionIndex, userAnswers;
      var newAnswers := userAnswers[i := selectedAnswer.value];
      userAnswers := newAnswers;
      if i < |questions| - 1 {
        currentQuestionIndex := i + 1;
        selectedAnswer := Restore(previousAnswers[i + 1]);
      } else {
        FinishQuiz(newAnswers, now, userPresent);
      }
    }

    /**
     * The Previous button: when not on the first question, step back one and
     * restore the selection from the answer recorded there. The pending
     * selection is dropped, and the recorded answers never change.
     */
    method Previous()
      requires Valid() && Ready()
      modifies this`currentQuestionIndex, this`selectedAnswer
      ensures Valid() && Ready()
      ensures old(currentQuestionIndex) > 0 ==>
        currentQuestionIndex == old(currentQuestionIndex) - 1
        && selectedAnswer == Restore(userAnswers[currentQuestionIndex])
      ensures old(currentQuestionIndex) == 0 ==>
        currentQuestionIndex == 0 && selectedAnswer == old(selectedAnswer)
    {
      if currentQuestionIndex > 0 {
        currentQuestionIndex := currentQuestionIndex - 1;
        selectedAnswer := Restore(userAnswers[currentQuestionIndex]);
      }
    }

    /**
     * `handleTimeUp`: stop the timer. Without a selection, finish at once with
     * the current slot blanked, whichever question is showing; the recorded
     * answers, index and selection stay as they were. With a selection, do
     * exactly what Next does.
     */
    method TimeUp(now: int, userPresent: bool)
      requires Valid() && Ready()
      modifies this
      ensures Valid() && Ready() && !isTimerActive
      ensures questions == old(questions) && quizSetup == old(quizSetup) && startTime == old(startTime)
      ensures !HasSelection(old(selectedAnswer)) ==>
        && userAnswers == old(userAnswers)
        && currentQuestionIndex == old(currentQuestionIndex) && selectedAnswer == old(selectedAnswer)
        && FinishedWith(old(userAnswers)[old(currentQuestionIndex) := ""], now, userPresent, old(saveRequests))
      ensures HasSelection(old(selectedAnswer)) ==>
        Advanced(old(currentQuestionIndex), old(userAnswers), old(selectedAnswer).value, now, userPresent,
                 old(saveRequests), old(storedResults), old(route))
    {
      isTimerActive := false;
      if !HasSelection(selectedAnswer) {
        var newAnswers := userAnswers[currentQuestionIndex := ""];
        FinishQuiz(newAnswers, now, userPresent);
      } else {
        Next(now, userPresent);
      }
    }
  }

  /**
   * One second of the page's timer, rendered with `isActive={isTimerActive}`
   * and `onTimeUp={handleTimeUp}`. While the session keeps the timer off
   * nothing happens. A tick that fires runs the whole time-up handler: with
   * nothing selected the quiz finishes with the current slot blanked, with a
   * selection it moves on as Next does. Either way the timer is then off, so
   * a further tick changes nothing.
   */
  method TimerSecond(session: Session, timer: Countdown.Timer, now: int, userPresent: bool) returns (fired: bool)
    requires session.Valid() && session.Ready() && timer.duration == TimerSeconds
    modifies session, timer`timeLeft
    ensures session.Valid() && session.Ready()
    ensures !old(session.isTimerActive) ==> !fired && timer.timeLeft == old(timer.timeLeft) && unchanged(session)
    ensures old(session.isTimerActive) ==>
      fired == Countdown.Expires(old(timer.timeLeft)) && timer.timeLeft == Countdown.NextTimeLeft(old(timer.timeLeft))
    ensures fired ==> !session.isTimerActive
    ensures !fired ==> unchanged(session)
    ensures session.questions == old(session.questions)
    ensures session.quizSetup == old(session.quizSetup) && session.startTime == old(session.startTime)
    ensures fired && !HasSelection(old(session.selectedAnswer)) ==>
      && session.userAnswers == old(session.userAnswers)
      && session.currentQuestionIndex == old(session.currentQuestionIndex)
      && session.selectedAnswer == old(session.selectedAnswer)
      && session.FinishedWith(old(session.userAnswers)[old(session.currentQuestionIndex) := ""], now, userPresent,
                              old(session.saveRequests))
    ensures fired && HasSelection(old(session.selectedAnswer)) ==>
      session.Advanced(old(session.currentQuestionIndex), old(session.userAnswers), old(session.selectedAnswer).value,
                       now, userPresent, old(session.saveRequests), old(session.storedResults), old(session.route))
  {
    var _, expired := timer.Tick(session.isTimerActive);
    fired := expired;
    if fired {
      session.TimeUp(now, userPresent);
    }
  }

  /**
   * Going back and then on again with the restored answer puts the index and
   * the recorded answers back as they were; the selection that was pending
   * when going back is lost.
   */
  method BackThenNext(session: Session, now: int, userPresent: bool)
    requires session.Valid() && session.Ready()
    requires session.currentQuestionIndex > 0
    modifies session
    ensures session.Valid() && session.Ready()
    ensures session.currentQuestionIndex == old(session.currentQuestionIndex)
    ensures session.userAnswers == old(session.userAnswers)
    ensures session.selectedAnswer == Restore(session.userAnswers[session.currentQuestionIndex])
    ensures session.questions == old(session.questions) && session.isTimerActive == old(session.isTimerActive)
    ensures session.storedResults == old(session.storedResults) && session.saveRequests == old(session.saveRequests)
    ensures session.route == old(session.route)
    ensures session.quizSetup == old(session.quizSetup) && session.startTime == old(session.startTime)
  {
    ghost var answers := session.userAnswers;
    ghost var i := session.currentQuestionIndex;
    session.Previous();
    session.Next(now, userPresent);
    assert answers[i - 1 := answers[i - 1]] == answers;
  }

  /**
   * Two questions with answers "Paris" and "Tokyo"; "Paris" is chosen for the
   * first, and the page's 60-second countdown, started at load (1000 ms),
   * runs out at 61000 ms at the earliest (each render restarts its
   * interval) on the second question with nothing selected. The
   * quiz ends with score 1 of 2 and a blank second answer, and without a user
   * nothing is sent to the remote store. A lower-case "paris" would not count.
   */
  method CapitalsWalkthrough()
  {
    var paris := Question("Capital of France?", ["Paris", "Lyon"], "Paris");
    var tokyo := Question("Capital of Japan?", ["Osaka", "Tokyo"], "Tokyo");
    var session := new Session();
    session.LoadQuestions(Some(QuizSetup("Capitals", "easy", 2)), Generated([paris, tokyo]), 1000);
    session.SelectAnswer("Paris");
    session.Next(31000, false);
    assert session.currentQuestionIndex == 1 && session.selectedAnswer == None;
    session.TimeUp(61000, false);
    var finalAnswers := ["Paris", ""];
    assert session.userAnswers[1 := ""] == finalAnswers;
    ScoreCountsExactMatches([paris, tokyo], finalAnswers, 60000);
    assert (set i | 0 <= i < 2 && finalAnswers[i] == [paris, tokyo][i].answer) == {0};
    var result := session.storedResults.value;
    assert result.score == 1 && result.total == 2;
    assert result.questions[1].userAnswer == "" && result.timeTaken == 60;
    assert session.saveRequests == [];
    assert !IsCorrect(AnsweredQuestion(paris, "paris"));
  }
}
