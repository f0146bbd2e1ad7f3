# Quiz session, countdown and result grading

A Dafny model of the sequential logic inside a quiz web application: the quiz
session page, which steps through generated questions, records answers, reacts to
its countdown and scores the quiz; the countdown component; and the result page,
which grades the stored result and moves through the answered questions for review.

- `types.dfy` (module `QuizTypes`): questions, setup and result records, exact-match
  correctness and the counting definition of the score.
- `timer.dfy` (module `Countdown`): the `Timer` class (`duration`, `timeLeft`), its tick
  and duration reset, the behaviour of repeated ticks, and the `mm:ss` label.
- `quiz_page.dfy` (module `QuizPage`): the `Session` class with the page's state and its
  handlers (load, select, next, previous, time up, finish), the scoring loop, and three
  client methods: the timer wired to the session, going back and on again, and a
  two-question walkthrough.
- `result_page.dfy` (module `ResultPage`): percentage, pass mark, colour and message
  ladders, minutes shown, the overview grid's correctness, and the `Review` class for
  the review position.

Behaviour of the code that a reader might not expect:

- One might expect the countdown to signal expiry once. It fires `onTimeUp` on every
  active tick whose new value is at most 0, and stops firing only because the session's
  time-up handler switches it off.
- The page passes a constant `duration={60}`, so the countdown is never reset when the
  question changes. The 60 seconds cover the whole quiz, not each question.
- One might expect a timeout with nothing selected to skip to the next question unless it
  is the last. It finishes the whole quiz on any question, and records the blank answer
  only in the finished result, not in the page's `userAnswers`.
- Time running out with an answer selected acts like Next. On a non-final question the
  quiz then goes on with the timer off, and nothing switches it back on.
- An empty-string selection counts as no selection. Going back drops the pending
  selection and restores the recorded one.

## Model

| member | source | states |
|---|---|---|
| `QuizTypes.IsCorrect` | app/quiz/page.tsx:105 | correct only when the recorded answer equals the correct one character for character; a blank answer scores only against a blank correct answer |
| `QuizTypes.CountCorrect` | app/quiz/page.tsx:104-108 | the score counted left to right is at most the number of questions |
| `QuizTypes.CountCorrectIsCardinality` | app/quiz/page.tsx:104-108 | the counted score equals the number of positions whose answer is exactly correct |
| `Countdown.Expires` | components/Timer.tsx:25-28 | a tick fires exactly when at most one second was left before it |
| `Countdown.NextTimeLeft` | components/Timer.tsx:24-34 | after an active tick the time left is never negative; it is 0 exactly when the tick fires, otherwise one less; it never grows from a non-negative start |
| `Countdown.AfterCountsDown` | components/Timer.tsx:24-34 | from a start d ≥ 0, n active ticks leave max(d − n, 0) |
| `Countdown.FiresFromTick` | components/Timer.tsx:24-34 | from d ≥ 1 the k-th active tick fires exactly when k ≥ d: first on tick d, then again on every later tick |
| `Countdown.Minutes` | components/Timer.tsx:40 | minutes shown are the time divided by 60 rounded down (m·60 ≤ t < m·60 + 60), never negative for a non-negative time |
| `Countdown.Seconds` | components/Timer.tsx:40-41 | for a non-negative time, seconds lie in [0, 60) and minutes·60 + seconds is the time; JavaScript's truncating remainder otherwise |
| `Countdown.Digits` | components/Timer.tsx:54 | a number's decimal text is non-empty, all digits, one digit below 10 and two below 100 |
| `Countdown.ToString` | components/Timer.tsx:54 | a non-negative number's text is all digits and reads back as the number; a negative one's is a minus sign followed by digits that read back as its magnitude |
| `Countdown.PadStart` | components/Timer.tsx:54 | the padded text has the requested width or more, ends with the original and is filled before it |
| `Countdown.DigitsRoundTrip` | components/Timer.tsx:54 | reading a number's decimal text back gives the number |
| `Countdown.LeadingZeros` | components/Timer.tsx:54 | zero padding does not change a field's value |
| `Countdown.PaddedField` | components/Timer.tsx:54 | each padded field has at least two digits, exactly two below 100, and reads back as its number |
| `Countdown.ClockText` | components/Timer.tsx:40-54 | the label has at least five characters; for a non-negative time the colon is third from the end; below 100 minutes it is exactly five characters |
| `Countdown.ClockRoundTrip` | components/Timer.tsx:40-54 | the label of a non-negative time is digits, a colon and two digits, and reading its fields back gives minutes·60 + seconds = the time |
| `Countdown.Timer.constructor` | components/Timer.tsx:14 | the time left starts at the duration |
| `Countdown.Timer.ChangeDuration` | components/Timer.tsx:16-18 | a changed duration resets the time left to it; an unchanged one leaves it |
| `Countdown.Timer.Tick` | components/Timer.tsx:20-35 | inactive: nothing changes or fires; active: reports prev − 1, fires iff that is ≤ 0, stores it clamped at 0 |
| `QuizPage.HasSelection` | app/quiz/page.tsx:64-87 | the selection counts as absent exactly when it is null or the empty string |
| `QuizPage.Restore` | app/quiz/page.tsx:76 | a stored empty answer restores as no selection, any other as that answer |
| `QuizPage.BlankAnswers` | app/quiz/page.tsx:47 | one empty answer per question |
| `QuizPage.ErrorMessage` | app/quiz/page.tsx:51 | an `Error`'s own message is the error text; anything else thrown shows the non-empty default text |
| `QuizPage.Annotate` | app/quiz/page.tsx:99-102 | the annotated questions keep order and length and slot i carries final answer i |
| `QuizPage.TimeTaken` | app/quiz/page.tsx:110 | whole seconds elapsed, rounded down |
| `QuizPage.ResultOf` | app/quiz/page.tsx:98-137 | the stored record lists every question in order with its final answer, its total is the number of questions, its score lies between 0 and the total, and its time is the whole seconds elapsed |
| `QuizPage.SaveOf` | app/quiz/page.tsx:117-124 | the save request carries the setup's topic and difficulty and the stored result's questions, score, total and time unchanged |
| `QuizPage.CountScore` | app/quiz/page.tsx:104-108 | the loop's score is the counted number of exactly correct answers |
| `QuizPage.ScoreCountsExactMatches` | app/quiz/page.tsx:98-108 | the stored score is the number of i with finalAnswers[i] == questions[i].answer, between 0 and total = number of questions |
| `QuizPage.Session.Ready` | app/quiz/page.tsx:143-181 | the question screen is shown only when not loading, without an error and with questions, so the current question exists |
| `QuizPage.Session.constructor` | app/quiz/page.tsx:15-23 | the page starts loading with empty lists, index 0, nothing selected and the timer off |
| `QuizPage.Session.LoadQuestions` | app/quiz/page.tsx:27-58 | no setup: redirect to setup only; success: the questions, one blank answer each, index 0, start time now, timer on; failure: the thrown message or the default one, nothing else |
| `QuizPage.Session.SelectAnswer` | app/quiz/page.tsx:60-62 | the pending selection becomes the chosen answer and nothing else changes |
| `QuizPage.Session.FinishQuiz` | app/quiz/page.tsx:94-141 | timer off, result stored and result route pushed; a save request is added exactly when a user and a setup are present, and the result is stored either way |
| `QuizPage.Session.Next` | app/quiz/page.tsx:64-80 | no selection: nothing changes; otherwise only the current slot is overwritten, then index + 1 with the next answer restored, or finish with the updated answers on the last question |
| `QuizPage.Session.Previous` | app/quiz/page.tsx:215-220 | above 0: index − 1 and the selection restored from that slot; at 0: nothing; answers never change; index stays in range |
| `QuizPage.Session.TimeUp` | app/quiz/page.tsx:82-92 | timer off; no selection: finish at once with the current slot blanked, on any question; with a selection: exactly Next |
| `QuizPage.TimerSecond` | app/quiz/page.tsx:196-200 | the page's 60-second timer ticks only while the session keeps it on; a tick that fires runs the whole time-up handler (nothing selected: the quiz finishes with the current slot blanked and answers, index and selection left as they were; a selection: exactly Next), after which the timer is off; the setup, the start time and the questions are kept, so the stored result's time runs from the quiz's start |
| `QuizPage.BackThenNext` | app/quiz/page.tsx:215-220 | from any question after the first, going back and on again with the restored answer gives back the index and the answers, the pending selection is lost, and the questions, timer switch, stored result, save requests, route, setup and start time are unchanged |
| `ResultPage.Percentage` | app/result/page.tsx:33 | the percentage is the nearest whole number to score/total·100, halves rounded up |
| `ResultPage.PercentageBounds` | app/result/page.tsx:33 | a score between 0 and the total gives a percentage between 0 and 100 |
| `ResultPage.Passed` | app/result/page.tsx:34-57 | the trophy's pass colour agrees with the score colour: a pass is never drawn red and a fail never green |
| `ResultPage.PassedByScore` | app/result/page.tsx:34 | passed (percentage ≥ 70) exactly when the score is at least 69.5% of the total |
| `ResultPage.ScoreColorOf` | app/result/page.tsx:36-40 | green iff ≥ 80, yellow iff 60 to 79, red iff below 60 |
| `ResultPage.ColorClass` | app/result/page.tsx:36-40 | each colour has its own class: green, yellow and red text, no two alike |
| `ResultPage.ScoreMessageOf` | app/result/page.tsx:42-48 | five messages split at 90, 80, 70 and 60; the top three exactly when passed |
| `ResultPage.MessageText` | app/result/page.tsx:42-48 | each of the five grades has its own message text, no two alike |
| `ResultPage.MinutesShown` | app/result/page.tsx:86 | whole minutes of the time taken, rounded down; 0 when none is recorded |
| `ResultPage.CorrectCellsMatchScore` | app/result/page.tsx:147-148 | reviewing the result the session stored, the number of overview cells drawn correct equals its score |
| `ResultPage.Review.constructor` | app/result/page.tsx:13-22 | review starts on the first question of the stored result |
| `ResultPage.Review.Previous` | app/result/page.tsx:111 | one back, staying at 0 on the first question |
| `ResultPage.Review.Next` | app/result/page.tsx:123 | one on, staying on the last question |
| `ResultPage.Review.CellIsCorrect` | app/result/page.tsx:148 | a cell is drawn correct exactly when its position is one the score counts |
| `ResultPage.Review.Jump` | app/result/page.tsx:154 | clicking cell i shows exactly question i |

## Left out

- The layout, sign-in and sign-out component, the root layout and the build configuration: rendering, metadata and foreign authentication calls, with no logic to state.
- Question generation: an external AI service, modelled only by its outcome (`Generation`: the questions, or what was thrown).
- The identity lookup and the remote result store: asynchronous foreign calls. The lookup is the `userPresent` input; the store is `saveRequests`, a log of the requests handed to it. Whether a save succeeds is not modelled, because the code swallows its failure and nothing else depends on it.
- Session storage, JSON encoding, the router and the alert: browser I/O. The `quizResults` entry is the `storedResults` field, navigation is the `route` field, and the alert is a no-op.
- `setInterval`, effect re-subscription and `Date.now`: a second of the interval is an explicit `Tick` call, and the clock is a `now` parameter in milliseconds.
- The timer's colour percentage (float arithmetic used only for styling), and all JSX and class names other than the score colour's classes (`ColorClass`) and the trophy's pass colour (`Passed`).
- The question component and the shared type definitions are not part of this model. `Question` has the fields the pages use: the text, the options and the answer.
- Percentage: integer idealisation `(200·score + total) div (2·total)` of `Math.round(score / total * 100)`; floating-point rounding error is not modelled, and a total of 0 (which never reaches the page, since a quiz with no questions cannot be finished) is excluded.
- MinutesShown: a time that is not a number (`NaN`) is not modelled; an absent time is `None`.
- QuizPage.Session.LoadQuestions: requires the page's initial state, since the mount effect runs once.
- ResultPage.Review.constructor: requires at least one stored question, since the page reads the first one when it renders.
