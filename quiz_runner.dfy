// The quiz runner (QuizInterface.jsx): the state a running quiz keeps, the
// handlers that change it, scoring, the countdown and the grade.

module QuizRunner {
  import opened Common
  import opened Text
  import opened QuizData

  /** What `handleSubmit` reports to `onComplete`, and what a finished quiz is
      opened with again. `score` is `None` where the stored value is not a
      number. Answers map a question index to the chosen option index. */
  datatype QuizResults = QuizResults(score: Option<int>, totalQuestions: int, timeElapsed: int, answers: map<int, int>)

  /** The guard in front of the runner: without a non-empty `questions` array
      it shows the invalid-data screen instead. */
  predicate IsRunnable(quiz: Quiz)
  {
    |quiz.questions| > 0
  }

  /** `question.options` is an array (the entry is truthy and carries one);
      otherwise the runner shows a placeholder question with one option. */
  predicate HasOptionsArray(q: Question)
  {
    q.Parsed? || (q.raw.JObject? && "options" in q.raw.fields && q.raw.fields["options"].JArray?)
  }

  /** `currentQ.options.length`. */
  function DisplayedOptionCount(q: Question): (n: nat)
    ensures HasOptionsArray(q) ==> n == OptionCount(q)
    ensures !HasOptionsArray(q) ==> n == 1
  {
    if HasOptionsArray(q) then OptionCount(q) else 1
  }

  /** `Math.max(0, Math.min(i, n - 1))`. */
  function Clamp(i: int, n: int): (r: int)
    requires n >= 1
    ensures 0 <= r < n
    ensures 0 <= i < n ==> r == i
    ensures i < 0 ==> r == 0
    ensures i >= n ==> r == n - 1
  {
    if i < 0 then 0 else if i > n - 1 then n - 1 else i
  }

  /** Number of the first `k` questions whose stored answer is the correct one. */
  function CorrectUpTo(questions: seq<Question>, answers: map<int, int>, k: nat): (c: nat)
    requires k <= |questions|
    ensures c <= k
  {
    if k == 0 then 0
    else CorrectUpTo(questions, answers, k - 1) + (if AnsweredCorrectly(questions, answers, k - 1) then 1 else 0)
  }

  /** `selectedAnswers[i] === question.correctAnswer` for a numeric correct answer. */
  predicate AnsweredCorrectly(questions: seq<Question>, answers: map<int, int>, i: nat)
    requires i < |questions|
  {
    i in answers && IsCorrectChoice(questions[i], answers[i])
  }

  /** The score from the answers given: at most one point per question. */
  function Score(questions: seq<Question>, answers: map<int, int>): (s: nat)
    ensures s <= |questions|
  {
    CorrectUpTo(questions, answers, |questions|)
  }

  /** Full marks exactly when every question was answered correctly. */
  lemma {:induction false} FullMarks(questions: seq<Question>, answers: map<int, int>, k: nat)
    requires k <= |questions|
    ensures CorrectUpTo(questions, answers, k) == k <==> forall i :: 0 <= i < k ==> AnsweredCorrectly(questions, answers, i)
  {
    if k > 0 {
      FullMarks(questions, answers, k - 1);
    }
  }

  /** No marks when no question was answered correctly. */
  lemma {:induction false} NoMarks(questions: seq<Question>, answers: map<int, int>, k: nat)
    requires k <= |questions|
    ensures CorrectUpTo(questions, answers, k) == 0 <==> forall i :: 0 <= i < k ==> !AnsweredCorrectly(questions, answers, i)
  {
    if k > 0 {
      NoMarks(questions, answers, k - 1);
    }
  }

  /** `Math.floor(s / 60)`, a colon, and `s % 60` padded to two digits. */
  function FormatTime(seconds: nat): string
  {
    NatToString(seconds / 60) + ":" + PadTwo(NatToString(seconds % 60))
  }

  /** `padStart(2, '0')`. */
  function PadTwo(s: string): (r: string)
    ensures |s| >= 2 ==> r == s
    ensures |s| < 2 ==> r == ['0'] + s
  {
    if |s| < 2 then ['0'] + s else s
  }

  /** Every character but the one at `c` is a digit. */
  predicate DigitsBut(t: string, c: int)
  {
    forall i :: 0 <= i < |t| && i != c ==> IsDigit(t[i])
  }

  /** Reads a displayed time back: minutes, a colon, two digits of seconds. */
  function ReadTime(t: string): Option<nat>
  {
    var c := IndexOf(t, ':');
    if c < 0 || c + 3 != |t| then None
    else if !DigitsBut(t, c) then None
    else
      var secs := DigitsValue(t[c + 1..]);
      if secs >= 60 then None else Some(DigitsValue(t[..c]) * 60 + secs)
  }

  /** The displayed time reads back as the number of seconds shown. */
  lemma FormatTimeReads(seconds: nat)
    ensures ReadTime(FormatTime(seconds)) == Some(seconds)
  {
    SecondsField(seconds % 60);
    NatToStringValue(seconds / 60);
    ReadFields(NatToString(seconds / 60), PadTwo(NatToString(seconds % 60)));
  }

  lemma ReadFields(m: string, r: string)
    requires forall i :: 0 <= i < |m| ==> IsDigit(m[i])
    requires |r| == 2 && IsDigit(r[0]) && IsDigit(r[1]) && DigitsValue(r) < 60
    ensures ReadTime(m + ":" + r) == Some(DigitsValue(m) * 60 + DigitsValue(r))
  {
    var t := m + ":" + r;
    TimeShape(m, r);
    ReadTimeAt(t, |m|, m, r);
  }

  lemma ReadTimeAt(t: string, c: nat, m: string, r: string)
    requires IndexOf(t, ':') == c && c + 3 == |t| && DigitsBut(t, c)
    requires t[..c] == m && t[c + 1..] == r
    requires forall i :: 0 <= i < |m| ==> IsDigit(m[i])
    requires |r| == 2 && IsDigit(r[0]) && IsDigit(r[1]) && DigitsValue(r) < 60
    ensures ReadTime(t) == Some(DigitsValue(m) * 60 + DigitsValue(r))
  {
  }

  lemma TimeShape(m: string, r: string)
    requires forall i :: 0 <= i < |m| ==> IsDigit(m[i])
    requires |r| == 2 && IsDigit(r[0]) && IsDigit(r[1])
    ensures var t := m + ":" + r;
      && IndexOf(t, ':') == |m| && |m| + 3 == |t| && t[..|m|] == m && t[|m| + 1..] == r
      && DigitsBut(t, |m|)
  {
    var t := m + ":" + r;
    forall i | 0 <= i < |m| ensures t[i] != ':' {
      assert t[i] == m[i];
    }
    assert t[|m|] == ':';
    assert t[..|m|] == m && t[|m| + 1..] == r;
    forall i | 0 <= i < |t| && i != |m| ensures IsDigit(t[i]) {
      if i < |m| { assert t[i] == m[i]; } else { assert t[i] == r[i - |m| - 1]; }
    }
  }

  /** The seconds field has two digits and reads back as the seconds. */
  lemma SecondsField(s: nat)
    requires s < 60
    ensures var r := PadTwo(NatToString(s));
      |r| == 2 && IsDigit(r[0]) && IsDigit(r[1]) && DigitsValue(r) == s
  {
    var d := NatToString(s);
    NatToStringValue(s);
    if s < 10 {
      assert |d| == 1;
      var r := ['0'] + d;
      assert r[..1] == ['0'] && r[1] == d[0];
      assert d[..0] == [];
    } else {
      assert NatToString(s / 10) == [('0' as int + s / 10) as char];
    }
  }

  /** Seconds left on the countdown: `Math.max(0, limit·60 − elapsed)` when the
      quiz has a positive limit in minutes, else 0. */
  function TimeRemaining(timeLimit: Option<int>, elapsed: int): (r: int)
    ensures r >= 0
    ensures HasLimit(timeLimit) && elapsed <= timeLimit.value * 60 ==> r == timeLimit.value * 60 - elapsed
    ensures !HasLimit(timeLimit) || elapsed >= timeLimit.value * 60 ==> r == 0
  {
    if HasLimit(timeLimit) then (if timeLimit.value * 60 - elapsed > 0 then timeLimit.value * 60 - elapsed else 0) else 0
  }

  /** `quizData.timeLimit && quizData.timeLimit > 0`. */
  predicate HasLimit(timeLimit: Option<int>)
  {
    timeLimit.Some? && timeLimit.value > 0
  }

  /** `hasTimeLimit && timeRemaining <= 0`. */
  predicate IsTimeUp(timeLimit: Option<int>, elapsed: int)
  {
    HasLimit(timeLimit) && TimeRemaining(timeLimit, elapsed) <= 0
  }

  /** Time is up exactly when there is a limit and the elapsed seconds reach it. */
  lemma TimeUpWhenLimitReached(timeLimit: Option<int>, elapsed: int)
    ensures IsTimeUp(timeLimit, elapsed) <==> HasLimit(timeLimit) && elapsed >= timeLimit.value * 60
  {
  }

  datatype Grade = APlus | A | B | C | F

  /** The letter grade on `score / n` as a percentage: 90, 80, 70 and 60 are
      the thresholds. The comparison is exact here. */
  function GradeFor(score: nat, n: nat): (g: Grade)
    requires n >= 1
    ensures g == APlus <==> 100 * score >= 90 * n
    ensures g == F <==> 100 * score < 60 * n
  {
    if 100 * score >= 90 * n then APlus
    else if 100 * score >= 80 * n then A
    else if 100 * score >= 70 * n then B
    else if 100 * score >= 60 * n then C
    else F
  }

  function Rank(g: Grade): nat
  {
    match g
    case APlus => 4
    case A => 3
    case B => 2
    case C => 1
    case F => 0
  }

  /** A higher score never earns a lower grade. */
  lemma GradeMonotone(s1: nat, s2: nat, n: nat)
    requires n >= 1 && s1 <= s2
    ensures Rank(GradeFor(s1, n)) <= Rank(GradeFor(s2, n))
  {
  }

  /** The value of `quizResults?.score` that `calculateScore` uses. */
  function SavedScore(results: Option<QuizResults>): Option<int>
  {
    if results.Some? then results.value.score else None
  }

  /** The dependencies `hasTimeLimit` and `timeLimitSeconds` of the timer
      effect, as React compares them: `hasTimeLimit` is the falsy limit itself
      (`undefined`, `0`) or `false` for a negative one, and `true` with the
      limit in seconds for a positive one. */
  datatype LimitDeps = Undefined | ZeroLimit | NegativeLimit | LimitSeconds(seconds: int)

  function DepsOf(timeLimit: Option<int>): (d: LimitDeps)
    ensures d.LimitSeconds? <==> HasLimit(timeLimit)
  {
    if timeLimit.None? then Undefined
    else if timeLimit.value == 0 then ZeroLimit
    else if timeLimit.value < 0 then NegativeLimit
    else LimitSeconds(timeLimit.value * 60)
  }

  /** Equal dependencies mean the same countdown, so a timer that is not
      restarted counts to the limit of the quiz now shown; and two positive
      limits have equal dependencies exactly when they are equal. */
  lemma SameDepsSameCountdown(a: Option<int>, b: Option<int>)
    ensures DepsOf(a) == DepsOf(b) ==> (HasLimit(a) <==> HasLimit(b)) && (HasLimit(a) ==> a.value * 60 == b.value * 60)
    ensures HasLimit(a) && HasLimit(b) ==> (DepsOf(a) == DepsOf(b) <==> a == b)
  {
  }

  /** What the handlers of one render close over: the quiz and the results
      passed to it, and that render's answers and elapsed time. */
  datatype Closure = Closure(title: Json, questions: seq<Question>, savedScore: Option<int>, answers: map<int, int>, elapsed: int)

  /** The running quiz. The quiz and the results passed to it change when
      another quiz is selected while the runner stays on screen (`Rerender`). */
  class QuizSession {
    var title: Json
    var questions: seq<Question>
    var timeLimit: Option<int>
    var savedScore: Option<int>
    var currentQuestion: int
    var selectedAnswers: map<int, int>
    var showResults: bool
    var timeElapsed: int
    var showExplanation: bool
    var isReviewMode: bool
    /** The closure of the render whose effect started the running timer: the
        interval's auto-submit is that render's `handleSubmit`, so it reports
        these answers and this time, scored against this quiz, to this quiz's
        completion handler. The effect starts a timer when the runner mounts
        outside the results view, whenever the results view closes, and when
        the limit's dependencies change outside it. */
    var timer: Closure

    predicate Valid()
      reads this
    {
      |questions| >= 1
    }

    /** Every stored answer belongs to a question of the quiz. */
    predicate AnswersInRange()
      reads this
    {
      forall k :: k in selectedAnswers ==> 0 <= k < |questions|
    }

    /** The closure of the current render. */
    function Render(): Closure
      reads this
    {
      Closure(title, questions, savedScore, selectedAnswers, timeElapsed)
    }

    /** The state before the first effect runs: answers, elapsed time and the
        results view come from the results the quiz was opened with, if any. */
    constructor (quiz: Quiz, results: Option<QuizResults>)
      requires IsRunnable(quiz)
      ensures Valid()
      ensures title == quiz.title && questions == quiz.questions && timeLimit == quiz.timeLimit
      ensures savedScore == SavedScore(results)
      ensures currentQuestion == 0 && !showExplanation && !isReviewMode
      ensures showResults == results.Some?
      ensures selectedAnswers == (if results.Some? then results.value.answers else map[])
      ensures timeElapsed == (if results.Some? && results.value.timeElapsed != 0 then results.value.timeElapsed else 0)
      ensures timer == Closure(quiz.title, quiz.questions, SavedScore(results), selectedAnswers, timeElapsed)
    {
      title := quiz.title;
      questions := quiz.questions;
      timeLimit := quiz.timeLimit;
      savedScore := SavedScore(results);
      currentQuestion := 0;
      selectedAnswers := if results.Some? then results.value.answers else map[];
      showResults := results.Some?;
      timeElapsed := if results.Some? && results.value.timeElapsed != 0 then results.value.timeElapsed else 0;
      showExplanation := false;
      isReviewMode := false;
      timer := Closure(quiz.title, quiz.questions, SavedScore(results), selectedAnswers, timeElapsed);
    }

    /** The reset effect, which runs right after mounting and whenever the
        quiz's title changes, followed by the next render's timer effect:
        everything is reset, then the saved answers and the results view come
        back when there are results; a timer seeing the reset state starts
        exactly when the results view closes. */
    method Reopen(results: Option<QuizResults>)
      requires Valid()
      modifies this`currentQuestion, this`selectedAnswers, this`showResults, this`timeElapsed
      modifies this`showExplanation, this`isReviewMode, this`timer
      ensures Valid()
      ensures currentQuestion == 0 && timeElapsed == 0 && !showExplanation && !isReviewMode
      ensures showResults == results.Some?
      ensures selectedAnswers == (if results.Some? then results.value.answers else map[])
      ensures old(showResults) && !showResults ==> timer == Render()
      ensures !(old(showResults) && !showResults) ==> timer == old(timer)
    {
      var wasShowing := showResults;
      currentQuestion := 0;
      selectedAnswers := map[];
      showResults := false;
      timeElapsed := 0;
      showExplanation := false;
      isReviewMode := false;
      if results.Some? {
        selectedAnswers := results.value.answers;
        showResults := true;
      }
      if wasShowing && !showResults {
        timer := Render();
      }
    }

    /** Another quiz and its results passed to the mounted runner (the App
        renders it without a `key`, so selecting another quiz in the sidebar
        keeps it mounted). The render with the new props runs its effects: the
        timer effect restarts, seeing the new quiz and the old answers and
        time, when the limit's dependencies changed outside the results view;
        the reset effect runs when the title changed. Then the reset render's
        timer effect starts a timer when the results view closed. Without a
        reset, the answers, the time and the view stay, and so does a running
        timer whose dependencies are unchanged, with the old quiz in its
        closure. */
    method Rerender(quiz: Quiz, results: Option<QuizResults>)
      requires Valid() && IsRunnable(quiz)
      modifies this
      ensures Valid()
      ensures title == quiz.title && questions == quiz.questions && timeLimit == quiz.timeLimit
      ensures savedScore == SavedScore(results)
      ensures quiz.title == old(title) ==>
        currentQuestion == old(currentQuestion) && selectedAnswers == old(selectedAnswers)
        && showResults == old(showResults) && timeElapsed == old(timeElapsed)
        && showExplanation == old(showExplanation) && isReviewMode == old(isReviewMode)
      ensures quiz.title != old(title) ==>
        currentQuestion == 0 && timeElapsed == 0 && !showExplanation && !isReviewMode
        && showResults == results.Some?
        && selectedAnswers == (if results.Some? then results.value.answers else map[])
      ensures old(showResults) && !showResults ==> timer == Render()
      ensures !old(showResults) && DepsOf(quiz.timeLimit) != DepsOf(old(timeLimit)) ==>
        timer == Closure(quiz.title, quiz.questions, SavedScore(results), old(selectedAnswers), old(timeElapsed))
      ensures !(old(showResults) && !showResults) && !(!old(showResults) && DepsOf(quiz.timeLimit) != DepsOf(old(timeLimit))) ==>
        timer == old(timer)
    {
      var titleChanged := quiz.title != title;
      var depsChanged := DepsOf(quiz.timeLimit) != DepsOf(timeLimit);
      title := quiz.title;
      questions := quiz.questions;
      timeLimit := quiz.timeLimit;
      savedScore := SavedScore(results);
      if depsChanged && !showResults {
        timer := Render();
      }
      if titleChanged {
        Reopen(results);
      }
    }

    /** The index of the question on screen. */
    function Displayed(): (i: int)
      reads this
      requires Valid()
      ensures 0 <= i < |questions|
      ensures 0 <= currentQuestion < |questions| ==> i == currentQuestion
    {
      Clamp(currentQuestion, |questions|)
    }

    /** `handleAnswerSelect`: ignored in the results or review view, for a
        question index outside the quiz and for an option index outside the
        options of the question on screen; otherwise the one answer is set. */
    method AnswerSelect(questionIndex: int, answerIndex: int)
      requires Valid()
      modifies this`selectedAnswers
      ensures var accepted := !showResults && !isReviewMode
          && 0 <= questionIndex < |questions|
          && 0 <= answerIndex < DisplayedOptionCount(questions[Displayed()]);
        selectedAnswers == if accepted then old(selectedAnswers)[questionIndex := answerIndex] else old(selectedAnswers)
      ensures old(AnswersInRange()) ==> AnswersInRange()
    {
      if showResults || isReviewMode {
        return;
      }
      if questionIndex < 0 || questionIndex >= |questions| {
        return;
      }
      if answerIndex < 0 || answerIndex >= DisplayedOptionCount(questions[Displayed()]) {
        return;
      }
      selectedAnswers := selectedAnswers[questionIndex := answerIndex];
    }

    /** `handleNext`, once its animation delay has passed. */
    method Next()
      requires Valid()
      modifies this`currentQuestion, this`showExplanation
      ensures old(currentQuestion) < |questions| - 1 ==> currentQuestion == Clamp(old(currentQuestion) + 1, |questions|) && !showExplanation
      ensures old(currentQuestion) >= |questions| - 1 ==> currentQuestion == old(currentQuestion) && showExplanation == old(showExplanation)
      ensures 0 <= old(currentQuestion) < |questions| ==> 0 <= currentQuestion < |questions|
    {
      if currentQuestion < |questions| - 1 {
        currentQuestion := Clamp(currentQuestion + 1, |questions|);
        showExplanation := false;
      }
    }

    /** `handlePrevious`, once its animation delay has passed. */
    method Previous()
      requires Valid()
      modifies this`currentQuestion, this`showExplanation
      ensures old(currentQuestion) > 0 ==> currentQuestion == (if old(currentQuestion) - 1 > 0 then old(currentQuestion) - 1 else 0) && !showExplanation
      ensures old(currentQuestion) <= 0 ==> currentQuestion == old(currentQuestion) && showExplanation == old(showExplanation)
      ensures 0 <= old(currentQuestion) < |questions| ==> 0 <= currentQuestion < |questions|
    {
      if currentQuestion > 0 {
        currentQuestion := if currentQuestion - 1 > 0 then currentQuestion - 1 else 0;
        showExplanation := false;
      }
    }

    /** `calculateScore` of the render whose closure is `render`: the saved
        score when that render's results carry a numeric one, else one point
        per question of that render's quiz answered correctly. */
    method CalculateScore(render: Closure) returns (score: int)
      ensures render.savedScore.Some? ==> score == render.savedScore.value
      ensures render.savedScore.None? ==> score == Score(render.questions, render.answers)
    {
      if render.savedScore.Some? {
        return render.savedScore.value;
      }
      var correct := 0;
      var i := 0;
      while i < |render.questions|
        invariant 0 <= i <= |render.questions|
        invariant correct == CorrectUpTo(render.questions, render.answers, i)
      {
        if i in render.answers && IsCorrectChoice(render.questions[i], render.answers[i]) {
          correct := correct + 1;
        }
        i := i + 1;
      }
      return correct;
    }

    /** `handleSubmit` of the render whose closure is `render`: the results
        view opens, and that render's results go to that render's `onComplete`,
        which completes the quiz with that render's title. */
    method HandleSubmit(render: Closure) returns (reported: QuizResults, completedTitle: Json)
      modifies this`showResults
      ensures showResults
      ensures reported.totalQuestions == |render.questions| && reported.timeElapsed == render.elapsed
      ensures reported.answers == render.answers && completedTitle == render.title
      ensures render.savedScore.None? ==> reported.score == Some(Score(render.questions, render.answers))
      ensures render.savedScore.Some? ==> reported.score == render.savedScore
    {
      showResults := true;
      var score := CalculateScore(render);
      reported := QuizResults(Some(score), |render.questions|, render.elapsed, render.answers);
      completedTitle := render.title;
    }

    /** The "Submit Quiz" button: the current render's `handleSubmit` reports
        the answers and the time on screen for the quiz on screen. */
    method Submit() returns (reported: QuizResults, completedTitle: Json)
      requires Valid()
      modifies this`showResults
      ensures showResults
      ensures reported.totalQuestions == |questions| && reported.timeElapsed == timeElapsed
      ensures reported.answers == selectedAnswers && completedTitle == title
      ensures savedScore.None? ==> reported.score == Some(Score(questions, selectedAnswers))
      ensures savedScore.Some? ==> reported.score == savedScore
    {
      reported, completedTitle := HandleSubmit(Render());
    }

    /** The submit that the tick reaching the limit schedules: the `handleSubmit`
        captured when the timer started, which reports the answers, the time and
        the score of that moment, for the quiz shown then, not those on screen. */
    method AutoSubmit() returns (reported: QuizResults, completedTitle: Json)
      modifies this`showResults
      ensures showResults
      ensures reported.totalQuestions == |timer.questions| && reported.timeElapsed == timer.elapsed
      ensures reported.answers == timer.answers && completedTitle == timer.title
      ensures timer.savedScore.None? ==> reported.score == Some(Score(timer.questions, timer.answers))
      ensures timer.savedScore.Some? ==> reported.score == timer.savedScore
    {
      reported, completedTitle := HandleSubmit(timer);
    }

    /** One second of the timer, which runs only outside the results view.
        The tick that reaches the limit asks for the quiz to be submitted. The
        interval reads the limit of the render that started it, whose
        dependencies equal the current ones (`SameDepsSameCountdown`). */
    method Tick() returns (submitDue: bool)
      requires Valid()
      modifies this`timeElapsed
      ensures old(showResults) ==> timeElapsed == old(timeElapsed) && !submitDue
      ensures !old(showResults) ==> timeElapsed == old(timeElapsed) + 1
      ensures submitDue <==> !showResults && HasLimit(timeLimit) && timeElapsed >= timeLimit.value * 60
    {
      submitDue := false;
      if !showResults {
        timeElapsed := timeElapsed + 1;
        submitDue := HasLimit(timeLimit) && timeElapsed >= timeLimit.value * 60;
      }
    }

    /** `handleRestart`; leaving the results view starts a timer that sees
        the fresh state. */
    method Restart()
      requires Valid()
      modifies this`currentQuestion, this`selectedAnswers, this`showResults, this`timeElapsed
      modifies this`showExplanation, this`isReviewMode, this`timer
      ensures AnswersInRange()
      ensures currentQuestion == 0 && selectedAnswers == map[] && !showResults && timeElapsed == 0
      ensures !showExplanation && !isReviewMode
      ensures old(showResults) ==> timer == Closure(title, questions, savedScore, map[], 0)
      ensures !old(showResults) ==> timer == old(timer)
    {
      var wasShowing := showResults;
      currentQuestion := 0;
      selectedAnswers := map[];
      showResults := false;
      timeElapsed := 0;
      showExplanation := false;
      isReviewMode := false;
      if wasShowing {
        timer := Render();
      }
    }

    /** The "Review Answers" button of the results view; leaving the results
        view starts a timer that sees the answers kept. */
    method Review()
      requires Valid()
      modifies this`showResults, this`currentQuestion, this`showExplanation, this`isReviewMode, this`timer
      ensures !showResults && currentQuestion == 0 && showExplanation && isReviewMode
      ensures old(showResults) ==> timer == Render()
      ensures !old(showResults) ==> timer == old(timer)
    {
      var wasShowing := showResults;
      showResults := false;
      currentQuestion := 0;
      showExplanation := true;
      isReviewMode := true;
      if wasShowing {
        timer := Render();
      }
    }

    /** The "Back to Results" button on the last question of the review. */
    method BackToResults()
      requires Valid()
      modifies this`isReviewMode, this`showResults, this`showExplanation
      ensures showResults && !isReviewMode && !showExplanation
    {
      isReviewMode := false;
      showResults := true;
      showExplanation := false;
    }

    /** "Submit Quiz" is enabled when as many questions are answered as the
        quiz has. */
    predicate SubmitEnabled()
      reads this
    {
      |selectedAnswers.Keys| == |questions|
    }

    /** "Next" is enabled when the question on screen is answered. */
    predicate NextEnabled()
      reads this
      requires Valid()
    {
      Displayed() in selectedAnswers
    }
  }

  /** A fresh run whose first question is answered correctly and whose timer
      then reaches the limit: the screen keeps that answer and scores it, while
      the auto-submit reports no answer, no time and no point. */
  method TimedOutRun(quiz: Quiz, answer: int) returns (reported: QuizResults, shown: map<int, int>)
    requires IsRunnable(quiz) && HasLimit(quiz.timeLimit)
    requires 0 <= answer < DisplayedOptionCount(quiz.questions[0]) && IsCorrectChoice(quiz.questions[0], answer)
    ensures shown == map[0 := answer] && Score(quiz.questions, shown) >= 1
    ensures reported.answers == map[] && reported.timeElapsed == 0 && reported.score == Some(0)
  {
    var s := new QuizSession(quiz, None);
    s.AnswerSelect(0, answer);
    var limit := quiz.timeLimit.value * 60;
    var due := false;
    while !due
      invariant s.Valid() && !s.showResults && s.questions == quiz.questions && s.timeLimit == quiz.timeLimit
      invariant s.selectedAnswers == map[0 := answer] && s.timer == Closure(quiz.title, quiz.questions, None, map[], 0)
      invariant 0 <= s.timeElapsed <= limit && (due <==> s.timeElapsed >= limit)
      decreases limit - s.timeElapsed
    {
      due := s.Tick();
    }
    shown := s.selectedAnswers;
    var completedTitle;
    reported, completedTitle := s.AutoSubmit();
    NoMarks(quiz.questions, map[], |quiz.questions|);
    NoMarks(quiz.questions, shown, |quiz.questions|);
    assert AnsweredCorrectly(quiz.questions, shown, 0);
  }

  /** Selecting quiz `b`, which has results, while quiz `a` runs without any:
      the results view opens with `b`'s saved answers and shows the score
      stored in them. */
  method SwitchToCompleted(a: Quiz, b: Quiz, r: QuizResults) returns (shownScore: int)
    requires IsRunnable(a) && IsRunnable(b) && a.title != b.title
    requires r.score.Some?
    ensures shownScore == r.score.value
  {
    var s := new QuizSession(a, None);
    s.Rerender(b, Some(r));
    assert s.showResults && s.selectedAnswers == r.answers && s.savedScore == r.score;
    shownScore := s.CalculateScore(s.Render());
  }

  /** Quiz `b`, with the same limit as `a` and no results, selected while
      `a` runs: the state is reset but the timer keeps running, so when it
      reaches the limit it reports for `a`, with `a`'s question count and no
      answer, although `b`'s first question was answered. */
  method SwitchedThenTimedOut(a: Quiz, b: Quiz, answer: int) returns (reported: QuizResults, completedTitle: Json)
    requires IsRunnable(a) && IsRunnable(b) && a.title != b.title
    requires HasLimit(a.timeLimit) && b.timeLimit == a.timeLimit
    requires 0 <= answer < DisplayedOptionCount(b.questions[0])
    ensures completedTitle == a.title && reported.totalQuestions == |a.questions|
    ensures reported.answers == map[] && reported.score == Some(0)
  {
    var s := new QuizSession(a, None);
    s.Rerender(b, None);
    assert s.questions == b.questions && !s.showResults && !s.isReviewMode && s.currentQuestion == 0;
    s.AnswerSelect(0, answer);
    var limit := b.timeLimit.value * 60;
    var due := false;
    while !due
      invariant s.Valid() && !s.showResults && s.timeLimit == b.timeLimit
      invariant s.timer == Closure(a.title, a.questions, None, map[], 0)
      invariant 0 <= s.timeElapsed <= limit && (due <==> s.timeElapsed >= limit)
      decreases limit - s.timeElapsed
    {
      due := s.Tick();
    }
    reported, completedTitle := s.AutoSubmit();
    NoMarks(a.questions, map[], |a.questions|);
  }

  /** With every answer on a question of the quiz, submitting is enabled
      exactly when every question is answered. */
  lemma SubmitNeedsEveryAnswer(s: QuizSession)
    requires s.AnswersInRange()
    ensures s.SubmitEnabled() <==> forall i :: 0 <= i < |s.questions| ==> i in s.selectedAnswers
  {
    var keys := s.selectedAnswers.Keys;
    var all := Indices(|s.questions|);
    assert keys <= all;
    if forall i :: 0 <= i < |s.questions| ==> i in s.selectedAnswers {
      assert keys == all;
    } else {
      var j :| 0 <= j < |s.questions| && j !in s.selectedAnswers;
      assert j in all - keys;
      SubsetSize(keys, all);
    }
  }

  lemma SubsetSize(a: set<int>, b: set<int>)
    requires a <= b
    ensures |a| <= |b|
    ensures a != b ==> |a| < |b|
  {
    assert b == a + (b - a);
    assert a * (b - a) == {};
    if a != b {
      assert b - a != {};
    }
  }

  /** The question indices `0 .. n - 1`. */
  function Indices(n: nat): (r: set<int>)
    ensures forall i :: i in r <==> 0 <= i < n
    ensures |r| == n
  {
    if n == 0 then {} else Indices(n - 1) + {n - 1}
  }
}
