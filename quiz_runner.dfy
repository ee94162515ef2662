// The quiz runner of src/components/quiz-section.tsx: the component's state
// variables and the handlers that step them. React's state setters become
// field assignments, the one-second interval becomes a Tick call, Date.now()
// becomes a `now` argument, and the outcome of the remote save becomes the
// `saveSucceeds` argument.

module QuizRunner {
  import opened Wrappers
  import opened QuizSection

  /** The arguments `handleFinishQuiz` passes to the result submitter. */
  datatype Submission = Submission(
    courseId: string,
    quizId: string,
    answers: map<string, int>,
    score: int,
    passed: bool,
    timeSpent: int,
    totalQuestions: nat)

  /** The toast a finish ends with; none when nothing was sent. */
  datatype Notice = NoNotice | SavedNotice | SaveFailedNotice

  /** The three views the component renders. */
  datatype Screen = IntroScreen | QuestionScreen | ResultsScreen

  /** JavaScript truthiness of `quizStartTime` (null and 0 are falsy). */
  predicate StartRecorded(t: Option<int>)
  {
    t.Some? && t.value != 0
  }

  class QuizAttempt {
    const courseId: string
    const quiz: Quiz
    var currentQuestionIndex: int
    var selectedAnswers: map<string, int>
    var showResults: bool
    var timeRemaining: int
    var quizStarted: bool
    var isTimerActive: bool
    var quizStartTime: Option<int>
    var isSubmitting: bool

    /** The cursor always names a question, the countdown is never negative,
        and the timer runs only between the start and the results. */
    ghost predicate Valid()
      reads this
    {
      && WellFormedQuiz(quiz)
      && 0 <= currentQuestionIndex < |quiz.questions|
      && timeRemaining >= 0
      && (isTimerActive ==> quizStarted && !showResults)
    }

    /** The component mounted for a course whose quiz the catalog has, in its
        initial `useState` values. */
    constructor (courseId: string)
      requires QuizFor(Some(courseId)).Some?
      ensures Valid()
      ensures this.courseId == courseId && quiz == QuizFor(Some(courseId)).value
      ensures currentQuestionIndex == 0 && selectedAnswers == map[] && !showResults
      ensures timeRemaining == 0 && !quizStarted && !isTimerActive
      ensures quizStartTime == None && !isSubmitting
    {
      this.courseId := courseId;
      quiz := QuizFor(Some(courseId)).value;
      currentQuestionIndex := 0;
      selectedAnswers := map[];
      showResults := false;
      timeRemaining := 0;
      quizStarted := false;
      isTimerActive := false;
      quizStartTime := None;
      isSubmitting := false;
    }

    /** Which view is shown: the introduction until started, then the
        questions until results are shown. The countdown only ever runs while
        the questions are on screen. */
    function Screen(): (s: Screen)
      reads this
      requires Valid()
      ensures isTimerActive ==> s == QuestionScreen
    {
      if !quizStarted then IntroScreen else if showResults then ResultsScreen else QuestionScreen
    }

    /** The question the cursor is on. */
    function CurrentQuestion(): (q: Question)
      reads this
      requires Valid()
      ensures q in quiz.questions
    {
      quiz.questions[currentQuestionIndex]
    }

    /** The Next and Finish buttons are enabled only once the current question
        has an answer. */
    predicate CanAdvance()
      reads this
      requires Valid()
    {
      CurrentQuestion().id in selectedAnswers
    }

    /** What a finish would submit now: nothing without a signed-in user or a
        recorded start time, otherwise the score of the current answers and the
        whole seconds elapsed since the start, rounded down. */
    function PendingSubmission(signedIn: bool, now: int): (s: Option<Submission>)
      reads this
      requires Valid()
      ensures s.Some? <==> signedIn && StartRecorded(quizStartTime)
      ensures s.Some? ==>
        && s.value.courseId == courseId && s.value.quizId == quiz.id
        && s.value.score == CalculateResults(quiz, selectedAnswers).score
        && s.value.passed == CalculateResults(quiz, selectedAnswers).passed
        && s.value.answers == selectedAnswers
        && s.value.totalQuestions == |quiz.questions|
        && 0 <= s.value.score <= 100
        && (s.value.passed <==> s.value.score >= quiz.passingScore)
        && 1000 * s.value.timeSpent <= now - quizStartTime.value < 1000 * s.value.timeSpent + 1000
    {
      if !signedIn || !StartRecorded(quizStartTime) then None
      else
        var r := CalculateResults(quiz, selectedAnswers);
        Some(Submission(courseId, quiz.id, selectedAnswers, r.score, r.passed,
                        (now - quizStartTime.value) / 1000, |quiz.questions|))
    }

    /** `handleStartQuiz`, followed by the effect that loads the countdown with
        the quiz's time limit once the quiz is started and the timer active. */
    method Start(now: int)
      requires Valid()
      modifies this
      ensures Valid()
      ensures quizStarted && isTimerActive && !showResults
      ensures currentQuestionIndex == 0 && selectedAnswers == map[]
      ensures quizStartTime == Some(now)
      ensures timeRemaining == quiz.timeLimit * 60
      ensures isSubmitting == old(isSubmitting)
      ensures Screen() == QuestionScreen && !CanAdvance()
    {
      quizStarted := true;
      isTimerActive := true;
      currentQuestionIndex := 0;
      selectedAnswers := map[];
      showResults := false;
      quizStartTime := Some(now);
      timeRemaining := quiz.timeLimit * 60;
    }

    /** `handleAnswerSelect`: record the choice for the current question,
        replacing an earlier one; no other question's entry changes. The handler
        does not check the index against the question's options. */
    method SelectAnswer(answerIndex: int)
      requires Valid()
      modifies this`selectedAnswers
      ensures Valid()
      ensures selectedAnswers == old(selectedAnswers)[CurrentQuestion().id := answerIndex]
      ensures CurrentQuestion().id in selectedAnswers && selectedAnswers[CurrentQuestion().id] == answerIndex
      ensures CanAdvance()
      ensures forall k :: k != CurrentQuestion().id ==>
        (k in selectedAnswers <==> k in old(selectedAnswers)) &&
        (k in selectedAnswers ==> selectedAnswers[k] == old(selectedAnswers)[k])
    {
      // The handler returns early when there is no current question; Valid()
      // keeps the cursor on a question, so that never happens here.
      selectedAnswers := selectedAnswers[quiz.questions[currentQuestionIndex].id := answerIndex];
    }

    /** `handlePrevQuestion`: step back unless on the first question. */
    method Prev()
      requires Valid()
      modifies this`currentQuestionIndex
      ensures Valid()
      ensures currentQuestionIndex == if old(currentQuestionIndex) > 0 then old(currentQuestionIndex) - 1 else 0
    {
      if currentQuestionIndex > 0 {
        currentQuestionIndex := currentQuestionIndex - 1;
      }
    }

    /** `handleFinishQuiz`. Without a user or a start time it only stops the
        timer and shows the results. Otherwise it submits the score; whether the
        save succeeds or fails, it ends with the results shown, the timer stopped
        and nothing left submitting. */
    method Finish(signedIn: bool, now: int, saveSucceeds: bool) returns (sent: Option<Submission>, notice: Notice)
      requires Valid()
      modifies this`isTimerActive, this`showResults, this`isSubmitting
      ensures Valid()
      ensures showResults && !isTimerActive
      ensures sent == old(PendingSubmission(signedIn, now))
      ensures sent.None? ==> notice == NoNotice && isSubmitting == old(isSubmitting)
      ensures sent.Some? ==> !isSubmitting && notice == (if saveSucceeds then SavedNotice else SaveFailedNotice)
      ensures quizStarted ==> Screen() == ResultsScreen
    {
      sent := PendingSubmission(signedIn, now);
      isTimerActive := false;
      if sent.None? {
        showResults := true;
        return sent, NoNotice;
      }
      isSubmitting := true;
      notice := if saveSucceeds then SavedNotice else SaveFailedNotice;
      isSubmitting := false;
      showResults := true;
    }

    /** `handleNextQuestion`: step forward while before the last question;
        on the last question, finish instead. */
    method Next(signedIn: bool, now: int, saveSucceeds: bool) returns (sent: Option<Submission>, notice: Notice)
      requires Valid()
      modifies this`currentQuestionIndex, this`isTimerActive, this`showResults, this`isSubmitting
      ensures Valid()
      ensures old(currentQuestionIndex) < |quiz.questions| - 1 ==>
        && currentQuestionIndex == old(currentQuestionIndex) + 1
        && sent == None && notice == NoNotice
        && unchanged(this`isTimerActive, this`showResults, this`isSubmitting)
      ensures old(currentQuestionIndex) == |quiz.questions| - 1 ==>
        && currentQuestionIndex == old(currentQuestionIndex)
        && showResults && !isTimerActive
        && sent == old(PendingSubmission(signedIn, now))
        && (sent.None? ==> notice == NoNotice && isSubmitting == old(isSubmitting))
        && (sent.Some? ==> !isSubmitting && notice == (if saveSucceeds then SavedNotice else SaveFailedNotice))
    {
      if currentQuestionIndex < |quiz.questions| - 1 {
        currentQuestionIndex := currentQuestionIndex + 1;
        sent, notice := None, NoNotice;
      } else {
        sent, notice := Finish(signedIn, now, saveSucceeds);
      }
    }

    /** `restartQuiz`: back to the introduction with no answers and no timer.
        The countdown value itself is left as it was. */
    method Restart()
      requires Valid()
      modifies this`currentQuestionIndex, this`selectedAnswers, this`showResults,
               this`quizStarted, this`isTimerActive, this`quizStartTime
      ensures Valid()
      ensures currentQuestionIndex == 0 && selectedAnswers == map[] && !showResults
      ensures !quizStarted && !isTimerActive && quizStartTime == None
      ensures Screen() == IntroScreen && !CanAdvance()
    {
      currentQuestionIndex := 0;
      selectedAnswers := map[];
      showResults := false;
      quizStarted := false;
      isTimerActive := false;
      quizStartTime := None;
    }

    /** One second of the countdown. The interval exists only while the timer is
        active with time left; then a tick with at most one second left stops the
        timer, finishes the quiz and sets the countdown to 0, and any other tick
        takes exactly one second off. */
    method Tick(signedIn: bool, now: int, saveSucceeds: bool) returns (sent: Option<Submission>, notice: Notice)
      requires Valid()
      modifies this`timeRemaining, this`isTimerActive, this`showResults, this`isSubmitting
      ensures Valid()
      ensures !old(isTimerActive && timeRemaining > 0) ==>
        unchanged(this) && sent == None && notice == NoNotice
      ensures old(isTimerActive && timeRemaining > 0) && old(timeRemaining) <= 1 ==>
        && timeRemaining == 0 && !isTimerActive && showResults
        && sent == old(PendingSubmission(signedIn, now))
        && (sent.None? ==> notice == NoNotice && isSubmitting == old(isSubmitting))
        && (sent.Some? ==> !isSubmitting && notice == (if saveSucceeds then SavedNotice else SaveFailedNotice))
      ensures old(isTimerActive && timeRemaining > 1) ==>
        && timeRemaining == old(timeRemaining) - 1
        && sent == None && notice == NoNotice
        && unchanged(this`isTimerActive, this`showResults, this`isSubmitting)
    {
      if !(isTimerActive && timeRemaining > 0) {
        return None, NoNotice;
      }
      if timeRemaining <= 1 {
        isTimerActive := false;
        sent, notice := Finish(signedIn, now, saveSucceeds);
        timeRemaining := 0;
      } else {
        timeRemaining := timeRemaining - 1;
        sent, notice := None, NoNotice;
      }
    }
  }
}
