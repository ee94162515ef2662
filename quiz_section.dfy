// The quiz data of src/components/quiz-section.tsx and its pure parts:
// the catalog of quizzes, the scorer `calculateResults` and `formatTime`.

module QuizSection {
  import opened Wrappers
  import opened Text
  import opened JsMath

  datatype Question = Question(
    id: string,
    prompt: string,
    options: seq<string>,
    correctAnswer: int,
    explanation: string,
    category: string)

  /** A quiz; `timeLimit` is in minutes and `passingScore` a percentage. */
  datatype Quiz = Quiz(
    id: string,
    title: string,
    description: string,
    questions: seq<Question>,
    timeLimit: nat,
    passingScore: int)

  /** What `calculateResults` returns. */
  datatype QuizResults = QuizResults(score: int, passed: bool, correctAnswers: nat)

  /** The invariants the catalog's quizzes keep: at least one question, every
      question with two or more options and a correct index among them, question
      ids distinct within the quiz, and a passing score that is a percentage. */
  predicate WellFormedQuiz(q: Quiz)
  {
    && |q.questions| > 0
    && 0 <= q.passingScore <= 100
    && (forall i :: 0 <= i < |q.questions| ==>
          |q.questions[i].options| >= 2 && 0 <= q.questions[i].correctAnswer < |q.questions[i].options|)
    && (forall i, j :: 0 <= i < j < |q.questions| ==> q.questions[i].id != q.questions[j].id)
  }

  // ---------------------------------------------------------------------------
  // Scoring

  /** The stored answer for the question equals its correct index; an
      unanswered question (no entry in the map) never matches. */
  predicate AnsweredCorrectly(q: Question, answers: map<string, int>)
  {
    q.id in answers && answers[q.id] == q.correctAnswer
  }

  /** The `reduce` over the questions that counts exact matches. */
  function CountCorrect(questions: seq<Question>, answers: map<string, int>): (c: nat)
    ensures c <= |questions|
  {
    if questions == [] then 0
    else
      CountCorrect(questions[..|questions| - 1], answers)
      + (if AnsweredCorrectly(questions[|questions| - 1], answers) then 1 else 0)
  }

  /** The count is zero exactly when no question is answered correctly. */
  lemma {:induction false} CountCorrectZero(questions: seq<Question>, answers: map<string, int>)
    ensures CountCorrect(questions, answers) == 0
        <==> forall i :: 0 <= i < |questions| ==> !AnsweredCorrectly(questions[i], answers)
  {
    if questions != [] {
      var init := questions[..|questions| - 1];
      CountCorrectZero(init, answers);
      assert forall i :: 0 <= i < |init| ==> init[i] == questions[i];
    }
  }

  /** The count is the number of questions exactly when every one is answered correctly. */
  lemma {:induction false} CountCorrectAll(questions: seq<Question>, answers: map<string, int>)
    ensures CountCorrect(questions, answers) == |questions|
        <==> forall i :: 0 <= i < |questions| ==> AnsweredCorrectly(questions[i], answers)
  {
    if questions != [] {
      var init := questions[..|questions| - 1];
      CountCorrectAll(init, answers);
      assert forall i :: 0 <= i < |init| ==> init[i] == questions[i];
    }
  }

  /** Answers correct wherever `a` is correct never count fewer than `a`. */
  lemma {:induction false} CountCorrectMonotone(questions: seq<Question>, a: map<string, int>, b: map<string, int>)
    requires forall i :: 0 <= i < |questions| && AnsweredCorrectly(questions[i], a) ==> AnsweredCorrectly(questions[i], b)
    ensures CountCorrect(questions, a) <= CountCorrect(questions, b)
  {
    if questions != [] {
      var init := questions[..|questions| - 1];
      assert forall i :: 0 <= i < |init| ==> init[i] == questions[i];
      CountCorrectMonotone(init, a, b);
    }
  }

  /** `Math.round(correct / total * 100)`, on exact rationals. */
  function Score(correct: nat, total: nat): (s: int)
    requires 0 < total && correct <= total
    ensures 0 <= s <= 100
    ensures 2 * (total * s) - total <= 200 * correct < 2 * (total * s) + total
  {
    RoundQuotientBounds(100 * correct, total, 0, 100);
    RoundQuotient(100 * correct, total)
  }

  /** More correct answers never give a lower score. */
  lemma ScoreMonotone(c1: nat, c2: nat, total: nat)
    requires 0 < total && c1 <= c2 <= total
    ensures Score(c1, total) <= Score(c2, total)
  {
    RoundQuotientMonotone(100 * c1, 100 * c2, total);
  }

  /** All answers right scores 100; none right scores 0. */
  lemma ScoreExtremes(total: nat)
    requires 0 < total
    ensures Score(total, total) == 100 && Score(0, total) == 0
  {
    RoundQuotientExact(100, total);
    RoundQuotientExact(0, total);
  }

  /** `calculateResults` for a quiz that was found. */
  function CalculateResults(quiz: Quiz, answers: map<string, int>): (r: QuizResults)
    requires |quiz.questions| > 0
    ensures r.correctAnswers == CountCorrect(quiz.questions, answers)
    ensures r.correctAnswers <= |quiz.questions|
    ensures 0 <= r.score <= 100
    ensures 2 * (|quiz.questions| * r.score) - |quiz.questions|
            <= 200 * r.correctAnswers
            < 2 * (|quiz.questions| * r.score) + |quiz.questions|
    ensures r.passed <==> r.score >= quiz.passingScore
  {
    var correct := CountCorrect(quiz.questions, answers);
    var score := Score(correct, |quiz.questions|);
    QuizResults(score, score >= quiz.passingScore, correct)
  }

  /** An empty answer map scores nothing. */
  lemma NoAnswersScoreZero(quiz: Quiz)
    requires |quiz.questions| > 0
    ensures CalculateResults(quiz, map[]).correctAnswers == 0
    ensures CalculateResults(quiz, map[]).score == 0
  {
    CountCorrectZero(quiz.questions, map[]);
    ScoreExtremes(|quiz.questions|);
  }

  /** A quiz with every question answered correctly scores 100 and passes. */
  lemma AllCorrectScoresFull(quiz: Quiz, answers: map<string, int>)
    requires WellFormedQuiz(quiz)
    requires forall i :: 0 <= i < |quiz.questions| ==> AnsweredCorrectly(quiz.questions[i], answers)
    ensures CalculateResults(quiz, answers).score == 100
    ensures CalculateResults(quiz, answers).passed
  {
    CountCorrectAll(quiz.questions, answers);
    ScoreExtremes(|quiz.questions|);
  }

  /** Passing is monotone: keeping every correct answer and correcting more
      cannot turn a pass into a fail. */
  lemma PassIsMonotone(quiz: Quiz, a: map<string, int>, b: map<string, int>)
    requires |quiz.questions| > 0
    requires forall i :: 0 <= i < |quiz.questions| && AnsweredCorrectly(quiz.questions[i], a)
               ==> AnsweredCorrectly(quiz.questions[i], b)
    ensures CalculateResults(quiz, a).score <= CalculateResults(quiz, b).score
    ensures CalculateResults(quiz, a).passed ==> CalculateResults(quiz, b).passed
  {
    CountCorrectMonotone(quiz.questions, a, b);
    ScoreMonotone(CountCorrect(quiz.questions, a), CountCorrect(quiz.questions, b), |quiz.questions|);
  }

  // ---------------------------------------------------------------------------
  // formatTime

  /** `formatTime`: whole minutes, a colon, and the seconds padded to two digits. */
  function FormatTime(seconds: nat): string
  {
    Decimal(seconds / 60) + ":" + PadStart(Decimal(seconds % 60), 2, '0')
  }

  /** The clock text reads back as the number of seconds: the minutes before the
      colon, two seconds digits after it that stay below 60. */
  lemma FormatTimeReadsBack(seconds: nat)
    ensures var t := FormatTime(seconds);
      && |t| >= 4
      && t[|t| - 3] == ':'
      && AllDigits(t[..|t| - 3]) && AllDigits(t[|t| - 2..])
      && DecimalValue(t[..|t| - 3]) == seconds / 60
      && DecimalValue(t[|t| - 2..]) == seconds % 60
      && DecimalValue(t[|t| - 2..]) < 60
      && DecimalValue(t[..|t| - 3]) * 60 + DecimalValue(t[|t| - 2..]) == seconds
  {
    var m, s := Decimal(seconds / 60), Decimal(seconds % 60);
    var p := PadStart(s, 2, '0');
    var t := FormatTime(seconds);
    var x := seconds % 60;
    if x >= 10 {
      assert x / 10 < 10;
      assert |s| == |Decimal(x / 10)| + 1;
    }
    assert |p| == 2;
    assert t == m + ":" + p;
    assert t[..|t| - 3] == m;
    assert t[|t| - 2..] == p;
    DecimalRoundTrip(seconds / 60);
    DecimalRoundTrip(seconds % 60);
    if |s| == 1 {
      assert p == ['0'] + s;
      assert DecimalValue(p) == DecimalValue(p[..1]) * 10 + DigitValue(p[1]);
      assert p[..1] == ['0'];
      assert DecimalValue(s) == DecimalValue(s[..0]) * 10 + DigitValue(s[0]);
    }
  }

  // ---------------------------------------------------------------------------
  // The catalog

  function WebDevFundamentals(): Quiz
  {
    Quiz("web-dev-fundamentals", "Web Development Fundamentals Quiz",
      WebDevDescription,
      [ Question("q1", WebDevQ1Prompt,
          ["<header>", "<main>", "<section>", "<article>"], 1,
          WebDevQ1Explanation, "HTML"),
        Question("q2", WebDevQ2Prompt,
          ["Computer Style Sheets", "Cascading Style Sheets", "Creative Style Sheets", "Colorful Style Sheets"], 1,
          WebDevQ2Explanation, "CSS"),
        Question("q3", WebDevQ3Prompt,
          ["append()", "push()", "add()", "insert()"], 1,
          WebDevQ3Explanation, "JavaScript"),
        Question("q4", WebDevQ4Prompt,
          ["display: flex", "flex: container", "layout: flex", "container: flex"], 0,
          WebDevQ4Explanation, "CSS"),
        Question("q5", WebDevQ5Prompt,
          ["title", "src", "alt", "description"], 2,
          WebDevQ5Explanation, "HTML") ],
      15, 70)
  }

  function ReactMasterclass(): Quiz
  {
    Quiz("react-masterclass", "React Masterclass Quiz",
      ReactDescription,
      [ Question("q1", ReactQ1Prompt,
          ["To manage state", "To handle side effects", "To create components", "To render JSX"], 1,
          ReactQ1Explanation, "React Hooks"),
        Question("q2", ReactQ2Prompt,
          ["setState()", "useState()", "updateState()", "changeState()"], 1,
          ReactQ2Explanation, "React Hooks"),
        Question("q3", ReactQ3Prompt,
          ["A copy of the real DOM", "A JavaScript representation of the DOM", "A browser API", "A React component"], 1,
          ReactQ3Explanation, "React Concepts"),
        Question("q4", ReactQ4Prompt,
          ["Using state", "Using props", "Using context", "Using refs"], 1,
          ReactQ4Explanation, "React Concepts") ],
      20, 75)
  }

  function CybersecurityBasics(): Quiz
  {
    Quiz("cybersecurity-basics", "Cybersecurity Fundamentals Quiz",
      CyberDescription,
      [ Question("q1", CyberQ1Prompt,
          ["Central Intelligence Agency", "Confidentiality, Integrity, Availability", "Computer Information Access", "Cyber Intelligence Analysis"], 1,
          CyberQ1Explanation, "Security Principles"),
        Question("q2", CyberQ2Prompt,
          ["A type of malware", "A network security device", "An encryption method", "A password manager"], 1,
          CyberQ2Explanation, "Network Security"),
        Question("q3", CyberQ3Prompt,
          ["A type of encryption", "A social engineering attack", "A network protocol", "A firewall technique"], 1,
          CyberQ3Explanation, "Social Engineering"),
        Question("q4", CyberQ4Prompt,
          ["To create malware", "To test system vulnerabilities", "To encrypt data", "To monitor network traffic"], 1,
          CyberQ4Explanation, "Testing") ],
      25, 80)
  }

  /** The keys of the `quizzes` record. */
  const QuizIds: seq<string> := ["web-dev-fundamentals", "react-masterclass", "cybersecurity-basics"]

  // The display texts of the catalog, kept as named constants.
  const WebDevDescription: string := "Test your knowledge of HTML, CSS, and JavaScript basics."
  const WebDevQ1Prompt: string := "Which HTML element is used to define the main content of a document?"
  const WebDevQ1Explanation: string := "The <main> element represents the main content of a document, excluding content that is repeated across documents."
  const WebDevQ2Prompt: string := "What does CSS stand for?"
  const WebDevQ2Explanation: string := "CSS stands for Cascading Style Sheets, which describes how HTML elements are to be displayed."
  const WebDevQ3Prompt: string := "Which JavaScript method is used to add an element to the end of an array?"
  const WebDevQ3Explanation: string := "The push() method adds one or more elements to the end of an array and returns the new length of the array."
  const WebDevQ4Prompt: string := "What is the correct way to create a flexbox container?"
  const WebDevQ4Explanation: string := "To create a flexbox container, you set the display property to flex on the parent element."
  const WebDevQ5Prompt: string := "Which HTML attribute is used to specify an alternate text for an image?"
  const WebDevQ5Explanation: string := "The alt attribute provides alternative text for an image if it cannot be displayed."
  const ReactDescription: string := "Advanced React concepts, hooks, and best practices."
  const ReactQ1Prompt: string := "What is the purpose of the useEffect hook?"
  const ReactQ1Explanation: string := "useEffect is used to perform side effects in functional components, such as data fetching, subscriptions, or DOM updates."
  const ReactQ2Prompt: string := "Which method is used to update state in a functional component?"
  const ReactQ2Explanation: string := "useState() is a hook that returns a state variable and a function to update it in functional components."
  const ReactQ3Prompt: string := "What is the virtual DOM?"
  const ReactQ3Explanation: string := "The virtual DOM is a JavaScript representation of the actual DOM that React uses for efficient updates."
  const ReactQ4Prompt: string := "What is the correct way to pass data from parent to child component?"
  const ReactQ4Explanation: string := "Props are used to pass data from parent components to child components in React."
  const CyberDescription: string := "Test your understanding of basic cybersecurity concepts and practices."
  const CyberQ1Prompt: string := "What does CIA stand for in cybersecurity?"
  const CyberQ1Explanation: string := "CIA in cybersecurity refers to the three core principles: Confidentiality, Integrity, and Availability."
  const CyberQ2Prompt: string := "What is a firewall?"
  const CyberQ2Explanation: string := "A firewall is a network security device that monitors and filters incoming and outgoing network traffic."
  const CyberQ3Prompt: string := "What is phishing?"
  const CyberQ3Explanation: string := "Phishing is a social engineering attack where attackers impersonate trusted entities to steal sensitive information."
  const CyberQ4Prompt: string := "What is the purpose of penetration testing?"
  const CyberQ4Explanation: string := "Penetration testing is used to identify and test vulnerabilities in systems and networks."

  /** `courseId ? quizzes[courseId] : null`: the catalog lookup; no quiz for a
      missing or unknown course. */
  function QuizFor(courseId: Option<string>): (q: Option<Quiz>)
    ensures q.Some? <==> courseId.Some? && courseId.value in QuizIds
    ensures q.Some? ==> WellFormedQuiz(q.value) && q.value.id == courseId.value
  {
    match courseId
    case None => None
    case Some(c) =>
      if c == "web-dev-fundamentals" then WebDevWellFormed(); Some(WebDevFundamentals())
      else if c == "react-masterclass" then ReactWellFormed(); Some(ReactMasterclass())
      else if c == "cybersecurity-basics" then CyberWellFormed(); Some(CybersecurityBasics())
      else None
  }

  lemma WebDevWellFormed() ensures WellFormedQuiz(WebDevFundamentals())
  {
    var qs := WebDevFundamentals().questions;
    assert qs[0].id == "q1" && qs[1].id == "q2" && qs[2].id == "q3" && qs[3].id == "q4" && qs[4].id == "q5";
  }

  lemma ReactWellFormed() ensures WellFormedQuiz(ReactMasterclass())
  {
    var qs := ReactMasterclass().questions;
    assert qs[0].id == "q1" && qs[1].id == "q2" && qs[2].id == "q3" && qs[3].id == "q4";
  }

  lemma CyberWellFormed() ensures WellFormedQuiz(CybersecurityBasics())
  {
    var qs := CybersecurityBasics().questions;
    assert qs[0].id == "q1" && qs[1].id == "q2" && qs[2].id == "q3" && qs[3].id == "q4";
  }

  /** The catalog quizzes have 4 or 5 questions, and 100 is a multiple of both,
      so their scores are exact percentages and the rounding never applies. */
  lemma CatalogScoresExact(courseId: string, correct: nat)
    requires QuizFor(Some(courseId)).Some?
    requires correct <= |QuizFor(Some(courseId)).value.questions|
    ensures var n := |QuizFor(Some(courseId)).value.questions|;
      Score(correct, n) * n == 100 * correct
  {
    var n := |QuizFor(Some(courseId)).value.questions|;
    assert n == 4 || n == 5;
    var q := 100 * correct / n;
    assert n * q == 100 * correct;
    RoundQuotientExact(q, n);
  }

  /** The worked example: four of five right on the web fundamentals quiz
      (question 4 wrong) scores 80 and passes the 70 threshold. */
  lemma ExampleFourOfFive()
    ensures var r := CalculateResults(WebDevFundamentals(), map["q1" := 1, "q2" := 1, "q3" := 1, "q4" := 2, "q5" := 2]);
      r.correctAnswers == 4 && r.score == 80 && r.passed
  {
    var quiz := WebDevFundamentals();
    var a := map["q1" := 1, "q2" := 1, "q3" := 1, "q4" := 2, "q5" := 2];
    var qs := quiz.questions;
    assert qs[..5][..4] == qs[..4] && qs[..4][..3] == qs[..3];
    assert qs[..3][..2] == qs[..2] && qs[..2][..1] == qs[..1] && qs[..1][..0] == [];
    assert CountCorrect(qs[..1], a) == 1;
    assert CountCorrect(qs[..2], a) == 2;
    assert CountCorrect(qs[..3], a) == 3;
    assert CountCorrect(qs[..4], a) == 3;
    assert qs[..5] == qs;
    RoundQuotientExact(80, 5);
  }
}
