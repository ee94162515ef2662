# Learning platform core, modelled in Dafny

This project models the logic of an online-course platform.

- **Quiz runner** (`src/components/quiz-section.tsx`). The three catalog quizzes and their scorer: count the exact matches, round `100·correct/total` to the nearest integer, pass when the score reaches the quiz's passing score. Also the `m:ss` timer text, and the quiz component's state machine: start, answer, next, previous, finish, restart, and the one-second countdown tick.
- **Server record-keeping** (`src/supabase/functions/server/index.tsx`). The key-value store is a map from keys to records, and the handlers read and write it:
  - registration and session validation;
  - course enrollment, refusing duplicates;
  - quiz submission, which appends the result id and records a passed quiz as `min(100, 20·k)` progress;
  - newsletter subscription, the contact form, "my courses", and the dashboard with statistics over the last five results.
- **Course listing** (`src/components/Code-component-3-61.tsx`):
  - the static course list;
  - the case-insensitive search AND-ed with the category and level selectors, where `"all"` is a wildcard;
  - the deduplicated category selector and the level badge classes;
  - the student and lesson totals.
- **Backend user list** (`backend/index.js`). The in-memory `users` array and its `POST /users` handler.

Files:
- `common.dfy`: `Option`; the string operations the code relies on (`includes`, `split`, `padStart`, `toLowerCase`, decimal rendering); `Math.round` of a quotient.
- `quiz_section.dfy`: the catalog and the pure scorer.
- `quiz_runner.dfy`: the component's state as a class.
- `course_catalog.dfy`: the course listing.
- `server.dfy`: the server. Each state-changing handler is a function from the old store to the reply and new store, and a method of `KvServer` performs the same reads and writes step by step.
- `user_registry.dfy`: the backend list.

How the model stands in for the outside world:
- The clock (`Date.now()`, ISO timestamps) is a `now` argument in milliseconds.
- The authentication service's sessions are a map from access tokens to users.
- Account creation is an `AuthOutcome` argument.
- The remote save at the end of a quiz is a `saveSucceeds` argument.
- Whether a user is signed in, from the component's point of view, is a `signedIn` argument.

Facts about the quiz component that the model keeps as the code has them:
- `handleFinishQuiz` has no guard against running twice: both the countdown (quiz-section.tsx:199) and the Finish button (quiz-section.tsx:627) call it.
- `handleAnswerSelect` stores whatever index it is given, without checking it against the question's options (quiz-section.tsx:224-231).
- `handleNextQuestion` does not require an answer. Only the buttons' `disabled` attribute does (quiz-section.tsx:629, 636); `QuizAttempt.CanAdvance` states that condition.
- `timeLimit` is in minutes and is multiplied by 60 to load the countdown (quiz-section.tsx:188).

## Model

| member | source | states |
|---|---|---|
| QuizSection.CountCorrect | src/components/quiz-section.tsx:284-286 | the number of correctly answered questions never exceeds the number of questions |
| QuizSection.CountCorrectZero | src/components/quiz-section.tsx:284-286 | the count is 0 exactly when no question's recorded answer equals its correct answer (so an unanswered question never counts) |
| QuizSection.CountCorrectAll | src/components/quiz-section.tsx:284-286 | the count equals the number of questions exactly when every question is answered correctly |
| QuizSection.CountCorrectMonotone | src/components/quiz-section.tsx:284-286 | answers that are correct wherever another set is correct never count fewer |
| QuizSection.Score | src/components/quiz-section.tsx:288 | the score lies in [0, 100] and is the integer nearest to 100·correct/total, halves rounded up |
| QuizSection.ScoreMonotone | src/components/quiz-section.tsx:288 | more correct answers never give a lower score |
| QuizSection.ScoreExtremes | src/components/quiz-section.tsx:288 | all correct scores 100, none correct scores 0 |
| QuizSection.CalculateResults | src/components/quiz-section.tsx:281-292 | the correct count is CountCorrect of the answers, ≤ total; score in [0, 100] and equal to the rounded percentage; passed exactly when score ≥ passing score |
| QuizSection.NoAnswersScoreZero | src/components/quiz-section.tsx:284-289 | with no answers selected, correct answers and score are both 0 |
| QuizSection.AllCorrectScoresFull | src/components/quiz-section.tsx:284-289 | answering every question correctly scores 100 and passes |
| QuizSection.PassIsMonotone | src/components/quiz-section.tsx:288-289 | answers at least as correct never lower the score nor turn a pass into a fail |
| QuizSection.FormatTimeReadsBack | src/components/quiz-section.tsx:209-213 | the text is minutes, ':' and exactly two digits; the minutes read back to seconds/60, the two digits to seconds%60 < 60, and minutes·60 + seconds gives back the input |
| QuizSection.QuizFor | src/components/quiz-section.tsx:30-181 | a quiz exists exactly for the three catalog course ids, it is well formed (questions, options, correct index in range, distinct ids, passing score 0–100) and carries the requested id |
| QuizSection.WebDevWellFormed | src/components/quiz-section.tsx:31-79 | the web development quiz is well formed |
| QuizSection.ReactWellFormed | src/components/quiz-section.tsx:80-120 | the React quiz is well formed |
| QuizSection.CyberWellFormed | src/components/quiz-section.tsx:121-161 | the cybersecurity quiz is well formed |
| QuizSection.CatalogScoresExact | src/components/quiz-section.tsx:30-162 | on the catalog quizzes (4 or 5 questions) the percentage is a whole number, score·n = 100·correct, so no rounding occurs |
| QuizSection.ExampleFourOfFive | src/components/quiz-section.tsx:281-292 | four of five correct on the web development quiz scores 80 and passes its 70 threshold |
| QuizRunner.QuizAttempt.constructor | src/components/quiz-section.tsx:169-176 | the component starts on question 0 with no answers, no results, no timer, no start time |
| QuizRunner.QuizAttempt.Screen | src/components/quiz-section.tsx:186-207 | the countdown only ever runs while the questions are on screen: never on the introduction, never on the results |
| QuizRunner.QuizAttempt.CurrentQuestion | src/components/quiz-section.tsx:182 | the current question is one of the quiz's questions |
| QuizRunner.QuizAttempt.PendingSubmission | src/components/quiz-section.tsx:247-266 | a finish submits exactly when a user is signed in and a start time is recorded; the submission carries the component's course id, the quiz id, the answers, the question count, the score and pass flag of CalculateResults on those answers (so a score in [0, 100] and the pass rule), and the elapsed whole seconds rounded down |
| QuizRunner.QuizAttempt.Start | src/components/quiz-section.tsx:186-222 | starting resets to question 0 with no answers and results hidden, starts the timer, records the start time, and loads the countdown with timeLimit·60; the Next/Finish button is disabled (CanAdvance fails) until an answer is chosen |
| QuizRunner.QuizAttempt.SelectAnswer | src/components/quiz-section.tsx:224-231 | the current question's entry is set to the chosen index, replacing any earlier one; every other entry is unchanged; the Next/Finish button becomes enabled (CanAdvance holds) |
| QuizRunner.QuizAttempt.Next | src/components/quiz-section.tsx:233-239 | below the last question the cursor moves forward by one and nothing else changes; on the last question the quiz finishes as Finish does: the pending submission is sent, and a send ends with nothing submitting and the success or failure notice |
| QuizRunner.QuizAttempt.Prev | src/components/quiz-section.tsx:241-245 | the cursor moves back by one unless on the first question; it stays in range |
| QuizRunner.QuizAttempt.Finish | src/components/quiz-section.tsx:247-279 | whatever the user, start time or save outcome, the results are shown and the timer stopped; what is sent is the pending submission; a sent result ends with nothing submitting and a success or failure notice |
| QuizRunner.QuizAttempt.Restart | src/components/quiz-section.tsx:294-301 | back to the introduction on question 0, no answers, results hidden, timer off, no start time, the Next/Finish button disabled |
| QuizRunner.QuizAttempt.Tick | src/components/quiz-section.tsx:192-207 | a tick does nothing unless the timer is armed with time left; with at most one second left it stops the timer, sets the countdown to 0 and finishes as Finish does (the pending submission sent, then nothing submitting and the success or failure notice); otherwise it takes off exactly one second, so the countdown never goes negative |
| CourseCatalog.FilterCourses | src/components/Code-component-3-61.tsx:139-147 | the result is an order-preserving subsequence of the courses and contains exactly the courses that match search, category and level |
| CourseCatalog.FilteredCoursesMatch | src/components/Code-component-3-61.tsx:140-144 | every listed course has the selected category and level unless "all" is selected, and the lower-cased term occurs in its lower-cased title, description or instructor |
| CourseCatalog.ClearedFiltersShowAll | src/components/Code-component-3-61.tsx:230-234 | after Clear Filters (empty term, both selectors "all") every course is listed, in order |
| CourseCatalog.Distinct | src/components/Code-component-3-61.tsx:136 | the `Set` of categories has no duplicates, holds exactly the values of the input, in input order |
| CourseCatalog.DistinctFirstOccurrenceOrder | src/components/Code-component-3-61.tsx:136 | the distinct values come in the order of their first occurrence |
| CourseCatalog.Categories | src/components/Code-component-3-61.tsx:136 | the selector starts with "all", then lists each course category once and nothing else |
| CourseCatalog.CategoriesDistinctIff | src/components/Code-component-3-61.tsx:136 | the selector repeats no entry exactly when no course's category is itself "all" |
| CourseCatalog.CatalogCategoryList | src/components/Code-component-3-61.tsx:30-125 | the six courses' categories in list order |
| CourseCatalog.CatalogDistinctPrefix | src/components/Code-component-3-61.tsx:136 | the first three categories deduplicate to Web Development, Cybersecurity |
| CourseCatalog.CatalogDistinctCategories | src/components/Code-component-3-61.tsx:136 | deduplicating those categories keeps Web Development, Cybersecurity, Database, Robotics |
| CourseCatalog.CatalogCategories | src/components/Code-component-3-61.tsx:136 | the listing's selector is "all", Web Development, Cybersecurity, Database, Robotics |
| CourseCatalog.LevelColor | src/components/Code-component-3-61.tsx:149-156 | the default class is returned exactly for levels other than the three known ones; the result is one of the four classes |
| CourseCatalog.LevelColorsDistinct | src/components/Code-component-3-61.tsx:149-156 | the three known levels get three different classes |
| CourseCatalog.TotalOfSubsequence | src/components/Code-component-3-61.tsx:408-420 | a total over a subsequence of the courses never exceeds the total over the courses |
| CourseCatalog.CatalogTotals | src/components/Code-component-3-61.tsx:408-420 | the listing's totals are 3861 students and 310 lessons |
| Server.ContactKeyInjective | src/supabase/functions/server/index.tsx:340 | two contact submissions share an id only when they have the same time and email |
| Server.ProgressBounded | src/supabase/functions/server/index.tsx:244-253 | in a store satisfying the invariant every enrollment's progress lies in [0, 100], is 100 exactly when five or more quizzes are completed, and its completed list has no duplicates |
| Server.StoredResultsResolve | src/supabase/functions/server/index.tsx:234-241 | under the invariant every result id of a user names a stored quiz result, and the enrolled-course list has no duplicates |
| Server.BearerToken | src/supabase/functions/server/index.tsx:84 | the token never contains a space |
| Server.BearerTokenOfScheme | src/supabase/functions/server/index.tsx:84 | a header `<scheme> <token>` yields exactly the token |
| Server.BearerTokenNeedsSpace | src/supabase/functions/server/index.tsx:84 | a header without a space yields no token |
| Server.Authenticate | src/supabase/functions/server/index.tsx:117-122 | without an Authorization header the caller is refused; an accepted caller is always the user of some live session |
| Server.AuthenticateBearer | src/supabase/functions/server/index.tsx:117-122 | a `<scheme> <token>` header authenticates as the token's session user, and is refused (401) when the token names no session |
| Server.AuthenticateNeedsToken | src/supabase/functions/server/index.tsx:117-122 | a header without a space, or with nothing after the space, is refused |
| Server.ValidateSession | src/supabase/functions/server/index.tsx:82-112 | 401 exactly when the token is missing, empty or unknown, which is exactly when Authenticate refuses the header; otherwise the stored user record exactly when one exists, else a profile with the token user's id and email, the metadata name or "", and the metadata role or "student" |
| Server.RegisterOutcome | src/supabase/functions/server/index.tsx:30-79 | 400 with no write exactly when email, password or name is missing or the service refuses; otherwise exactly one key changes, and it holds the user record with the service's id, the request's email and name, the role defaulted to "student" only when absent, the creation time, and no courses, results or enrollment dates |
| Server.RegisterPreservesInvariant | src/supabase/functions/server/index.tsx:54-64 | registration keeps the store invariant |
| Server.DefaultUser | src/supabase/functions/server/index.tsx:132-139 | the record enroll starts from has the token's id and email, the metadata name or "", the metadata role or "student", no creation time, no courses and no results, so it is consistent in any store |
| Server.EnrollOutcome | src/supabase/functions/server/index.tsx:115-173 | 401 without a user; 400 with no write exactly when the course id is missing or already enrolled; otherwise the user record read (the stored one, or DefaultUser when there is none) is written back with the course appended once and its date recorded, every other field kept, and an enrollment with progress 0 stored; no other key changes |
| Server.EnrollPreservesInvariant | src/supabase/functions/server/index.tsx:141-162 | enrolling keeps the invariant, so a user's course list never holds a course twice |
| Server.SubmitOutcome | src/supabase/functions/server/index.tsx:205-264 | 401 without a user; 400 with no write when course, quiz, answers or score is missing; otherwise one result is stored under its key; the user record (or `{}`) is written back with the key appended once to its results and every other field kept; a passed new quiz is appended to the enrollment's completed list with progress min(100, 20·k) and its other fields kept; otherwise the enrollment is not written |
| Server.SubmitPreservesInvariant | src/supabase/functions/server/index.tsx:238-253 | submitting keeps the invariant: progress stays min(100, 20·k) over k distinct completed quizzes and every result id resolves |
| Server.ResubmitLeavesProgress | src/supabase/functions/server/index.tsx:244-253 | passing an already completed quiz again leaves the enrollment unchanged |
| Server.SubscribeOutcome | src/supabase/functions/server/index.tsx:288-319 | 400 with no write exactly when the email is missing, has no '@', or is already subscribed; otherwise an active subscription is stored under `newsletter:<email>` |
| Server.SubscribeOnce | src/supabase/functions/server/index.tsx:297-309 | subscribing never changes an existing record, and subscribing the same email again is refused with no write |
| Server.SubscribedEmailHasAt | src/supabase/functions/server/index.tsx:293-295 | an accepted email contains '@' |
| Server.SubscribePreservesInvariant | src/supabase/functions/server/index.tsx:303-309 | subscribing keeps the store invariant |
| Server.ContactOutcome | src/supabase/functions/server/index.tsx:322-351 | 400 with no write exactly when a field is missing; otherwise a new message with status "new" is stored under `contact:<time>:<email>` and that id returned |
| Server.ContactPreservesInvariant | src/supabase/functions/server/index.tsx:340-341 | the contact form keeps the store invariant |
| Server.EnrollmentsOf | src/supabase/functions/server/index.tsx:367-373 | the gathered enrollments are no more than the courses |
| Server.EnrollmentsOfMembers | src/supabase/functions/server/index.tsx:367-373 | each gathered enrollment is the stored enrollment of one of the courses, and every listed course that has a stored enrollment contributes it |
| Server.EnrollmentsOfAppend | src/supabase/functions/server/index.tsx:368-373 | gathering over two course lists in a row is the two gatherings concatenated, so records come out in course order |
| Server.EnrollmentsOfResolved | src/supabase/functions/server/index.tsx:367-373 | when every course has a stored enrollment, none is skipped and entry i is the enrollment of course i |
| Server.ResultsOf | src/supabase/functions/server/index.tsx:376-384 | the gathered results are no more than the ids |
| Server.ResultsOfMembers | src/supabase/functions/server/index.tsx:376-384 | each gathered result is the stored result of one of the ids, and every id naming a stored result contributes it |
| Server.ResultsOfAppend | src/supabase/functions/server/index.tsx:378-383 | gathering over two id lists in a row is the two gatherings concatenated, so results come out in id order |
| Server.ResultsOfResolved | src/supabase/functions/server/index.tsx:376-384 | when every id resolves, one result is gathered per id and entry i is the stored result of id i |
| Server.LastN | src/supabase/functions/server/index.tsx:378 | for a positive n, `slice(-n)` is the suffix of length min(n, length); the dashboard uses n = 5 |
| Server.CountPassed | src/supabase/functions/server/index.tsx:397 | the passed count never exceeds the number of results, is 0 exactly when no result passed, and equals the number of results exactly when every result passed |
| Server.CountPassedAppend | src/supabase/functions/server/index.tsx:397 | the passed count of two lists together is the sum of their passed counts |
| Server.SumScoresBounds | src/supabase/functions/server/index.tsx:399 | with scores in [lo, hi] the sum lies in [n·lo, n·hi] |
| Server.StatsOf | src/supabase/functions/server/index.tsx:395-401 | total courses is the enrollment count; completed quizzes is the passed count (CountPassed): ≤ results, 0 exactly when none passed and all of them exactly when all passed; average 0 without results and otherwise the rounded mean |
| Server.AverageScoreBounded | src/supabase/functions/server/index.tsx:398-400 | with every score in [0, 100], so is the average |
| Server.DashboardUserOf | src/supabase/functions/server/index.tsx:387-392 | the dashboard profile has the token's id and email; its name is the stored name, else the metadata name, else ""; its role the stored role, else the metadata role, else "student", so never empty |
| Server.DashboardBounds | src/supabase/functions/server/index.tsx:363-401 | under the invariant the dashboard holds exactly min(5, #results) recent results, completed ≤ recent ≤ 5, and total courses ≤ enrolled courses |
| Server.DashboardRecentResults | src/supabase/functions/server/index.tsx:376-384 | under the invariant the dashboard's recent results are the stored records of the user's last five result ids, one per id, in the same order |
| Server.KvServer.constructor | src/supabase/functions/server/index.tsx:5-7 | the server starts from an empty store, which satisfies the store invariant |
| Server.KvServer.Register | src/supabase/functions/server/index.tsx:30-79 | the handler's reply and new store are those of RegisterOutcome, and the invariant is kept |
| Server.KvServer.Enroll | src/supabase/functions/server/index.tsx:115-173 | the handler's reply and new store are those of EnrollOutcome for the header's user, and the invariant is kept |
| Server.KvServer.CollectEnrollments | src/supabase/functions/server/index.tsx:367-373 | the loop gathers exactly EnrollmentsOf the courses |
| Server.KvServer.CollectResults | src/supabase/functions/server/index.tsx:376-384 | the loop gathers exactly ResultsOf the ids |
| Server.KvServer.MyCourses | src/supabase/functions/server/index.tsx:176-202 | 401 without a user; otherwise the stored enrollments of the user's courses, in course order |
| Server.KvServer.SubmitQuiz | src/supabase/functions/server/index.tsx:205-264 | the handler's reply and new store are those of SubmitOutcome for the header's user, and the invariant is kept |
| Server.KvServer.Subscribe | src/supabase/functions/server/index.tsx:288-319 | the handler's reply and new store are those of SubscribeOutcome, and the invariant is kept |
| Server.KvServer.Contact | src/supabase/functions/server/index.tsx:322-351 | the handler's reply and new store are those of ContactOutcome, and the invariant is kept |
| Server.KvServer.Dashboard | src/supabase/functions/server/index.tsx:354-407 | 401 without a user; otherwise the profile, the enrollments of the enrolled courses, the results of the last five ids and StatsOf them |
| UserRegistry.ConsecutiveIdsUnique | backend/index.js:21-22 | consecutive ids are unique and each id locates its user at index id−1 |
| UserRegistry.AppendNextId | backend/index.js:21-22 | appending a user with id length+1 keeps ids consecutive |
| UserRegistry.Registry.constructor | backend/index.js:9 | the list starts empty |
| UserRegistry.Registry.CreateUser | backend/index.js:16-24 | 400 with the list unchanged exactly when name or email is missing; otherwise the user gets id length+1 (an id no earlier user has), is appended at the end with earlier users unchanged, and is returned with 201 |

## Left out

- Rendering, styling, animation, toasts other than the finish notice, routing, CORS, logging and `Deno.serve`/`app.listen`: they hold no logic beyond display.
- The 500 replies: malformed request bodies and failures of the key-value store or the authentication service. Each handler's body is already parsed into optional fields.
- The `GET /health` routes: they only report a fixed status and the time.
- `GET /quiz/results/:courseId`: it relies on `kv.getByPrefix`, and the key-value store module is not part of this model.
- The authentication service itself (`createUser`, `getUser`): it is replaced by its outcome and by a map from tokens to users. An empty token is refused, as the validation handler refuses it explicitly.
- Request values of unexpected JSON types (numbers or objects where strings are expected, a non-boolean `passed`, a `null` score): fields are typed as optional strings, integers, booleans or answer maps.
- QuizSection.Score: it is exact rational rounding of 100·correct/total. JavaScript rounds the float `(correct/total)*100`, which can differ at a .5 boundary; the catalog quizzes never reach one (CatalogScoresExact).
- Text.Lower: it lower-cases ASCII letters only; `toLowerCase` also folds other scripts.
- The progress bar percentage and the average rating with `toFixed(1)`: floating-point displays.
- QuizRunner.QuizAttempt.Finish: it shows only the final state of `isSubmitting` (false after a send). The intermediate true state while the save is in flight is not modelled.
- The effect scheduling of React and `setInterval`: a tick is one method call, and stale closures and concurrent finishes are not modelled. So no exactly-once finish is claimed; the code has none.
- The quiz component with no quiz for its course id (the "not found" view): the class is constructed only for catalog course ids.
- Course images, skills, `progress` and `enrolled` flags in the course list: display-only fields.
- Timestamps in records: ISO strings are represented by their millisecond value.
- Key-value store records: a record at a key of the wrong kind reads as missing. The store invariant shows that never happens, because each kind of record has its own key prefix.
