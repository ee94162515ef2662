// The record-keeping rules of src/supabase/functions/server/index.tsx. The
// key-value store is a map from keys to records; the authentication service
// is a map from access tokens to the users they belong to; the clock is a
// `now` argument in milliseconds; and the outcome of creating an account in
// the authentication service is an argument of the registration handler.
//
// Each state-changing handler is specified by a function from the old store
// to the reply and the new store, and the handler of the `KvServer` class
// performs the same reads and writes one by one.

module Server {
  import opened Wrappers
  import opened Text
  import opened Seqs
  import opened JsMath

  // ---------------------------------------------------------------------------
  // Records

  /** A user as the authentication service returns it. */
  datatype AuthUser = AuthUser(id: string, email: string, metaName: Option<string>, metaRole: Option<string>)

  /** The `user:<id>` record. Fields a handler may leave unset are optional;
      an unset list or map reads as empty, as every reader defaults it so. */
  datatype UserData = UserData(
    id: Option<string>,
    email: Option<string>,
    name: Option<string>,
    role: Option<string>,
    createdAt: Option<int>,
    enrolledCourses: seq<string>,
    quizResults: seq<string>,
    enrollmentDate: map<string, int>)

  /** The `enrollment:<user>:<course>` record. */
  datatype Enrollment = Enrollment(
    userId: Option<string>,
    courseId: Option<string>,
    enrolledAt: Option<int>,
    progress: int,
    quizCompleted: seq<string>)

  /** The `quiz_result:<user>:<course>:<quiz>:<time>` record. */
  datatype QuizResult = QuizResult(
    userId: string,
    courseId: string,
    quizId: string,
    answers: map<string, int>,
    score: int,
    passed: bool,
    timeSpent: Option<int>,
    totalQuestions: Option<int>,
    submittedAt: int)

  /** The `newsletter:<email>` record. */
  datatype Subscription = Subscription(email: string, subscribedAt: int, active: bool)

  /** The `contact:<time>:<email>` record. */
  datatype ContactMessage = ContactMessage(
    name: string, email: string, subject: string, message: string, submittedAt: int, status: string)

  datatype Record =
    | UserRec(user: UserData)
    | EnrollmentRec(enrollment: Enrollment)
    | QuizResultRec(result: QuizResult)
    | SubscriptionRec(subscription: Subscription)
    | ContactRec(contact: ContactMessage)

  type Store = map<string, Record>

  /** A JSON reply: the success body, or an error status with its message. */
  datatype Reply<T> = Ok(value: T) | Fail(status: int, error: string)

  /** A handler's reply together with the store it leaves. */
  datatype Outcome<T> = Outcome(reply: Reply<T>, store: Store)

  const Unauthorized: string := "Unauthorized"
  const NoAccessToken: string := "No access token provided"
  const InvalidToken: string := "Invalid token"
  const FieldsRequired: string := "Email, password, and name are required"
  const CourseIdRequired: string := "Course ID is required"
  const AlreadyEnrolled: string := "Already enrolled in this course"
  const MissingQuizData: string := "Missing required quiz data"
  const ValidEmailRequired: string := "Valid email is required"
  const AlreadySubscribed: string := "Email already subscribed"
  const AllFieldsRequired: string := "All fields are required"

  // ---------------------------------------------------------------------------
  // Keys. Each kind of record lives under its own prefix, and the prefixes
  // already differ in their first character.

  function UserKey(uid: string): (k: string)
    ensures |k| > 0 && k[0] == 'u'
  {
    "user:" + uid
  }

  function EnrollmentKey(uid: string, courseId: string): (k: string)
    ensures |k| > 0 && k[0] == 'e'
  {
    "enrollment:" + uid + ":" + courseId
  }

  function ResultKey(uid: string, courseId: string, quizId: string, now: nat): (k: string)
    ensures |k| > 0 && k[0] == 'q'
  {
    "quiz_result:" + uid + ":" + courseId + ":" + quizId + ":" + Decimal(now)
  }

  function NewsletterKey(email: string): (k: string)
    ensures |k| > 0 && k[0] == 'n'
  {
    "newsletter:" + email
  }

  function ContactKey(now: nat, email: string): (k: string)
    ensures |k| > 0 && k[0] == 'c'
  {
    "contact:" + Decimal(now) + ":" + email
  }

  /** The first character of the keys a record of this kind is stored under. */
  function KindChar(r: Record): char
  {
    match r
    case UserRec(_) => 'u'
    case EnrollmentRec(_) => 'e'
    case QuizResultRec(_) => 'q'
    case SubscriptionRec(_) => 'n'
    case ContactRec(_) => 'c'
  }

  predicate Fits(k: string, r: Record)
  {
    |k| > 0 && k[0] == KindChar(r)
  }

  /** The first ':' splits a contact key back into its time and email, so two
      submissions share a key only when sent by the same email in the same
      millisecond. */
  lemma ContactKeyInjective(now1: nat, email1: string, now2: nat, email2: string)
    requires ContactKey(now1, email1) == ContactKey(now2, email2)
    ensures now1 == now2 && email1 == email2
  {
    var p := "contact:";
    var a1, a2 := Decimal(now1), Decimal(now2);
    assert ':' !in a1 && ':' !in a2;
    assert (p + a1 + ":" + email1)[|p|..] == a1 + [':'] + email1;
    assert (p + a2 + ":" + email2)[|p|..] == a2 + [':'] + email2;
    var t1, t2 := a1 + [':'] + email1, a2 + [':'] + email2;
    assert ContactKey(now1, email1) == p + t1 && ContactKey(now2, email2) == p + t2;
    assert t1 == (p + t1)[|p|..] == (p + t2)[|p|..] == t2;
    SplitAtFirst(a1, ':', email1);
    SplitAtFirst(a2, ':', email2);
    var s1, s2 := Split(email1, ':'), Split(email2, ':');
    assert a1 == ([a1] + s1)[0] == ([a2] + s2)[0] == a2;
    assert s1 == ([a1] + s1)[1..] == ([a2] + s2)[1..] == s2;
    DecimalInjective(now1, now2);
    SplitJoin(email1, ':');
    SplitJoin(email2, ':');
  }

  // ---------------------------------------------------------------------------
  // Reading the store. A key holding a record of another kind reads as
  // missing; the store invariant below shows that never happens.

  function StoredUser(store: Store, uid: string): Option<UserData>
  {
    var k := UserKey(uid);
    if k in store && store[k].UserRec? then Some(store[k].user) else None
  }

  /** The user record, or `{}` when there is none. */
  function UserOrEmpty(store: Store, uid: string): UserData
  {
    match StoredUser(store, uid)
    case Some(u) => u
    case None => UserData(None, None, None, None, None, [], [], map[])
  }

  function EnrolledCourses(store: Store, uid: string): seq<string>
  {
    UserOrEmpty(store, uid).enrolledCourses
  }

  function ResultIds(store: Store, uid: string): seq<string>
  {
    UserOrEmpty(store, uid).quizResults
  }

  function StoredEnrollment(store: Store, uid: string, courseId: string): Option<Enrollment>
  {
    var k := EnrollmentKey(uid, courseId);
    if k in store && store[k].EnrollmentRec? then Some(store[k].enrollment) else None
  }

  /** The enrollment record, or `{}` when there is none. */
  function EnrollmentOrEmpty(store: Store, uid: string, courseId: string): Enrollment
  {
    match StoredEnrollment(store, uid, courseId)
    case Some(e) => e
    case None => Enrollment(None, None, None, 0, [])
  }

  function CompletedQuizzes(store: Store, uid: string, courseId: string): seq<string>
  {
    match StoredEnrollment(store, uid, courseId)
    case Some(e) => e.quizCompleted
    case None => []
  }

  // ---------------------------------------------------------------------------
  // The store invariant

  /** Progress is 20 points per distinct completed quiz, capped at 100. */
  predicate ProgressMatches(e: Enrollment)
  {
    NoDuplicates(e.quizCompleted) && e.progress == Min(100, 20 * |e.quizCompleted|)
  }

  /** A user's course list has no repeats and each result id names a stored result. */
  predicate UserConsistent(store: Store, u: UserData)
  {
    && NoDuplicates(u.enrolledCourses)
    && forall id | id in u.quizResults :: id in store && store[id].QuizResultRec?
  }

  predicate StoreInvariant(store: Store)
  {
    && (forall k | k in store :: Fits(k, store[k]))
    && (forall k | k in store && store[k].UserRec? :: UserConsistent(store, store[k].user))
    && (forall k | k in store && store[k].EnrollmentRec? :: ProgressMatches(store[k].enrollment))
  }

  /** Writing a record that is not a quiz result keeps the invariant, provided
      the record itself is consistent. */
  lemma WriteOtherKind(store: Store, k: string, rec: Record)
    requires StoreInvariant(store) && Fits(k, rec) && !rec.QuizResultRec?
    requires rec.UserRec? ==> UserConsistent(store, rec.user)
    requires rec.EnrollmentRec? ==> ProgressMatches(rec.enrollment)
    ensures StoreInvariant(store[k := rec])
  {
    var s := store[k := rec];
    forall u: UserData | UserConsistent(store, u) ensures UserConsistent(s, u) {
      forall id | id in u.quizResults ensures id in s && s[id].QuizResultRec? {
        assert Fits(id, store[id]);
      }
    }
  }

  /** Writing a quiz result under a quiz-result key keeps the invariant. */
  lemma WriteResult(store: Store, k: string, rec: Record)
    requires StoreInvariant(store) && Fits(k, rec) && rec.QuizResultRec?
    ensures StoreInvariant(store[k := rec])
  {
    var s := store[k := rec];
    forall u: UserData | UserConsistent(store, u) ensures UserConsistent(s, u) {
      forall id | id in u.quizResults ensures id in s && s[id].QuizResultRec? {
        if id == k {
        } else {
          assert s[id] == store[id];
        }
      }
    }
    forall j | j in s && s[j].UserRec? ensures UserConsistent(s, s[j].user) {
      assert j != k;
    }
    forall j | j in s && s[j].EnrollmentRec? ensures ProgressMatches(s[j].enrollment) {
      assert j != k;
    }
  }

  /** Every stored enrollment's progress lies between 0 and 100, and reaches
      100 exactly when five or more quizzes are completed. */
  lemma ProgressBounded(store: Store, uid: string, courseId: string)
    requires StoreInvariant(store)
    requires StoredEnrollment(store, uid, courseId).Some?
    ensures var e := StoredEnrollment(store, uid, courseId).value;
      && 0 <= e.progress <= 100
      && (e.progress == 100 <==> |e.quizCompleted| >= 5)
      && NoDuplicates(e.quizCompleted)
  {
    var k := EnrollmentKey(uid, courseId);
    assert ProgressMatches(store[k].enrollment);
  }

  /** A stored user's results all resolve to stored quiz results. */
  lemma StoredResultsResolve(store: Store, uid: string)
    requires StoreInvariant(store)
    ensures forall id | id in ResultIds(store, uid) :: id in store && store[id].QuizResultRec?
    ensures NoDuplicates(EnrolledCourses(store, uid))
  {
    if StoredUser(store, uid).Some? {
      assert UserConsistent(store, store[UserKey(uid)].user);
    }
  }

  // ---------------------------------------------------------------------------
  // Authentication

  /** `Authorization?.split(' ')[1]`: the second space-separated word, if any. */
  function BearerToken(header: Option<string>): (t: Option<string>)
    ensures t.Some? ==> ' ' !in t.value
  {
    if header.None? then None
    else
      var parts := Split(header.value, ' ');
      if |parts| >= 2 then Some(parts[1]) else None
  }

  /** `Bearer <token>` yields the token. */
  lemma BearerTokenOfScheme(scheme: string, token: string)
    requires ' ' !in scheme && ' ' !in token
    ensures BearerToken(Some(scheme + " " + token)) == Some(token)
  {
    SplitAtFirst(scheme, ' ', token);
    SplitNoSeparator(token, ' ');
  }

  /** A header without a space has no token. */
  lemma BearerTokenNeedsSpace(header: string)
    requires ' ' !in header
    ensures BearerToken(Some(header)) == None
  {
    SplitNoSeparator(header, ' ');
  }

  /** `supabase.auth.getUser(token)`: the session's user, or an error. A
      missing or empty token is refused. */
  function Authenticate(header: Option<string>, sessions: map<string, AuthUser>): (u: Option<AuthUser>)
    ensures header.None? ==> u.None?
    ensures u.Some? ==> u.value in sessions.Values
  {
    var t := BearerToken(header);
    if Present(t) && t.value in sessions then Some(sessions[t.value]) else None
  }

  /** A `<scheme> <token>` header authenticates as the token's session user,
      and is refused when the token names no session. */
  lemma AuthenticateBearer(scheme: string, token: string, sessions: map<string, AuthUser>)
    requires ' ' !in scheme && ' ' !in token && token != ""
    ensures token in sessions ==> Authenticate(Some(scheme + " " + token), sessions) == Some(sessions[token])
    ensures token !in sessions ==> Authenticate(Some(scheme + " " + token), sessions) == None
  {
    BearerTokenOfScheme(scheme, token);
  }

  /** A header without a space, or with nothing after it, is refused. */
  lemma AuthenticateNeedsToken(header: string, sessions: map<string, AuthUser>)
    requires ' ' !in header
    ensures Authenticate(Some(header), sessions) == None
    ensures Authenticate(Some(header + " "), sessions) == None
  {
    BearerTokenNeedsSpace(header);
    BearerTokenOfScheme(header, "");
    assert header + " " + "" == header + " ";
  }

  /** JavaScript's `a || b` on an optional string. */
  function OrElse(s: Option<string>, default: string): string
  {
    if Present(s) then s.value else default
  }

  // ---------------------------------------------------------------------------
  // POST /auth/validate

  datatype SessionUser =
    | StoredProfile(data: UserData)
    | TokenProfile(id: string, email: string, name: string, role: string)

  /** The validation handler: 401 without a token or with an unknown one;
      otherwise the stored user record, or one built from the token's user. */
  function ValidateSession(store: Store, header: Option<string>, sessions: map<string, AuthUser>): (r: Reply<SessionUser>)
    ensures r.Fail? <==> !Present(BearerToken(header)) || BearerToken(header).value !in sessions
    ensures r.Fail? ==> r.status == 401
    ensures r.Ok? ==> var u := sessions[BearerToken(header).value];
      && (r.value.StoredProfile? <==> StoredUser(store, u.id).Some?)
      && (r.value.StoredProfile? ==> r.value.data == StoredUser(store, u.id).value)
      && (r.value.TokenProfile? ==>
            && r.value.id == u.id && r.value.email == u.email
            && r.value.role == OrElse(u.metaRole, "student")
            && r.value.name == OrElse(u.metaName, ""))
    ensures r.Fail? <==> Authenticate(header, sessions).None?
  {
    var token := BearerToken(header);
    if !Present(token) then Fail(401, NoAccessToken)
    else if token.value !in sessions then Fail(401, InvalidToken)
    else
      var u := sessions[token.value];
      match StoredUser(store, u.id)
      case Some(data) => Ok(StoredProfile(data))
      case None => Ok(TokenProfile(u.id, u.email, OrElse(u.metaName, ""), OrElse(u.metaRole, "student")))
  }

  // ---------------------------------------------------------------------------
  // POST /auth/register

  datatype RegisterRequest = RegisterRequest(
    email: Option<string>, password: Option<string>, name: Option<string>, role: Option<string>)

  /** What the authentication service answers to `createUser`. */
  datatype AuthOutcome = Created(id: string) | Refused(message: string)

  datatype Registered = Registered(id: string, email: string, name: string, role: string)

  predicate RegisterFieldsPresent(req: RegisterRequest)
  {
    Present(req.email) && Present(req.password) && Present(req.name)
  }

  /** The destructuring default: only a missing role becomes "student". */
  function RoleOf(req: RegisterRequest): string
  {
    match req.role
    case Some(role) => role
    case None => "student"
  }

  /** The registration handler: 400 unless email, password and name are all
      given, then 400 with the service's message when it refuses the account;
      otherwise a fresh user record with no courses and no results. */
  function RegisterOutcome(store: Store, req: RegisterRequest, auth: AuthOutcome, now: int): (o: Outcome<Registered>)
    ensures o.reply.Fail? <==> !RegisterFieldsPresent(req) || auth.Refused?
    ensures o.reply.Fail? ==> o.reply.status == 400 && o.store == store
    ensures !RegisterFieldsPresent(req) ==> o.reply == Fail(400, FieldsRequired)
    ensures o.reply.Ok? ==> auth.Created? && RegisterFieldsPresent(req)
    ensures o.reply.Ok? && auth.Created? ==>
      && o.reply.value == Registered(auth.id, req.email.value, req.name.value, RoleOf(req))
      && StoredUser(o.store, auth.id) == Some(UserData(Some(auth.id), req.email, req.name, Some(RoleOf(req)),
                                                       Some(now), [], [], map[]))
      && EnrolledCourses(o.store, auth.id) == [] && ResultIds(o.store, auth.id) == []
      && o.store.Keys == store.Keys + {UserKey(auth.id)}
      && forall k | k in store && k != UserKey(auth.id) :: o.store[k] == store[k]
  {
    if !RegisterFieldsPresent(req) then Outcome(Fail(400, FieldsRequired), store)
    else match auth
      case Refused(message) => Outcome(Fail(400, message), store)
      case Created(id) =>
        var user := UserData(Some(id), req.email, req.name, Some(RoleOf(req)), Some(now), [], [], map[]);
        Outcome(Ok(Registered(id, req.email.value, req.name.value, RoleOf(req))), store[UserKey(id) := UserRec(user)])
  }

  lemma RegisterPreservesInvariant(store: Store, req: RegisterRequest, auth: AuthOutcome, now: int)
    requires StoreInvariant(store)
    ensures StoreInvariant(RegisterOutcome(store, req, auth, now).store)
  {
    if RegisterFieldsPresent(req) && auth.Created? {
      var user := UserData(Some(auth.id), req.email, req.name, Some(RoleOf(req)), Some(now), [], [], map[]);
      WriteOtherKind(store, UserKey(auth.id), UserRec(user));
    }
  }

  // ---------------------------------------------------------------------------
  // POST /courses/enroll

  /** The record enroll starts from when the user has none: the token's id,
      email and metadata, with the name and role defaults, and no courses or
      results yet, so it is consistent in any store. */
  function DefaultUser(caller: AuthUser): (d: UserData)
    ensures d.id == Some(caller.id) && d.email == Some(caller.email)
    ensures d.enrolledCourses == [] && d.quizResults == [] && d.enrollmentDate == map[]
    ensures forall store: Store :: UserConsistent(store, d)
    ensures d.role.Some? && d.role.value != ""
    ensures Present(caller.metaRole) ==> d.role == caller.metaRole
    ensures Present(caller.metaName) ==> d.name == caller.metaName
    ensures !Present(caller.metaRole) ==> d.role == Some("student")
    ensures !Present(caller.metaName) ==> d.name == Some("")
    ensures d.createdAt == None
  {
    UserData(Some(caller.id), Some(caller.email), Some(OrElse(caller.metaName, "")),
             Some(OrElse(caller.metaRole, "student")), None, [], [], map[])
  }

  /** The user record enroll reads: the stored one, or DefaultUser. */
  function UserOrDefault(store: Store, caller: AuthUser): UserData
  {
    match StoredUser(store, caller.id)
    case Some(u) => u
    case None => DefaultUser(caller)
  }

  /** The enroll handler: 401 without a user; 400 without a course id or when
      the course is already in the user's list, writing nothing; otherwise the
      course is appended once to the list and a fresh enrollment stored. */
  function EnrollOutcome(store: Store, caller: Option<AuthUser>, courseId: Option<string>, now: int): (o: Outcome<Enrollment>)
    ensures caller.None? ==> o.reply == Fail(401, Unauthorized)
    ensures caller.Some? ==>
      (o.reply.Fail? <==> !Present(courseId) || courseId.value in EnrolledCourses(store, caller.value.id))
    ensures caller.Some? && !Present(courseId) ==> o.reply == Fail(400, CourseIdRequired)
    ensures o.reply.Fail? ==> o.store == store
    ensures o.reply.Ok? ==> caller.Some? && courseId.Some?
    ensures o.reply.Ok? && caller.Some? && courseId.Some? ==>
      var uid, cid := caller.value.id, courseId.value;
      && EnrolledCourses(o.store, uid) == EnrolledCourses(store, uid) + [cid]
      && StoredUser(o.store, uid) == Some(UserOrDefault(store, caller.value).(
           enrolledCourses := UserOrDefault(store, caller.value).enrolledCourses + [cid],
           enrollmentDate := UserOrDefault(store, caller.value).enrollmentDate[cid := now]))
      && ResultIds(o.store, uid) == ResultIds(store, uid)
      && o.reply.value == Enrollment(Some(uid), Some(cid), Some(now), 0, [])
      && StoredEnrollment(o.store, uid, cid) == Some(o.reply.value)
      && cid in StoredUser(o.store, uid).value.enrollmentDate
      && StoredUser(o.store, uid).value.enrollmentDate[cid] == now
      && o.store.Keys == store.Keys + {UserKey(uid), EnrollmentKey(uid, cid)}
      && forall k | k in store && k != UserKey(uid) && k != EnrollmentKey(uid, cid) :: o.store[k] == store[k]
  {
    if caller.None? then Outcome(Fail(401, Unauthorized), store)
    else if !Present(courseId) then Outcome(Fail(400, CourseIdRequired), store)
    else
      var uid, cid := caller.value.id, courseId.value;
      var user := UserOrDefault(store, caller.value);
      if cid in user.enrolledCourses then Outcome(Fail(400, AlreadyEnrolled), store)
      else
        var user' := user.(enrolledCourses := user.enrolledCourses + [cid],
                           enrollmentDate := user.enrollmentDate[cid := now]);
        var enrollment := Enrollment(Some(uid), Some(cid), Some(now), 0, []);
        var s := store[UserKey(uid) := UserRec(user')][EnrollmentKey(uid, cid) := EnrollmentRec(enrollment)];
        assert UserKey(uid) != EnrollmentKey(uid, cid);
        Outcome(Ok(enrollment), s)
  }

  /** Enrolling keeps the invariant: in particular a user's course list never
      holds a course twice. */
  lemma EnrollPreservesInvariant(store: Store, caller: Option<AuthUser>, courseId: Option<string>, now: int)
    requires StoreInvariant(store)
    ensures StoreInvariant(EnrollOutcome(store, caller, courseId, now).store)
  {
    if caller.Some? && Present(courseId) {
      var uid, cid := caller.value.id, courseId.value;
      var user := UserOrDefault(store, caller.value);
      if cid !in user.enrolledCourses {
        if StoredUser(store, uid).Some? {
          assert UserConsistent(store, store[UserKey(uid)].user);
        }
        var user' := user.(enrolledCourses := user.enrolledCourses + [cid],
                           enrollmentDate := user.enrollmentDate[cid := now]);
        AppendFresh(user.enrolledCourses, cid);
        WriteOtherKind(store, UserKey(uid), UserRec(user'));
        var s1 := store[UserKey(uid) := UserRec(user')];
        WriteOtherKind(s1, EnrollmentKey(uid, cid), EnrollmentRec(Enrollment(Some(uid), Some(cid), Some(now), 0, [])));
      }
    }
  }

  // ---------------------------------------------------------------------------
  // POST /quiz/submit

  datatype SubmitRequest = SubmitRequest(
    courseId: Option<string>,
    quizId: Option<string>,
    answers: Option<map<string, int>>,
    score: Option<int>,
    passed: bool,
    timeSpent: Option<int>,
    totalQuestions: Option<int>)

  datatype Submitted = Submitted(result: QuizResult, resultId: string)

  predicate SubmitFieldsPresent(req: SubmitRequest)
  {
    Present(req.courseId) && Present(req.quizId) && req.answers.Some? && req.score.Some?
  }

  /** The enrollment after a passed quiz: the quiz is added to the completed
      list unless already there, and progress recomputed from the list. The
      enrollment is written only when the list grows. */
  function RecordPass(store: Store, uid: string, courseId: string, quizId: string): Store
  {
    var e := EnrollmentOrEmpty(store, uid, courseId);
    if quizId in e.quizCompleted then store
    else
      var completed := e.quizCompleted + [quizId];
      store[EnrollmentKey(uid, courseId) := EnrollmentRec(e.(quizCompleted := completed, progress := Min(100, 20 * |completed|)))]
  }

  /** The submit handler: 401 without a user; 400 before any write when the
      course, quiz, answers or score is missing; otherwise one result record
      is stored, its key appended to the user's results, and a passed quiz
      recorded on the course's enrollment. */
  function SubmitOutcome(store: Store, caller: Option<AuthUser>, req: SubmitRequest, now: nat): (o: Outcome<Submitted>)
    ensures caller.None? ==> o.reply == Fail(401, Unauthorized) && o.store == store
    ensures caller.Some? && !SubmitFieldsPresent(req) ==> o.reply == Fail(400, MissingQuizData) && o.store == store
    ensures caller.Some? && SubmitFieldsPresent(req) ==> o.reply.Ok?
    ensures caller.Some? && SubmitFieldsPresent(req) && o.reply.Ok? ==>
      var uid, cid, qid := caller.value.id, req.courseId.value, req.quizId.value;
      var rk := ResultKey(uid, cid, qid, now);
      var before, after := CompletedQuizzes(store, uid, cid), CompletedQuizzes(o.store, uid, cid);
      && o.reply.value.resultId == rk
      && o.reply.value.result == QuizResult(uid, cid, qid, req.answers.value, req.score.value, req.passed,
                                             req.timeSpent, req.totalQuestions, now)
      && rk in o.store && o.store[rk] == QuizResultRec(o.reply.value.result)
      && ResultIds(o.store, uid) == ResultIds(store, uid) + [rk]
      && EnrolledCourses(o.store, uid) == EnrolledCourses(store, uid)
      && StoredUser(o.store, uid) == Some(UserOrEmpty(store, uid).(quizResults := ResultIds(store, uid) + [rk]))
      && (req.passed && qid !in before ==>
            && after == before + [qid]
            && StoredEnrollment(o.store, uid, cid) ==
                 Some(EnrollmentOrEmpty(store, uid, cid).(quizCompleted := after, progress := Min(100, 20 * |after|)))
            && StoredEnrollment(o.store, uid, cid).value.progress == Min(100, 20 * |after|))
      && (!(req.passed && qid !in before) ==>
            && (EnrollmentKey(uid, cid) in o.store <==> EnrollmentKey(uid, cid) in store)
            && (EnrollmentKey(uid, cid) in store ==> o.store[EnrollmentKey(uid, cid)] == store[EnrollmentKey(uid, cid)]))
      && o.store.Keys <= store.Keys + {rk, UserKey(uid), EnrollmentKey(uid, cid)}
      && forall k | k in store && k !in {rk, UserKey(uid), EnrollmentKey(uid, cid)} :: k in o.store && o.store[k] == store[k]
  {
    if caller.None? then Outcome(Fail(401, Unauthorized), store)
    else if !SubmitFieldsPresent(req) then Outcome(Fail(400, MissingQuizData), store)
    else
      var uid, cid, qid := caller.value.id, req.courseId.value, req.quizId.value;
      var result := QuizResult(uid, cid, qid, req.answers.value, req.score.value, req.passed,
                               req.timeSpent, req.totalQuestions, now);
      var rk := ResultKey(uid, cid, qid, now);
      var user := UserOrEmpty(store, uid);
      var s1 := store[rk := QuizResultRec(result)][UserKey(uid) := UserRec(user.(quizResults := user.quizResults + [rk]))];
      assert rk != UserKey(uid) && rk != EnrollmentKey(uid, cid) && UserKey(uid) != EnrollmentKey(uid, cid);
      assert StoredEnrollment(s1, uid, cid) == StoredEnrollment(store, uid, cid);
      Outcome(Ok(Submitted(result, rk)), if req.passed then RecordPass(s1, uid, cid, qid) else s1)
  }

  /** Submitting keeps the invariant: progress stays `min(100, 20 * k)` over k
      distinct completed quizzes, and the new result id resolves. */
  lemma SubmitPreservesInvariant(store: Store, caller: Option<AuthUser>, req: SubmitRequest, now: nat)
    requires StoreInvariant(store)
    ensures StoreInvariant(SubmitOutcome(store, caller, req, now).store)
  {
    if caller.Some? && SubmitFieldsPresent(req) {
      var uid, cid, qid := caller.value.id, req.courseId.value, req.quizId.value;
      var result := QuizResult(uid, cid, qid, req.answers.value, req.score.value, req.passed,
                               req.timeSpent, req.totalQuestions, now);
      var rk := ResultKey(uid, cid, qid, now);
      var user := UserOrEmpty(store, uid);
      if StoredUser(store, uid).Some? {
        assert UserConsistent(store, store[UserKey(uid)].user);
      }
      WriteResult(store, rk, QuizResultRec(result));
      var s0 := store[rk := QuizResultRec(result)];
      var user' := user.(quizResults := user.quizResults + [rk]);
      assert UserConsistent(s0, user);
      assert UserConsistent(s0, user');
      WriteOtherKind(s0, UserKey(uid), UserRec(user'));
      var s1 := s0[UserKey(uid) := UserRec(user')];
      if req.passed {
        var e := EnrollmentOrEmpty(s1, uid, cid);
        if StoredEnrollment(s1, uid, cid).Some? {
          assert ProgressMatches(s1[EnrollmentKey(uid, cid)].enrollment);
        }
        if qid !in e.quizCompleted {
          var completed := e.quizCompleted + [qid];
          AppendFresh(e.quizCompleted, qid);
          WriteOtherKind(s1, EnrollmentKey(uid, cid),
                         EnrollmentRec(e.(quizCompleted := completed, progress := Min(100, 20 * |completed|))));
        }
      }
    }
  }

  /** Submitting the same passed quiz again leaves the enrollment as it was:
      the completed list and the progress do not grow twice. */
  lemma ResubmitLeavesProgress(store: Store, caller: Option<AuthUser>, req: SubmitRequest, now: nat)
    requires caller.Some? && SubmitFieldsPresent(req) && req.passed
    requires req.quizId.value in CompletedQuizzes(store, caller.value.id, req.courseId.value)
    ensures var o := SubmitOutcome(store, caller, req, now);
      CompletedQuizzes(o.store, caller.value.id, req.courseId.value)
        == CompletedQuizzes(store, caller.value.id, req.courseId.value)
      && StoredEnrollment(o.store, caller.value.id, req.courseId.value)
        == StoredEnrollment(store, caller.value.id, req.courseId.value)
  {
  }

  // ---------------------------------------------------------------------------
  // POST /newsletter/subscribe

  /** The subscribe handler: 400 for a missing email or one without '@', and
      400 without writing when the email already has a record; otherwise an
      active subscription is stored under the email. */
  function SubscribeOutcome(store: Store, email: Option<string>, now: int): (o: Outcome<string>)
    ensures o.reply.Fail? <==>
      !Present(email) || !Includes(email.value, "@") || NewsletterKey(email.value) in store
    ensures o.reply.Fail? ==> o.reply.status == 400 && o.store == store
    ensures o.reply.Ok? ==>
      && o.reply.value == email.value
      && o.store == store[NewsletterKey(email.value) := SubscriptionRec(Subscription(email.value, now, true))]
      && NewsletterKey(email.value) !in store
  {
    if !Present(email) || !Includes(email.value, "@") then Outcome(Fail(400, ValidEmailRequired), store)
    else if NewsletterKey(email.value) in store then Outcome(Fail(400, AlreadySubscribed), store)
    else
      Outcome(Ok(email.value),
              store[NewsletterKey(email.value) := SubscriptionRec(Subscription(email.value, now, true))])
  }

  /** Subscribing never changes a stored record, and subscribing the same
      email a second time is refused and writes nothing. */
  lemma SubscribeOnce(store: Store, email: Option<string>, now: int, later: int)
    ensures var o := SubscribeOutcome(store, email, now);
      && (forall k | k in store :: k in o.store && o.store[k] == store[k])
      && (o.reply.Ok? ==> SubscribeOutcome(o.store, email, later) == Outcome(Fail(400, AlreadySubscribed), o.store))
  {
  }

  /** An accepted email contains an '@' at some position. */
  lemma SubscribedEmailHasAt(store: Store, email: Option<string>, now: int)
    requires SubscribeOutcome(store, email, now).reply.Ok?
    ensures exists i :: 0 <= i < |email.value| && email.value[i] == '@'
  {
    IncludesSpec(email.value, "@");
    var i :| OccursAt(email.value, "@", i);
    assert email.value[i] == email.value[i..i + 1][0] == '@';
  }

  lemma SubscribePreservesInvariant(store: Store, email: Option<string>, now: int)
    requires StoreInvariant(store)
    ensures StoreInvariant(SubscribeOutcome(store, email, now).store)
  {
    if Present(email) && Includes(email.value, "@") && NewsletterKey(email.value) !in store {
      WriteOtherKind(store, NewsletterKey(email.value), SubscriptionRec(Subscription(email.value, now, true)));
    }
  }

  // ---------------------------------------------------------------------------
  // POST /contact/submit

  datatype ContactRequest = ContactRequest(
    name: Option<string>, email: Option<string>, subject: Option<string>, message: Option<string>)

  predicate ContactFieldsPresent(req: ContactRequest)
  {
    Present(req.name) && Present(req.email) && Present(req.subject) && Present(req.message)
  }

  /** The contact handler: 400 without writing unless all four fields are
      given; otherwise a new message is stored under a key made of the time
      and the email, and that key is returned. */
  function ContactOutcome(store: Store, req: ContactRequest, now: nat): (o: Outcome<string>)
    ensures o.reply.Fail? <==> !ContactFieldsPresent(req)
    ensures o.reply.Fail? ==> o.reply == Fail(400, AllFieldsRequired) && o.store == store
    ensures o.reply.Ok? ==>
      && o.reply.value == ContactKey(now, req.email.value)
      && o.store == store[o.reply.value := ContactRec(ContactMessage(req.name.value, req.email.value,
                            req.subject.value, req.message.value, now, "new"))]
  {
    if !ContactFieldsPresent(req) then Outcome(Fail(400, AllFieldsRequired), store)
    else
      var id := ContactKey(now, req.email.value);
      Outcome(Ok(id), store[id := ContactRec(ContactMessage(req.name.value, req.email.value,
                                    req.subject.value, req.message.value, now, "new"))])
  }

  lemma ContactPreservesInvariant(store: Store, req: ContactRequest, now: nat)
    requires StoreInvariant(store)
    ensures StoreInvariant(ContactOutcome(store, req, now).store)
  {
    if ContactFieldsPresent(req) {
      WriteOtherKind(store, ContactKey(now, req.email.value),
                     ContactRec(ContactMessage(req.name.value, req.email.value, req.subject.value,
                                               req.message.value, now, "new")));
    }
  }

  // ---------------------------------------------------------------------------
  // GET /courses/my-courses and GET /dashboard

  /** The enrollment records found for the given courses, in course order;
      courses without a record are skipped. */
  function EnrollmentsOf(store: Store, uid: string, courseIds: seq<string>): (es: seq<Enrollment>)
    ensures |es| <= |courseIds|
  {
    if courseIds == [] then []
    else
      var es := EnrollmentsOf(store, uid, courseIds[..|courseIds| - 1]);
      match StoredEnrollment(store, uid, courseIds[|courseIds| - 1])
      case Some(e) => es + [e]
      case None => es
  }

  /** Each gathered enrollment is the stored record of one of the courses, and
      every course with a stored record contributes it. */
  lemma {:induction false} EnrollmentsOfMembers(store: Store, uid: string, courseIds: seq<string>)
    ensures forall e | e in EnrollmentsOf(store, uid, courseIds) ::
      exists c | c in courseIds :: StoredEnrollment(store, uid, c) == Some(e)
    ensures forall c | c in courseIds && StoredEnrollment(store, uid, c).Some? ::
      StoredEnrollment(store, uid, c).value in EnrollmentsOf(store, uid, courseIds)
  {
    if courseIds != [] {
      var init := courseIds[..|courseIds| - 1];
      var c := courseIds[|courseIds| - 1];
      EnrollmentsOfMembers(store, uid, init);
      assert forall x | x in init :: x in courseIds;
      assert forall x | x in courseIds :: x in init || x == c;
    }
  }

  /** Gathering the enrollments of two course lists one after the other gives
      the two gatherings concatenated: records come out in course order. */
  lemma {:induction false} EnrollmentsOfAppend(store: Store, uid: string, a: seq<string>, b: seq<string>)
    ensures EnrollmentsOf(store, uid, a + b) == EnrollmentsOf(store, uid, a) + EnrollmentsOf(store, uid, b)
    decreases |b|
  {
    if b == [] {
      assert a + b == a;
    } else {
      var init, c := b[..|b| - 1], b[|b| - 1];
      EnrollmentsOfAppend(store, uid, a, init);
      var ab := a + b;
      assert ab[..|ab| - 1] == a + init && ab[|ab| - 1] == c;
      var tail := match StoredEnrollment(store, uid, c) case Some(e) => [e] case None => [];
      assert EnrollmentsOf(store, uid, ab) == EnrollmentsOf(store, uid, a + init) + tail;
      assert EnrollmentsOf(store, uid, b) == EnrollmentsOf(store, uid, init) + tail;
    }
  }

  /** When every course has an enrollment record, none is skipped and entry i
      is the record of course i. */
  lemma {:induction false} EnrollmentsOfResolved(store: Store, uid: string, courseIds: seq<string>)
    requires forall c | c in courseIds :: StoredEnrollment(store, uid, c).Some?
    ensures |EnrollmentsOf(store, uid, courseIds)| == |courseIds|
    ensures forall i | 0 <= i < |courseIds| ::
      EnrollmentsOf(store, uid, courseIds)[i] == StoredEnrollment(store, uid, courseIds[i]).value
  {
    if courseIds != [] {
      var init := courseIds[..|courseIds| - 1];
      var last := courseIds[|courseIds| - 1];
      assert forall c | c in init :: c in courseIds;
      EnrollmentsOfResolved(store, uid, init);
      assert last in courseIds;
      var prefix := EnrollmentsOf(store, uid, init);
      var es := EnrollmentsOf(store, uid, courseIds);
      assert es == prefix + [StoredEnrollment(store, uid, last).value];
      assert |es| == |courseIds|;
      forall i | 0 <= i < |courseIds| ensures es[i] == StoredEnrollment(store, uid, courseIds[i]).value {
        if i < |init| {
          assert es[i] == prefix[i];
          assert init[i] == courseIds[i];
        }
      }
    }
  }

  /** The quiz results found for the given ids, in order; ids without a result
      are skipped. */
  function ResultsOf(store: Store, ids: seq<string>): (rs: seq<QuizResult>)
    ensures |rs| <= |ids|
  {
    if ids == [] then []
    else
      var rs := ResultsOf(store, ids[..|ids| - 1]);
      var id := ids[|ids| - 1];
      if id in store && store[id].QuizResultRec? then rs + [store[id].result] else rs
  }

  /** Each gathered result is the stored record of one of the ids, and every
      id naming a stored result contributes it. */
  lemma {:induction false} ResultsOfMembers(store: Store, ids: seq<string>)
    ensures forall r | r in ResultsOf(store, ids) :: exists id | id in ids :: id in store && store[id] == QuizResultRec(r)
    ensures forall id | id in ids && id in store && store[id].QuizResultRec? :: store[id].result in ResultsOf(store, ids)
  {
    if ids != [] {
      var init := ids[..|ids| - 1];
      var id := ids[|ids| - 1];
      ResultsOfMembers(store, init);
      assert forall x | x in init :: x in ids;
      assert forall x | x in ids :: x in init || x == id;
    }
  }

  /** Gathering the results of two id lists one after the other gives the two
      gatherings concatenated: results come out in id order. */
  lemma {:induction false} ResultsOfAppend(store: Store, a: seq<string>, b: seq<string>)
    ensures ResultsOf(store, a + b) == ResultsOf(store, a) + ResultsOf(store, b)
    decreases |b|
  {
    if b == [] {
      assert a + b == a;
    } else {
      var init, id := b[..|b| - 1], b[|b| - 1];
      ResultsOfAppend(store, a, init);
      var ab := a + b;
      assert ab[..|ab| - 1] == a + init && ab[|ab| - 1] == id;
      var tail := if id in store && store[id].QuizResultRec? then [store[id].result] else [];
      assert ResultsOf(store, ab) == ResultsOf(store, a + init) + tail;
      assert ResultsOf(store, b) == ResultsOf(store, init) + tail;
    }
  }

  /** When every id resolves, nothing is skipped and entry i is the stored
      result of id i. */
  lemma {:induction false} ResultsOfResolved(store: Store, ids: seq<string>)
    requires forall id | id in ids :: id in store && store[id].QuizResultRec?
    ensures |ResultsOf(store, ids)| == |ids|
    ensures forall i | 0 <= i < |ids| :: ResultsOf(store, ids)[i] == store[ids[i]].result
  {
    if ids != [] {
      var init := ids[..|ids| - 1];
      var last := ids[|ids| - 1];
      assert forall id | id in init :: id in ids;
      ResultsOfResolved(store, init);
      assert last in ids;
      var rs := ResultsOf(store, ids);
      assert rs == ResultsOf(store, init) + [store[last].result];
      forall i | 0 <= i < |ids| ensures rs[i] == store[ids[i]].result {
        if i < |init| {
          assert init[i] == ids[i];
        }
      }
    }
  }

  /** `slice(-n)` for a positive n: the last n elements, or all of them when
      there are fewer. (`slice(-0)` would be the whole list.) */
  function LastN<T>(xs: seq<T>, n: nat): (r: seq<T>)
    requires n > 0
    ensures |r| == Min(n, |xs|)
    ensures r == xs[|xs| - |r|..]
  {
    if |xs| <= n then xs else xs[|xs| - n..]
  }

  /** `filter(r => r.passed).length`: 0 exactly when nothing passed, all of
      them exactly when everything passed. */
  function CountPassed(rs: seq<QuizResult>): (n: nat)
    ensures n <= |rs|
    ensures n == 0 <==> forall i | 0 <= i < |rs| :: !rs[i].passed
    ensures n == |rs| <==> forall i | 0 <= i < |rs| :: rs[i].passed
  {
    if rs == [] then 0
    else
      var init := rs[..|rs| - 1];
      assert forall i | 0 <= i < |init| :: init[i] == rs[i];
      CountPassed(init) + (if rs[|rs| - 1].passed then 1 else 0)
  }

  /** The passed count of two lists together is the sum of their counts. */
  lemma {:induction false} CountPassedAppend(a: seq<QuizResult>, b: seq<QuizResult>)
    ensures CountPassed(a + b) == CountPassed(a) + CountPassed(b)
    decreases |b|
  {
    if b == [] {
      assert a + b == a;
    } else {
      var init := b[..|b| - 1];
      CountPassedAppend(a, init);
      assert (a + b)[..|a + b| - 1] == a + init;
      assert (a + b)[|a + b| - 1] == b[|b| - 1];
    }
  }

  function SumScores(rs: seq<QuizResult>): int
  {
    if rs == [] then 0 else SumScores(rs[..|rs| - 1]) + rs[|rs| - 1].score
  }

  /** The sum of scores lies between n times the lowest and n times the highest. */
  lemma {:induction false} SumScoresBounds(rs: seq<QuizResult>, lo: int, hi: int)
    requires forall r | r in rs :: lo <= r.score <= hi
    ensures |rs| * lo <= SumScores(rs) <= |rs| * hi
  {
    if rs != [] {
      var init := rs[..|rs| - 1];
      assert forall r | r in init :: r in rs;
      SumScoresBounds(init, lo, hi);
      assert rs[|rs| - 1] in rs;
      SuccTimes(|init|, lo);
      SuccTimes(|init|, hi);
    }
  }

  lemma SuccTimes(n: nat, x: int)
    ensures (n + 1) * x == n * x + x
  {
  }

  datatype Stats = Stats(totalCourses: nat, completedQuizzes: nat, averageScore: int)

  /** The dashboard's statistics: the number of enrollments, the number of
      passed results, and the rounded mean score, or 0 without results. */
  function StatsOf(es: seq<Enrollment>, rs: seq<QuizResult>): (s: Stats)
    ensures s.totalCourses == |es|
    ensures s.completedQuizzes == CountPassed(rs)
    ensures s.completedQuizzes <= |rs|
    ensures s.completedQuizzes == 0 <==> forall i | 0 <= i < |rs| :: !rs[i].passed
    ensures s.completedQuizzes == |rs| <==> forall i | 0 <= i < |rs| :: rs[i].passed
    ensures rs == [] ==> s.averageScore == 0
    ensures rs != [] ==>
      2 * (|rs| * s.averageScore) - |rs| <= 2 * SumScores(rs) < 2 * (|rs| * s.averageScore) + |rs|
  {
    Stats(|es|, CountPassed(rs), if |rs| > 0 then RoundQuotient(SumScores(rs), |rs|) else 0)
  }

  /** With every score between 0 and 100, so is the average. */
  lemma AverageScoreBounded(es: seq<Enrollment>, rs: seq<QuizResult>)
    requires forall r | r in rs :: 0 <= r.score <= 100
    ensures 0 <= StatsOf(es, rs).averageScore <= 100
  {
    if rs != [] {
      SumScoresBounds(rs, 0, 100);
      RoundQuotientBounds(SumScores(rs), |rs|, 0, 100);
    }
  }

  datatype DashboardUser = DashboardUser(id: string, email: string, name: string, role: string)

  datatype DashboardData = DashboardData(
    user: DashboardUser, enrollments: seq<Enrollment>, recentQuizResults: seq<QuizResult>, stats: Stats)

  /** The user part of the dashboard: stored name and role first, then the
      token's metadata, then the defaults. */
  function DashboardUserOf(store: Store, caller: AuthUser): (d: DashboardUser)
    ensures d.id == caller.id && d.email == caller.email
    ensures Present(UserOrEmpty(store, caller.id).name) ==> Some(d.name) == UserOrEmpty(store, caller.id).name
    ensures !Present(UserOrEmpty(store, caller.id).name) && Present(caller.metaName) ==> Some(d.name) == caller.metaName
    ensures !Present(UserOrEmpty(store, caller.id).name) && !Present(caller.metaName) ==> d.name == ""
    ensures Present(UserOrEmpty(store, caller.id).role) ==> Some(d.role) == UserOrEmpty(store, caller.id).role
    ensures !Present(UserOrEmpty(store, caller.id).role) && Present(caller.metaRole) ==> Some(d.role) == caller.metaRole
    ensures !Present(UserOrEmpty(store, caller.id).role) && !Present(caller.metaRole) ==> d.role == "student"
    ensures d.role != ""
  {
    var u := UserOrEmpty(store, caller.id);
    DashboardUser(caller.id, caller.email,
                  OrElse(u.name, OrElse(caller.metaName, "")),
                  OrElse(u.role, OrElse(caller.metaRole, "student")))
  }

  /** The dashboard's counts: at most five recent results, exactly the last
      five (or all, when fewer) once the store invariant holds; no more passed
      results than recent ones; no more enrollments than enrolled courses. */
  lemma DashboardBounds(store: Store, uid: string)
    requires StoreInvariant(store)
    ensures var recent := ResultsOf(store, LastN(ResultIds(store, uid), 5));
      var s := StatsOf(EnrollmentsOf(store, uid, EnrolledCourses(store, uid)), recent);
      && |recent| == Min(5, |ResultIds(store, uid)|)
      && s.completedQuizzes <= |recent| <= 5
      && s.totalCourses <= |EnrolledCourses(store, uid)|
  {
    StoredResultsResolve(store, uid);
    var ids := ResultIds(store, uid);
    var last := LastN(ids, 5);
    assert forall id | id in last :: id in ids;
    ResultsOfResolved(store, last);
  }

  /** Once the store invariant holds, the dashboard's recent results are the
      stored records of the user's last five result ids, in the same order. */
  lemma DashboardRecentResults(store: Store, uid: string)
    requires StoreInvariant(store)
    ensures var last := LastN(ResultIds(store, uid), 5);
      && |ResultsOf(store, last)| == |last|
      && forall i | 0 <= i < |last| :: ResultsOf(store, last)[i] == store[last[i]].result
  {
    StoredResultsResolve(store, uid);
    var ids := ResultIds(store, uid);
    var last := LastN(ids, 5);
    assert forall id | id in last :: id in ids;
    ResultsOfResolved(store, last);
  }

  // ---------------------------------------------------------------------------
  // The server

  class KvServer {
    var store: Store

    ghost predicate Valid()
      reads this
    {
      StoreInvariant(store)
    }

    constructor ()
      ensures Valid() && store == map[]
    {
      store := map[];
    }

    method Register(req: RegisterRequest, auth: AuthOutcome, now: int) returns (r: Reply<Registered>)
      requires Valid()
      modifies this
      ensures Valid()
      ensures Outcome(r, store) == RegisterOutcome(old(store), req, auth, now)
    {
      RegisterPreservesInvariant(store, req, auth, now);
      if !Present(req.email) || !Present(req.password) || !Present(req.name) {
        return Fail(400, FieldsRequired);
      }
      if auth.Refused? {
        return Fail(400, auth.message);
      }
      var role := RoleOf(req);
      var user := UserData(Some(auth.id), req.email, req.name, Some(role), Some(now), [], [], map[]);
      store := store[UserKey(auth.id) := UserRec(user)];
      r := Ok(Registered(auth.id, req.email.value, req.name.value, role));
    }

    method Enroll(header: Option<string>, sessions: map<string, AuthUser>, courseId: Option<string>, now: int)
      returns (r: Reply<Enrollment>)
      requires Valid()
      modifies this
      ensures Valid()
      ensures Outcome(r, store) == EnrollOutcome(old(store), Authenticate(header, sessions), courseId, now)
    {
      var caller := Authenticate(header, sessions);
      EnrollPreservesInvariant(store, caller, courseId, now);
      if caller.None? {
        return Fail(401, Unauthorized);
      }
      if !Present(courseId) {
        return Fail(400, CourseIdRequired);
      }
      var uid, cid := caller.value.id, courseId.value;
      var userData := UserOrDefault(store, caller.value);
      if cid in userData.enrolledCourses {
        return Fail(400, AlreadyEnrolled);
      }
      userData := userData.(enrolledCourses := userData.enrolledCourses + [cid]);
      userData := userData.(enrollmentDate := userData.enrollmentDate[cid := now]);
      store := store[UserKey(uid) := UserRec(userData)];
      var enrollment := Enrollment(Some(uid), Some(cid), Some(now), 0, []);
      store := store[EnrollmentKey(uid, cid) := EnrollmentRec(enrollment)];
      r := Ok(enrollment);
    }

    /** The enrollment records of the given courses, gathered one course at a time. */
    method CollectEnrollments(uid: string, courseIds: seq<string>) returns (es: seq<Enrollment>)
      ensures es == EnrollmentsOf(store, uid, courseIds)
    {
      es := [];
      var i := 0;
      while i < |courseIds|
        invariant 0 <= i <= |courseIds|
        invariant es == EnrollmentsOf(store, uid, courseIds[..i])
      {
        var k := EnrollmentKey(uid, courseIds[i]);
        if k in store && store[k].EnrollmentRec? {
          es := es + [store[k].enrollment];
        }
        assert courseIds[..i + 1][..i] == courseIds[..i];
        i := i + 1;
      }
      assert courseIds[..i] == courseIds;
    }

    /** The records of the given result ids, gathered one id at a time. */
    method CollectResults(ids: seq<string>) returns (rs: seq<QuizResult>)
      ensures rs == ResultsOf(store, ids)
    {
      rs := [];
      var i := 0;
      while i < |ids|
        invariant 0 <= i <= |ids|
        invariant rs == ResultsOf(store, ids[..i])
      {
        var id := ids[i];
        if id in store && store[id].QuizResultRec? {
          rs := rs + [store[id].result];
        }
        assert ids[..i + 1][..i] == ids[..i];
        i := i + 1;
      }
      assert ids[..i] == ids;
    }

    /** GET /courses/my-courses: the caller's enrollment records, in the order
        of the course list. */
    method MyCourses(header: Option<string>, sessions: map<string, AuthUser>) returns (r: Reply<seq<Enrollment>>)
      ensures Authenticate(header, sessions).None? ==> r == Fail(401, Unauthorized)
      ensures Authenticate(header, sessions).Some? ==>
        var uid := Authenticate(header, sessions).value.id;
        r == Ok(EnrollmentsOf(store, uid, EnrolledCourses(store, uid)))
    {
      var caller := Authenticate(header, sessions);
      if caller.None? {
        return Fail(401, Unauthorized);
      }
      var enrolled := EnrolledCourses(store, caller.value.id);
      var enrollments := CollectEnrollments(caller.value.id, enrolled);
      r := Ok(enrollments);
    }

    method SubmitQuiz(header: Option<string>, sessions: map<string, AuthUser>, req: SubmitRequest, now: nat)
      returns (r: Reply<Submitted>)
      requires Valid()
      modifies this
      ensures Valid()
      ensures Outcome(r, store) == SubmitOutcome(old(store), Authenticate(header, sessions), req, now)
    {
      var caller := Authenticate(header, sessions);
      SubmitPreservesInvariant(store, caller, req, now);
      if caller.None? {
        return Fail(401, Unauthorized);
      }
      if !Present(req.courseId) || !Present(req.quizId) || req.answers.None? || req.score.None? {
        return Fail(400, MissingQuizData);
      }
      var uid, cid, qid := caller.value.id, req.courseId.value, req.quizId.value;
      var result := QuizResult(uid, cid, qid, req.answers.value, req.score.value, req.passed,
                               req.timeSpent, req.totalQuestions, now);
      var resultId := ResultKey(uid, cid, qid, now);
      store := store[resultId := QuizResultRec(result)];

      assert UserKey(uid) != resultId && EnrollmentKey(uid, cid) != resultId && EnrollmentKey(uid, cid) != UserKey(uid);
      assert UserOrEmpty(store, uid) == UserOrEmpty(old(store), uid);
      var userData := UserOrEmpty(store, uid);
      userData := userData.(quizResults := userData.quizResults + [resultId]);
      store := store[UserKey(uid) := UserRec(userData)];

      if req.passed {
        var enrollmentKey := EnrollmentKey(uid, cid);
        var enrollment := EnrollmentOrEmpty(store, uid, cid);
        if qid !in enrollment.quizCompleted {
          enrollment := enrollment.(quizCompleted := enrollment.quizCompleted + [qid]);
          enrollment := enrollment.(progress := Min(100, 20 * |enrollment.quizCompleted|));
          store := store[enrollmentKey := EnrollmentRec(enrollment)];
        }
      }
      r := Ok(Submitted(result, resultId));
    }

    method Subscribe(email: Option<string>, now: int) returns (r: Reply<string>)
      requires Valid()
      modifies this
      ensures Valid()
      ensures Outcome(r, store) == SubscribeOutcome(old(store), email, now)
    {
      SubscribePreservesInvariant(store, email, now);
      if !Present(email) || !Includes(email.value, "@") {
        return Fail(400, ValidEmailRequired);
      }
      var key := NewsletterKey(email.value);
      if key in store {
        return Fail(400, AlreadySubscribed);
      }
      store := store[key := SubscriptionRec(Subscription(email.value, now, true))];
      r := Ok(email.value);
    }

    method Contact(req: ContactRequest, now: nat) returns (r: Reply<string>)
      requires Valid()
      modifies this
      ensures Valid()
      ensures Outcome(r, store) == ContactOutcome(old(store), req, now)
    {
      ContactPreservesInvariant(store, req, now);
      if !Present(req.name) || !Present(req.email) || !Present(req.subject) || !Present(req.message) {
        return Fail(400, AllFieldsRequired);
      }
      var submissionId := ContactKey(now, req.email.value);
      store := store[submissionId := ContactRec(ContactMessage(req.name.value, req.email.value,
                                      req.subject.value, req.message.value, now, "new"))];
      r := Ok(submissionId);
    }

    /** GET /dashboard: the caller's profile, enrollments, last five results and
        statistics over them. */
    method Dashboard(header: Option<string>, sessions: map<string, AuthUser>) returns (r: Reply<DashboardData>)
      ensures Authenticate(header, sessions).None? ==> r == Fail(401, Unauthorized)
      ensures Authenticate(header, sessions).Some? ==>
        var caller := Authenticate(header, sessions).value;
        var es := EnrollmentsOf(store, caller.id, EnrolledCourses(store, caller.id));
        var recent := ResultsOf(store, LastN(ResultIds(store, caller.id), 5));
        r == Ok(DashboardData(DashboardUserOf(store, caller), es, recent, StatsOf(es, recent)))
    {
      var caller := Authenticate(header, sessions);
      if caller.None? {
        return Fail(401, Unauthorized);
      }
      var userData := UserOrEmpty(store, caller.value.id);
      var enrollments := CollectEnrollments(caller.value.id, userData.enrolledCourses);
      var quizResults := CollectResults(LastN(userData.quizResults, 5));
      r := Ok(DashboardData(DashboardUserOf(store, caller.value), enrollments, quizResults,
                            StatsOf(enrollments, quizResults)));
    }
  }
}
