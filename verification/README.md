# Quiz app: access control and validation layer, modelled in Dafny

This project models the request-level decision rules of a quiz-administration
web application (Next.js route handlers over a Prisma database, NextAuth for
sign-in). Teachers and students each sign up, sign in through their own
credentials provider, and reach pages guarded by a path-prefix middleware.
Teachers create quizzes and add questions to their own quizzes. Students list
the published quizzes, split into available, upcoming and completed.

Every handler is a pure function over plain records:

- the database is an abstract `Store`. Teachers and students are maps keyed
  by e-mail address. Quizzes, questions and attempts are sequences in insertion order;
- every handler answers with a `Reply`: a value, or a `HandlerError` whose
  `StatusCode` is 401, 400 or 404. A handler that writes (sign-up, quiz and
  question creation) returns an `Outcome`, which is the `Reply` together with
  the store it leaves behind. The two listing handlers only read, so they
  return the bare `Reply`;
- the signed-in user is an `Option<Caller>` with an id and a possibly missing role;
- values that the environment supplies are parameters. These are the clock
  (`now`), the id the database gives a new row (`newId`), password hashing
  (`hash`) and hash comparison (`matches`).

Modules: `Values` (missing values, JavaScript truthiness, string prefixes),
`Records` (entities and the store), `Middleware`, `Auth`, `Register`,
`TeacherQuizzes`, `TeacherQuestions`, `StudentQuizzes`, and `Flows`, which
holds properties that span several files.

Three facts about the code shape the model:

- The question handler never reads the quiz's status.
  `TeacherQuestions.AddQuestionIgnoresStatus` proves that the reply is the
  same for draft and published quizzes.
- The handlers compare the role against string literals, so the model keeps
  the role an arbitrary, possibly missing string.
- The guard in `middleware.ts` compares raw prefixes, so its function treats
  "/teachers" as a teacher page. The exported `config.matcher`, however, only
  runs the middleware on "/teacher", "/teacher/…", "/student" and "/student/…".
  `Middleware.Decide` models the function and `Middleware.Handle` models the
  function behind the matcher. Both readings are proved.

## Model

| member | source | states |
|---|---|---|
| `Middleware.Decide` | middleware.ts:5-35 | Public pages always pass. A non-public path with the raw prefix "/teacher" passes exactly when the token's role is "teacher", and otherwise redirects to "/teacher/login". Paths with the prefix "/student" behave the same way with "student" and "/student/auth". Every other path passes. |
| `Middleware.NoRedirectLoop` | middleware.ts:10-18 | Every redirect target is a public page, so following a redirect passes whatever the token is. |
| `Middleware.RegisterClauseRedundant` | middleware.ts:14-15 | The "/api/auth/register" public-path clause is implied by the "/api/auth" clause, so removing it changes no decision. |
| `Middleware.GuardIsRawPrefix` | middleware.ts:21-32 | "/teachers" is guarded as a teacher page and "/studentship" as a student page, because the guard is a character prefix and not a path segment. |
| `Middleware.Handle` | middleware.ts:37-39 | A path outside the matcher always passes. A path the matcher selects gets the guard's decision, so every redirect is the guard's own. |
| `Middleware.MatchedPagesAreGuarded` | middleware.ts:21-39 | Every non-public path the matcher selects lies in exactly one of the teacher and student areas. It passes exactly when the token carries that area's role, and otherwise redirects to that area's sign-in page. |
| `Middleware.MatchedPublicPathsAreSignInPages` | middleware.ts:10-18 | On the paths the matcher selects, only the two sign-in pages are public. The "/" and "/api/auth" clauses never fire there. |
| `Middleware.MatcherShieldsRawPrefixPaths` | middleware.ts:21-25 | The guard alone would redirect a token-less "/teachers" request, but that request passes once the matcher is applied. |
| `Middleware.RawPrefixOutsideMatcher` | middleware.ts:21-39 | Every path with the raw prefix "/teacher" or "/student" that the matcher does not select is redirected by the guard alone when there is no token, yet passes the middleware with any token. |
| `Auth.Authorize` | lib/auth.ts:15-48 | Checks run in a fixed order: a missing form, address or password fails with MissingCredentials, then an address absent from the provider's table fails with AccountNotFound, then a password that does not match fails with InvalidPassword. Success returns the stored account's id, address and name, with the provider's fixed role. |
| `Auth.AuthorizeSucceedsIff` | lib/auth.ts:15-90 | Sign-in succeeds exactly when every field is present, the address is in the provider's own table and the password matches that account's hash. |
| `Auth.MissingCredentialsIgnoreStore` | lib/auth.ts:19-21 | A form with a missing field gets the same failure whatever the store holds: it is rejected before any lookup. |
| `Auth.Jwt` | lib/auth.ts:94-100 | With no user, the token is unchanged. With a user, it gets that user's role and id and keeps its other claims. |
| `Auth.JwtIdempotent` | lib/auth.ts:94-100 | Running the callback again at sign-in, or on a later request with no user, leaves the token that sign-in produced. |
| `Auth.SessionCallback` | lib/auth.ts:101-107 | When the session has a user, that user's role and id become the token's and the name, address and expiry are kept. With no user, the session is unchanged. |
| `Register.RegisterStudent` | app/api/auth/register/student/route.ts:5-38 | A missing name, address or password gives 400 MissingFields and an unchanged store. A present address that is already registered gives 400 EmailExists and an unchanged store. Otherwise exactly one student is added under that address, with the hashed password and a falsy roll number stored as null, and the reply is the new id. Nothing else in the store changes. |
| `Register.RegisterTeacher` | app/api/auth/register/teacher/route.ts:5-34 | The same rules as for students, for the teacher table: 400 for missing fields, 400 for a duplicate address, otherwise exactly one teacher added with the hashed password, the new id returned, and the rest of the store unchanged. |
| `Register.StoredRollNoIsTruthyOrNull` | app/api/auth/register/student/route.ts:28 | A stored roll number is either null or non-empty, and a truthy one is stored unchanged. |
| `Register.StudentValidationPrecedesLookup` | app/api/auth/register/student/route.ts:12-16 | For a student body with a missing field, the handler gives the same reply whatever the store holds: the store is not consulted. |
| `Register.TeacherValidationPrecedesLookup` | app/api/auth/register/teacher/route.ts:10-14 | For a teacher body with a missing field, the handler gives the same reply whatever the store holds: the store is not consulted. |
| `Register.RegisterStudentPreservesWellFormed` | app/api/auth/register/student/route.ts:16-30 | Sign-up keeps every account under its own address, so addresses stay unique. Given a fresh id from the database, it also keeps student ids distinct. |
| `Register.RegisterTeacherPreservesWellFormed` | app/api/auth/register/teacher/route.ts:14-27 | Teacher sign-up keeps addresses unique and, with a fresh id, teacher ids distinct. |
| `Register.SecondSignUpRefused` | app/api/auth/register/teacher/route.ts:14-17 | Signing up again with an address that has just been registered is refused with EmailExists and changes nothing. |
| `TeacherQuizzes.CreateQuiz` | app/api/teacher/quizzes/route.ts:6-34 | A caller without a session or without the teacher role gets 401 and nothing is created. Otherwise exactly one quiz is appended with the requested id. Its owner is the caller. `maxAttempts` is stored as 1 when falsy and unchanged otherwise. Each shuffle flag is true only when the body sets it true. The quiz is a draft with no start time, created at `now`. |
| `TeacherQuizzes.BodyTeacherIdIgnored` | app/api/teacher/quizzes/route.ts:15-25 | A `teacherId` in the request body never affects the result: the owner always comes from the session. |
| `TeacherQuizzes.StoredMaxAttemptsNonZero` | app/api/teacher/quizzes/route.ts:22 | A created quiz never stores `maxAttempts` = 0. |
| `TeacherQuizzes.CreateQuizPreservesWellFormed` | app/api/teacher/quizzes/route.ts:17-27 | Given a fresh id, creating a quiz keeps quiz ids distinct. |
| `TeacherQuizzes.OwnedBy` | app/api/teacher/quizzes/route.ts:44-47 | The result holds exactly the quizzes of the table whose teacher is the given id, each as often as it is stored. |
| `TeacherQuizzes.SortNewestFirst` | app/api/teacher/quizzes/route.ts:53-55 | The result is ordered by creation time, newest first, and is a permutation of the input. |
| `TeacherQuizzes.ListQuizzes` | app/api/teacher/quizzes/route.ts:36-63 | A non-teacher gets 401. A teacher gets exactly their own quizzes, each as often as stored, newest first, each with its question and attempt counts. |
| `TeacherQuestions.FindQuiz` | app/api/teacher/questions/route.ts:17 | The lookup returns a stored quiz with the requested id, or nothing exactly when no stored quiz has that id. |
| `TeacherQuestions.AddQuestion` | app/api/teacher/questions/route.ts:6-40 | A non-teacher gets 401. A missing quiz and a quiz owned by someone else both get 404. No error changes the store. Success happens exactly for a teacher who owns the quiz. It appends exactly one question with the requested quiz id, text, image and the supplied options, and changes nothing else. |
| `TeacherQuestions.OwnsQuizIff` | app/api/teacher/questions/route.ts:17-21 | When quiz ids are distinct, the ownership test holds exactly when some stored quiz has the requested id and the caller as its teacher. |
| `TeacherQuestions.MissingAndForeignQuizLookAlike` | app/api/teacher/questions/route.ts:19-21 | A missing quiz and another teacher's quiz give the same 404 reply, so the reply does not reveal whether the quiz exists. |
| `TeacherQuestions.AddQuestionIgnoresStatus` | app/api/teacher/questions/route.ts:17-23 | Changing every quiz's status changes no reply: the decision depends only on role and ownership. |
| `TeacherQuestions.AddQuestionPreservesWellFormed` | app/api/teacher/questions/route.ts:23-33 | Given a fresh id, adding a question keeps question ids distinct. |
| `StudentQuizzes.AttemptsOf` | app/api/student/quizzes/route.ts:23-26 | The result holds exactly the attempts at the given quiz by the given student, each as often as it is stored. |
| `StudentQuizzes.Fetch` | app/api/student/quizzes/route.ts:16-28 | The fetched list holds exactly the published quizzes, each paired with the caller's own attempts at it, and each appears as often as it is stored. |
| `StudentQuizzes.Select` | app/api/student/quizzes/route.ts:31-35 | A category holds exactly the fetched quizzes that meet its criterion, each as often as it was fetched. |
| `StudentQuizzes.ListForStudent` | app/api/student/quizzes/route.ts:6-42 | A caller who is not a student gets 401 and no categories. A student gets "available" (no start time, or a start time at or before `now`), "upcoming" (a start time after `now`) and "completed" (some attempt of theirs has a completion time), each drawn from the published quizzes. "Available" and "upcoming" split the fetched list exactly, counted with multiplicity, and every category keeps the fetched order. |
| `StudentQuizzes.SelectKeepsOrder` | app/api/student/quizzes/route.ts:31-35 | Each category is a subsequence of the fetched list, so the fetched order is preserved. |
| `StudentQuizzes.AvailableUpcomingPartition` | app/api/student/quizzes/route.ts:32-33 | For one `now`, "available" and "upcoming" together are exactly the fetched list, counted with multiplicity, and each listed quiz is in exactly one of them. |
| `StudentQuizzes.PublishedOnlyAndUnscheduledAvailable` | app/api/student/quizzes/route.ts:16-19 | Only published quizzes appear in any category, and a quiz without a start time is always available. |
| `StudentQuizzes.CompletedIff` | app/api/student/quizzes/route.ts:23-34 | A quiz is listed as completed exactly when it is published and the calling student has an attempt at it with a completion time. |
| `StudentQuizzes.CompletedCanOverlapAvailable` | app/api/student/quizzes/route.ts:32-34 | Completion does not look at the start time, so there is a store in which one quiz is both available and completed. |
| `Flows.SignUpThenSignInTeacher` | app/api/auth/register/teacher/route.ts:19-29 | After a successful teacher sign-up, signing in with the same address and password returns the new id with the role "teacher". This assumes the hash comparison accepts a password against its own hash. |
| `Flows.SignUpThenSignInStudent` | app/api/auth/register/student/route.ts:21-33 | After a successful student sign-up, signing in with the same address and password returns the new id with the role "student". This assumes the hash comparison accepts a password against its own hash. |
| `Flows.StudentCannotUseTeacherProvider` | lib/auth.ts:23-29 | An address that exists only in the student table fails through the teacher provider with AccountNotFound. |
| `Flows.SignedInTokenMatchesItsArea` | lib/auth.ts:38-43 | A token minted at a teacher sign-in passes every guarded "/teacher" path and is redirected from every guarded "/student" path. A student sign-in gives the reverse. |
| `Flows.SessionCarriesSignInIdentity` | lib/auth.ts:94-107 | After a sign-in through either provider, the session carries the account's id and the provider's role. With that identity, quiz creation succeeds exactly for a teacher and the student listing exactly for a student. |

## Left out

- Quiz attempts, grading, publishing and shuffling. Their handlers are not part of this model.
- Password hashing and comparison are the parameters `hash` and `matches`. The salt and cost of the hash are not modelled.
- Decoding the session token from the request and reading the server-side session are not modelled. The middleware receives the decoded token and the handlers receive the caller.
- Route handlers take the caller as `Caller(id, role)` with the id always present. A session user without an id is not modelled. The callbacks give every signed-in user an id (`Flows.SessionCarriesSignInIdentity`).
- The database is an abstract store. Ids chosen by the database and creation times are parameters, and the preservation lemmas assume fresh ids. Query semantics are not modelled. For example, a filter on an undefined field is not modelled.
- TeacherQuizzes.CreateQuiz: the handler does not set `status` or `startAt`. The model gives a new quiz the schema's defaults, a draft with no start time. The schema file is not part of this model.
- Every database failure, thrown exception and 500 reply is left out. This includes a body that is not JSON and a missing required column such as the quiz title. The create handlers store what they are given.
- Body fields are modelled with their intended JSON types: strings, integers and booleans. JavaScript truthiness is modelled for those types only: a missing value and "" are falsy for strings, a missing value and 0 for numbers, a missing value and false for booleans. Other types (NaN, a string for a flag) are not modelled.
- A question's options are stored as the list supplied. The nested rows created from that list, with their ids, are not modelled. A missing options list is not modelled.
- The student listing's joined teacher name and question count are left out. They are presentation data and no decision reads them.
- Among quizzes with equal creation times, the teacher listing's order is one fixed choice. The database leaves that order unspecified.
- Prisma returns the student listing in an unspecified order. The model uses table order, and the order-preservation property is stated relative to the fetched list.
- The race between the duplicate-address check and the insert, and any concurrency between requests, are left out. Handlers are atomic functions.
- Logging, response bodies beyond the reply value, React pages and UI components are left out.
