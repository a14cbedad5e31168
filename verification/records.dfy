/** The records the route handlers read and write, and the abstract store
    that stands in for the database. The `teacher` and `student` tables are
    maps keyed by e-mail address (the column the handlers look accounts up
    by); quizzes, questions and attempts are kept in insertion order. */
module Records {
  import opened Values

  const TeacherRole := "teacher"
  const StudentRole := "student"

  datatype Teacher = Teacher(id: string, name: string, email: string, password: string)

  datatype Student = Student(id: string, name: string, email: string, password: string, rollNo: Option<string>)

  datatype QuizStatus = Draft | Published

  /** A quiz row. Timestamps (`startAt`, `createdAt`) are integers. */
  datatype Quiz = Quiz(
    id: string,
    teacherId: string,
    title: Option<string>,
    description: Option<string>,
    timeLimit: Option<int>,
    maxAttempts: int,
    shuffleQuestions: bool,
    shuffleOptions: bool,
    status: QuizStatus,
    startAt: Option<int>,
    createdAt: int)

  /** An answer option of a question, as supplied when the question is created. */
  datatype Choice = Choice(text: string, isCorrect: bool)

  datatype Question = Question(id: string, quizId: string, text: Option<string>, imageUrl: Option<string>, options: seq<Choice>)

  datatype Attempt = Attempt(id: string, quizId: string, studentId: string, startedAt: int, score: Option<int>, completedAt: Option<int>)

  datatype Store = Store(
    teachers: map<string, Teacher>,
    students: map<string, Student>,
    quizzes: seq<Quiz>,
    questions: seq<Question>,
    attempts: seq<Attempt>)

  /** The signed-in user a route handler reads from its session: the id and
      the (possibly missing) role the session callback copied from the token. */
  datatype Caller = Caller(id: string, role: Option<string>)

  /** `!session || session.user.role !== role` is false. */
  predicate HasRole(caller: Option<Caller>, role: string) {
    caller.Some? && caller.value.role == Some(role)
  }

  /** The error replies of the modelled handlers. */
  datatype HandlerError = Unauthorized | MissingFields | EmailExists | QuizNotFound

  function StatusCode(f: HandlerError): int {
    match f
    case Unauthorized => 401
    case MissingFields => 400
    case EmailExists => 400
    case QuizNotFound => 404
  }

  datatype Reply<+T> = Ok(value: T) | Err(failure: HandlerError)

  /** What a handler answers together with the store it leaves behind. */
  datatype Outcome<+T> = Outcome(reply: Reply<T>, store: Store)

  /** Every account sits under its own e-mail address. */
  ghost predicate TeachersKeyedByEmail(m: map<string, Teacher>) {
    forall e :: e in m ==> m[e].email == e
  }

  ghost predicate StudentsKeyedByEmail(m: map<string, Student>) {
    forall e :: e in m ==> m[e].email == e
  }

  ghost predicate TeacherIdsDistinct(m: map<string, Teacher>) {
    forall e, f :: e in m && f in m && e != f ==> m[e].id != m[f].id
  }

  ghost predicate StudentIdsDistinct(m: map<string, Student>) {
    forall e, f :: e in m && f in m && e != f ==> m[e].id != m[f].id
  }

  ghost predicate QuizIdsDistinct(qs: seq<Quiz>) {
    forall i, j :: 0 <= i < j < |qs| ==> qs[i].id != qs[j].id
  }

  ghost predicate QuestionIdsDistinct(qs: seq<Question>) {
    forall i, j :: 0 <= i < j < |qs| ==> qs[i].id != qs[j].id
  }

  /** The uniqueness constraints of the database: one account per e-mail
      address in each table, and distinct ids. */
  ghost predicate WellFormed(s: Store) {
    && TeachersKeyedByEmail(s.teachers)
    && StudentsKeyedByEmail(s.students)
    && TeacherIdsDistinct(s.teachers)
    && StudentIdsDistinct(s.students)
    && QuizIdsDistinct(s.quizzes)
    && QuestionIdsDistinct(s.questions)
  }
}
