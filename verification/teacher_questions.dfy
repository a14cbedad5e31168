/** app/api/teacher/questions/route.ts: a teacher adds a question, with its
    options, to one of their own quizzes. The new question's id is a
    parameter. */
module TeacherQuestions {
  import opened Values
  import opened Records

  datatype QuestionBody = QuestionBody(quizId: string, text: Option<string>, imageUrl: Option<string>, options: seq<Choice>)

  /** `findUnique` by id: the first quiz with that id. */
  function FindQuiz(qs: seq<Quiz>, id: string): (r: Option<Quiz>)
    ensures r.Some? ==> r.value in qs && r.value.id == id
    ensures r.None? <==> forall q :: q in qs ==> q.id != id
  {
    if qs == [] then None
    else if qs[0].id == id then Some(qs[0])
    else FindQuiz(qs[1..], id)
  }

  /** The quiz exists and its `teacherId` is the caller's id. */
  predicate OwnsQuiz(store: Store, teacherId: string, quizId: string) {
    var found := FindQuiz(store.quizzes, quizId);
    found.Some? && found.value.teacherId == teacherId
  }

  /** POST: a non-teacher gets 401; a missing quiz and another teacher's quiz
      get the same 404; otherwise exactly one question is appended, tied to
      the requested quiz and carrying the supplied options. */
  function AddQuestion(store: Store, caller: Option<Caller>, b: QuestionBody, newId: string): (r: Outcome<Question>)
    ensures !HasRole(caller, TeacherRole) ==> r == Outcome(Err(Unauthorized), store)
    ensures HasRole(caller, TeacherRole) && !OwnsQuiz(store, caller.value.id, b.quizId) ==>
              r == Outcome(Err(QuizNotFound), store)
    ensures r.reply.Ok? <==> HasRole(caller, TeacherRole) && OwnsQuiz(store, caller.value.id, b.quizId)
    ensures r.reply.Ok? ==>
              && r.reply.value.id == newId
              && r.reply.value.quizId == b.quizId
              && r.reply.value.options == b.options
              && r.reply.value.text == b.text && r.reply.value.imageUrl == b.imageUrl
              && r.store.questions == store.questions + [r.reply.value]
              && r.store.(questions := store.questions) == store
  {
    if !HasRole(caller, TeacherRole) then Outcome(Err(Unauthorized), store)
    else
      var found := FindQuiz(store.quizzes, b.quizId);
      if found.None? || found.value.teacherId != caller.value.id then Outcome(Err(QuizNotFound), store)
      else
        var q := Question(newId, b.quizId, b.text, b.imageUrl, b.options);
        Outcome(Ok(q), store.(questions := store.questions + [q]))
  }

  /** With distinct quiz ids, ownership is simply: some stored quiz has the
      requested id and the caller as its teacher. */
  lemma OwnsQuizIff(store: Store, teacherId: string, quizId: string)
    requires QuizIdsDistinct(store.quizzes)
    ensures OwnsQuiz(store, teacherId, quizId) <==>
              exists i :: 0 <= i < |store.quizzes| && store.quizzes[i].id == quizId && store.quizzes[i].teacherId == teacherId
  {
  }

  /** A teacher cannot tell a missing quiz from someone else's quiz: both
      requests get the same reply and leave the store alone. */
  lemma MissingAndForeignQuizLookAlike(s1: Store, s2: Store, caller: Option<Caller>, b: QuestionBody, newId: string)
    requires HasRole(caller, TeacherRole)
    requires FindQuiz(s1.quizzes, b.quizId).None?
    requires FindQuiz(s2.quizzes, b.quizId).Some? && FindQuiz(s2.quizzes, b.quizId).value.teacherId != caller.value.id
    ensures AddQuestion(s1, caller, b, newId).reply == AddQuestion(s2, caller, b, newId).reply == Err(QuizNotFound)
    ensures AddQuestion(s1, caller, b, newId).store == s1 && AddQuestion(s2, caller, b, newId).store == s2
  {
  }

  /** Every quiz of the table with its status replaced by `st`. */
  function WithStatus(qs: seq<Quiz>, st: QuizStatus): seq<Quiz> {
    seq(|qs|, i requires 0 <= i < |qs| => qs[i].(status := st))
  }

  lemma {:induction false} FindQuizIgnoresStatus(qs: seq<Quiz>, id: string, st: QuizStatus)
    ensures FindQuiz(WithStatus(qs, st), id).Some? == FindQuiz(qs, id).Some?
    ensures FindQuiz(qs, id).Some? ==> FindQuiz(WithStatus(qs, st), id).value == FindQuiz(qs, id).value.(status := st)
  {
    if qs != [] {
      assert WithStatus(qs, st)[1..] == WithStatus(qs[1..], st);
      FindQuizIgnoresStatus(qs[1..], id, st);
    }
  }

  /** The handler never consults the quiz's status: questions are accepted
      on draft and published quizzes alike, with the same reply. */
  lemma {:induction false} AddQuestionIgnoresStatus(store: Store, caller: Option<Caller>, b: QuestionBody, newId: string, st: QuizStatus)
    ensures AddQuestion(store.(quizzes := WithStatus(store.quizzes, st)), caller, b, newId).reply
            == AddQuestion(store, caller, b, newId).reply
  {
    FindQuizIgnoresStatus(store.quizzes, b.quizId, st);
  }

  /** Given a fresh id, adding a question keeps question ids distinct. */
  lemma AddQuestionPreservesWellFormed(store: Store, caller: Option<Caller>, b: QuestionBody, newId: string)
    requires WellFormed(store)
    requires forall i :: 0 <= i < |store.questions| ==> store.questions[i].id != newId
    ensures WellFormed(AddQuestion(store, caller, b, newId).store)
  {
  }
}
