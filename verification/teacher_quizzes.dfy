/** app/api/teacher/quizzes/route.ts: a teacher creates a quiz (POST) and
    lists their own quizzes, newest first (GET). The new row's id and its
    creation time are parameters. */
module TeacherQuizzes {
  import opened Values
  import opened Records

  /** The JSON body of POST. It may carry any other field, a `teacherId`
      included; the handler never reads it. */
  datatype QuizBody = QuizBody(
    title: Option<string>,
    description: Option<string>,
    timeLimit: Option<int>,
    maxAttempts: Option<int>,
    shuffleQuestions: Option<bool>,
    shuffleOptions: Option<bool>,
    teacherId: Option<string>)

  /** The last quiz of a non-empty table: the one an insert appended. */
  function Newest(qs: seq<Quiz>): Quiz
    requires |qs| > 0
  {
    qs[|qs| - 1]
  }

  /** POST: only a teacher may create; the owner is the caller, a falsy
      `maxAttempts` becomes 1 and falsy shuffle flags become false. The
      quiz starts as a draft with no start time. */
  function CreateQuiz(store: Store, caller: Option<Caller>, b: QuizBody, newId: string, now: int): (r: Outcome<string>)
    ensures !HasRole(caller, TeacherRole) ==> r == Outcome(Err(Unauthorized), store)
    ensures HasRole(caller, TeacherRole) ==>
              && r.reply == Ok(newId)
              && |r.store.quizzes| == |store.quizzes| + 1
              && r.store.quizzes[..|store.quizzes|] == store.quizzes
              && r.store.(quizzes := store.quizzes) == store
              && var q := Newest(r.store.quizzes);
              && q.id == newId
              && q.teacherId == caller.value.id
              && q.title == b.title && q.description == b.description && q.timeLimit == b.timeLimit
              && (if b.maxAttempts.None? || b.maxAttempts.value == 0 then q.maxAttempts == 1
                  else q.maxAttempts == b.maxAttempts.value)
              && (q.shuffleQuestions <==> b.shuffleQuestions == Some(true))
              && (q.shuffleOptions <==> b.shuffleOptions == Some(true))
              && q.status == Draft
              && q.startAt.None?
              && q.createdAt == now
  {
    if !HasRole(caller, TeacherRole) then Outcome(Err(Unauthorized), store)
    else
      var q := Quiz(newId, caller.value.id, b.title, b.description, b.timeLimit,
                    NumberOr(b.maxAttempts, 1), FlagOrFalse(b.shuffleQuestions), FlagOrFalse(b.shuffleOptions),
                    Draft, None, now);
      Outcome(Ok(newId), store.(quizzes := store.quizzes + [q]))
  }

  /** Whatever `teacherId` the body carries, the result is the same. */
  lemma BodyTeacherIdIgnored(store: Store, caller: Option<Caller>, b: QuizBody, forged: Option<string>, newId: string, now: int)
    ensures CreateQuiz(store, caller, b.(teacherId := forged), newId, now) == CreateQuiz(store, caller, b, newId, now)
  {
  }

  /** A stored `maxAttempts` is never 0, so the start handler's
      `quiz.maxAttempts && …` limit check always applies to a created quiz. */
  lemma StoredMaxAttemptsNonZero(store: Store, caller: Option<Caller>, b: QuizBody, newId: string, now: int)
    requires HasRole(caller, TeacherRole)
    ensures Newest(CreateQuiz(store, caller, b, newId, now).store.quizzes).maxAttempts != 0
  {
  }

  /** Given a fresh id, creation keeps quiz ids distinct. */
  lemma CreateQuizPreservesWellFormed(store: Store, caller: Option<Caller>, b: QuizBody, newId: string, now: int)
    requires WellFormed(store)
    requires forall i :: 0 <= i < |store.quizzes| ==> store.quizzes[i].id != newId
    ensures WellFormed(CreateQuiz(store, caller, b, newId, now).store)
  {
  }

  /** One row of the GET reply: the quiz with its question and attempt counts. */
  datatype QuizSummary = QuizSummary(quiz: Quiz, questionCount: nat, attemptCount: nat)

  /** The quizzes of `qs` owned by `teacherId`, in table order. */
  function OwnedBy(qs: seq<Quiz>, teacherId: string): (r: seq<Quiz>)
    ensures forall q :: q in r <==> q in qs && q.teacherId == teacherId
    ensures forall q :: multiset(r)[q] == if q.teacherId == teacherId then multiset(qs)[q] else 0
    ensures |r| <= |qs|
  {
    if qs == [] then []
    else
      assert qs == [qs[0]] + qs[1..];
      (if qs[0].teacherId == teacherId then [qs[0]] else []) + OwnedBy(qs[1..], teacherId)
  }

  /** `createdAt: "desc"`. */
  ghost predicate NewestFirst(qs: seq<Quiz>) {
    forall i, j :: 0 <= i < j < |qs| ==> qs[i].createdAt >= qs[j].createdAt
  }

  /** A quiz no older than every quiz of a newest-first list can head it. */
  lemma ConsNewestFirst(h: Quiz, t: seq<Quiz>)
    requires NewestFirst(t)
    requires forall x :: x in t ==> h.createdAt >= x.createdAt
    ensures NewestFirst([h] + t)
  {
  }

  /** Puts `q` into a newest-first list, before the first quiz no newer than it. */
  function Insert(q: Quiz, qs: seq<Quiz>): seq<Quiz> {
    if qs == [] then [q]
    else if q.createdAt >= qs[0].createdAt then [q] + qs
    else [qs[0]] + Insert(q, qs[1..])
  }

  lemma {:induction false} InsertKeepsQuizzes(q: Quiz, qs: seq<Quiz>)
    ensures multiset(Insert(q, qs)) == multiset(qs) + multiset{q}
  {
    if qs != [] && q.createdAt < qs[0].createdAt {
      InsertKeepsQuizzes(q, qs[1..]);
      assert qs == [qs[0]] + qs[1..];
    }
  }

  lemma {:induction false} InsertKeepsOrder(q: Quiz, qs: seq<Quiz>)
    requires NewestFirst(qs)
    ensures NewestFirst(Insert(q, qs))
  {
    if qs == [] {
    } else if q.createdAt >= qs[0].createdAt {
      ConsNewestFirst(q, qs);
    } else {
      var rest := Insert(q, qs[1..]);
      InsertKeepsOrder(q, qs[1..]);
      InsertKeepsQuizzes(q, qs[1..]);
      forall x | x in rest
        ensures qs[0].createdAt >= x.createdAt
      {
        assert x in multiset(rest);
        if x != q {
          assert x in multiset(qs[1..]);
          var k :| 0 <= k < |qs[1..]| && qs[1..][k] == x;
          assert qs[k + 1] == x;
        }
      }
      ConsNewestFirst(qs[0], rest);
    }
  }

  /** Orders a list newest first, keeping every quiz exactly as often as it occurs. */
  function SortNewestFirst(qs: seq<Quiz>): (r: seq<Quiz>)
    ensures NewestFirst(r)
    ensures multiset(r) == multiset(qs)
  {
    if qs == [] then []
    else
      var rest := SortNewestFirst(qs[1..]);
      InsertKeepsOrder(qs[0], rest);
      InsertKeepsQuizzes(qs[0], rest);
      assert qs == [qs[0]] + qs[1..];
      Insert(qs[0], rest)
  }

  function CountQuestions(qs: seq<Question>, quizId: string): nat {
    if qs == [] then 0 else (if qs[0].quizId == quizId then 1 else 0) + CountQuestions(qs[1..], quizId)
  }

  function CountAttempts(atts: seq<Attempt>, quizId: string): nat {
    if atts == [] then 0 else (if atts[0].quizId == quizId then 1 else 0) + CountAttempts(atts[1..], quizId)
  }

  /** Attaches the `_count` of questions and attempts to each quiz. */
  function Summaries(qs: seq<Quiz>, store: Store): (r: seq<QuizSummary>)
    ensures |r| == |qs|
    ensures forall i :: 0 <= i < |r| ==>
              r[i] == QuizSummary(qs[i], CountQuestions(store.questions, qs[i].id), CountAttempts(store.attempts, qs[i].id))
  {
    if qs == [] then []
    else [QuizSummary(qs[0], CountQuestions(store.questions, qs[0].id), CountAttempts(store.attempts, qs[0].id))]
         + Summaries(qs[1..], store)
  }

  /** The quizzes a summary list is about. */
  function QuizzesOf(rows: seq<QuizSummary>): (r: seq<Quiz>)
    ensures |r| == |rows|
    ensures forall i :: 0 <= i < |r| ==> r[i] == rows[i].quiz
  {
    if rows == [] then [] else [rows[0].quiz] + QuizzesOf(rows[1..])
  }

  /** GET: only a teacher may list; the reply is exactly the caller's
      quizzes (each as often as stored), newest first, with their counts. */
  function ListQuizzes(store: Store, caller: Option<Caller>): (r: Reply<seq<QuizSummary>>)
    ensures !HasRole(caller, TeacherRole) ==> r == Err(Unauthorized)
    ensures HasRole(caller, TeacherRole) ==>
              && r.Ok?
              && NewestFirst(QuizzesOf(r.value))
              && multiset(QuizzesOf(r.value)) == multiset(OwnedBy(store.quizzes, caller.value.id))
              && (forall q :: q in QuizzesOf(r.value) <==> q in store.quizzes && q.teacherId == caller.value.id)
              && (forall row :: row in r.value ==>
                    && row.questionCount == CountQuestions(store.questions, row.quiz.id)
                    && row.attemptCount == CountAttempts(store.attempts, row.quiz.id))
  {
    if !HasRole(caller, TeacherRole) then Err(Unauthorized)
    else
      var owned := OwnedBy(store.quizzes, caller.value.id);
      var sorted := SortNewestFirst(owned);
      var rows := Summaries(sorted, store);
      assert QuizzesOf(rows) == sorted;
      SameMultisetSameMembers(sorted, owned);
      Ok(rows)
  }

  lemma SameMultisetSameMembers(a: seq<Quiz>, b: seq<Quiz>)
    requires multiset(a) == multiset(b)
    ensures forall x :: x in a <==> x in b
  {
    forall x ensures x in a <==> x in b {
      assert x in a <==> x in multiset(a);
      assert x in b <==> x in multiset(b);
    }
  }
}
