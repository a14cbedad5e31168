/** app/api/student/quizzes/route.ts: a student's view of the published
    quizzes, split into available, upcoming and completed. The clock is the
    parameter `now`. */
module StudentQuizzes {
  import opened Values
  import opened Records

  /** A fetched quiz with the calling student's attempts at it. */
  datatype Listed = Listed(quiz: Quiz, attempts: seq<Attempt>)

  datatype Categories = Categories(available: seq<Listed>, upcoming: seq<Listed>, completed: seq<Listed>)

  /** The attempts of one student at one quiz, in table order. */
  function AttemptsOf(atts: seq<Attempt>, quizId: string, studentId: string): (r: seq<Attempt>)
    ensures forall a :: a in r <==> a in atts && a.quizId == quizId && a.studentId == studentId
    ensures forall a :: multiset(r)[a] == if a.quizId == quizId && a.studentId == studentId then multiset(atts)[a] else 0
  {
    if atts == [] then []
    else
      assert atts == [atts[0]] + atts[1..];
      (if atts[0].quizId == quizId && atts[0].studentId == studentId then [atts[0]] else [])
         + AttemptsOf(atts[1..], quizId, studentId)
  }

  /** `findMany` with `status: "PUBLISHED"`, each quiz with the caller's attempts. */
  function Fetch(quizzes: seq<Quiz>, atts: seq<Attempt>, studentId: string): (r: seq<Listed>)
    ensures forall l :: l in r <==>
              l.quiz in quizzes && l.quiz.status == Published && l.attempts == AttemptsOf(atts, l.quiz.id, studentId)
    ensures forall l :: multiset(r)[l] ==
              if l.quiz.status == Published && l.attempts == AttemptsOf(atts, l.quiz.id, studentId)
              then multiset(quizzes)[l.quiz] else 0
  {
    if quizzes == [] then []
    else
      assert quizzes == [quizzes[0]] + quizzes[1..];
      var q := quizzes[0];
      (if q.status == Published then [Listed(q, AttemptsOf(atts, q.id, studentId))] else [])
      + Fetch(quizzes[1..], atts, studentId)
  }

  /** The three filters of `categorized`. */
  datatype Criterion = StartedBy(now: int) | ScheduledAfter(now: int) | CompletedByCaller

  predicate Meets(l: Listed, c: Criterion) {
    match c
    case StartedBy(now) => l.quiz.startAt.None? || l.quiz.startAt.value <= now
    case ScheduledAfter(now) => l.quiz.startAt.Some? && l.quiz.startAt.value > now
    case CompletedByCaller => exists a :: a in l.attempts && a.completedAt.Some?
  }

  /** `filter`: the listed quizzes that meet the criterion, in order. */
  function Select(ls: seq<Listed>, c: Criterion): (r: seq<Listed>)
    ensures forall l :: l in r <==> l in ls && Meets(l, c)
    ensures forall l :: multiset(r)[l] == if Meets(l, c) then multiset(ls)[l] else 0
    ensures |r| <= |ls|
  {
    if ls == [] then []
    else
      assert ls == [ls[0]] + ls[1..];
      (if Meets(ls[0], c) then [ls[0]] else []) + Select(ls[1..], c)
  }

  /** GET: a caller who is not a student gets 401; otherwise the published
      quizzes are categorised at `now`. */
  function ListForStudent(store: Store, caller: Option<Caller>, now: int): (r: Reply<Categories>)
    ensures !HasRole(caller, StudentRole) ==> r == Err(Unauthorized)
    ensures HasRole(caller, StudentRole) ==> r.Ok?
    ensures r.Ok? ==>
              var ls := Fetch(store.quizzes, store.attempts, caller.value.id);
              && (forall l :: l in r.value.available <==> l in ls && Meets(l, StartedBy(now)))
              && (forall l :: l in r.value.upcoming <==> l in ls && Meets(l, ScheduledAfter(now)))
              && (forall l :: l in r.value.completed <==> l in ls && Meets(l, CompletedByCaller))
              && multiset(r.value.available) + multiset(r.value.upcoming) == multiset(ls)
              && SubsequenceOf(r.value.available, ls)
              && SubsequenceOf(r.value.upcoming, ls)
              && SubsequenceOf(r.value.completed, ls)
  {
    if !HasRole(caller, StudentRole) then Err(Unauthorized)
    else
      var ls := Fetch(store.quizzes, store.attempts, caller.value.id);
      AvailableUpcomingPartition(ls, now);
      SelectKeepsOrder(ls, StartedBy(now));
      SelectKeepsOrder(ls, ScheduledAfter(now));
      SelectKeepsOrder(ls, CompletedByCaller);
      Ok(Categories(Select(ls, StartedBy(now)), Select(ls, ScheduledAfter(now)), Select(ls, CompletedByCaller)))
  }

  /** `sub` is `s` with some elements dropped and the rest in their order. */
  ghost predicate SubsequenceOf<T>(sub: seq<T>, s: seq<T>)
    decreases |s|
  {
    if sub == [] then true
    else if s == [] then false
    else if sub[0] == s[0] then SubsequenceOf(sub[1..], s[1..])
    else SubsequenceOf(sub, s[1..])
  }

  /** Putting one more element in front of a list keeps every subsequence. */
  lemma {:induction false} SubsequenceCons<T>(sub: seq<T>, x: T, s: seq<T>)
    requires SubsequenceOf(sub, s)
    ensures SubsequenceOf(sub, [x] + s)
    decreases |s|, 1
  {
    assert ([x] + s)[1..] == s;
    if sub != [] && sub[0] == x {
      SubsequenceTail(sub, s);
    }
  }

  /** Dropping the head of a subsequence keeps it a subsequence. */
  lemma {:induction false} SubsequenceTail<T>(sub: seq<T>, s: seq<T>)
    requires sub != [] && SubsequenceOf(sub, s)
    ensures SubsequenceOf(sub[1..], s)
    decreases |s|, 0
  {
    assert s == [s[0]] + s[1..];
    if sub[0] == s[0] {
      SubsequenceCons(sub[1..], s[0], s[1..]);
    } else {
      SubsequenceTail(sub, s[1..]);
      SubsequenceCons(sub[1..], s[0], s[1..]);
    }
  }

  /** Each category keeps the relative order of the fetched list. */
  lemma {:induction false} SelectKeepsOrder(ls: seq<Listed>, c: Criterion)
    ensures SubsequenceOf(Select(ls, c), ls)
  {
    if ls != [] {
      SelectKeepsOrder(ls[1..], c);
      var rest := Select(ls[1..], c);
      if Meets(ls[0], c) {
        assert Select(ls, c) == [ls[0]] + rest;
        assert ([ls[0]] + rest)[1..] == rest;
      } else {
        assert Select(ls, c) == rest;
        SubsequenceCons(rest, ls[0], ls[1..]);
        assert [ls[0]] + ls[1..] == ls;
      }
    }
  }

  /** Available and upcoming split the fetched list exactly: every listed
      quiz lands in exactly one of them, as often as it was fetched. */
  lemma {:induction false} AvailableUpcomingPartition(ls: seq<Listed>, now: int)
    ensures multiset(Select(ls, StartedBy(now))) + multiset(Select(ls, ScheduledAfter(now))) == multiset(ls)
    ensures forall l :: l in ls ==> (l in Select(ls, StartedBy(now)) <==> l !in Select(ls, ScheduledAfter(now)))
  {
    var a := Select(ls, StartedBy(now));
    var u := Select(ls, ScheduledAfter(now));
    forall l
      ensures (multiset(a) + multiset(u))[l] == multiset(ls)[l]
    {
      assert Meets(l, StartedBy(now)) != Meets(l, ScheduledAfter(now));
    }
    assert multiset(a) + multiset(u) == multiset(ls);
  }

  /** Only published quizzes are shown, and a quiz without a start time is
      always available. */
  lemma PublishedOnlyAndUnscheduledAvailable(store: Store, caller: Option<Caller>, now: int)
    requires HasRole(caller, StudentRole)
    ensures var c := ListForStudent(store, caller, now).value;
            && (forall l :: l in c.available || l in c.upcoming || l in c.completed ==>
                  l.quiz in store.quizzes && l.quiz.status == Published)
            && (forall l :: l in Fetch(store.quizzes, store.attempts, caller.value.id) && l.quiz.startAt.None? ==>
                  l in c.available)
  {
  }

  /** The caller has finished an attempt at `q`. */
  ghost predicate FinishedBy(atts: seq<Attempt>, q: Quiz, studentId: string) {
    exists a :: a in atts && a.quizId == q.id && a.studentId == studentId && a.completedAt.Some?
  }

  lemma CompletedOnlyIf(store: Store, sid: string, l: Listed)
    ensures l in Fetch(store.quizzes, store.attempts, sid) && Meets(l, CompletedByCaller) ==>
              l.quiz in store.quizzes && l.quiz.status == Published && FinishedBy(store.attempts, l.quiz, sid)
  {
    if l in Fetch(store.quizzes, store.attempts, sid) && Meets(l, CompletedByCaller) {
      var a :| a in l.attempts && a.completedAt.Some?;
      assert a in AttemptsOf(store.attempts, l.quiz.id, sid);
    }
  }

  lemma CompletedIf(ls: seq<Listed>, store: Store, sid: string, q: Quiz)
    requires ls == Fetch(store.quizzes, store.attempts, sid)
    requires q in store.quizzes && q.status == Published && FinishedBy(store.attempts, q, sid)
    ensures exists l :: l in Select(ls, CompletedByCaller) && l.quiz == q
  {
    var l := Listed(q, AttemptsOf(store.attempts, q.id, sid));
    assert l in ls;
    var a :| a in store.attempts && a.quizId == q.id && a.studentId == sid && a.completedAt.Some?;
    assert a in l.attempts;
    assert Meets(l, CompletedByCaller);
    assert l in Select(ls, CompletedByCaller);
  }

  /** A quiz is listed as completed exactly when it is published and the
      caller has an attempt at it with a completion time. */
  lemma CompletedIff(store: Store, caller: Option<Caller>, now: int, q: Quiz)
    requires HasRole(caller, StudentRole)
    ensures (exists l :: l in ListForStudent(store, caller, now).value.completed && l.quiz == q) <==>
              && q in store.quizzes
              && q.status == Published
              && exists a :: a in store.attempts && a.quizId == q.id && a.studentId == caller.value.id && a.completedAt.Some?
  {
    var sid := caller.value.id;
    var ls := Fetch(store.quizzes, store.attempts, sid);
    assert ListForStudent(store, caller, now).value.completed == Select(ls, CompletedByCaller);
    if exists l :: l in Select(ls, CompletedByCaller) && l.quiz == q {
      var l :| l in Select(ls, CompletedByCaller) && l.quiz == q;
      CompletedOnlyIf(store, sid, l);
    }
    if q in store.quizzes && q.status == Published && FinishedBy(store.attempts, q, sid) {
      CompletedIf(ls, store, sid, q);
    }
  }

  /** Completion does not depend on the start time, so one quiz can be both
      available and completed. */
  lemma CompletedCanOverlapAvailable()
    ensures exists store: Store, caller: Option<Caller>, now: int ::
              && HasRole(caller, StudentRole)
              && var c := ListForStudent(store, caller, now).value;
              && exists l :: l in c.available && l in c.completed
  {
    var q := Quiz("q1", "t1", Some("Quiz"), None, None, 1, false, false, Published, None, 0);
    var a := Attempt("a1", "q1", "s1", 0, Some(3), Some(5));
    var store := Store(map[], map[], [q], [], [a]);
    var caller := Some(Caller("s1", Some(StudentRole)));
    assert AttemptsOf([a], "q1", "s1") == [a];
    var l := Listed(q, [a]);
    assert Fetch([q], [a], "s1") == [l];
    assert Meets(l, StartedBy(10)) && Meets(l, CompletedByCaller);
    var c := ListForStudent(store, caller, 10).value;
    assert l in c.available && l in c.completed;
  }
}
