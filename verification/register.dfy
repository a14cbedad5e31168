/** The two sign-up handlers, app/api/auth/register/{student,teacher}/route.ts:
    required fields first, then the duplicate-address check, then one insert.
    Password hashing is the parameter `hash`; the new row's id, chosen by the
    database, is the parameter `newId`. */
module Register {
  import opened Values
  import opened Records

  datatype StudentBody = StudentBody(name: Option<string>, email: Option<string>, password: Option<string>, rollNo: Option<string>)

  datatype TeacherBody = TeacherBody(name: Option<string>, email: Option<string>, password: Option<string>)

  /** `!name || !email || !password` is false. */
  predicate StudentFieldsPresent(b: StudentBody) {
    Truthy(b.name) && Truthy(b.email) && Truthy(b.password)
  }

  predicate TeacherFieldsPresent(b: TeacherBody) {
    Truthy(b.name) && Truthy(b.email) && Truthy(b.password)
  }

  /** POST /api/auth/register/student; on success the reply is the new id. */
  function RegisterStudent(store: Store, b: StudentBody, newId: string, hash: string -> string): (r: Outcome<string>)
    ensures !StudentFieldsPresent(b) ==> r == Outcome(Err(MissingFields), store)
    ensures StudentFieldsPresent(b) && b.email.value in store.students ==> r == Outcome(Err(EmailExists), store)
    ensures r.reply.Ok? <==> StudentFieldsPresent(b) && b.email.value !in store.students
    ensures r.reply.Ok? ==>
              && r.reply.value == newId
              && r.store.students.Keys == store.students.Keys + {b.email.value}
              && |r.store.students| == |store.students| + 1
              && (forall e :: e in store.students ==> r.store.students[e] == store.students[e])
              && r.store.students[b.email.value]
                 == Student(newId, b.name.value, b.email.value, hash(b.password.value), StringOrNull(b.rollNo))
              && r.store.(students := store.students) == store
  {
    if !StudentFieldsPresent(b) then Outcome(Err(MissingFields), store)
    else if b.email.value in store.students then Outcome(Err(EmailExists), store)
    else
      var s := Student(newId, b.name.value, b.email.value, hash(b.password.value), StringOrNull(b.rollNo));
      Outcome(Ok(newId), store.(students := store.students[b.email.value := s]))
  }

  /** POST /api/auth/register/teacher; on success the reply is the new id. */
  function RegisterTeacher(store: Store, b: TeacherBody, newId: string, hash: string -> string): (r: Outcome<string>)
    ensures !TeacherFieldsPresent(b) ==> r == Outcome(Err(MissingFields), store)
    ensures TeacherFieldsPresent(b) && b.email.value in store.teachers ==> r == Outcome(Err(EmailExists), store)
    ensures r.reply.Ok? <==> TeacherFieldsPresent(b) && b.email.value !in store.teachers
    ensures r.reply.Ok? ==>
              && r.reply.value == newId
              && r.store.teachers.Keys == store.teachers.Keys + {b.email.value}
              && |r.store.teachers| == |store.teachers| + 1
              && (forall e :: e in store.teachers ==> r.store.teachers[e] == store.teachers[e])
              && r.store.teachers[b.email.value] == Teacher(newId, b.name.value, b.email.value, hash(b.password.value))
              && r.store.(teachers := store.teachers) == store
  {
    if !TeacherFieldsPresent(b) then Outcome(Err(MissingFields), store)
    else if b.email.value in store.teachers then Outcome(Err(EmailExists), store)
    else
      var t := Teacher(newId, b.name.value, b.email.value, hash(b.password.value));
      Outcome(Ok(newId), store.(teachers := store.teachers[b.email.value := t]))
  }

  /** A stored `rollNo` is never the empty string: a falsy one becomes null. */
  lemma StoredRollNoIsTruthyOrNull(store: Store, b: StudentBody, newId: string, hash: string -> string)
    requires RegisterStudent(store, b, newId, hash).reply.Ok?
    ensures var s := RegisterStudent(store, b, newId, hash).store.students[b.email.value];
            && (s.rollNo.None? || s.rollNo.value != "")
            && (Truthy(b.rollNo) ==> s.rollNo == b.rollNo)
  {
  }

  /** An invalid student body is answered without reading the store: the
      reply is the same whatever the store holds. */
  lemma StudentValidationPrecedesLookup(s1: Store, s2: Store, b: StudentBody, newId: string, hash: string -> string)
    requires !StudentFieldsPresent(b)
    ensures RegisterStudent(s1, b, newId, hash).reply == RegisterStudent(s2, b, newId, hash).reply
  {
  }

  /** The same for an invalid teacher body. */
  lemma TeacherValidationPrecedesLookup(s1: Store, s2: Store, b: TeacherBody, newId: string, hash: string -> string)
    requires !TeacherFieldsPresent(b)
    ensures RegisterTeacher(s1, b, newId, hash).reply == RegisterTeacher(s2, b, newId, hash).reply
  {
  }

  /** No id of the table is `id`. */
  ghost predicate FreshStudentId(store: Store, id: string) {
    forall e :: e in store.students ==> store.students[e].id != id
  }

  ghost predicate FreshTeacherId(store: Store, id: string) {
    forall e :: e in store.teachers ==> store.teachers[e].id != id
  }

  /** Signing up keeps every account under its own address (so addresses
      stay unique) and, given a fresh id from the database, ids distinct. */
  lemma RegisterStudentPreservesWellFormed(store: Store, b: StudentBody, newId: string, hash: string -> string)
    requires WellFormed(store)
    requires FreshStudentId(store, newId)
    ensures WellFormed(RegisterStudent(store, b, newId, hash).store)
  {
  }

  lemma RegisterTeacherPreservesWellFormed(store: Store, b: TeacherBody, newId: string, hash: string -> string)
    requires WellFormed(store)
    requires FreshTeacherId(store, newId)
    ensures WellFormed(RegisterTeacher(store, b, newId, hash).store)
  {
  }

  /** A second sign-up with an address that just succeeded is refused and
      leaves the store as the first sign-up left it. */
  lemma SecondSignUpRefused(store: Store, b: TeacherBody, b2: TeacherBody, id1: string, id2: string, hash: string -> string)
    requires RegisterTeacher(store, b, id1, hash).reply.Ok?
    requires TeacherFieldsPresent(b2) && b2.email == b.email
    ensures var after := RegisterTeacher(store, b, id1, hash).store;
            RegisterTeacher(after, b2, id2, hash) == Outcome(Err(EmailExists), after)
  {
  }
}
