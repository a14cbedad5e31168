/** Properties that span several files: sign-up followed by sign-in, and
    sign-in followed by the token and session callbacks and the route guard. */
module Flows {
  import opened Values
  import opened Records
  import Auth
  import Register
  import Middleware
  import TeacherQuizzes
  import StudentQuizzes

  /** A teacher who has just signed up can sign in with the same address and
      password through the teacher provider (given that the hash comparison
      accepts a password against its own hash), and gets the new id. */
  lemma SignUpThenSignInTeacher(store: Store, b: Register.TeacherBody, newId: string,
                                hash: string -> string, matches: (string, string) -> bool)
    requires forall p :: matches(p, hash(p))
    requires Register.RegisterTeacher(store, b, newId, hash).reply.Ok?
    ensures var after := Register.RegisterTeacher(store, b, newId, hash).store;
            Auth.Authorize(Auth.TeacherCredentials, Some(Auth.Credentials(b.email, b.password)), after, matches)
            == Success(Auth.User(newId, b.email.value, b.name.value, TeacherRole))
  {
  }

  /** The same for students. */
  lemma SignUpThenSignInStudent(store: Store, b: Register.StudentBody, newId: string,
                                hash: string -> string, matches: (string, string) -> bool)
    requires forall p :: matches(p, hash(p))
    requires Register.RegisterStudent(store, b, newId, hash).reply.Ok?
    ensures var after := Register.RegisterStudent(store, b, newId, hash).store;
            Auth.Authorize(Auth.StudentCredentials, Some(Auth.Credentials(b.email, b.password)), after, matches)
            == Success(Auth.User(newId, b.email.value, b.name.value, StudentRole))
  {
  }

  /** A student account cannot sign in through the teacher provider unless a
      teacher account happens to use the same address. */
  lemma StudentCannotUseTeacherProvider(store: Store, c: Auth.Credentials, matches: (string, string) -> bool)
    requires Auth.CredentialsPresent(Some(c))
    requires c.email.value in store.students && c.email.value !in store.teachers
    ensures Auth.Authorize(Auth.TeacherCredentials, Some(c), store, matches) == Failure(Auth.AccountNotFound)
  {
  }

  /** A token minted at a teacher sign-in opens every guarded teacher page
      and is redirected away from every guarded student page; and the other
      way round for a student sign-in. */
  lemma SignedInTokenMatchesItsArea(p: Auth.Provider, c: Option<Auth.Credentials>, store: Store,
                                    matches: (string, string) -> bool, token0: Auth.Token, path: string)
    requires Auth.Authorize(p, c, store, matches).Success?
    requires !Middleware.IsPublic(path)
    ensures var token := Auth.Jwt(token0, Some(Auth.Authorize(p, c, store, matches).value));
            && (StartsWith(path, "/teacher") ==>
                  Middleware.Decide(path, Some(token))
                  == (if p == Auth.TeacherCredentials then Middleware.Next else Middleware.Redirect(Middleware.TeacherLogin)))
            && (StartsWith(path, "/student") ==>
                  Middleware.Decide(path, Some(token))
                  == (if p == Auth.StudentCredentials then Middleware.Next else Middleware.Redirect(Middleware.StudentAuth)))
  {
  }

  /** After a sign-in through either provider, the session the callbacks
      build carries the account's id and the provider's role. A route handler
      given that identity lets a teacher create a quiz and a student list
      quizzes, and refuses the other role each. */
  lemma SessionCarriesSignInIdentity(p: Auth.Provider, c: Option<Auth.Credentials>, store: Store,
                                     matches: (string, string) -> bool, token0: Auth.Token, session0: Auth.Session,
                                     b: TeacherQuizzes.QuizBody, newId: string, now: int)
    requires Auth.Authorize(p, c, store, matches).Success?
    requires session0.user.Some?
    ensures var u := Auth.Authorize(p, c, store, matches).value;
            var s := Auth.SessionCallback(session0, Auth.Jwt(token0, Some(u)));
            && s.user.Some?
            && s.user.value.id == Some(u.id)
            && s.user.value.role == Some(Auth.ProviderRole(p))
            && var caller := Some(Caller(u.id, s.user.value.role));
            && (TeacherQuizzes.CreateQuiz(store, caller, b, newId, now).reply == Ok(newId) <==> p == Auth.TeacherCredentials)
            && (StudentQuizzes.ListForStudent(store, caller, now).Ok? <==> p == Auth.StudentCredentials)
  {
  }
}
