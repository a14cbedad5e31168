/** The route guard of middleware.ts: a decision from a request path and the
    decoded session token (if any) to "let the request through" or "redirect". */
module Middleware {
  import opened Values
  import Records
  import Auth

  datatype Decision = Next | Redirect(location: string)

  const TeacherLogin := "/teacher/login"
  const StudentAuth := "/student/auth"

  /** The pages that pass whatever the token is. */
  predicate IsPublic(pathname: string) {
    || pathname == "/"
    || pathname == TeacherLogin
    || pathname == StudentAuth
    || StartsWith(pathname, "/api/auth")
    || StartsWith(pathname, "/api/auth/register")
  }

  /** `token && token.role === role`. */
  predicate TokenHasRole(token: Option<Auth.Token>, role: string) {
    token.Some? && token.value.role == Some(role)
  }

  /** `middleware`: public pages pass; otherwise a path under the raw prefix
      "/teacher" needs a teacher token and one under "/student" a student
      token, failing which the caller is sent to that role's sign-in page. */
  function Decide(pathname: string, token: Option<Auth.Token>): (d: Decision)
    ensures IsPublic(pathname) ==> d == Next
    ensures !IsPublic(pathname) && StartsWith(pathname, "/teacher") ==>
              d == (if TokenHasRole(token, Records.TeacherRole) then Next else Redirect(TeacherLogin))
    ensures !IsPublic(pathname) && StartsWith(pathname, "/student") ==>
              d == (if TokenHasRole(token, Records.StudentRole) then Next else Redirect(StudentAuth))
    ensures !StartsWith(pathname, "/teacher") && !StartsWith(pathname, "/student") ==> d == Next
  {
    StartsWithExclusive(pathname, "/teacher", "/student", 1);
    if IsPublic(pathname) then Next
    else if StartsWith(pathname, "/teacher") && !TokenHasRole(token, Records.TeacherRole) then Redirect(TeacherLogin)
    else if StartsWith(pathname, "/student") && !TokenHasRole(token, Records.StudentRole) then Redirect(StudentAuth)
    else Next
  }

  /** Every redirect target is a public page, so following a redirect with
      any token passes: the guard cannot loop. */
  lemma NoRedirectLoop(pathname: string, token: Option<Auth.Token>, next: Option<Auth.Token>)
    ensures Decide(pathname, token).Redirect? ==> Decide(Decide(pathname, token).location, next) == Next
  {
  }

  /** The public-page test without its "/api/auth/register" clause. */
  predicate IsPublicWithoutRegisterClause(pathname: string) {
    || pathname == "/"
    || pathname == TeacherLogin
    || pathname == StudentAuth
    || StartsWith(pathname, "/api/auth")
  }

  /** The "/api/auth/register" clause is subsumed by "/api/auth": dropping it
      changes no decision. */
  lemma RegisterClauseRedundant(pathname: string)
    ensures IsPublic(pathname) <==> IsPublicWithoutRegisterClause(pathname)
  {
  }

  /** The guard compares raw prefixes, so "/teachers" counts as a teacher
      page and "/studentship" as a student page. */
  lemma GuardIsRawPrefix(token: Option<Auth.Token>)
    ensures Decide("/teachers", token) ==
              (if TokenHasRole(token, Records.TeacherRole) then Next else Redirect(TeacherLogin))
    ensures Decide("/studentship", token) ==
              (if TokenHasRole(token, Records.StudentRole) then Next else Redirect(StudentAuth))
  {
    assert StartsWith("/teachers", "/teacher");
    assert StartsWith("/studentship", "/student");
    StartsWithExclusive("/teachers", "/teacher", "/api/auth", 1);
    StartsWithExclusive("/teachers", "/teacher", "/api/auth/register", 1);
    StartsWithExclusive("/studentship", "/student", "/api/auth", 1);
    StartsWithExclusive("/studentship", "/student", "/api/auth/register", 1);
  }

  /** `config.matcher`: the middleware only runs for "/teacher/:path*" and
      "/student/:path*", that is the bare prefix or the prefix followed by "/". */
  predicate Matched(pathname: string) {
    || pathname == "/teacher"
    || StartsWith(pathname, "/teacher/")
    || pathname == "/student"
    || StartsWith(pathname, "/student/")
  }

  /** What a request sees once the matcher is taken into account. */
  function Handle(pathname: string, token: Option<Auth.Token>): (d: Decision)
    ensures !Matched(pathname) ==> d == Next
    ensures Matched(pathname) ==> d == Decide(pathname, token)
    ensures d.Redirect? ==> d == Decide(pathname, token)
  {
    if Matched(pathname) then Decide(pathname, token) else Next
  }

  /** Among the paths the matcher selects, the only public ones are the two
      sign-in pages: the "/" and "/api/auth" clauses never fire there. */
  lemma MatchedPublicPathsAreSignInPages(pathname: string)
    requires Matched(pathname)
    ensures IsPublic(pathname) <==> pathname == TeacherLogin || pathname == StudentAuth
  {
    assert StartsWith(pathname, "/teacher") || StartsWith(pathname, "/student") by {
      if StartsWith(pathname, "/teacher/") {
        StartsWithTransitive(pathname, "/teacher/", "/teacher");
      } else if StartsWith(pathname, "/student/") {
        StartsWithTransitive(pathname, "/student/", "/student");
      }
    }
    StartsWithExclusive(pathname, "/teacher", "/api/auth", 1);
    StartsWithExclusive(pathname, "/student", "/api/auth", 1);
    StartsWithExclusive(pathname, "/teacher", "/api/auth/register", 1);
    StartsWithExclusive(pathname, "/student", "/api/auth/register", 1);
  }

  /** Behind the matcher every non-public page it selects is guarded: it
      lies in the teacher or the student area, and it passes exactly when the
      token carries that area's role. */
  lemma MatchedPagesAreGuarded(pathname: string, token: Option<Auth.Token>)
    requires Matched(pathname) && !IsPublic(pathname)
    ensures StartsWith(pathname, "/teacher") != StartsWith(pathname, "/student")
    ensures StartsWith(pathname, "/teacher") ==>
              Handle(pathname, token) == (if TokenHasRole(token, Records.TeacherRole) then Next else Redirect(TeacherLogin))
    ensures StartsWith(pathname, "/student") ==>
              Handle(pathname, token) == (if TokenHasRole(token, Records.StudentRole) then Next else Redirect(StudentAuth))
  {
    if StartsWith(pathname, "/teacher/") {
      StartsWithTransitive(pathname, "/teacher/", "/teacher");
    } else if StartsWith(pathname, "/student/") {
      StartsWithTransitive(pathname, "/student/", "/student");
    }
    StartsWithExclusive(pathname, "/teacher", "/student", 1);
  }

  /** For every path the guard would treat as a teacher or student page but
      the matcher does not select (such as "/teachers"), the guard alone
      redirects a token-less request, while the middleware lets any request
      through. */
  lemma RawPrefixOutsideMatcher(pathname: string, token: Option<Auth.Token>)
    requires StartsWith(pathname, "/teacher") || StartsWith(pathname, "/student")
    requires !Matched(pathname)
    ensures Decide(pathname, None).Redirect?
    ensures Handle(pathname, token) == Next
  {
    StartsWithExclusive(pathname, "/teacher", "/api/auth", 1);
    StartsWithExclusive(pathname, "/student", "/api/auth", 1);
    StartsWithExclusive(pathname, "/teacher", "/api/auth/register", 1);
    StartsWithExclusive(pathname, "/student", "/api/auth/register", 1);
    assert StartsWith(TeacherLogin, "/teacher/") && StartsWith(StudentAuth, "/student/");
  }

  /** Under the matcher a path such as "/teachers" never reaches the guard,
      so the raw-prefix reading of `Decide` is not what such a request sees. */
  lemma MatcherShieldsRawPrefixPaths()
    ensures Decide("/teachers", None) == Redirect(TeacherLogin)
    ensures Handle("/teachers", None) == Next
  {
    assert StartsWith("/teachers", "/teacher");
    assert !StartsWith("/teachers", "/teacher/") by {
      assert "/teachers"[8] != "/teacher/"[8];
    }
    assert !StartsWith("/teachers", "/student/") by {
      assert "/teachers"[1] != "/student/"[1];
    }
  }
}
