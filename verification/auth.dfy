/** The two credentials providers of lib/auth.ts and its `jwt` and
    `session` callbacks. Password hashing is not modelled: `matches` stands
    for the password-hash comparison and is a parameter. */
module Auth {
  import opened Values
  import opened Records

  /** The fields of the sign-in form; the form itself may be missing. */
  datatype Credentials = Credentials(email: Option<string>, password: Option<string>)

  datatype Provider = TeacherCredentials | StudentCredentials

  /** The role a provider stamps on every user it signs in. */
  function ProviderRole(p: Provider): string {
    match p
    case TeacherCredentials => TeacherRole
    case StudentCredentials => StudentRole
  }

  /** The user object an `authorize` callback returns. */
  datatype User = User(id: string, email: string, name: string, role: string)

  /** The three errors `authorize` throws, in the order it checks for them. */
  datatype AuthError = MissingCredentials | AccountNotFound | InvalidPassword

  /** The columns `authorize` reads from the account it finds. */
  datatype Account = Account(id: string, email: string, name: string, password: string)

  /** `!credentials?.email || !credentials?.password` is false. */
  predicate CredentialsPresent(c: Option<Credentials>) {
    c.Some? && Truthy(c.value.email) && Truthy(c.value.password)
  }

  /** The provider's table, looked up by e-mail address. */
  function Lookup(p: Provider, store: Store, email: string): (r: Option<Account>)
    ensures r.Some? <==> (if p == TeacherCredentials then email in store.teachers else email in store.students)
  {
    match p
    case TeacherCredentials =>
      if email in store.teachers then
        var t := store.teachers[email];
        Some(Account(t.id, t.email, t.name, t.password))
      else None
    case StudentCredentials =>
      if email in store.students then
        var s := store.students[email];
        Some(Account(s.id, s.email, s.name, s.password))
      else None
  }

  /** `authorize`: missing fields, then an unknown address, then a wrong
      password; on success the account's identity with the provider's role. */
  function Authorize(p: Provider, c: Option<Credentials>, store: Store, matches: (string, string) -> bool)
    : (r: Result<User, AuthError>)
    ensures !CredentialsPresent(c) ==> r == Failure(MissingCredentials)
    ensures CredentialsPresent(c) && Lookup(p, store, c.value.email.value).None? ==> r == Failure(AccountNotFound)
    ensures CredentialsPresent(c) && Lookup(p, store, c.value.email.value).Some?
            && !matches(c.value.password.value, Lookup(p, store, c.value.email.value).value.password)
            ==> r == Failure(InvalidPassword)
    ensures r.Success? ==> r.value.role == ProviderRole(p)
    ensures r.Success? ==>
              && CredentialsPresent(c)
              && var a := Lookup(p, store, c.value.email.value);
              && a.Some?
              && matches(c.value.password.value, a.value.password)
              && r.value == User(a.value.id, a.value.email, a.value.name, ProviderRole(p))
  {
    if !CredentialsPresent(c) then Failure(MissingCredentials)
    else
      match Lookup(p, store, c.value.email.value)
      case None => Failure(AccountNotFound)
      case Some(a) =>
        if !matches(c.value.password.value, a.password) then Failure(InvalidPassword)
        else Success(User(a.id, a.email, a.name, ProviderRole(p)))
  }

  /** Sign-in succeeds exactly for a present form whose address is in the
      provider's own table and whose password matches that account's hash. */
  lemma AuthorizeSucceedsIff(p: Provider, c: Option<Credentials>, store: Store, matches: (string, string) -> bool)
    ensures Authorize(p, c, store, matches).Success? <==>
              && CredentialsPresent(c)
              && (if p == TeacherCredentials then c.value.email.value in store.teachers
                  else c.value.email.value in store.students)
              && matches(c.value.password.value, Lookup(p, store, c.value.email.value).value.password)
  {
  }

  /** A form with a missing field is rejected before the store is read:
      the answer is the same whatever the store holds. */
  lemma MissingCredentialsIgnoreStore(p: Provider, c: Option<Credentials>, s1: Store, s2: Store, matches: (string, string) -> bool)
    requires !CredentialsPresent(c)
    ensures Authorize(p, c, s1, matches) == Authorize(p, c, s2, matches) == Failure(MissingCredentials)
  {
  }

  /** The claims of a JSON web token that the callbacks read or write. */
  datatype Token = Token(name: Option<string>, email: Option<string>, sub: Option<string>, role: Option<string>, id: Option<string>)

  /** The `jwt` callback: at sign-in (a user is present) it copies the
      user's role and id into the token; otherwise the token passes through. */
  function Jwt(token: Token, user: Option<User>): (t: Token)
    ensures user.None? ==> t == token
    ensures user.Some? ==> t.role == Some(user.value.role) && t.id == Some(user.value.id)
    ensures t.name == token.name && t.email == token.email && t.sub == token.sub
  {
    if user.Some? then token.(role := Some(user.value.role), id := Some(user.value.id)) else token
  }

  /** Re-running the callback at sign-in changes nothing more, and later
      requests (no user) keep what sign-in wrote. */
  lemma JwtIdempotent(token: Token, user: Option<User>)
    ensures Jwt(Jwt(token, user), user) == Jwt(token, user)
    ensures Jwt(Jwt(token, user), None) == Jwt(token, user)
  {
  }

  datatype SessionUser = SessionUser(name: Option<string>, email: Option<string>, role: Option<string>, id: Option<string>)

  datatype Session = Session(user: Option<SessionUser>, expires: string)

  /** The `session` callback: when the session has a user, its role and id
      become the token's; nothing else changes. */
  function SessionCallback(session: Session, token: Token): (s: Session)
    ensures session.user.None? ==> s == session
    ensures session.user.Some? ==>
              && s.user.Some?
              && s.user.value.role == token.role
              && s.user.value.id == token.id
              && s.user.value.name == session.user.value.name
              && s.user.value.email == session.user.value.email
    ensures s.expires == session.expires
  {
    match session.user
    case None => session
    case Some(u) => session.(user := Some(u.(role := token.role, id := token.id)))
  }
}
