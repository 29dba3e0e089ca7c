/** The login handler, src/app/api/auth/login/route.ts: the credentials
    check and the user it reports, without the password. */
module LoginRoute {
  import opened Wrappers
  import opened Http
  import opened Docs
  import opened LumaListings

  /** A user as the login reply reports it: every stored field but the
      password. */
  datatype PublicUser = PublicUser(
    id: string, name: string, email: string, role: string,
    avatar: Option<string>, isActive: bool, createdAt: int, updatedAt: Option<int>)

  /** `const { password: _, ...userWithoutPassword } = user` (line 26). */
  function WithoutPassword(u: UserDoc): (p: PublicUser)
    ensures p.id == u.id && p.name == u.name && p.email == u.email && p.role == u.role
    ensures p.avatar == u.avatar && p.isActive == u.isActive
    ensures p.createdAt == u.createdAt && p.updatedAt == u.updatedAt
  {
    PublicUser(u.id, u.name, u.email, u.role, u.avatar, u.isActive, u.createdAt, u.updatedAt)
  }

  /** A public user together with a password is a stored user again. */
  function WithPassword(p: PublicUser, password: Option<string>): UserDoc {
    UserDoc(p.id, p.name, p.email, p.role, p.avatar, password, p.isActive, p.createdAt, p.updatedAt)
  }

  /** Only the password is dropped: putting it back gives the stored user. */
  lemma OnlyPasswordDropped(u: UserDoc)
    ensures WithPassword(WithoutPassword(u), u.password) == u
  {
  }

  /** Two users that differ only in their password look the same in a
      reply. */
  lemma PasswordNotReported(u: UserDoc, password: Option<string>)
    ensures WithoutPassword(u.(password := password)) == WithoutPassword(u)
  {
  }

  /** The `POST` handler (lines 4-39) over the user listing `found`: 400
      when the email or the password is missing or empty, whatever the
      store holds; 401 when `authenticateUser` finds no one; otherwise the
      authenticated user without the password. */
  function Login(found: seq<UserDoc>, email: Option<string>, password: Option<string>): (r: Reply<PublicUser>)
    ensures !Truthy(email) || !Truthy(password) ==> r == Fail(400, "Email and password are required")
    ensures Truthy(email) && Truthy(password) && AuthenticateUser(found, email.value, password.value).None? ==>
              r == Fail(401, "Invalid credentials")
    ensures Truthy(email) && Truthy(password) && AuthenticateUser(found, email.value, password.value).Some? ==>
              r == Ok(WithoutPassword(AuthenticateUser(found, email.value, password.value).value))
    ensures r.Ok? ==> (Truthy(email) && Truthy(password) &&
              exists u :: u in found && u.isActive && SameEmail(u.email, email.value) &&
                          PasswordAccepts(u.password, password.value) && r.data == WithoutPassword(u))
  {
    if !Truthy(email) || !Truthy(password) then Fail(400, "Email and password are required")
    else
      var user := AuthenticateUser(found, email.value, password.value);
      if user.None? then Fail(401, "Invalid credentials")
      else
        assert user.value in found && SameEmail(user.value.email, email.value) &&
               PasswordAccepts(user.value.password, password.value);
        Ok(WithoutPassword(user.value))
  }

  /** The reply to a request without both credentials does not depend on
      the store. */
  lemma MissingCredentialsIgnoreStore(a: seq<UserDoc>, b: seq<UserDoc>, email: Option<string>, password: Option<string>)
    requires !Truthy(email) || !Truthy(password)
    ensures Login(a, email, password) == Login(b, email, password)
  {
  }

  /** An active user whose stored password is the one given, and who is
      the first user of the listing with that address, is let in. */
  lemma RightPasswordLogsIn(found: seq<UserDoc>, i: int, password: string)
    requires 0 <= i < |found| && found[i].isActive && found[i].email != "" && password != ""
    requires found[i].password == Some(password)
    requires forall j :: 0 <= j < i ==> !SameEmail(found[j].email, found[i].email)
    ensures Login(found, Some(found[i].email), Some(password)) == Ok(WithoutPassword(found[i]))
  {
    assert SameEmail(found[i].email, found[i].email);
    var user := GetUserByEmail(found, found[i].email);
    var n :| 0 <= n < |found| && found[n] == user.value && SameEmail(found[n].email, found[i].email) &&
             forall j :: 0 <= j < n ==> !SameEmail(found[j].email, found[i].email);
    assert n == i;
  }

  /** An active user without a stored password, or with an empty one, who
      is the first user of the listing with that address, is let in with
      any non-empty password. */
  lemma NoStoredPasswordLogsIn(found: seq<UserDoc>, i: int, password: string)
    requires 0 <= i < |found| && found[i].isActive && found[i].email != "" && password != ""
    requires !Truthy(found[i].password)
    requires forall j :: 0 <= j < i ==> !SameEmail(found[j].email, found[i].email)
    ensures Login(found, Some(found[i].email), Some(password)) == Ok(WithoutPassword(found[i]))
  {
    assert SameEmail(found[i].email, found[i].email);
    var user := GetUserByEmail(found, found[i].email);
    var n :| 0 <= n < |found| && found[n] == user.value && SameEmail(found[n].email, found[i].email) &&
             forall j :: 0 <= j < n ==> !SameEmail(found[j].email, found[i].email);
    assert n == i;
  }
}
