/** Authentication (`AuthContext`): the login decision against the user
    database, the session cookie carrying the signed-in identity, the
    restore of a session at start-up, logout and the role test. The cookie
    is modelled as the payload it decodes to; its encoding is not. */
module AuthContext {
  import opened Common
  import opened DatabaseContext

  const INVALID_CREDENTIALS := "Invalid email or password"
  const DEACTIVATED := "Account is deactivated"

  /** What the session token carries. */
  datatype TokenPayload = TokenPayload(id: string, email: string, role: string)

  /** The session cookie: a payload, or text that does not decode. */
  datatype Cookie = Payload(payload: TokenPayload) | Malformed

  /** The login checks, in order: an unknown email, then a deactivated
      account, then a wrong password. */
  function LoginCheck(users: seq<User>, email: string, password: string): (r: Result<User>)
    ensures r.Ok? ==> r.value.email == email && r.value.isActive && r.value.password == password && r.value in users
    ensures r.Ok? ==> FindUserByEmail(users, email) == Some(r.value)
    ensures FindUserByEmail(users, email).None? ==> r == Err(INVALID_CREDENTIALS)
    ensures r.Err? ==> r.message == INVALID_CREDENTIALS || r.message == DEACTIVATED
  {
    var found := FindUserByEmail(users, email);
    if found.None? then Err(INVALID_CREDENTIALS)
    else if !found.value.isActive then Err(DEACTIVATED)
    else if found.value.password != password then Err(INVALID_CREDENTIALS)
    else Ok(found.value)
  }

  /** A deactivated account is reported as such whatever password is
      given, so the message does not depend on the password. */
  lemma DeactivatedBeforePassword(users: seq<User>, email: string, password1: string, password2: string)
    requires FindUserByEmail(users, email).Some? && !FindUserByEmail(users, email).value.isActive
    ensures LoginCheck(users, email, password1) == LoginCheck(users, email, password2) == Err(DEACTIVATED)
  {
  }

  /** With unique emails, login succeeds iff the user with that email is
      active and has that password. */
  lemma LoginSucceedsIff(users: seq<User>, email: string, password: string)
    requires EmailsUnique(users)
    ensures LoginCheck(users, email, password).Ok? <==>
      exists i :: 0 <= i < |users| && users[i].email == email && users[i].isActive && users[i].password == password
  {
    if exists i :: 0 <= i < |users| && users[i].email == email && users[i].isActive && users[i].password == password {
      var i :| 0 <= i < |users| && users[i].email == email && users[i].isActive && users[i].password == password;
      FindByEmailUnique(users, email, i);
    }
  }

  /** The token payload of a signed-in user: id, email and role only. */
  function SessionToken(u: User): (t: TokenPayload)
    ensures t.id == u.id && t.email == u.email && t.role == u.role
  {
    TokenPayload(u.id, u.email, u.role)
  }

  /** The user a stored cookie restores: only an existing, active user
      with the cookie's id. */
  function RestoredUser(users: seq<User>, cookie: Option<Cookie>): (r: Option<PublicUser>)
    ensures r.Some? ==>
              cookie.Some? && cookie.value.Payload? &&
              exists i :: 0 <= i < |users| && users[i].id == cookie.value.payload.id && users[i].isActive &&
                          r.value == WithoutPassword(users[i])
    ensures (cookie.Some? && cookie.value.Payload? &&
             FindUserById(users, cookie.value.payload.id).Some? &&
             FindUserById(users, cookie.value.payload.id).value.isActive) ==> r.Some?
  {
    if cookie.None? || cookie.value.Malformed? then None
    else
      var found := FindUserById(users, cookie.value.payload.id);
      if found.Some? && found.value.isActive then Some(WithoutPassword(found.value)) else None
  }

  /** What the session effect leaves: the signed-in user, the cookie and
      whether authentication is still loading. */
  datatype AuthState = AuthState(user: Option<PublicUser>, cookie: Option<Cookie>, loading: bool)

  /** One run of `initializeAuth` against a user list, after `prior` was
      signed in: the restored user, or `prior` when nobody is restored (the
      effect never clears the user); the cookie kept exactly when it
      restores someone; loading over. */
  function AuthEffect(users: seq<User>, cookie: Option<Cookie>, prior: Option<PublicUser>): (s: AuthState)
    ensures RestoredUser(users, cookie).Some? ==> s.user == RestoredUser(users, cookie)
    ensures RestoredUser(users, cookie).None? ==> s.user == prior
    ensures s.cookie == if RestoredUser(users, cookie).Some? then cookie else None
    ensures !s.loading
  {
    var restored := RestoredUser(users, cookie);
    if restored.Some? then AuthState(restored, cookie, false) else AuthState(prior, None, false)
  }

  /** The effect re-runs whenever the database changes: once the signed-in
      user is deactivated or deleted, the re-run drops the cookie but leaves
      that user signed in. */
  lemma RerunKeepsSignedInUser(users: seq<User>, cookie: Option<Cookie>, signedIn: PublicUser)
    requires cookie.Some? && cookie.value.Payload? && cookie.value.payload.id == signedIn.id
    requires forall i :: 0 <= i < |users| && users[i].id == signedIn.id ==> !users[i].isActive
    ensures AuthEffect(users, cookie, Some(signedIn)) == AuthState(Some(signedIn), None, false)
  {
    var found := FindUserById(users, signedIn.id);
    assert found.Some? ==> !found.value.isActive;
  }

  /** A page load as the providers run it: the database starts with no
      users and fills them in its own effect, which runs after the effect
      of the authentication provider nested inside it; the session effect
      runs once against the empty list and again once the users are in. */
  function StartupAsWritten(stored: seq<User>, cookie: Option<Cookie>): AuthState
  {
    var first := AuthEffect([], cookie, None);
    AuthEffect(stored, first.cookie, first.user)
  }

  /** Against the empty list no cookie restores anyone, so even a cookie
      of an active stored user is dropped and the reload signs them out. */
  lemma StartupDropsSession(stored: seq<User>, cookie: Option<Cookie>)
    requires RestoredUser(stored, cookie).Some?
    ensures StartupAsWritten(stored, cookie) == AuthState(None, None, false)
  {
    assert RestoredUser([], cookie).None?;
    assert RestoredUser(stored, None).None?;
  }

  /** The session effect as intended: it waits while the users are not
      loaded yet, then restores from the cookie as it stands. */
  function AuthEffectOnceLoaded(loaded: bool, users: seq<User>, s: AuthState): (r: AuthState)
    ensures !loaded ==> r == s
    ensures loaded ==> r == AuthEffect(users, s.cookie, s.user)
  {
    if loaded then AuthEffect(users, s.cookie, s.user) else s
  }

  /** A page load with the waiting effect: first the run before the users
      are loaded, then the run after. */
  function StartupCorrected(stored: seq<User>, cookie: Option<Cookie>): AuthState
  {
    AuthEffectOnceLoaded(true, stored, AuthEffectOnceLoaded(false, [], AuthState(None, cookie, true)))
  }

  /** With the waiting effect a reload restores exactly the user the cookie
      names when that user is stored and active, and keeps the cookie
      exactly then. */
  lemma StartupRestoresSession(stored: seq<User>, cookie: Option<Cookie>)
    ensures StartupCorrected(stored, cookie).user == RestoredUser(stored, cookie)
    ensures StartupCorrected(stored, cookie).cookie == if RestoredUser(stored, cookie).Some? then cookie else None
    ensures !StartupCorrected(stored, cookie).loading
  {
    var first := AuthEffectOnceLoaded(false, [], AuthState(None, cookie, true));
    assert first.cookie == cookie;
  }

  /** `hasRole`: false without a user, else whether the user's role is
      one of the allowed ones. */
  predicate HasRoleOf(user: Option<PublicUser>, allowedRoles: seq<string>)
  {
    user.Some? && user.value.role in allowedRoles
  }

  /** The authentication state. */
  class Session {
    const db: Database
    var user: Option<PublicUser>
    var loading: bool
    var cookie: Option<Cookie>

    constructor(db: Database, cookie: Option<Cookie>)
      ensures this.db == db && this.cookie == cookie && user.None? && loading
    {
      this.db := db;
      this.cookie := cookie;
      user := None;
      loading := true;
    }

    /** `initializeAuth`: restores the session from the cookie, drops a
        cookie that restores nobody while leaving the user as it was, and
        ends loading. */
    method InitializeAuth()
      modifies this
      ensures RestoredUser(db.users, old(cookie)).Some? ==> user == RestoredUser(db.users, old(cookie))
      ensures RestoredUser(db.users, old(cookie)).None? ==> user == old(user)
      ensures cookie == if RestoredUser(db.users, old(cookie)).Some? then old(cookie) else None
      ensures !loading
      ensures AuthState(user, cookie, loading) == AuthEffect(db.users, old(cookie), old(user))
    {
      var restored := RestoredUser(db.users, cookie);
      if restored.Some? {
        user := restored;
      } else {
        cookie := None;
      }
      loading := false;
    }

    /** `login`: on success records the login time on that user only,
        sets the cookie and the signed-in user (as read before the
        update); on failure changes nothing. */
    method Login(email: string, password: string, now: int) returns (r: Result<PublicUser>)
      modifies this, db
      ensures var check := LoginCheck(old(db.users), email, password);
        (check.Err? ==> r == Err(check.message) && user == old(user) && cookie == old(cookie) &&
                        db.users == old(db.users)) &&
        (check.Ok? ==>
           r == Ok(WithoutPassword(check.value)) && user == Some(WithoutPassword(check.value)) &&
           cookie == Some(Payload(SessionToken(check.value))) &&
           db.users == UpdatedUsers(old(db.users), check.value.id, UserUpdate(None, None, None, None, None, None, Some(now))))
      ensures db.companies == old(db.companies) && loading == old(loading)
    {
      var check := LoginCheck(db.users, email, password);
      if check.Err? {
        return Err(check.message);
      }
      var found := check.value;
      db.UpdateUser(found.id, UserUpdate(None, None, None, None, None, None, Some(now)));
      cookie := Some(Payload(SessionToken(found)));
      user := Some(WithoutPassword(found));
      r := Ok(WithoutPassword(found));
    }

    /** `logout`. */
    method Logout()
      modifies this
      ensures user.None? && cookie.None? && !IsAuthenticated() && loading == old(loading)
    {
      cookie := None;
      user := None;
    }

    predicate HasRole(allowedRoles: seq<string>)
      reads this
    {
      HasRoleOf(user, allowedRoles)
    }

    /** `isAuthenticated`: `!!user`. */
    predicate IsAuthenticated()
      reads this
    {
      user.Some?
    }
  }
}
