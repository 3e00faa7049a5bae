/** The authentication gate: the session cookie identifies the caller, and
    `requireAuth` / `requireAdmin` either hand the caller on or fail with
    an AuthError (401 for no caller, 403 for a caller who is not an admin). */
module Auth {
  import opened Domain
  import opened Store
  import opened Sessions

  const SessionCookieName := "session_token"

  /** The AuthError class: a message and an HTTP status code. */
  datatype AuthError = AuthError(message: string, statusCode: int)

  const NotSignedIn := AuthError("Unauthorized", 401)
  const NotAdmin := AuthError("Forbidden - Admin access required", 403)

  datatype AuthOutcome = Authorized(user: AuthUser) | Denied(error: AuthError)

  function IsAdmin(user: AuthUser): (b: bool)
    ensures b <==> user.role == Admin
  {
    user.role == Admin
  }

  /** The caller getAuthUser finds for the cookie's value: none without a
      (non-empty) cookie, otherwise whoever the session lookup yields. */
  function CallerOf(sessions: map<Token, Session>, users: map<UserId, AuthUser>, cookie: Option<string>, now: Instant)
    : (u: Option<AuthUser>)
    ensures cookie.None? || cookie.value == [] ==> u.None?
    ensures u.Some? ==> cookie.value in sessions && Live(sessions[cookie.value], now)
                        && sessions[cookie.value].userId in users
                        && u.value == users[sessions[cookie.value].userId]
    // and every owner of a live session named by a non-empty cookie is one
    ensures u.Some? <==> cookie.Some? && cookie.value != [] && cookie.value in sessions
                         && Live(sessions[cookie.value], now) && sessions[cookie.value].userId in users
  {
    if cookie.None? || cookie.value == [] then None else UserOf(sessions, users, cookie.value, now)
  }

  /** The session table after getAuthUser: untouched without a cookie,
      otherwise as the session lookup leaves it. */
  function SessionsAfterAuth(sessions: map<Token, Session>, cookie: Option<string>, now: Instant)
    : (after: map<Token, Session>)
    ensures cookie.None? || cookie.value == [] ==> after == sessions
    ensures after.Keys <= sessions.Keys
    // the expired session a non-empty cookie names is deleted; nothing else changes
    ensures cookie.Some? && cookie.value != [] && cookie.value in sessions && !Live(sessions[cookie.value], now) ==>
              after == sessions - {cookie.value}
    ensures !(cookie.Some? && cookie.value != [] && cookie.value in sessions && !Live(sessions[cookie.value], now)) ==>
              after == sessions
  {
    if cookie.None? || cookie.value == [] then sessions else AfterLookup(sessions, cookie.value, now)
  }

  /** The decision of requireAuth (`adminOnly` false) and requireAdmin
      (`adminOnly` true) once the caller is known. */
  function Gate(caller: Option<AuthUser>, adminOnly: bool): (r: AuthOutcome)
    ensures caller.None? ==> r == Denied(NotSignedIn)
    ensures caller.Some? && adminOnly && !IsAdmin(caller.value) ==> r == Denied(NotAdmin)
    ensures r.Authorized? <==> caller.Some? && (!adminOnly || IsAdmin(caller.value))
    ensures r.Authorized? ==> r.user == caller.value
  {
    if caller.None? then Denied(NotSignedIn)
    else if adminOnly && !IsAdmin(caller.value) then Denied(NotAdmin)
    else Authorized(caller.value)
  }

  /** getAuthUser: reads the session cookie and looks the session up. */
  method GetAuthUser(db: Database, cookie: Option<string>, now: Instant) returns (user: Option<AuthUser>)
    requires db.Valid()
    modifies db`sessions
    ensures db.Valid()
    ensures user == CallerOf(old(db.sessions), db.users, cookie, now)
    ensures db.sessions == SessionsAfterAuth(old(db.sessions), cookie, now)
  {
    if cookie.None? || cookie.value == [] {
      return None;
    }
    user := GetUserFromSession(db, cookie.value, now);
  }

  method RequireAuth(db: Database, cookie: Option<string>, now: Instant) returns (r: AuthOutcome)
    requires db.Valid()
    modifies db`sessions
    ensures db.Valid()
    ensures r == Gate(CallerOf(old(db.sessions), db.users, cookie, now), false)
    ensures db.sessions == SessionsAfterAuth(old(db.sessions), cookie, now)
  {
    var user := GetAuthUser(db, cookie, now);
    if user.None? {
      return Denied(NotSignedIn);
    }
    r := Authorized(user.value);
  }

  method RequireAdmin(db: Database, cookie: Option<string>, now: Instant) returns (r: AuthOutcome)
    requires db.Valid()
    modifies db`sessions
    ensures db.Valid()
    ensures r == Gate(CallerOf(old(db.sessions), db.users, cookie, now), true)
    ensures db.sessions == SessionsAfterAuth(old(db.sessions), cookie, now)
  {
    var authed := RequireAuth(db, cookie, now);
    if authed.Denied? {
      return authed;
    }
    if !IsAdmin(authed.user) {
      return Denied(NotAdmin);
    }
    r := authed;
  }

  /** Whoever passes the admin gate also passes the sign-in gate, and a
      caller the sign-in gate refuses gets 401 from the admin gate too. */
  lemma AdminGateImpliesAuthGate(caller: Option<AuthUser>)
    ensures Gate(caller, true).Authorized? ==> Gate(caller, false) == Gate(caller, true)
    ensures Gate(caller, false).Denied? ==> Gate(caller, true) == Gate(caller, false)
    ensures Gate(caller, true).Authorized? ==> Gate(caller, true).user.role == Admin
  {
  }
}
