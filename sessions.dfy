/** The session table: sessions are created for seven days, looked up by
    token (an expired one is deleted on sight), deleted one by one or per
    user, and swept in bulk. Token generation is random and is not part of
    this model: the caller passes a token that is not yet in the table. */
module Sessions {
  import opened Domain
  import opened Store

  /** Seven days in milliseconds. */
  const SessionDuration := 7 * 24 * 60 * 60 * 1000

  /** A session is still good at `now` unless it expired strictly before. */
  predicate Live(s: Session, now: Instant)
  {
    !(s.expiresAt < now)
  }

  /** The user a lookup of `token` at `now` returns. */
  function UserOf(sessions: map<Token, Session>, users: map<UserId, AuthUser>, token: Token, now: Instant)
    : (u: Option<AuthUser>)
    ensures u.Some? <==> token in sessions && Live(sessions[token], now) && sessions[token].userId in users
    ensures u.Some? ==> u.value == users[sessions[token].userId]
  {
    if token in sessions && Live(sessions[token], now) && sessions[token].userId in users
    then Some(users[sessions[token].userId])
    else None
  }

  /** The session table after that lookup: an expired session is deleted. */
  function AfterLookup(sessions: map<Token, Session>, token: Token, now: Instant): (after: map<Token, Session>)
    ensures token in sessions && !Live(sessions[token], now) ==> after == sessions - {token}
    ensures !(token in sessions && !Live(sessions[token], now)) ==> after == sessions
  {
    if token in sessions && !Live(sessions[token], now) then sessions - {token} else sessions
  }

  /** The sessions of other users. */
  function WithoutUser(sessions: map<Token, Session>, userId: UserId): (kept: map<Token, Session>)
    ensures forall t :: t in kept <==> t in sessions && sessions[t].userId != userId
    ensures forall t :: t in kept ==> kept[t] == sessions[t]
  {
    map t | t in sessions && sessions[t].userId != userId :: sessions[t]
  }

  /** The sessions still live at `now`. */
  function LiveOnly(sessions: map<Token, Session>, now: Instant): (kept: map<Token, Session>)
    ensures forall t :: t in kept <==> t in sessions && Live(sessions[t], now)
    ensures forall t :: t in kept ==> kept[t] == sessions[t]
  {
    map t | t in sessions && Live(sessions[t], now) :: sessions[t]
  }

  /** createSession(userId) at `now`, storing the fresh `token`. */
  method CreateSession(db: Database, userId: UserId, token: Token, now: Instant) returns (t: Token)
    requires db.Valid() && userId in db.users && token !in db.sessions
    modifies db`sessions
    ensures db.Valid()
    ensures t == token
    ensures db.sessions == old(db.sessions)[token := Session(userId, now + SessionDuration)]
  {
    var expiresAt := now + SessionDuration;
    db.sessions := db.sessions[token := Session(userId, expiresAt)];
    t := token;
  }

  /** getUserFromSession(token) at `now`. */
  method GetUserFromSession(db: Database, token: Token, now: Instant) returns (user: Option<AuthUser>)
    requires db.Valid()
    modifies db`sessions
    ensures db.Valid()
    ensures user == UserOf(old(db.sessions), db.users, token, now)
    ensures db.sessions == AfterLookup(old(db.sessions), token, now)
  {
    if token !in db.sessions {
      return None;
    }
    var session := db.sessions[token];
    if session.expiresAt < now {
      db.sessions := db.sessions - {token};
      return None;
    }
    user := Some(db.users[session.userId]);
  }

  /** deleteSession(token): a missing token is ignored. */
  method DeleteSession(db: Database, token: Token)
    requires db.Valid()
    modifies db`sessions
    ensures db.Valid()
    ensures db.sessions == old(db.sessions) - {token}
  {
    if token in db.sessions {
      db.sessions := db.sessions - {token};
    }
  }

  /** deleteUserSessions(userId). */
  method DeleteUserSessions(db: Database, userId: UserId)
    requires db.Valid()
    modifies db`sessions
    ensures db.Valid()
    ensures db.sessions == WithoutUser(old(db.sessions), userId)
  {
    db.sessions := WithoutUser(db.sessions, userId);
  }

  /** cleanupExpiredSessions at `now`. */
  method CleanupExpiredSessions(db: Database, now: Instant)
    requires db.Valid()
    modifies db`sessions
    ensures db.Valid()
    ensures db.sessions == LiveOnly(old(db.sessions), now)
  {
    db.sessions := LiveOnly(db.sessions, now);
  }

  /** A new session lets its user in up to and including the instant seven
      days later, and not after. */
  lemma SessionLifetime(sessions: map<Token, Session>, users: map<UserId, AuthUser>,
                        userId: UserId, token: Token, created: Instant, now: Instant)
    requires userId in users
    ensures var s := sessions[token := Session(userId, created + SessionDuration)];
            UserOf(s, users, token, now) == (if now <= created + 604_800_000 then Some(users[userId]) else None)
  {
  }

  /** The sweep never logs out a live session, and it is idempotent. */
  lemma CleanupKeepsLogins(sessions: map<Token, Session>, users: map<UserId, AuthUser>, token: Token, now: Instant)
    ensures UserOf(LiveOnly(sessions, now), users, token, now) == UserOf(sessions, users, token, now)
    ensures LiveOnly(LiveOnly(sessions, now), now) == LiveOnly(sessions, now)
  {
  }

  /** After logout the token no longer identifies anyone, and after
      deleting a user's sessions none of their tokens does. */
  lemma LogoutIsFinal(sessions: map<Token, Session>, users: map<UserId, AuthUser>, token: Token,
                      userId: UserId, other: Token, now: Instant)
    ensures UserOf(sessions - {token}, users, token, now) == None
    ensures other in sessions && sessions[other].userId == userId ==>
              UserOf(WithoutUser(sessions, userId), users, other, now) == None
  {
  }
}
