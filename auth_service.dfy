/**
 * `AuthenticationService` of the users service
 * (source/backend/users-service/app/services/auth.py): refresh sessions
 * `{refresh_token, user_id, expires_in, created_at}` stored in a table that
 * allows duplicates, looked up by token string, first match first.
 *
 * Each operation is a pure function from the committed tables to the outcome
 * and the new committed tables, and a method that performs it step by step on
 * a unit of work and is proved to agree with that function. Where the code as
 * written loses an effect to the unit of work's rollback, or fails before doing
 * its work, the as-written function and method are kept beside the corrected
 * ones (see the findings in README.md).
 *
 * The clock is the parameter `now` (whole seconds); the random bytes behind a
 * new refresh token and the identifiers the database assigns are parameters too.
 */
module AuthService {
  import opened Wrappers
  import opened Values
  import opened Errors
  import opened Specification
  import opened Table
  import opened Uow
  import opened Jwt
  import opened Crypt
  import Repo = Repository
  import B64 = Base64Url

  /** The `Token` schema returned to the client. */
  datatype Token = Token(accessToken: AccessToken, refreshToken: string, tokenType: string)

  /** The default number of random bytes of a refresh token. */
  const RefreshTokenBytes := 64

  const SecondsPerDay := 86400

  /** `_generate_refresh_token(lenght)`: `secrets.token_urlsafe(lenght)` on the
      given random bytes, base64url text without padding. */
  function GenerateRefreshToken(random: seq<B64.byte>): (token: string)
    ensures |token| == (4 * |random| + 2) / 3
    ensures forall k :: 0 <= k < |token| ==> B64.UrlSafe(token[k])
  {
    B64.EncodeLength(random);
    B64.Encode(random)
  }

  /** With the default length the token has 86 characters, and different random
      bytes never give the same token. */
  lemma RefreshTokenShape(random: seq<B64.byte>, other: seq<B64.byte>)
    requires |random| == RefreshTokenBytes
    ensures |GenerateRefreshToken(random)| == 86
    ensures GenerateRefreshToken(random) == GenerateRefreshToken(other) ==> random == other
  {
    if GenerateRefreshToken(random) == GenerateRefreshToken(other) {
      B64.EncodeInjective(random, other);
    }
  }

  /** `RefreshSessionCreate(refresh_token, expires_in, user_id)`: every field set. */
  function SessionSchema(token: string, userId: Value, settings: AuthSettings): (s: Repo.Schema)
    ensures s.fields.Keys == s.explicitlySet == {"refresh_token", "expires_in", "user_id"}
    ensures s.fields["expires_in"] == Int(settings.refreshTokenExpireDays * SecondsPerDay)
  {
    var fields := map["refresh_token" := Str(token),
                      "expires_in" := Int(settings.refreshTokenExpireDays * SecondsPerDay),
                      "user_id" := userId];
    Repo.Schema(fields, fields.Keys)
  }

  /** The stored session row. */
  function SessionRow(token: string, userId: Value, settings: AuthSettings, newId: int, now: int): (row: Row)
    ensures row.Keys == SessionColumns
    ensures row["refresh_token"] == Str(token) && row["user_id"] == userId
    ensures row["expires_in"] == Int(settings.refreshTokenExpireDays * SecondsPerDay)
    ensures row["created_at"] == Int(now) && row["id"] == Int(newId)
  {
    NewRow(SessionColumns, SessionSchema(token, userId, settings).fields, Generated(newId, now))
  }

  /** `create_session(uow, user_id)` on committed tables: one more session, at the end. */
  function CreateSessionOutcome(db: Db, token: string, userId: Value, settings: AuthSettings,
                                newId: int, now: int): (r: (Row, Db))
    ensures r.1.users == db.users && r.1.sessions == db.sessions + [r.0]
    ensures r.0 == SessionRow(token, userId, settings, newId, now)
  {
    var row := SessionRow(token, userId, settings, newId, now);
    (row, Db(db.users, db.sessions + [row]))
  }

  /** The lookup specification for a presented refresh token. */
  function TokenSpec(token: string): Option<Spec>
  {
    Some(RefreshTokenIs(Str(token)))
  }

  /** `datetime.utcnow() > session.created_at + timedelta(seconds=session.expires_in)`:
      expired only strictly after the end of its lifetime; anything but numbers
      in those columns makes the addition raise. */
  function ExpiryCheck(session: Row, now: int): (r: Result<bool, Error>)
    ensures Attr(session, "created_at").Int? && Attr(session, "expires_in").Int? <==> r.Ok?
    ensures r.Ok? ==> (r.value <==> now > Attr(session, "created_at").i + Attr(session, "expires_in").i)
  {
    match (Attr(session, "created_at"), Attr(session, "expires_in"))
    case (Int(created), Int(lifetime)) => Ok(now > created + lifetime)
    case _ => Err(TypeError("unsupported operand type(s) for +"))
  }

  /** The table after deleting the first session carrying the token. */
  function DeleteToken(sessions: seq<Row>, token: string): (r: seq<Row>)
    ensures FirstIndex(sessions, TokenSpec(token)).None? ==> r == sessions
    ensures FirstIndex(sessions, TokenSpec(token)).Some? ==>
      r == RemoveAt(sessions, FirstIndex(sessions, TokenSpec(token)).value)
  {
    match FirstIndex(sessions, TokenSpec(token))
    case None => sessions
    case Some(i) => RemoveAt(sessions, i)
  }

  /** The token pair a successful refresh or login returns. */
  function IssueToken(user: Row, refreshToken: string, now: int, settings: AuthSettings): (t: Token)
    ensures t.accessToken.claims.sub == Attr(user, "id") && t.accessToken.claims.iat == now
    ensures t.refreshToken == refreshToken && t.tokenType == settings.tokenType
  {
    Token(EncodeWithSettings(Attr(user, "id"), now, settings), refreshToken, settings.tokenType)
  }

  /** `refresh_token(uow, refresh_token)` as written: the expired session is
      deleted and then `TokenExpiredException` is raised inside `async with uow`,
      whose exit rolls the deletion back, so nothing is ever committed. */
  function RefreshAsWritten(db: Db, token: string, now: int, settings: AuthSettings): (r: (Result<Token, Error>, Db))
    ensures r.1 == db
  {
    match FirstMatch(db.sessions, TokenSpec(token))
    case None => (Err(InvalidToken), db)
    case Some(session) =>
      match ExpiryCheck(session, now)
      case Err(e) => (Err(e), db)
      case Ok(expired) =>
        if expired then (Err(TokenExpired), db)
        else match FirstMatch(db.users, Some(UserID(Attr(session, "user_id"))))
          case None => (Err(InvalidToken), db)
          case Some(user) => (Ok(IssueToken(user, token, now, settings)), db)
  }

  /** `refresh_token` as intended: an expired session is deleted for good. */
  function Refresh(db: Db, token: string, now: int, settings: AuthSettings): (r: (Result<Token, Error>, Db))
    ensures FirstMatch(db.sessions, TokenSpec(token)).None? ==> r == (Err(InvalidToken), db)
    ensures r.0 != Err(TokenExpired) ==> r.1 == db
    ensures r.0 == Err(TokenExpired) ==>
      r.1.users == db.users && r.1.sessions == DeleteToken(db.sessions, token) && |r.1.sessions| == |db.sessions| - 1
    ensures r.0.Ok? ==> r.0.value.refreshToken == token && r.0.value.tokenType == settings.tokenType
  {
    match FirstMatch(db.sessions, TokenSpec(token))
    case None => (Err(InvalidToken), db)
    case Some(session) =>
      match ExpiryCheck(session, now)
      case Err(e) => (Err(e), db)
      case Ok(expired) =>
        if expired then (Err(TokenExpired), Db(db.users, DeleteToken(db.sessions, token)))
        else match FirstMatch(db.users, Some(UserID(Attr(session, "user_id"))))
          case None => (Err(InvalidToken), db)
          case Some(user) => (Ok(IssueToken(user, token, now, settings)), db)
  }

  /** `UserRepository.get_user_refresh_session(UserEmailSpecification(email))`
      (source/backend/users-service/app/database/repositories/user.py): the first
      user with the email, joined with its refresh session, the first session
      whose `user_id` is the user's id. */
  function UserWithRefreshSession(db: Db, email: Value): (r: Option<(Row, Option<Row>)>)
    ensures r.None? <==> FirstMatch(db.users, Some(UserEmail(email))).None?
    ensures r.Some? ==> Some(r.value.0) == FirstMatch(db.users, Some(UserEmail(email)))
    ensures r.Some? ==> r.value.1 == FirstMatch(db.sessions, Some(UserIdIs(Attr(r.value.0, "id"))))
  {
    match FirstMatch(db.users, Some(UserEmail(email)))
    case None => None
    case Some(user) => Some((user, FirstMatch(db.sessions, Some(UserIdIs(Attr(user, "id"))))))
  }

  /** The message Python gives for `async with` on a coroutine object. */
  const NotAContextManager := TypeError("'coroutine' object does not support the asynchronous context manager protocol")

  /** What Python raises at source/backend/users-service/app/services/auth.py:174:
      the `UserService` it imports (services/user.py) has no such method. */
  const NoUserLookup := AttributeError("type object 'UserService' has no attribute 'get_user_with_refresh_session'")

  /** `authenticate_user(uow, email, password)` as written: the lookup at its
      first line raises before anything is read or written. */
  function AuthenticateAsWritten(db: Db, email: Value, password: string, now: int, settings: AuthSettings): (r: (Result<Token, Error>, Db))
    ensures r.0.Err? && r.1 == db
  {
    (Err(NoUserLookup), db)
  }

  /** `authenticate_user` with only the lookup corrected to the repository's
      `get_user_refresh_session`: for a user without a session,
      `async with cls.create_session(...)` is applied to the coroutine the call
      returns, which raises before the coroutine runs. */
  function AuthenticateAfterLookup(db: Db, email: Value, password: string, now: int, settings: AuthSettings): (r: (Result<Token, Error>, Db))
    ensures r.1 == db
  {
    match UserWithRefreshSession(db, email)
    case None => (Err(InvalidCredentials), db)
    case Some((user, session)) =>
      if !VerifyPassword(password, Attr(user, "hashed_password")) then (Err(InvalidCredentials), db)
      else if session.None? then (Err(NotAContextManager), db)
      else (Ok(IssueToken(user, ToStr(Attr(session.value, "refresh_token")), now, settings)), db)
  }

  /** `authenticate_user` as intended: a user without a session gets a new one. */
  function Authenticate(db: Db, email: Value, password: string, random: seq<B64.byte>, newId: int,
                        now: int, settings: AuthSettings): (r: (Result<Token, Error>, Db))
    ensures r.0.Err? ==> r == (Err(InvalidCredentials), db)
    ensures r.0.Ok? <==> (UserWithRefreshSession(db, email).Some? &&
                          VerifyPassword(password, Attr(UserWithRefreshSession(db, email).value.0, "hashed_password")))
    ensures r.0.Ok? ==> r.0.value.accessToken.claims.sub == Attr(UserWithRefreshSession(db, email).value.0, "id")
    ensures r.1 != db ==>
      r.0.Ok? && UserWithRefreshSession(db, email).value.1.None? &&
      r.1.users == db.users && |r.1.sessions| == |db.sessions| + 1 && r.1.sessions[..|db.sessions|] == db.sessions
  {
    match UserWithRefreshSession(db, email)
    case None => (Err(InvalidCredentials), db)
    case Some((user, session)) =>
      if !VerifyPassword(password, Attr(user, "hashed_password")) then (Err(InvalidCredentials), db)
      else if session.None? then
        var (created, db') := CreateSessionOutcome(db, GenerateRefreshToken(random), Attr(user, "id"), settings, newId, now);
        (Ok(IssueToken(user, ToStr(Attr(created, "refresh_token")), now, settings)), db')
      else (Ok(IssueToken(user, ToStr(Attr(session.value, "refresh_token")), now, settings)), db)
  }

  /** `logout(uow, refresh_token)` as written: an expired session's deletion is
      rolled back like in refresh, and a live session is committed without
      being deleted at all. */
  function LogoutAsWritten(db: Db, token: string, now: int): (r: (Result<(), Error>, Db))
    ensures r.1 == db
  {
    match FirstMatch(db.sessions, TokenSpec(token))
    case None => (Err(InvalidToken), db)
    case Some(session) =>
      match ExpiryCheck(session, now)
      case Err(e) => (Err(e), db)
      case Ok(expired) =>
        if expired then (Err(TokenExpired), db) else (Ok(()), db)
  }

  /** `logout` as its documentation says: the session is deleted. */
  function Logout(db: Db, token: string, now: int): (r: (Result<(), Error>, Db))
    ensures FirstMatch(db.sessions, TokenSpec(token)).None? ==> r == (Err(InvalidToken), db)
    ensures r.0.Ok? || r.0 == Err(TokenExpired) ==>
      r.1.users == db.users && r.1.sessions == DeleteToken(db.sessions, token) && |r.1.sessions| == |db.sessions| - 1
    ensures !(r.0.Ok? || r.0 == Err(TokenExpired)) ==> r.1 == db
  {
    match FirstMatch(db.sessions, TokenSpec(token))
    case None => (Err(InvalidToken), db)
    case Some(session) =>
      match ExpiryCheck(session, now)
      case Err(e) => (Err(e), db)
      case Ok(expired) =>
        (if expired then Err(TokenExpired) else Ok(()), Db(db.users, DeleteToken(db.sessions, token)))
  }

  // ---------------------------------------------------------------------------
  // The service methods, on a unit of work.

  /** `create_session(uow, user_id)`. */
  method CreateSession(uow: UnitOfWork, random: seq<B64.byte>, userId: Value, settings: AuthSettings,
                       newId: int, now: int) returns (session: Row)
    requires uow.Valid() && uow.Closed()
    modifies uow, uow.user, uow.refreshSession
    ensures uow.Valid() && uow.Closed()
    ensures (session, uow.Committed()) ==
      CreateSessionOutcome(old(uow.Committed()), GenerateRefreshToken(random), userId, settings, newId, now)
  {
    var token := GenerateRefreshToken(random);
    uow.Enter();
    var created := uow.refreshSession.Create(Repo.SchemaPayload(SessionSchema(token, userId, settings)), Generated(newId, now));
    assert created.Ok?;
    session := created.value;
    uow.Commit();
    uow.Exit();
  }

  /** `refresh_token(uow, refresh_token)` as written. */
  method RefreshTokenAsWritten(uow: UnitOfWork, token: string, now: int, settings: AuthSettings)
    returns (r: Result<Token, Error>)
    requires uow.Valid() && uow.Closed()
    modifies uow, uow.user, uow.refreshSession
    ensures uow.Valid() && uow.Closed()
    ensures (r, uow.Committed()) == RefreshAsWritten(old(uow.Committed()), token, now, settings)
  {
    uow.Enter();
    var session := uow.refreshSession.Get(TokenSpec(token));
    if session.None? {
      uow.Exit();
      return Err(InvalidToken);
    }
    var expired := ExpiryCheck(session.value, now);
    if expired.Err? {
      uow.Exit();
      return Err(expired.error);
    }
    if expired.value {
      var deleted := uow.refreshSession.Delete(TokenSpec(token));
      uow.Exit();
      return Err(TokenExpired);
    }
    var user := uow.user.Get(Some(UserID(Attr(session.value, "user_id"))));
    if user.None? {
      uow.Exit();
      return Err(InvalidToken);
    }
    uow.Commit();
    uow.Exit();
    r := Ok(IssueToken(user.value, token, now, settings));
  }

  /** `refresh_token` with the deletion of an expired session committed. */
  method RefreshToken(uow: UnitOfWork, token: string, now: int, settings: AuthSettings)
    returns (r: Result<Token, Error>)
    requires uow.Valid() && uow.Closed()
    modifies uow, uow.user, uow.refreshSession
    ensures uow.Valid() && uow.Closed()
    ensures (r, uow.Committed()) == Refresh(old(uow.Committed()), token, now, settings)
  {
    uow.Enter();
    var session := uow.refreshSession.Get(TokenSpec(token));
    if session.None? {
      uow.Exit();
      return Err(InvalidToken);
    }
    var expired := ExpiryCheck(session.value, now);
    if expired.Err? {
      uow.Exit();
      return Err(expired.error);
    }
    if expired.value {
      var deleted := uow.refreshSession.Delete(TokenSpec(token));
      uow.Commit();
      uow.Exit();
      return Err(TokenExpired);
    }
    var user := uow.user.Get(Some(UserID(Attr(session.value, "user_id"))));
    if user.None? {
      uow.Exit();
      return Err(InvalidToken);
    }
    uow.Commit();
    uow.Exit();
    r := Ok(IssueToken(user.value, token, now, settings));
  }

  /** `UserRepository.get_user_refresh_session(spec)` over the open unit of
      work: the user and the session it owns. */
  method GetUserRefreshSession(uow: UnitOfWork, email: Value) returns (r: Option<(Row, Option<Row>)>)
    requires uow.Valid() && uow.Closed()
    ensures r == UserWithRefreshSession(uow.Committed(), email)
  {
    var user := uow.user.Get(Some(UserEmail(email)));
    if user.None? {
      return None;
    }
    var session := uow.refreshSession.Get(Some(UserIdIs(Attr(user.value, "id"))));
    r := Some((user.value, session));
  }

  /** `authenticate_user(uow, email, password)` as written. */
  method AuthenticateUserAsWritten(uow: UnitOfWork, email: Value, password: string, now: int,
                                   settings: AuthSettings) returns (r: Result<Token, Error>)
    requires uow.Valid() && uow.Closed()
    ensures (r, uow.Committed()) == AuthenticateAsWritten(uow.Committed(), email, password, now, settings)
  {
    r := Err(NoUserLookup);
  }

  /** `authenticate_user` with the session created as intended. */
  method AuthenticateUser(uow: UnitOfWork, email: Value, password: string, random: seq<B64.byte>,
                          newId: int, now: int, settings: AuthSettings) returns (r: Result<Token, Error>)
    requires uow.Valid() && uow.Closed()
    modifies uow, uow.user, uow.refreshSession
    ensures uow.Valid() && uow.Closed()
    ensures (r, uow.Committed()) == Authenticate(old(uow.Committed()), email, password, random, newId, now, settings)
  {
    var found := GetUserRefreshSession(uow, email);
    if found.None? || !VerifyPassword(password, Attr(found.value.0, "hashed_password")) {
      return Err(InvalidCredentials);
    }
    var (user, session) := found.value;
    if session.None? {
      var created := CreateSession(uow, random, Attr(user, "id"), settings, newId, now);
      return Ok(IssueToken(user, ToStr(Attr(created, "refresh_token")), now, settings));
    }
    r := Ok(IssueToken(user, ToStr(Attr(session.value, "refresh_token")), now, settings));
  }

  /** `logout(uow, refresh_token)` as written. */
  method LogoutUserAsWritten(uow: UnitOfWork, token: string, now: int) returns (r: Result<(), Error>)
    requires uow.Valid() && uow.Closed()
    modifies uow, uow.user, uow.refreshSession
    ensures uow.Valid() && uow.Closed()
    ensures (r, uow.Committed()) == LogoutAsWritten(old(uow.Committed()), token, now)
  {
    uow.Enter();
    var session := uow.refreshSession.Get(TokenSpec(token));
    if session.None? {
      uow.Exit();
      return Err(InvalidToken);
    }
    var expired := ExpiryCheck(session.value, now);
    if expired.Err? {
      uow.Exit();
      return Err(expired.error);
    }
    if expired.value {
      var deleted := uow.refreshSession.Delete(TokenSpec(token));
      uow.Exit();
      return Err(TokenExpired);
    }
    uow.Commit();
    uow.Exit();
    r := Ok(());
  }

  /** `logout` deleting the session it was given, live or expired. */
  method LogoutUser(uow: UnitOfWork, token: string, now: int) returns (r: Result<(), Error>)
    requires uow.Valid() && uow.Closed()
    modifies uow, uow.user, uow.refreshSession
    ensures uow.Valid() && uow.Closed()
    ensures (r, uow.Committed()) == Logout(old(uow.Committed()), token, now)
  {
    uow.Enter();
    var session := uow.refreshSession.Get(TokenSpec(token));
    if session.None? {
      uow.Exit();
      return Err(InvalidToken);
    }
    var expired := ExpiryCheck(session.value, now);
    if expired.Err? {
      uow.Exit();
      return Err(expired.error);
    }
    var deleted := uow.refreshSession.Delete(TokenSpec(token));
    uow.Commit();
    uow.Exit();
    r := if expired.value then Err(TokenExpired) else Ok(());
  }

  // ---------------------------------------------------------------------------
  // Properties of the operations.

  /** Expiry is strict: a session is still live at the second its lifetime
      ends and expired from the next second on. */
  lemma ExpiryBoundary(session: Row, created: int, lifetime: int, now: int)
    requires Attr(session, "created_at") == Int(created) && Attr(session, "expires_in") == Int(lifetime)
    ensures ExpiryCheck(session, created + lifetime) == Ok(false)
    ensures ExpiryCheck(session, now) == Ok(true) <==> now >= created + lifetime + 1
  {
  }

  /** A new session is live from its creation until its configured number of days has passed. */
  lemma NewSessionLive(token: string, userId: Value, settings: AuthSettings, newId: int, now: int, t: int)
    requires settings.refreshTokenExpireDays >= 0
    ensures ExpiryCheck(SessionRow(token, userId, settings, newId, now), t) ==
      Ok(t > now + settings.refreshTokenExpireDays * SecondsPerDay)
  {
  }

  /** A refresh succeeds only for a stored session carrying the token that is
      still live and belongs to an existing user; it hands back the presented
      refresh token (no rotation), a new access token for that user issued now,
      and commits nothing. */
  lemma {:induction false} RefreshOnlyForLiveSession(db: Db, token: string, now: int, settings: AuthSettings)
    requires Refresh(db, token, now, settings).0.Ok?
    ensures Refresh(db, token, now, settings).1 == db
    ensures var t := Refresh(db, token, now, settings).0.value;
      t.refreshToken == token && t.tokenType == settings.tokenType && t.accessToken.claims.iat == now &&
      exists k :: 0 <= k < |db.sessions| && Attr(db.sessions[k], "refresh_token") == Str(token) &&
        Attr(db.sessions[k], "created_at").Int? && Attr(db.sessions[k], "expires_in").Int? &&
        now <= Attr(db.sessions[k], "created_at").i + Attr(db.sessions[k], "expires_in").i &&
        exists m :: 0 <= m < |db.users| && Attr(db.users[m], "id") == Attr(db.sessions[k], "user_id") &&
          t.accessToken.claims.sub == Attr(db.users[m], "id")
  {
    var k := FirstIndex(db.sessions, TokenSpec(token)).value;
    var session := db.sessions[k];
    var m := FirstIndex(db.users, Some(UserID(Attr(session, "user_id")))).value;
    assert Attr(db.users[m], "id") == Attr(session, "user_id");
  }

  /** The corrected refresh answers exactly as the written one; the only
      difference is that it commits the deletion of an expired session. */
  lemma RefreshAnswersAsWritten(db: Db, token: string, now: int, settings: AuthSettings)
    ensures Refresh(db, token, now, settings).0 == RefreshAsWritten(db, token, now, settings).0
    ensures Refresh(db, token, now, settings).1 != db ==> Refresh(db, token, now, settings).0 == Err(TokenExpired)
  {
  }

  /** As written, an expired session is reported expired at every later time
      and stays in the table: nothing ever removes it. */
  lemma {:induction false} ExpiredSessionKeptAsWritten(db: Db, token: string, now: int, later: int, settings: AuthSettings)
    requires FirstMatch(db.sessions, TokenSpec(token)).Some?
    requires ExpiryCheck(FirstMatch(db.sessions, TokenSpec(token)).value, now) == Ok(true)
    requires later >= now
    ensures RefreshAsWritten(db, token, later, settings) == (Err(TokenExpired), db)
    ensures LogoutAsWritten(db, token, later) == (Err(TokenExpired), db)
  {
    var session := FirstMatch(db.sessions, TokenSpec(token)).value;
    assert ExpiryCheck(session, later) == Ok(true);
  }

  /** Corrected, the expired session the refresh found is deleted and exactly
      that one; if no other session carries the token, the token is then unknown. */
  lemma {:induction false} RefreshRemovesExpiredSession(db: Db, token: string, now: int, later: int, settings: AuthSettings)
    requires FirstIndex(db.sessions, TokenSpec(token)).Some?
    requires ExpiryCheck(db.sessions[FirstIndex(db.sessions, TokenSpec(token)).value], now) == Ok(true)
    ensures var (r, db') := Refresh(db, token, now, settings);
      r == Err(TokenExpired) && db'.users == db.users &&
      multiset(db'.sessions) + multiset{db.sessions[FirstIndex(db.sessions, TokenSpec(token)).value]} == multiset(db.sessions)
    ensures (forall j :: 0 <= j < |db.sessions| && j != FirstIndex(db.sessions, TokenSpec(token)).value ==>
               !Selects(TokenSpec(token), db.sessions[j])) ==>
      Refresh(Refresh(db, token, now, settings).1, token, later, settings) == (Err(InvalidToken), Refresh(db, token, now, settings).1)
  {
    var i := FirstIndex(db.sessions, TokenSpec(token)).value;
    if forall j :: 0 <= j < |db.sessions| && j != i ==> !Selects(TokenSpec(token), db.sessions[j]) {
      FirstIndexRemovedOnly(db.sessions, i, TokenSpec(token));
    }
  }

  /** As written, every login fails with the missing lookup and changes
      nothing, including the logins the intended version lets in. */
  lemma LoginFailsAsWritten(db: Db, email: Value, password: string, random: seq<B64.byte>,
                            newId: int, now: int, settings: AuthSettings)
    requires Authenticate(db, email, password, random, newId, now, settings).0.Ok?
    ensures AuthenticateAsWritten(db, email, password, now, settings) == (Err(NoUserLookup), db)
    ensures AuthenticateAsWritten(db, email, password, now, settings).0 != Authenticate(db, email, password, random, newId, now, settings).0
  {
  }

  /** An unknown email and a wrong password are refused alike, so the answer
      does not reveal which accounts exist; nothing changes. */
  lemma BadCredentialsIndistinguishable(db: Db, email: Value, password: string, random: seq<B64.byte>,
                                        newId: int, now: int, settings: AuthSettings)
    requires FirstMatch(db.users, Some(UserEmail(email))).None? ||
      !VerifyPassword(password, Attr(FirstMatch(db.users, Some(UserEmail(email))).value, "hashed_password"))
    ensures Authenticate(db, email, password, random, newId, now, settings) == (Err(InvalidCredentials), db)
    ensures AuthenticateAfterLookup(db, email, password, now, settings) == (Err(InvalidCredentials), db)
  {
  }

  /** A login with an existing session hands out that session's refresh token
      with a fresh access token for the user and leaves the tables as they are,
      however long ago the session expired. */
  lemma LoginReusesSession(db: Db, email: Value, password: string, random: seq<B64.byte>,
                           newId: int, now: int, settings: AuthSettings)
    requires UserWithRefreshSession(db, email).Some?
    requires VerifyPassword(password, Attr(UserWithRefreshSession(db, email).value.0, "hashed_password"))
    requires UserWithRefreshSession(db, email).value.1.Some?
    ensures var (user, session) := UserWithRefreshSession(db, email).value;
      var t := Token(EncodeWithSettings(Attr(user, "id"), now, settings), ToStr(Attr(session.value, "refresh_token")), settings.tokenType);
      Authenticate(db, email, password, random, newId, now, settings) == (Ok(t), db) &&
      AuthenticateAfterLookup(db, email, password, now, settings) == (Ok(t), db)
  {
  }

  /** With the lookup corrected and the rest as written, a user with the right
      password but no session is never let in, and no session is created. */
  lemma FirstLoginFailsAfterLookup(db: Db, email: Value, password: string, now: int, settings: AuthSettings)
    requires FirstMatch(db.users, Some(UserEmail(email))).Some?
    requires var user := FirstMatch(db.users, Some(UserEmail(email))).value;
      VerifyPassword(password, Attr(user, "hashed_password")) &&
      FirstMatch(db.sessions, Some(UserIdIs(Attr(user, "id")))).None?
    ensures AuthenticateAfterLookup(db, email, password, now, settings) == (Err(NotAContextManager), db)
  {
  }

  /** Corrected, the first login creates exactly one session for the user, with
      the new refresh token, and every later login gets that same refresh token
      back without creating another. */
  lemma {:induction false} FirstLoginCreatesSession(db: Db, email: Value, password: string,
                                                    random: seq<B64.byte>, newId: int, now: int,
                                                    random2: seq<B64.byte>, newId2: int, now2: int,
                                                    settings: AuthSettings)
    requires FirstMatch(db.users, Some(UserEmail(email))).Some?
    requires var user := FirstMatch(db.users, Some(UserEmail(email))).value;
      "id" in user && VerifyPassword(password, Attr(user, "hashed_password")) &&
      FirstMatch(db.sessions, Some(UserIdIs(Attr(user, "id")))).None?
    ensures var user := FirstMatch(db.users, Some(UserEmail(email))).value;
      var (r, db') := Authenticate(db, email, password, random, newId, now, settings);
      r.Ok? && r.value.refreshToken == GenerateRefreshToken(random) &&
      r.value.accessToken.claims.sub == user["id"] &&
      db' == Db(db.users, db.sessions + [SessionRow(GenerateRefreshToken(random), user["id"], settings, newId, now)]) &&
      Authenticate(db', email, password, random2, newId2, now2, settings).1 == db' &&
      Authenticate(db', email, password, random2, newId2, now2, settings).0.Ok? &&
      Authenticate(db', email, password, random2, newId2, now2, settings).0.value.refreshToken == r.value.refreshToken
  {
    var user := FirstMatch(db.users, Some(UserEmail(email))).value;
    var row := SessionRow(GenerateRefreshToken(random), user["id"], settings, newId, now);
    var spec := Some(UserIdIs(Attr(user, "id")));
    assert Selects(spec, row);
    FirstIndexAppended(db.sessions, row, spec);
  }

  /** As written, logging out with a live token leaves its session in place:
      the same token still refreshes afterwards. */
  lemma {:induction false} LogoutKeepsSessionAsWritten(db: Db, token: string, now: int, settings: AuthSettings)
    requires LogoutAsWritten(db, token, now).0.Ok?
    requires FirstMatch(db.users, Some(UserID(Attr(FirstMatch(db.sessions, TokenSpec(token)).value, "user_id")))).Some?
    ensures LogoutAsWritten(db, token, now).1 == db
    ensures Refresh(LogoutAsWritten(db, token, now).1, token, now, settings).0.Ok?
  {
  }

  /** Corrected, logging out deletes the session the token names, live or
      expired, and when that was the only session with the token, the token no
      longer refreshes or logs out. */
  lemma {:induction false} LogoutRevokesToken(db: Db, token: string, now: int, later: int, settings: AuthSettings)
    requires FirstIndex(db.sessions, TokenSpec(token)).Some?
    requires ExpiryCheck(db.sessions[FirstIndex(db.sessions, TokenSpec(token)).value], now).Ok?
    requires forall j :: 0 <= j < |db.sessions| && j != FirstIndex(db.sessions, TokenSpec(token)).value ==>
      !Selects(TokenSpec(token), db.sessions[j])
    ensures var db' := Logout(db, token, now).1;
      db' == Db(db.users, RemoveAt(db.sessions, FirstIndex(db.sessions, TokenSpec(token)).value)) &&
      Refresh(db', token, later, settings) == (Err(InvalidToken), db') &&
      Logout(db', token, later) == (Err(InvalidToken), db')
  {
    FirstIndexRemovedOnly(db.sessions, FirstIndex(db.sessions, TokenSpec(token)).value, TokenSpec(token));
  }

  /** Corrected, a user whose only session expired gets out of it: the refresh
      deletes it, the next login creates a new session, and its token refreshes. */
  lemma {:induction false} ExpiredUserRecovers(db: Db, email: Value, password: string, session: Row, token: string,
                                               random: seq<B64.byte>, newId: int, now: int, settings: AuthSettings)
    requires DbWellFormed(db) && db.sessions == [session] && Attr(session, "refresh_token") == Str(token)
    requires FirstMatch(db.users, Some(UserEmail(email))).Some?
    requires VerifyPassword(password, Attr(FirstMatch(db.users, Some(UserEmail(email))).value, "hashed_password"))
    requires ExpiryCheck(session, now) == Ok(true)
    requires settings.refreshTokenExpireDays >= 0
    ensures var (r1, db1) := Refresh(db, token, now, settings);
      var (r2, db2) := Authenticate(db1, email, password, random, newId, now, settings);
      r1 == Err(TokenExpired) && r2.Ok? && Refresh(db2, r2.value.refreshToken, now, settings).0.Ok?
  {
    var user := FirstMatch(db.users, Some(UserEmail(email))).value;
    var newToken := GenerateRefreshToken(random);
    ExpiredOnlySessionDeleted(db, session, token, now, settings);
    FirstLoginAfterDeletion(db.users, email, password, user, random, newId, now, settings);
    assert user.Keys == UserColumns;
    NewSessionRefreshes(db.users, user, newToken, newId, now, settings);
  }

  lemma ExpiredOnlySessionDeleted(db: Db, session: Row, token: string, now: int, settings: AuthSettings)
    requires db.sessions == [session] && Attr(session, "refresh_token") == Str(token)
    requires ExpiryCheck(session, now) == Ok(true)
    ensures Refresh(db, token, now, settings) == (Err(TokenExpired), Db(db.users, []))
  {
    assert FirstIndex(db.sessions, TokenSpec(token)) == Some(0);
  }

  lemma FirstLoginAfterDeletion(users: seq<Row>, email: Value, password: string, user: Row,
                                random: seq<B64.byte>, newId: int, now: int, settings: AuthSettings)
    requires "id" in user
    requires FirstMatch(users, Some(UserEmail(email))) == Some(user)
    requires VerifyPassword(password, Attr(user, "hashed_password"))
    ensures var newToken := GenerateRefreshToken(random);
      var (r, db') := Authenticate(Db(users, []), email, password, random, newId, now, settings);
      r.Ok? && r.value.refreshToken == newToken &&
      db' == Db(users, [SessionRow(newToken, user["id"], settings, newId, now)])
  {
    var db := Db(users, []);
    assert UserWithRefreshSession(db, email) == Some((user, None));
    var newToken := GenerateRefreshToken(random);
    var (created, db') := CreateSessionOutcome(db, newToken, user["id"], settings, newId, now);
    assert Attr(created, "refresh_token") == Str(newToken);
  }

  lemma NewSessionRefreshes(users: seq<Row>, user: Row, token: string, newId: int, now: int, settings: AuthSettings)
    requires user in users && "id" in user && settings.refreshTokenExpireDays >= 0
    ensures Refresh(Db(users, [SessionRow(token, user["id"], settings, newId, now)]), token, now, settings).0.Ok?
  {
    var row := SessionRow(token, user["id"], settings, newId, now);
    assert FirstIndex([row], TokenSpec(token)) == Some(0);
    NewSessionLive(token, user["id"], settings, newId, now, now);
    assert Selects(Some(UserID(user["id"])), user);
  }

}
