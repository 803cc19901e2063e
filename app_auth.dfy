/**
 * `AuthenticationService.authenticate_user` of the earlier app revision
 * (source/backend/app/services/auth.py). Its token encoding is the one in the
 * `Jwt` module. Login looks the user up by email and checks the password; it
 * has no refresh sessions.
 */
module AppAuth {
  import opened Wrappers
  import opened Values
  import opened Errors
  import opened Specification
  import opened Table
  import opened Uow
  import opened Crypt
  import US = UserService
  import AppUS = AppUserService

  /** `user.hashed_password` on the None an unknown email gives. */
  const NoUser := AttributeError("'NoneType' object has no attribute 'hashed_password'")

  /** A bare `raise` with no exception being handled. */
  const NothingToReraise := RuntimeError("No active exception to reraise")

  /** `authenticate_user(uow, email=..., password=...)` as written: neither
      failure is an HTTP error, and the two failures differ. */
  function AuthenticateAsWritten(users: seq<Row>, email: string, password: string): (r: Result<Row, Error>)
    ensures r.Ok? <==>
      (US.GetByEmail(AppUS.Users(users), email).Some? &&
       VerifyPassword(password, Attr(US.GetByEmail(AppUS.Users(users), email).value, "hashed_password")))
    ensures r.Ok? ==> Some(r.value) == US.GetByEmail(AppUS.Users(users), email)
  {
    match US.GetByEmail(AppUS.Users(users), email)
    case None => Err(NoUser)
    case Some(user) =>
      if !VerifyPassword(password, Attr(user, "hashed_password")) then Err(NothingToReraise) else Ok(user)
  }

  /** `authenticate_user` as intended: one "invalid credentials" error for both
      failures. */
  function Authenticate(users: seq<Row>, email: string, password: string): (r: Result<Row, Error>)
    ensures r.Err? ==> r.error == InvalidCredentials
    ensures r.Ok? <==> (US.GetByEmail(AppUS.Users(users), email).Some? &&
                        VerifyPassword(password, Attr(US.GetByEmail(AppUS.Users(users), email).value, "hashed_password")))
    ensures r.Ok? ==> Some(r.value) == US.GetByEmail(AppUS.Users(users), email)
  {
    match US.GetByEmail(AppUS.Users(users), email)
    case None => Err(InvalidCredentials)
    case Some(user) =>
      if !VerifyPassword(password, Attr(user, "hashed_password")) then Err(InvalidCredentials) else Ok(user)
  }

  method AuthenticateUserAsWritten(uow: AppUnitOfWork, email: string, password: string) returns (r: Result<Row, Error>)
    requires uow.Valid() && uow.Closed()
    ensures r == AuthenticateAsWritten(uow.users, email, password)
  {
    var user := AppUS.GetUserByEmail(uow, email);
    if user.None? {
      return Err(NoUser);
    }
    if !VerifyPassword(password, Attr(user.value, "hashed_password")) {
      return Err(NothingToReraise);
    }
    r := Ok(user.value);
  }

  method AuthenticateUser(uow: AppUnitOfWork, email: string, password: string) returns (r: Result<Row, Error>)
    requires uow.Valid() && uow.Closed()
    ensures r == Authenticate(uow.users, email, password)
  {
    var user := AppUS.GetUserByEmail(uow, email);
    if user.None? || !VerifyPassword(password, Attr(user.value, "hashed_password")) {
      return Err(InvalidCredentials);
    }
    r := Ok(user.value);
  }

  /** As written, the error tells an unknown email from a wrong password, and
      neither is an HTTP error the framework would turn into a 401. */
  lemma {:induction false} FailuresDistinguishableAsWritten(users: seq<Row>, email: string, password: string,
                                                             other: string, salt: string)
    requires US.GetByEmail(AppUS.Users(users), email).None?
    requires other != password
    ensures var known := users + [map["email" := Str(email), "hashed_password" := GenerateHashedPassword(password, salt)]];
      AuthenticateAsWritten(users, email, password) == Err(NoUser) &&
      AuthenticateAsWritten(known, email, other) == Err(NothingToReraise) &&
      NoUser != NothingToReraise
  {
    var row := map["email" := Str(email), "hashed_password" := GenerateHashedPassword(password, salt)];
    var known := users + [row];
    var spec := Some(UserEmail(Str(email)));
    FirstIndexAppended(users, row, spec);
  }

  /** Corrected, both failures give the same error, and the two versions let in
      exactly the same logins with the same user. */
  lemma AuthenticateAgreesOnSuccess(users: seq<Row>, email: string, password: string)
    ensures Authenticate(users, email, password).Err? ==> Authenticate(users, email, password) == Err(InvalidCredentials)
    ensures Authenticate(users, email, password).Ok? <==> AuthenticateAsWritten(users, email, password).Ok?
    ensures Authenticate(users, email, password).Ok? ==>
      Authenticate(users, email, password) == AuthenticateAsWritten(users, email, password)
  {
  }

  /** A user just created through this revision's service can log in with the
      password they were created with. */
  lemma {:induction false} CreatedUserAuthenticates(users: seq<Row>, c: US.UserCreate, salt: string, referralCode: string,
                                                    newId: int, now: int)
    requires AppUS.Create(users, c, salt, referralCode, newId, now).0.Ok?
    ensures var (r, users') := AppUS.Create(users, c, salt, referralCode, newId, now);
      Authenticate(users', c.email, c.password) == Ok(r.value)
  {
    var (r, users') := AppUS.Create(users, c, salt, referralCode, newId, now);
    var spec := Some(UserEmail(Str(c.email)));
    assert Selects(spec, r.value);
    FirstIndexAppended(users, r.value, spec);
    assert US.GetByEmail(AppUS.Users(users'), c.email) == Some(r.value);
  }
}
