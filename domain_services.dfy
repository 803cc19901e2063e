/**
 * The domain services of the users service (backend/users-service/app/domain/services.py):
 * `UserService` and `RefreshTokenService` over auto-committing tables. A
 * service's input is a dataclass, a pydantic model or a plain dict; the
 * service turns it into the dict `_schema` and changes that dict step by step
 * (pop the password, add its hash, replace the email) before writing the row.
 * For a dict input `_schema` is the caller's own dict, so the caller sees those
 * changes. Each operation is a function from the table (and the input) to the
 * outcome, and a method that performs it step by step and is proved to agree
 * with that function.
 *
 * Email validation, the clock, the random bytes of a refresh token, the ids
 * the database assigns and the JWT library's decoding are parameters.
 */
module DomainServices {
  import opened Wrappers
  import opened Values
  import opened Errors
  import opened Specification
  import opened Table
  import opened Crypt
  import opened Jwt
  import Repo = Repository
  import SR = ServiceRepository
  import Uow
  import Auth = AuthService
  import B64 = Base64Url

  /** pydantic's `validate_email(value)`: the normalised address, or the
      message of the error it raises. That error is always pydantic's
      `PydanticCustomError`, a `ValueError`: pydantic catches the
      `EmailNotValidError` of the email-validator package and raises its own,
      so no `except EmailNotValidError` handler of these services is reached. */
  type EmailValidator = Value -> Result<string, string>

  /** What a service is handed: a dataclass, a pydantic model, the caller's own
      dict, or an object that is none of these. */
  datatype Input =
    | DataclassInput(fields: map<string, Value>)
    | ModelInput(schema: Repo.Schema)
    | DictInput(d: Dict)
    | OtherInput

  /** The value of an input when the service is called. */
  datatype Data =
    | DataclassData(fields: map<string, Value>)
    | ModelData(schema: Repo.Schema)
    | DictData(items: map<string, Value>)
    | OtherData

  function DataOf(input: Input): Data
    reads if input.DictInput? then {input.d} else {}
  {
    match input
    case DataclassInput(f) => DataclassData(f)
    case ModelInput(s) => ModelData(s)
    case DictInput(d) => DictData(d.items)
    case OtherInput => OtherData
  }

  /** `_schema` as the three `if`s of `create` and `authenticate` leave it
      (`asdict`, `model_dump()`, the dict itself); unbound when none applies. */
  function AsDict(data: Data): (s: Option<map<string, Value>>)
    ensures s.None? <==> data.OtherData?
  {
    match data
    case DataclassData(f) => Some(f)
    case ModelData(schema) => Some(schema.fields)
    case DictData(items) => Some(items)
    case OtherData => None
  }

  /** `_schema` as the `if`s of `update` leave it: a model contributes only the
      fields the caller set (`model_dump(exclude_unset=True)`). */
  function AsUpdateDict(data: Data): (s: Option<map<string, Value>>)
    ensures s.None? <==> data.OtherData?
  {
    match data
    case DataclassData(f) => Some(f)
    case ModelData(schema) => Some(Repo.ExcludeUnset(schema))
    case DictData(items) => Some(items)
    case OtherData => None
  }

  // Errors and their messages.

  const UnboundSchema := UnboundLocalError("cannot access local variable '_schema' where it is not associated with a value")

  /** The message the database driver gives for a unique violation. */
  const IntegrityMessage := "duplicate key value violates unique constraint"

  /** `f"{ex}"` for the exceptions that reach a catch-all. */
  function Describe(e: Error): string
  {
    match e
    case TypeError(m) => m
    case AttributeError(m) => m
    case RuntimeError(m) => m
    case UnboundLocalError(m) => m
    case ValueError(m) => m
    case KeyError(k) => "'" + k + "'"
    case IntegrityViolation => IntegrityMessage
    case _ => ""
  }

  /** `except Exception as ex: raise HTTPException(detail=f"{ex}")`: status 500. */
  function Internal(e: Error): (h: Error)
    ensures h.Http? && h.status == 500
  {
    Http(500, Describe(e))
  }

  /** A refused email as written: the `ValueError` passes the dead
      `except EmailNotValidError` and reaches the catch-all. */
  function EmailError(message: string): (e: Error)
    ensures e == Http(500, message)
  {
    Internal(ValueError(message))
  }

  /** `NotFoundException(detail=f"No User found with {user_id=}")`. */
  function NoUserWithId(userId: int): Error
  {
    NotFound("No User found with user_id=" + IntToString(userId))
  }

  const InvalidLogin := NotFound("Invalid user email or password")
  const InvalidRefreshToken := Http(401, "Invalid refresh token")
  const RefreshTokenExpired := Http(401, "Refresh token expires, you must log in again")

  /** The `IntegrityError` handler of `create`: it reads `data.email`, which a
      dataclass or a model has and a dict does not. */
  function AlreadyExists(data: Data): (e: Error)
    requires !data.OtherData?
    ensures data.DictData? <==> e.AttributeError?
    ensures !data.DictData? ==>
      e == Integrity("User with this email (" + ToStr(Attr(AsDict(data).value, "email")) + ") already exists")
  {
    match data
    case DataclassData(f) => Integrity("User with this email (" + ToStr(Attr(f, "email")) + ") already exists")
    case ModelData(schema) => Integrity("User with this email (" + ToStr(Attr(schema.fields, "email")) + ") already exists")
    case DictData(_) => AttributeError("'dict' object has no attribute 'email'")
  }

  // The tables.

  /** The primary key and `email` (`unique=True`) of `User`. */
  const UserUnique: set<string> := {"id", "email"}
  /** Only the primary key of a refresh session is unique. */
  const SessionUnique: set<string> := {"id"}

  /** The column defaults of `User` (backend/users-service/app/database/models/user.py). */
  const UserDefaults: Row := map["is_active" := Bool(true), "is_superuser" := Bool(false), "is_activated" := Bool(false)]

  /** What the database fills in for a new user. */
  function UserGenerated(newId: int, now: int): (g: Row)
    ensures g.Keys == {"id", "created_at", "updated_at", "is_active", "is_superuser", "is_activated"}
  {
    Uow.Generated(newId, now) + UserDefaults
  }

  /** The result of `create` or `update`, the table after it, and `_schema` as
      the steps left it (for a dict input: the caller's dict). */
  datatype Outcome = Outcome(result: Result<Row, Error>, rows: seq<Row>, schema: Option<map<string, Value>>)

  // UserService.

  /** `get(user_id=...)`. */
  function UserGet(rows: seq<Row>, userId: int): (r: Result<Row, Error>)
    ensures r.Ok? ==> r.value in rows && Attr(r.value, "id") == Int(userId)
    ensures r.Err? <==> forall j :: 0 <= j < |rows| ==> Attr(rows[j], "id") != Int(userId)
    ensures r.Err? ==> r.error == NoUserWithId(userId)
  {
    match FirstMatch(rows, SR.ById(Int(userId)))
    case None => Err(NoUserWithId(userId))
    case Some(user) => Ok(user)
  }

  /** `_schema` once `create` has popped the password and added the hash and
      the validated email. */
  function Prepared(s: map<string, Value>, hashed: Value, email: string): (p: map<string, Value>)
    ensures "password" !in p && "hashed_password" in p && "email" in p
    ensures p["hashed_password"] == hashed && p["email"] == Str(email)
    ensures forall k :: k in s && k != "password" && k != "hashed_password" && k != "email" ==> k in p && p[k] == s[k]
  {
    (s - {"password"})["hashed_password" := hashed]["email" := Str(email)]
  }

  /** `create(data=...)`: validate the email, pop the password, add its hash
      and the validated email, insert. */
  function UserCreate(rows: seq<Row>, data: Data, validate: EmailValidator, salt: string, newId: int, now: int): (o: Outcome)
    ensures o.result.Err? ==> o.rows == rows
    ensures o.result.Ok? ==> o.rows == rows + [o.result.value]
  {
    match AsDict(data)
    case None => Outcome(Err(Internal(UnboundSchema)), rows, None)
    case Some(s) =>
      match validate(Attr(s, "email"))
      case Err(m) => Outcome(Err(EmailError(m)), rows, Some(s))
      case Ok(email) =>
        var popped := s - {"password"};
        match HashPasswordValue(Attr(s, "password"), salt)
        case Err(e) => Outcome(Err(Internal(e)), rows, Some(popped))
        case Ok(h) =>
          var prepared := Prepared(s, h, email);
          var (r, rows') := SR.Insert(rows, Uow.UserColumns, UserUnique, prepared, UserGenerated(newId, now));
          if r.Ok? then Outcome(r, rows', Some(prepared)) else Outcome(Err(AlreadyExists(data)), rows, Some(prepared))
  }

  /** `create` as its handlers intend: a refused email is reported with
      `EmailValidationException` carrying the validator's message. */
  function UserCreateIntended(rows: seq<Row>, data: Data, validate: EmailValidator, salt: string, newId: int, now: int)
    : (o: Outcome)
    ensures o.result.Err? ==> o.rows == rows
    ensures o.result.Ok? ==> o.rows == rows + [o.result.value]
  {
    match AsDict(data)
    case Some(s) =>
      if validate(Attr(s, "email")).Err? then Outcome(Err(EmailValidation(validate(Attr(s, "email")).error)), rows, Some(s))
      else UserCreate(rows, data, validate, salt, newId, now)
    case None => UserCreate(rows, data, validate, salt, newId, now)
  }

  /** The password step of `update`: a truthy password is deleted from the dict
      and its hash added; hashing fails on anything but a string. */
  function PasswordStep(s: map<string, Value>, salt: string): (r: (Result<(), Error>, map<string, Value>))
    ensures !Truthy(Attr(s, "password")) ==> r == (Ok(()), s)
    ensures Truthy(Attr(s, "password")) ==> "password" !in r.1
  {
    if !Truthy(Attr(s, "password")) then (Ok(()), s)
    else
      var popped := s - {"password"};
      match HashPasswordValue(Attr(s, "password"), salt)
      case Err(e) => (Err(e), popped)
      case Ok(h) => (Ok(()), popped["hashed_password" := h])
  }

  /** The email step of `update`: a truthy email is replaced by its validated form. */
  function EmailStep(s: map<string, Value>, validate: EmailValidator): (r: Result<map<string, Value>, Error>)
    ensures !Truthy(Attr(s, "email")) ==> r == Ok(s)
  {
    if !Truthy(Attr(s, "email")) then Ok(s)
    else match validate(Attr(s, "email"))
      case Err(m) => Err(EmailError(m))
      case Ok(email) => Ok(s["email" := Str(email)])
  }

  /** `update(user_id=..., data=...)`. */
  function UserUpdate(rows: seq<Row>, userId: int, data: Data, validate: EmailValidator, salt: string): (o: Outcome)
    ensures o.result.Err? ==> o.rows == rows
  {
    match AsUpdateDict(data)
    case None => Outcome(Err(Internal(UnboundSchema)), rows, None)
    case Some(s) => UpdateSteps(rows, userId, s, validate, salt)
  }

  /** The steps of `update` on the dict `s`: hash a truthy password, validate
      a truthy email, write the row with primary key `user_id`. */
  function UpdateSteps(rows: seq<Row>, userId: int, s: map<string, Value>, validate: EmailValidator, salt: string)
    : (o: Outcome)
    ensures o.result.Err? ==> o.rows == rows
    ensures o.schema.Some?
  {
    var (p, s1) := PasswordStep(s, salt);
    if p.Err? then Outcome(Err(Internal(p.error)), rows, Some(s1))
    else match EmailStep(s1, validate)
      case Err(e) => Outcome(Err(e), rows, Some(s1))
      case Ok(s2) =>
        var (r, rows') := SR.Modify(rows, UserUnique, s2, Int(userId));
        if r.Ok? then Outcome(r, rows', Some(s2))
        else if r.error == RepositoryNotFound then Outcome(Err(NoUserWithId(userId)), rows, Some(s2))
        else Outcome(Err(Internal(r.error)), rows, Some(s2))
  }

  /** `authenticate(data)`: the `username` field is the email; an unknown
      email and a wrong password raise the same error. Missing fields raise
      `KeyError`, outside any handler. */
  function UserAuthenticate(rows: seq<Row>, data: Data): (r: Result<Row, Error>)
    ensures r == Err(UnboundSchema) <==> data.OtherData?
    ensures r.Err? && r.error.NotFound? ==> r == Err(InvalidLogin)
    ensures r.Ok? ==>
      var s := AsDict(data).value;
      "username" in s && "password" in s && s["password"].Str? &&
      Some(r.value) == FirstMatch(rows, Some(UserEmail(s["username"]))) &&
      VerifyPassword(s["password"].s, Attr(r.value, "hashed_password"))
  {
    match AsDict(data)
    case None => Err(UnboundSchema)
    case Some(s) =>
      if "username" !in s then Err(KeyError("username"))
      else match FirstMatch(rows, Some(UserEmail(s["username"])))
        case None => Err(InvalidLogin)
        case Some(user) =>
          if "password" !in s then Err(KeyError("password"))
          else match s["password"]
            case Str(p) => if VerifyPassword(p, Attr(user, "hashed_password")) then Ok(user) else Err(InvalidLogin)
            case _ => Err(TypeError("secret must be unicode or bytes"))
  }

  /** A `PydanticUserCredentials(username=..., password=...)`. */
  function Credentials(email: Value, password: string): Data
  {
    var fields := map["username" := email, "password" := Str(password)];
    ModelData(Repo.Schema(fields, fields.Keys))
  }

  // RefreshTokenService.

  /** `create(user_id)`: a fresh token stored with its lifetime in seconds; the
      token is returned. */
  function TokenCreate(rows: seq<Row>, userId: int, random: seq<B64.byte>, settings: AuthSettings, newId: int, now: int)
    : (r: (Result<string, Error>, seq<Row>))
    ensures r.0.Ok? ==>
      r.0.value == Auth.GenerateRefreshToken(random) &&
      r.1 == rows + [Auth.SessionRow(r.0.value, Int(userId), settings, newId, now)]
    ensures r.0.Err? ==> r == (Err(IntegrityViolation), rows)
  {
    var token := Auth.GenerateRefreshToken(random);
    var (created, rows') := SR.Insert(rows, Uow.SessionColumns, SessionUnique,
                                      Auth.SessionSchema(token, Int(userId), settings).fields, Uow.Generated(newId, now));
    if created.Ok? then (Ok(token), rows') else (Err(created.error), rows)
  }

  /** `refresh_access_token(refresh_token, access_token_header)`: an unknown
      token and an expired session are both 401; the expired session is
      deleted first, and the deletion is committed. A live session gets a new
      access token for the subject of the presented (expired) access token. */
  function TokenRefresh(rows: seq<Row>, token: string, header: string, now: int, settings: AuthSettings,
                        decode: Decoder): (r: (Result<AccessToken, Error>, seq<Row>))
    ensures FirstMatch(rows, Auth.TokenSpec(token)).None? ==> r == (Err(InvalidRefreshToken), rows)
    ensures r.0.Ok? ==> r.1 == rows
  {
    match FirstMatch(rows, Auth.TokenSpec(token))
    case None => (Err(InvalidRefreshToken), rows)
    case Some(session) =>
      match Auth.ExpiryCheck(session, now)
      case Err(e) => (Err(e), rows)
      case Ok(expired) =>
        if expired then
          var (deleted, rows') := SR.Remove(rows, Attr(session, "id"));
          if deleted.Err? then (Err(deleted.error), rows) else (Err(RefreshTokenExpired), rows')
        else match DecodeJwtToken(header, settings.publicKey, settings.algorithm, decode)
          case Err(e) => (Err(e), rows)
          case Ok(claims) => (Ok(EncodeWithSettings(claims.sub, now, settings)), rows)
  }

  // Properties of the operations.

  /** A successful create stores the hash of the password it was given and the
      validated email, never the plaintext; `_schema` (for a dict input, the
      caller's dict) no longer holds the password; every other supplied column
      is stored as given. */
  lemma {:induction false} CreateReplacesPassword(rows: seq<Row>, data: Data, validate: EmailValidator, salt: string,
                                                  newId: int, now: int)
    requires UserCreate(rows, data, validate, salt, newId, now).result.Ok?
    ensures var o := UserCreate(rows, data, validate, salt, newId, now);
      var s := AsDict(data).value;
      var row := o.result.value;
      Attr(s, "password").Str? && validate(Attr(s, "email")).Ok? &&
      row.Keys == Uow.UserColumns && o.rows == rows + [row] &&
      VerifyPassword(Attr(s, "password").s, row["hashed_password"]) &&
      row["email"] == Str(validate(Attr(s, "email")).value) &&
      o.schema.Some? && "password" !in o.schema.value &&
      forall k :: k in Uow.UserColumns && k in s && k != "hashed_password" && k != "email" ==> row[k] == s[k]
  {
    var s := AsDict(data).value;
    var email := validate(Attr(s, "email")).value;
    var h := HashPasswordValue(Attr(s, "password"), salt).value;
    var prepared := Prepared(s, h, email);
    var row := NewRow(Uow.UserColumns, prepared, UserGenerated(newId, now));
    assert UserCreate(rows, data, validate, salt, newId, now) == Outcome(Ok(row), rows + [row], Some(prepared));
    PreparedRow(s, h, email, UserGenerated(newId, now));
  }

  /** The row inserted from a prepared dict holds the hash, the validated
      email and every other supplied column. */
  lemma {:induction false} PreparedRow(s: map<string, Value>, h: Value, email: string, generated: Row)
    ensures var row := NewRow(Uow.UserColumns, Prepared(s, h, email), generated);
      row.Keys == Uow.UserColumns && row["hashed_password"] == h && row["email"] == Str(email) &&
      forall k :: k in Uow.UserColumns && k in s && k != "hashed_password" && k != "email" ==> row[k] == s[k]
  {
    var prepared := Prepared(s, h, email);
    assert "hashed_password" in Uow.UserColumns && "email" in Uow.UserColumns && "password" !in Uow.UserColumns;
  }

  /** As written, an email the validator refuses gives a 500 with the
      validator's message, not `EmailValidationException`, and neither the
      table nor the caller's dict is touched. */
  lemma CreateRejectsInvalidEmail(rows: seq<Row>, data: Data, validate: EmailValidator, salt: string,
                                  newId: int, now: int, message: string)
    requires !data.OtherData? && validate(Attr(AsDict(data).value, "email")) == Err(message)
    ensures UserCreate(rows, data, validate, salt, newId, now) == Outcome(Err(Http(500, message)), rows, AsDict(data))
    ensures UserCreate(rows, data, validate, salt, newId, now).result != Err(EmailValidation(message))
  {
  }

  /** As intended, a refused email is reported with `EmailValidationException`
      and the table and the caller's dict are untouched; every other input is
      handled as written. */
  lemma CreateReportsInvalidEmailIntended(rows: seq<Row>, data: Data, validate: EmailValidator, salt: string,
                                          newId: int, now: int)
    ensures var o := UserCreateIntended(rows, data, validate, salt, newId, now);
      if !data.OtherData? && validate(Attr(AsDict(data).value, "email")).Err? then
        o == Outcome(Err(EmailValidation(validate(Attr(AsDict(data).value, "email")).error)), rows, AsDict(data)) &&
        o.result != UserCreate(rows, data, validate, salt, newId, now).result
      else o == UserCreate(rows, data, validate, salt, newId, now)
  {
  }

  /** An email some user already has is refused with the 409 "already exists"
      error (for a dict input the handler itself fails on `data.email`), and
      the table is unchanged. */
  lemma {:induction false} CreateRejectsTakenEmail(rows: seq<Row>, data: Data, validate: EmailValidator, salt: string,
                                                   newId: int, now: int, j: nat)
    requires !data.OtherData?
    requires validate(Attr(AsDict(data).value, "email")).Ok? && Attr(AsDict(data).value, "password").Str?
    requires j < |rows| && Attr(rows[j], "email") == Str(validate(Attr(AsDict(data).value, "email")).value)
    ensures var o := UserCreate(rows, data, validate, salt, newId, now);
      o.result == Err(AlreadyExists(data)) && o.rows == rows
    ensures data.DataclassData? ==>
      AlreadyExists(data) == Integrity("User with this email (" + ToStr(Attr(data.fields, "email")) + ") already exists")
  {
    var s := AsDict(data).value;
    var email := validate(Attr(s, "email")).value;
    var h := HashPasswordValue(Attr(s, "password"), salt).value;
    var prepared := Prepared(s, h, email);
    var row := NewRow(Uow.UserColumns, prepared, UserGenerated(newId, now));
    assert Attr(row, "email") == Str(email);
    assert SR.Clashes(rows, UserUnique, row) by {
      assert "email" in UserUnique && Attr(rows[j], "email") == Attr(row, "email");
    }
  }

  /** Creating a user keeps the table's primary key and emails unique. */
  lemma {:induction false} CreateKeepsUnique(rows: seq<Row>, data: Data, validate: EmailValidator, salt: string,
                                             newId: int, now: int)
    requires SR.UniqueIn(rows, UserUnique)
    ensures SR.UniqueIn(UserCreate(rows, data, validate, salt, newId, now).rows, UserUnique)
  {
    var o := UserCreate(rows, data, validate, salt, newId, now);
    if o.result.Ok? {
      var s := AsDict(data).value;
      var email := validate(Attr(s, "email")).value;
      var h := HashPasswordValue(Attr(s, "password"), salt).value;
      var prepared := Prepared(s, h, email);
      SR.InsertKeepsUnique(rows, Uow.UserColumns, UserUnique, prepared, UserGenerated(newId, now));
    }
  }

  /** A user just created can log in with the validated email as `username`
      and the password it was created with, and with no other password. */
  lemma {:induction false} CreatedUserAuthenticates(rows: seq<Row>, data: Data, validate: EmailValidator, salt: string,
                                                    newId: int, now: int, other: string)
    requires SR.UniqueIn(rows, UserUnique)
    requires UserCreate(rows, data, validate, salt, newId, now).result.Ok?
    ensures var o := UserCreate(rows, data, validate, salt, newId, now);
      var password := Attr(AsDict(data).value, "password");
      var row := o.result.value;
      password.Str? &&
      UserAuthenticate(o.rows, Credentials(row["email"], password.s)) == Ok(row) &&
      (other != password.s ==> UserAuthenticate(o.rows, Credentials(row["email"], other)) == Err(InvalidLogin))
  {
    var o := UserCreate(rows, data, validate, salt, newId, now);
    CreateReplacesPassword(rows, data, validate, salt, newId, now);
    CreateKeepsUnique(rows, data, validate, salt, newId, now);
    var password := Attr(AsDict(data).value, "password").s;
    assert o.rows[|rows|] == o.result.value;
    StoredUserAuthenticates(o.rows, |rows|, password, other);
  }

  /** In a table with unique emails, a user logs in with their email and the
      password their hash was made from, and with no other password. */
  lemma {:induction false} StoredUserAuthenticates(rows: seq<Row>, i: nat, password: string, other: string)
    requires SR.UniqueIn(rows, UserUnique)
    requires i < |rows| && "email" in rows[i] && rows[i]["email"] != Null
    requires VerifyPassword(password, Attr(rows[i], "hashed_password"))
    ensures UserAuthenticate(rows, Credentials(rows[i]["email"], password)) == Ok(rows[i])
    ensures other != password ==> UserAuthenticate(rows, Credentials(rows[i]["email"], other)) == Err(InvalidLogin)
  {
    SR.UniqueValueFound(rows, UserUnique, i, UserEmail(rows[i]["email"]));
  }

  /** Login gives one error for an unknown email and for a wrong password,
      and lets in exactly the first user with that email whose hash verifies. */
  lemma LoginFailuresAlike(rows: seq<Row>, email: Value, password: string)
    ensures var r := UserAuthenticate(rows, Credentials(email, password));
      var found := FirstMatch(rows, Some(UserEmail(email)));
      (r.Err? ==> r == Err(InvalidLogin)) &&
      (r.Ok? <==> found.Some? && VerifyPassword(password, Attr(found.value, "hashed_password"))) &&
      (r.Ok? ==> Some(r.value) == found)
  {
  }

  /** A successful update changes only the row with the id: a truthy password
      is replaced by its hash, a truthy email by its validated form, every other
      supplied attribute is written as given and nothing else changes. */
  lemma {:induction false} UpdateWritesSuppliedFields(rows: seq<Row>, userId: int, data: Data, validate: EmailValidator,
                                                      salt: string)
    requires UserUpdate(rows, userId, data, validate, salt).result.Ok?
    ensures var o := UserUpdate(rows, userId, data, validate, salt);
      var s := AsUpdateDict(data).value;
      var i := FirstIndex(rows, SR.ById(Int(userId))).value;
      var before := rows[i];
      var row := o.result.value;
      FirstIndex(rows, SR.ById(Int(userId))).Some? && o.rows == rows[i := row] && row.Keys == before.Keys &&
      (Truthy(Attr(s, "password")) && "hashed_password" in before ==>
        Attr(s, "password").Str? && VerifyPassword(Attr(s, "password").s, row["hashed_password"])) &&
      (Truthy(Attr(s, "email")) && "email" in before ==>
        validate(Attr(s, "email")).Ok? && row["email"] == Str(validate(Attr(s, "email")).value)) &&
      (forall k :: k in before && k in s && k != "password" && k != "hashed_password" && k != "email" ==> row[k] == s[k]) &&
      (forall k :: k in before && k !in s && k != "hashed_password" && k != "email" ==> row[k] == before[k]) &&
      (!Truthy(Attr(s, "password")) && "hashed_password" !in s && "hashed_password" in before ==>
        row["hashed_password"] == before["hashed_password"])
  {
    var s := AsUpdateDict(data).value;
    assert UserUpdate(rows, userId, data, validate, salt) == UpdateSteps(rows, userId, s, validate, salt);
    UpdateStepsWrite(rows, userId, s, validate, salt);
    UpdateDictPrepared(s, validate, salt);
  }

  /** A successful update replaces the row with the user's id by that row
      with the prepared dict assigned, and keeps ids and emails unique. */
  lemma {:induction false} UpdateStepsWrite(rows: seq<Row>, userId: int, s: map<string, Value>,
                                            validate: EmailValidator, salt: string)
    requires UpdateSteps(rows, userId, s, validate, salt).result.Ok?
    ensures var o := UpdateSteps(rows, userId, s, validate, salt);
      var s2 := EmailStep(PasswordStep(s, salt).1, validate).value;
      PasswordStep(s, salt).0.Ok? && EmailStep(PasswordStep(s, salt).1, validate).Ok? &&
      FirstIndex(rows, SR.ById(Int(userId))).Some? &&
      var i := FirstIndex(rows, SR.ById(Int(userId))).value;
      o.result.value == Assign(rows[i], s2) && o.rows == rows[i := o.result.value] &&
      (SR.UniqueIn(rows, UserUnique) ==> SR.UniqueIn(o.rows, UserUnique))
  {
    var s2 := EmailStep(PasswordStep(s, salt).1, validate).value;
    if SR.UniqueIn(rows, UserUnique) {
      SR.ModifyKeepsUnique(rows, UserUnique, s2, Int(userId));
    }
  }

  /** The dict the password and email steps hand to the repository: the hash
      of a truthy password, the validated form of a truthy email, and every
      other supplied key as given. */
  lemma {:induction false} UpdateDictPrepared(s: map<string, Value>, validate: EmailValidator, salt: string)
    requires PasswordStep(s, salt).0.Ok? && EmailStep(PasswordStep(s, salt).1, validate).Ok?
    ensures var s2 := EmailStep(PasswordStep(s, salt).1, validate).value;
      (forall k :: k in s && k != "password" && k != "hashed_password" && k != "email" ==> k in s2 && s2[k] == s[k]) &&
      (forall k :: k !in s && k != "hashed_password" && k != "email" ==> k !in s2) &&
      (Truthy(Attr(s, "password")) ==>
        Attr(s, "password").Str? && "hashed_password" in s2 && VerifyPassword(Attr(s, "password").s, s2["hashed_password"])) &&
      (Truthy(Attr(s, "email")) ==>
        validate(Attr(s, "email")).Ok? && "email" in s2 && s2["email"] == Str(validate(Attr(s, "email")).value)) &&
      (!Truthy(Attr(s, "password")) && "hashed_password" !in s ==> "hashed_password" !in s2)
  {
    var s1 := PasswordStep(s, salt).1;
    assert Attr(s1, "email") == Attr(s, "email");
  }

  /** An update of an id no user has changes nothing and, once the password
      and email steps have passed, reports the missing user. */
  lemma UpdateMissingUser(rows: seq<Row>, userId: int, data: Data, validate: EmailValidator, salt: string)
    requires FirstIndex(rows, SR.ById(Int(userId))).None?
    ensures var o := UserUpdate(rows, userId, data, validate, salt);
      o.result.Err? && o.rows == rows
    ensures !data.OtherData? ==>
      var s := AsUpdateDict(data).value;
      PasswordStep(s, salt).0.Ok? && EmailStep(PasswordStep(s, salt).1, validate).Ok? ==>
        UserUpdate(rows, userId, data, validate, salt).result == Err(NoUserWithId(userId))
  {
  }

  /** After a password change the user logs in with the new password. */
  lemma {:induction false} UpdatedPasswordAuthenticates(rows: seq<Row>, userId: int, data: Data, validate: EmailValidator,
                                                        salt: string, password: string)
    requires WellFormed(rows, Uow.UserColumns) && SR.UniqueIn(rows, UserUnique)
    requires UserUpdate(rows, userId, data, validate, salt).result.Ok?
    requires Attr(AsUpdateDict(data).value, "password") == Str(password) && password != ""
    requires Attr(UserUpdate(rows, userId, data, validate, salt).result.value, "email") != Null
    ensures var o := UserUpdate(rows, userId, data, validate, salt);
      UserAuthenticate(o.rows, Credentials(o.result.value["email"], password)) == Ok(o.result.value)
  {
    var o := UserUpdate(rows, userId, data, validate, salt);
    var s := AsUpdateDict(data).value;
    assert o == UpdateSteps(rows, userId, s, validate, salt);
    UpdateStepsWrite(rows, userId, s, validate, salt);
    UpdateDictPrepared(s, validate, salt);
    var i := FirstIndex(rows, SR.ById(Int(userId))).value;
    assert rows[i] in rows;
    StoredUserAuthenticates(o.rows, i, password, password);
  }

  /** An expired session is deleted for good (the service commits at once)
      and the refresh is refused with 401. */
  lemma {:induction false} ExpiredSessionDeleted(rows: seq<Row>, token: string, header: string, now: int,
                                                 settings: AuthSettings, decode: Decoder)
    requires SR.UniqueIn(rows, SessionUnique)
    requires FirstIndex(rows, Auth.TokenSpec(token)).Some?
    requires Attr(rows[FirstIndex(rows, Auth.TokenSpec(token)).value], "id") != Null
    requires Auth.ExpiryCheck(rows[FirstIndex(rows, Auth.TokenSpec(token)).value], now) == Ok(true)
    ensures TokenRefresh(rows, token, header, now, settings, decode) ==
      (Err(RefreshTokenExpired), RemoveAt(rows, FirstIndex(rows, Auth.TokenSpec(token)).value))
  {
    var i := FirstIndex(rows, Auth.TokenSpec(token)).value;
    SR.UniqueValueFound(rows, SessionUnique, i, UserID(Attr(rows[i], "id")));
  }

  /** Once its only session has expired and been deleted, the token is
      unknown at any later time. */
  lemma {:induction false} ExpiredTokenForgotten(rows: seq<Row>, token: string, header: string, now: int, later: int,
                                                 settings: AuthSettings, decode: Decoder)
    requires SR.UniqueIn(rows, SessionUnique)
    requires FirstIndex(rows, Auth.TokenSpec(token)).Some?
    requires var i := FirstIndex(rows, Auth.TokenSpec(token)).value;
      Attr(rows[i], "id") != Null && Auth.ExpiryCheck(rows[i], now) == Ok(true) &&
      forall j :: 0 <= j < |rows| && j != i ==> !Selects(Auth.TokenSpec(token), rows[j])
    ensures var rows' := TokenRefresh(rows, token, header, now, settings, decode).1;
      TokenRefresh(rows', token, header, later, settings, decode) == (Err(InvalidRefreshToken), rows')
  {
    var i := FirstIndex(rows, Auth.TokenSpec(token)).value;
    ExpiredSessionDeleted(rows, token, header, now, settings, decode);
    FirstIndexRemovedOnly(rows, i, Auth.TokenSpec(token));
  }

  /** A token the service has just created is accepted until its lifetime of
      the configured number of days is over: the refresh then turns the
      presented access token into a new one for the same subject. */
  lemma {:induction false} CreatedTokenRefreshes(rows: seq<Row>, userId: int, random: seq<B64.byte>, settings: AuthSettings,
                                                 newId: int, now: int, t: int, header: string, decode: Decoder)
    requires FirstIndex(rows, Auth.TokenSpec(Auth.GenerateRefreshToken(random))).None?
    requires TokenCreate(rows, userId, random, settings, newId, now).0.Ok?
    requires t <= now + settings.refreshTokenExpireDays * Auth.SecondsPerDay
    ensures var (token, rows') := TokenCreate(rows, userId, random, settings, newId, now);
      var claims := DecodeJwtToken(header, settings.publicKey, settings.algorithm, decode);
      TokenRefresh(rows', token.value, header, t, settings, decode) ==
        (if claims.Ok? then Ok(EncodeWithSettings(claims.value.sub, t, settings)) else Err(claims.error), rows')
  {
    var (token, rows') := TokenCreate(rows, userId, random, settings, newId, now);
    var row := Auth.SessionRow(token.value, Int(userId), settings, newId, now);
    FirstIndexAppended(rows, row, Auth.TokenSpec(token.value));
    assert rows'[|rows|] == row;
  }

  // The services.

  class UserService {
    const repository: SR.Store

    ghost predicate Valid()
      reads this, repository
    {
      repository.columns == Uow.UserColumns && repository.unique == UserUnique && repository.Valid()
    }

    constructor (rows: seq<Row>)
      requires WellFormed(rows, Uow.UserColumns) && SR.UniqueIn(rows, UserUnique)
      ensures Valid() && repository.rows == rows && fresh(repository)
    {
      repository := new SR.Store(Uow.UserColumns, UserUnique, rows);
    }

    method Get(userId: int) returns (r: Result<Row, Error>)
      ensures r == UserGet(repository.rows, userId)
    {
      var user := repository.GetOneOrNone(UserID(Int(userId)));
      if user.None? {
        return Err(NoUserWithId(userId));
      }
      r := Ok(user.value);
    }

    /** `get_user_with_refresh_token(email=...)` (the eager load of the
        session does not change which user is found). */
    method GetUserWithRefreshToken(email: Value) returns (r: Option<Row>)
      ensures r == FirstMatch(repository.rows, Some(UserEmail(email)))
    {
      r := repository.GetOneOrNone(UserEmail(email));
    }

    method Create(input: Input, validate: EmailValidator, salt: string, newId: int, now: int)
      returns (r: Result<Row, Error>)
      requires Valid()
      modifies repository, if input.DictInput? then {input.d} else {}
      ensures Valid()
      ensures var o := UserCreate(old(repository.rows), old(DataOf(input)), validate, salt, newId, now);
        r == o.result && repository.rows == o.rows && (input.DictInput? ==> Some(input.d.items) == o.schema)
    {
      var data := DataOf(input);
      var schema: Dict;
      match input {
        case DataclassInput(fields) =>
          schema := new Dict(fields);
        case ModelInput(s) =>
          schema := new Dict(s.fields);
        case DictInput(d) =>
          schema := d;
        case OtherInput =>
          return Err(Internal(UnboundSchema));
      }
      var checked := validate(Attr(schema.items, "email"));
      if checked.Err? {
        return Err(EmailError(checked.error));
      }
      var password := Attr(schema.items, "password");
      schema.items := schema.items - {"password"};
      var hashed := HashPasswordValue(password, salt);
      if hashed.Err? {
        return Err(Internal(hashed.error));
      }
      schema.items := schema.items["hashed_password" := hashed.value]["email" := Str(checked.value)];
      r := repository.Create(schema.items, UserGenerated(newId, now));
      if r.Err? {
        r := Err(AlreadyExists(data));
      }
    }

    method Update(userId: int, input: Input, validate: EmailValidator, salt: string) returns (r: Result<Row, Error>)
      requires Valid()
      modifies repository, if input.DictInput? then {input.d} else {}
      ensures Valid()
      ensures var o := UserUpdate(old(repository.rows), userId, old(DataOf(input)), validate, salt);
        r == o.result && repository.rows == o.rows && (input.DictInput? ==> Some(input.d.items) == o.schema)
    {
      var schema: Dict;
      match input {
        case DataclassInput(fields) =>
          schema := new Dict(fields);
        case ModelInput(s) =>
          schema := new Dict(Repo.ExcludeUnset(s));
        case DictInput(d) =>
          schema := d;
        case OtherInput =>
          return Err(Internal(UnboundSchema));
      }
      r := UpdateOn(userId, schema, validate, salt);
    }

    /** The steps of `update` on the dict `schema`, which they change. */
    method UpdateOn(userId: int, schema: Dict, validate: EmailValidator, salt: string) returns (r: Result<Row, Error>)
      requires Valid()
      modifies repository, schema
      ensures Valid()
      ensures var o := UpdateSteps(old(repository.rows), userId, old(schema.items), validate, salt);
        r == o.result && repository.rows == o.rows && Some(schema.items) == o.schema
    {
      var password := Attr(schema.items, "password");
      if Truthy(password) {
        schema.items := schema.items - {"password"};
        var hashed := HashPasswordValue(password, salt);
        if hashed.Err? {
          return Err(Internal(hashed.error));
        }
        schema.items := schema.items["hashed_password" := hashed.value];
      }
      var email := Attr(schema.items, "email");
      if Truthy(email) {
        var checked := validate(email);
        if checked.Err? {
          return Err(EmailError(checked.error));
        }
        schema.items := schema.items["email" := Str(checked.value)];
      }
      r := repository.Update(schema.items, Int(userId));
      if r.Err? {
        r := Err(if r.error == RepositoryNotFound then NoUserWithId(userId) else Internal(r.error));
      }
    }

    method Authenticate(input: Input) returns (r: Result<Row, Error>)
      ensures r == UserAuthenticate(repository.rows, DataOf(input))
    {
      var schema: map<string, Value>;
      match input {
        case DataclassInput(fields) =>
          schema := fields;
        case ModelInput(s) =>
          schema := s.fields;
        case DictInput(d) =>
          schema := d.items;
        case OtherInput =>
          return Err(UnboundSchema);
      }
      if "username" !in schema {
        return Err(KeyError("username"));
      }
      var user := GetUserWithRefreshToken(schema["username"]);
      if user.None? {
        return Err(InvalidLogin);
      }
      if "password" !in schema {
        return Err(KeyError("password"));
      }
      if !schema["password"].Str? {
        return Err(TypeError("secret must be unicode or bytes"));
      }
      if !VerifyPassword(schema["password"].s, Attr(user.value, "hashed_password")) {
        return Err(InvalidLogin);
      }
      r := Ok(user.value);
    }
  }

  class RefreshTokenService {
    const repository: SR.Store

    ghost predicate Valid()
      reads this, repository
    {
      repository.columns == Uow.SessionColumns && repository.unique == SessionUnique && repository.Valid()
    }

    constructor (rows: seq<Row>)
      requires WellFormed(rows, Uow.SessionColumns) && SR.UniqueIn(rows, SessionUnique)
      ensures Valid() && repository.rows == rows && fresh(repository)
    {
      repository := new SR.Store(Uow.SessionColumns, SessionUnique, rows);
    }

    method Create(userId: int, random: seq<B64.byte>, settings: AuthSettings, newId: int, now: int)
      returns (r: Result<string, Error>)
      requires Valid()
      modifies repository
      ensures Valid()
      ensures (r, repository.rows) == TokenCreate(old(repository.rows), userId, random, settings, newId, now)
    {
      var token := Auth.GenerateRefreshToken(random);
      var schema := Auth.SessionSchema(token, Int(userId), settings).fields;
      var created := repository.Create(schema, Uow.Generated(newId, now));
      if created.Err? {
        return Err(created.error);
      }
      r := Ok(token);
    }

    /** `delete(...)` of the session with the given id. */
    method Delete(sessionId: Value) returns (r: Result<Row, Error>)
      requires Valid()
      modifies repository
      ensures Valid()
      ensures (r, repository.rows) == SR.Remove(old(repository.rows), sessionId)
    {
      r := repository.Delete(sessionId);
    }

    method RefreshAccessToken(token: string, header: string, now: int, settings: AuthSettings, decode: Decoder)
      returns (r: Result<AccessToken, Error>)
      requires Valid()
      modifies repository
      ensures Valid()
      ensures (r, repository.rows) == TokenRefresh(old(repository.rows), token, header, now, settings, decode)
    {
      var session := repository.GetOneOrNone(RefreshTokenIs(Str(token)));
      if session.None? {
        return Err(InvalidRefreshToken);
      }
      var expired := Auth.ExpiryCheck(session.value, now);
      if expired.Err? {
        return Err(expired.error);
      }
      if expired.value {
        var deleted := Delete(Attr(session.value, "id"));
        if deleted.Err? {
          return Err(deleted.error);
        }
        return Err(RefreshTokenExpired);
      }
      var claims := DecodeJwtToken(header, settings.publicKey, settings.algorithm, decode);
      if claims.Err? {
        return Err(claims.error);
      }
      r := Ok(EncodeWithSettings(claims.value.sub, now, settings));
    }
  }
}
