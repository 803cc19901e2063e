/**
 * `CRUDUser` of the app package (source/backend/app/app/crud/crud_user.py):
 * lookup by email, creation and password login, straight on a database
 * session that commits at once. The table behind the session is a
 * `Repository.Repository` object; `create` appends to it and the commit makes
 * the row permanent, so the rows are the committed ones throughout.
 */
module CrudUser {
  import opened Wrappers
  import opened Values
  import opened Errors
  import opened Specification
  import opened Table
  import opened Uow
  import opened Crypt
  import Repo = Repository
  import US = UserService

  /** `get_by_email(db_session, email=...)`: the first user whose email equals
      the argument exactly, or None. */
  function GetByEmail(rows: seq<Row>, email: string): (r: Option<Row>)
    ensures r.Some? ==> r.value in rows && Attr(r.value, "email") == Str(email)
    ensures r.None? <==> forall j :: 0 <= j < |rows| ==> Attr(rows[j], "email") != Str(email)
  {
    US.GetByEmail(Db(rows, []), email)
  }

  /** `authenticate(db_session, email=..., password=...)`: the user, or None for
      an unknown email or a password that does not verify. */
  function Authenticate(rows: seq<Row>, email: string, password: string): (r: Option<Row>)
    ensures r.Some? <==>
      (GetByEmail(rows, email).Some? && VerifyPassword(password, Attr(GetByEmail(rows, email).value, "hashed_password")))
    ensures r.Some? ==> r == GetByEmail(rows, email)
  {
    match GetByEmail(rows, email)
    case None => None
    case Some(user) => if VerifyPassword(password, Attr(user, "hashed_password")) then Some(user) else None
  }

  /** The keyword arguments of `User(...)` in `create`: the hash, never the
      plaintext, and the four copied fields. */
  function CreateKwargs(c: US.UserCreate, salt: string): (kwargs: map<string, Value>)
    ensures kwargs.Keys == {"hashed_password", "email", "is_active", "is_superuser", "is_activated"}
    ensures VerifyPassword(c.password, kwargs["hashed_password"])
    ensures kwargs["email"] == Str(c.email) && kwargs["is_activated"] == Bool(c.isActivated)
  {
    map["hashed_password" := GenerateHashedPassword(c.password, salt), "email" := Str(c.email),
        "is_active" := US.OptionalBool(c.isActive), "is_superuser" := Bool(c.isSuperuser),
        "is_activated" := Bool(c.isActivated)]
  }

  /** `create(db_session, user_schema=...)`: no uniqueness check; the new user
      is appended and committed, unless the model has no column for one of the
      keyword arguments. */
  function Create(rows: seq<Row>, columns: set<string>, kwargs: map<string, Value>, newId: int, now: int)
    : (r: (Result<Row, Error>, seq<Row>))
    ensures r.0 == Construct(columns, kwargs, Generated(newId, now))
    ensures r.0.Ok? ==> r.1 == rows + [r.0.value]
    ensures r.0.Err? ==> r.1 == rows
  {
    match Construct(columns, kwargs, Generated(newId, now))
    case Err(e) => (Err(e), rows)
    case Ok(row) => (Ok(row), rows + [row])
  }

  method GetUserByEmail(table: Repo.Repository, email: string) returns (r: Option<Row>)
    ensures r == GetByEmail(table.rows, email)
  {
    r := table.Get(Some(UserEmail(Str(email))));
  }

  method CreateUser(table: Repo.Repository, c: US.UserCreate, salt: string, newId: int, now: int)
    returns (r: Result<Row, Error>)
    requires table.Valid()
    modifies table
    ensures table.Valid()
    ensures (r, table.rows) == Create(old(table.rows), table.columns, CreateKwargs(c, salt), newId, now)
  {
    r := table.Create(Repo.DictPayload(CreateKwargs(c, salt)), Generated(newId, now));
  }

  method AuthenticateUser(table: Repo.Repository, email: string, password: string) returns (r: Option<Row>)
    ensures r == Authenticate(table.rows, email, password)
  {
    var user := GetUserByEmail(table, email);
    if user.None? {
      return None;
    }
    if !VerifyPassword(password, Attr(user.value, "hashed_password")) {
      return None;
    }
    r := user;
  }

  /** A user created with a fresh email can log in with the password it was
      created with, and with no other. */
  lemma {:induction false} CreatedUserAuthenticates(rows: seq<Row>, columns: set<string>, c: US.UserCreate,
                                                    salt: string, newId: int, now: int, other: string)
    requires GetByEmail(rows, c.email).None?
    requires Create(rows, columns, CreateKwargs(c, salt), newId, now).0.Ok?
    requires other != c.password
    ensures var (r, rows') := Create(rows, columns, CreateKwargs(c, salt), newId, now);
      Authenticate(rows', c.email, c.password) == Some(r.value) &&
      Authenticate(rows', c.email, other) == None
  {
    var (r, rows') := Create(rows, columns, CreateKwargs(c, salt), newId, now);
    var spec := Some(UserEmail(Str(c.email)));
    assert Selects(spec, r.value);
    FirstIndexAppended(rows, r.value, spec);
    assert GetByEmail(rows', c.email) == Some(r.value);
    WrongPasswordRejected(c.password, other, salt);
  }

  /** Creating a second user with a taken email succeeds, but logins still see
      only the first one: the new account answers no password differently. */
  lemma {:induction false} DuplicateEmailShadowed(rows: seq<Row>, columns: set<string>, c: US.UserCreate,
                                                  salt: string, newId: int, now: int, password: string)
    requires GetByEmail(rows, c.email).Some?
    requires Create(rows, columns, CreateKwargs(c, salt), newId, now).0.Ok?
    ensures var (r, rows') := Create(rows, columns, CreateKwargs(c, salt), newId, now);
      |rows'| == |rows| + 1 &&
      Authenticate(rows', c.email, password) == Authenticate(rows, c.email, password)
  {
    var (r, rows') := Create(rows, columns, CreateKwargs(c, salt), newId, now);
    FirstIndexAppendedAfterMatch(rows, r.value, Some(UserEmail(Str(c.email))));
  }
}
