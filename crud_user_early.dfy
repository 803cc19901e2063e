/**
 * The earlier `CRUDUser` (source/backend/app/crud/crud_user.py). Lookup and
 * login are those of `CrudUser`; `create` differs in its keyword arguments: it
 * drops `is_activated` and adds a `sub_string` drawn from
 * `security.generate_sub_hash_string()`. The security module it imports
 * (source/backend/app/core/security.py) has no such function, so as written
 * every create raises before anything is stored. `CreateUser` is the create
 * as intended, with the generator's output as a parameter.
 */
module CrudUserEarly {
  import opened Wrappers
  import opened Values
  import opened Errors
  import opened Specification
  import opened Table
  import opened Uow
  import opened Crypt
  import Repo = Repository
  import US = UserService
  import Crud = CrudUser

  /** What Python raises at the first line of `create`. */
  const NoSubHashString := AttributeError("module 'source.backend.app.core.security' has no attribute 'generate_sub_hash_string'")

  /** The keyword arguments of `User(...)` in this `create`, given the string
      the missing generator was meant to produce. */
  function CreateKwargs(c: US.UserCreate, salt: string, subString: string): (kwargs: map<string, Value>)
    ensures kwargs.Keys == {"hashed_password", "email", "is_active", "is_superuser", "sub_string"}
    ensures VerifyPassword(c.password, kwargs["hashed_password"])
    ensures kwargs["sub_string"] == Str(subString)
  {
    map["hashed_password" := GenerateHashedPassword(c.password, salt), "email" := Str(c.email),
        "is_active" := US.OptionalBool(c.isActive), "is_superuser" := Bool(c.isSuperuser),
        "sub_string" := Str(subString)]
  }

  /** `create(db_session, user_schema=...)` as written: the call of the missing
      generator raises, and the table is not touched. */
  method CreateUserAsWritten(table: Repo.Repository, c: US.UserCreate, salt: string, newId: int, now: int)
    returns (r: Result<Row, Error>)
    requires table.Valid()
    ensures r.Err? && r.error == NoSubHashString
  {
    r := Err(NoSubHashString);
  }

  /** `create` as intended, with `subString` the generator's output. */
  method CreateUser(table: Repo.Repository, c: US.UserCreate, salt: string, subString: string, newId: int, now: int)
    returns (r: Result<Row, Error>)
    requires table.Valid()
    modifies table
    ensures table.Valid()
    ensures (r, table.rows) == Crud.Create(old(table.rows), table.columns, CreateKwargs(c, salt, subString), newId, now)
  {
    r := table.Create(Repo.DictPayload(CreateKwargs(c, salt, subString)), Generated(newId, now));
  }

  /** Even as intended, the `User` model this file imports has no `sub_string`
      column, so the create is refused by the model's constructor and nothing
      is stored. */
  lemma CreateRefusedByImportedModel(rows: seq<Row>, c: US.UserCreate, salt: string, subString: string,
                                     newId: int, now: int)
    ensures var (r, rows') := Crud.Create(rows, AppUserColumns, CreateKwargs(c, salt, subString), newId, now);
      r.Err? && r.error.TypeError? && rows' == rows
  {
    assert "sub_string" !in AppUserColumns;
  }

  /** As intended and with a model that has the column, the stored row takes
      `is_activated` from the database, not from the request: this revision
      never copies it. */
  lemma {:induction false} ActivationNotCopied(rows: seq<Row>, columns: set<string>, c: US.UserCreate, salt: string,
                                               subString: string, newId: int, now: int)
    requires CreateKwargs(c, salt, subString).Keys <= columns && "is_activated" in columns
    ensures var (r, rows') := Crud.Create(rows, columns, CreateKwargs(c, salt, subString), newId, now);
      r.Ok? && r.value["is_activated"] == Null && r.value["sub_string"] == Str(subString) &&
      VerifyPassword(c.password, r.value["hashed_password"])
  {
    var kwargs := CreateKwargs(c, salt, subString);
    assert "is_activated" !in kwargs && "is_activated" !in Generated(newId, now);
  }

  /** As intended, a user created under a fresh email logs in with the password
      given at creation and with no other. */
  lemma {:induction false} CreatedUserAuthenticates(rows: seq<Row>, columns: set<string>, c: US.UserCreate,
                                                    salt: string, subString: string, newId: int, now: int,
                                                    other: string)
    requires Crud.GetByEmail(rows, c.email).None?
    requires CreateKwargs(c, salt, subString).Keys <= columns
    requires other != c.password
    ensures var (r, rows') := Crud.Create(rows, columns, CreateKwargs(c, salt, subString), newId, now);
      r.Ok? && Crud.Authenticate(rows', c.email, c.password) == Some(r.value) &&
      Crud.Authenticate(rows', c.email, other) == None
  {
    var (r, rows') := Crud.Create(rows, columns, CreateKwargs(c, salt, subString), newId, now);
    var spec := Some(UserEmail(Str(c.email)));
    assert r.Ok?;
    assert Selects(spec, r.value);
    FirstIndexAppended(rows, r.value, spec);
    assert Crud.GetByEmail(rows', c.email) == Some(r.value);
    WrongPasswordRejected(c.password, other, salt);
  }
}
