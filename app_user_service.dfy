/**
 * `UserService` of the earlier app revision (source/backend/app/services/user.py).
 * It is the users service's `UserService` over the earlier repository and unit
 * of work, with one addition: a new user gets a random `referral_code`. Reads,
 * update and delete are specified by the users service's functions on a
 * database whose session table is empty (this revision's services never touch it).
 */
module AppUserService {
  import opened Wrappers
  import opened Values
  import opened Errors
  import opened Specification
  import opened Table
  import opened Uow
  import opened Crypt
  import Repo = Repository
  import US = UserService

  /** The user table as a database, for the users service's functions. */
  function Users(users: seq<Row>): Db
  {
    Db(users, [])
  }

  /** The row `create` stores: the users service's fields plus `referral_code`
      (`uuid.uuid4()`, passed in). */
  function CreatedUser(c: US.UserCreate, salt: string, referralCode: string, newId: int, now: int): (row: Row)
    ensures row.Keys == AppUserColumns
    ensures row["referral_code"] == Str(referralCode)
  {
    NewRow(AppUserColumns,
           US.CreateDump(c)["hashed_password" := GenerateHashedPassword(c.password, salt)]["referral_code" := Str(referralCode)],
           Generated(newId, now))
  }

  /** `create(uow, create_schema=...)` of this revision. */
  function Create(users: seq<Row>, c: US.UserCreate, salt: string, referralCode: string, newId: int, now: int): (r: (Result<Row, Error>, seq<Row>))
    ensures r.0.Err? <==> US.GetByEmail(Users(users), c.email).Some?
    ensures r.0.Err? ==> r.0.error == UserAlreadyExists && r.1 == users
    ensures r.0.Ok? ==> r.0.value == CreatedUser(c, salt, referralCode, newId, now) && r.1 == users + [r.0.value]
    ensures r.0.Ok? ==> r.0.value["referral_code"] == Str(referralCode)
  {
    if US.GetByEmail(Users(users), c.email).Some? then (Err(UserAlreadyExists), users)
    else
      var row := CreatedUser(c, salt, referralCode, newId, now);
      (Ok(row), users + [row])
  }

  /** The two revisions create the same user, refuse the same emails, and
      differ only in the referral code column. */
  lemma {:induction false} CreateAddsReferralCode(users: seq<Row>, c: US.UserCreate, salt: string, referralCode: string,
                                                  newId: int, now: int)
    ensures var (r, users') := Create(users, c, salt, referralCode, newId, now);
      var (r0, db0) := US.Create(Users(users), c, salt, newId, now);
      r.Ok? == r0.Ok? && (r.Err? ==> r == r0 && users' == users) &&
      (r.Ok? ==> r.value == r0.value["referral_code" := Str(referralCode)] && users' == users + [r.value])
  {
    CreatedUserExtends(c, salt, referralCode, newId, now);
  }

  /** This revision's new row is the users service's one plus the referral code. */
  lemma {:induction false} CreatedUserExtends(c: US.UserCreate, salt: string, referralCode: string, newId: int, now: int)
    ensures CreatedUser(c, salt, referralCode, newId, now) ==
      US.CreatedUser(c, salt, newId, now)["referral_code" := Str(referralCode)]
  {
    var a := CreatedUser(c, salt, referralCode, newId, now);
    var b := US.CreatedUser(c, salt, newId, now)["referral_code" := Str(referralCode)];
    assert "referral_code" !in UserColumns;
    assert a.Keys == b.Keys;
    forall k | k in a
      ensures a[k] == b[k]
    {
      if k != "referral_code" {
        assert k in UserColumns;
      }
    }
  }

  method GetUserById(uow: AppUnitOfWork, userId: int) returns (r: Result<Row, Error>)
    requires uow.Valid() && uow.Closed()
    ensures r == US.GetById(Users(uow.users), userId)
  {
    var user := uow.user.Get(US.ById(userId));
    if user.value.None? {
      return Err(UserNotFound);
    }
    r := Ok(user.value.value);
  }

  method GetAllUsers(uow: AppUnitOfWork, skip: int, limit: int) returns (r: Result<seq<Row>, Error>)
    requires uow.Valid() && uow.Closed()
    ensures r == US.GetAll(Users(uow.users), skip, limit)
  {
    r := uow.user.GetMulti(Some(skip), Some(limit));
  }

  method GetUserByEmail(uow: AppUnitOfWork, email: string) returns (r: Option<Row>)
    requires uow.Valid() && uow.Closed()
    ensures r == US.GetByEmail(Users(uow.users), email)
  {
    var found := uow.user.Get(Some(UserEmail(Str(email))));
    r := found.value;
  }

  method CreateUser(uow: AppUnitOfWork, c: US.UserCreate, salt: string, referralCode: string, newId: int, now: int)
    returns (r: Result<Row, Error>)
    requires uow.Valid() && uow.Closed()
    modifies uow, uow.user
    ensures uow.Valid() && uow.Closed()
    ensures (r, uow.users) == Create(old(uow.users), c, salt, referralCode, newId, now)
  {
    var existing := GetUserByEmail(uow, c.email);
    if existing.Some? {
      return Err(UserAlreadyExists);
    }
    var schema := US.CreateDump(c)["hashed_password" := GenerateHashedPassword(c.password, salt)];
    schema := schema["referral_code" := Str(referralCode)];
    uow.Enter();
    r := uow.user.Create(Repo.DictPayload(schema), Generated(newId, now));
    assert r.Ok?;
    uow.Commit();
    uow.Exit();
  }

  /** `update(uow, user_id=..., update_schema=...)` as written: like the users
      service's, the new password's hash is computed and dropped. */
  method UpdateUserAsWritten(uow: AppUnitOfWork, userId: int, u: US.UserUpdate, salt: string)
    returns (r: Result<Row, Error>)
    requires uow.Valid() && uow.Closed()
    modifies uow, uow.user
    ensures uow.Valid() && uow.Closed()
    ensures (r, Users(uow.users)) == US.UpdateAsWritten(Users(old(uow.users)), userId, u)
  {
    var user: Result<Option<Row>, Error>;
    if US.ChangesPassword(u) {
      var schema := Repo.ExcludeUnset(US.UpdateSchema(u)) - {"password"};
      schema := schema["hashed_password" := GenerateHashedPassword(u.password.value, salt)];
      uow.Enter();
      user := uow.user.Update(US.ById(userId), Repo.SchemaPayload(US.UpdateSchema(u)));
      uow.Commit();
      uow.Exit();
    } else {
      uow.Enter();
      user := uow.user.Update(US.ById(userId), Repo.SchemaPayload(US.UpdateSchema(u)));
      uow.Commit();
      uow.Exit();
    }
    if user.value.None? {
      return Err(UserNotFound);
    }
    r := Ok(user.value.value);
  }

  /** `update` with the password's hash applied. */
  method UpdateUser(uow: AppUnitOfWork, userId: int, u: US.UserUpdate, salt: string)
    returns (r: Result<Row, Error>)
    requires uow.Valid() && uow.Closed()
    modifies uow, uow.user
    ensures uow.Valid() && uow.Closed()
    ensures (r, Users(uow.users)) == US.Update(Users(old(uow.users)), userId, u, salt)
  {
    var user: Result<Option<Row>, Error>;
    uow.Enter();
    if US.ChangesPassword(u) {
      user := uow.user.Update(US.ById(userId), Repo.DictPayload(US.PasswordUpdateItems(u, salt)));
    } else {
      user := uow.user.Update(US.ById(userId), Repo.SchemaPayload(US.UpdateSchema(u)));
    }
    uow.Commit();
    uow.Exit();
    if user.value.None? {
      return Err(UserNotFound);
    }
    r := Ok(user.value.value);
  }

  method DeleteUser(uow: AppUnitOfWork, userId: int) returns (r: Result<Row, Error>)
    requires uow.Valid() && uow.Closed()
    modifies uow, uow.user
    ensures uow.Valid() && uow.Closed()
    ensures (r, Users(uow.users)) == US.Delete(Users(old(uow.users)), userId)
  {
    uow.Enter();
    var user := uow.user.Delete(US.ById(userId));
    if user.value.None? {
      uow.Exit();
      return Err(UserNotFound);
    }
    uow.Commit();
    uow.Exit();
    r := Ok(user.value.value);
  }
}
