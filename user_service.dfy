/**
 * `UserService` of the users service (source/backend/users-service/app/services/user.py):
 * reading, creating, updating and deleting users through the unit of work.
 *
 * As for the authentication service, each state-changing operation is a pure
 * function over the committed tables and a method on the unit of work proved
 * to agree with it. The read operations commit an empty transaction, which
 * changes nothing; their methods read the committed table directly.
 */
module UserService {
  import opened Wrappers
  import opened Values
  import opened Errors
  import opened Specification
  import opened Table
  import opened Uow
  import opened Crypt
  import Repo = Repository

  /** The `UserCreate` schema; pydantic has checked the types. */
  datatype UserCreate = UserCreate(email: string, password: string, isActive: Option<bool>,
                                   isSuperuser: bool, isActivated: bool)

  /** The `UserUpdate` schema: every field optional, and which ones the request set. */
  datatype UserUpdate = UserUpdate(email: Option<string>, password: Option<string>, isActive: Option<bool>,
                                   isSuperuser: bool, isActivated: bool, explicitlySet: set<string>)

  function OptionalBool(b: Option<bool>): Value
  {
    if b.Some? then Bool(b.value) else Null
  }

  function OptionalStr(s: Option<string>): Value
  {
    if s.Some? then Str(s.value) else Null
  }

  /** `create_schema.model_dump(exclude={"password"})`. */
  function CreateDump(c: UserCreate): (d: map<string, Value>)
    ensures d.Keys == {"email", "is_active", "is_superuser", "is_activated"} && d.Keys <= UserColumns
    ensures d["email"] == Str(c.email)
  {
    map["email" := Str(c.email), "is_active" := OptionalBool(c.isActive),
        "is_superuser" := Bool(c.isSuperuser), "is_activated" := Bool(c.isActivated)]
  }

  /** The schema object `update_schema` as the repository sees it. */
  function UpdateSchema(u: UserUpdate): (s: Repo.Schema)
    ensures s.fields.Keys == {"email", "password", "is_active", "is_superuser", "is_activated"}
    ensures s.fields["password"] == OptionalStr(u.password)
    ensures s.explicitlySet == u.explicitlySet
  {
    Repo.Schema(map["email" := OptionalStr(u.email), "password" := OptionalStr(u.password),
                    "is_active" := OptionalBool(u.isActive), "is_superuser" := Bool(u.isSuperuser),
                    "is_activated" := Bool(u.isActivated)],
                u.explicitlySet)
  }

  /** `if update_schema.password:`. */
  predicate ChangesPassword(u: UserUpdate)
  {
    u.password.Some? && u.password.value != ""
  }

  /** `_schema`: the set fields without the password, plus the hash of the new password. */
  function PasswordUpdateItems(u: UserUpdate, salt: string): (d: map<string, Value>)
    requires ChangesPassword(u)
    ensures "password" !in d
    ensures "hashed_password" in d && d["hashed_password"] == GenerateHashedPassword(u.password.value, salt)
    ensures forall k :: k in d && k != "hashed_password" ==>
      k in Repo.ExcludeUnset(UpdateSchema(u)) && d[k] == Repo.ExcludeUnset(UpdateSchema(u))[k]
  {
    (Repo.ExcludeUnset(UpdateSchema(u)) - {"password"})["hashed_password" := GenerateHashedPassword(u.password.value, salt)]
  }

  function ById(userId: int): Option<Spec>
  {
    Some(UserID(Int(userId)))
  }

  // ---------------------------------------------------------------------------
  // The operations on the committed tables.

  /** `get_by_id(uow, user_id=...)`. */
  function GetById(db: Db, userId: int): (r: Result<Row, Error>)
    ensures r.Ok? ==> r.value in db.users && Attr(r.value, "id") == Int(userId)
    ensures r.Err? <==> forall j :: 0 <= j < |db.users| ==> !Selects(ById(userId), db.users[j])
    ensures r.Err? ==> r.error == UserNotFound
  {
    match FirstMatch(db.users, ById(userId))
    case None => Err(UserNotFound)
    case Some(user) => Ok(user)
  }

  /** `get_all(uow, skip=0, limit=100)`. */
  function GetAll(db: Db, skip: int, limit: int): (r: Result<seq<Row>, Error>)
    ensures r.Err? <==> skip < 0 || limit < 0
    ensures skip < 0 ==> r == Err(NegativeOffset)
    ensures skip >= 0 && limit < 0 ==> r == Err(NegativeLimit)
    ensures r.Ok? ==> |r.value| <= limit
    ensures r.Ok? ==> forall k :: 0 <= k < |r.value| ==> skip + k < |db.users| && r.value[k] == db.users[skip + k]
    ensures r.Ok? && skip + limit <= |db.users| ==> |r.value| == limit
  {
    Paged(db.users, Some(skip), Some(limit))
  }

  const DefaultSkip: nat := 0
  const DefaultLimit: nat := 100

  /** `get_by_email(uow, email=...)`: the first user with the email, or None. */
  function GetByEmail(db: Db, email: string): (r: Option<Row>)
    ensures r.Some? ==> r.value in db.users && Attr(r.value, "email") == Str(email)
    ensures r.None? <==> forall j :: 0 <= j < |db.users| ==> Attr(db.users[j], "email") != Str(email)
  {
    FirstMatch(db.users, Some(UserEmail(Str(email))))
  }

  /** The user row `create` stores. */
  function CreatedUser(c: UserCreate, salt: string, newId: int, now: int): (row: Row)
    ensures row.Keys == UserColumns
    ensures row["email"] == Str(c.email) && row["id"] == Int(newId)
    ensures VerifyPassword(c.password, row["hashed_password"])
  {
    NewRow(UserColumns, CreateDump(c)["hashed_password" := GenerateHashedPassword(c.password, salt)],
           Generated(newId, now))
  }

  /** `create(uow, create_schema=...)`: refused when the email is taken,
      otherwise one new user at the end of the table. */
  function Create(db: Db, c: UserCreate, salt: string, newId: int, now: int): (r: (Result<Row, Error>, Db))
    ensures r.0.Err? <==> GetByEmail(db, c.email).Some?
    ensures r.0.Err? ==> r.0.error == UserAlreadyExists && r.1 == db
    ensures r.0.Ok? ==> r.0.value == CreatedUser(c, salt, newId, now)
    ensures r.0.Ok? ==> r.1 == Db(db.users + [r.0.value], db.sessions)
  {
    if GetByEmail(db, c.email).Some? then (Err(UserAlreadyExists), db)
    else
      var row := CreatedUser(c, salt, newId, now);
      (Ok(row), Db(db.users + [row], db.sessions))
  }

  /** The user table after setting `items` on the row at i. */
  function UpdatedAt(db: Db, i: nat, items: map<string, Value>): (r: (Result<Row, Error>, Db))
    requires i < |db.users|
    ensures r.0 == Ok(Assign(db.users[i], items))
    ensures r.1 == Db(db.users[i := Assign(db.users[i], items)], db.sessions)
  {
    var row := Assign(db.users[i], items);
    (Ok(row), Db(db.users[i := row], db.sessions))
  }

  /** `update(uow, user_id=..., update_schema=...)` as written: both branches
      hand the schema itself to the repository, which sets the explicitly set
      fields; the hash computed for a new password is thrown away, and
      `password` is not a column, so the stored hash never changes. */
  function UpdateAsWritten(db: Db, userId: int, u: UserUpdate): (r: (Result<Row, Error>, Db))
    ensures r.0.Err? <==> GetById(db, userId).Err?
    ensures r.0.Err? ==> r.0.error == UserNotFound && r.1 == db
    ensures r.0.Ok? ==> r.0.value.Keys == GetById(db, userId).value.Keys && Attr(r.0.value, "id") == Int(userId)
    ensures r.1.sessions == db.sessions && |r.1.users| == |db.users|
    ensures r.0.Ok? ==> Attr(r.0.value, "hashed_password") == Attr(GetById(db, userId).value, "hashed_password")
  {
    match FirstIndex(db.users, ById(userId))
    case None => (Err(UserNotFound), db)
    case Some(i) => UpdatedAt(db, i, Repo.ExcludeUnset(UpdateSchema(u)))
  }

  /** `update` as intended: with a new password, the `_schema` dict carrying
      its hash is what the repository applies. */
  function Update(db: Db, userId: int, u: UserUpdate, salt: string): (r: (Result<Row, Error>, Db))
    ensures r.0.Err? <==> GetById(db, userId).Err?
    ensures r.0.Err? ==> r.0.error == UserNotFound && r.1 == db
    ensures r.0.Ok? ==> r.0.value.Keys == GetById(db, userId).value.Keys && Attr(r.0.value, "id") == Int(userId)
    ensures r.1.sessions == db.sessions && |r.1.users| == |db.users|
    ensures r.0.Ok? && ChangesPassword(u) && "hashed_password" in GetById(db, userId).value ==>
      VerifyPassword(u.password.value, r.0.value["hashed_password"])
  {
    match FirstIndex(db.users, ById(userId))
    case None => (Err(UserNotFound), db)
    case Some(i) =>
      if ChangesPassword(u) then UpdatedAt(db, i, PasswordUpdateItems(u, salt))
      else UpdatedAt(db, i, Repo.ExcludeUnset(UpdateSchema(u)))
  }

  /** `delete(uow, user_id=...)`: the first user with the id is deleted
      through the ORM (`session.delete`). `User.refresh_session` has no delete
      cascade, so the flush at `commit` first sets the `user_id` of the user's
      session to NULL, which that NOT NULL column refuses: the commit raises
      `IntegrityError`, `__aexit__` rolls back, and nothing is deleted. The
      database's `ON DELETE CASCADE` is never reached. */
  function Delete(db: Db, userId: int): (r: (Result<Row, Error>, Db))
    ensures r.0.Err? ==> r.1 == db
    ensures r.0 == Err(UserNotFound) <==> GetById(db, userId).Err?
    ensures r.0 == Err(IntegrityViolation) <==>
      GetById(db, userId).Ok? && exists j :: 0 <= j < |db.sessions| && Attr(db.sessions[j], "user_id") == Int(userId)
    ensures r.0.Ok? ==> r.0.value in db.users && Attr(r.0.value, "id") == Int(userId)
    ensures r.0.Ok? ==>
      r.1.sessions == db.sessions && |r.1.users| == |db.users| - 1 &&
      multiset(r.1.users) + multiset{r.0.value} == multiset(db.users) &&
      forall j :: 0 <= j < |db.sessions| ==> Attr(db.sessions[j], "user_id") != Int(userId)
  {
    match FirstIndex(db.users, ById(userId))
    case None => (Err(UserNotFound), db)
    case Some(i) =>
      if FirstMatch(db.sessions, Some(UserIdIs(Int(userId)))).Some? then (Err(IntegrityViolation), db)
      else (Ok(db.users[i]), Db(RemoveAt(db.users, i), db.sessions))
  }

  // ---------------------------------------------------------------------------
  // The service methods.

  method GetUserById(uow: UnitOfWork, userId: int) returns (r: Result<Row, Error>)
    requires uow.Valid() && uow.Closed()
    ensures r == GetById(uow.Committed(), userId)
  {
    var user := uow.user.Get(ById(userId));
    if user.None? {
      return Err(UserNotFound);
    }
    r := Ok(user.value);
  }

  method GetAllUsers(uow: UnitOfWork, skip: int, limit: int) returns (r: Result<seq<Row>, Error>)
    requires uow.Valid() && uow.Closed()
    ensures r == GetAll(uow.Committed(), skip, limit)
  {
    r := uow.user.GetMulti(Some(skip), Some(limit));
  }

  method GetUserByEmail(uow: UnitOfWork, email: string) returns (r: Option<Row>)
    requires uow.Valid() && uow.Closed()
    ensures r == GetByEmail(uow.Committed(), email)
  {
    r := uow.user.Get(Some(UserEmail(Str(email))));
  }

  method CreateUser(uow: UnitOfWork, c: UserCreate, salt: string, newId: int, now: int)
    returns (r: Result<Row, Error>)
    requires uow.Valid() && uow.Closed()
    modifies uow, uow.user, uow.refreshSession
    ensures uow.Valid() && uow.Closed()
    ensures (r, uow.Committed()) == Create(old(uow.Committed()), c, salt, newId, now)
  {
    var existing := GetUserByEmail(uow, c.email);
    if existing.Some? {
      return Err(UserAlreadyExists);
    }
    var schema := CreateDump(c)["hashed_password" := GenerateHashedPassword(c.password, salt)];
    uow.Enter();
    r := uow.user.Create(Repo.DictPayload(schema), Generated(newId, now));
    assert r.Ok?;
    uow.Commit();
    uow.Exit();
  }

  method UpdateUserAsWritten(uow: UnitOfWork, userId: int, u: UserUpdate, salt: string)
    returns (r: Result<Row, Error>)
    requires uow.Valid() && uow.Closed()
    modifies uow, uow.user, uow.refreshSession
    ensures uow.Valid() && uow.Closed()
    ensures (r, uow.Committed()) == UpdateAsWritten(old(uow.Committed()), userId, u)
  {
    var user: Option<Row>;
    if ChangesPassword(u) {
      var schema := Repo.ExcludeUnset(UpdateSchema(u)) - {"password"};
      schema := schema["hashed_password" := GenerateHashedPassword(u.password.value, salt)];
      uow.Enter();
      user := uow.user.Update(ById(userId), Repo.SchemaPayload(UpdateSchema(u)));
      uow.Commit();
      uow.Exit();
    } else {
      uow.Enter();
      user := uow.user.Update(ById(userId), Repo.SchemaPayload(UpdateSchema(u)));
      uow.Commit();
      uow.Exit();
    }
    if user.None? {
      return Err(UserNotFound);
    }
    r := Ok(user.value);
  }

  method UpdateUser(uow: UnitOfWork, userId: int, u: UserUpdate, salt: string)
    returns (r: Result<Row, Error>)
    requires uow.Valid() && uow.Closed()
    modifies uow, uow.user, uow.refreshSession
    ensures uow.Valid() && uow.Closed()
    ensures (r, uow.Committed()) == Update(old(uow.Committed()), userId, u, salt)
  {
    var user: Option<Row>;
    if ChangesPassword(u) {
      uow.Enter();
      user := uow.user.Update(ById(userId), Repo.DictPayload(PasswordUpdateItems(u, salt)));
      uow.Commit();
      uow.Exit();
    } else {
      uow.Enter();
      user := uow.user.Update(ById(userId), Repo.SchemaPayload(UpdateSchema(u)));
      uow.Commit();
      uow.Exit();
    }
    if user.None? {
      return Err(UserNotFound);
    }
    r := Ok(user.value);
  }

  method DeleteUser(uow: UnitOfWork, userId: int) returns (r: Result<Row, Error>)
    requires uow.Valid() && uow.Closed()
    modifies uow, uow.user, uow.refreshSession
    ensures uow.Valid() && uow.Closed()
    ensures (r, uow.Committed()) == Delete(old(uow.Committed()), userId)
  {
    uow.Enter();
    var user := uow.user.Delete(ById(userId));
    if user.None? {
      uow.Exit();
      return Err(UserNotFound);
    }
    var owned := uow.refreshSession.Get(Some(UserIdIs(Int(userId))));
    if owned.Some? {
      // The flush at `commit` nulls the session's `user_id` and is refused.
      uow.Exit();
      return Err(IntegrityViolation);
    }
    uow.Commit();
    uow.Exit();
    r := Ok(user.value);
  }

  // ---------------------------------------------------------------------------
  // Properties.

  /** No two users share an email. */
  ghost predicate UniqueEmails(users: seq<Row>)
  {
    forall i, j :: 0 <= i < j < |users| && "email" in users[i] ==>
      users[i]["email"] != Attr(users[j], "email")
  }

  /** Creating users keeps emails unique: the new user's email was free. */
  lemma {:induction false} CreateKeepsEmailsUnique(db: Db, c: UserCreate, salt: string, newId: int, now: int)
    requires UniqueEmails(db.users)
    ensures UniqueEmails(Create(db, c, salt, newId, now).1.users)
  {
    var (r, db') := Create(db, c, salt, newId, now);
    if r.Ok? {
      var users := db'.users;
      forall i, j | 0 <= i < j < |users| && "email" in users[i]
        ensures users[i]["email"] != Attr(users[j], "email")
      {
        if j == |db.users| {
          assert users[j] == r.value;
          assert Attr(users[i], "email") != Str(c.email) by {
            assert users[i] == db.users[i];
          }
        } else {
          assert users[i] == db.users[i] && users[j] == db.users[j];
        }
      }
    }
  }

  /** After a successful create, looking the email up finds exactly the new
      user, its stored hash verifies the password it was created with, and a
      second create with the same email is refused. */
  lemma {:induction false} CreatedUserFound(db: Db, c: UserCreate, salt: string, newId: int, now: int,
                                            c2: UserCreate, salt2: string, newId2: int, now2: int)
    requires Create(db, c, salt, newId, now).0.Ok?
    requires c2.email == c.email
    ensures var (r, db') := Create(db, c, salt, newId, now);
      GetByEmail(db', c.email) == Some(r.value) &&
      VerifyPassword(c.password, r.value["hashed_password"]) &&
      Create(db', c2, salt2, newId2, now2) == (Err(UserAlreadyExists), db')
  {
    var (r, db') := Create(db, c, salt, newId, now);
    var spec := Some(UserEmail(Str(c.email)));
    assert Selects(spec, r.value);
    FirstIndexAppended(db.users, r.value, spec);
  }

  /** Adjacent pages put together are the longer page: paging through the
      table with any sizes visits every row once, in order. */
  lemma {:induction false} PagesConcatenate(db: Db, skip: nat, a: nat, b: nat)
    ensures GetAll(db, skip, a).value + GetAll(db, skip + a, b).value == GetAll(db, skip, a + b).value
  {
    var first := GetAll(db, skip, a).value;
    var second := GetAll(db, skip + a, b).value;
    var whole := GetAll(db, skip, a + b).value;
    if skip + a <= |db.users| {
      assert |first| == a;
      assert first + second == whole by {
        forall k | 0 <= k < |whole|
          ensures (first + second)[k] == whole[k]
        {
          if k >= a {
            assert second[k - a] == db.users[skip + a + (k - a)];
          }
        }
      }
    } else {
      assert second == [];
    }
  }

  /** Setting items without an `id` on the first user with the id keeps that
      user the one found by id, and leaves every other user as it was. */
  lemma {:induction false} UpdatedUserFound(db: Db, userId: int, i: nat, items: map<string, Value>)
    requires FirstIndex(db.users, ById(userId)) == Some(i) && "id" !in items
    ensures var (r, db') := UpdatedAt(db, i, items);
      GetById(db', userId) == r && |db'.users| == |db.users| &&
      forall j :: 0 <= j < |db.users| && db.users[j] != db.users[i] ==> db'.users[j] == db.users[j]
  {
    var row := Assign(db.users[i], items);
    assert row["id"] == db.users[i]["id"];
    FirstIndexReplaced(db.users, i, row, ById(userId));
  }

  /** As written, an update with a new password reports success but leaves
      the stored hash as it was: the old password still verifies and the new
      one does not. */
  lemma {:induction false} PasswordIgnoredAsWritten(db: Db, userId: int, u: UserUpdate)
    requires ChangesPassword(u) && GetById(db, userId).Ok?
    requires "hashed_password" in GetById(db, userId).value
    ensures var (r, db') := UpdateAsWritten(db, userId, u);
      r.Ok? && r.value["hashed_password"] == GetById(db, userId).value["hashed_password"] &&
      GetById(db', userId) == r
  {
    var i := FirstIndex(db.users, ById(userId)).value;
    var user := db.users[i];
    assert user == GetById(db, userId).value;
    var items := Repo.ExcludeUnset(UpdateSchema(u));
    assert "hashed_password" !in items by {
      assert "hashed_password" !in UpdateSchema(u).fields;
    }
    assert Assign(user, items)["hashed_password"] == user["hashed_password"];
    assert UpdateAsWritten(db, userId, u) == UpdatedAt(db, i, items);
    UpdatedUserFound(db, userId, i, items);
  }

  /** Corrected, the new password is what verifies afterwards, the user keeps
      its id, and every other user is untouched. */
  lemma {:induction false} UpdateSetsPassword(db: Db, userId: int, u: UserUpdate, salt: string)
    requires ChangesPassword(u) && GetById(db, userId).Ok?
    requires "hashed_password" in GetById(db, userId).value
    ensures var (r, db') := Update(db, userId, u, salt);
      r.Ok? && VerifyPassword(u.password.value, r.value["hashed_password"]) &&
      GetById(db', userId) == r && |db'.users| == |db.users| &&
      forall j :: 0 <= j < |db.users| && db.users[j] != GetById(db, userId).value ==> db'.users[j] == db.users[j]
  {
    var i := FirstIndex(db.users, ById(userId)).value;
    var items := PasswordUpdateItems(u, salt);
    assert "id" !in items;
    assert Update(db, userId, u, salt) == UpdatedAt(db, i, items);
    UpdatedUserFound(db, userId, i, items);
  }

  /** With no new password, the written and the corrected update agree. */
  lemma UpdateWithoutPasswordAsWritten(db: Db, userId: int, u: UserUpdate, salt: string)
    requires !ChangesPassword(u)
    ensures Update(db, userId, u, salt) == UpdateAsWritten(db, userId, u)
  {
  }

  /** `id` is the primary key: no two users have the same one. */
  ghost predicate UniqueIds(users: seq<Row>)
  {
    forall i, j :: 0 <= i < j < |users| && "id" in users[i] ==> users[i]["id"] != Attr(users[j], "id")
  }

  /** With unique ids, deleting a user who owns no refresh session makes its
      id unknown: a second lookup or delete reports the user missing, and the
      ids stay unique. A user who owns one is refused and everything stays. */
  lemma {:induction false} DeleteRemovesUser(db: Db, userId: int)
    requires UniqueIds(db.users) && GetById(db, userId).Ok?
    ensures (exists j :: 0 <= j < |db.sessions| && Attr(db.sessions[j], "user_id") == Int(userId)) ==>
      Delete(db, userId) == (Err(IntegrityViolation), db)
    ensures (forall j :: 0 <= j < |db.sessions| ==> Attr(db.sessions[j], "user_id") != Int(userId)) ==>
      var db' := Delete(db, userId).1;
      GetById(db', userId) == Err(UserNotFound) && Delete(db', userId) == (Err(UserNotFound), db') &&
      UniqueIds(db'.users)
  {
    if exists j :: 0 <= j < |db.sessions| && Attr(db.sessions[j], "user_id") == Int(userId) {
      return;
    }
    var i := FirstIndex(db.users, ById(userId)).value;
    forall j | 0 <= j < |db.users| && j != i
      ensures !Selects(ById(userId), db.users[j])
    {
      if j > i {
        assert "id" in db.users[i];
      }
    }
    FirstIndexRemovedOnly(db.users, i, ById(userId));
    var users' := Delete(db, userId).1.users;
    forall a, b | 0 <= a < b < |users'| && "id" in users'[a]
      ensures users'[a]["id"] != Attr(users'[b], "id")
    {
      var a0 := if a < i then a else a + 1;
      var b0 := if b < i then b else b + 1;
      assert users'[a] == db.users[a0] && users'[b] == db.users[b0];
    }
  }
}
