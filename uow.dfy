/**
 * The unit of work of the users service (source/backend/users-service/app/database/uow.py)
 * and of the earlier app (source/backend/app/utils/unitofwork.py): one database
 * session shared by a user repository and a refresh-session repository.
 * `users` and `sessions` are the committed tables; the repositories hold what
 * the open session sees. Entering starts from the committed state, `commit`
 * makes the session's view the committed state, and leaving always rolls back,
 * so whatever was not committed is lost.
 */
module Uow {
  import opened Values
  import opened Table
  import Repo = Repository
  import AppRepo = AppRepository

  /** Columns of `User` and `RefreshSession` (source/backend/users-service/app/models/user.py and base.py). */
  const UserColumns: set<string> :=
    {"id", "created_at", "updated_at", "hashed_password", "email", "is_active", "is_superuser", "is_activated"}
  const SessionColumns: set<string> :=
    {"id", "created_at", "updated_at", "refresh_token", "expires_in", "user_id"}

  /** Columns of the app revision's `User` (source/backend/app/models/user.py), with the
      `id` its specifications compare. */
  const AppUserColumns: set<string> := UserColumns + {"referral_code"}

  /** What the database fills in at insert: the primary key and the
      `server_default=func.now()` timestamps. */
  function Generated(newId: int, now: int): (g: Row)
    ensures g.Keys == {"id", "created_at", "updated_at"}
  {
    map["id" := Int(newId), "created_at" := Int(now), "updated_at" := Int(now)]
  }

  /** The committed contents of the two tables. */
  datatype Db = Db(users: seq<Row>, sessions: seq<Row>)

  ghost predicate DbWellFormed(db: Db)
  {
    WellFormed(db.users, UserColumns) && WellFormed(db.sessions, SessionColumns)
  }

  class UnitOfWork {
    const user: Repo.Repository
    const refreshSession: Repo.Repository
    var users: seq<Row>
    var sessions: seq<Row>

    ghost predicate Valid()
      reads this, user, refreshSession
    {
      user != refreshSession &&
      user.columns == UserColumns && refreshSession.columns == SessionColumns &&
      user.Valid() && refreshSession.Valid() &&
      DbWellFormed(Db(users, sessions))
    }

    /** No transaction is open: the repositories see the committed tables. */
    ghost predicate Closed()
      reads this, user, refreshSession
    {
      user.rows == users && refreshSession.rows == sessions
    }

    function Committed(): Db
      reads this
    {
      Db(users, sessions)
    }

    constructor (db: Db)
      requires DbWellFormed(db)
      ensures Valid() && Closed() && Committed() == db
      ensures fresh(user) && fresh(refreshSession)
    {
      user := new Repo.Repository(UserColumns, db.users);
      refreshSession := new Repo.Repository(SessionColumns, db.sessions);
      users := db.users;
      sessions := db.sessions;
    }

    /** `__aenter__`: a new session, which sees the committed tables. */
    method Enter()
      requires Valid()
      modifies user, refreshSession
      ensures Valid() && Closed()
      ensures unchanged(this)
    {
      user.rows := users;
      refreshSession.rows := sessions;
    }

    /** `commit()`: the session's changes become the committed state. */
    method Commit()
      requires Valid()
      modifies this
      ensures Valid() && Closed()
      ensures Committed() == Db(user.rows, refreshSession.rows)
    {
      users := user.rows;
      sessions := refreshSession.rows;
    }

    /** `__aexit__`: always `rollback()`, then close. */
    method Exit()
      requires Valid()
      modifies user, refreshSession
      ensures Valid() && Closed()
      ensures unchanged(this)
    {
      user.rows := users;
      refreshSession.rows := sessions;
    }
  }

  /** The app revision's unit of work, over the earlier repository; only its user
      table is used by the modelled services. */
  class AppUnitOfWork {
    const user: AppRepo.Repository
    var users: seq<Row>

    ghost predicate Valid()
      reads this, user
    {
      user.columns == AppUserColumns && user.Valid() && WellFormed(users, AppUserColumns)
    }

    ghost predicate Closed()
      reads this, user
    {
      user.rows == users
    }

    constructor (users: seq<Row>)
      requires WellFormed(users, AppUserColumns)
      ensures Valid() && Closed() && this.users == users
      ensures fresh(user)
    {
      user := new AppRepo.Repository(AppUserColumns, users);
      this.users := users;
    }

    method Enter()
      requires Valid()
      modifies user
      ensures Valid() && Closed()
      ensures unchanged(this)
    {
      user.rows := users;
    }

    method Commit()
      requires Valid()
      modifies this
      ensures Valid() && Closed()
      ensures users == user.rows
    {
      users := user.rows;
    }

    method Exit()
      requires Valid()
      modifies user
      ensures Valid() && Closed()
      ensures unchanged(this)
    {
      user.rows := users;
    }
  }
}
