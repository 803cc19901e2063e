/**
 * The later `UserService` of the users service
 * (backend/users-service/app/domain/users/services.py). `create` and `update`
 * branch on the kind of input: a dataclass with a `to_dict` method
 * (`DataclassDictModel`), any other dataclass, a pydantic model (for `update`,
 * one that knows its default-valued fields, `PydanticDefaultsModel`, or any
 * other), or the caller's own dict, which is changed in place. An input of any
 * other kind matches no branch and the method returns None.
 *
 * Unlike the earlier domain service these methods have no catch-all: only
 * `IntegrityError` (in `create`) and `NotFoundError` (in `update`) are
 * translated, and everything else reaches the caller as raised. The handlers
 * for `EmailNotValidError` are never reached: pydantic's `validate_email`
 * raises a `ValueError` instead.
 */
module DomainUserServices {
  import opened Wrappers
  import opened Values
  import opened Errors
  import opened Specification
  import opened Table
  import opened Crypt
  import Repo = Repository
  import SR = ServiceRepository
  import Uow
  import DS = DomainServices

  /** A pydantic model: its fields (and which the caller set), the defaults
      its class declares, whether its class derives from
      `PydanticDefaultsModel`, and whether its `email` is an `EmailStr`
      instance (a field annotated `EmailStr` holds a plain `str`). */
  datatype Model = Model(schema: Repo.Schema, declared: map<string, Value>, isDefaultsModel: bool, emailIsEmailStr: bool)

  datatype Input =
    | DataclassDictInput(fields: map<string, Value>)
    | DataclassInput(fields: map<string, Value>)
    | ModelInput(model: Model)
    | DictInput(d: Dict)
    | OtherInput

  /** The value of an input when the service is called. */
  datatype Data =
    | DataclassDictData(fields: map<string, Value>)
    | DataclassData(fields: map<string, Value>)
    | ModelData(model: Model)
    | DictData(items: map<string, Value>)
    | OtherData

  function DataOf(input: Input): Data
    reads if input.DictInput? then {input.d} else {}
  {
    match input
    case DataclassDictInput(f) => DataclassDictData(f)
    case DataclassInput(f) => DataclassData(f)
    case ModelInput(m) => ModelData(m)
    case DictInput(d) => DictData(d.items)
    case OtherInput => OtherData
  }

  /** The model's fields minus those equal to their declared default
      (`model_dump(exclude=defaults)`). */
  function WithoutDefaults(m: Model): (d: map<string, Value>)
    ensures forall k :: k in d <==> k in m.schema.fields && !(k in m.declared && m.schema.fields[k] == m.declared[k])
    ensures forall k :: k in d ==> d[k] == m.schema.fields[k]
  {
    map k | k in m.schema.fields && !(k in m.declared && m.schema.fields[k] == m.declared[k]) :: m.schema.fields[k]
  }

  /** The dict `update` starts from: `to_dict()`, `asdict`, the model without
      its default-valued fields, or the caller's dict. */
  function UpdateFields(data: Data): map<string, Value>
  {
    match data
    case DataclassDictData(f) => f
    case DataclassData(f) => f
    case ModelData(m) => WithoutDefaults(m)
    case DictData(items) => items
    case OtherData => map[]
  }

  /** The dict `create` starts from (before the password is taken out). */
  function Given(data: Data): map<string, Value>
  {
    match data
    case DataclassDictData(f) => f
    case DataclassData(f) => f
    case ModelData(m) => m.schema.fields
    case DictData(items) => items
    case OtherData => map[]
  }

  /** The same input as the earlier domain service sees it. */
  function Earlier(data: Data): (e: DS.Data)
    ensures e.OtherData? <==> data.OtherData?
    ensures !data.OtherData? ==> DS.AsDict(e) == Some(Given(data))
  {
    match data
    case DataclassDictData(f) => DS.DataclassData(f)
    case DataclassData(f) => DS.DataclassData(f)
    case ModelData(m) => DS.ModelData(m.schema)
    case DictData(items) => DS.DictData(items)
    case OtherData => DS.OtherData
  }

  /** `validate_email(value)` inside these handlers: a refused email raises
      pydantic's `ValueError`, which passes the `except EmailNotValidError`
      handlers and reaches the caller. */
  function Validated(v: Value, validate: DS.EmailValidator): (r: Result<string, Error>)
    ensures validate(v).Ok? <==> r.Ok?
    ensures r.Ok? ==> r.value == validate(v).value
    ensures r.Err? ==> r.error == ValueError(validate(v).error)
  {
    match validate(v)
    case Ok(email) => Ok(email)
    case Err(m) => Err(ValueError(m))
  }

  const UnboundEmail := UnboundLocalError("cannot access local variable 'email' where it is not associated with a value")

  /** The result of `create` or `update` (None when no branch applies), the
      table after it, and the dict the steps worked on (for a dict input: the
      caller's dict). */
  datatype Outcome = Outcome(result: Result<Option<Row>, Error>, rows: seq<Row>, schema: Option<map<string, Value>>)

  /** `super().create(_schema)`; a unique violation is reported with the
      email the handler reads. */
  function Inserted(rows: seq<Row>, prepared: map<string, Value>, newId: int, now: int, shown: Value)
    : (r: (Result<Option<Row>, Error>, seq<Row>))
    ensures r.0.Ok? ==> r.0.value.Some? && r.1 == rows + [r.0.value.value]
    ensures r.0.Err? ==> r == (Err(Integrity("User with this email (" + ToStr(shown) + ") already exists")), rows)
  {
    var (created, rows') := SR.Insert(rows, Uow.UserColumns, DS.UserUnique, prepared, DS.UserGenerated(newId, now));
    if created.Ok? then (Ok(Some(created.value)), rows')
    else (Err(Integrity("User with this email (" + ToStr(shown) + ") already exists")), rows)
  }

  /** The steps every `create` branch takes on the dict `s`: validate the
      email, drop the password, add its hash and the validated email, insert.
      The dict branch reports a clash with the email as it is after the
      update; the others with the email they were given. */
  function CreateSteps(rows: seq<Row>, s: map<string, Value>, fromDict: bool, validate: DS.EmailValidator,
                       salt: string, newId: int, now: int): (o: Outcome)
    ensures o.result.Err? ==> o.rows == rows
  {
    match Validated(Attr(s, "email"), validate)
    case Err(e) => Outcome(Err(e), rows, Some(s))
    case Ok(email) =>
      var popped := s - {"password"};
      match HashPasswordValue(Attr(s, "password"), salt)
      case Err(e) => Outcome(Err(e), rows, Some(popped))
      case Ok(h) =>
        var prepared := DS.Prepared(s, h, email);
        var (r, rows') := Inserted(rows, prepared, newId, now, if fromDict then Str(email) else Attr(s, "email"));
        Outcome(r, rows', Some(prepared))
  }

  /** `create(data=...)`. */
  function UserCreate(rows: seq<Row>, data: Data, validate: DS.EmailValidator, salt: string, newId: int, now: int)
    : (o: Outcome)
    ensures data.OtherData? ==> o == Outcome(Ok(None), rows, None)
    ensures data.ModelData? && data.model.emailIsEmailStr ==> o.result.Err?
    ensures o.result.Err? ==> o.rows == rows
  {
    match data
    case OtherData => Outcome(Ok(None), rows, None)
    case DataclassDictData(f) => CreateSteps(rows, f, false, validate, salt, newId, now)
    case DataclassData(f) => CreateSteps(rows, f, false, validate, salt, newId, now)
    case DictData(items) => CreateSteps(rows, items, true, validate, salt, newId, now)
    case ModelData(m) =>
      if m.emailIsEmailStr then
        var s := m.schema.fields - {"password"};
        match HashPasswordValue(Attr(m.schema.fields, "password"), salt)
        case Err(e) => Outcome(Err(e), rows, Some(s))
        case Ok(_) => Outcome(Err(UnboundEmail), rows, Some(s))
      else CreateSteps(rows, m.schema.fields, false, validate, salt, newId, now)
  }

  /** The email step of `update`: a truthy email is replaced by its validated form. */
  function EmailStep(s: map<string, Value>, validate: DS.EmailValidator): (r: Result<map<string, Value>, Error>)
    ensures !Truthy(Attr(s, "email")) ==> r == Ok(s)
    ensures r.Ok? ==> r.value.Keys <= s.Keys + {"email"} && forall k :: k in s && k != "email" ==> k in r.value && r.value[k] == s[k]
  {
    if !Truthy(Attr(s, "email")) then Ok(s)
    else match Validated(Attr(s, "email"), validate)
      case Err(e) => Err(e)
      case Ok(email) => Ok(s["email" := Str(email)])
  }

  /** `super().update(...)` of the row with primary key `itemId`; a missing
      row is reported for the `user_id` the caller passed. */
  function Written(rows: seq<Row>, items: map<string, Value>, itemId: Value, userId: int)
    : (r: (Result<Option<Row>, Error>, seq<Row>))
    ensures r.0.Err? ==> r.1 == rows
    ensures FirstIndex(rows, SR.ById(itemId)).None? ==> r == (Err(DS.NoUserWithId(userId)), rows)
  {
    var (updated, rows') := SR.Modify(rows, DS.UserUnique, items, itemId);
    if updated.Ok? then (Ok(Some(updated.value)), rows')
    else if updated.error == RepositoryNotFound then (Err(DS.NoUserWithId(userId)), rows)
    else (Err(updated.error), rows)
  }

  /** `update(user_id=..., data=...)`. */
  function UserUpdate(rows: seq<Row>, userId: int, data: Data, validate: DS.EmailValidator, salt: string): (o: Outcome)
    ensures data.OtherData? ==> o == Outcome(Ok(None), rows, None)
    ensures o.result.Err? ==> o.rows == rows
    ensures data.ModelData? && !data.model.isDefaultsModel && "password" !in WithoutDefaults(data.model) ==>
      o == Outcome(Err(KeyError("password")), rows, Some(WithoutDefaults(data.model)))
    ensures !data.DictData? && !data.OtherData? && FirstIndex(rows, SR.ById(Int(userId))).None? ==> o.result.Err?
  {
    match data
    case OtherData => Outcome(Ok(None), rows, None)
    case DictData(items) =>
      var password := Attr(items, "password");
      if Truthy(password) && !password.Str? then Outcome(Err(HashPasswordValue(password, salt).error), rows, Some(items))
      else
        var s1 := if Truthy(password) then items["hashed_password" := GenerateHashedPassword(password.s, salt)] else items;
        (match EmailStep(s1, validate)
         case Err(e) => Outcome(Err(e), rows, Some(s1))
         case Ok(s2) =>
           var (r, rows') := Written(rows, s2, Attr(s2, "id"), userId);
           Outcome(r, rows', Some(s2)))
    case DataclassDictData(f) => UpdateSteps(rows, userId, f, false, validate, salt)
    case DataclassData(f) => UpdateSteps(rows, userId, f, false, validate, salt)
    case ModelData(m) => UpdateSteps(rows, userId, WithoutDefaults(m), !m.isDefaultsModel, validate, salt)
  }

  /** The steps of `update` on the dict `s` built from a dataclass or model:
      hash a truthy password, validate a truthy email, write the row with
      primary key `user_id`. A model outside `PydanticDefaultsModel` reads
      `schema["password"]` and `schema["email"]` (`strict`), which fails when
      the field was left out of the dump. */
  function UpdateSteps(rows: seq<Row>, userId: int, s: map<string, Value>, strict: bool,
                       validate: DS.EmailValidator, salt: string): (o: Outcome)
    ensures o.result.Err? ==> o.rows == rows
  {
    if strict && "password" !in s then Outcome(Err(KeyError("password")), rows, Some(s))
    else
      var (p, s1) := DS.PasswordStep(s, salt);
      if p.Err? then Outcome(Err(p.error), rows, Some(s1))
      else if strict && "email" !in s1 then Outcome(Err(KeyError("email")), rows, Some(s1))
      else match EmailStep(s1, validate)
        case Err(e) => Outcome(Err(e), rows, Some(s1))
        case Ok(s2) =>
          var (r, rows') := Written(rows, s2, Int(userId), userId);
          Outcome(r, rows', Some(s2))
  }

  // Properties of the operations.

  /** Given the same input, a create that succeeds here succeeds in the earlier
      domain service and stores the same row, and the reverse; the dict the
      steps leave behind is the same too. Only the errors differ (see
      `CreateReportsEmailFailure`). A model whose email is an `EmailStr`
      instance is left out: here it never gets past the unbound `email`. */
  lemma {:induction false} CreateAgreesWithEarlierService(rows: seq<Row>, data: Data, validate: DS.EmailValidator,
                                                          salt: string, newId: int, now: int)
    requires !data.OtherData? && !(data.ModelData? && data.model.emailIsEmailStr)
    ensures var o := UserCreate(rows, data, validate, salt, newId, now);
      var e := DS.UserCreate(rows, Earlier(data), validate, salt, newId, now);
      (o.result.Ok? <==> e.result.Ok?) && o.rows == e.rows && o.schema == e.schema &&
      (o.result.Ok? ==> o.result.value == Some(e.result.value))
  {
    var s := Given(data);
    var o := CreateSteps(rows, s, data.DictData?, validate, salt, newId, now);
    assert UserCreate(rows, data, validate, salt, newId, now) == o;
    match validate(Attr(s, "email"))
    case Err(m) =>
    case Ok(email) =>
      match HashPasswordValue(Attr(s, "password"), salt)
      case Err(e) =>
      case Ok(h) =>
        var prepared := DS.Prepared(s, h, email);
        var (r, rows') := SR.Insert(rows, Uow.UserColumns, DS.UserUnique, prepared, DS.UserGenerated(newId, now));
        assert o.schema == Some(prepared);
        assert o.result.Ok? <==> r.Ok?;
  }

  /** A created user can log in with the validated email and the password it
      was created with, and with no other; the dict the steps worked on (the
      caller's own dict, for a dict input) no longer holds the password. */
  lemma {:induction false} CreatedUserAuthenticates(rows: seq<Row>, data: Data, validate: DS.EmailValidator,
                                                    salt: string, newId: int, now: int, row: Row, other: string)
    requires SR.UniqueIn(rows, DS.UserUnique)
    requires UserCreate(rows, data, validate, salt, newId, now).result == Ok(Some(row))
    ensures var o := UserCreate(rows, data, validate, salt, newId, now);
      var password := Attr(Given(data), "password");
      password.Str? && o.rows == rows + [row] &&
      row["email"] == Str(validate(Attr(Given(data), "email")).value) &&
      o.schema.Some? && "password" !in o.schema.value &&
      DS.UserAuthenticate(o.rows, DS.Credentials(row["email"], password.s)) == Ok(row) &&
      (other != password.s ==> DS.UserAuthenticate(o.rows, DS.Credentials(row["email"], other)) == Err(DS.InvalidLogin))
  {
    CreateAgreesWithEarlierService(rows, data, validate, salt, newId, now);
    DS.CreateReplacesPassword(rows, Earlier(data), validate, salt, newId, now);
    DS.CreatedUserAuthenticates(rows, Earlier(data), validate, salt, newId, now, other);
  }

  /** A refused email stops `create` before anything changes, and reaches the
      caller as pydantic's `ValueError`, not as `EmailValidationException`
      (the earlier service turned it into a 500). */
  lemma {:induction false} CreateReportsEmailFailure(rows: seq<Row>, data: Data, validate: DS.EmailValidator,
                                                     salt: string, newId: int, now: int, message: string)
    requires !data.OtherData? && !(data.ModelData? && data.model.emailIsEmailStr)
    requires validate(Attr(Given(data), "email")) == Err(message)
    ensures var o := UserCreate(rows, data, validate, salt, newId, now);
      o.rows == rows && o.schema == Some(Given(data)) &&
      o.result == Err(ValueError(message)) && o.result != Err(EmailValidation(message))
  {
    assert UserCreate(rows, data, validate, salt, newId, now) ==
      CreateSteps(rows, Given(data), data.DictData?, validate, salt, newId, now);
  }

  /** An email some user already has is refused with `IntegrityException`,
      and the table is unchanged. The message shows the email as the input
      gave it, except for a dict input, whose email the handler has already
      replaced by the validated one. */
  lemma {:induction false} CreateRejectsTakenEmail(rows: seq<Row>, data: Data, validate: DS.EmailValidator,
                                                   salt: string, newId: int, now: int, j: nat)
    requires !data.OtherData? && !(data.ModelData? && data.model.emailIsEmailStr)
    requires validate(Attr(Given(data), "email")).Ok? && Attr(Given(data), "password").Str?
    requires j < |rows| && Attr(rows[j], "email") == Str(validate(Attr(Given(data), "email")).value)
    ensures var o := UserCreate(rows, data, validate, salt, newId, now);
      var email := validate(Attr(Given(data), "email")).value;
      var shown := if data.DictData? then Str(email) else Attr(Given(data), "email");
      o.result == Err(Integrity("User with this email (" + ToStr(shown) + ") already exists")) && o.rows == rows &&
      o.schema.Some? && o.schema.value["email"] == Str(email) && "password" !in o.schema.value
  {
    var s := Given(data);
    var email := validate(Attr(s, "email")).value;
    var h := HashPasswordValue(Attr(s, "password"), salt).value;
    var prepared := DS.Prepared(s, h, email);
    var row := NewRow(Uow.UserColumns, prepared, DS.UserGenerated(newId, now));
    assert UserCreate(rows, data, validate, salt, newId, now) ==
      CreateSteps(rows, s, data.DictData?, validate, salt, newId, now);
    assert SR.Clashes(rows, DS.UserUnique, row) by {
      assert "email" in DS.UserUnique && Attr(rows[j], "email") == Attr(row, "email");
    }
  }

  /** The update of a dataclass or model: the model is complete when it is
      not a `PydanticDefaultsModel` but still dumps both `password` and
      `email`, which that branch reads by key. */
  predicate Complete(data: Data)
  {
    !(data.ModelData? && !data.model.isDefaultsModel) ||
    ("password" in UpdateFields(data) && "email" in UpdateFields(data))
  }

  /** For a dataclass or a model, an update that succeeds here succeeds in the
      earlier domain service handed the same dict, with the same row and
      table; when that one succeeds and the dump has the keys this branch
      reads, this one succeeds too. */
  lemma {:induction false} UpdateAgreesWithEarlierService(rows: seq<Row>, userId: int, data: Data,
                                                          validate: DS.EmailValidator, salt: string)
    requires !data.DictData? && !data.OtherData?
    ensures var o := UserUpdate(rows, userId, data, validate, salt);
      var e := DS.UserUpdate(rows, userId, DS.DictData(UpdateFields(data)), validate, salt);
      (o.result.Ok? ==> o.result.value.Some? && e.result == Ok(o.result.value.value) && e.rows == o.rows && e.schema == o.schema) &&
      (e.result.Ok? && Complete(data) ==> o.result.Ok?)
  {
    var s := UpdateFields(data);
    var strict := data.ModelData? && !data.model.isDefaultsModel;
    assert UserUpdate(rows, userId, data, validate, salt) == UpdateSteps(rows, userId, s, strict, validate, salt);
    assert DS.UserUpdate(rows, userId, DS.DictData(s), validate, salt) == DS.UpdateSteps(rows, userId, s, validate, salt);
    StepsAgree(rows, userId, s, strict, validate, salt);
  }

  /** The update steps here and in the earlier service, on the same dict. */
  lemma {:induction false} StepsAgree(rows: seq<Row>, userId: int, s: map<string, Value>, strict: bool,
                                      validate: DS.EmailValidator, salt: string)
    ensures var o := UpdateSteps(rows, userId, s, strict, validate, salt);
      var e := DS.UpdateSteps(rows, userId, s, validate, salt);
      (o.result.Ok? ==> o.result.value.Some? && e.result == Ok(o.result.value.value) && e.rows == o.rows && e.schema == o.schema) &&
      (e.result.Ok? && (!strict || ("password" in s && "email" in s)) ==> o.result.Ok?)
  {
    var s1 := DS.PasswordStep(s, salt).1;
    if "email" in s {
      assert "email" in s1;
    }
    EmailStepsAgree(s1, validate);
  }

  /** The email step succeeds here exactly when it does in the earlier
      service, with the same dict. */
  lemma EmailStepsAgree(s: map<string, Value>, validate: DS.EmailValidator)
    ensures EmailStep(s, validate).Ok? <==> DS.EmailStep(s, validate).Ok?
    ensures EmailStep(s, validate).Ok? ==> EmailStep(s, validate) == DS.EmailStep(s, validate)
  {
  }

  /** After a password change through a dataclass or model the user logs in
      with the new password. */
  lemma {:induction false} UpdatedPasswordAuthenticates(rows: seq<Row>, userId: int, data: Data,
                                                        validate: DS.EmailValidator, salt: string, row: Row, password: string)
    requires WellFormed(rows, Uow.UserColumns) && SR.UniqueIn(rows, DS.UserUnique)
    requires !data.DictData? && !data.OtherData?
    requires UserUpdate(rows, userId, data, validate, salt).result == Ok(Some(row))
    requires Attr(UpdateFields(data), "password") == Str(password) && password != "" && Attr(row, "email") != Null
    ensures DS.UserAuthenticate(UserUpdate(rows, userId, data, validate, salt).rows, DS.Credentials(row["email"], password)) == Ok(row)
  {
    UpdateAgreesWithEarlierService(rows, userId, data, validate, salt);
    DS.UpdatedPasswordAuthenticates(rows, userId, DS.DictData(UpdateFields(data)), validate, salt, password);
  }

  /** A `PydanticDefaultsModel` leaves out every field equal to its declared
      default, so an update never writes such a value: a field set back to
      its default keeps the value the user had. */
  lemma {:induction false} UpdateSkipsDefaultValues(rows: seq<Row>, userId: int, data: Data,
                                                    validate: DS.EmailValidator, salt: string, k: string)
    requires data.ModelData? && UserUpdate(rows, userId, data, validate, salt).result.Ok?
    requires k in data.model.schema.fields && k in data.model.declared
    requires data.model.schema.fields[k] == data.model.declared[k]
    requires k != "hashed_password" && k != "email"
    ensures var i := FirstIndex(rows, SR.ById(Int(userId))).value;
      var row := UserUpdate(rows, userId, data, validate, salt).result.value.value;
      FirstIndex(rows, SR.ById(Int(userId))).Some? && (k in rows[i] ==> row[k] == rows[i][k])
  {
    UpdateAgreesWithEarlierService(rows, userId, data, validate, salt);
    DS.UpdateWritesSuppliedFields(rows, userId, DS.DictData(UpdateFields(data)), validate, salt);
    assert k !in UpdateFields(data);
  }

  /** A dict update hashes a truthy password but leaves the plaintext in the
      caller's dict, writes the row whose id the dict holds, and does not look
      at `user_id` at all. */
  lemma {:induction false} DictUpdateKeepsPassword(rows: seq<Row>, userId: int, otherId: int, items: map<string, Value>,
                                                   validate: DS.EmailValidator, salt: string)
    requires UserUpdate(rows, userId, DictData(items), validate, salt).result.Ok?
    ensures var o := UserUpdate(rows, userId, DictData(items), validate, salt);
      var password := Attr(items, "password");
      o.schema.Some? &&
      (Truthy(password) ==>
        password.Str? && "password" in o.schema.value && o.schema.value["password"] == password &&
        VerifyPassword(password.s, Attr(o.schema.value, "hashed_password"))) &&
      FirstIndex(rows, SR.ById(Attr(items, "id"))).Some? &&
      o.rows == rows[FirstIndex(rows, SR.ById(Attr(items, "id"))).value := o.result.value.value] &&
      UserUpdate(rows, otherId, DictData(items), validate, salt) == o
  {
    var password := Attr(items, "password");
    var s1 := if Truthy(password) then items["hashed_password" := GenerateHashedPassword(password.s, salt)] else items;
    var s2 := EmailStep(s1, validate).value;
    assert Attr(s2, "id") == Attr(items, "id");
    if Truthy(password) {
      assert s2["password"] == password;
      assert s2["hashed_password"] == GenerateHashedPassword(password.s, salt);
    }
  }

  class UserService {
    const repository: SR.Store

    ghost predicate Valid()
      reads this, repository
    {
      repository.columns == Uow.UserColumns && repository.unique == DS.UserUnique && repository.Valid()
    }

    constructor (rows: seq<Row>)
      requires WellFormed(rows, Uow.UserColumns) && SR.UniqueIn(rows, DS.UserUnique)
      ensures Valid() && repository.rows == rows && fresh(repository)
    {
      repository := new SR.Store(Uow.UserColumns, DS.UserUnique, rows);
    }

    method Get(userId: int) returns (r: Result<Row, Error>)
      ensures r == DS.UserGet(repository.rows, userId)
    {
      var user := repository.GetOneOrNone(UserID(Int(userId)));
      if user.None? {
        return Err(DS.NoUserWithId(userId));
      }
      r := Ok(user.value);
    }

    /** `get_users()`: every user, with their number. */
    method GetUsers() returns (users: seq<Row>, total: nat)
      ensures users == repository.rows && total == |users|
    {
      users := repository.rows;
      total := |users|;
    }

    method Insert(prepared: map<string, Value>, newId: int, now: int, shown: Value)
      returns (r: Result<Option<Row>, Error>)
      requires Valid()
      modifies repository
      ensures Valid()
      ensures (r, repository.rows) == Inserted(old(repository.rows), prepared, newId, now, shown)
    {
      var created := repository.Create(prepared, DS.UserGenerated(newId, now));
      if created.Err? {
        return Err(Integrity("User with this email (" + ToStr(shown) + ") already exists"));
      }
      r := Ok(Some(created.value));
    }

    method Create(input: Input, validate: DS.EmailValidator, salt: string, newId: int, now: int)
      returns (r: Result<Option<Row>, Error>)
      requires Valid()
      modifies repository, if input.DictInput? then {input.d} else {}
      ensures Valid()
      ensures var o := UserCreate(old(repository.rows), old(DataOf(input)), validate, salt, newId, now);
        r == o.result && repository.rows == o.rows && (input.DictInput? ==> Some(input.d.items) == o.schema)
    {
      match input {
        case DataclassDictInput(fields) =>
          var checked := Validated(Attr(fields, "email"), validate);
          if checked.Err? {
            return Err(checked.error);
          }
          var schema := new Dict(fields - {"password"});
          var hashed := HashPasswordValue(Attr(fields, "password"), salt);
          if hashed.Err? {
            return Err(hashed.error);
          }
          schema.items := schema.items["hashed_password" := hashed.value]["email" := Str(checked.value)];
          r := Insert(schema.items, newId, now, Attr(fields, "email"));
        case DataclassInput(fields) =>
          var checked := Validated(Attr(fields, "email"), validate);
          if checked.Err? {
            return Err(checked.error);
          }
          var schema := new Dict(fields);
          var password := Attr(schema.items, "password");
          schema.items := schema.items - {"password"};
          var hashed := HashPasswordValue(password, salt);
          if hashed.Err? {
            return Err(hashed.error);
          }
          schema.items := schema.items["hashed_password" := hashed.value]["email" := Str(checked.value)];
          r := Insert(schema.items, newId, now, Attr(fields, "email"));
        case ModelInput(m) =>
          var email: Option<string> := None;
          if !m.emailIsEmailStr {
            var checked := Validated(Attr(m.schema.fields, "email"), validate);
            if checked.Err? {
              return Err(checked.error);
            }
            email := Some(checked.value);
          }
          var schema := new Dict(m.schema.fields - {"password"});
          var hashed := HashPasswordValue(Attr(m.schema.fields, "password"), salt);
          if hashed.Err? {
            return Err(hashed.error);
          }
          if email.None? {
            return Err(UnboundEmail);
          }
          schema.items := schema.items["hashed_password" := hashed.value]["email" := Str(email.value)];
          r := Insert(schema.items, newId, now, Attr(m.schema.fields, "email"));
        case DictInput(d) =>
          var checked := Validated(Attr(d.items, "email"), validate);
          if checked.Err? {
            return Err(checked.error);
          }
          var password := Attr(d.items, "password");
          d.items := d.items - {"password"};
          var hashed := HashPasswordValue(password, salt);
          if hashed.Err? {
            return Err(hashed.error);
          }
          d.items := d.items["hashed_password" := hashed.value]["email" := Str(checked.value)];
          r := Insert(d.items, newId, now, Attr(d.items, "email"));
        case OtherInput =>
          return Ok(None);
      }
    }

    method Write(items: map<string, Value>, itemId: Value, userId: int) returns (r: Result<Option<Row>, Error>)
      requires Valid()
      modifies repository
      ensures Valid()
      ensures (r, repository.rows) == Written(old(repository.rows), items, itemId, userId)
    {
      var updated := repository.Update(items, itemId);
      if updated.Err? {
        return Err(if updated.error == RepositoryNotFound then DS.NoUserWithId(userId) else updated.error);
      }
      r := Ok(Some(updated.value));
    }

    method Update(userId: int, input: Input, validate: DS.EmailValidator, salt: string)
      returns (r: Result<Option<Row>, Error>)
      requires Valid()
      modifies repository, if input.DictInput? then {input.d} else {}
      ensures Valid()
      ensures var o := UserUpdate(old(repository.rows), userId, old(DataOf(input)), validate, salt);
        r == o.result && repository.rows == o.rows && (input.DictInput? ==> Some(input.d.items) == o.schema)
    {
      match input {
        case OtherInput =>
          return Ok(None);
        case DictInput(d) =>
          var password := Attr(d.items, "password");
          if Truthy(password) {
            var hashed := HashPasswordValue(password, salt);
            if hashed.Err? {
              return Err(hashed.error);
            }
            d.items := d.items["hashed_password" := hashed.value];
          }
          var email := Attr(d.items, "email");
          if Truthy(email) {
            var checked := Validated(email, validate);
            if checked.Err? {
              return Err(checked.error);
            }
            d.items := d.items["email" := Str(checked.value)];
          }
          r := Write(d.items, Attr(d.items, "id"), userId);
        case DataclassDictInput(fields) =>
          r := UpdateFrom(userId, fields, false, validate, salt);
        case DataclassInput(fields) =>
          r := UpdateFrom(userId, fields, false, validate, salt);
        case ModelInput(m) =>
          r := UpdateFrom(userId, WithoutDefaults(m), !m.isDefaultsModel, validate, salt);
      }
    }

    method UpdateFrom(userId: int, fields: map<string, Value>, strict: bool, validate: DS.EmailValidator, salt: string)
      returns (r: Result<Option<Row>, Error>)
      requires Valid()
      modifies repository
      ensures Valid()
      ensures var o := UpdateSteps(old(repository.rows), userId, fields, strict, validate, salt);
        r == o.result && repository.rows == o.rows
    {
      var schema := new Dict(fields);
      if strict && "password" !in schema.items {
        return Err(KeyError("password"));
      }
      var password := Attr(schema.items, "password");
      if Truthy(password) {
        schema.items := schema.items - {"password"};
        var hashed := HashPasswordValue(password, salt);
        if hashed.Err? {
          return Err(hashed.error);
        }
        schema.items := schema.items["hashed_password" := hashed.value];
      }
      if strict && "email" !in schema.items {
        return Err(KeyError("email"));
      }
      var email := Attr(schema.items, "email");
      if Truthy(email) {
        var checked := Validated(email, validate);
        if checked.Err? {
          return Err(checked.error);
        }
        schema.items := schema.items["email" := Str(checked.value)];
      }
      r := Write(schema.items, Int(userId), userId);
    }
  }
}
