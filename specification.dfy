/**
 * The specification objects the repositories filter by
 * (source/backend/app/utils/specification.py). Each is a single equality
 * between one attribute of the row and the value it was built with.
 */
module Specification {
  import opened Wrappers
  import opened Values

  datatype Spec =
    | UserID(id: Value)                 // UserIDSpecification
    | UserEmail(email: Value)           // UserEmailSpecification
    | RefreshTokenIs(token: Value)      // RefreshTokenSpecification
    | UserIdIs(userId: Value)           // the join condition RefreshSession.user_id == User.id

  /** The attribute a specification compares. */
  function Attribute(spec: Spec): string
  {
    match spec
    case UserID(_) => "id"
    case UserEmail(_) => "email"
    case RefreshTokenIs(_) => "refresh_token"
    case UserIdIs(_) => "user_id"
  }

  function Wanted(spec: Spec): Value
  {
    match spec
    case UserID(v) => v
    case UserEmail(v) => v
    case RefreshTokenIs(v) => v
    case UserIdIs(v) => v
  }

  /** `spec.is_satisfied_by(row)`: the row has the attribute and it equals the
      wanted value exactly (SQLAlchemy turns `== None` into `IS NULL`, and
      strings are compared without case folding). */
  predicate IsSatisfiedBy(spec: Spec, row: Row): (b: bool)
    ensures b ==> Attr(row, Attribute(spec)) == Wanted(spec)
    ensures Wanted(spec) != Null ==> (b <==> Attr(row, Attribute(spec)) == Wanted(spec))
  {
    Attribute(spec) in row && row[Attribute(spec)] == Wanted(spec)
  }

  /** `and_`, `or_` and `not_` of both specification classes: stubs whose body
      is `pass`, so the combination they return is None. */
  function And(spec: Spec, other: Spec): (r: Option<Spec>)
    ensures r.None?
  {
    None
  }

  function Or(spec: Spec, other: Spec): (r: Option<Spec>)
    ensures r.None?
  {
    None
  }

  function Not(spec: Spec): (r: Option<Spec>)
    ensures r.None?
  {
    None
  }

  lemma UserIDExactly(id: Value, row: Row)
    ensures IsSatisfiedBy(UserID(id), row) <==> "id" in row && row["id"] == id
  {
  }

  lemma UserEmailExactly(email: string, row: Row)
    ensures IsSatisfiedBy(UserEmail(Str(email)), row) <==> "email" in row && row["email"] == Str(email)
  {
  }
}
