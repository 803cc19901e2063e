/**
 * The earlier revision of the generic repository
 * (source/backend/app/repositories/repository.py). It differs from the users
 * service's in one respect: `get` calls `spec.is_satisfied_by` without
 * checking for None, so every operation that goes through `get` fails with
 * an AttributeError when no specification is given.
 */
module AppRepository {
  import opened Wrappers
  import opened Values
  import opened Specification
  import opened Errors
  import opened Table
  import Repo = Repository

  const NoSpecification := AttributeError("'NoneType' object has no attribute 'is_satisfied_by'")

  class Repository {
    const columns: set<string>
    var rows: seq<Row>

    ghost predicate Valid()
      reads this
    {
      WellFormed(rows, columns)
    }

    constructor (columns: set<string>, rows: seq<Row>)
      requires WellFormed(rows, columns)
      ensures this.columns == columns && this.rows == rows
      ensures Valid()
    {
      this.columns := columns;
      this.rows := rows;
    }

    /** `get(spec=None)`: the specification is mandatory in practice. */
    method Get(spec: Option<Spec>) returns (r: Result<Option<Row>, Error>)
      ensures spec.None? <==> r == Err(NoSpecification)
      ensures spec.Some? ==> r == Ok(FirstMatch(rows, spec))
    {
      if spec.None? {
        return Err(NoSpecification);
      }
      r := Ok(FirstMatch(rows, spec));
    }

    /** `get_multi(skip=0, limit=100)`. */
    method GetMulti(skip: Option<int>, limit: Option<int>) returns (r: Result<seq<Row>, Error>)
      ensures r == Paged(rows, skip, limit)
    {
      if skip.Some? && skip.value < 0 {
        return Err(NegativeOffset);
      }
      if limit.Some? && limit.value < 0 {
        return Err(NegativeLimit);
      }
      var offset := if skip.Some? then Some(skip.value as nat) else None;
      var count := if limit.Some? then Some(limit.value as nat) else None;
      r := Ok(Page(rows, offset, count));
    }

    /** `create(create_schema=...)`, as in the later revision. */
    method Create(payload: Repo.Payload, generated: Row) returns (r: Result<Row, Error>)
      requires Valid()
      modifies this
      ensures Valid()
      ensures payload.OtherPayload? ==> r.Err? && r.error.AttributeError?
      ensures payload.DictPayload? ==> r == Construct(columns, payload.items, generated)
      ensures payload.SchemaPayload? ==> r == Construct(columns, payload.schema.fields, generated)
      ensures r.Ok? ==> rows == old(rows) + [r.value]
      ensures r.Err? ==> rows == old(rows)
    {
      match payload {
        case DictPayload(items) =>
          r := Construct(columns, items, generated);
        case SchemaPayload(schema) =>
          r := Construct(columns, schema.fields, generated);
        case OtherPayload =>
          r := Err(AttributeError("object has no attribute 'model_dump'"));
      }
      if r.Ok? {
        rows := rows + [r.value];
      }
    }

    /** `update(spec=..., update_schema=...)`: a dict sets its keys that are
        attributes, a schema its explicitly set fields; None when nothing is
        selected or the argument is neither. */
    method Update(spec: Option<Spec>, payload: Repo.Payload) returns (r: Result<Option<Row>, Error>)
      requires Valid()
      modifies this
      ensures Valid()
      ensures payload.OtherPayload? ==> r == Ok(None) && rows == old(rows)
      ensures !payload.OtherPayload? && spec.None? ==> r == Err(NoSpecification) && rows == old(rows)
      ensures spec.Some? && FirstIndex(old(rows), spec).None? ==> r == Ok(None) && rows == old(rows)
      ensures !payload.OtherPayload? && spec.Some? && FirstIndex(old(rows), spec).Some? ==>
        var i := FirstIndex(old(rows), spec).value;
        var items := if payload.DictPayload? then payload.items else Repo.ExcludeUnset(payload.schema);
        r == Ok(Some(Assign(old(rows)[i], items))) && rows == old(rows)[i := r.value.value]
    {
      if payload.OtherPayload? {
        return Ok(None);
      }
      var items := if payload.DictPayload? then payload.items else Repo.ExcludeUnset(payload.schema);
      var obj := Get(spec);
      if obj.Err? {
        return Err(obj.error);
      }
      if obj.value.None? {
        return Ok(None);
      }
      var i := FirstIndex(rows, spec).value;
      var updated := SetAttributes(rows[i], items);
      rows := rows[i := updated];
      r := Ok(Some(updated));
    }

    /** `delete(spec=...)`: removes the first selected row and returns it, or None. */
    method Delete(spec: Option<Spec>) returns (r: Result<Option<Row>, Error>)
      requires Valid()
      modifies this
      ensures Valid()
      ensures spec.None? ==> r == Err(NoSpecification) && rows == old(rows)
      ensures spec.Some? ==> r == Ok(FirstMatch(old(rows), spec))
      ensures spec.Some? && FirstIndex(old(rows), spec).None? ==> rows == old(rows)
      ensures spec.Some? && FirstIndex(old(rows), spec).Some? ==>
        rows == RemoveAt(old(rows), FirstIndex(old(rows), spec).value)
    {
      var obj := Get(spec);
      if obj.Err? {
        return Err(obj.error);
      }
      if obj.value.None? {
        return Ok(None);
      }
      var i := FirstIndex(rows, spec).value;
      rows := RemoveAt(rows, i);
      r := obj;
      assert forall x :: x in rows ==> x in old(rows) by {
        forall x | x in rows ensures x in old(rows) {
          var j :| 0 <= j < |rows| && rows[j] == x;
          if j < i { assert old(rows)[j] == x; } else { assert old(rows)[j + 1] == x; }
        }
      }
    }
  }
}
