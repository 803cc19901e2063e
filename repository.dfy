/**
 * The generic SQLAlchemy repository of the users service
 * (source/backend/users-service/app/database/repositories/repository.py):
 * one table seen through the current database session. `rows` is what the
 * session sees, pending changes included; committing is the unit of work's job.
 */
module Repository {
  import opened Wrappers
  import opened Values
  import opened Specification
  import opened Errors
  import opened Table

  /** A pydantic schema: all its fields, and which of them the caller set
      explicitly (the rest hold their declared defaults). */
  datatype Schema = Schema(fields: map<string, Value>, explicitlySet: set<string>)

  /** `schema.model_dump(exclude_unset=True)` (also `.dict(exclude_unset=True)`). */
  function ExcludeUnset(schema: Schema): (d: map<string, Value>)
    ensures d.Keys == schema.fields.Keys * schema.explicitlySet
    ensures forall k :: k in d ==> d[k] == schema.fields[k]
  {
    map k | k in schema.fields && k in schema.explicitlySet :: schema.fields[k]
  }

  /** What `create` and `update` accept: a dict, a pydantic schema, or (for
      `update`) any other object, which neither isinstance test matches. */
  datatype Payload =
    | DictPayload(items: map<string, Value>)
    | SchemaPayload(schema: Schema)
    | OtherPayload

  class Repository {
    /** The attributes of the ORM model this repository is for. */
    const columns: set<string>
    var rows: seq<Row>

    ghost predicate Valid()
      reads this
    {
      WellFormed(rows, columns)
    }

    constructor (columns: set<string>, rows: seq<Row>)
      requires WellFormed(rows, columns)
      ensures this.columns == columns && this.rows == rows
      ensures Valid()
    {
      this.columns := columns;
      this.rows := rows;
    }

    /** `get(spec=None)`: the first row the specification selects; none without one. */
    method Get(spec: Option<Spec>) returns (r: Option<Row>)
      ensures r == FirstMatch(rows, spec)
      ensures spec.None? ==> r.None?
    {
      r := FirstMatch(rows, spec);
    }

    /** `get_multi(skip=0, limit=100)`; None for either drops that clause. */
    method GetMulti(skip: Option<int>, limit: Option<int>) returns (r: Result<seq<Row>, Error>)
      ensures r == Paged(rows, skip, limit)
    {
      if skip.Some? && skip.value < 0 {
        return Err(NegativeOffset);
      }
      if limit.Some? && limit.value < 0 {
        return Err(NegativeLimit);
      }
      var offset := if skip.Some? then Some(skip.value as nat) else None;
      var count := if limit.Some? then Some(limit.value as nat) else None;
      r := Ok(Page(rows, offset, count));
    }

    /** `create(create_schema=...)`: builds the model object from the dict or
        from `model_dump()` of the schema and adds it to the session. */
    method Create(payload: Payload, generated: Row) returns (r: Result<Row, Error>)
      requires Valid()
      modifies this
      ensures Valid()
      ensures payload.OtherPayload? ==> r.Err? && r.error.AttributeError?
      ensures payload.DictPayload? ==> r == Construct(columns, payload.items, generated)
      ensures payload.SchemaPayload? ==> r == Construct(columns, payload.schema.fields, generated)
      ensures r.Ok? ==> rows == old(rows) + [r.value]
      ensures r.Err? ==> rows == old(rows)
    {
      match payload {
        case DictPayload(items) =>
          r := Construct(columns, items, generated);
        case SchemaPayload(schema) =>
          r := Construct(columns, schema.fields, generated);
        case OtherPayload =>
          r := Err(AttributeError("object has no attribute 'model_dump'"));
      }
      if r.Ok? {
        rows := rows + [r.value];
      }
    }

    /** `update(spec=..., update_schema=...)`: sets, on the first selected row,
        each dict key (or each explicitly set schema field) that is an
        attribute of the row; returns None when no row is selected or when the
        argument is neither a dict nor a schema. */
    method Update(spec: Option<Spec>, payload: Payload) returns (r: Option<Row>)
      requires Valid()
      modifies this
      ensures Valid()
      ensures payload.OtherPayload? ==> r == None && rows == old(rows)
      ensures FirstIndex(old(rows), spec).None? ==> r == None && rows == old(rows)
      ensures !payload.OtherPayload? && FirstIndex(old(rows), spec).Some? ==>
        var i := FirstIndex(old(rows), spec).value;
        var items := if payload.DictPayload? then payload.items else ExcludeUnset(payload.schema);
        r == Some(Assign(old(rows)[i], items)) && rows == old(rows)[i := r.value]
    {
      if payload.OtherPayload? {
        return None;
      }
      var items := if payload.DictPayload? then payload.items else ExcludeUnset(payload.schema);
      var found := FirstIndex(rows, spec);
      if found.None? {
        return None;
      }
      var i := found.value;
      var obj := SetAttributes(rows[i], items);
      rows := rows[i := obj];
      r := Some(obj);
    }

    /** `delete(spec=...)`: removes the first selected row and returns it, or None. */
    method Delete(spec: Option<Spec>) returns (r: Option<Row>)
      requires Valid()
      modifies this
      ensures Valid()
      ensures r == FirstMatch(old(rows), spec)
      ensures FirstIndex(old(rows), spec).None? ==> rows == old(rows)
      ensures FirstIndex(old(rows), spec).Some? ==> rows == RemoveAt(old(rows), FirstIndex(old(rows), spec).value)
    {
      var found := FirstIndex(rows, spec);
      if found.None? {
        return None;
      }
      r := Some(rows[found.value]);
      rows := RemoveAt(rows, found.value);
      assert forall x :: x in rows ==> x in old(rows) by {
        forall x | x in rows ensures x in old(rows) {
          var j :| 0 <= j < |rows| && rows[j] == x;
          if j < found.value { assert old(rows)[j] == x; } else { assert old(rows)[j + 1] == x; }
        }
      }
    }
  }
}
