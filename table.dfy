/**
 * What one SQL table does underneath the repositories: a sequence of rows in
 * the order the database returns them (no unique constraint, so duplicates are
 * possible), first-match lookup, OFFSET/LIMIT slicing, attribute assignment
 * and row construction by the ORM model's keyword constructor.
 */
module Table {
  import opened Wrappers
  import opened Values
  import opened Specification
  import opened Errors

  /** `select(model).filter(spec)`. With no specification the repositories
      pass `filter(None)`, which SQLAlchemy renders as `WHERE NULL`: no row. */
  predicate Selects(spec: Option<Spec>, row: Row)
  {
    spec.Some? && IsSatisfiedBy(spec.value, row)
  }

  /** Position of the row `session.scalar(...)` returns: the first selected one. */
  function FirstIndex(rows: seq<Row>, spec: Option<Spec>): (r: Option<nat>)
    ensures r.Some? ==> r.value < |rows| && Selects(spec, rows[r.value])
    ensures r.Some? ==> forall j :: 0 <= j < r.value ==> !Selects(spec, rows[j])
    ensures r.None? <==> forall j :: 0 <= j < |rows| ==> !Selects(spec, rows[j])
    decreases |rows|
  {
    if |rows| == 0 then None
    else if Selects(spec, rows[0]) then Some(0)
    else match FirstIndex(rows[1..], spec)
      case None => None
      case Some(i) => Some(i + 1)
  }

  /** The row `session.scalar(select(model).filter(spec))` returns, or None. */
  function FirstMatch(rows: seq<Row>, spec: Option<Spec>): (r: Option<Row>)
    ensures r.Some? <==> exists j :: 0 <= j < |rows| && Selects(spec, rows[j])
    ensures r.Some? ==> r.value in rows && Selects(spec, r.value)
    ensures spec.None? ==> r.None?
  {
    match FirstIndex(rows, spec)
    case None => None
    case Some(i) => Some(rows[i])
  }

  /** Where `OFFSET skip` starts; no offset when skip is None. */
  function Start(rows: seq<Row>, skip: Option<nat>): (s: nat)
    ensures s <= |rows|
  {
    match skip
    case None => 0
    case Some(n) => if n < |rows| then n else |rows|
  }

  /** `select(model).offset(skip).limit(limit)`. */
  function Page(rows: seq<Row>, skip: Option<nat>, limit: Option<nat>): (r: seq<Row>)
    ensures limit.Some? ==> |r| <= limit.value
    ensures Start(rows, skip) + |r| <= |rows|
    ensures forall k :: 0 <= k < |r| ==> r[k] == rows[Start(rows, skip) + k]
    ensures limit.None? || limit.value >= |rows| - Start(rows, skip) ==> |r| == |rows| - Start(rows, skip)
  {
    var rest := rows[Start(rows, skip)..];
    if limit.Some? && limit.value < |rest| then rest[..limit.value] else rest
  }

  /** PostgreSQL's refusals of a negative OFFSET and a negative LIMIT. */
  const NegativeOffset := DatabaseError("OFFSET must not be negative")
  const NegativeLimit := DatabaseError("LIMIT must not be negative")

  /** `select(model).offset(skip).limit(limit)` as PostgreSQL runs it: the
      integers are passed on unchecked, and the database refuses a negative
      OFFSET first, then a negative LIMIT. */
  function Paged(rows: seq<Row>, skip: Option<int>, limit: Option<int>): (r: Result<seq<Row>, Error>)
    ensures r.Err? <==> (skip.Some? && skip.value < 0) || (limit.Some? && limit.value < 0)
    ensures skip.Some? && skip.value < 0 ==> r == Err(NegativeOffset)
    ensures !(skip.Some? && skip.value < 0) && limit.Some? && limit.value < 0 ==> r == Err(NegativeLimit)
    ensures r.Ok? ==> r.value == Page(rows, if skip.Some? then Some(skip.value as nat) else None,
                                             if limit.Some? then Some(limit.value as nat) else None)
  {
    if skip.Some? && skip.value < 0 then Err(NegativeOffset)
    else if limit.Some? && limit.value < 0 then Err(NegativeLimit)
    else Ok(Page(rows, if skip.Some? then Some(skip.value as nat) else None,
                       if limit.Some? then Some(limit.value as nat) else None))
  }

  /** The table after `session.delete` of the row at position i. */
  function RemoveAt(rows: seq<Row>, i: nat): (r: seq<Row>)
    requires i < |rows|
    ensures |r| == |rows| - 1
    ensures forall j :: 0 <= j < i ==> r[j] == rows[j]
    ensures forall j :: i <= j < |r| ==> r[j] == rows[j + 1]
    ensures multiset(r) + multiset{rows[i]} == multiset(rows)
  {
    assert rows == rows[..i] + [rows[i]] + rows[i + 1..];
    rows[..i] + rows[i + 1..]
  }

  /** A combined specification is None, which `get` of the users service
      passes on as `filter(None)`: every conjunction, disjunction and negation
      selects no row, so the lookup finds nothing even when a row satisfies
      both parts. */
  lemma CombinedSpecsSelectNothing(rows: seq<Row>, a: Spec, b: Spec, row: Row)
    ensures !Selects(And(a, b), row) && !Selects(Or(a, b), row) && !Selects(Not(a), row)
    ensures FirstMatch(rows, And(a, b)) == FirstMatch(rows, Or(a, b)) == FirstMatch(rows, Not(a)) == None
  {
  }

  /** A row appended to a table none of whose rows is selected is the first match. */
  lemma {:induction false} FirstIndexAppended(rows: seq<Row>, row: Row, spec: Option<Spec>)
    requires FirstIndex(rows, spec).None? && Selects(spec, row)
    ensures FirstIndex(rows + [row], spec) == Some(|rows|)
  {
    var all := rows + [row];
    assert all[|rows|] == row;
    assert forall j :: 0 <= j < |rows| ==> all[j] == rows[j];
  }

  /** Appending a row does not change which row matches first when one already did. */
  lemma {:induction false} FirstIndexAppendedAfterMatch(rows: seq<Row>, row: Row, spec: Option<Spec>)
    requires FirstIndex(rows, spec).Some?
    ensures FirstIndex(rows + [row], spec) == FirstIndex(rows, spec)
  {
    var all := rows + [row];
    var i := FirstIndex(rows, spec).value;
    assert all[i] == rows[i];
    assert forall j :: 0 <= j < i ==> all[j] == rows[j];
  }

  /** Replacing the first selected row by another selected row keeps it first. */
  lemma {:induction false} FirstIndexReplaced(rows: seq<Row>, i: nat, row: Row, spec: Option<Spec>)
    requires FirstIndex(rows, spec) == Some(i) && Selects(spec, row)
    ensures FirstIndex(rows[i := row], spec) == Some(i)
  {
    var all := rows[i := row];
    assert all[i] == row;
    assert forall j :: 0 <= j < i ==> all[j] == rows[j];
  }

  /** Removing the only selected row leaves no match. */
  lemma {:induction false} FirstIndexRemovedOnly(rows: seq<Row>, i: nat, spec: Option<Spec>)
    requires i < |rows| && forall j :: 0 <= j < |rows| && j != i ==> !Selects(spec, rows[j])
    ensures FirstIndex(RemoveAt(rows, i), spec).None?
  {
    var rest := RemoveAt(rows, i);
    forall j | 0 <= j < |rest|
      ensures !Selects(spec, rest[j])
    {
      if j < i {
        assert rest[j] == rows[j];
      } else {
        assert rest[j] == rows[j + 1];
      }
    }
  }

  /** The object after `for key, value in items: if hasattr(obj, key): setattr(obj, key, value)`. */
  function Assign(row: Row, items: map<string, Value>): (r: Row)
    ensures r.Keys == row.Keys
    ensures forall k :: k in items && k in row ==> r[k] == items[k]
    ensures forall k :: k in row && k !in items ==> r[k] == row[k]
  {
    map k | k in row :: if k in items then items[k] else row[k]
  }

  /** The setattr loop of `Repository.update`, one key at a time. */
  method SetAttributes(obj: Row, items: map<string, Value>) returns (r: Row)
    ensures r == Assign(obj, items)
  {
    r := obj;
    var pending := items.Keys;
    while pending != {}
      invariant pending <= items.Keys
      invariant r.Keys == obj.Keys
      invariant forall k :: k in obj ==> r[k] == (if k in items && k !in pending then items[k] else obj[k])
      decreases pending
    {
      var key :| key in pending;
      if key in r {
        r := r[key := items[key]];
      }
      pending := pending - {key};
    }
    assert forall k :: k in r ==> r[k] == Assign(obj, items)[k];
  }

  /** Keys the row does not have are ignored: assigning them is the same as not supplying them. */
  lemma AssignIgnoresUnknownKeys(row: Row, items: map<string, Value>)
    ensures Assign(row, items) == Assign(row, map k | k in items && k in row :: items[k])
  {
  }

  /** Assigning the same items twice changes nothing the second time. */
  lemma AssignIdempotent(row: Row, items: map<string, Value>)
    ensures Assign(Assign(row, items), items) == Assign(row, items)
  {
  }

  /** The object `model(**kwargs)` builds once inserted: every column of the
      model, set from the keyword arguments, otherwise from the values the
      database generates at insert (the id, server-side timestamps and column
      defaults), otherwise NULL. */
  function NewRow(columns: set<string>, kwargs: map<string, Value>, generated: Row): (r: Row)
    ensures r.Keys == columns
    ensures forall c :: c in columns && c in kwargs ==> r[c] == kwargs[c]
    ensures forall c :: c in columns && c !in kwargs && c in generated ==> r[c] == generated[c]
    ensures forall c :: c in columns && c !in kwargs && c !in generated ==> r[c] == Null
  {
    map c | c in columns :: if c in kwargs then kwargs[c] else if c in generated then generated[c] else Null
  }

  /** `model(**kwargs)`: SQLAlchemy's declarative constructor rejects a keyword
      that is not an attribute of the model with a TypeError. */
  function Construct(columns: set<string>, kwargs: map<string, Value>, generated: Row): (r: Result<Row, Error>)
    ensures r.Ok? <==> kwargs.Keys <= columns
    ensures r.Ok? ==> r.value.Keys == columns && forall c :: c in kwargs ==> r.value[c] == kwargs[c]
    ensures r.Err? ==> r.error.TypeError?
  {
    if kwargs.Keys <= columns then Ok(NewRow(columns, kwargs, generated))
    else Err(TypeError("invalid keyword argument for the model"))
  }

  /** Every row of a table has exactly the model's attributes. */
  ghost predicate WellFormed(rows: seq<Row>, columns: set<string>)
  {
    forall r :: r in rows ==> r.Keys == columns
  }
}
