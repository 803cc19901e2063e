/**
 * The table behind advanced_alchemy's `SQLAlchemyAsyncRepositoryService` as the
 * domain services of the users service use it, with `auto_commit=True`: every
 * call that the database accepts is committed at once, and one it refuses is
 * rolled back, so `rows` is always the committed table. Lookups take the first
 * match, as in `Table`. The primary key and the columns declared `unique=True`
 * refuse a second row with the same non-null value.
 */
module ServiceRepository {
  import opened Wrappers
  import opened Values
  import opened Errors
  import opened Specification
  import opened Table

  /** The row would repeat another row's non-null value in a unique column. */
  predicate Clashes(rows: seq<Row>, unique: set<string>, row: Row)
  {
    exists c, j :: c in unique && 0 <= j < |rows| && Attr(row, c) != Null && Attr(rows[j], c) == Attr(row, c)
  }

  /** As `Clashes`, for a row that replaces the one at position i. */
  predicate ClashesExcept(rows: seq<Row>, i: nat, unique: set<string>, row: Row)
  {
    exists c, j :: c in unique && 0 <= j < |rows| && j != i && Attr(row, c) != Null && Attr(rows[j], c) == Attr(row, c)
  }

  /** The table satisfies its unique constraints. */
  ghost predicate UniqueIn(rows: seq<Row>, unique: set<string>)
  {
    forall c, i, j :: c in unique && 0 <= i < |rows| && 0 <= j < |rows| && i != j && Attr(rows[i], c) != Null ==>
      Attr(rows[i], c) != Attr(rows[j], c)
  }

  /** The lookup `get`, `update` and `delete` of the service do by primary key. */
  function ById(id: Value): Option<Spec>
  {
    Some(UserID(id))
  }

  /** `create(data)`: `model_from_dict` keeps only the keys that are columns of
      the model; the database fills in the rest (`generated`: the id, the
      server-side timestamps and the column defaults); the insert is refused
      when it breaks a unique constraint. */
  function Insert(rows: seq<Row>, columns: set<string>, unique: set<string>, data: map<string, Value>, generated: Row)
    : (r: (Result<Row, Error>, seq<Row>))
    ensures r.0.Ok? <==> !Clashes(rows, unique, NewRow(columns, data, generated))
    ensures r.0.Ok? ==> r.0.value == NewRow(columns, data, generated) && r.1 == rows + [r.0.value]
    ensures r.0.Err? ==> r == (Err(IntegrityViolation), rows)
  {
    var row := NewRow(columns, data, generated);
    if Clashes(rows, unique, row) then (Err(IntegrityViolation), rows) else (Ok(row), rows + [row])
  }

  /** `update(data, item_id=...)`: the row with that primary key gets the
      supplied values of its own attributes; a missing row is `NotFoundError`,
      a unique clash `IntegrityError`, and neither changes the table. */
  function Modify(rows: seq<Row>, unique: set<string>, data: map<string, Value>, itemId: Value)
    : (r: (Result<Row, Error>, seq<Row>))
    ensures FirstIndex(rows, ById(itemId)).None? ==> r == (Err(RepositoryNotFound), rows)
    ensures r.0.Err? ==> r.1 == rows && r.0.error in {RepositoryNotFound, IntegrityViolation}
    ensures r.0.Ok? ==>
      var i := FirstIndex(rows, ById(itemId)).value;
      r.0.value == Assign(rows[i], data) && r.1 == rows[i := r.0.value]
  {
    match FirstIndex(rows, ById(itemId))
    case None => (Err(RepositoryNotFound), rows)
    case Some(i) =>
      var row := Assign(rows[i], data);
      if ClashesExcept(rows, i, unique, row) then (Err(IntegrityViolation), rows) else (Ok(row), rows[i := row])
  }

  /** `delete(item_id)`: removes and returns the row with that primary key;
      a missing row is `NotFoundError`. */
  function Remove(rows: seq<Row>, itemId: Value): (r: (Result<Row, Error>, seq<Row>))
    ensures r.0.Ok? <==> FirstIndex(rows, ById(itemId)).Some?
    ensures r.0.Err? ==> r == (Err(RepositoryNotFound), rows)
    ensures r.0.Ok? ==>
      Attr(r.0.value, "id") == itemId && |r.1| == |rows| - 1 && multiset(r.1) + multiset{r.0.value} == multiset(rows)
  {
    match FirstIndex(rows, ById(itemId))
    case None => (Err(RepositoryNotFound), rows)
    case Some(i) => (Ok(rows[i]), RemoveAt(rows, i))
  }

  /** An accepted insert keeps the unique constraints. */
  lemma {:induction false} InsertKeepsUnique(rows: seq<Row>, columns: set<string>, unique: set<string>,
                                             data: map<string, Value>, generated: Row)
    requires UniqueIn(rows, unique)
    ensures UniqueIn(Insert(rows, columns, unique, data, generated).1, unique)
  {
    var (r, rows') := Insert(rows, columns, unique, data, generated);
    if r.Ok? {
      var n := |rows|;
      forall c, i, j | c in unique && 0 <= i < |rows'| && 0 <= j < |rows'| && i != j && Attr(rows'[i], c) != Null
        ensures Attr(rows'[i], c) != Attr(rows'[j], c)
      {
        if i == n {
          assert rows'[j] == rows[j];
        } else if j == n {
          assert rows'[i] == rows[i];
        } else {
          assert rows'[i] == rows[i] && rows'[j] == rows[j];
        }
      }
    }
  }

  /** An accepted update keeps the unique constraints. */
  lemma {:induction false} ModifyKeepsUnique(rows: seq<Row>, unique: set<string>, data: map<string, Value>, itemId: Value)
    requires UniqueIn(rows, unique)
    ensures UniqueIn(Modify(rows, unique, data, itemId).1, unique)
  {
    var (r, rows') := Modify(rows, unique, data, itemId);
    if r.Ok? {
      var k := FirstIndex(rows, ById(itemId)).value;
      assert !ClashesExcept(rows, k, unique, rows'[k]);
      forall c, i, j | c in unique && 0 <= i < |rows'| && 0 <= j < |rows'| && i != j && Attr(rows'[i], c) != Null
        ensures Attr(rows'[i], c) != Attr(rows'[j], c)
      {
        if i == k {
          assert rows'[j] == rows[j];
        } else if j == k {
          assert rows'[i] == rows[i];
        } else {
          assert rows'[i] == rows[i] && rows'[j] == rows[j];
        }
      }
    }
  }

  /** A removal keeps the unique constraints. */
  lemma {:induction false} RemoveKeepsUnique(rows: seq<Row>, unique: set<string>, itemId: Value)
    requires UniqueIn(rows, unique)
    ensures UniqueIn(Remove(rows, itemId).1, unique)
  {
    var (r, rows') := Remove(rows, itemId);
    if r.Ok? {
      var k := FirstIndex(rows, ById(itemId)).value;
      forall c, i, j | c in unique && 0 <= i < |rows'| && 0 <= j < |rows'| && i != j && Attr(rows'[i], c) != Null
        ensures Attr(rows'[i], c) != Attr(rows'[j], c)
      {
        var i0 := if i < k then i else i + 1;
        var j0 := if j < k then j else j + 1;
        assert rows'[i] == rows[i0] && rows'[j] == rows[j0];
      }
    }
  }

  /** Under a unique constraint, the row holding a non-null value is the one
      every lookup by that value finds. */
  lemma {:induction false} UniqueValueFound(rows: seq<Row>, unique: set<string>, i: nat, spec: Spec)
    requires UniqueIn(rows, unique) && Attribute(spec) in unique
    requires i < |rows| && Wanted(spec) != Null && IsSatisfiedBy(spec, rows[i])
    ensures FirstIndex(rows, Some(spec)) == Some(i)
  {
    var c := Attribute(spec);
    assert Attr(rows[i], c) == Wanted(spec);
    assert FirstIndex(rows, Some(spec)).Some?;
  }

  /** The table of one model under an auto-committing service. */
  class Store {
    const columns: set<string>
    const unique: set<string>
    var rows: seq<Row>

    ghost predicate Valid()
      reads this
    {
      WellFormed(rows, columns) && UniqueIn(rows, unique)
    }

    constructor (columns: set<string>, unique: set<string>, rows: seq<Row>)
      requires WellFormed(rows, columns) && UniqueIn(rows, unique)
      ensures this.columns == columns && this.unique == unique && this.rows == rows
      ensures Valid()
    {
      this.columns := columns;
      this.unique := unique;
      this.rows := rows;
    }

    /** `get_one_or_none(attribute=value)`. */
    method GetOneOrNone(spec: Spec) returns (r: Option<Row>)
      ensures r == FirstMatch(rows, Some(spec))
    {
      var i := 0;
      while i < |rows|
        invariant 0 <= i <= |rows|
        invariant forall j :: 0 <= j < i ==> !IsSatisfiedBy(spec, rows[j])
      {
        if IsSatisfiedBy(spec, rows[i]) {
          return Some(rows[i]);
        }
        i := i + 1;
      }
      r := None;
    }

    method Create(data: map<string, Value>, generated: Row) returns (r: Result<Row, Error>)
      requires Valid()
      modifies this
      ensures Valid()
      ensures (r, rows) == Insert(old(rows), columns, unique, data, generated)
    {
      InsertKeepsUnique(rows, columns, unique, data, generated);
      var row := NewRow(columns, data, generated);
      if Clashes(rows, unique, row) {
        return Err(IntegrityViolation);
      }
      rows := rows + [row];
      r := Ok(row);
    }

    method Update(data: map<string, Value>, itemId: Value) returns (r: Result<Row, Error>)
      requires Valid()
      modifies this
      ensures Valid()
      ensures (r, rows) == Modify(old(rows), unique, data, itemId)
    {
      ModifyKeepsUnique(rows, unique, data, itemId);
      var found := FirstIndex(rows, ById(itemId));
      if found.None? {
        return Err(RepositoryNotFound);
      }
      var i := found.value;
      var row := SetAttributes(rows[i], data);
      if ClashesExcept(rows, i, unique, row) {
        return Err(IntegrityViolation);
      }
      rows := rows[i := row];
      r := Ok(row);
    }

    method Delete(itemId: Value) returns (r: Result<Row, Error>)
      requires Valid()
      modifies this
      ensures Valid()
      ensures (r, rows) == Remove(old(rows), itemId)
    {
      RemoveKeepsUnique(rows, unique, itemId);
      var found := FirstIndex(rows, ById(itemId));
      if found.None? {
        return Err(RepositoryNotFound);
      }
      var i := found.value;
      r := Ok(rows[i]);
      var rest := RemoveAt(rows, i);
      assert forall x :: x in rest ==> x in rows by {
        forall x | x in rest ensures x in rows {
          var j :| 0 <= j < |rest| && rest[j] == x;
          if j < i { assert rows[j] == x; } else { assert rows[j + 1] == x; }
        }
      }
      rows := rest;
    }
  }
}
