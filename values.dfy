/**
 * Python values as the services see them: the attribute values of an ORM row,
 * the entries of a request dict, and Python's truthiness and `str()` on them.
 */
module Values {

  /** A password hash as bcrypt stores it. The model keeps the salt and the
      secret it was made from, so that verification is exact; the one-way
      digest itself is not computed. */
  datatype Value =
    | Null
    | Int(i: int)
    | Str(s: string)
    | Bool(b: bool)
    | Hashed(salt: string, secret: string)

  /** An ORM object or a `dict[str, Any]`: attribute or key -> value. */
  type Row = map<string, Value>

  /** `obj.attr` on a row; every row of a table has all of its model's
      columns, so the Null fallback is never reached for those. */
  function Attr(row: Row, key: string): (v: Value)
    ensures key in row ==> v == row[key]
  {
    if key in row then row[key] else Null
  }

  /** Python's `bool(v)`. */
  predicate Truthy(v: Value)
  {
    match v
    case Null => false
    case Int(i) => i != 0
    case Str(s) => s != ""
    case Bool(b) => b
    case Hashed(_, _) => true
  }

  function DigitChar(d: nat): (c: char)
    requires d < 10
    ensures '0' <= c <= '9'
  {
    ['0', '1', '2', '3', '4', '5', '6', '7', '8', '9'][d]
  }

  /** Decimal digits of a natural number, as `str(n)` prints them. */
  function NatToString(n: nat): (s: string)
    ensures |s| >= 1
    ensures forall k :: 0 <= k < |s| ==> '0' <= s[k] <= '9'
    ensures n >= 10 ==> s[0] != '0'
    decreases n
  {
    if n < 10 then [DigitChar(n)] else NatToString(n / 10) + [DigitChar(n % 10)]
  }

  function IntToString(i: int): (s: string)
    ensures |s| >= 1
    ensures (s[0] == '-') <==> i < 0
  {
    if i < 0 then "-" + NatToString(-i) else NatToString(i)
  }

  /** Python's `str(v)` (a hash prints as its bcrypt prefix and salt; the
      digest part is not modelled). */
  function ToStr(v: Value): string
  {
    match v
    case Null => "None"
    case Int(i) => IntToString(i)
    case Str(s) => s
    case Bool(b) => if b then "True" else "False"
    case Hashed(salt, _) => "$2b$12$" + salt
  }

  /** Python's `repr()` of an int or str inside an f-string such as `{user_id=}`. */
  function ReprOf(v: Value): string
  {
    match v
    case Str(s) => "'" + s + "'"
    case _ => ToStr(v)
  }

  /** A Python `dict` object that a service receives from its caller and may
      change in place (`pop`, `update`, `del`). */
  class Dict {
    var items: map<string, Value>

    constructor (items: map<string, Value>)
      ensures this.items == items
    {
      this.items := items;
    }
  }
}
