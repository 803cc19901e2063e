/**
 * The application's exception base class and the handler that turns
 * repository and application errors into HTTP responses
 * (backend/users-service/app/lib/exceptions.py).
 */
module Exceptions {
  import opened Wrappers
  import opened Values

  /** `[str(arg) for arg in args if arg]`. */
  function StrArgs(args: seq<Value>): (r: seq<string>)
    ensures |r| <= |args|
    ensures (forall k :: 0 <= k < |args| ==> !Truthy(args[k])) <==> r == []
    decreases |args|
  {
    if |args| == 0 then []
    else if Truthy(args[0]) then [ToStr(args[0])] + StrArgs(args[1..])
    else StrArgs(args[1..])
  }

  /** Stringifying the arguments in two parts gives the two results one after the other. */
  lemma {:induction false} StrArgsConcat(a: seq<Value>, b: seq<Value>)
    ensures StrArgs(a + b) == StrArgs(a) + StrArgs(b)
    decreases |a|
  {
    if |a| == 0 {
      assert a + b == b;
    } else {
      assert (a + b)[0] == a[0];
      assert (a + b)[1..] == a[1..] + b;
      StrArgsConcat(a[1..], b);
    }
  }

  /** The characters `str.strip()` removes (the ASCII ones). */
  predicate IsSpace(c: char)
  {
    c == ' ' || 9 <= c as int <= 13 || 28 <= c as int <= 31
  }

  /** The first position at or after i that is not whitespace (`lstrip`). */
  function FirstNonSpace(s: string, i: nat): (j: nat)
    requires i <= |s|
    ensures i <= j <= |s| && (j == |s| || !IsSpace(s[j]))
    ensures forall k :: i <= k < j ==> IsSpace(s[k])
    decreases |s| - i
  {
    if i < |s| && IsSpace(s[i]) then FirstNonSpace(s, i + 1) else i
  }

  /** The end of s[i..j] once trailing whitespace is cut (`rstrip`). */
  function LastNonSpaceEnd(s: string, i: nat, j: nat): (e: nat)
    requires i <= j <= |s|
    ensures i <= e <= j && (e == i || !IsSpace(s[e - 1]))
    ensures forall k :: e <= k < j ==> IsSpace(s[k])
    decreases j - i
  {
    if i < j && IsSpace(s[j - 1]) then LastNonSpaceEnd(s, i, j - 1) else j
  }

  /** `s.strip()`: a slice of s with whitespace at neither end, all of whose
      removed characters are whitespace. */
  function Strip(s: string): (r: string)
    ensures |r| <= |s|
    ensures r == [] || (!IsSpace(r[0]) && !IsSpace(r[|r| - 1]))
    ensures var i := FirstNonSpace(s, 0);
      i + |r| <= |s| && r == s[i..i + |r|] &&
      (forall k :: 0 <= k < i ==> IsSpace(s[k])) && (forall k :: i + |r| <= k < |s| ==> IsSpace(s[k]))
  {
    var i := FirstNonSpace(s, 0);
    s[i..LastNonSpaceEnd(s, i, |s|)]
  }

  /** A string with whitespace at neither end is its own strip. */
  lemma StripTrimmed(s: string)
    requires s == [] || (!IsSpace(s[0]) && !IsSpace(s[|s| - 1]))
    ensures Strip(s) == s
  {
  }

  /** `" ".join(parts)`. */
  function JoinSpace(parts: seq<string>): (r: string)
    ensures parts == [] ==> r == ""
    ensures |parts| == 1 ==> r == parts[0]
    decreases |parts|
  {
    if |parts| == 0 then ""
    else if |parts| == 1 then parts[0]
    else parts[0] + " " + JoinSpace(parts[1..])
  }

  /** `" ".join((*self.args, self.detail)).strip()`. */
  function StrOf(args: seq<string>, detail: string): (s: string)
  {
    Strip(JoinSpace(args + [detail]))
  }

  /** With no remaining arguments the string is the stripped detail. */
  lemma StrOfDetailOnly(detail: string)
    ensures StrOf([], detail) == Strip(detail)
  {
    assert [] + [detail] == [detail];
  }

  /** `ApplicationError`: the arguments that survive as `self.args` and the
      `detail`; a subclass may declare a class-level `detail`. */
  class ApplicationError {
    const className: string
    var args: seq<string>
    var detail: string

    /** `__init__(*args, detail="")`: falsy arguments are dropped and the rest
        stringified; an explicit non-empty detail is kept verbatim; otherwise
        the first stringified argument becomes the detail and leaves the
        arguments; otherwise the class-level detail is used when there is one. */
    constructor (className: string, classDetail: Option<string>, args: seq<Value>, detail: string)
      ensures this.className == className
      ensures detail != "" ==> this.detail == detail && this.args == StrArgs(args)
      ensures detail == "" && StrArgs(args) != [] ==>
        this.detail == StrArgs(args)[0] && this.args == StrArgs(args)[1..]
      ensures detail == "" && StrArgs(args) == [] ==>
        this.args == [] && this.detail == (if classDetail.Some? then classDetail.value else "")
    {
      var strArgs := StrArgs(args);
      var d := detail;
      if d == "" {
        if strArgs != [] {
          d := strArgs[0];
          strArgs := strArgs[1..];
        } else if classDetail.Some? {
          d := classDetail.value;
        }
      }
      this.className := className;
      this.detail := d;
      this.args := strArgs;
    }

    /** `__str__`. */
    function Str(): (s: string)
      reads this
      ensures s == StrOf(args, detail)
      ensures args == [] ==> s == Strip(detail)
    {
      StrOfDetailOnly(detail);
      StrOf(args, detail)
    }

    /** `__repr__`: "ClassName - detail", or the class name alone for an empty detail. */
    function Repr(): (s: string)
      reads this
      ensures detail == "" <==> s == className
      ensures |className| <= |s| && s[..|className|] == className
      ensures detail != "" ==> s[|className|..] == " - " + detail
    {
      if detail != "" then className + " - " + detail else className
    }
  }

  /** The exception classes the handler distinguishes. */
  datatype ErrorClass =
    | RepositoryNotFoundError     // litestar NotFoundError (a RepositoryError)
    | ConflictError
    | RepositoryError
    | IntegrityError              // advanced_alchemy IntegrityError
    | ApplicationErrorClass       // anything else reaching the handler

  /** The HTTP exception classes the handler picks from, and the two classes its
      debug exclusion names. */
  datatype HttpClass =
    | NotFoundException
    | HTTPConflictException
    | InternalServerException
    | PermissionDeniedException
    | NotFoundErrorClass

  function StatusCode(h: HttpClass): int
  {
    match h
    case NotFoundException => 404
    case HTTPConflictException => 409
    case InternalServerException => 500
    case PermissionDeniedException => 403
    case NotFoundErrorClass => 404
  }

  /** The if/elif chain: NotFoundError first, then the conflict-like errors. */
  function HttpClassFor(e: ErrorClass): (h: HttpClass)
    ensures h == NotFoundException <==> e == RepositoryNotFoundError
    ensures h == HTTPConflictException <==> e in {ConflictError, RepositoryError, IntegrityError}
    ensures h == InternalServerException <==> e == ApplicationErrorClass
  {
    match e
    case RepositoryNotFoundError => NotFoundException
    case ConflictError => HTTPConflictException
    case RepositoryError => HTTPConflictException
    case IntegrityError => HTTPConflictException
    case ApplicationErrorClass => InternalServerException
  }

  /** The classes for which a debug application still sends the plain response. */
  const DebugExcluded: set<HttpClass> := {PermissionDeniedException, NotFoundErrorClass}

  datatype Response =
    | DebugResponse                               // create_debug_response(request, exc)
    | ExceptionResponse(status: int, detail: string)

  /** `exception_to_http_response(request, exc)`; `cause` is `exc.__cause__`
      as a string, None when the exception has no cause. */
  function ExceptionToHttpResponse(e: ErrorClass, debug: bool, cause: Option<string>): (r: Response)
    ensures !debug ==> r.ExceptionResponse? && r.status == StatusCode(HttpClassFor(e))
    ensures !debug && cause.None? ==> r.detail == "None"
  {
    var h := HttpClassFor(e);
    if debug && h !in DebugExcluded then DebugResponse
    else ExceptionResponse(StatusCode(h), if cause.Some? then cause.value else "None")
  }

  /** In debug mode every error gets the debug response: the chosen class is
      never one the exclusion tuple names. */
  lemma DebugAlwaysDebugResponse(e: ErrorClass, cause: Option<string>)
    ensures ExceptionToHttpResponse(e, true, cause) == DebugResponse
  {
  }

  /** Outside debug mode the status is 404, 409 or 500 and nothing else, by
      the class of the error. */
  lemma StatusClassification(e: ErrorClass, cause: Option<string>)
    ensures var r := ExceptionToHttpResponse(e, false, cause);
      (r.status == 404 <==> e == RepositoryNotFoundError) &&
      (r.status == 409 <==> e == ConflictError || e == RepositoryError || e == IntegrityError) &&
      (r.status == 500 <==> e == ApplicationErrorClass)
  {
  }
}
