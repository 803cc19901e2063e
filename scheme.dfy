/**
 * Reading an `Authorization` value (or the `access_token` cookie) as
 * "<scheme> <parameter>", the way `get_authorization_scheme_param` does, and
 * comparing the scheme without regard to case (section 2.1 of RFC 7235,
 * section 2.1 of RFC 6750).
 */
module Scheme {
  import opened Wrappers

  /** `c.lower()` for ASCII letters. */
  function LowerChar(c: char): (l: char)
    ensures 'A' <= c <= 'Z' ==> l as int == c as int + 32
    ensures !('A' <= c <= 'Z') ==> l == c
  {
    if 'A' <= c <= 'Z' then (c as int + 32) as char else c
  }

  /** `s.lower()`, character by character. */
  function Lower(s: string): (l: string)
    ensures |l| == |s|
    ensures forall k :: 0 <= k < |s| ==> l[k] == LowerChar(s[k])
  {
    seq(|s|, k requires 0 <= k < |s| => LowerChar(s[k]))
  }

  /** The scheme the token is presented under, compared as `scheme.lower() != "bearer"`. */
  predicate IsBearer(scheme: string)
  {
    Lower(scheme) == "bearer"
  }

  /** Position of the first space, as `str.partition(" ")` finds it. */
  function FirstSpace(s: string): (r: Option<nat>)
    ensures r.Some? ==> r.value < |s| && s[r.value] == ' '
    ensures r.Some? ==> forall k :: 0 <= k < r.value ==> s[k] != ' '
    ensures r.None? <==> forall k :: 0 <= k < |s| ==> s[k] != ' '
    decreases |s|
  {
    if |s| == 0 then None
    else if s[0] == ' ' then Some(0)
    else match FirstSpace(s[1..])
      case None => None
      case Some(i) => Some(i + 1)
  }

  /** `get_authorization_scheme_param(value)`: ("", "") for a missing or empty
      value, otherwise the text before the first space and the text after it
      (all of it and "" when there is no space). */
  function SchemeParam(value: Option<string>): (r: (string, string))
    ensures value.None? || value.value == "" ==> r == ("", "")
    ensures value.Some? && value.value != "" ==>
      (FirstSpace(value.value).None? ==> r == (value.value, ""))
    ensures value.Some? && value.value != "" && FirstSpace(value.value).Some? ==>
      value.value == r.0 + " " + r.1
  {
    if value.None? || value.value == "" then ("", "")
    else
      var s := value.value;
      match FirstSpace(s)
      case None => (s, "")
      case Some(i) =>
        assert s == s[..i] + " " + s[i + 1..];
        (s[..i], s[i + 1..])
  }

  /** A scheme without spaces, a space and a parameter are read back as that
      scheme and that parameter, whatever the parameter contains. */
  lemma {:induction false} SchemeParamOfJoined(scheme: string, param: string)
    requires scheme != "" && forall k :: 0 <= k < |scheme| ==> scheme[k] != ' '
    ensures SchemeParam(Some(scheme + " " + param)) == (scheme, param)
  {
    var s := scheme + " " + param;
    assert s[|scheme|] == ' ';
    var i := FirstSpace(s);
    assert i.Some? && i.value == |scheme|;
    assert s[..|scheme|] == scheme;
    assert s[|scheme| + 1..] == param;
  }

  /** Any capitalisation of "bearer" passes the scheme test, and nothing else does. */
  lemma BearerAnyCase(scheme: string)
    ensures IsBearer(scheme) <==>
      |scheme| == 6 && forall k :: 0 <= k < 6 ==> LowerChar(scheme[k]) == "bearer"[k]
  {
    if |scheme| == 6 && forall k :: 0 <= k < 6 ==> LowerChar(scheme[k]) == "bearer"[k] {
      assert Lower(scheme) == "bearer";
    }
  }

  lemma BearerSpellings()
    ensures IsBearer("Bearer") && IsBearer("bearer") && IsBearer("BEARER") && IsBearer("bEaReR")
    ensures !IsBearer("Basic") && !IsBearer("Bearer ") && !IsBearer("")
  {
    assert Lower("Bearer") == "bearer";
    assert Lower("bearer") == "bearer";
    assert Lower("BEARER") == "bearer";
    assert Lower("bEaReR") == "bearer";
    assert Lower("Basic")[1] == 'a';
  }
}
