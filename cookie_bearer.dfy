/**
 * `OAuth2PasswordBearerWithCookie` (source/backend/app/utils/security.py):
 * an OAuth2 password-flow security scheme that reads the bearer token from the
 * `access_token` cookie instead of the Authorization header.
 */
module CookieBearer {
  import opened Wrappers
  import opened Errors
  import opened Scheme

  /** The password flow the scheme advertises: token URL and scopes. */
  datatype PasswordFlow = PasswordFlow(tokenUrl: string, scopes: map<string, string>)

  datatype OAuth2PasswordBearerWithCookie = OAuth2PasswordBearerWithCookie(
    flow: PasswordFlow,
    schemeName: Option<string>,
    autoError: bool)

  /** The 401 raised when no usable credential is present. */
  const NotAuthenticated := HttpWithHeaders(401, "Not authenticated", map["WWW-Authenticate" := "Bearer"])

  /** `__init__`: missing or empty scopes become an empty mapping. */
  function New(tokenUrl: string, schemeName: Option<string>, scopes: Option<map<string, string>>,
               autoError: bool): (s: OAuth2PasswordBearerWithCookie)
    ensures s.flow.tokenUrl == tokenUrl && s.schemeName == schemeName && s.autoError == autoError
    ensures scopes.None? || scopes.value == map[] ==> s.flow.scopes == map[]
    ensures scopes.Some? ==> s.flow.scopes == scopes.value
  {
    var given := if scopes.None? || scopes.value == map[] then map[] else scopes.value;
    OAuth2PasswordBearerWithCookie(PasswordFlow(tokenUrl, given), schemeName, autoError)
  }

  /** `__call__(request)`: the `access_token` cookie, split into scheme and
      parameter; a missing or empty cookie, or a scheme other than "bearer" in
      any capitalisation, raises the 401 (or gives None when `auto_error` is
      off); otherwise the parameter after the scheme is the credential. */
  function Call(s: OAuth2PasswordBearerWithCookie, cookies: map<string, string>): (r: Result<Option<string>, Error>)
    ensures var authorization := if "access_token" in cookies then Some(cookies["access_token"]) else None;
      var (scheme, param) := SchemeParam(authorization);
      var usable := authorization.Some? && authorization.value != "" && IsBearer(scheme);
      (usable ==> r == Ok(Some(param))) &&
      (!usable && s.autoError ==> r == Err(NotAuthenticated)) &&
      (!usable && !s.autoError ==> r == Ok(None))
  {
    var authorization := if "access_token" in cookies then Some(cookies["access_token"]) else None;
    var (scheme, param) := SchemeParam(authorization);
    if authorization.None? || authorization.value == "" || !IsBearer(scheme) then
      if s.autoError then Err(NotAuthenticated) else Ok(None)
    else Ok(Some(param))
  }

  /** A cookie "<scheme> <token>" yields exactly the token when the scheme is
      bearer in some capitalisation; no header is ever consulted. */
  lemma CookieTokenExtracted(s: OAuth2PasswordBearerWithCookie, cookies: map<string, string>, scheme: string, token: string)
    requires scheme != "" && forall k :: 0 <= k < |scheme| ==> scheme[k] != ' '
    requires "access_token" in cookies && cookies["access_token"] == scheme + " " + token
    ensures IsBearer(scheme) ==> Call(s, cookies) == Ok(Some(token))
    ensures !IsBearer(scheme) ==> Call(s, cookies) == (if s.autoError then Err(NotAuthenticated) else Ok(None))
  {
    SchemeParamOfJoined(scheme, token);
  }

  /** Without the cookie the outcome depends on `auto_error` alone. */
  lemma MissingCookie(s: OAuth2PasswordBearerWithCookie, cookies: map<string, string>)
    requires "access_token" !in cookies
    ensures s.autoError <==> Call(s, cookies).Err?
    ensures Call(s, cookies).Err? ==> Call(s, cookies).error == NotAuthenticated
    ensures !s.autoError ==> Call(s, cookies) == Ok(None)
  {
  }
}
