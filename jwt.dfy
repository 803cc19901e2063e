/**
 * Access tokens: the claims `encode_jwt_token` puts in a JSON Web Token
 * (`sub`, `iat` and `exp`, sections 4.1.2, 4.1.6 and 4.1.4 of RFC 7519), the
 * bearer gate in front of `decode_jwt_token`, and the header check of the
 * authentication middleware. RS256 signing (section 3.3 of RFC 7518) stays
 * abstract: a signed token records its claims, the key and the algorithm.
 * Times are whole seconds since the epoch.
 */
module Jwt {
  import opened Wrappers
  import opened Values
  import opened Errors
  import opened Scheme

  /** The payload dict `{"sub": subject, "iat": now, "exp": expire}`. */
  datatype Claims = Claims(sub: Value, iat: int, exp: int)

  /** `jwt.encode(payload, private_key, algorithm)`. */
  datatype AccessToken = Signed(claims: Claims, key: string, algorithm: string)

  /** The `auth` settings the services read. */
  datatype AuthSettings = AuthSettings(
    algorithm: string,
    privateKey: string,
    publicKey: string,
    accessTokenExpireMinutes: int,
    refreshTokenExpireDays: int,
    tokenType: string)

  /** `jwt.decode(token, public_key, algorithms=[...])`: signature and claim
      checks of the JWT library, which the model does not look into. */
  type Decoder = (string, string, seq<string>) -> Result<Claims, Error>

  /** RFC 7519: a token is used no earlier than it was issued and is not
      accepted on or after its expiration time. */
  predicate AcceptedAt(c: Claims, t: int)
  {
    c.iat <= t < c.exp
  }

  /** The claims built at `now`: the subject exactly as passed, issued now,
      expiring after `expires` seconds, or, when `expires` is missing or a zero
      timedelta (which is falsy), after the configured number of minutes. */
  function Payload(subject: Value, now: int, expires: Option<int>, expireMinutes: int): (c: Claims)
    ensures c.sub == subject && c.iat == now
    ensures expires.Some? && expires.value != 0 ==> c.exp - c.iat == expires.value
    ensures expires.None? || expires.value == 0 ==> c.exp - c.iat == 60 * expireMinutes
  {
    var expire := if expires.Some? && expires.value != 0 then now + expires.value else now + 60 * expireMinutes;
    Claims(subject, now, expire)
  }

  /** `encode_jwt_token(subject, private_key, algorithm, expires=...)`. */
  function EncodeJwtToken(subject: Value, key: string, algorithm: string, now: int,
                          expires: Option<int>, expireMinutes: int): (t: AccessToken)
    ensures t.claims == Payload(subject, now, expires, expireMinutes)
    ensures t.key == key && t.algorithm == algorithm
  {
    Signed(Payload(subject, now, expires, expireMinutes), key, algorithm)
  }

  /** `encode_jwt_token(subject)` with the configured private key, algorithm and lifetime. */
  function EncodeWithSettings(subject: Value, now: int, settings: AuthSettings): (t: AccessToken)
    ensures t.claims.sub == subject && t.claims.iat == now
    ensures t.claims.exp == now + 60 * settings.accessTokenExpireMinutes
    ensures t.key == settings.privateKey && t.algorithm == settings.algorithm
  {
    EncodeJwtToken(subject, settings.privateKey, settings.algorithm, now, None, settings.accessTokenExpireMinutes)
  }

  /** A freshly issued token is accepted from the moment of issue until just
      before its lifetime runs out, and from then on it is refused. */
  lemma PayloadLifetime(subject: Value, now: int, expires: Option<int>, expireMinutes: int, t: int)
    ensures var c := Payload(subject, now, expires, expireMinutes);
      var lifetime := if expires.Some? && expires.value != 0 then expires.value else 60 * expireMinutes;
      AcceptedAt(c, t) <==> now <= t < now + lifetime
  {
  }

  /** A zero timedelta is falsy, so it behaves exactly like no `expires` at all. */
  lemma ZeroExpiresIsDefault(subject: Value, now: int, expireMinutes: int)
    ensures Payload(subject, now, Some(0), expireMinutes) == Payload(subject, now, None, expireMinutes)
  {
  }

  /** `decode_jwt_token(token_header_value)`: the header is split into scheme
      and value; a scheme that is not "bearer" in some capitalisation is
      refused before anything is decoded, otherwise only the value is handed
      to the JWT library with the public key and the one configured algorithm. */
  function DecodeJwtToken(headerValue: string, publicKey: string, algorithm: string, decode: Decoder): (r: Result<Claims, Error>)
    ensures var (scheme, value) := SchemeParam(Some(headerValue));
      r == if IsBearer(scheme) then decode(value, publicKey, [algorithm]) else Err(NotAuthorized)
  {
    var (scheme, value) := SchemeParam(Some(headerValue));
    if !IsBearer(scheme) then Err(NotAuthorized) else decode(value, publicKey, [algorithm])
  }

  /** "Bearer <token>" in any capitalisation of the scheme hands exactly the
      token to the library; any other one-word scheme is refused without
      decoding. */
  lemma DecodeBearerHeader(scheme: string, token: string, publicKey: string, algorithm: string, decode: Decoder)
    requires scheme != "" && forall k :: 0 <= k < |scheme| ==> scheme[k] != ' '
    ensures IsBearer(scheme) ==>
      DecodeJwtToken(scheme + " " + token, publicKey, algorithm, decode) == decode(token, publicKey, [algorithm])
    ensures !IsBearer(scheme) ==>
      DecodeJwtToken(scheme + " " + token, publicKey, algorithm, decode) == Err(NotAuthorized)
  {
    SchemeParamOfJoined(scheme, token);
  }

  /** `JWTAuthenticationMiddleware.authenticate_request` up to the token: a
      missing or empty header is refused, anything else goes through
      `decode_jwt_token`. */
  function AuthenticateRequest(headers: map<string, string>, keyHeader: string, settings: AuthSettings, decode: Decoder): (r: Result<Claims, Error>)
    ensures keyHeader !in headers || headers[keyHeader] == "" ==> r == Err(NotAuthorized)
    ensures keyHeader in headers && headers[keyHeader] != "" ==>
      r == DecodeJwtToken(headers[keyHeader], settings.publicKey, settings.algorithm, decode)
  {
    if keyHeader !in headers || headers[keyHeader] == "" then Err(NotAuthorized)
    else DecodeJwtToken(headers[keyHeader], settings.publicKey, settings.algorithm, decode)
  }

  /** The middleware accepts a request only when it carries the header and the
      header names the bearer scheme. */
  lemma AuthenticatedRequestHasBearerHeader(headers: map<string, string>, keyHeader: string, settings: AuthSettings, decode: Decoder)
    requires AuthenticateRequest(headers, keyHeader, settings, decode).Ok?
    ensures keyHeader in headers && headers[keyHeader] != ""
    ensures IsBearer(SchemeParam(Some(headers[keyHeader])).0)
  {
  }
}
