# Users service: authentication, repositories and user services in Dafny

This project models the core of a Python users service. It covers:

- the refresh-session authentication service: login, access-token refresh and logout over refresh sessions that expire;
- the generic SQLAlchemy repository and the unit of work it runs in;
- the user services built on them, in several revisions;
- the domain services that use an auto-committing repository;
- the pure helpers around these: specifications, JWT encoding and decoding, bearer-scheme parsing, the cookie bearer scheme, password hashing, pagination, struct-to-dict and the exception-to-HTTP mapping.

A database table is a sequence of rows, and a row is a map from attribute names to values. Lookups through `session.scalar` take the first row that matches, in the order the database returns them; a lookup with no specification, which the repository passes on as `filter(None)` (`WHERE NULL`), finds nothing. Where the source changes objects in place, the model uses classes:

- the repositories, whose `rows` field the methods reassign;
- the unit of work, which holds the committed tables;
- the auto-committing store, which keeps the unique constraints as its invariant;
- the error object;
- the caller's dict, which the domain services modify.

Each such method is proved equal to a pure function of the old state. Properties of the operations are proved about those functions as lemmas. Everything else is functions and lemmas.

Some code does not do what its documentation and evident design promise. For each such operation, the model has two versions: one `AsWritten`, modelled exactly as the code is, and one corrected. Lemmas show where they differ (see "## Findings"). The rest of the model uses the corrected version.

The clock, the random bytes of a token, the database-generated ids and timestamps, the bcrypt salt, pydantic's email validator and the JWT library's decoder are all parameters.

## Where the code and its documented behaviour differ

The model follows the code throughout.

- **Email lookup.** It is exact string equality, not case-insensitive (`Specification.UserEmailExactly`).
- **Expiry boundary.** A refresh session is expired only when now is strictly after `created_at + expires_in`, so it is still live at that instant (`AuthService.ExpiryBoundary`).
- **Unknown refresh token at logout.** Logout with an unknown token raises `InvalidTokenException`; it is not a silent no-op. The corrected `AuthService.Logout` keeps this.
- **Limit/offset defaults.** The defaults are `limit=1` and `offset=20`, and the offset is a page number turned into a row offset (`Dependencies.DefaultFilter`).
- **Refresh-token rotation.** The refresh token is never rotated on refresh (`AuthService.RefreshOnlyForLiveSession`).
- **Expired sessions.** Both the deletion of an expired session and the deletion at logout are lost, or never happen, in the code as written (Findings 1 and 4).

## Model

| member | source | states |
|---|---|---|
| Specification.UserIDExactly | source/backend/app/utils/specification.py:22-27 | A row satisfies `UserIDSpecification(id)` exactly when it has an `id` attribute equal to `id`. |
| Specification.UserEmailExactly | source/backend/app/utils/specification.py:39-44 | A row satisfies `UserEmailSpecification(email)` exactly when its `email` equals the argument character for character: the lookup does no case folding. |
| Specification.IsSatisfiedBy | source/backend/app/utils/specification.py:26-44 | A row satisfies a specification only when its attribute (read as Python's `getattr`, NULL when missing) equals the wanted value; for a wanted value that is not NULL, that equality is also enough. |
| Specification.And | source/backend/app/utils/specification.py:29-30 | `and_` returns None whatever its operands, because its body is `pass`. `Table.CombinedSpecsSelectNothing` shows that a lookup with it selects nothing. |
| Specification.Or | source/backend/app/utils/specification.py:32-33 | `or_` returns None whatever its operands, because its body is `pass`. |
| Specification.Not | source/backend/app/utils/specification.py:35-36 | `not_` returns None, because its body is `pass`. |
| CookieBearer.New | source/backend/app/utils/security.py:32-42 | The scheme keeps its token URL, scheme name and `auto_error` flag; absent or empty scopes become the empty mapping, given scopes are kept. |
| CookieBearer.Call | source/backend/app/utils/security.py:44-58 | The credential is the `access_token` cookie: when present, non-empty and with a scheme word that is `bearer` in any letter case, the result is the text after the first space; otherwise a 401 "Not authenticated" with `WWW-Authenticate: Bearer` when `auto_error` is set, and no credential when it is not. |
| CookieBearer.CookieTokenExtracted | source/backend/app/utils/security.py:44-58 | For a cookie `<scheme> <token>`, the token comes back exactly when the scheme is bearer; any other scheme is refused as above. |
| CookieBearer.MissingCookie | source/backend/app/utils/security.py:47-56 | Without the cookie the call fails exactly when `auto_error` is set, and then with the 401; otherwise it returns no credential. |
| Crypt.GenerateHashedPassword | source/backend/app/utils/security.py:22-28 | The hash carries the salt it was made with and verifies against the password it was made from. |
| Crypt.VerifyPassword | source/backend/app/utils/security.py:12-19 | A hash verifies a password exactly when it was made from that password, with any salt. A missing hash (None) verifies nothing. |
| Crypt.HashPasswordValue | source/backend/app/utils/security.py:22-28 | Hashing succeeds exactly for a string password (then equal to `GenerateHashedPassword`); any other value is a TypeError. |
| Crypt.WrongPasswordRejected | source/backend/app/utils/security.py:12-19 | A password other than the hashed one does not verify. |
| Crypt.SaltedHashesDiffer | source/backend/app/utils/security.py:22-28 | Two hashes of the same password with different salts differ, and both verify against the password. |
| Dependencies.ProvideLimitOffsetFilter | backend/users-service/app/lib/dependencies.py:11-31 | The filter keeps the page size; its offset is never negative, and it is 0 exactly for page 1. |
| Dependencies.PagesAdjacent | backend/users-service/app/lib/dependencies.py:31 | Page n+1 starts exactly one page size after page n. |
| Dependencies.DefaultFilter | backend/users-service/app/lib/dependencies.py:11-31 | With the declared defaults (`limit=1`, `offset=20`) the filter is `LimitOffset(1, 19)`. |
| Dependencies.ProvideDependencies | backend/users-service/app/lib/dependencies.py:34-39 | The dependency map has exactly the `limit_offset` key, bound to the synchronous provider `provide_limit_offset_filter`. |
| Schemas.ToDict | backend/users-service/app/lib/schemas.py:8-13 | Every entry of the dict is a set field with its value, every set field appears, and the dict is no longer than the struct. |
| Schemas.ToDictKeyOrder | backend/users-service/app/lib/schemas.py:8-13 | The dict's keys are the set fields' names in declaration order. |
| Schemas.ToDictExtremes | backend/users-service/app/lib/schemas.py:8-13 | With every field set, nothing is dropped; with every field unset, the dict is empty. |
| Exceptions.StrArgs | backend/users-service/app/lib/exceptions.py:42 | Arguments are kept and stringified only when truthy: the result is empty exactly when every argument is falsy. |
| Exceptions.StrArgsConcat | backend/users-service/app/lib/exceptions.py:42 | Filtering distributes over concatenation of argument lists. |
| Exceptions.Strip | backend/users-service/app/lib/exceptions.py:57 | The result is the input with leading and trailing whitespace removed: a contiguous slice of it with no whitespace at either end and only whitespace outside. |
| Exceptions.StripTrimmed | backend/users-service/app/lib/exceptions.py:57 | Stripping a string with no whitespace at either end leaves it unchanged. |
| Exceptions.JoinSpace | backend/users-service/app/lib/exceptions.py:57 | Joining no parts gives the empty string; joining one part gives that part. |
| Exceptions.StrOfDetailOnly | backend/users-service/app/lib/exceptions.py:56-57 | With no remaining arguments, `str()` of the error is its stripped detail. |
| Exceptions.ApplicationError.constructor | backend/users-service/app/lib/exceptions.py:35-49 | Falsy arguments are dropped; an explicit detail is kept with all arguments; otherwise the first argument becomes the detail and leaves the arguments; with no arguments the class-level detail (or "") is used. |
| Exceptions.ApplicationError.Str | backend/users-service/app/lib/exceptions.py:56-57 | `str()` joins the arguments and the detail; with no arguments it is the stripped detail. |
| Exceptions.ApplicationError.Repr | backend/users-service/app/lib/exceptions.py:51-54 | `repr()` is the class name alone exactly when the detail is empty, and otherwise the class name followed by " - " and the detail. |
| Exceptions.HttpClassFor | backend/users-service/app/lib/exceptions.py:73-81 | A repository not-found error maps to `NotFoundException`; conflict, repository and integrity errors map to `HTTPConflictException`; any other application error maps to `InternalServerException`. Each holds in both directions. |
| Exceptions.ExceptionToHttpResponse | backend/users-service/app/lib/exceptions.py:60-88 | Outside debug mode the response is an exception response with the status of the mapped HTTP class; a missing cause is rendered as "None". |
| Exceptions.DebugAlwaysDebugResponse | backend/users-service/app/lib/exceptions.py:82-87 | In debug mode every error gets the debug response. |
| Exceptions.StatusClassification | backend/users-service/app/lib/exceptions.py:73-88 | Outside debug mode the status is 404, 409 or 500 exactly for the not-found, conflict and other application errors respectively. |
| Jwt.Payload | backend/users-service/app/lib/security/jwt.py:32-43 | The claims carry the subject and the issue time; a given non-zero lifetime is used as is, and a missing or zero one falls back to the configured minutes. |
| Jwt.EncodeJwtToken | backend/users-service/app/lib/security/jwt.py:24-45 | The token is signed with the given key and algorithm over the payload above. |
| Jwt.EncodeWithSettings | backend/users-service/app/lib/security/jwt.py:24-45 | With the settings' defaults, the token expires `ACCESS_TOKEN_EXPIRE_MINUTES` minutes after issue and is signed with the private key. |
| Jwt.PayloadLifetime | backend/users-service/app/lib/security/jwt.py:32-43 | Under RFC 7519's time checks, the token is accepted exactly from its issue time until (not including) issue time plus its lifetime. |
| Jwt.ZeroExpiresIsDefault | backend/users-service/app/lib/security/jwt.py:32-37 | Passing a lifetime of 0 gives the same claims as passing none. |
| Jwt.DecodeJwtToken | backend/users-service/app/lib/security/jwt.py:48-57 | The header value is handed to the JWT decoder, without its scheme word, exactly when the scheme is bearer in any case; otherwise the result is `NotAuthorizedException`. |
| Jwt.DecodeBearerHeader | backend/users-service/app/lib/security/jwt.py:54-57 | For `<scheme> <token>`, a bearer scheme decodes exactly `token`, and any other scheme is unauthorized. |
| Jwt.AuthenticateRequest | backend/users-service/app/lib/security/jwt.py:61-71 | A missing or empty authorization header is unauthorized; otherwise the header is decoded as above. |
| Jwt.AuthenticatedRequestHasBearerHeader | backend/users-service/app/lib/security/jwt.py:66-71 | An accepted request had a non-empty header whose scheme is bearer. |
| Scheme.Lower | backend/users-service/app/lib/security/jwt.py:55 | Lower-casing keeps the length and maps each ASCII capital to its small letter, leaving every other character alone. |
| Scheme.SchemeParam | backend/users-service/app/lib/security/jwt.py:54 | An empty or missing header gives ("", ""); a header without a space is all scheme; otherwise header == scheme + " " + parameter, split at the first space. |
| Scheme.SchemeParamOfJoined | backend/users-service/app/lib/security/jwt.py:54 | Splitting `scheme + " " + param` gives back the scheme and the parameter when the scheme has no space. |
| Scheme.BearerAnyCase | backend/users-service/app/lib/security/jwt.py:55 | A scheme is accepted exactly when it is six characters that lower-case to "bearer". |
| Scheme.BearerSpellings | backend/users-service/app/lib/security/jwt.py:55 | "Bearer", "bearer", "BEARER" and "bEaReR" are accepted; "Basic", "Bearer " and "" are not. |
| Base64Url.Encode | source/backend/users-service/app/services/auth.py:94 | The encoding uses only the 64 URL-safe characters and no padding. |
| Base64Url.EncodeLength | source/backend/users-service/app/services/auth.py:94 | n bytes encode to ceil(4n/3) characters. |
| Base64Url.DecodeEncode | source/backend/users-service/app/services/auth.py:94 | Decoding the encoding gives the bytes back. |
| Base64Url.EncodeInjective | source/backend/users-service/app/services/auth.py:94 | Different byte strings have different encodings. |
| AuthService.GenerateRefreshToken | source/backend/users-service/app/services/auth.py:83-94 | A refresh token is URL-safe text of ceil(4n/3) characters for n random bytes. |
| AuthService.RefreshTokenShape | source/backend/users-service/app/services/auth.py:84-94 | The default 64 bytes give an 86-character token, and distinct random bytes give distinct tokens. |
| AuthService.SessionSchema | source/backend/users-service/app/services/auth.py:102-108 | The session schema sets exactly the token, the user id and `expires_in`, which is `REFRESH_TOKEN_EXPIRE_DAYS` in seconds. |
| AuthService.SessionRow | source/backend/users-service/app/services/auth.py:100-109 | The stored session has every session column, the token, the user id, the lifetime in seconds, the creation time and the generated id. |
| AuthService.CreateSessionOutcome | source/backend/users-service/app/services/auth.py:97-113 | Creating a session appends exactly that row to the sessions and leaves the users alone. |
| AuthService.ExpiryCheck | source/backend/users-service/app/services/auth.py:137-139 | The check succeeds exactly when the session has integer `created_at` and `expires_in`; it reports expiry exactly when now is strictly after `created_at + expires_in`. |
| AuthService.DeleteToken | source/backend/users-service/app/services/auth.py:140 | Deleting by token removes the first session with that token and nothing else; an unknown token changes nothing. |
| AuthService.IssueToken | source/backend/users-service/app/services/auth.py:151-157 | The token answer carries an access token for the user's id issued now, the given refresh token and the configured token type. |
| AuthService.RefreshAsWritten | source/backend/users-service/app/services/auth.py:116-157 | As written, a refresh never changes the committed database. The deletion of an expired session is rolled back on exit. |
| AuthService.UserWithRefreshSession | source/backend/users-service/app/database/repositories/user.py:16-21 | The lookup finds the first user with that email, or nothing exactly when there is none, together with the first session whose `user_id` is that user's id. |
| AuthService.AuthenticateAsWritten | source/backend/users-service/app/services/auth.py:174 | As written, every login fails with the AttributeError of the missing `UserService.get_user_with_refresh_session`, and the committed database is unchanged. |
| AuthService.AuthenticateAfterLookup | source/backend/users-service/app/services/auth.py:174-193 | With only the lookup corrected, a login never changes the committed database. |
| AuthService.LogoutAsWritten | source/backend/users-service/app/services/auth.py:196-222 | As written, a logout never changes the committed database. |
| AuthService.Refresh | source/backend/users-service/app/services/auth.py:116-157 | Corrected refresh. An unknown token is `InvalidToken` with no change. Only a `TokenExpired` answer changes the database: it removes the first session with the token, one session fewer, users untouched. A successful refresh hands back the same refresh token with the configured token type. `RefreshAnswersAsWritten` and `RefreshRemovesExpiredSession` relate it to the code as written. |
| AuthService.Authenticate | source/backend/users-service/app/services/auth.py:160-193 | Corrected login. It succeeds exactly when a user has the email and the password verifies against that user's hash; every failure is `InvalidCredentials` with no change. The access token's subject is that user's id. The database changes only when the user had no session: then exactly one session is appended and the users are untouched. |
| AuthService.Logout | source/backend/users-service/app/services/auth.py:196-222 | Corrected logout. An unknown token is `InvalidToken` with no change. A live or expired session with the token is removed (one session fewer, users untouched), and any other failure changes nothing. `LogoutRevokesToken` shows the token is dead afterwards. |
| AuthService.CreateSession | source/backend/users-service/app/services/auth.py:96-113 | The method leaves the unit of work closed, with the committed database equal to `CreateSessionOutcome` for a token made from the given random bytes. |
| AuthService.RefreshTokenAsWritten | source/backend/users-service/app/services/auth.py:115-157 | The method's answer and committed state are `RefreshAsWritten`: the state is unchanged. |
| AuthService.RefreshToken | source/backend/users-service/app/services/auth.py:115-157 | The method's answer and committed state are the corrected `Refresh`. |
| AuthService.GetUserRefreshSession | source/backend/users-service/app/database/repositories/user.py:16-21 | The joined lookup over the open unit of work returns `UserWithRefreshSession` of the committed database. |
| AuthService.AuthenticateUserAsWritten | source/backend/users-service/app/services/auth.py:159-174 | The method's answer and committed state are `AuthenticateAsWritten`: the AttributeError, nothing stored. |
| AuthService.AuthenticateUser | source/backend/users-service/app/services/auth.py:159-193 | The method's answer and committed state are the corrected `Authenticate`. |
| AuthService.LogoutUserAsWritten | source/backend/users-service/app/services/auth.py:195-222 | The method's answer and state are `LogoutAsWritten`. |
| AuthService.LogoutUser | source/backend/users-service/app/services/auth.py:195-222 | The method's answer and committed state are the corrected `Logout`. |
| AuthService.ExpiryBoundary | source/backend/users-service/app/services/auth.py:137-139 | A session is still live at exactly `created_at + expires_in`, and is expired exactly from one second later. |
| AuthService.NewSessionLive | source/backend/users-service/app/services/auth.py:97-113 | A fresh session is expired exactly after now plus the configured number of days. |
| AuthService.RefreshOnlyForLiveSession | source/backend/users-service/app/services/auth.py:129-149 | A successful refresh leaves the database alone. It returns the same refresh token and a new access token issued now. That token is for the id of an existing user owning a live session with that token. |
| AuthService.RefreshAnswersAsWritten | source/backend/users-service/app/services/auth.py:129-157 | The corrected refresh gives the same answer as the code as written. It changes the database only when it reports `TokenExpired`. |
| AuthService.ExpiredSessionKeptAsWritten | source/backend/users-service/app/services/auth.py:137-141 | As written, an expired session stays: every later refresh or logout with its token again answers `TokenExpired`, and the database stays as it was. |
| AuthService.RefreshRemovesExpiredSession | source/backend/users-service/app/services/auth.py:137-141 | Corrected, refreshing an expired session answers `TokenExpired` and removes that one session and nothing else. When the token was unique, a later refresh answers `InvalidToken`. |
| AuthService.BadCredentialsIndistinguishable | source/backend/users-service/app/services/auth.py:176-179 | An unknown email and a wrong password both give `InvalidCredentials` and leave the database unchanged, in the corrected login and in the login with only the lookup corrected. |
| AuthService.LoginReusesSession | source/backend/users-service/app/services/auth.py:174-193 | Once the lookup is corrected, a user who already has a session gets its refresh token back and a fresh access token, and nothing is stored, in both the corrected and the as-written session handling. |
| AuthService.LoginFailsAsWritten | source/backend/users-service/app/services/auth.py:174 | As written, even a login the corrected version accepts answers the AttributeError and stores nothing. |
| AuthService.FirstLoginFailsAfterLookup | source/backend/users-service/app/services/auth.py:181-187 | With the lookup corrected and the rest as written, a correct login by a user with no session fails with the TypeError of `async with` on a coroutine and creates no session. |
| AuthService.FirstLoginCreatesSession | source/backend/users-service/app/services/auth.py:181-187 | Corrected, such a login appends exactly one session with a fresh token and the user's id, and returns that token. A second login reuses the token and stores nothing. |
| AuthService.LogoutKeepsSessionAsWritten | source/backend/users-service/app/services/auth.py:210-222 | As written, a successful logout leaves the database unchanged, and the same refresh token still refreshes. |
| AuthService.LogoutRevokesToken | source/backend/users-service/app/services/auth.py:196-222 | Corrected, logout of a live, unique token removes exactly that session. Afterwards, refresh and logout with the token both answer `InvalidToken`. |
| AuthService.ExpiredUserRecovers | source/backend/users-service/app/services/auth.py:129-193 | After a refresh finds the only session expired and deletes it, logging in again gives a token that refreshes. |
| AuthService.ExpiredOnlySessionDeleted | source/backend/users-service/app/services/auth.py:137-141 | Refreshing the only, expired session leaves no sessions. |
| AuthService.FirstLoginAfterDeletion | source/backend/users-service/app/services/auth.py:174-187 | With no sessions, a correct login stores exactly one new session for that user and returns its token. |
| AuthService.NewSessionRefreshes | source/backend/users-service/app/services/auth.py:129-157 | A session created now refreshes successfully at once. |
| Repository.ExcludeUnset | source/backend/users-service/app/database/repositories/repository.py:185 | The dump has exactly the fields the caller set explicitly, with their values. |
| Repository.Repository.constructor | source/backend/users-service/app/database/repositories/repository.py:67-69 | The repository is over the given table and model columns. |
| Repository.Repository.Get | source/backend/users-service/app/database/repositories/repository.py:73-89 | `get` returns the first row satisfying the specification, and nothing when there is no specification. |
| Repository.Repository.GetMulti | source/backend/users-service/app/database/repositories/repository.py:99-119 | `get_multi` returns `Paged` of the table for any integer `skip` and `limit`: PostgreSQL's error for a negative one, else the page. |
| Repository.Repository.Create | source/backend/users-service/app/database/repositories/repository.py:121-149 | `create` builds the object from a dict or from all of a schema's fields. Unknown keys are a TypeError and anything else an AttributeError. Only a successful create appends the new row. |
| Repository.Repository.Update | source/backend/users-service/app/database/repositories/repository.py:151-193 | `update` assigns a dict, or a schema's explicitly set fields, to the first matching row, and returns it. With no match, or a payload that is neither, it returns None and changes nothing. |
| Repository.Repository.Delete | source/backend/users-service/app/database/repositories/repository.py:195-215 | `delete` returns the first matching row and removes exactly it; with no match nothing changes. |
| Table.FirstIndex | source/backend/users-service/app/database/repositories/repository.py:85-89 | The index found is that of the first selected row, and there is none exactly when no row is selected. |
| Table.FirstMatch | source/backend/users-service/app/database/repositories/repository.py:85-89 | A row is found exactly when one is selected, and it is a selected row of the table; with no specification none is found. |
| Table.Page | source/backend/users-service/app/database/repositories/repository.py:115-119 | The page is the run of consecutive rows starting at the offset, at most `limit` long, and all remaining rows when the limit allows. |
| Table.Paged | source/backend/users-service/app/database/repositories/repository.py:115-119 | A negative offset is refused with PostgreSQL's OFFSET error, else a negative limit with its LIMIT error; otherwise the answer is the `Page`. |
| Table.RemoveAt | source/backend/users-service/app/database/repositories/repository.py:210 | Removing keeps every other row in order, and the removed row plus the result is the same multiset as before. |
| Table.CombinedSpecsSelectNothing | source/backend/users-service/app/database/repositories/repository.py:85-89 | A combined specification (and, or, not) is None and selects no row, so every lookup with one finds nothing. |
| Table.FirstIndexAppended | source/backend/users-service/app/database/repositories/repository.py:136-141 | A row appended to a table without a match is the first match. |
| Table.FirstIndexAppendedAfterMatch | source/backend/users-service/app/database/repositories/repository.py:136-141 | Appending does not change an existing first match. |
| Table.FirstIndexReplaced | source/backend/users-service/app/database/repositories/repository.py:174-176 | Replacing the first match with a row that still matches keeps it the first match. |
| Table.FirstIndexRemovedOnly | source/backend/users-service/app/database/repositories/repository.py:206-212 | Removing the only match leaves none. |
| Table.Assign | source/backend/users-service/app/database/repositories/repository.py:174-176 | Assignment keeps the row's attributes, writes each supplied value for an existing attribute, and leaves the rest. |
| Table.SetAttributes | source/backend/users-service/app/database/repositories/repository.py:174-176 | The `setattr` loop computes `Assign`. |
| Table.AssignIgnoresUnknownKeys | source/backend/users-service/app/database/repositories/repository.py:174-176 | Keys the row does not have make no difference. |
| Table.AssignIdempotent | source/backend/users-service/app/database/repositories/repository.py:174-176 | Assigning the same values twice is the same as assigning them once. |
| Table.NewRow | source/backend/users-service/app/database/repositories/repository.py:138 | The new object has exactly the model's columns: the supplied values, then the database-generated ones, then NULL. |
| Table.Construct | source/backend/users-service/app/database/repositories/repository.py:138 | Construction succeeds exactly when every keyword is a column, then keeps every supplied value; otherwise it is a TypeError. |
| AppRepository.Repository.constructor | source/backend/app/repositories/repository.py:38-41 | The repository is over the given table and model columns. |
| AppRepository.Repository.Get | source/backend/app/repositories/repository.py:43-57 | Without a specification `get` fails with AttributeError; with one it returns the first match. |
| AppRepository.Repository.GetMulti | source/backend/app/repositories/repository.py:67-89 | `get_multi` returns `Paged` of the table: an error for a negative offset or limit, else the page. |
| AppRepository.Repository.Create | source/backend/app/repositories/repository.py:91-116 | As in the later repository: dict or schema construction, TypeError or AttributeError otherwise, and a row appended only on success. |
| AppRepository.Repository.Update | source/backend/app/repositories/repository.py:118-157 | The same assignment, except that without a specification it fails with AttributeError and changes nothing. |
| AppRepository.Repository.Delete | source/backend/app/repositories/repository.py:159-177 | Removes and returns the first match; without a specification it fails with AttributeError and changes nothing. |
| Uow.UnitOfWork.constructor | source/backend/users-service/app/database/uow.py:26-27 | The unit of work starts closed over the given committed database, with fresh repositories. |
| Uow.UnitOfWork.Enter | source/backend/users-service/app/database/uow.py:29-35 | Entering shows the repositories the committed tables and commits nothing. |
| Uow.UnitOfWork.Commit | source/backend/users-service/app/database/uow.py:44-45 | Committing makes the repositories' tables the committed database. |
| Uow.UnitOfWork.Exit | source/backend/users-service/app/database/uow.py:37-39 | Leaving always rolls back: the repositories show the committed tables again and the committed database is unchanged. |
| Uow.AppUnitOfWork.constructor | source/backend/app/utils/unitofwork.py:31-32 | The earlier unit of work starts closed over the given users. |
| Uow.AppUnitOfWork.Enter | source/backend/app/utils/unitofwork.py:34-40 | Entering shows the committed users. |
| Uow.AppUnitOfWork.Commit | source/backend/app/utils/unitofwork.py:49-50 | Committing makes the repository's table the committed users. |
| Uow.AppUnitOfWork.Exit | source/backend/app/utils/unitofwork.py:42-44 | Leaving always rolls back to the committed users. |
| UserService.CreateDump | source/backend/users-service/app/services/user.py:111 | The dump has the email and the three flags, all of them user columns, and never the password. |
| UserService.PasswordUpdateItems | source/backend/users-service/app/services/user.py:142-148 | The password is replaced by its hash; every other item is an explicitly set field with its value. |
| UserService.GetById | source/backend/users-service/app/services/user.py:22-42 | The user found has that id, and `UserNotFound` is returned exactly when no user has it. |
| UserService.GetAll | source/backend/users-service/app/services/user.py:45-64 | A negative `skip` or `limit` is refused by the database; otherwise at most `limit` consecutive users from position `skip`, and exactly `limit` when there are enough. |
| UserService.GetByEmail | source/backend/users-service/app/services/user.py:66-89 | The user found has that exact email, and nothing is found exactly when no user has it. |
| UserService.CreatedUser | source/backend/users-service/app/services/user.py:110-121 | The new user has every user column, the email and the id, and its hash verifies against the password. |
| UserService.Create | source/backend/users-service/app/services/user.py:92-123 | A create fails, with `UserAlreadyExists` and no change, exactly when a user already has the email; otherwise it answers and appends exactly `CreatedUser` (hashed password, new id, creation time). |
| UserService.UpdatedAt | source/backend/users-service/app/services/user.py:150-157 | The update answers with the row after assignment and stores it in place. |
| UserService.UpdateAsWritten | source/backend/users-service/app/services/user.py:126-166 | As written, an update fails with `UserNotFound` and no change exactly when no user has the id. Otherwise the user keeps its id and columns, the table keeps its size and sessions, and the stored hash is unchanged even when a new password was given. |
| UserService.Update | source/backend/users-service/app/services/user.py:126-166 | Corrected update. It has the same failure, id, column and size guarantees, and when a new password is given the stored hash verifies it. |
| UserService.Delete | source/backend/users-service/app/services/user.py:184-204 | `UserNotFound` exactly when no user has the id; the commit's `IntegrityError` exactly when the user exists and a refresh session has that `user_id` (the ORM delete would null that NOT NULL column); both leave the store unchanged. Otherwise exactly one user with that id is removed and no session belonged to it. |
| UserService.GetUserById | source/backend/users-service/app/services/user.py:22-42 | The method answers `GetById` of the committed database. |
| UserService.GetAllUsers | source/backend/users-service/app/services/user.py:45-64 | The method answers `GetAll` of the committed database, for any integer `skip` and `limit`. |
| UserService.GetUserByEmail | source/backend/users-service/app/services/user.py:66-89 | The method answers `GetByEmail` of the committed database. |
| UserService.CreateUser | source/backend/users-service/app/services/user.py:92-123 | The method's answer and committed state are `Create`. |
| UserService.UpdateUserAsWritten | source/backend/users-service/app/services/user.py:126-166 | The method's answer and committed state are the update as written, which passes the schema itself to the repository. |
| UserService.UpdateUser | source/backend/users-service/app/services/user.py:126-166 | The method's answer and committed state are the corrected update, which passes the prepared items. |
| UserService.DeleteUser | source/backend/users-service/app/services/user.py:184-204 | The method's answer and committed state are `Delete`, including the refused commit when the user still owns a refresh session. |
| UserService.CreateKeepsEmailsUnique | source/backend/users-service/app/services/user.py:108-123 | Creating a user keeps emails unique. |
| UserService.CreatedUserFound | source/backend/users-service/app/services/user.py:108-123 | After a create, a lookup by that email finds the new user, the password verifies, and a second create with the same email fails and changes nothing. |
| UserService.PagesConcatenate | source/backend/users-service/app/services/user.py:45-64 | Two adjacent pages together are the page covering both. |
| UserService.UpdatedUserFound | source/backend/users-service/app/services/user.py:150-166 | After an update that does not touch the id, a lookup by id returns the updated row, and no other row changes. |
| UserService.PasswordIgnoredAsWritten | source/backend/users-service/app/services/user.py:142-157 | As written, an update that sets a password succeeds but keeps the old hash. |
| UserService.UpdateSetsPassword | source/backend/users-service/app/services/user.py:142-157 | Corrected, the stored hash verifies against the new password, a lookup returns the updated row, and no other row changes. |
| UserService.UpdateWithoutPasswordAsWritten | source/backend/users-service/app/services/user.py:159-166 | Without a password change the corrected update is the update as written. |
| UserService.DeleteRemovesUser | source/backend/users-service/app/services/user.py:195-204 | With unique ids, deleting a user who owns a refresh session answers `IntegrityError` and changes nothing; otherwise after the delete the user is not found, a second delete fails and changes nothing, and ids stay unique. |
| AppUserService.CreatedUser | source/backend/app/services/user.py:67-74 | The earlier service's user row has its own columns and carries the referral code. |
| AppUserService.Create | source/backend/app/services/user.py:57-80 | A create fails, with `UserAlreadyExists` and no change, exactly when a user already has the email. Otherwise it appends exactly `CreatedUser`, which carries the given referral code. |
| AppUserService.CreateAddsReferralCode | source/backend/app/services/user.py:64-80 | The earlier create succeeds exactly when the later one does, fails the same way, and otherwise stores the later service's row plus the referral code. |
| AppUserService.CreatedUserExtends | source/backend/app/services/user.py:67-71 | The earlier service's new row is the later one's with `referral_code` added. |
| AppUserService.GetUserById | source/backend/app/services/user.py:17-29 | The lookup by id is the later service's over the committed users. |
| AppUserService.GetAllUsers | source/backend/app/services/user.py:32-40 | The answer is the later service's `GetAll` over the committed users, for any integer `skip` and `limit`. |
| AppUserService.GetUserByEmail | source/backend/app/services/user.py:43-55 | The lookup by email is the later service's over the committed users. |
| AppUserService.CreateUser | source/backend/app/services/user.py:58-80 | The method's answer and committed users are the earlier service's `Create`. |
| AppUserService.UpdateUserAsWritten | source/backend/app/services/user.py:83-112 | The method's answer and committed users are the later service's update as written (the same password defect). |
| AppUserService.UpdateUser | source/backend/app/services/user.py:83-112 | The method's answer and committed users are the corrected update. |
| AppUserService.DeleteUser | source/backend/app/services/user.py:120-130 | The method's answer and committed users are the later service's `Delete`. |
| AppAuth.AuthenticateAsWritten | source/backend/app/services/auth.py:68-79 | As written, login succeeds exactly when a user with that email exists and the password verifies, and then returns that user. |
| AppAuth.Authenticate | source/backend/app/services/auth.py:68-79 | Corrected login. It succeeds exactly when a user has the email and the password verifies against that user's hash, and then answers that user; every failure is `InvalidCredentials`. |
| AppAuth.AuthenticateUserAsWritten | source/backend/app/services/auth.py:68-79 | The method answers `AuthenticateAsWritten` of the committed users. |
| AppAuth.AuthenticateUser | source/backend/app/services/auth.py:68-79 | The method answers the corrected `Authenticate` of the committed users. |
| AppAuth.FailuresDistinguishableAsWritten | source/backend/app/services/auth.py:71-77 | As written, an unknown email fails with AttributeError and a wrong password fails with RuntimeError. These two failures differ. |
| AppAuth.AuthenticateAgreesOnSuccess | source/backend/app/services/auth.py:71-79 | Corrected, every failure is `InvalidCredentials`, and it succeeds exactly when the code as written does, with the same user. |
| AppAuth.CreatedUserAuthenticates | source/backend/app/services/auth.py:71-79 | A user just created through the earlier user service can log in with their password. |
| CrudUser.GetByEmail | source/backend/app/app/crud/crud_user.py:14-20 | The user found has that exact email, and nothing is found exactly when no user has it. |
| CrudUser.Authenticate | source/backend/app/app/crud/crud_user.py:39-52 | Login succeeds exactly when a user with that email exists and the password verifies, and then returns that user. |
| CrudUser.CreateKwargs | source/backend/app/app/crud/crud_user.py:25-33 | The keyword arguments hold the email, the flags including `is_activated`, and a hash that verifies against the password. |
| CrudUser.Create | source/backend/app/app/crud/crud_user.py:22-37 | The create answers the construction of the object and appends exactly it only on success. |
| CrudUser.GetUserByEmail | source/backend/app/app/crud/crud_user.py:14-20 | The method answers `GetByEmail` of the table. |
| CrudUser.CreateUser | source/backend/app/app/crud/crud_user.py:22-37 | The method's answer and new table are `Create` with those keyword arguments. |
| CrudUser.AuthenticateUser | source/backend/app/app/crud/crud_user.py:39-52 | The method answers `Authenticate` of the table. |
| CrudUser.CreatedUserAuthenticates | source/backend/app/app/crud/crud_user.py:22-52 | A newly created user with an unused email logs in with their password and not with another. |
| CrudUser.DuplicateEmailShadowed | source/backend/app/app/crud/crud_user.py:22-52 | Creating a second user with a taken email succeeds, but the new user can never log in: login still finds the earlier user. |
| CrudUserEarly.CreateKwargs | source/backend/app/crud/crud_user.py:31-39 | Given the string the missing generator was meant to produce, the keyword arguments hold the email, that `sub_string` and a verifying hash, but not `is_activated`. |
| CrudUserEarly.CreateUserAsWritten | source/backend/app/crud/crud_user.py:26-29 | As written, every create fails with the AttributeError of the missing `security.generate_sub_hash_string`, and nothing is stored. |
| CrudUserEarly.CreateUser | source/backend/app/crud/crud_user.py:26-43 | Corrected, the method's answer and new table are `CrudUser.Create` with those keyword arguments. |
| CrudUserEarly.CreateRefusedByImportedModel | source/backend/app/crud/crud_user.py:31-39 | Even corrected, against the imported `User` model, which has no `sub_string` column, the create is a TypeError and changes nothing. |
| CrudUserEarly.ActivationNotCopied | source/backend/app/crud/crud_user.py:31-39 | Corrected and on a model with those columns, the create succeeds with `is_activated` left NULL, the given `sub_string` and a verifying hash. |
| CrudUserEarly.CreatedUserAuthenticates | source/backend/app/crud/crud_user.py:31-43 | Corrected, a user created under a fresh email logs in with the password given at creation and with no other. |
| DomainServices.AsDict | backend/users-service/app/domain/services.py:83-88 | Every input but an unsupported object gives a dict. |
| DomainServices.AsUpdateDict | backend/users-service/app/domain/services.py:110-115 | Every input but an unsupported object gives an update dict. |
| DomainServices.Internal | backend/users-service/app/domain/services.py:105-106 | An unexpected exception becomes a 500 `HTTPException`. |
| DomainServices.EmailError | backend/users-service/app/domain/services.py:99-106 | A refused email, raised by pydantic as a ValueError, passes the `EmailNotValidError` handler and becomes a 500 with the validator's message. |
| DomainServices.UserGet | backend/users-service/app/domain/services.py:64-68 | The user found has that id, and `NotFoundException` is returned exactly when no user has it. |
| DomainServices.Prepared | backend/users-service/app/domain/services.py:90-95 | The prepared dict drops the password, holds the hash and the normalised email, and keeps every other key. |
| DomainServices.UserCreate | backend/users-service/app/domain/services.py:81-106 | A failed create changes nothing, and a successful one appends exactly the new user. |
| DomainServices.AlreadyExists | backend/users-service/app/domain/services.py:101-104 | The `IntegrityError` handler's message names the input's email for a dataclass or a model. For a dict it is an AttributeError instead, because a dict has no `email` attribute. |
| DomainServices.PasswordStep | backend/users-service/app/domain/services.py:117-121 | An update without a truthy password is untouched; with one, the password key is removed. |
| DomainServices.EmailStep | backend/users-service/app/domain/services.py:122-124 | An update without a truthy email is untouched. |
| DomainServices.UserUpdate | backend/users-service/app/domain/services.py:108-133 | A failed update changes nothing. |
| DomainServices.UpdateSteps | backend/users-service/app/domain/services.py:117-133 | A failed update changes nothing, and the prepared dict is reported. |
| DomainServices.TokenCreate | backend/users-service/app/domain/services.py:173-186 | A created session stores exactly the new row, built from the URL-safe token and the user id, and returns the token; otherwise an integrity error with no change. |
| DomainServices.TokenRefresh | backend/users-service/app/domain/services.py:191-209 | An unknown token is `InvalidRefreshToken` with no change, and a successful refresh changes nothing. An expired session's deletion is the one intended; as written the `delete(id_attribute=...)` call fails (see Left out). |
| DomainServices.CreateReplacesPassword | backend/users-service/app/domain/services.py:90-97 | A successful create stores a row with every user column, the normalised email, a hash verifying against the given password, and every other supplied column. The caller's dict loses its password. |
| DomainServices.PreparedRow | backend/users-service/app/domain/services.py:92-97 | The row built from the prepared dict has the hash, the normalised email and every other supplied column. |
| DomainServices.CreateRejectsInvalidEmail | backend/users-service/app/domain/services.py:90-106 | As written, an email the validator rejects gives a 500 with its message, not `EmailValidationException`, and no change. |
| DomainServices.UserCreateIntended | backend/users-service/app/domain/services.py:81-106 | The intended create changes nothing when it fails and appends exactly the new user when it succeeds. |
| DomainServices.CreateReportsInvalidEmailIntended | backend/users-service/app/domain/services.py:90-100 | As intended, a rejected email gives `EmailValidationException` with its message and no change, unlike the code as written; every other input is handled as written. |
| DomainServices.CreateRejectsTakenEmail | backend/users-service/app/domain/services.py:97-104 | A normalised email that is already stored gives the integrity exception naming the email, and no change. |
| DomainServices.CreateKeepsUnique | backend/users-service/app/domain/services.py:81-104 | Creating a user keeps the unique columns unique. |
| DomainServices.CreatedUserAuthenticates | backend/users-service/app/domain/services.py:81-148 | A created user logs in with their password and not with another. |
| DomainServices.StoredUserAuthenticates | backend/users-service/app/domain/services.py:143-148 | Under unique emails, a stored user logs in exactly with a password matching their hash. |
| DomainServices.LoginFailuresAlike | backend/users-service/app/domain/services.py:143-146 | Every login failure is the same `NotFoundException`. Login succeeds exactly for the first user with that email whose hash verifies. |
| DomainServices.UserAuthenticate | backend/users-service/app/domain/services.py:135-148 | Login lets in only the first user whose email is the `username`, and only when the given string `password` verifies against that user's hash. Input of any other kind is the UnboundLocalError, and the only 404 is `Invalid user email or password`. |
| DomainServices.UpdateWritesSuppliedFields | backend/users-service/app/domain/services.py:108-126 | A successful update replaces the user in place. It hashes a truthy password and normalises a truthy email. It writes every other supplied attribute and keeps the rest, including the old hash when no password is given. |
| DomainServices.UpdateStepsWrite | backend/users-service/app/domain/services.py:117-126 | A successful update assigns the prepared dict to the user found by id, and keeps the unique columns unique. |
| DomainServices.UpdateDictPrepared | backend/users-service/app/domain/services.py:117-124 | The prepared update dict keeps every other supplied key and adds no other key, hashes a truthy password and normalises a truthy email. |
| DomainServices.UpdateMissingUser | backend/users-service/app/domain/services.py:126-131 | Updating a missing id fails and changes nothing, and after the preparation succeeds it fails with `NotFoundException`. |
| DomainServices.UpdatedPasswordAuthenticates | backend/users-service/app/domain/services.py:108-148 | After an update that sets a password, the user logs in with it. |
| DomainServices.ExpiredSessionDeleted | backend/users-service/app/domain/services.py:199-205 | Refreshing with an expired session's token answers `RefreshTokenExpiredException` and removes exactly that session: the deletion as intended, since as written the `delete(id_attribute=...)` call fails (see Left out). |
| DomainServices.ExpiredTokenForgotten | backend/users-service/app/domain/services.py:194-205 | After that, the token is unknown: a later refresh answers `InvalidRefreshToken`. This follows the intended deletion, since as written the `delete(id_attribute=...)` call fails (see Left out). |
| DomainServices.CreatedTokenRefreshes | backend/users-service/app/domain/services.py:173-209 | Within its lifetime, a newly created token refreshes: the answer is a new access token for the decoded subject, or the decoder's error, and nothing changes. |
| DomainServices.UserService.constructor | backend/users-service/app/domain/services.py:41-62 | The service's auto-committing repository holds the given users. |
| DomainServices.UserService.Get | backend/users-service/app/domain/services.py:64-68 | The method answers `UserGet` of the stored users. |
| DomainServices.UserService.GetUserWithRefreshToken | backend/users-service/app/domain/services.py:70-73 | The method answers the first user with that email. |
| DomainServices.UserService.Create | backend/users-service/app/domain/services.py:81-106 | The method's answer and stored users are `UserCreate`, and a caller's dict is left as the prepared dict. |
| DomainServices.UserService.Update | backend/users-service/app/domain/services.py:108-133 | The method's answer and stored users are `UserUpdate`, and a caller's dict is left as the prepared dict. |
| DomainServices.UserService.UpdateOn | backend/users-service/app/domain/services.py:117-133 | The method's answer and stored users are `UpdateSteps` on the dict, which it leaves prepared. |
| DomainServices.UserService.Authenticate | backend/users-service/app/domain/services.py:135-148 | The method answers the login of the stored users. |
| DomainServices.RefreshTokenService.constructor | backend/users-service/app/domain/services.py:154-167 | The service's auto-committing repository holds the given sessions. |
| DomainServices.RefreshTokenService.Create | backend/users-service/app/domain/services.py:173-186 | The method's answer and stored sessions are `TokenCreate`. |
| DomainServices.RefreshTokenService.Delete | backend/users-service/app/domain/services.py:188-189 | The method's answer and stored sessions are the repository's removal by id. |
| DomainServices.RefreshTokenService.RefreshAccessToken | backend/users-service/app/domain/services.py:191-209 | The method's answer and stored sessions are `TokenRefresh`. |
| ServiceRepository.Insert | backend/users-service/app/domain/services.py:97 | An insert is accepted exactly when the new row clashes with no unique value, and then appends exactly it; otherwise it is an integrity error with no change. |
| ServiceRepository.Modify | backend/users-service/app/domain/services.py:126 | A missing id is not found. A refused update changes nothing. An accepted one assigns the data to the row with that id, in place. |
| ServiceRepository.Remove | backend/users-service/app/domain/services.py:189 | A removal succeeds exactly when the id exists; it returns that row and removes exactly it. |
| ServiceRepository.InsertKeepsUnique | backend/users-service/app/domain/services.py:97 | Inserting keeps the unique columns unique. |
| ServiceRepository.ModifyKeepsUnique | backend/users-service/app/domain/services.py:126 | Updating keeps the unique columns unique. |
| ServiceRepository.RemoveKeepsUnique | backend/users-service/app/domain/services.py:189 | Removing keeps the unique columns unique. |
| ServiceRepository.UniqueValueFound | backend/users-service/app/domain/services.py:65 | Under a unique constraint, the row holding a non-null value is the one a lookup by that value finds. |
| ServiceRepository.Store.constructor | backend/users-service/app/domain/services.py:41-62 | The store starts with the given table, satisfying its constraints. |
| ServiceRepository.Store.GetOneOrNone | backend/users-service/app/domain/services.py:65 | The method answers the first row satisfying the specification. |
| ServiceRepository.Store.Create | backend/users-service/app/domain/services.py:97 | The method's answer and new table are `Insert`, and the constraints still hold. |
| ServiceRepository.Store.Update | backend/users-service/app/domain/services.py:126 | The method's answer and new table are `Modify`, and the constraints still hold. |
| ServiceRepository.Store.Delete | backend/users-service/app/domain/services.py:189 | The method's answer and new table are `Remove`, and the constraints still hold. |
| DomainUserServices.WithoutDefaults | backend/users-service/app/domain/users/services.py:179-180 | The dict holds exactly the fields whose value differs from the declared default, with their values. |
| DomainUserServices.Validated | backend/users-service/app/domain/users/services.py:81-91 | Validation succeeds exactly when the validator accepts, with its normalised address; otherwise it is pydantic's ValueError with the validator's message. |
| DomainUserServices.Inserted | backend/users-service/app/domain/users/services.py:89-95 | An insert appends exactly the new user, or fails with the integrity exception naming the email and changes nothing. |
| DomainUserServices.CreateSteps | backend/users-service/app/domain/users/services.py:96-110 | A failed create changes nothing. |
| DomainUserServices.UserCreate | backend/users-service/app/domain/users/services.py:77-141 | An unsupported input gives None with no change; a model whose email is an `EmailStr` instance fails; a failed create changes nothing. |
| DomainUserServices.EmailStep | backend/users-service/app/domain/users/services.py:153-155 | An update without a truthy email is untouched; otherwise only `email` can change. |
| DomainUserServices.Written | backend/users-service/app/domain/users/services.py:156-160 | A failed write changes nothing, and a missing id is `NotFoundException`. |
| DomainUserServices.UserUpdate | backend/users-service/app/domain/users/services.py:143-223 | An unsupported input gives None with no change. A failure changes nothing. A plain model without a non-default password fails with KeyError. A non-dict input naming a missing user fails. |
| DomainUserServices.UpdateSteps | backend/users-service/app/domain/users/services.py:194-209 | A failed update changes nothing. |
| DomainUserServices.CreateAgreesWithEarlierService | backend/users-service/app/domain/users/services.py:77-141 | Apart from the `EmailStr` case, the create agrees with the earlier domain service in success, stored rows and prepared dict. |
| DomainUserServices.CreatedUserAuthenticates | backend/users-service/app/domain/users/services.py:77-141 | A created user is stored, with the normalised email, and logs in with their password and not with another. |
| DomainUserServices.CreateReportsEmailFailure | backend/users-service/app/domain/users/services.py:96-106 | A rejected email reaches the caller as pydantic's ValueError, not `EmailValidationException`, and nothing changes. |
| DomainUserServices.CreateRejectsTakenEmail | backend/users-service/app/domain/users/services.py:104-110 | A taken normalised email gives the integrity exception naming it, and no change. |
| DomainUserServices.UpdateAgreesWithEarlierService | backend/users-service/app/domain/users/services.py:144-209 | A successful update agrees with the earlier service on the same fields, and every update the earlier service accepts succeeds when password and email are both present. |
| DomainUserServices.StepsAgree | backend/users-service/app/domain/users/services.py:161-171 | The update steps agree with the earlier service's, and are as permissive when they are not strict. |
| DomainUserServices.EmailStepsAgree | backend/users-service/app/domain/users/services.py:168-170 | The email step succeeds exactly when the earlier service's does, with the same result. |
| DomainUserServices.UpdatedPasswordAuthenticates | backend/users-service/app/domain/users/services.py:161-167 | After an update that sets a password, the user logs in with it. |
| DomainUserServices.UpdateSkipsDefaultValues | backend/users-service/app/domain/users/services.py:177-189 | A model field left at its declared default does not overwrite the stored value. |
| DomainUserServices.DictUpdateKeepsPassword | backend/users-service/app/domain/users/services.py:210-219 | A dict update leaves the plain password in the caller's dict beside its hash. It writes the user named by the dict's own `id`, whatever id is passed. |
| DomainUserServices.UserService.constructor | backend/users-service/app/domain/users/services.py:44-65 | The service's auto-committing repository holds the given users. |
| DomainUserServices.UserService.Get | backend/users-service/app/domain/users/services.py:67-71 | The method answers `UserGet` of the stored users. |
| DomainUserServices.UserService.GetUsers | backend/users-service/app/domain/users/services.py:73-75 | The method answers every stored user and their count. |
| DomainUserServices.UserService.Insert | backend/users-service/app/domain/users/services.py:89-95 | The method's answer and stored users are `Inserted`. |
| DomainUserServices.UserService.Create | backend/users-service/app/domain/users/services.py:77-141 | The method's answer and stored users are `UserCreate`, and a caller's dict is left prepared. |
| DomainUserServices.UserService.Write | backend/users-service/app/domain/users/services.py:156-160 | The method's answer and stored users are `Written`. |
| DomainUserServices.UserService.Update | backend/users-service/app/domain/users/services.py:143-223 | The method's answer and stored users are `UserUpdate`, and a caller's dict is left prepared. |
| DomainUserServices.UserService.UpdateFrom | backend/users-service/app/domain/users/services.py:161-209 | The method's answer and stored users are `UpdateSteps`. |

## Left out

- I/O and external libraries are parameters or abstract values. The clock is a parameter (`now`, in whole seconds). So are the bytes `secrets.token_urlsafe` draws, the ids and timestamps the database generates, the bcrypt salt, the verdict of pydantic's `validate_email` (the normalised address, or the message of the `ValueError` it raises) and `jwt.decode`'s verdict. A bcrypt hash is modelled as the pair (salt, password), so verification is exact; the one-way digest is not computed. A signed JWT is its claims plus the key and algorithm.
- The HTTP controllers, routers, message brokers, settings loading, logging and application start-up are not part of this model. Only the service and repository code they call is modelled.
- Concurrency is not modelled: each `async` call runs to completion in one step. So the race between "look up the session" and "create the session" at login is not modelled.
- SQLAlchemy and advanced_alchemy internals are not modelled. Queries are first-match scans over a sequence. Unique constraints are modelled only where the domain services rely on them (`ServiceRepository`). The one foreign-key refusal the services reach is modelled: deleting a user who still owns a refresh session fails at commit (`UserService.Delete`), because `User.refresh_session` has no delete cascade. Other foreign-key checks are not modelled.
- `expires_in` is computed as `timedelta(days=...).total_seconds()`, a float, and stored in an integer column; the model uses whole seconds throughout, so sub-second timing is not modelled.
- `AuthService.Authenticate` and `AuthService.AuthenticateAfterLookup` replace the missing `UserService.get_user_with_refresh_session` with the user repository's `get_user_refresh_session(spec)` (source/backend/users-service/app/database/repositories/user.py:16-21). Its join is modelled as "the first user with the email, with the first session owned by that user".
- `DataclassDictModel.to_dict` and `PydanticDefaultsModel.validate_into_defaults` are not part of this model. Their effect on a service's input is a parameter of the input (the given fields, the declared defaults, and whether the class derives from `PydanticDefaultsModel`). Neither class is defined in backend/users-service/app/lib/schemas.py, so the import at backend/users-service/app/domain/users/services.py:25 fails as well; that import error is not modelled.
- `validate_default_fields`, imported at backend/users-service/app/domain/users/services.py:29, comes from a module whose body is commented out. Its effect is modelled as "drop fields equal to their declared default" (`DomainUserServices.WithoutDefaults`). The import error itself is not modelled.
- `generate_refresh_token`, imported at backend/users-service/app/domain/services.py:29, does not exist in that `jwt` module. `DomainServices.TokenCreate` uses the users service's `_generate_refresh_token` in its place.
- `encode_jwt_token` and `decode_jwt_token` (backend/users-service/app/lib/security/jwt.py:24-57) take a stray first parameter `cls`, which shifts every positional argument. `Jwt.EncodeJwtToken` and `Jwt.DecodeJwtToken` model the evident intent (no `cls`). The resulting call-site errors are not modelled.
- DomainServices.RefreshTokenService.Delete: the source calls `delete(id_attribute=refresh_token)`, which does not match advanced_alchemy's `delete(item_id)`. The method models removal of the session with the given primary key, not the call error.
- DomainUserServices.DictUpdateKeepsPassword: the dict branch calls `super().update(data)` with no `item_id`, so advanced_alchemy looks the row up by the dict's own `id`. The model does the same. It does not model the error raised when the dict has no `id`.
- The `RefreshSessionService` class of the later domain services (backend/users-service/app/domain/users/services.py:226-242) has only a constructor that forwards to its base class, so it has no behaviour to model.
- Schema validation by pydantic and msgspec (field types, `EmailStr` parsing) happens before the services are called; the models take already-typed inputs.
- CrudUserEarly.CreateKwargs: `sub_string` is a parameter. The generator source/backend/app/crud/crud_user.py:29 calls does not exist (see "## Findings"), so the model cannot say which string it would produce.
- DomainServices.UserService.GetUserWithRefreshToken: `selectinload(User.refresh_token)` (backend/users-service/app/domain/services.py:72) names a relationship `User` does not have (it is `refresh_session`), so the call raises AttributeError. The method models the intended lookup: the first user with the email.
- The imports of `RefreshToken` and `RefreshTokenRepository` (backend/users-service/app/domain/services.py:21-22) name classes that backend/users-service/app/database/models and backend/users-service/app/domain/repositories.py do not define (they define `RefreshSession` and `RefreshSessionRepository`). `RefreshTokenService` is modelled over the refresh-session table; the import errors are not modelled.
- DomainServices.TokenRefresh: `decode_jwt_token` returns the claims as a dict, so `expired_access_token.sub` (backend/users-service/app/domain/services.py:209) raises AttributeError. The model reads the `sub` claim, as intended.
- ServiceRepository.Store.GetOneOrNone: advanced_alchemy's `get_one_or_none` raises `MultipleResultsFound` when more than one row matches; the method answers the first match. The user lookups cannot match twice, because `id` and `email` are unique (the store's invariant). A refresh token is not unique, so `DomainServices.TokenRefresh` does not model the error two sessions with the same token would raise.
- Uow.AppUserColumns: the app revision's `User` (source/backend/app/models/user.py and base.py) declares no primary key, which SQLAlchemy refuses to map. The model gives it the `id` column its specifications compare (source/backend/app/utils/specification.py:22-27).
- Exceptions.IsSpace: only ASCII whitespace is recognised; Python's `str.strip()` also removes the other Unicode whitespace characters.
- Scheme.LowerChar: only ASCII letters are lowered; Python's `str.lower()` also lowers the other Unicode letters.
- Scheme.SchemeParam: backend/users-service/app/lib/security/jwt.py:19 imports `get_authorization_scheme_param` from its own `.utils` module, and app/lib/security/utils.py is not part of this model. The model assumes the helper behaves like FastAPI's function of that name: split at the first space, and ("", "") for an empty or missing header. Scheme.SchemeParamOfJoined rests on the same assumption.
- DomainUserServices.Validated: every refusal becomes pydantic's `ValueError`. A missing or None email does not reach that path: pydantic's `validate_email` calls `len` on it and raises a `TypeError` instead. The validator is a parameter, and the model does not separate that case.
- Crypt.WrongPasswordRejected: bcrypt uses only the first 72 bytes of a password, so two passwords that agree on their first 72 bytes verify against each other's hash. The model compares whole passwords, so this lemma does not hold for such passwords in the real library.
- The access token's `exp` check and the signature check belong to the JWT library. `Jwt.PayloadLifetime` states the RFC 7519 acceptance window of the claims this code produces, but not the library's check itself.

## Findings

| source | as written | input that shows it | evidently intended | confidence | as-written member | corrected member |
|---|---|---|---|---|---|---|
| source/backend/users-service/app/services/auth.py:137-141 | An expired session is deleted inside `async with uow` and then `TokenExpiredException` is raised; `UnitOfWork.__aexit__` always rolls back, so the deletion is lost | A session whose `created_at + expires_in` is before now, refreshed twice: both refreshes answer `TokenExpired` and the session stays | The expired session is deleted (lazy expiry), so a later refresh answers `InvalidToken` | not executed | AuthService.ExpiredSessionKeptAsWritten | AuthService.RefreshRemovesExpiredSession |
| source/backend/users-service/app/services/auth.py:174 | `UserService.get_user_with_refresh_session` is called, but the `UserService` it imports (source/backend/users-service/app/services/user.py) defines no such method, so every login raises AttributeError | Any login, for instance a user with a refresh session and the right password | The user repository's `get_user_refresh_session` join is used, and the login returns the session's token | not executed | AuthService.LoginFailsAsWritten | AuthService.LoginReusesSession |
| source/backend/users-service/app/services/auth.py:181-187 | Once the lookup at line 174 is corrected: `async with cls.create_session(...)` is applied to a coroutine, which has no `__aenter__`, so a TypeError is raised and no session is stored | A user with the right password and no refresh session logs in | A session is created and its token returned; a second login reuses it | not executed; reached only after line 174 is corrected | AuthService.FirstLoginFailsAfterLookup | AuthService.FirstLoginCreatesSession |
| source/backend/users-service/app/services/auth.py:210-222 | Logout with a live session only commits and never deletes the session | Log out with a live refresh token, then refresh with it: the refresh succeeds | Logout deletes the session, as its docstring says, so the token no longer refreshes | not executed | AuthService.LogoutKeepsSessionAsWritten | AuthService.LogoutRevokesToken |
| source/backend/users-service/app/services/user.py:142-151 | The password is hashed into `_schema`, but `update_schema` is passed to the repository, whose `password` field is not a user attribute and is skipped; source/backend/app/services/user.py:88-97 repeats this | Update an existing user with `password="new"`: the stored hash is unchanged | The new password's hash is stored | not executed | UserService.PasswordIgnoredAsWritten | UserService.UpdateSetsPassword |
| source/backend/app/services/auth.py:71-77 | No check for an unknown user, and a bare `raise` with no active exception on a wrong password | An unknown email gives AttributeError; a known email with the wrong password gives RuntimeError | Both failures are the same invalid-credentials error | not executed | AppAuth.FailuresDistinguishableAsWritten | AppAuth.AuthenticateAgreesOnSuccess |
| source/backend/app/crud/crud_user.py:29 | `security.generate_sub_hash_string()` is called, but source/backend/app/core/security.py defines no such function, so every create raises AttributeError and stores nothing | Any `create`, for instance a new user with a fresh email | A `sub_string` is generated and the user stored, who can then log in | not executed | CrudUserEarly.CreateUserAsWritten | CrudUserEarly.CreatedUserAuthenticates |
| backend/users-service/app/domain/services.py:99-100 | `except EmailNotValidError` never matches: pydantic's `validate_email` wraps that error in its own `ValueError`. The catch-all turns it into a 500; the same handlers at :128 and at backend/users-service/app/domain/users/services.py:90, 105, 121, 136, 157, 172, 190, 206 and 220 are dead too, and there the `ValueError` reaches the caller | `create` with the email `"not-an-email"` | `EmailValidationException` with the validator's message, and no change | not executed | DomainServices.CreateRejectsInvalidEmail | DomainServices.CreateReportsInvalidEmailIntended |
