# Session lifecycle of the Garage user service, in Dafny

This project models the authentication and session core of the Garage
back end: the user service's `login`, `refreshAccessToken`, `logout`,
`changePassword` and `createUser` handlers, the `updatePassword` service,
the request-body schemas, the refresh-token helpers, and the access-token
check `verifyToken` with its deny-list.

The handlers form a sequential state machine over three stores:

- the `users` table: rows `{user_id, login, password, has_logged_in, role}`;
- the refresh-token store: `rt:<sha256-hex of the raw token>` → `{userId}`, thirty days;
- the deny-list: `bl:token:<jti>` for revoked access tokens, until the token's own expiry.

Each handler is a pure function from the state before a request to the
state after it, plus the reply or the error it would pass to the error
handler (`Errors.Failure`: the service's `AppError(message, status)`, a
schema parse error, or any other exception).

Foreign code enters as parameters:

- bcrypt, SHA-256 and the JSON Web Token library are function values in `UserController.Env`.
- `Crypto.BcryptSound` and `JwtUtil.JwtSound` state what the proofs assume of them:
  - a password matches its own hash;
  - a signed token verifies back to its payload until `exp`, and is reported expired from `exp` on;
  - signed tokens contain no space.
- SHA-256 returns a 32-byte digest by its type, so it is deterministic.
- The clock (`now`, whole Unix seconds) is a parameter.
- So are the token id from `uuidv4()`, the 64 bytes from `randomBytes(64)`, the bcrypt salt, and whether the store accepted logout's best-effort delete.

Redis is modelled by `TtlStore`, with `SETEX`/`GET`/`EXISTS`/`DEL` over a logical clock.

The refresh records and the deny-list share one Redis instance. Their key prefixes are disjoint (`SessionProperties.KeySpacesDisjoint`), so the model keeps them in two maps.

The files hold one module each, except `wrappers.dfy`, which holds two:
`Wrappers` (Option/Result) and `Errors` (the error type). The others are
`ttl_store.dfy`, `crypto.dfy` (abstract bcrypt/SHA-256 and the hex
rendering of a digest), `base64url.dfy`, `refresh_token_util.dfy`,
`schemas.dfy`, `jwt_util.dfy`, `user_service.dfy`, `user_controller.dfy`,
`session_properties.dfy` (multi-request properties) and `refresh_race.dfy`
(the finding below).

Two behaviours of the code matter below:

- `verifyToken` accepts "change-password" tokens like any other; the access-only type check in the repairs handlers is commented out.
- Refresh redemption is a read followed by a separate delete. See Findings.

## Model

| member | source | states |
|---|---|---|
| TtlStore.Exists | backend-services/repairs-service/src/utils/JwtUtil.ts:42 | `EXISTS` reports a key exactly when `GET` would return its value |
| TtlStore.Get | backend-services/user-service/src/controllers/userController.ts:196-199 | `GET` sees a value exactly while its key is live (now before its expiry time) |
| TtlStore.SetEx | backend-services/user-service/src/controllers/userController.ts:90-96 | after `SETEX key ttl v` the key reads `v` at every time before now+ttl and nothing from then on; every other key is untouched |
| TtlStore.Del | backend-services/user-service/src/controllers/userController.ts:208 | after `DEL` the key is never visible again; every other key is untouched |
| TtlStore.SetExThenGet | backend-services/user-service/src/controllers/userController.ts:213-219 | a read after a write returns the written value until the TTL has run out, then nothing |
| TtlStore.OtherKeysUnaffected | backend-services/user-service/src/controllers/userController.ts:208-219 | writing or deleting one key never changes what another key reads |
| Crypto.Hex | backend-services/user-service/src/utils/RefreshTokenUtil.ts:9 | `digest("hex")` has two characters per byte, all in `[0-9a-f]` |
| Crypto.UnhexHex | backend-services/user-service/src/utils/RefreshTokenUtil.ts:9 | the hex rendering reads back to the exact digest bytes |
| Crypto.HexInjective | backend-services/user-service/src/utils/RefreshTokenUtil.ts:9 | two digests render equal iff they are equal |
| Base64Url.Encode | backend-services/user-service/src/utils/RefreshTokenUtil.ts:5 | unpadded base64url has 4 symbols per 3 bytes plus 2 or 3 for a remainder, all in `[A-Za-z0-9_-]` |
| Base64Url.UnpackSextets | backend-services/user-service/src/utils/RefreshTokenUtil.ts:5 | regrouping the six-bit values back into bytes recovers the input |
| Base64Url.DecodeEncode | backend-services/user-service/src/utils/RefreshTokenUtil.ts:5 | decoding the encoding of any byte string gives that byte string back |
| RefreshTokenUtil.Generate | backend-services/user-service/src/utils/RefreshTokenUtil.ts:4-6 | a generated token is 86 URL-safe characters and decodes back to its 64 random bytes |
| RefreshTokenUtil.GenerateInjective | backend-services/user-service/src/utils/RefreshTokenUtil.ts:4-6 | two tokens are equal iff their random bytes are |
| RefreshTokenUtil.Hash | backend-services/user-service/src/utils/RefreshTokenUtil.ts:8-10 | the stored hash is 64 lower-case hex characters that read back to the token's SHA-256 digest |
| RefreshTokenUtil.HashAgreesIff | backend-services/user-service/src/utils/RefreshTokenUtil.ts:8-10 | two tokens address the same store key iff their digests agree; the same token always addresses the same key |
| Schemas.ParseCreateUser | backend-services/user-service/src/schemas/user.ts:3-6 | accepted, unchanged, iff the login has 3–30 characters and the role 1–30; otherwise the parse error |
| Schemas.ParseLogin | backend-services/user-service/src/schemas/user.ts:10-13 | accepted, unchanged, iff the login has 3–30 characters and the password 1–50 |
| Schemas.ParseChangePassword | backend-services/user-service/src/schemas/user.ts:17-21 | accepted iff the old password has at most 50 characters (empty allowed) and new and confirm each have 3–50 |
| Schemas.MismatchPassesSchema | backend-services/user-service/src/schemas/user.ts:17-21 | the schema accepts a body whose new password and confirmation differ |
| JwtUtil.Split | backend-services/repairs-service/src/utils/JwtUtil.ts:33 | `split(" ")` yields at least one field and no field contains a space |
| JwtUtil.JoinSplit | backend-services/repairs-service/src/utils/JwtUtil.ts:33 | joining the fields with the separator gives the header back |
| JwtUtil.SplitAfterField | backend-services/repairs-service/src/utils/JwtUtil.ts:33 | a space-free field followed by a space is split off as the first part |
| JwtUtil.SplitWithoutSeparator | backend-services/repairs-service/src/utils/JwtUtil.ts:33 | a space-free text is a single field |
| JwtUtil.BearerToken | backend-services/repairs-service/src/utils/JwtUtil.ts:30-33 | the token taken from a `Bearer` header contains no space |
| JwtUtil.BearerTokenOfHeader | backend-services/repairs-service/src/utils/JwtUtil.ts:30-33 | for a header `Bearer <t>` with space-free `t`, the token extracted is exactly `t` |
| JwtUtil.VerifyToken | backend-services/repairs-service/src/utils/JwtUtil.ts:28-59 | fails "Unauthorized" exactly when the header is missing or not `Bearer `; success iff the library verifies a payload with non-empty `jti` and non-zero `exp` whose id is not denied, and then the payload is returned unchanged; every failure is one of the fixed messages or the library's other error passed on |
| JwtUtil.VerifyErrorMapping | backend-services/repairs-service/src/utils/JwtUtil.ts:35-57 | expiry maps to "Token expired", not-before to "Token is not active", other token errors to "Invalid token", anything else passes unchanged, an incomplete payload to "Invalid token payload", a complete payload whose id is denied to "Token revoked", each iff |
| JwtUtil.RevokeToken | backend-services/repairs-service/src/utils/JwtUtil.ts:61-70 | with exp > now the token id is denied exactly until exp; with no positive remaining life nothing is written; no other key changes |
| JwtUtil.GenerateToken | backend-services/repairs-service/src/utils/JwtUtil.ts:20-26 | under the token library's assumed behaviour, the signed token carries no space and verifies back to the user id, type, the fresh jti and an expiry 900 s after issue until then, and reports expiry from then on |
| JwtUtil.VerifyGenerated | backend-services/repairs-service/src/utils/JwtUtil.ts:20-59 | a token issued at t with a 15-minute lifetime verifies back to its user id, type and jti before t+900 unless denied ("Token revoked"), and is "Token expired" from t+900 on |
| JwtUtil.RevokedStaysRevoked | backend-services/repairs-service/src/utils/JwtUtil.ts:42-47 | once a verified payload is revoked, the same header fails "Token revoked" for as long as the library still accepts the token |
| UserService.FirstMatch | backend-services/user-service/src/services/user.ts:11-16 | the position found satisfies the `WHERE` clause and no earlier row does; none is found iff no row does |
| UserService.SelectFirst | backend-services/user-service/src/services/user.ts:11-19 | `rows[0]` is a row of the table satisfying the clause, and is missing iff no row satisfies it |
| UserService.SelectOwnId | backend-services/user-service/src/services/user.ts:11-16 | with unique ids, the lookup by a row's own id finds that row |
| UserService.SetPassword | backend-services/user-service/src/services/user.ts:29-33 | rows with the id get the new hash and `has_logged_in`; all other rows are unchanged; no row changes id, login or role |
| UserService.FirstMatchAgrees | backend-services/user-service/src/services/user.ts:29-33 | tables whose rows agree on a `WHERE` clause find the same first row position |
| UserService.SelectAfterSetPassword | backend-services/user-service/src/services/user.ts:29-33 | after the update every lookup finds the same row as before, updated iff it is the changed user's |
| UserService.UpdatePassword | backend-services/user-service/src/services/user.ts:5-34 | checks in order: no user → "User not found" 404; old password not matching → "Invalid old password" 401; new ≠ confirm → 400; success iff all pass, and then only the update is applied |
| UserService.UpdatePasswordEffect | backend-services/user-service/src/services/user.ts:27-33 | after success the user's row holds `hash(new)`, which the new password verifies against, and `has_logged_in`; other users read as before |
| UserController.CreateUser | backend-services/user-service/src/controllers/userController.ts:24-47 | a valid body appends one row with the default hash and `has_logged_in = false`, keeping the earlier rows; an invalid body changes nothing; ids stay unique |
| UserController.Login | backend-services/user-service/src/controllers/userController.ts:49-116 | unknown login and wrong password give the identical "Invalid credentials" 401 with no state change; a valid body whose password matches the first row with that login always succeeds; `has_logged_in` false gives only a "change-password" token and no stored record; otherwise an "access" token and one new refresh record `rt:<hash(cookie)>` → user for exactly 2,592,000 s, with cookie maxAge 1000 × that TTL |
| UserController.Redeem | backend-services/user-service/src/controllers/userController.ts:196-208 | yields what `GET` sees, and after a successful redemption the key is never visible again; other keys are untouched |
| UserController.Rotate | backend-services/user-service/src/controllers/userController.ts:203-243 | writes one new record for the same owner for the full TTL, then fails 404 iff the owner's row is missing and succeeds iff it is present, replying with the owner's current login and role |
| UserController.Refresh | backend-services/user-service/src/controllers/userController.ts:185-247 | no cookie → "No refresh token provided"; a dead key → "Invalid refresh token", both with no state change; otherwise the old key is gone, a new key maps to the same user, and the request succeeds iff the owner's row exists, replying with the current row's login/role and, as the cookie, exactly the raw token behind the new key; when the row is missing it fails 404 after the new record is already written; users, next id and deny-list never change; every error has status 401 or 404 |
| UserController.Logout | backend-services/user-service/src/controllers/userController.ts:118-162 | replies 204 iff the token verifies or fails with "Token expired"/"Token revoked"; a verified token's id is denied until its expiry and every other deny-list entry is left as it was; a present cookie's record is deleted whatever the outcome unless the store refuses, which is swallowed; every error has status 401 or is the library's unhandled error |
| UserController.ChangePassword | backend-services/user-service/src/controllers/userController.ts:164-183 | schema errors come first, then token errors; any failure the model raises changes nothing (nothing revoked); new ≠ confirm never touches the users; for a valid body and a verified token the handler succeeds iff `updatePassword` does and otherwise fails with its 404/401/400 error; success applies `updatePassword` and revokes the token iff its type is "change-password", leaving every other deny-list entry as it was |
| SessionProperties.KeySpacesDisjoint | backend-services/user-service/src/controllers/userController.ts:90-96 | a refresh key never equals a deny-list key |
| SessionProperties.HandlersPreserveValid | backend-services/user-service/src/controllers/userController.ts:49-247 | login, refresh, logout and change password keep user ids unique and below the next id |
| SessionProperties.SignedInAccessTokenVerifies | backend-services/user-service/src/controllers/userController.ts:80-83 | the access token of a full login verifies as an "access" token of that user until it expires |
| SessionProperties.FirstLoginGetsChangePasswordToken | backend-services/user-service/src/controllers/userController.ts:68-78 | a user who has not logged in yet gets a token that verifies as "change-password", and the state is unchanged |
| SessionProperties.RefreshRotatesSession | backend-services/user-service/src/controllers/userController.ts:196-235 | after a full login, a refresh hands out a cookie that itself refreshes successfully for the same user's login and role, while the login's original cookie still fails "Invalid refresh token" |
| SessionProperties.RefreshTokenRedeemsOnce | backend-services/user-service/src/controllers/userController.ts:196-243 | a full login's refresh cookie refreshes once, with the user's login/role and a new access token, and the same cookie then fails "Invalid refresh token" |
| SessionProperties.RefreshTokenExpires | backend-services/user-service/src/controllers/userController.ts:90-96 | thirty days after login the refresh cookie fails "Invalid refresh token" |
| SessionProperties.LogoutRevokesSession | backend-services/user-service/src/controllers/userController.ts:118-162 | after logout the access token fails "Token revoked" until its expiry and "Token expired" after; a second logout still replies 204; the refresh cookie no longer redeems |
| SessionProperties.FirstLoginLifecycle | backend-services/user-service/src/controllers/userController.ts:164-183 | the change-password token, once used, is revoked for its remaining life, and logging in with the new password is a full login |
| RefreshRace.CommitPhase | backend-services/user-service/src/controllers/userController.ts:203-243 | the handler from its `DEL` on, acting on the record its own `GET` returned whether or not the key is still there: the read key is gone, a new key maps to the read owner for the full TTL, and it succeeds iff the owner's row exists, else 404 |
| RefreshRace.RefreshAsWritten | backend-services/user-service/src/controllers/userController.ts:185-247 | the handler as written, run alone: no cookie and dead key fail with their messages and no change; success iff the cookie's key is live and its owner's row exists; the reply's cookie is the new raw token |
| RefreshRace.ReadPhase | backend-services/user-service/src/controllers/userController.ts:187-201 | the handler's steps up to the `GET` fail on a missing cookie or dead key and otherwise return the key and record, writing nothing |
| RefreshRace.AsWrittenAgreesWhenAlone | backend-services/user-service/src/controllers/userController.ts:185-247 | a refresh running alone behaves identically with the separate `GET`/`DEL` and with single-step redemption |
| RefreshRace.InterleavedRefreshesBothSucceed | backend-services/user-service/src/controllers/userController.ts:196-219 | two requests with one live cookie, interleaved read, read, commit, commit, both succeed and leave two live refresh records |
| RefreshRace.AtomicRedeemExactlyOnce | backend-services/user-service/src/controllers/userController.ts:196-208 | with single-step redemption, the first of two redemptions succeeds iff the key was live and the second always fails |
| RefreshRace.AtomicRefreshSingleUse | backend-services/user-service/src/controllers/userController.ts:196-219 | with single-step redemption, a second refresh with the same cookie fails, both midway through the first and after it |

## Findings

| source | as written | input that shows it | evidently intended | confidence | as-written member | corrected member |
|---|---|---|---|---|---|---|
| backend-services/user-service/src/controllers/userController.ts:196-208 | the refresh record is read with `GET` (line 196) and removed with a separate `DEL` (line 208) | two refresh requests with the same live cookie whose `GET`s both run before either `DEL`: both succeed and each leaves its own live refresh record | a refresh token is single-use: redemption reads and deletes the record in one atomic step, so the second request fails "Invalid refresh token" | not executed; medium (needs concurrent requests) | RefreshRace.InterleavedRefreshesBothSucceed | UserController.Refresh |

`UserController.Refresh` redeems through the single-step `UserController.Redeem`.
For a request running alone this is indistinguishable from the code as written
(`RefreshRace.AsWrittenAgreesWhenAlone`). `RefreshRace.AtomicRedeemExactlyOnce`
and `RefreshRace.AtomicRefreshSingleUse` prove the single-use property for it.

## Left out

- Database and Redis clients: connection setup, reconnect strategy and timeouts are I/O. A failing store is modelled only where the code handles the failure (logout's swallowed delete). Elsewhere it would surface as an unhandled 500, and the writes made before it stay in place. Two cases matter. In refresh, the `DEL` at userController.ts:208 is done, so a failed `SETEX` at line 213 loses the session. In change password, the update at line 174 persists, so a failed revoke at line 177 leaves the change-password token live. The model's "any failure changes nothing" covers only the failures it models.
- bcrypt, SHA-256, JSON Web Token signing, `randomBytes` and `uuidv4` are foreign code. They are function values or parameters, with only the properties stated in `BcryptSound` and `JwtSound`. The `iat` claim and the library's clock tolerance are not modelled.
- Cookies are modelled only as the value and `maxAge` of the cookie that is set. A logout reply stands for "cleared". The `httpOnly`, `secure`, `path` and `sameSite` attributes are HTTP details and are not modelled.
- The refresh record's JSON encoding (`JSON.stringify`/`JSON.parse` of `{ userId }`) is taken to round-trip and is modelled as a datatype value.
- Concurrency is not modelled beyond the two-request interleaving of the Findings table.
- `getUsers` is not part of the session lifecycle (a plain `SELECT *`). It is left out.
- The user service's own `JwtUtil` is not part of this model. Its `generateToken` and `revokeToken` follow the commented reference copies in the repairs service. That commented `revokeToken` writes through the cache client rather than the deny-list client. The model assumes the deny-list entry lands in the store `verifyToken` reads. Its `verifyToken`, which `logout` and `changePassword` call, is taken to be the repairs service's (`JwtUtil.ts:28-59`), modelled by `JwtUtil.VerifyToken`.
- The error handler's rendering of failures as HTTP bodies is not modelled. `Failure.Status` gives the status code only. `UserController.Refresh` and `UserController.Logout` state their error statuses with it.
- String lengths count characters. The schema library counts UTF-16 code units, so the two differ for characters outside the Basic Multilingual Plane.
- Schema failures for a missing or non-string field are not modelled. Bodies are records of strings.
- The database assigns `user_id`; it is modelled as a serial counter (`nextUserId`). No uniqueness constraint on `login` is assumed. Lookups by login take the first matching row.
- Row order: the `SELECT … WHERE login = $1` queries have no `ORDER BY`. The model fixes one row order for every query and keeps a row's position across an `UPDATE`. PostgreSQL promises neither, because an `UPDATE` writes a new row version. With duplicate logins, the database may therefore return a different matching row first. `SessionProperties.FirstLoginLifecycle` concludes that the new password gives a full login only under this fixed order. With two rows sharing a login, the real next login may read the other row and answer "Invalid credentials".
- The clock is whole seconds. The code's `Math.floor(Date.now() / 1000)` is taken as given.
- A "change-password" token is accepted by `verifyToken` like any other. The repairs handlers' check for an "access" token is commented out, so the model enforces no type restriction on protected operations.
