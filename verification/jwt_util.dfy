/**
 * Access tokens: signing, the `Authorization: Bearer` check, the deny-list
 * of revoked token ids, and the mapping of the token library's errors onto
 * the service's messages.
 *
 * The JSON Web Token library is foreign code: `JwtLib` takes its `sign`
 * and `verify` (with the server secret already applied) as function values
 * and `JwtSound` states what the model assumes of them.
 */
module JwtUtil {
  import opened Wrappers
  import opened Errors
  import opened TtlStore

  /** The `user_id` a token's `userId` claim carries. */
  type UserId = nat

  /** A `uuidv4()` string, used as the token id (`jti`). */
  type Uuid = s: string | |s| == 36 witness "00000000-0000-4000-8000-000000000000"

  const ACCESS: string := "access"
  const CHANGE_PASSWORD: string := "change-password"

  /** `expiresIn: "15m"`. */
  const ACCESS_TOKEN_TTL: nat := 15 * 60

  const BEARER: string := "Bearer "

  /** The payload of a token. `jti` and `exp` are optional: a payload may lack them. */
  datatype Claims = Claims(userId: UserId, kind: string, jti: Option<string>, exp: Option<int>)

  /** What the library's `verify` yields: a payload, or an instance of one of its error classes, or some other exception. */
  datatype Decoded =
    | Verified(claims: Claims)
    | TokenExpiredError
    | NotBeforeError
    | JsonWebTokenError
    | OtherError(cause: string)

  datatype JwtLib = JwtLib(sign: Claims -> string, verify: (string, int) -> Decoded)

  /**
   * What the model assumes of the token library: a signed token verifies
   * back to exactly the payload it was signed with until its expiry time,
   * and from that second on (`now >= exp`, no grace window) reports expiry;
   * a signed token never contains a space; the empty token is rejected.
   */
  ghost predicate JwtSound(j: JwtLib) {
    && (forall c: Claims, now: int ::
          c.exp.Some? ==> j.verify(j.sign(c), now) == if now < c.exp.value then Verified(c) else TokenExpiredError)
    && (forall c: Claims :: ' ' !in j.sign(c))
    && (forall now: int :: j.verify("", now) == JsonWebTokenError)
  }

  const UNAUTHORIZED: Failure := AppError("Unauthorized", 401)
  const INVALID_PAYLOAD: Failure := AppError("Invalid token payload", 401)
  const TOKEN_REVOKED: Failure := AppError("Token revoked", 401)
  const TOKEN_EXPIRED: Failure := AppError("Token expired", 401)
  const TOKEN_NOT_ACTIVE: Failure := AppError("Token is not active", 401)
  const INVALID_TOKEN: Failure := AppError("Invalid token", 401)

  /** The value of a deny-list entry; its presence is all that matters. */
  datatype Revoked = Revoked

  /** The deny-list key of a token id. */
  function DenyKey(jti: string): string {
    "bl:token:" + jti
  }

  /**
   * `generateToken(payload)`: signs the payload with a fresh token id and an
   * expiry fifteen minutes after the (whole-second) issue time.
   */
  function GenerateToken(jwt: JwtLib, userId: UserId, kind: string, jti: Uuid, now: nat): (token: string)
    ensures JwtSound(jwt) ==> ' ' !in token
    ensures JwtSound(jwt) ==> forall t :: (
      jwt.verify(token, t)
        == if t < now + ACCESS_TOKEN_TTL then Verified(Claims(userId, kind, Some(jti), Some(now + ACCESS_TOKEN_TTL)))
           else TokenExpiredError)
  {
    jwt.sign(Claims(userId, kind, Some(jti), Some(now + ACCESS_TOKEN_TTL)))
  }

  // ---------------------------------------------------------------------
  // `String.prototype.split` on a single character

  /** The fields of `s` between occurrences of `sep`; there is always at least one. */
  function Split(s: string, sep: char): (parts: seq<string>)
    ensures |parts| >= 1
    ensures forall i :: 0 <= i < |parts| ==> sep !in parts[i]
  {
    if s == [] then [""]
    else
      var rest := Split(s[1..], sep);
      if s[0] == sep then [""] + rest
      else [[s[0]] + rest[0]] + rest[1..]
  }

  /** `parts.join(sep)`; the partner of `Split`. */
  function Join(parts: seq<string>, sep: char): string
    requires |parts| >= 1
  {
    if |parts| == 1 then parts[0] else parts[0] + [sep] + Join(parts[1..], sep)
  }

  /** Splitting loses nothing: joining the fields gives the text back. */
  lemma {:induction false} JoinSplit(s: string, sep: char)
    ensures Join(Split(s, sep), sep) == s
  {
    if s != [] {
      var rest := Split(s[1..], sep);
      JoinSplit(s[1..], sep);
      if s[0] == sep {
        assert Split(s, sep)[1..] == rest;
      } else {
        var parts := Split(s, sep);
        assert parts[1..] == rest[1..];
        if |rest| > 1 {
          assert Join(rest, sep) == rest[0] + [sep] + Join(rest[1..], sep);
        }
      }
      assert [s[0]] + s[1..] == s;
    }
  }

  /** A field followed by the separator is split off as the first part. */
  lemma {:induction false} SplitAfterField(a: string, sep: char, b: string)
    requires sep !in a
    ensures Split(a + [sep] + b, sep) == [a] + Split(b, sep)
  {
    var s := a + [sep] + b;
    if a == [] {
      assert s[1..] == b;
    } else {
      assert s[1..] == a[1..] + [sep] + b;
      SplitAfterField(a[1..], sep, b);
      assert [a[0]] + a[1..] == a;
    }
  }

  /** The header opens with the `Bearer` scheme. */
  predicate IsBearer(header: string) {
    |header| >= |BEARER| && header[..|BEARER|] == BEARER
  }

  /** The second space-separated field of a `Bearer` header. */
  function BearerToken(header: string): (token: string)
    requires IsBearer(header)
    ensures ' ' !in token
  {
    SplitAfterField("Bearer", ' ', header[|BEARER|..]);
    assert header == "Bearer" + [' '] + header[|BEARER|..];
    Split(header, ' ')[1]
  }

  /** A header built as `Bearer <token>` from a space-free token yields that token back. */
  lemma BearerTokenOfHeader(token: string)
    requires ' ' !in token
    ensures IsBearer(BEARER + token)
    ensures BearerToken(BEARER + token) == token
  {
    var h := BEARER + token;
    assert h[..|BEARER|] == BEARER;
    assert h == "Bearer" + [' '] + token;
    SplitAfterField("Bearer", ' ', token);
    SplitWithoutSeparator(token, ' ');
  }

  /** A text without the separator is a single field. */
  lemma {:induction false} SplitWithoutSeparator(s: string, sep: char)
    requires sep !in s
    ensures Split(s, sep) == [s]
  {
    if s != [] {
      SplitWithoutSeparator(s[1..], sep);
      assert [s[0]] + s[1..] == s;
    }
  }

  // ---------------------------------------------------------------------
  // verifyToken and revokeToken

  /** The payload names a token id and an expiry, neither of them empty or zero. */
  predicate PayloadComplete(c: Claims) {
    c.jti.Some? && c.jti.value != "" && c.exp.Some? && c.exp.value != 0
  }

  /** The failures `verifyToken` can end in. */
  predicate IsVerifyFailure(f: Failure) {
    f in {UNAUTHORIZED, INVALID_PAYLOAD, TOKEN_REVOKED, TOKEN_EXPIRED, TOKEN_NOT_ACTIVE, INVALID_TOKEN} || f.Unhandled?
  }

  /**
   * `verifyToken(req)`: checks the `Authorization` header, verifies the
   * token, checks that its payload is complete and that its id is not on
   * the deny-list, and returns the payload as the library decoded it.
   */
  function VerifyToken(jwt: JwtLib, denied: Store<Revoked>, authorization: Option<string>, now: int): (r: Result<Claims, Failure>)
    ensures r == Err(UNAUTHORIZED) <==> authorization.None? || !IsBearer(authorization.value)
    ensures r.Ok? ==>
      && authorization.Some? && IsBearer(authorization.value)
      && jwt.verify(BearerToken(authorization.value), now) == Verified(r.value)
      && PayloadComplete(r.value)
      && !Exists(denied, DenyKey(r.value.jti.value), now)
    ensures forall c ::
      && authorization.Some? && IsBearer(authorization.value)
      && jwt.verify(BearerToken(authorization.value), now) == Verified(c)
      && PayloadComplete(c)
      && !Exists(denied, DenyKey(c.jti.value), now)
      ==> r == Ok(c)
    ensures r.Err? ==> IsVerifyFailure(r.error)
    ensures r.Err? && r.error.Unhandled? ==>
      authorization.Some? && IsBearer(authorization.value)
      && jwt.verify(BearerToken(authorization.value), now) == OtherError(r.error.cause)
  {
    if !(authorization.Some? && IsBearer(authorization.value)) then Err(UNAUTHORIZED)
    else
      match jwt.verify(BearerToken(authorization.value), now)
      case TokenExpiredError => Err(TOKEN_EXPIRED)
      case NotBeforeError => Err(TOKEN_NOT_ACTIVE)
      case JsonWebTokenError => Err(INVALID_TOKEN)
      case OtherError(cause) => Err(Unhandled(cause))
      case Verified(c) =>
        if !PayloadComplete(c) then Err(INVALID_PAYLOAD)
        else if Exists(denied, DenyKey(c.jti.value), now) then Err(TOKEN_REVOKED)
        else Ok(c)
  }

  /** Each of the library's outcomes ends in its own failure, or in the payload. */
  lemma VerifyErrorMapping(jwt: JwtLib, denied: Store<Revoked>, header: string, now: int)
    requires IsBearer(header)
    ensures var d := jwt.verify(BearerToken(header), now);
      var r := VerifyToken(jwt, denied, Some(header), now);
      && (d == TokenExpiredError <==> r == Err(TOKEN_EXPIRED))
      && (d == NotBeforeError <==> r == Err(TOKEN_NOT_ACTIVE))
      && (d == JsonWebTokenError <==> r == Err(INVALID_TOKEN))
      && (forall e :: d == OtherError(e) <==> r == Err(Unhandled(e)))
      && (d.Verified? && !PayloadComplete(d.claims) <==> r == Err(INVALID_PAYLOAD))
      && (d.Verified? && PayloadComplete(d.claims) && Exists(denied, DenyKey(d.claims.jti.value), now) <==> r == Err(TOKEN_REVOKED))
  {
  }

  /**
   * `revokeToken(payload)`: puts the token id on the deny-list for as long as
   * the token has left to live, `exp - now` seconds, and writes nothing when
   * that is not positive. A payload without `jti` is revoked under the key
   * the template string gives it, `bl:token:undefined`.
   */
  function RevokeToken(denied: Store<Revoked>, c: Claims, now: nat): (r: Store<Revoked>)
    ensures c.exp.Some? && c.exp.value > now ==>
      forall t :: Exists(r, DenyKey(c.jti.GetOr("undefined")), t) <==> t < c.exp.value
    ensures !(c.exp.Some? && c.exp.value > now) ==> r == denied
    ensures forall k :: k != DenyKey(c.jti.GetOr("undefined")) ==> (k in r <==> k in denied) && (k in denied ==> r[k] == denied[k])
  {
    match c.exp
    case None => denied
    case Some(exp) =>
      var ttl := exp - now;
      if ttl > 0 then SetEx(denied, DenyKey(c.jti.GetOr("undefined")), ttl, Revoked, now) else denied
  }

  /**
   * The round trip of an issued token through the header check: until its
   * expiry it verifies back to the identity, type and id it was issued
   * with, unless that id is on the deny-list; from its expiry on it is
   * reported expired.
   */
  lemma VerifyGenerated(jwt: JwtLib, denied: Store<Revoked>, userId: UserId, kind: string, jti: Uuid, issuedAt: nat, now: int)
    requires JwtSound(jwt)
    ensures VerifyToken(jwt, denied, Some(BEARER + GenerateToken(jwt, userId, kind, jti, issuedAt)), now) ==
      if now >= issuedAt + ACCESS_TOKEN_TTL then Err(TOKEN_EXPIRED)
      else if Exists(denied, DenyKey(jti), now) then Err(TOKEN_REVOKED)
      else Ok(Claims(userId, kind, Some(jti), Some(issuedAt + ACCESS_TOKEN_TTL)))
  {
    var c := Claims(userId, kind, Some(jti), Some(issuedAt + ACCESS_TOKEN_TTL));
    var token := jwt.sign(c);
    assert ' ' !in token;
    BearerTokenOfHeader(token);
    assert jwt.verify(token, now) == if now < issuedAt + ACCESS_TOKEN_TTL then Verified(c) else TokenExpiredError;
  }

  /**
   * Revoking a verified token's payload makes the same header fail with
   * "Token revoked" for as long as the library still accepts the token.
   */
  lemma RevokedStaysRevoked(jwt: JwtLib, denied: Store<Revoked>, header: string, verifiedAt: int, now: nat, t: int)
    requires VerifyToken(jwt, denied, Some(header), verifiedAt).Ok?
    requires now <= t
    ensures var c := VerifyToken(jwt, denied, Some(header), verifiedAt).value;
      jwt.verify(BearerToken(header), t) == Verified(c) && t < c.exp.value ==>
        VerifyToken(jwt, RevokeToken(denied, c, now), Some(header), t) == Err(TOKEN_REVOKED)
  {
  }
}
