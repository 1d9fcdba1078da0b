/**
 * The request handlers of the user service that make up the session
 * lifecycle, as a state machine over three stores: the `users` table, the
 * refresh-token store (`rt:<hash>` → owner, thirty days) and the deny-list
 * of revoked access-token ids (`bl:token:<jti>`). Each handler takes the
 * state before the request and returns the state after it together with
 * the reply or the error it hands to the error handler.
 *
 * Everything a handler cannot compute from its inputs is a parameter: the
 * clock (`now`, whole Unix seconds), the fresh token id of a signed token
 * (`jti`), the 64 random bytes of a refresh token (`entropy`), the bcrypt
 * salt, and whether the store accepted a best-effort delete.
 */
module UserController {
  import opened Wrappers
  import opened Errors
  import opened Crypto
  import opened TtlStore
  import opened Schemas
  import opened JwtUtil
  import opened UserService
  import RefreshTokenUtil

  /** The foreign libraries the handlers call. */
  datatype Env = Env(bcrypt: Bcrypt, sha256: Sha256, jwt: JwtLib)

  ghost predicate Sound(env: Env) {
    BcryptSound(env.bcrypt) && JwtSound(env.jwt)
  }

  /** The value stored under a refresh key: the JSON `{ userId }`. */
  datatype RefreshRecord = RefreshRecord(userId: UserId)

  datatype State = State(
    users: Users,
    nextUserId: UserId,
    refresh: Store<RefreshRecord>,
    denied: Store<Revoked>)

  /** What every handler returns: the state after the request, and its reply or error. */
  datatype Step<T> = Step(state: State, result: Result<T, Failure>)

  /** Thirty days, in seconds: the refresh record's time-to-live. */
  const REFRESH_TOKEN_TTL: nat := 60 * 60 * 24 * 30

  /** Thirty days, in milliseconds: the refresh cookie's `maxAge`. */
  const REFRESH_COOKIE_MAX_AGE: nat := 1000 * 60 * 60 * 24 * 30

  /** The bcrypt hash every new account starts with. */
  const DEFAULT_PASSWORD_HASH: string := "$2b$12$RsgPthun3rPPvxYIRpL2t.yMs6TIbYj3odXIhIj3JccRYD4zjJiHW"

  const INVALID_CREDENTIALS: Failure := AppError("Invalid credentials", 401)
  const NO_REFRESH_TOKEN: Failure := AppError("No refresh token provided", 401)
  const INVALID_REFRESH_TOKEN: Failure := AppError("Invalid refresh token", 401)

  const PASSWORD_CHANGE_REQUIRED: string := "Password change required"
  const PASSWORD_CHANGED: string := "Password changed successfully, please log in again"

  /** The `refreshToken` cookie the handler sets. */
  datatype Cookie = Cookie(value: string, maxAge: nat)

  datatype Created = Created

  datatype LoginReply =
    | MustChangePassword(message: string, token: string)
    | SignedIn(accessToken: string, login: string, role: string, cookie: Cookie)

  datatype RefreshReply = Refreshed(accessToken: string, login: string, role: string, cookie: Cookie)

  /** Logout's only reply: status 204 with the refresh cookie cleared. */
  datatype LoggedOut = LoggedOut

  /** The store key of a raw refresh token. */
  function RefreshKey(sha: Sha256, raw: string): string {
    "rt:" + RefreshTokenUtil.Hash(sha, raw)
  }

  /** A cookie value counts as present only when it is a non-empty string. */
  predicate Present(cookie: Option<string>) {
    cookie.Some? && cookie.value != ""
  }

  /**
   * The state invariant: user ids are unique and all below the next id the
   * table will hand out.
   */
  predicate Valid(s: State) {
    UniqueIds(s.users) && forall i :: 0 <= i < |s.users| ==> s.users[i].id < s.nextUserId
  }

  // ---------------------------------------------------------------------
  // createUser

  /**
   * Inserts a row with the given login and role, the default password hash
   * and `has_logged_in = false`, under the next id; replies 204.
   */
  function CreateUser(s: State, body: CreateUserBody): (r: Step<Created>)
    ensures r.result.Err? ==> r.state == s && r.result.error == InvalidInput
    ensures r.result.Ok? <==> ParseCreateUser(body).Ok?
    ensures r.result.Ok? ==>
      && r.state.refresh == s.refresh && r.state.denied == s.denied
      && |r.state.users| == |s.users| + 1
      && r.state.users[..|s.users|] == s.users
      && r.state.users[|s.users|] == UserRow(s.nextUserId, body.login, DEFAULT_PASSWORD_HASH, false, body.role)
    ensures Valid(s) ==> Valid(r.state)
  {
    match ParseCreateUser(body)
    case Err(e) => Step(s, Err(e))
    case Ok(b) =>
      var row := UserRow(s.nextUserId, b.login, DEFAULT_PASSWORD_HASH, false, b.role);
      Step(s.(users := s.users + [row], nextUserId := s.nextUserId + 1), Ok(Created))
  }

  // ---------------------------------------------------------------------
  // login

  /**
   * Checks the credentials against the first row with the given login. A
   * user who has never changed the initial password gets only a
   * "change-password" token; anyone else gets an "access" token and a new
   * refresh token, whose hash is stored for thirty days.
   */
  function Login(env: Env, s: State, body: LoginBody, now: nat, jti: Uuid, entropy: RefreshTokenUtil.Entropy): (r: Step<LoginReply>)
    ensures ParseLogin(body).Err? ==> r == Step(s, Err(InvalidInput))
    ensures ParseLogin(body).Ok? && SelectFirst(s.users, LoginIs(body.login)).None? ==> r == Step(s, Err(INVALID_CREDENTIALS))
    ensures ParseLogin(body).Ok? && SelectFirst(s.users, LoginIs(body.login)).Some?
      && !env.bcrypt.compare(body.password, SelectFirst(s.users, LoginIs(body.login)).value.passwordHash)
      ==> r == Step(s, Err(INVALID_CREDENTIALS))
    ensures ParseLogin(body).Ok? && SelectFirst(s.users, LoginIs(body.login)).Some?
      && env.bcrypt.compare(body.password, SelectFirst(s.users, LoginIs(body.login)).value.passwordHash)
      ==> r.result.Ok?
    ensures r.result.Ok? ==>
      && ParseLogin(body).Ok?
      && SelectFirst(s.users, LoginIs(body.login)).Some?
      && var u := SelectFirst(s.users, LoginIs(body.login)).value;
      && env.bcrypt.compare(body.password, u.passwordHash)
      && (r.result.value.MustChangePassword? <==> !u.hasLoggedIn)
    ensures r.result.Ok? && r.result.value.MustChangePassword? ==>
      && r.state == s
      && r.result.value.message == PASSWORD_CHANGE_REQUIRED
      && r.result.value.token
           == GenerateToken(env.jwt, SelectFirst(s.users, LoginIs(body.login)).value.id, CHANGE_PASSWORD, jti, now)
    ensures r.result.Ok? && r.result.value.SignedIn? ==>
      var u := SelectFirst(s.users, LoginIs(body.login)).value;
      var reply := r.result.value;
      && reply.accessToken == GenerateToken(env.jwt, u.id, ACCESS, jti, now)
      && reply.login == body.login && reply.role == u.role
      && reply.cookie.value == RefreshTokenUtil.Generate(entropy)
      && reply.cookie.maxAge == 1000 * REFRESH_TOKEN_TTL
      && r.state.users == s.users && r.state.denied == s.denied && r.state.nextUserId == s.nextUserId
      && (forall t :: Get(r.state.refresh, RefreshKey(env.sha256, reply.cookie.value), t)
                        == if t < now + REFRESH_TOKEN_TTL then Some(RefreshRecord(u.id)) else None)
      && (forall k :: k != RefreshKey(env.sha256, reply.cookie.value) ==>
                        (k in r.state.refresh <==> k in s.refresh) && (k in s.refresh ==> r.state.refresh[k] == s.refresh[k]))
  {
    match ParseLogin(body)
    case Err(e) => Step(s, Err(e))
    case Ok(b) =>
      match SelectFirst(s.users, LoginIs(b.login))
      case None => Step(s, Err(INVALID_CREDENTIALS))
      case Some(u) =>
        if !env.bcrypt.compare(b.password, u.passwordHash) then Step(s, Err(INVALID_CREDENTIALS))
        else if !u.hasLoggedIn then
          Step(s, Ok(MustChangePassword(PASSWORD_CHANGE_REQUIRED, GenerateToken(env.jwt, u.id, CHANGE_PASSWORD, jti, now))))
        else
          var accessToken := GenerateToken(env.jwt, u.id, ACCESS, jti, now);
          var raw := RefreshTokenUtil.Generate(entropy);
          var refresh := SetEx(s.refresh, RefreshKey(env.sha256, raw), REFRESH_TOKEN_TTL, RefreshRecord(u.id), now);
          Step(s.(refresh := refresh), Ok(SignedIn(accessToken, b.login, u.role, Cookie(raw, REFRESH_COOKIE_MAX_AGE))))
  }

  // ---------------------------------------------------------------------
  // refreshAccessToken

  /**
   * Takes a refresh record out of the store in one step: the record a live
   * key holds, and the store without that key. This is the redemption the
   * rotation needs to be single-use (see `RefreshRace`).
   */
  function Redeem(store: Store<RefreshRecord>, key: string, now: int): (r: (Store<RefreshRecord>, Option<RefreshRecord>))
    ensures r.1 == Get(store, key, now)
    ensures r.1.Some? ==> forall t :: Get(r.0, key, t).None?
    ensures r.1.Some? ==> forall k :: k != key ==> (k in r.0 <==> k in store) && (k in store ==> r.0[k] == store[k])
    ensures r.1.None? ==> r.0 == store
  {
    match Get(store, key, now)
    case None => (store, None)
    case Some(record) => (Del(store, key), Some(record))
  }

  /**
   * The part of a refresh that follows redemption: a new access token for
   * the record's owner, a new refresh record for the same owner, and the
   * owner's current login and role, looked up only after the new record is
   * written.
   */
  function Rotate(env: Env, s: State, record: RefreshRecord, now: nat, jti: Uuid,
                  entropy: RefreshTokenUtil.Entropy): (r: Step<RefreshReply>)
    ensures r.state.users == s.users && r.state.denied == s.denied && r.state.nextUserId == s.nextUserId
    ensures var newKey := RefreshKey(env.sha256, RefreshTokenUtil.Generate(entropy));
      && (forall t :: Get(r.state.refresh, newKey, t)
                        == if t < now + REFRESH_TOKEN_TTL then Some(record) else None)
      && (forall k :: k != newKey ==>
                       (k in r.state.refresh <==> k in s.refresh) && (k in s.refresh ==> r.state.refresh[k] == s.refresh[k]))
    ensures SelectFirst(s.users, IdIs(record.userId)).None? <==> r.result == Err(USER_NOT_FOUND)
    ensures SelectFirst(s.users, IdIs(record.userId)).Some? <==> r.result.Ok?
    ensures r.result.Ok? ==>
      var u := SelectFirst(s.users, IdIs(record.userId)).value;
      r.result.value == Refreshed(GenerateToken(env.jwt, record.userId, ACCESS, jti, now), u.login, u.role,
                                  Cookie(RefreshTokenUtil.Generate(entropy), 1000 * REFRESH_TOKEN_TTL))
  {
    var accessToken := GenerateToken(env.jwt, record.userId, ACCESS, jti, now);
    var raw := RefreshTokenUtil.Generate(entropy);
    var refresh := SetEx(s.refresh, RefreshKey(env.sha256, raw), REFRESH_TOKEN_TTL, RefreshRecord(record.userId), now);
    var s' := s.(refresh := refresh);
    match SelectFirst(s.users, IdIs(record.userId))
    case None => Step(s', Err(USER_NOT_FOUND))
    case Some(u) => Step(s', Ok(Refreshed(accessToken, u.login, u.role, Cookie(raw, REFRESH_COOKIE_MAX_AGE))))
  }

  /**
   * `refreshAccessToken`, corrected: redeems the refresh token from the
   * cookie in one step (`Redeem`) instead of the code's separate `GET` and
   * later `DEL`, and rotates it. `RefreshRace` models the code as written.
   */
  function Refresh(env: Env, s: State, cookie: Option<string>, now: nat, jti: Uuid,
                   entropy: RefreshTokenUtil.Entropy): (r: Step<RefreshReply>)
    ensures r.state.users == s.users && r.state.denied == s.denied && r.state.nextUserId == s.nextUserId
    ensures r.result.Err? ==> r.result.error.Status() == 401 || r.result.error.Status() == 404
    ensures !Present(cookie) ==> r == Step(s, Err(NO_REFRESH_TOKEN))
    ensures Present(cookie) && !Live(s.refresh, RefreshKey(env.sha256, cookie.value), now)
      ==> r == Step(s, Err(INVALID_REFRESH_TOKEN))
    ensures r.result.Ok? ==> Present(cookie) && Live(s.refresh, RefreshKey(env.sha256, cookie.value), now)
    ensures Present(cookie) && Live(s.refresh, RefreshKey(env.sha256, cookie.value), now) ==>
      var oldKey := RefreshKey(env.sha256, cookie.value);
      var newKey := RefreshKey(env.sha256, RefreshTokenUtil.Generate(entropy));
      var owner := s.refresh[oldKey].value.userId;
      && (newKey != oldKey ==> forall t :: Get(r.state.refresh, oldKey, t).None?)
      && (forall t :: Get(r.state.refresh, newKey, t)
                       == if t < now + REFRESH_TOKEN_TTL then Some(RefreshRecord(owner)) else None)
      && (forall k :: k != oldKey && k != newKey ==>
                       (k in r.state.refresh <==> k in s.refresh) && (k in s.refresh ==> r.state.refresh[k] == s.refresh[k]))
      && (SelectFirst(s.users, IdIs(owner)).None? <==> r.result == Err(USER_NOT_FOUND))
      && (SelectFirst(s.users, IdIs(owner)).Some? <==> r.result.Ok?)
      && (r.result.Ok? ==>
            && r.result.value.cookie.value == RefreshTokenUtil.Generate(entropy)
            && r.result.value.login == SelectFirst(s.users, IdIs(owner)).value.login
            && r.result.value.role == SelectFirst(s.users, IdIs(owner)).value.role
            && r.result.value.accessToken == GenerateToken(env.jwt, owner, ACCESS, jti, now)
            && r.result.value.cookie.maxAge == 1000 * REFRESH_TOKEN_TTL)
  {
    if !Present(cookie) then Step(s, Err(NO_REFRESH_TOKEN))
    else
      var (store, record) := Redeem(s.refresh, RefreshKey(env.sha256, cookie.value), now);
      match record
      case None => Step(s, Err(INVALID_REFRESH_TOKEN))
      case Some(rec) => Rotate(env, s.(refresh := store), rec, now, jti, entropy)
  }

  // ---------------------------------------------------------------------
  // logout

  /** The verification failures logout treats as "already logged out". */
  predicate AlreadyLoggedOut(f: Failure) {
    f == TOKEN_EXPIRED || f == TOKEN_REVOKED
  }

  /**
   * `logout`: revokes the presented access token and replies 204 with the
   * cookie cleared; an expired or revoked token also gets 204, any other
   * verification failure is passed on. Whatever the outcome, a present
   * refresh cookie's record is deleted; when the store rejects the delete
   * (`deleteFails`) the error is swallowed and the store is left as it was.
   */
  function Logout(env: Env, s: State, authorization: Option<string>, cookie: Option<string>, now: nat,
                  deleteFails: bool): (r: Step<LoggedOut>)
    ensures var v := VerifyToken(env.jwt, s.denied, authorization, now);
      && (r.result.Ok? <==> v.Ok? || AlreadyLoggedOut(v.error))
      && (r.result.Err? ==> r.result == Err(v.error))
      && (v.Ok? ==> forall t :: now <= t ==>
            (Exists(r.state.denied, DenyKey(v.value.jti.value), t) <==> t < v.value.exp.value))
      && (v.Ok? ==> forall k :: k != DenyKey(v.value.jti.value) ==>
            (k in r.state.denied <==> k in s.denied) && (k in s.denied ==> r.state.denied[k] == s.denied[k]))
      && (v.Err? ==> r.state.denied == s.denied)
    ensures r.state.users == s.users && r.state.nextUserId == s.nextUserId
    ensures r.result.Err? ==> r.result.error.Status() == 401 || r.result.error.Unhandled?
    ensures Present(cookie) && !deleteFails ==>
      forall t :: Get(r.state.refresh, RefreshKey(env.sha256, cookie.value), t).None?
    ensures !Present(cookie) || deleteFails ==> r.state.refresh == s.refresh
    ensures Present(cookie) ==> forall k :: k != RefreshKey(env.sha256, cookie.value) ==>
      (k in r.state.refresh <==> k in s.refresh) && (k in s.refresh ==> r.state.refresh[k] == s.refresh[k])
  {
    var (denied, result) :=
      match VerifyToken(env.jwt, s.denied, authorization, now)
      case Ok(c) => (RevokeToken(s.denied, c, now), Ok(LoggedOut))
      case Err(e) => (s.denied, if AlreadyLoggedOut(e) then Ok(LoggedOut) else Err(e));
    var refresh :=
      if Present(cookie) && !deleteFails then Del(s.refresh, RefreshKey(env.sha256, cookie.value)) else s.refresh;
    Step(s.(refresh := refresh, denied := denied), result)
  }

  // ---------------------------------------------------------------------
  // changePassword

  /**
   * `changePassword`: validates the body, verifies the presented token (of
   * either type), changes the password of the token's user, and revokes
   * the token only when it is a "change-password" token.
   */
  function ChangePassword(env: Env, s: State, authorization: Option<string>, body: ChangePasswordBody,
                          now: nat, salt: string): (r: Step<string>)
    ensures r.result.Err? ==> r.state == s
    ensures ParseChangePassword(body).Err? ==> r.result == Err(InvalidInput)
    ensures ParseChangePassword(body).Ok? && VerifyToken(env.jwt, s.denied, authorization, now).Err? ==>
      r.result == Err(VerifyToken(env.jwt, s.denied, authorization, now).error)
    ensures ParseChangePassword(body).Ok? && VerifyToken(env.jwt, s.denied, authorization, now).Ok? ==>
      var up := UpdatePassword(env.bcrypt, s.users, VerifyToken(env.jwt, s.denied, authorization, now).value.userId,
                               body.oldPassword, body.newPassword, body.confirmPassword, salt);
      && (r.result.Ok? <==> up.Ok?)
      && (up.Err? ==> r.result == Err(up.error))
    ensures body.newPassword != body.confirmPassword ==> r.result.Err? && r.state.users == s.users
    ensures r.result.Ok? ==>
      && ParseChangePassword(body).Ok?
      && VerifyToken(env.jwt, s.denied, authorization, now).Ok?
      && var c := VerifyToken(env.jwt, s.denied, authorization, now).value;
      && r.result.value == PASSWORD_CHANGED
      && UpdatePassword(env.bcrypt, s.users, c.userId, body.oldPassword, body.newPassword, body.confirmPassword, salt)
           == Ok(r.state.users)
      && r.state.refresh == s.refresh && r.state.nextUserId == s.nextUserId
      && (c.kind != CHANGE_PASSWORD ==> r.state.denied == s.denied)
      && (c.kind == CHANGE_PASSWORD ==>
            && (forall t :: now <= t ==> (Exists(r.state.denied, DenyKey(c.jti.value), t) <==> t < c.exp.value))
            && (forall k :: k != DenyKey(c.jti.value) ==>
                  (k in r.state.denied <==> k in s.denied) && (k in s.denied ==> r.state.denied[k] == s.denied[k])))
  {
    match ParseChangePassword(body)
    case Err(e) => Step(s, Err(e))
    case Ok(b) =>
      match VerifyToken(env.jwt, s.denied, authorization, now)
      case Err(e) => Step(s, Err(e))
      case Ok(c) =>
        match UpdatePassword(env.bcrypt, s.users, c.userId, b.oldPassword, b.newPassword, b.confirmPassword, salt)
        case Err(e) => Step(s, Err(e))
        case Ok(users) =>
          var denied := if c.kind == CHANGE_PASSWORD then RevokeToken(s.denied, c, now) else s.denied;
          Step(s.(users := users, denied := denied), Ok(PASSWORD_CHANGED))
  }
}
