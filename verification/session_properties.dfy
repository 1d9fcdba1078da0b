/**
 * Properties of whole sessions: sequences of requests against the user
 * service, each one applied to the state the previous one left behind.
 */
module SessionProperties {
  import opened Wrappers
  import opened Crypto
  import opened TtlStore
  import opened Schemas
  import opened JwtUtil
  import opened UserService
  import opened UserController
  import RefreshTokenUtil

  /**
   * Refresh records and deny-list entries live in the same Redis instance;
   * their key prefixes keep them apart, so no write to one kind of key can
   * touch the other, and the model keeps them in two maps.
   */
  lemma KeySpacesDisjoint(sha: Sha256, raw: string, jti: string)
    ensures RefreshKey(sha, raw) != DenyKey(jti)
  {
    assert RefreshKey(sha, raw)[0] == 'r';
    assert DenyKey(jti)[0] == 'b';
  }

  /** Every handler keeps user ids unique and below the next id. */
  lemma HandlersPreserveValid(env: Env, s: State, now: nat, jti: Uuid, entropy: RefreshTokenUtil.Entropy,
                              login: LoginBody, cookie: Option<string>, authorization: Option<string>,
                              change: ChangePasswordBody, salt: string, deleteFails: bool)
    requires Valid(s)
    ensures Valid(Login(env, s, login, now, jti, entropy).state)
    ensures Valid(Refresh(env, s, cookie, now, jti, entropy).state)
    ensures Valid(Logout(env, s, authorization, cookie, now, deleteFails).state)
    ensures Valid(ChangePassword(env, s, authorization, change, now, salt).state)
  {
  }

  /**
   * A full login hands out an access token that verifies, until it
   * expires, to an "access" token of the user who logged in.
   */
  lemma SignedInAccessTokenVerifies(env: Env, s: State, body: LoginBody, now: nat, jti: Uuid,
                                    entropy: RefreshTokenUtil.Entropy, t: int)
    requires Sound(env)
    requires ParseLogin(body).Ok?
    requires SelectFirst(s.users, LoginIs(body.login)).Some?
    requires env.bcrypt.compare(body.password, SelectFirst(s.users, LoginIs(body.login)).value.passwordHash)
    requires SelectFirst(s.users, LoginIs(body.login)).value.hasLoggedIn
    requires now <= t < now + ACCESS_TOKEN_TTL
    requires !Exists(s.denied, DenyKey(jti), t)
    ensures var r := Login(env, s, body, now, jti, entropy);
      var u := SelectFirst(s.users, LoginIs(body.login)).value;
      && r.result.Ok? && r.result.value.SignedIn?
      && VerifyToken(env.jwt, r.state.denied, Some(BEARER + r.result.value.accessToken), t)
        == Ok(Claims(u.id, ACCESS, Some(jti), Some(now + ACCESS_TOKEN_TTL)))
  {
    var u := SelectFirst(s.users, LoginIs(body.login)).value;
    VerifyGenerated(env.jwt, s.denied, u.id, ACCESS, jti, now, t);
  }

  /**
   * A user who has not yet changed the initial password gets only a token
   * that verifies as a "change-password" token, and nothing is stored.
   */
  lemma FirstLoginGetsChangePasswordToken(env: Env, s: State, body: LoginBody, now: nat, jti: Uuid,
                                          entropy: RefreshTokenUtil.Entropy, t: int)
    requires Sound(env)
    requires ParseLogin(body).Ok?
    requires SelectFirst(s.users, LoginIs(body.login)).Some?
    requires env.bcrypt.compare(body.password, SelectFirst(s.users, LoginIs(body.login)).value.passwordHash)
    requires !SelectFirst(s.users, LoginIs(body.login)).value.hasLoggedIn
    requires now <= t < now + ACCESS_TOKEN_TTL
    requires !Exists(s.denied, DenyKey(jti), t)
    ensures var r := Login(env, s, body, now, jti, entropy);
      var u := SelectFirst(s.users, LoginIs(body.login)).value;
      && r.state == s
      && r.result.Ok? && r.result.value.MustChangePassword?
      && VerifyToken(env.jwt, s.denied, Some(BEARER + r.result.value.token), t)
           == Ok(Claims(u.id, CHANGE_PASSWORD, Some(jti), Some(now + ACCESS_TOKEN_TTL)))
  {
    var u := SelectFirst(s.users, LoginIs(body.login)).value;
    VerifyGenerated(env.jwt, s.denied, u.id, CHANGE_PASSWORD, jti, now, t);
  }

  /**
   * The refresh token of a full login can be redeemed exactly once while it
   * lives: the first refresh answers with the user's login and role and a
   * new "access" token, and presenting the same cookie again fails.
   */
  lemma RefreshTokenRedeemsOnce(env: Env, s: State, body: LoginBody, t0: nat, jti: Uuid,
                                entropy: RefreshTokenUtil.Entropy, t1: nat, jti1: Uuid,
                                entropy1: RefreshTokenUtil.Entropy, t2: nat, jti2: Uuid,
                                entropy2: RefreshTokenUtil.Entropy)
    requires Sound(env)
    requires Valid(s)
    requires Login(env, s, body, t0, jti, entropy).result.Ok?
    requires Login(env, s, body, t0, jti, entropy).result.value.SignedIn?
    requires t0 <= t1 < t0 + REFRESH_TOKEN_TTL
    requires t1 <= t2
    requires RefreshKey(env.sha256, RefreshTokenUtil.Generate(entropy1))
          != RefreshKey(env.sha256, RefreshTokenUtil.Generate(entropy))
    ensures var login := Login(env, s, body, t0, jti, entropy);
      var cookie := Some(login.result.value.cookie.value);
      var first := Refresh(env, login.state, cookie, t1, jti1, entropy1);
      var u := SelectFirst(s.users, LoginIs(body.login)).value;
      && first.result.Ok?
      && first.result.value.login == body.login
      && first.result.value.role == u.role
      && first.result.value.accessToken == GenerateToken(env.jwt, u.id, ACCESS, jti1, t1)
      && Refresh(env, first.state, cookie, t2, jti2, entropy2) == Step(first.state, Err(INVALID_REFRESH_TOKEN))
  {
  }

  /**
   * Refreshing rotates the session: the cookie the first refresh hands out
   * is itself redeemable and yields the same user, while the login's cookie
   * stays dead (as long as no refresh happens to issue the login's key
   * again).
   */
  lemma RefreshRotatesSession(env: Env, s: State, body: LoginBody, t0: nat, jti: Uuid,
                              entropy: RefreshTokenUtil.Entropy, t1: nat, jti1: Uuid,
                              entropy1: RefreshTokenUtil.Entropy, t2: nat, jti2: Uuid,
                              entropy2: RefreshTokenUtil.Entropy, t3: nat, jti3: Uuid,
                              entropy3: RefreshTokenUtil.Entropy)
    requires Valid(s)
    requires Login(env, s, body, t0, jti, entropy).result.Ok?
    requires Login(env, s, body, t0, jti, entropy).result.value.SignedIn?
    requires t0 <= t1 < t0 + REFRESH_TOKEN_TTL
    requires t1 <= t2 < t1 + REFRESH_TOKEN_TTL
    requires RefreshKey(env.sha256, RefreshTokenUtil.Generate(entropy1))
          != RefreshKey(env.sha256, RefreshTokenUtil.Generate(entropy))
    requires RefreshKey(env.sha256, RefreshTokenUtil.Generate(entropy2))
          != RefreshKey(env.sha256, RefreshTokenUtil.Generate(entropy))
    ensures var login := Login(env, s, body, t0, jti, entropy);
      var first := Refresh(env, login.state, Some(login.result.value.cookie.value), t1, jti1, entropy1);
      var second := Refresh(env, first.state, Some(RefreshTokenUtil.Generate(entropy1)), t2, jti2, entropy2);
      var u := SelectFirst(s.users, LoginIs(body.login)).value;
      && first.result.Ok?
      && first.result.value.cookie.value == RefreshTokenUtil.Generate(entropy1)
      && second.result.Ok?
      && second.result.value.login == body.login && second.result.value.role == u.role
      && second.result.value.accessToken == GenerateToken(env.jwt, u.id, ACCESS, jti2, t2)
      && second.result.value.cookie.value == RefreshTokenUtil.Generate(entropy2)
      && Refresh(env, second.state, Some(login.result.value.cookie.value), t3, jti3, entropy3)
           == Step(second.state, Err(INVALID_REFRESH_TOKEN))
  {
    var u := SelectFirst(s.users, LoginIs(body.login)).value;
    SelectOwnId(s.users, u);
  }

  /**
   * A refresh record is redeemable only within its thirty days: presented
   * at or after that time, it fails as though it had never been issued.
   */
  lemma RefreshTokenExpires(env: Env, s: State, body: LoginBody, t0: nat, jti: Uuid,
                            entropy: RefreshTokenUtil.Entropy, t1: nat, jti1: Uuid,
                            entropy1: RefreshTokenUtil.Entropy)
    requires ParseLogin(body).Ok?
    requires SelectFirst(s.users, LoginIs(body.login)).Some?
    requires env.bcrypt.compare(body.password, SelectFirst(s.users, LoginIs(body.login)).value.passwordHash)
    requires SelectFirst(s.users, LoginIs(body.login)).value.hasLoggedIn
    requires t1 >= t0 + REFRESH_TOKEN_TTL
    ensures var login := Login(env, s, body, t0, jti, entropy);
      && login.result.Ok? && login.result.value.SignedIn?
      && Refresh(env, login.state, Some(login.result.value.cookie.value), t1, jti1, entropy1)
        == Step(login.state, Err(INVALID_REFRESH_TOKEN))
  {
  }

  /**
   * Logging out with a live access token succeeds and revokes it: the same
   * header then fails with "Token revoked" until the token's expiry and
   * with "Token expired" from then on, and logging out with it again still
   * succeeds. The session's refresh token no longer redeems.
   */
  lemma LogoutRevokesSession(env: Env, s: State, userId: UserId, kind: string, jti: Uuid, issuedAt: nat,
                             raw: string, now: nat, t: nat, deleteFails: bool, jti1: Uuid,
                             entropy1: RefreshTokenUtil.Entropy)
    requires Sound(env)
    requires issuedAt <= now < issuedAt + ACCESS_TOKEN_TTL
    requires !Exists(s.denied, DenyKey(jti), now)
    requires raw != ""
    requires now <= t
    ensures var header := Some(BEARER + GenerateToken(env.jwt, userId, kind, jti, issuedAt));
      var out := Logout(env, s, header, Some(raw), now, false);
      && out.result.Ok?
      && VerifyToken(env.jwt, out.state.denied, header, t)
           == (if t < issuedAt + ACCESS_TOKEN_TTL then Err(TOKEN_REVOKED) else Err(TOKEN_EXPIRED))
      && Logout(env, out.state, header, Some(raw), t, deleteFails).result.Ok?
      && Refresh(env, out.state, Some(raw), t, jti1, entropy1) == Step(out.state, Err(INVALID_REFRESH_TOKEN))
  {
    var header := Some(BEARER + GenerateToken(env.jwt, userId, kind, jti, issuedAt));
    VerifyGenerated(env.jwt, s.denied, userId, kind, jti, issuedAt, now);
    var out := Logout(env, s, header, Some(raw), now, false);
    VerifyGenerated(env.jwt, out.state.denied, userId, kind, jti, issuedAt, t);
    assert !Live(out.state.refresh, RefreshKey(env.sha256, raw), t) by {
      assert Get(out.state.refresh, RefreshKey(env.sha256, raw), t).None?;
    }
  }

  /**
   * The first-login lifecycle: a user who must change the initial password
   * logs in, changes it with the "change-password" token, and then that
   * token is revoked for the rest of its life, while logging in with the new
   * password is a full login.
   */
  lemma FirstLoginLifecycle(env: Env, s: State, login: string, initial: string, chosen: string, t0: nat,
                            jti: Uuid, entropy: RefreshTokenUtil.Entropy, t1: nat, salt: string, t2: nat,
                            jti2: Uuid, entropy2: RefreshTokenUtil.Entropy)
    requires Sound(env)
    requires Valid(s)
    requires ParseLogin(LoginBody(login, initial)).Ok?
    requires 3 <= |chosen| <= 50 && |initial| <= 50
    requires SelectFirst(s.users, LoginIs(login)).Some?
    requires env.bcrypt.compare(initial, SelectFirst(s.users, LoginIs(login)).value.passwordHash)
    requires !SelectFirst(s.users, LoginIs(login)).value.hasLoggedIn
    requires !Exists(s.denied, DenyKey(jti), t1)
    requires t0 <= t1 < t0 + ACCESS_TOKEN_TTL
    requires t1 <= t2
    ensures var first := Login(env, s, LoginBody(login, initial), t0, jti, entropy);
      var header := Some(BEARER + first.result.value.token);
      var change := ChangePassword(env, first.state, header, ChangePasswordBody(initial, chosen, chosen), t1, salt);
      && first.result.Ok? && first.result.value.MustChangePassword?
      && change.result == Ok(PASSWORD_CHANGED)
      && VerifyToken(env.jwt, change.state.denied, header, t2)
           == (if t2 < t0 + ACCESS_TOKEN_TTL then Err(TOKEN_REVOKED) else Err(TOKEN_EXPIRED))
      && Login(env, change.state, LoginBody(login, chosen), t2, jti2, entropy2).result.Ok?
      && Login(env, change.state, LoginBody(login, chosen), t2, jti2, entropy2).result.value.SignedIn?
  {
    var u := SelectFirst(s.users, LoginIs(login)).value;
    var first := Login(env, s, LoginBody(login, initial), t0, jti, entropy);
    var token := first.result.value.token;
    var header := Some(BEARER + token);
    var c := Claims(u.id, CHANGE_PASSWORD, Some(jti), Some(t0 + ACCESS_TOKEN_TTL));
    VerifyGenerated(env.jwt, s.denied, u.id, CHANGE_PASSWORD, jti, t0, t1);
    assert VerifyToken(env.jwt, s.denied, header, t1) == Ok(c);
    SelectOwnId(s.users, u);
    var hash := env.bcrypt.hash(chosen, salt);
    var change := ChangePassword(env, first.state, header, ChangePasswordBody(initial, chosen, chosen), t1, salt);
    SelectAfterSetPassword(s.users, u.id, hash, LoginIs(login));
    assert SelectFirst(change.state.users, LoginIs(login)) == Some(u.(passwordHash := hash, hasLoggedIn := true));
    VerifyGenerated(env.jwt, change.state.denied, u.id, CHANGE_PASSWORD, jti, t0, t2);
  }
}
