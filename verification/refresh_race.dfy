/**
 * Refresh-token redemption as the handler performs it: a `GET` of the
 * record and, in a later round trip, a `DEL` of it. Alone, a request
 * behaves exactly like the single-step redemption `UserController.Refresh`
 * uses. Two requests presenting the same cookie can, however, both read the
 * record before either deletes it, and then both succeed: one refresh token
 * yields two live sessions. With the single-step redemption the second
 * request always fails.
 */
module RefreshRace {
  import opened Wrappers
  import opened Errors
  import opened TtlStore
  import opened JwtUtil
  import opened UserService
  import opened UserController
  import RefreshTokenUtil

  /** What a request has learnt after its `GET`: the key it read and the record under it. */
  datatype Read = Read(key: string, record: RefreshRecord)

  /** The handler up to and including the `GET`: nothing is written yet. */
  function ReadPhase(env: Env, s: State, cookie: Option<string>, now: nat): (r: Result<Read, Failure>)
    ensures !Present(cookie) ==> r == Err(NO_REFRESH_TOKEN)
    ensures Present(cookie) ==>
      var key := RefreshKey(env.sha256, cookie.value);
      r == if Live(s.refresh, key, now) then Ok(Read(key, s.refresh[key].value)) else Err(INVALID_REFRESH_TOKEN)
  {
    if !Present(cookie) then Err(NO_REFRESH_TOKEN)
    else
      var key := RefreshKey(env.sha256, cookie.value);
      match Get(s.refresh, key, now)
      case None => Err(INVALID_REFRESH_TOKEN)
      case Some(record) => Ok(Read(key, record))
  }

  /** The handler from the `DEL` on, acting on what its own `GET` returned. */
  function CommitPhase(env: Env, s: State, read: Read, now: nat, jti: Uuid,
                       entropy: RefreshTokenUtil.Entropy): (r: Step<RefreshReply>)
    ensures var newKey := RefreshKey(env.sha256, RefreshTokenUtil.Generate(entropy));
      && r.state.users == s.users && r.state.denied == s.denied && r.state.nextUserId == s.nextUserId
      && (newKey != read.key ==> forall t :: Get(r.state.refresh, read.key, t).None?)
      && (forall t :: Get(r.state.refresh, newKey, t)
                       == if t < now + REFRESH_TOKEN_TTL then Some(read.record) else None)
      && (forall k :: k != read.key && k != newKey ==>
                       (k in r.state.refresh <==> k in s.refresh) && (k in s.refresh ==> r.state.refresh[k] == s.refresh[k]))
    ensures SelectFirst(s.users, IdIs(read.record.userId)).Some? <==> r.result.Ok?
    ensures r.result.Err? ==> r.result == Err(USER_NOT_FOUND)
    ensures r.result.Ok? ==>
      var u := SelectFirst(s.users, IdIs(read.record.userId)).value;
      r.result.value == Refreshed(GenerateToken(env.jwt, read.record.userId, ACCESS, jti, now), u.login, u.role,
                                  Cookie(RefreshTokenUtil.Generate(entropy), 1000 * REFRESH_TOKEN_TTL))
  {
    Rotate(env, s.(refresh := Del(s.refresh, read.key)), read.record, now, jti, entropy)
  }

  /** The handler as written: the two phases back to back. */
  function RefreshAsWritten(env: Env, s: State, cookie: Option<string>, now: nat, jti: Uuid,
                            entropy: RefreshTokenUtil.Entropy): (r: Step<RefreshReply>)
    ensures !Present(cookie) ==> r == Step(s, Err(NO_REFRESH_TOKEN))
    ensures Present(cookie) && !Live(s.refresh, RefreshKey(env.sha256, cookie.value), now)
      ==> r == Step(s, Err(INVALID_REFRESH_TOKEN))
    ensures r.result.Ok? <==>
      && Present(cookie)
      && Live(s.refresh, RefreshKey(env.sha256, cookie.value), now)
      && SelectFirst(s.users, IdIs(s.refresh[RefreshKey(env.sha256, cookie.value)].value.userId)).Some?
    ensures r.result.Ok? ==> r.result.value.cookie.value == RefreshTokenUtil.Generate(entropy)
  {
    match ReadPhase(env, s, cookie, now)
    case Err(e) => Step(s, Err(e))
    case Ok(read) => CommitPhase(env, s, read, now, jti, entropy)
  }

  /** A request running alone cannot tell the two redemptions apart. */
  lemma AsWrittenAgreesWhenAlone(env: Env, s: State, cookie: Option<string>, now: nat, jti: Uuid,
                                 entropy: RefreshTokenUtil.Entropy)
    ensures RefreshAsWritten(env, s, cookie, now, jti, entropy) == Refresh(env, s, cookie, now, jti, entropy)
  {
  }

  /**
   * Two requests A and B with the same live refresh cookie, interleaved as
   * A reads, B reads, A commits, B commits: both succeed for the same user,
   * and both of their new refresh tokens are live afterwards.
   */
  lemma InterleavedRefreshesBothSucceed(env: Env, s: State, raw: string, now: nat,
                                        jtiA: Uuid, entropyA: RefreshTokenUtil.Entropy,
                                        jtiB: Uuid, entropyB: RefreshTokenUtil.Entropy)
    requires raw != ""
    requires Live(s.refresh, RefreshKey(env.sha256, raw), now)
    requires SelectFirst(s.users, IdIs(s.refresh[RefreshKey(env.sha256, raw)].value.userId)).Some?
    requires RefreshKey(env.sha256, RefreshTokenUtil.Generate(entropyA))
          != RefreshKey(env.sha256, RefreshTokenUtil.Generate(entropyB))
    requires RefreshKey(env.sha256, RefreshTokenUtil.Generate(entropyA)) != RefreshKey(env.sha256, raw)
    ensures var readA := ReadPhase(env, s, Some(raw), now);
      var readB := ReadPhase(env, s, Some(raw), now);
      && readA.Ok? && readB.Ok?
      && var a := CommitPhase(env, s, readA.value, now, jtiA, entropyA);
      && var b := CommitPhase(env, a.state, readB.value, now, jtiB, entropyB);
      && a.result.Ok? && b.result.Ok?
      && a.result.value.login == b.result.value.login
      && Live(b.state.refresh, RefreshKey(env.sha256, RefreshTokenUtil.Generate(entropyA)), now)
      && Live(b.state.refresh, RefreshKey(env.sha256, RefreshTokenUtil.Generate(entropyB)), now)
  {
  }

  /**
   * With the single-step redemption, of two redemptions of the same key
   * the second always finds nothing, and the first succeeds exactly when
   * the key was live: one refresh token, at most one new session.
   */
  lemma AtomicRedeemExactlyOnce(store: Store<RefreshRecord>, key: string, now: int, later: int)
    requires now <= later
    ensures var (afterA, a) := Redeem(store, key, now);
      var (_, b) := Redeem(afterA, key, later);
      (a.Some? <==> Live(store, key, now)) && b.None?
  {
  }

  /**
   * The same for whole requests: once one refresh has redeemed a cookie,
   * a second refresh with that cookie fails, whether it redeems between the
   * first one's redemption and its rotation or after the first has
   * finished (as long as the first did not happen to issue the same key).
   */
  lemma AtomicRefreshSingleUse(env: Env, s: State, raw: string, now: nat, jtiA: Uuid,
                               entropyA: RefreshTokenUtil.Entropy, later: nat, jtiB: Uuid,
                               entropyB: RefreshTokenUtil.Entropy)
    requires RefreshKey(env.sha256, RefreshTokenUtil.Generate(entropyA)) != RefreshKey(env.sha256, raw)
    ensures var (midway, _) := Redeem(s.refresh, RefreshKey(env.sha256, raw), now);
      Live(s.refresh, RefreshKey(env.sha256, raw), now) ==>
        Refresh(env, s.(refresh := midway), Some(raw), later, jtiB, entropyB).result.Err?
    ensures var a := Refresh(env, s, Some(raw), now, jtiA, entropyA);
      a.result.Ok? ==> Refresh(env, a.state, Some(raw), later, jtiB, entropyB).result == Err(INVALID_REFRESH_TOKEN)
  {
  }
}
