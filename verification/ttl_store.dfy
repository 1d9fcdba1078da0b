/**
 * A key-value store whose entries expire, as the Redis commands `SETEX`,
 * `GET`, `EXISTS` and `DEL` see it. Time is a logical clock in whole
 * seconds: an entry written at time `now` with a time-to-live of `ttl`
 * seconds is visible at every time `t` with `t < now + ttl` and gone from
 * `now + ttl` on. Expired entries may linger in the map (Redis evicts
 * lazily) but no read ever sees them.
 */
module TtlStore {
  import opened Wrappers

  datatype Entry<V> = Entry(value: V, expiresAt: int)

  type Store<V> = map<string, Entry<V>>

  /** True when `key` holds a value that has not yet expired at time `now`. */
  predicate Live<V>(s: Store<V>, key: string, now: int) {
    key in s && now < s[key].expiresAt
  }

  /** `GET key`: the live value, or nothing. */
  function Get<V>(s: Store<V>, key: string, now: int): (r: Option<V>)
    ensures r.Some? <==> Live(s, key, now)
    ensures r.Some? ==> r.value == s[key].value
  {
    if Live(s, key, now) then Some(s[key].value) else None
  }

  /** `EXISTS key`. */
  function Exists<V>(s: Store<V>, key: string, now: int): (r: bool)
    ensures r <==> Get(s, key, now).Some?
  {
    Live(s, key, now)
  }

  /**
   * `SETEX key ttl value`. Redis refuses a non-positive expiry, so a caller
   * must pass a positive one.
   */
  function SetEx<V>(s: Store<V>, key: string, ttl: int, value: V, now: int): (r: Store<V>)
    requires ttl > 0
    ensures Get(r, key, now) == Some(value)
    ensures forall t :: Live(r, key, t) <==> t < now + ttl
    ensures forall k :: k != key ==> (k in r <==> k in s) && (k in s ==> r[k] == s[k])
  {
    s[key := Entry(value, now + ttl)]
  }

  /** `DEL key`. Deleting a key that is absent changes nothing visible. */
  function Del<V>(s: Store<V>, key: string): (r: Store<V>)
    ensures forall t :: !Live(r, key, t)
    ensures forall k :: k != key ==> (k in r <==> k in s) && (k in s ==> r[k] == s[k])
  {
    s - {key}
  }

  /** A read after `SETEX` sees the value exactly until its time-to-live has run out. */
  lemma SetExThenGet<V>(s: Store<V>, key: string, ttl: int, value: V, now: int, t: int)
    requires ttl > 0
    ensures Get(SetEx(s, key, ttl, value, now), key, t) == if t < now + ttl then Some(value) else None
  {
  }

  /** Writing or deleting one key leaves what every other key reads unchanged. */
  lemma OtherKeysUnaffected<V>(s: Store<V>, key: string, other: string, ttl: int, value: V, now: int, t: int)
    requires ttl > 0
    requires other != key
    ensures Get(SetEx(s, key, ttl, value, now), other, t) == Get(s, other, t)
    ensures Get(Del(s, key), other, t) == Get(s, other, t)
  {
  }
}
