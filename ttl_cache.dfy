/**
 * The shared key-value cache the views read and write: every entry carries
 * its own expiry time, and a read at or after that time sees nothing.
 */
module TtlCache {

  datatype Option<T> = None | Some(value: T)

  /** A stored value and the instant (in seconds) at which it stops being visible. */
  datatype Entry<V> = Entry(value: V, expiry: int)

  /** One key space of the cache. Expired entries may linger; reads ignore them. */
  type Cache<V> = map<string, Entry<V>>

  /** The entry under `k` exists and has not expired at time `now`. */
  predicate Live<V>(c: Cache<V>, k: string, now: int) {
    k in c && now < c[k].expiry
  }

  /** `cache.get(k)`: the value if it is live, nothing otherwise. */
  function Get<V>(c: Cache<V>, k: string, now: int): Option<V> {
    if Live(c, k, now) then Some(c[k].value) else None
  }

  /** `cache.get(k) or default`. */
  function GetOr<V>(c: Cache<V>, k: string, now: int, default: V): V {
    match Get(c, k, now)
    case Some(v) => v
    case None => default
  }

  /** `cache.set(k, v, timeout=ttl)` at time `now`: replaces any old entry and restarts its lifetime. */
  function Set<V>(c: Cache<V>, k: string, v: V, now: int, ttl: nat): Cache<V> {
    c[k := Entry(v, now + ttl)]
  }

  /** `cache.delete(k)`. */
  function Delete<V>(c: Cache<V>, k: string): Cache<V> {
    c - {k}
  }

  /** A value written with lifetime `ttl` is read back at every instant before the lifetime ends. */
  lemma GetAfterSet<V>(c: Cache<V>, k: string, v: V, now: int, ttl: nat, t: int)
    requires now <= t < now + ttl
    ensures Get(Set(c, k, v, now, ttl), k, t) == Some(v)
  {
  }

  /** From the end of its lifetime on, a written value is no longer visible. */
  lemma GoneAfterTtl<V>(c: Cache<V>, k: string, v: V, now: int, ttl: nat, t: int)
    requires t >= now + ttl
    ensures Get(Set(c, k, v, now, ttl), k, t) == None
  {
  }

  /** A write to one key leaves every other key's reads as they were. */
  lemma SetOtherKey<V>(c: Cache<V>, k: string, v: V, now: int, ttl: nat, k': string, t: int)
    requires k' != k
    ensures Get(Set(c, k, v, now, ttl), k', t) == Get(c, k', t)
  {
  }

  /** After a delete the key reads as absent; other keys are unaffected. */
  lemma GetAfterDelete<V>(c: Cache<V>, k: string, k': string, t: int)
    ensures Get(Delete(c, k), k, t) == None
    ensures k' != k ==> Get(Delete(c, k), k', t) == Get(c, k', t)
  {
  }
}
