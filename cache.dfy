/**
 * The Laravel cache behind `readData`, `writeData` and `deleteData`, as a map
 * from full cache keys to slots that the cache hides once their eviction
 * time has come.
 */
module CacheStore {
  import opened Wrappers

  /** One issued password: when it stops being accepted, and the payload stored with it. */
  datatype Entry = Entry(expires: int, data: Option<string>)

  /**
   * What the OTP class stores under a key: the code set of an identifier
   * (fingerprint to entry) or the failed-attempt counter of one.
   */
  datatype Value = Codes(codes: map<string, Entry>) | Count(count: int)

  /** A stored value and the time from which the cache no longer returns it. */
  datatype Slot = Slot(value: Value, evictAt: int)

  type Store = map<string, Slot>

  /** `Cache::get($key)`: the value, as long as it has not been evicted at `now`. */
  function Get(store: Store, key: string, now: int): (r: Option<Value>)
    ensures r.Some? <==> key in store && now < store[key].evictAt
    ensures r.Some? ==> r.value == store[key].value
  {
    if key in store && now < store[key].evictAt then Some(store[key].value) else None
  }

  /**
   * `Cache::put($key, $value, $seconds)`: stores the value until `now + ttl`;
   * a ttl of zero or less removes the key instead, as Laravel's repository does.
   */
  function Put(store: Store, key: string, value: Value, ttl: int, now: int): (r: Store)
    ensures ttl > 0 ==> key in r && r[key] == Slot(value, now + ttl)
    ensures ttl <= 0 ==> key !in r
    ensures forall k :: k != key ==> (k in r <==> k in store) && (k in store ==> r[k] == store[k])
  {
    if ttl <= 0 then store - {key} else store[key := Slot(value, now + ttl)]
  }

  /** `Cache::forget($key)`. */
  function Delete(store: Store, key: string): (r: Store)
    ensures key !in r
    ensures forall k :: k != key ==> (k in r <==> k in store) && (k in store ==> r[k] == store[k])
  {
    store - {key}
  }

  /** A write is read back until it is evicted, and never before it was written. */
  lemma GetAfterPut(store: Store, key: string, value: Value, ttl: int, now: int, later: int)
    requires now <= later
    ensures Get(Put(store, key, value, ttl, now), key, later) ==
      if later < now + ttl then Some(value) else None
  {
  }

  /** Writing or deleting one key does not change what any other key reads. */
  lemma OtherKeysUnaffected(store: Store, key: string, other: string, value: Value, ttl: int, now: int, at: int)
    requires other != key
    ensures Get(Put(store, key, value, ttl, now), other, at) == Get(store, other, at)
    ensures Get(Delete(store, key), other, at) == Get(store, other, at)
  {
  }
}
