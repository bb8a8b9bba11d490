/** The Redis commands the API uses on cached values: `GET key` and
    `SETEX key seconds value`. A key set with a TTL of `ttl` seconds at time
    `now` (seconds) can be read back until `now + ttl` and is gone from then on.
    JSON serialisation on the way in and out is the identity here. */
module TtlCache {
  import opened Common

  datatype Slot<V> = Slot(value: V, expiresAt: int)

  /** `GET key` at time `now`: the value when the key exists and has not expired. */
  function Lookup<V>(entries: map<string, Slot<V>>, key: string, now: int): Option<V>
  {
    if key in entries && now < entries[key].expiresAt then Some(entries[key].value) else None
  }

  /** `SETEX key ttl value` at time `now`. */
  function Store<V>(entries: map<string, Slot<V>>, key: string, ttl: nat, value: V, now: int): map<string, Slot<V>>
  {
    entries[key := Slot(value, now + ttl)]
  }

  /** A value stored with TTL `ttl` is read back verbatim for exactly `ttl`
      seconds, and storing it changes no other key. */
  lemma StoreThenLookup<V>(entries: map<string, Slot<V>>, key: string, ttl: nat, value: V, now: int, later: int, other: string)
    requires now <= later
    ensures Lookup(Store(entries, key, ttl, value, now), key, later)
            == if later < now + ttl then Some(value) else None
    ensures other != key ==>
              Lookup(Store(entries, key, ttl, value, now), other, later) == Lookup(entries, other, later)
  {
  }

  /** The Redis client as the route handlers use it for cached responses. */
  class Cache<V> {
    var entries: map<string, Slot<V>>

    constructor ()
      ensures entries == map[]
    {
      entries := map[];
    }

    method Get(key: string, now: int) returns (r: Option<V>)
      ensures r == Lookup(entries, key, now)
    {
      if key in entries && now < entries[key].expiresAt {
        r := Some(entries[key].value);
      } else {
        r := None;
      }
    }

    /** Redis refuses a TTL that is not positive; every caller passes a positive constant. */
    method SetEx(key: string, ttl: nat, value: V, now: int)
      requires ttl > 0
      modifies this
      ensures entries == Store(old(entries), key, ttl, value, now)
    {
      entries := entries[key := Slot(value, now + ttl)];
    }
  }
}
