/** The Redis counters the two limiters use: INCR, EXPIRE, DEL, GET and TTL over keys that expire. */
module Redis {
  import opened Common

  datatype Key =
    | RateLimitIp(ip: Id)
    | RateLimitUsername(username: Id)
    | FailedUsername(username: Id)
    | FailedIp(ip: Id)

  /** A counter and the instant it disappears; a counter without deadline stays for ever. */
  datatype Counter = Counter(count: nat, deadline: Option<nat>)

  type Store = map<Key, Counter>

  predicate Exists(store: Store, key: Key, now: nat) {
    key in store && (store[key].deadline.Some? ==> now < store[key].deadline.value)
  }

  function Count(store: Store, key: Key, now: nat): nat {
    if Exists(store, key, now) then store[key].count else 0
  }

  /** INCR keeps the deadline of a key that exists and creates the others without one. */
  function Incr(store: Store, key: Key, now: nat): Store {
    store[key := if Exists(store, key, now) then store[key].(count := store[key].count + 1) else Counter(1, None)]
  }

  /** EXPIRE does nothing to a key that does not exist. */
  function Expire(store: Store, key: Key, ttl: nat, now: nat): Store {
    if Exists(store, key, now) then store[key := store[key].(deadline := Some(now + ttl))] else store
  }

  /** The counting step every limiter makes: INCR, and EXPIRE when the counter was new. */
  function Bump(store: Store, key: Key, ttl: nat, now: nat): Store {
    var counted := Incr(store, key, now);
    if Count(counted, key, now) == 1 then Expire(counted, key, ttl, now) else counted
  }

  /** A connection to the server holding the counters. */
  class Connection {
    var store: Store

    constructor ()
      ensures store == map[]
    {
      store := map[];
    }

    method INCR(key: Key, now: nat) returns (count: nat)
      modifies this
      ensures store == Incr(old(store), key, now)
      ensures count == Count(store, key, now) == Count(old(store), key, now) + 1
    {
      store := Incr(store, key, now);
      count := store[key].count;
    }

    method EXPIRE(key: Key, ttl: nat, now: nat)
      modifies this
      ensures store == Expire(old(store), key, ttl, now)
    {
      store := Expire(store, key, ttl, now);
    }

    method DEL(keys: set<Key>)
      modifies this
      ensures store == old(store) - keys
    {
      store := store - keys;
    }

    method GET(key: Key, now: nat) returns (count: Option<nat>)
      ensures count.Some? <==> Exists(store, key, now)
      ensures count.Some? ==> count.value == store[key].count
    {
      count := if Exists(store, key, now) then Some(store[key].count) else None;
    }
  }
}
