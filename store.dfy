/**
 The shared key-value store the rate limiters delegate to, reduced to the
 primitives their server-side scripts call: MGET, MSET, GET, INCR,
 INCRBYFLOAT and EXPIRE. Values are numbers (exact reals), and the TTL of a
 key is recorded but never counts down: expiry and reclamation are the store's
 business, not the limiters'.
 */
module Store {

  datatype Option<T> = None | Some(value: T) {
    function GetOr(default: T): T {
      match this
      case Some(v) => v
      case None => default
    }
  }

  /** The three kinds of entries the scripts write. In the store they are the
      strings `key`, `key:timestamp` and `key:<window start>`. */
  datatype StoreKey =
    | Tokens(name: string)
    | Timestamp(name: string)
    | Window(name: string, start: real)

  /** A snapshot of the whole store: the value and the TTL of every key. */
  datatype State = State(data: map<StoreKey, real>, ttl: map<StoreKey, real>)

  /** One script run: the store afterwards and the script's answer. */
  datatype Effect = Effect(state: State, result: int)

  /** Several script runs: the store afterwards and every answer, in order. */
  datatype Trace = Trace(state: State, results: seq<int>)

  function Lookup(data: map<StoreKey, real>, k: StoreKey): (v: Option<real>)
    ensures v.Some? <==> k in data
    ensures v.Some? ==> v.value == data[k]
  {
    if k in data then Some(data[k]) else None
  }

  class RedisStore {
    var data: map<StoreKey, real>
    var ttl: map<StoreKey, real>

    ghost function Snapshot(): State
      reads this
    {
      State(data, ttl)
    }

    /** An empty store. */
    constructor ()
      ensures data == map[] && ttl == map[]
    {
      data := map[];
      ttl := map[];
    }

    /** MGET of two keys: each value, or nothing when the key is absent. */
    method MGet(k1: StoreKey, k2: StoreKey) returns (v1: Option<real>, v2: Option<real>)
      ensures v1 == Lookup(data, k1) && v2 == Lookup(data, k2)
    {
      v1 := if k1 in data then Some(data[k1]) else None;
      v2 := if k2 in data then Some(data[k2]) else None;
    }

    /** GET of one key. */
    method Get(k: StoreKey) returns (v: Option<real>)
      ensures v == Lookup(data, k)
    {
      v := if k in data then Some(data[k]) else None;
    }

    /** MSET of two keys. Like SET, it discards any TTL the keys had. */
    method MSet(k1: StoreKey, v1: real, k2: StoreKey, v2: real)
      modifies this
      ensures data == old(data)[k1 := v1][k2 := v2]
      ensures ttl == old(ttl) - {k1, k2}
    {
      data := data[k1 := v1][k2 := v2];
      ttl := ttl - {k1, k2};
    }

    /** EXPIRE: arms the TTL of an existing key; on a missing key it does
        nothing. */
    method Expire(k: StoreKey, seconds: real)
      requires seconds > 0.0
      modifies this
      ensures data == old(data)
      ensures ttl == if k in old(data) then old(ttl)[k := seconds] else old(ttl)
    {
      if k in data {
        ttl := ttl[k := seconds];
      }
    }

    /** INCR: an absent key counts as 0; the TTL is kept. */
    method Incr(k: StoreKey)
      modifies this
      ensures data == old(data)[k := Lookup(old(data), k).GetOr(0.0) + 1.0]
      ensures ttl == old(ttl)
    {
      var v := if k in data then data[k] else 0.0;
      data := data[k := v + 1.0];
    }

    /** INCRBYFLOAT: an absent key counts as 0; the TTL is kept. */
    method IncrByFloat(k: StoreKey, delta: real)
      modifies this
      ensures data == old(data)[k := Lookup(old(data), k).GetOr(0.0) + delta]
      ensures ttl == old(ttl)
    {
      var v := if k in data then data[k] else 0.0;
      data := data[k := v + delta];
    }
  }
}
