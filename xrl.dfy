/**
 The legacy single-class limiter. Its decision script is the token bucket
 script word for word, so it runs `TokenBucket.Script`; only the client
 around it is its own.
 */
module Xrl {
  import opened Store
  import Client
  import TokenBucket

  class XRL {
    const store: RedisStore

    constructor (store: RedisStore)
      ensures this.store == store
    {
      this.store := store;
    }

    /** Blocking acquire: retries after every denial, sleeping 1/rate;
        `clocks` are the store-clock readings of the successive attempts. */
    method AcquireToken(key: string, capacity: real, rate: real, clocks: seq<int>)
      returns (r: Client.Result<Client.Acquisition>, ghost results: seq<int>)
      modifies store
      ensures TokenBucket.Acquired(old(store.Snapshot()), store.Snapshot(), key, capacity, rate, clocks, r, results)
    {
      r, results := TokenBucket.Acquire(store, key, capacity, rate, clocks);
    }

    /** Non-blocking acquire: true exactly when the script answered 0. */
    method TryAcquireToken(key: string, capacity: real, rate: real, now: int) returns (success: bool)
      modifies store
      ensures var e := TokenBucket.Apply(old(store.Snapshot()), key, capacity, rate, now);
              store.Snapshot() == e.state && success == Client.Granted(e.result)
    {
      var result := TokenBucket.Script(store, key, capacity, rate, now);
      success := Client.Granted(result);
    }
  }

  /** Capacity 5, rate 1, no time passing: of seven calls on a fresh key
      exactly five are admitted, and they are the first five. */
  lemma FiveOfSeven(st: State, key: string, now: int)
    requires TokenBucket.Fresh(st, key) && now >= 0
    ensures var results := TokenBucket.Replay(st, key, 5.0, 1.0, seq(7, _ => now)).results;
            && Client.CountAllowed(results) == 5
            && results[..5] == seq(5, _ => Client.Allowed)
            && results[5..] == [Client.Denied, Client.Denied]
  {
    TokenBucket.Burst(st, key, 5, 1.0, now, 7);
    TokenBucket.BurstAdmitsMin(st, key, 5, 1.0, now, 7);
  }
}
