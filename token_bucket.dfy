/**
 The token bucket limiter. Each key owns a bucket of at most `capacity`
 tokens that refills lazily at `rate` tokens per second of store-clock time;
 a request is admitted when at least one whole token is available, and then
 consumes it. The decision runs as one atomic script inside the store, so one
 call of `Script` is one indivisible step.
 */
module TokenBucket {
  import opened Store
  import Client

  /** Bounds and slack of the TTL armed on both of a bucket's entries. */
  const MinTtl: int := 60
  const MaxTtl: int := 86400
  const TtlBuffer: int := 300

  function Min(a: real, b: real): real {
    if b < a then b else a
  }

  /** The least integer not below `x`. */
  function Ceil(x: real): (c: int)
    ensures x <= c as real < x + 1.0
  {
    -((-x).Floor)
  }

  /** The TTL (in seconds) of a bucket's entries: the time to fill an empty
      bucket plus a buffer, kept within one minute and one day. With rate 0
      the store's division gives +inf (or NaN when capacity is 0, which the
      clamp also turns into the upper bound), and -inf for a negative
      capacity. */
  function BucketTtl(capacity: real, rate: real): (ttl: int)
    ensures MinTtl <= ttl <= MaxTtl
    ensures rate > 0.0 && capacity >= 0.0 ==>
              ttl as real >= Min(MaxTtl as real, capacity / rate + TtlBuffer as real)
    ensures rate != 0.0 && MinTtl <= Ceil(capacity / rate) + TtlBuffer <= MaxTtl ==>
              ttl == Ceil(capacity / rate) + TtlBuffer
    ensures rate == 0.0 ==> ttl == if capacity >= 0.0 then MaxTtl else MinTtl
  {
    if rate == 0.0 then
      if capacity >= 0.0 then MaxTtl else MinTtl
    else
      var fill := Ceil(capacity / rate) + TtlBuffer;
      if fill > MaxTtl then MaxTtl else if fill < MinTtl then MinTtl else fill
  }

  /** What the script reads for one key: its token count and the store-clock
      second of its last update. */
  datatype Bucket = Bucket(tokens: real, stamp: real)

  /** The bucket of `key` as the script sees it: an absent token count reads
      as a full bucket, an absent timestamp as 0. */
  function Observe(st: State, key: string, capacity: real): (b: Bucket)
    ensures Tokens(key) in st.data ==> b.tokens == st.data[Tokens(key)]
    ensures Tokens(key) !in st.data ==> b.tokens == capacity
    ensures Timestamp(key) in st.data ==> b.stamp == st.data[Timestamp(key)]
    ensures Timestamp(key) !in st.data ==> b.stamp == 0.0
    ensures Fresh(st, key) ==> b == Bucket(capacity, 0.0)
  {
    Bucket(Lookup(st.data, Tokens(key)).GetOr(capacity),
           Lookup(st.data, Timestamp(key)).GetOr(0.0))
  }

  /** Lazy refill: what accrued since the last update is added, and the sum
      is capped at capacity. */
  function Refill(b: Bucket, capacity: real, rate: real, now: int): (t: real)
    ensures t <= capacity
    ensures t == capacity || t == b.tokens + (now as real - b.stamp) * rate
    ensures b.tokens + (now as real - b.stamp) * rate <= capacity ==>
              t == b.tokens + (now as real - b.stamp) * rate
  {
    Min(capacity, b.tokens + (now as real - b.stamp) * rate)
  }

  datatype Decision = Decision(bucket: Bucket, result: int)

  /** One decision on one bucket: refill, then take a token if a whole one
      is there. */
  function Step(b: Bucket, capacity: real, rate: real, now: int): (d: Decision)
    ensures d.result == Client.Allowed || d.result == Client.Denied
    ensures d.result == Client.Allowed <==> Refill(b, capacity, rate, now) >= 1.0
    ensures d.result == Client.Allowed ==> d.bucket.tokens == Refill(b, capacity, rate, now) - 1.0
    ensures d.result == Client.Denied ==> d.bucket.tokens == Refill(b, capacity, rate, now)
    ensures d.bucket.stamp == now as real
    ensures capacity < 1.0 ==> d.result == Client.Denied
    ensures capacity >= 0.0 && rate >= 0.0 && b.stamp <= now as real && b.tokens >= 0.0 ==>
              0.0 <= d.bucket.tokens <= capacity
  {
    var t := Refill(b, capacity, rate, now);
    AccrualBounds(b, capacity, rate, now);
    if t >= 1.0 then Decision(Bucket(t - 1.0, now as real), Client.Allowed)
    else Decision(Bucket(t, now as real), Client.Denied)
  }

  lemma NonNegativeAccrual(elapsed: real, rate: real)
    ensures elapsed >= 0.0 && rate >= 0.0 ==> elapsed * rate >= 0.0
  {
  }

  lemma AccrualBounds(b: Bucket, capacity: real, rate: real, now: int)
    ensures capacity >= 0.0 && rate >= 0.0 && b.stamp <= now as real && b.tokens >= 0.0 ==>
              0.0 <= Refill(b, capacity, rate, now)
  {
    var elapsed := now as real - b.stamp;
    if capacity >= 0.0 && rate >= 0.0 && elapsed >= 0.0 && b.tokens >= 0.0 {
      NonNegativeAccrual(elapsed, rate);
      assert b.tokens + elapsed * rate >= 0.0;
    }
  }

  /** The whole store after one run of the script on `key` at store-clock
      second `now`, and the script's answer. */
  function Apply(st: State, key: string, capacity: real, rate: real, now: int): (e: Effect)
    ensures e.state.data.Keys == st.data.Keys + {Tokens(key), Timestamp(key)}
    ensures e.state.ttl.Keys == st.ttl.Keys + {Tokens(key), Timestamp(key)}
    ensures forall k :: k in st.data && k != Tokens(key) && k != Timestamp(key) ==>
              e.state.data[k] == st.data[k]
    ensures forall k :: k in st.ttl && k != Tokens(key) && k != Timestamp(key) ==>
              e.state.ttl[k] == st.ttl[k]
    ensures e.state.data[Timestamp(key)] == now as real
    ensures MinTtl as real <= e.state.ttl[Tokens(key)] <= MaxTtl as real
    ensures e.state.ttl[Timestamp(key)] == e.state.ttl[Tokens(key)]
    ensures Decision(Observe(e.state, key, capacity), e.result)
         == Step(Observe(st, key, capacity), capacity, rate, now)
  {
    var d := Step(Observe(st, key, capacity), capacity, rate, now);
    var ttl := BucketTtl(capacity, rate) as real;
    Effect(State(st.data[Tokens(key) := d.bucket.tokens][Timestamp(key) := d.bucket.stamp],
                 st.ttl[Tokens(key) := ttl][Timestamp(key) := ttl]),
           d.result)
  }

  /** Successive runs of the script on one key, one per store-clock reading. */
  function Replay(st: State, key: string, capacity: real, rate: real, clocks: seq<int>): (t: Trace)
    ensures |t.results| == |clocks|
  {
    if clocks == [] then Trace(st, [])
    else
      var before := Replay(st, key, capacity, rate, clocks[..|clocks| - 1]);
      var e := Apply(before.state, key, capacity, rate, clocks[|clocks| - 1]);
      Trace(e.state, before.results + [e.result])
  }

  /** A key the store holds nothing for. */
  predicate Fresh(st: State, key: string) {
    Tokens(key) !in st.data && Timestamp(key) !in st.data
  }

  /** The first call on a fresh key finds a full bucket: with at least one
      token of capacity it is admitted and leaves capacity - 1 tokens. */
  lemma FirstCallOnFreshKey(st: State, key: string, capacity: real, rate: real, now: int)
    requires Fresh(st, key)
    requires capacity >= 1.0 && rate >= 0.0 && now >= 0
    ensures Apply(st, key, capacity, rate, now).result == Client.Allowed
    ensures Observe(Apply(st, key, capacity, rate, now).state, key, capacity) == Bucket(capacity - 1.0, now as real)
  {
    NonNegativeAccrual(now as real, rate);
  }

  /** Starting from a fresh key with integral capacity `c`, `k` calls in the
      same store-clock second are answered: the first `c` allowed, the rest
      denied, and the bucket ends with `c - min(k, c)` tokens. */
  lemma {:induction false} Burst(st: State, key: string, c: nat, rate: real, now: int, k: nat)
    requires Fresh(st, key)
    requires rate >= 0.0 && now >= 0
    ensures Replay(st, key, c as real, rate, seq(k, _ => now)).results
         == seq(k, i => if i < c then Client.Allowed else Client.Denied)
    ensures k > 0 ==>
              Observe(Replay(st, key, c as real, rate, seq(k, _ => now)).state, key, c as real)
              == Bucket((c - Client.MinNat(k, c)) as real, now as real)
  {
    if k > 0 {
      var clocks := seq(k, _ => now);
      assert clocks[..k - 1] == seq(k - 1, _ => now);
      Burst(st, key, c, rate, now, k - 1);
      var before := Replay(st, key, c as real, rate, clocks[..k - 1]);
      if k == 1 {
        assert before.state == st;
        FirstCallInSecond(st, key, c, rate, now);
      } else {
        SameSecondStep(before.state, key, c, rate, now, Client.MinNat(k - 1, c));
      }
      assert seq(k, i => if i < c then Client.Allowed else Client.Denied)
          == seq(k - 1, i => if i < c then Client.Allowed else Client.Denied)
             + [if k - 1 < c then Client.Allowed else Client.Denied];
    }
  }

  /** The first call of a burst on a fresh key, whatever the capacity. */
  lemma FirstCallInSecond(st: State, key: string, c: nat, rate: real, now: int)
    requires Fresh(st, key)
    requires rate >= 0.0 && now >= 0
    ensures var e := Apply(st, key, c as real, rate, now);
            && e.result == (if 0 < c then Client.Allowed else Client.Denied)
            && Observe(e.state, key, c as real) == Bucket((c - Client.MinNat(1, c)) as real, now as real)
  {
    NonNegativeAccrual(now as real, rate);
    assert Observe(st, key, c as real) == Bucket(c as real, 0.0);
  }

  /** A later call of a burst: no time has passed, so there is no refill. */
  lemma SameSecondStep(st: State, key: string, c: nat, rate: real, now: int, used: nat)
    requires used <= c
    requires Observe(st, key, c as real) == Bucket((c - used) as real, now as real)
    ensures var e := Apply(st, key, c as real, rate, now);
            && e.result == (if used < c then Client.Allowed else Client.Denied)
            && Observe(e.state, key, c as real) == Bucket((c - Client.MinNat(used + 1, c)) as real, now as real)
  {
    assert Refill(Observe(st, key, c as real), c as real, rate, now) == (c - used) as real;
  }

  /** Counting the answers of `Burst`: exactly min(k, c) of k same-second
      calls on a fresh key are admitted. */
  lemma BurstAdmitsMin(st: State, key: string, c: nat, rate: real, now: int, k: nat)
    requires Fresh(st, key)
    requires rate >= 0.0 && now >= 0
    ensures Client.CountAllowed(Replay(st, key, c as real, rate, seq(k, _ => now)).results) == Client.MinNat(k, c)
  {
    Burst(st, key, c, rate, now, k);
    Client.CountPrefixAllowed(k, c);
  }

  /** Store-clock readings that never go back. */
  predicate Ascending(clocks: seq<int>) {
    forall i, j :: 0 <= i < j < |clocks| ==> clocks[i] <= clocks[j]
  }

  /** The token-count invariant: from a bucket holding between 0 and
      `capacity` tokens, stamped no later than the first reading, any run of
      the script at ascending store-clock readings keeps the count between 0
      and `capacity`, and leaves the last reading as the timestamp. */
  lemma {:induction false} TokensStayInRange(st: State, key: string, capacity: real, rate: real, clocks: seq<int>)
    requires capacity >= 0.0 && rate >= 0.0
    requires 0.0 <= Observe(st, key, capacity).tokens <= capacity
    requires Ascending(clocks)
    requires clocks != [] ==> Observe(st, key, capacity).stamp <= clocks[0] as real
    ensures var b := Observe(Replay(st, key, capacity, rate, clocks).state, key, capacity);
            && 0.0 <= b.tokens <= capacity
            && (clocks != [] ==> b.stamp == clocks[|clocks| - 1] as real)
  {
    if clocks != [] {
      var n := |clocks|;
      var prefix := clocks[..n - 1];
      TokensStayInRange(st, key, capacity, rate, prefix);
      var before := Observe(Replay(st, key, capacity, rate, prefix).state, key, capacity);
      assert prefix != [] ==> before.stamp == clocks[n - 2] as real;
      assert before.stamp <= clocks[n - 1] as real;
    }
  }

  /** Refill after exhaustion: once at least 1/rate seconds have passed since
      the last update, a bucket of capacity at least 1 admits again. */
  lemma WaitingOneIntervalAdmits(b: Bucket, capacity: real, rate: real, now: int)
    requires capacity >= 1.0 && rate > 0.0 && b.tokens >= 0.0
    requires now as real - b.stamp >= 1.0 / rate
    ensures Step(b, capacity, rate, now).result == Client.Allowed
  {
    var elapsed := now as real - b.stamp;
    assert elapsed * rate >= (1.0 / rate) * rate;
    assert (1.0 / rate) * rate == 1.0;
    assert b.tokens + elapsed * rate >= 1.0;
    assert Refill(b, capacity, rate, now) >= 1.0;
  }

  /** Runs on one key never change what another key's bucket reads, so they
      never change another key's decisions. */
  lemma {:induction false} KeysIndependent(st: State, a: string, b: string, capacity: real, rate: real,
                                            clocks: seq<int>, capacityB: real)
    requires a != b
    ensures Observe(Replay(st, a, capacity, rate, clocks).state, b, capacityB) == Observe(st, b, capacityB)
  {
    if clocks != [] {
      KeysIndependent(st, a, b, capacity, rate, clocks[..|clocks| - 1], capacityB);
    }
  }

  /** The scenario of capacity 5 and rate 1 on a fresh key: five calls in
      one second are admitted, a sixth is denied, and one second later the
      next is admitted. */
  lemma FiveThenDenyThenRefill(st: State, key: string, now: int)
    requires Fresh(st, key) && now >= 0
    ensures Replay(st, key, 5.0, 1.0, seq(6, _ => now) + [now + 1]).results
         == [Client.Allowed, Client.Allowed, Client.Allowed, Client.Allowed, Client.Allowed,
             Client.Denied, Client.Allowed]
  {
    var clocks := seq(6, _ => now) + [now + 1];
    assert clocks[..6] == seq(6, _ => now);
    Burst(st, key, 5, 1.0, now, 6);
  }

  /** The script as the store runs it, step by step on the store's entries. */
  method Script(store: RedisStore, key: string, capacity: real, rate: real, now: int) returns (result: int)
    modifies store
    ensures Effect(store.Snapshot(), result) == Apply(old(store.Snapshot()), key, capacity, rate, now)
  {
    ghost var st := store.Snapshot();
    var tokensKey, timestampKey := Tokens(key), Timestamp(key);
    var ttl := BucketTtl(capacity, rate);
    var storedTokens, storedStamp := store.MGet(tokensKey, timestampKey);
    var tokens := storedTokens.GetOr(capacity);
    var timestamp := storedStamp.GetOr(0.0);
    var elapsed := now as real - timestamp;
    tokens := Min(capacity, tokens + elapsed * rate);
    ghost var d := Step(Observe(st, key, capacity), capacity, rate, now);
    assert Observe(st, key, capacity) == Bucket(storedTokens.GetOr(capacity), timestamp);
    assert tokens == Refill(Observe(st, key, capacity), capacity, rate, now);
    store.MSet(tokensKey, tokens, timestampKey, now as real);
    store.Expire(tokensKey, ttl as real);
    store.Expire(timestampKey, ttl as real);
    assert store.ttl == st.ttl[tokensKey := ttl as real][timestampKey := ttl as real];
    if tokens >= 1.0 {
      store.IncrByFloat(tokensKey, -1.0);
      result := Client.Allowed;
      assert store.data == st.data[tokensKey := tokens - 1.0][timestampKey := now as real];
      assert d == Decision(Bucket(tokens - 1.0, now as real), result);
    } else {
      result := Client.Denied;
      assert d == Decision(Bucket(tokens, now as real), result);
    }
  }

  /** What a blocking acquire promises: it fails before touching the store
      when the retry interval 1/rate cannot be computed; otherwise it runs
      the script once per store-clock reading until the first admission,
      its answers are those of `Replay` and its attempts and sleeps those of
      `Client.Outcome` with the interval 1/rate. */
  ghost predicate Acquired(before: State, after: State, key: string, capacity: real, rate: real,
                           clocks: seq<int>, r: Client.Result<Client.Acquisition>, results: seq<int>)
  {
    && (rate == 0.0 ==> r == Client.Failure(Client.ZeroDivisionError) && results == [] && after == before)
    && (rate != 0.0 ==> r == Client.Success(Client.Outcome(results, 1.0 / rate)))
    && (r.Success? ==> |results| == r.value.attempts)
    && |results| <= |clocks|
    && (rate != 0.0 && |results| < |clocks| ==> Client.Allowed in results)
    && Replay(before, key, capacity, rate, clocks[..|results|]) == Trace(after, results)
  }

  /** The retry loop shared by both token bucket clients. `clocks` are the
      store-clock readings at which the successive attempts run. */
  method Acquire(store: RedisStore, key: string, capacity: real, rate: real, clocks: seq<int>)
    returns (r: Client.Result<Client.Acquisition>, ghost results: seq<int>)
    modifies store
    ensures Acquired(old(store.Snapshot()), store.Snapshot(), key, capacity, rate, clocks, r, results)
  {
    results := [];
    if rate == 0.0 {
      return Client.Failure(Client.ZeroDivisionError), results;
    }
    var interval := 1.0 / rate;
    var attempt := 0;
    var sleeps: seq<real> := [];
    while attempt < |clocks|
      invariant attempt == |results| <= |clocks|
      invariant forall i :: 0 <= i < |results| ==> results[i] != Client.Allowed
      invariant sleeps == seq(attempt, _ => interval)
      invariant Replay(old(store.Snapshot()), key, capacity, rate, clocks[..attempt]) == Trace(store.Snapshot(), results)
    {
      ghost var before := store.Snapshot();
      var result := Script(store, key, capacity, rate, clocks[attempt]);
      assert Replay(old(store.Snapshot()), key, capacity, rate, clocks[..attempt + 1])
          == Trace(store.Snapshot(), results + [result]) by {
        assert clocks[..attempt + 1][..attempt] == clocks[..attempt];
        assert Effect(store.Snapshot(), result) == Apply(before, key, capacity, rate, clocks[attempt]);
      }
      if result == Client.Allowed {
        Client.OutcomeAfterDenials(results, interval);
        results := results + [result];
        return Client.Success(Client.Acquisition(true, attempt + 1, sleeps)), results;
      }
      results := results + [result];
      attempt := attempt + 1;
      sleeps := sleeps + [interval];
    }
    Client.OutcomeOfDenials(results, interval);
    r := Client.Success(Client.Acquisition(false, attempt, sleeps));
  }

  class TokenBucketRateLimiter {
    const store: RedisStore

    constructor (store: RedisStore)
      ensures this.store == store
    {
      this.store := store;
    }

    /** Blocking acquire: retries after every denial, sleeping 1/rate. */
    method AcquireToken(key: string, capacity: real, rate: real, clocks: seq<int>)
      returns (r: Client.Result<Client.Acquisition>, ghost results: seq<int>)
      modifies store
      ensures Acquired(old(store.Snapshot()), store.Snapshot(), key, capacity, rate, clocks, r, results)
    {
      r, results := Acquire(store, key, capacity, rate, clocks);
    }

    /** Non-blocking acquire: one run of the script at store-clock second
        `now`; true exactly when the refilled bucket held a whole token. */
    method TryAcquireToken(key: string, capacity: real, rate: real, now: int) returns (success: bool)
      modifies store
      ensures var e := Apply(old(store.Snapshot()), key, capacity, rate, now);
              store.Snapshot() == e.state && success == Client.Granted(e.result)
      ensures success <==> Refill(Observe(old(store.Snapshot()), key, capacity), capacity, rate, now) >= 1.0
    {
      var result := Script(store, key, capacity, rate, now);
      success := Client.Granted(result);
    }
  }
}
