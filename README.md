# xrl rate limiters, modelled in Dafny

xrl is a client library for distributed rate limiting. It hands every
decision to a shared Redis store as one atomic Lua script, so callers in
many processes agree on each decision. This project models the two decision
scripts and the client code around them.

- **Token bucket** (`TokenBucket`). Each key owns a bucket of at most
  `capacity` tokens. The bucket refills lazily at `rate` tokens per second of
  store-clock time. A request is admitted when at least one whole token is
  present, and it takes that token. Both of the bucket's entries are re-armed
  with a TTL of `ceil(capacity/rate) + 300` seconds, kept within 60 and 86400.
- **Fixed window** (`FixedWindow`). Store time is cut into aligned windows of
  `size` seconds. Each (key, window) pair owns a counter, and a request is
  admitted while that counter is below `capacity`. The rate argument becomes a
  window size: `1/rate` when `0 < rate < 1`, and one second otherwise.
- **Client** (`Client`). The non-blocking path maps the script's answer to a
  boolean (`0` means allowed). The blocking path re-runs the script until it
  answers `0`, and sleeps a fixed interval after every denial.
- **XRL** (`Xrl`). The legacy class. Its script is the token bucket script
  word for word, so it reuses `TokenBucket.Script` and `TokenBucket.Acquire`.

How the model is built:

- The store is a class, `Store.RedisStore`, with one keyspace
  (`data: map<StoreKey, real>`) and the TTL of every key
  (`ttl: map<StoreKey, real>`).
- Its methods are the Redis commands the scripts call: MGET, MSET, GET, INCR,
  INCRBYFLOAT and EXPIRE. As in Redis, MSET drops a key's TTL, and EXPIRE on a
  missing key does nothing.
- Each script is a method that calls these commands in the source's order.
  The store clock `now` is a parameter. One call is one atomic step.
- Each script method is proved equal to a pure function `Apply` on a
  snapshot of the store. Properties over several calls (bursts, key
  independence, window rollover, the token-count invariant) are lemmas about
  `Replay`, which is `Apply` repeated over a sequence of store-clock readings.
- The blocking loops run over a finite sequence of store-clock readings. Their
  results are proved equal to `Client.Outcome`, the reference definition of
  "stop at the first 0, sleep after each denial".

Numbers are exact `real`s, standing in for Lua/Redis doubles.

Three behaviours of the code worth noting:

- A rate ≤ 0 gives a one-second window (`src/xrl/fixed_window.py:71-73`).
- With rate 0, `acquire_token` of the token bucket raises a division error
  before it calls the script (`src/xrl/token_bucket.py:81`, `src/xrl/xrl.py:84`).
- With rate 0, the TTL is what the Lua arithmetic gives. `capacity/0` is
  +inf, or NaN when capacity is 0, and Lua 5.1's `math.min(86400, NaN)` keeps
  86400. So the TTL is 86400 for capacity ≥ 0, and 60 for a negative
  capacity (-inf).

## Model

| member | source | states |
|---|---|---|
| `Store.RedisStore.MGet` | src/xrl/token_bucket.py:25 | returns the values of both keys, or nothing for an absent key; the store is unchanged |
| `Store.RedisStore.MSet` | src/xrl/token_bucket.py:34 | writes both values and drops both keys' TTLs; all other entries stay as they were |
| `Store.RedisStore.Expire` | src/xrl/token_bucket.py:35-36 | arms the TTL of an existing key; does nothing for a missing key; values unchanged |
| `Store.RedisStore.IncrByFloat` | src/xrl/token_bucket.py:39 | adds the delta to the value (an absent value counts as 0) and keeps the TTL |
| `Store.RedisStore.Get` | src/xrl/fixed_window.py:24 | returns the value, or nothing when the key is absent |
| `Store.RedisStore.Incr` | src/xrl/fixed_window.py:28 | adds 1 to the value (an absent value counts as 0) and keeps the TTL |
| `Client.Granted` | src/xrl/token_bucket.py:110 | the non-blocking reading of an answer (also `src/xrl/fixed_window.py:106`, `src/xrl/xrl.py:105`): true for 0; it agrees with one attempt of the retry loop, which with this answer either acquires at once or ends with one sleep of the interval |
| `Client.Outcome` | src/xrl/token_bucket.py:84-94 | the retry loop's reference: acquired iff some answer is 0; it stops at the first 0; every earlier answer was a denial; one sleep of the fixed interval per denial; at most one attempt per answer |
| `Client.OutcomeAfterDenials` | src/xrl/fixed_window.py:76-86 | n denials then a 0 give n+1 attempts and exactly n sleeps of the interval, and the permit is acquired |
| `Client.OutcomeOfDenials` | src/xrl/xrl.py:86-90 | only denials: no permit, one attempt and one sleep per denial |
| `Client.DeniedTwiceThenAllowed` | tests/test_xrl.py:111-122 | answers 1, 1, 0 give 3 script calls and 2 sleeps |
| `TokenBucket.BucketTtl` | src/xrl/token_bucket.py:21-23 | the TTL always lies in [60, 86400]; with rate > 0 it is at least the time to fill an empty bucket plus 300 s (up to one day); inside the bounds it is `ceil(capacity/rate) + 300`; for rate 0 it is the value Lua computes from ±inf/NaN |
| `TokenBucket.Observe` | src/xrl/token_bucket.py:26-27 | the bucket the script reads: the stored count and timestamp when present; an absent count reads as capacity (a full bucket), an absent timestamp as 0; a fresh key reads as a full bucket stamped 0 |
| `TokenBucket.Refill` | src/xrl/token_bucket.py:30-32 | the refilled count never exceeds capacity; below the cap it is the old count plus elapsed × rate exactly |
| `TokenBucket.Step` | src/xrl/token_bucket.py:32-43 | result 0 iff the refilled count is ≥ 1; an allow takes exactly one token, a denial keeps the refilled count; the timestamp becomes `now`; capacity < 1 always denies; with capacity, rate, elapsed time and old tokens ≥ 0, the new count lies in [0, capacity] |
| `TokenBucket.Apply` | src/xrl/token_bucket.py:13-44 | only `key` and `key:timestamp` change, in value and TTL; the timestamp entry becomes `now`; both TTLs are equal and lie in [60, 86400]; the bucket read back afterwards and the answer are those of `Step` on the bucket read before (absent entries read as a full bucket stamped 0) |
| `TokenBucket.FirstCallOnFreshKey` | src/xrl/token_bucket.py:26-40 | on a key with no entries, capacity ≥ 1, rate ≥ 0 and now ≥ 0, the first call is allowed and leaves capacity − 1 tokens stamped `now` |
| `TokenBucket.Burst` | src/xrl/token_bucket.py:32-43 | with integral capacity C on a fresh key, k calls in one store-clock second answer allowed for the first C and denied after, and leave C − min(k, C) tokens |
| `TokenBucket.BurstAdmitsMin` | tests/test_token_bucket_integration.py:129-149 | of k same-second calls on a fresh key, exactly min(k, C) are admitted (rate 0 included) |
| `TokenBucket.TokensStayInRange` | src/xrl/token_bucket.py:26-43 | starting from a count in [0, capacity], with capacity and rate ≥ 0 and store-clock readings that never go back, every run keeps the count in [0, capacity] and stamps the last reading |
| `TokenBucket.WaitingOneIntervalAdmits` | tests/test_token_bucket_integration.py:52-77 | once at least 1/rate seconds have passed since the last update, a bucket with capacity ≥ 1 and a non-negative count admits again |
| `TokenBucket.KeysIndependent` | tests/test_token_bucket_integration.py:105-126 | any run of calls on key a leaves the bucket of every other key b exactly as it reads before, so b's decisions are unaffected |
| `TokenBucket.FiveThenDenyThenRefill` | src/xrl/token_bucket.py:30-43 | capacity 5 and rate 1 on a fresh key: five calls in one second are allowed, the sixth is denied, and a call one second later is allowed |
| `TokenBucket.Script` | src/xrl/token_bucket.py:13-44 | the MGET / refill / MSET / EXPIRE / INCRBYFLOAT sequence leaves the store and returns the answer exactly as `Apply` says |
| `TokenBucket.Acquire` | src/xrl/token_bucket.py:81-94 | rate 0 fails with a division error before touching the store; otherwise it calls the script once per reading and stops at the first 0; the number of script runs equals the attempts reported; its answers and final store are those of `Replay`, and its attempts and sleeps (1/rate each) are `Client.Outcome` of those answers |
| `TokenBucket.TokenBucketRateLimiter.constructor` | src/xrl/token_bucket.py:46-54 | the limiter is bound to the given store |
| `TokenBucket.TokenBucketRateLimiter.AcquireToken` | src/xrl/token_bucket.py:56-94 | the same contract as `TokenBucket.Acquire` |
| `TokenBucket.TokenBucketRateLimiter.TryAcquireToken` | src/xrl/token_bucket.py:96-112 | one script run: the store becomes `Apply`'s state; the result is true iff the refilled count was ≥ 1 |
| `FixedWindow.WindowSize` | src/xrl/fixed_window.py:71-73 | the window is always ≥ 1 second; for 0 < rate < 1, window × rate = 1; for any other rate (≤ 0 or ≥ 1) it is exactly 1 |
| `FixedWindow.WindowStart` | src/xrl/fixed_window.py:19-20 | for a positive size, window start ≤ now < window start + size |
| `FixedWindow.SameWindow` | src/xrl/fixed_window.py:20-21 | every second inside [start, start + size) gets the same window start, so it hits the same counter |
| `FixedWindow.Count` | src/xrl/fixed_window.py:24 | the counter the script reads: the stored value when the window entry exists, 0 when it is absent |
| `FixedWindow.Apply` | src/xrl/fixed_window.py:13-34 | result 0 iff the counter of (key, window start) is below capacity; an allow adds exactly 1 to that counter and sets its TTL to the window size, nothing else changes; a denial leaves the whole store unchanged |
| `FixedWindow.Burst` | src/xrl/fixed_window.py:24-30 | calls inside one window whose counter is absent answer allowed for the first C and denied after, and the counter ends at min(k, C) |
| `FixedWindow.BurstAdmitsMin` | tests/test_fixed_window_integration.py:34-52 | of k calls inside one fresh window, exactly min(k, C) are admitted |
| `FixedWindow.ThreeOfFourInOneWindow` | src/xrl/fixed_window.py:24-33 | limit 3 with 5-second windows: four calls in one fresh window answer allowed, allowed, allowed, denied |
| `FixedWindow.ApplyWithinCapacity` | src/xrl/fixed_window.py:26-29 | one run keeps every counter of the key a whole number ≤ capacity |
| `FixedWindow.CapacityNeverExceeded` | src/xrl/fixed_window.py:24-30 | any run of calls keeps every counter of the key a whole number ≤ capacity |
| `FixedWindow.NoCapacityAlwaysDenies` | tests/test_fixed_window.py:212-220 | with capacity ≤ 0 (and no negative counter), every call is denied and the store never changes |
| `FixedWindow.LaterWindowUntouched` | src/xrl/fixed_window.py:20-21 | calls at seconds before a window's start never touch that window's counter |
| `FixedWindow.Rollover` | tests/test_fixed_window_integration.py:280-308 | whatever happened in earlier windows, the first call in a window not yet counted is allowed when capacity ≥ 1 |
| `FixedWindow.KeysIndependent` | tests/test_fixed_window_integration.py:109-129 | any run of calls on key a leaves every window entry of key b, its value and its TTL, unchanged |
| `FixedWindow.Script` | src/xrl/fixed_window.py:13-34 | the GET / compare / INCR / EXPIRE sequence leaves the store and returns the answer exactly as `Apply` says |
| `FixedWindow.FixedWindowRateLimiter.constructor` | src/xrl/fixed_window.py:36-44 | the limiter is bound to the given store |
| `FixedWindow.FixedWindowRateLimiter.AcquireToken` | src/xrl/fixed_window.py:46-86 | calls the script once per reading and stops at the first 0; the number of script runs equals the attempts reported; its answers and final store are those of `Replay` with the converted window size; its attempts and sleeps (one window size each) are `Client.Outcome` of those answers |
| `FixedWindow.FixedWindowRateLimiter.TryAcquireToken` | src/xrl/fixed_window.py:88-108 | one script run with the converted window size; the store becomes `Apply`'s state; the result is true iff the current window's counter was below capacity |
| `Xrl.XRL.constructor` | src/xrl/xrl.py:49-57 | the limiter is bound to the given store |
| `Xrl.XRL.AcquireToken` | src/xrl/xrl.py:59-90 | the same contract as `TokenBucket.Acquire`: division error for rate 0, otherwise retries sleeping 1/rate until the first 0 |
| `Xrl.XRL.TryAcquireToken` | src/xrl/xrl.py:92-105 | one token bucket script run; the store becomes `TokenBucket.Apply`'s state; the result is `Client.Granted` of the answer, true iff it was 0 |
| `Xrl.FiveOfSeven` | tests/test_xrl_integration.py:137-147 | capacity 5, rate 1, seven calls in one second on a fresh key: exactly five are admitted, the first five |

## Left out

- Redis plumbing is left out: script registration (`register_script`), the network client, and connection setup and teardown. The store is an abstract map owned by a class.
- Logging and the `attempt` counter are left out. The counter only feeds log lines.
- Store errors are left out: connectivity failures, script errors, and INCR on a value that is not an integer. The commands always succeed in the model.
- Redis rejects EXPIRE with a fractional argument. A window of `1/rate` for a rate such as 0.3 is fractional, so the real script then fails. The model records the TTL as given.
- Keys are never reclaimed. TTLs are recorded and never count down, so "the key expired" is a state the caller sets up. The key-independence and rollover lemmas state what the script touches, not what expiry removes.
- The string form of keys is not modelled. `key`, `key:timestamp` and `key:<window start>` become distinct `StoreKey` constructors. In the real store a bucket named `u:timestamp` shares its entry with the timestamp of bucket `u`, and Lua formats the window start as a number string. The model does not capture either.
- Floating point is replaced by exact reals: Lua/Redis doubles, the string round trip through MGET/MSET, and INCRBYFLOAT precision. A stored value that is not a number, which `tonumber(...) or default` would read as absent, does not occur.
- Real time and `asyncio.sleep` are left out. Sleeps are recorded as a sequence of durations. The store-clock reading of each attempt is an input, and nothing ties it to the sleeps.
- TokenBucket.Acquire: the source loops forever while it is denied. The model stops when its finite sequence of store-clock readings runs out, and reports `acquired == false`.
- FixedWindow.FixedWindowRateLimiter.AcquireToken: the same finite-readings bound as `TokenBucket.Acquire`.
- Xrl.XRL.AcquireToken: the same finite-readings bound as `TokenBucket.Acquire`.
- FixedWindow.Script: requires a positive window size. Every caller passes the converted size, which is at least 1. A size ≤ 0, which would make Lua divide by zero, is not modelled.
- Concurrency between processes is left out. The store runs each script atomically, so each call is one method call on the store.
- Deprecation notes, the example program, package exports and the duplicate top-level test file are left out.
