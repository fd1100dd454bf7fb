/**
 The fixed window limiter. Store-clock time is cut into aligned windows of
 `size` seconds; each (key, window) pair owns a counter, and a request is
 admitted while the counter of its window is below `capacity`. The decision
 runs as one atomic script inside the store, so one call of `Script` is one
 indivisible step.
 */
module FixedWindow {
  import opened Store
  import Client

  /** The window length (seconds) derived from a requests-per-second rate: a
      rate strictly between 0 and 1 gets a window of 1/rate seconds, so that
      one request per window matches the rate; every other rate (0, negative,
      or 1 and above) gets one second. */
  function WindowSize(rate: real): (size: real)
    ensures size >= 1.0
    ensures 0.0 < rate < 1.0 ==> size * rate == 1.0
    ensures !(0.0 < rate < 1.0) ==> size == 1.0
  {
    if rate < 1.0 && rate > 0.0 then 1.0 / rate else 1.0
  }

  /** The start of the window holding store-clock second `now`: the largest
      multiple of `size` not after `now`. */
  function WindowStart(now: int, size: real): (start: real)
    requires size > 0.0
    ensures start <= now as real < start + size
  {
    FloorScaled(now as real, size);
    (now as real / size).Floor as real * size
  }

  lemma FloorScaled(x: real, size: real)
    requires size > 0.0
    ensures var n := (x / size).Floor as real;
            n * size <= x < n * size + size
  {
    var q := x / size;
    assert q * size == x;
    ScaleUp(x, q, q.Floor as real, size);
  }

  /** Two store-clock seconds inside the same window get the same window
      start, hence the same counter. */
  lemma SameWindow(t1: int, t2: int, size: real)
    requires size > 0.0
    requires WindowStart(t1, size) <= t2 as real < WindowStart(t1, size) + size
    ensures WindowStart(t2, size) == WindowStart(t1, size)
  {
    var m := (t1 as real / size).Floor;
    assert WindowStart(t1, size) == m as real * size;
    var q := t2 as real / size;
    assert q * size == t2 as real;
    ScaleDown(t2 as real, q, m as real, size);
    FloorUnique(q, m);
  }

  /** The floor of q is the one integer m with m <= q < m + 1. */
  lemma FloorUnique(q: real, m: int)
    requires m as real <= q < m as real + 1.0
    ensures q.Floor == m
  {
  }

  /** For x = q * size with size > 0: n <= q carries over to n * size <= x,
      and q < n + 1 to x < n * size + size. */
  lemma ScaleUp(x: real, q: real, n: real, size: real)
    requires size > 0.0 && q * size == x && n <= q < n + 1.0
    ensures n * size <= x < n * size + size
  {
    ScaleUpLower(x, q, n, size);
    ScaleUpUpper(x, q, n, size);
  }

  lemma ScaleUpLower(x: real, q: real, n: real, size: real)
    requires size > 0.0 && q * size == x && n <= q
    ensures n * size <= x
  {
    assert (q - n) * size == x - n * size;
    NonNegativeProduct(q - n, size);
  }

  lemma ScaleUpUpper(x: real, q: real, n: real, size: real)
    requires size > 0.0 && q * size == x && q < n + 1.0
    ensures x < n * size + size
  {
    assert (n + 1.0 - q) * size == n * size + size - x;
    PositiveProduct(n + 1.0 - q, size);
  }

  /** The converse of ScaleUp. */
  lemma ScaleDown(x: real, q: real, n: real, size: real)
    requires size > 0.0 && q * size == x && n * size <= x < n * size + size
    ensures n <= q < n + 1.0
  {
    ScaleDownLower(x, q, n, size);
    ScaleDownUpper(x, q, n, size);
  }

  lemma ScaleDownLower(x: real, q: real, n: real, size: real)
    requires size > 0.0 && q * size == x && n * size <= x
    ensures n <= q
  {
    assert (q - n) * size == x - n * size;
    SignOfProduct(q - n, size);
  }

  lemma ScaleDownUpper(x: real, q: real, n: real, size: real)
    requires size > 0.0 && q * size == x && x < n * size + size
    ensures q < n + 1.0
  {
    assert (n + 1.0 - q) * size == n * size + size - x;
    SignOfProduct(n + 1.0 - q, size);
  }

  lemma NonNegativeProduct(a: real, size: real)
    requires a >= 0.0 && size > 0.0
    ensures a * size >= 0.0
  {
  }

  lemma PositiveProduct(a: real, size: real)
    requires a > 0.0 && size > 0.0
    ensures a * size > 0.0
  {
  }

  lemma SignOfProduct(a: real, size: real)
    requires size > 0.0
    ensures a * size >= 0.0 ==> a >= 0.0
    ensures a * size > 0.0 ==> a > 0.0
  {
  }

  /** The counter of a window entry; an absent entry counts 0. */
  function Count(st: State, w: StoreKey): (c: real)
    ensures w in st.data ==> c == st.data[w]
    ensures w !in st.data ==> c == 0.0
  {
    Lookup(st.data, w).GetOr(0.0)
  }

  /** The whole store after one run of the script on `key` at store-clock
      second `now`, and the script's answer. */
  function Apply(st: State, key: string, capacity: int, size: real, now: int): (e: Effect)
    requires size > 0.0
    ensures var w := Window(key, WindowStart(now, size));
            && (e.result == Client.Allowed <==> Count(st, w) < capacity as real)
            && (e.result == Client.Allowed ==>
                  e.state == State(st.data[w := Count(st, w) + 1.0], st.ttl[w := size]))
            && (e.result != Client.Allowed ==> e.result == Client.Denied && e.state == st)
  {
    var w := Window(key, WindowStart(now, size));
    var count := Count(st, w);
    if count < capacity as real then
      Effect(State(st.data[w := count + 1.0], st.ttl[w := size]), Client.Allowed)
    else
      Effect(st, Client.Denied)
  }

  /** Successive runs of the script on one key, one per store-clock reading. */
  function Replay(st: State, key: string, capacity: int, size: real, clocks: seq<int>): (t: Trace)
    requires size > 0.0
    ensures |t.results| == |clocks|
  {
    if clocks == [] then Trace(st, [])
    else
      var before := Replay(st, key, capacity, size, clocks[..|clocks| - 1]);
      var e := Apply(before.state, key, capacity, size, clocks[|clocks| - 1]);
      Trace(e.state, before.results + [e.result])
  }

  /** Calls inside one window `start` whose counter is still absent: the
      first `c` are admitted and the rest denied, and the counter ends at
      min(k, c). */
  lemma {:induction false} Burst(st: State, key: string, c: nat, size: real, start: real, clocks: seq<int>)
    requires size > 0.0
    requires Window(key, start) !in st.data
    requires forall i :: 0 <= i < |clocks| ==> WindowStart(clocks[i], size) == start
    ensures Replay(st, key, c, size, clocks).results
         == seq(|clocks|, i => if i < c then Client.Allowed else Client.Denied)
    ensures Count(Replay(st, key, c, size, clocks).state, Window(key, start))
         == Client.MinNat(|clocks|, c) as real
  {
    var k := |clocks|;
    if k > 0 {
      var prefix := clocks[..k - 1];
      Burst(st, key, c, size, start, prefix);
      var before := Replay(st, key, c, size, prefix);
      assert WindowStart(clocks[k - 1], size) == start;
      assert seq(k, i => if i < c then Client.Allowed else Client.Denied)
          == seq(k - 1, i => if i < c then Client.Allowed else Client.Denied)
             + [if k - 1 < c then Client.Allowed else Client.Denied];
    }
  }

  /** Counting the answers of `Burst`: exactly min(k, c) of k calls inside
      one fresh window are admitted. */
  lemma BurstAdmitsMin(st: State, key: string, c: nat, size: real, start: real, clocks: seq<int>)
    requires size > 0.0
    requires Window(key, start) !in st.data
    requires forall i :: 0 <= i < |clocks| ==> WindowStart(clocks[i], size) == start
    ensures Client.CountAllowed(Replay(st, key, c, size, clocks).results) == Client.MinNat(|clocks|, c)
  {
    Burst(st, key, c, size, start, clocks);
    Client.CountPrefixAllowed(|clocks|, c);
  }

  /** A limit of 3 and windows of 5 seconds: four calls in one fresh window
      are answered allowed, allowed, allowed, denied. */
  lemma ThreeOfFourInOneWindow(st: State, key: string, start: real, clocks: seq<int>)
    requires Window(key, start) !in st.data
    requires |clocks| == 4
    requires forall i :: 0 <= i < 4 ==> WindowStart(clocks[i], 5.0) == start
    ensures Replay(st, key, 3, 5.0, clocks).results
         == [Client.Allowed, Client.Allowed, Client.Allowed, Client.Denied]
  {
    Burst(st, key, 3, 5.0, start, clocks);
  }

  /** Every counter of `key` is a whole number no greater than `capacity`. */
  ghost predicate WithinCapacity(st: State, key: string, capacity: nat) {
    forall s :: Window(key, s) in st.data ==> Admissible(st.data[Window(key, s)], capacity)
  }

  ghost predicate Admissible(count: real, capacity: nat) {
    count <= capacity as real && count.Floor as real == count
  }

  /** A whole counter below the capacity stays within it after INCR. */
  lemma IncrAdmissible(count: real, capacity: nat)
    requires count.Floor as real == count && count < capacity as real
    ensures Admissible(count + 1.0, capacity)
  {
    var n := count.Floor;
    assert n < capacity;
    assert (count + 1.0).Floor == n + 1;
  }

  /** Bounded admission: no run of the script pushes a window's counter past
      the capacity. */
  lemma {:induction false} CapacityNeverExceeded(st: State, key: string, capacity: nat, size: real, clocks: seq<int>)
    requires size > 0.0
    requires WithinCapacity(st, key, capacity)
    ensures WithinCapacity(Replay(st, key, capacity, size, clocks).state, key, capacity)
  {
    if clocks != [] {
      CapacityNeverExceeded(st, key, capacity, size, clocks[..|clocks| - 1]);
      var before := Replay(st, key, capacity, size, clocks[..|clocks| - 1]);
      ApplyWithinCapacity(before.state, key, capacity, size, clocks[|clocks| - 1]);
    }
  }

  lemma ApplyWithinCapacity(st: State, key: string, capacity: nat, size: real, now: int)
    requires size > 0.0
    requires WithinCapacity(st, key, capacity)
    ensures WithinCapacity(Apply(st, key, capacity, size, now).state, key, capacity)
  {
    var e := Apply(st, key, capacity, size, now);
    var w := Window(key, WindowStart(now, size));
    if e.result == Client.Allowed {
      var count := Count(st, w);
      assert w in st.data ==> Admissible(st.data[w], capacity);
      IncrAdmissible(count, capacity);
      assert e.state.data == st.data[w := count + 1.0];
      forall s | Window(key, s) in e.state.data
        ensures Admissible(e.state.data[Window(key, s)], capacity)
      {
        if Window(key, s) != w {
          assert Window(key, s) in st.data;
        }
      }
    }
  }

  /** A capacity of 0 or less denies every call and changes nothing, as long
      as no counter of the key is negative. */
  lemma {:induction false} NoCapacityAlwaysDenies(st: State, key: string, capacity: int, size: real, clocks: seq<int>)
    requires size > 0.0 && capacity <= 0
    requires forall s :: Window(key, s) in st.data ==> st.data[Window(key, s)] >= 0.0
    ensures Replay(st, key, capacity, size, clocks) == Trace(st, seq(|clocks|, _ => Client.Denied))
  {
    if clocks != [] {
      NoCapacityAlwaysDenies(st, key, capacity, size, clocks[..|clocks| - 1]);
      var w := Window(key, WindowStart(clocks[|clocks| - 1], size));
      assert Count(st, w) >= 0.0;
      assert seq(|clocks|, _ => Client.Denied) == seq(|clocks| - 1, _ => Client.Denied) + [Client.Denied];
    }
  }

  /** Runs on one window never touch the counter of a later window. */
  lemma {:induction false} LaterWindowUntouched(st: State, key: string, capacity: int, size: real,
                                                 clocks: seq<int>, later: real)
    requires size > 0.0
    requires forall i :: 0 <= i < |clocks| ==> clocks[i] as real < later
    ensures Lookup(Replay(st, key, capacity, size, clocks).state.data, Window(key, later))
         == Lookup(st.data, Window(key, later))
  {
    if clocks != [] {
      LaterWindowUntouched(st, key, capacity, size, clocks[..|clocks| - 1], later);
    }
  }

  /** Window rollover: whatever was admitted or denied in earlier windows, a
      call in a window that has not been counted yet is admitted when the
      capacity is at least 1. */
  lemma Rollover(st: State, key: string, capacity: int, size: real, clocks: seq<int>, now: int)
    requires size > 0.0 && capacity >= 1
    requires Window(key, WindowStart(now, size)) !in st.data
    requires forall i :: 0 <= i < |clocks| ==> clocks[i] as real < WindowStart(now, size)
    ensures Apply(Replay(st, key, capacity, size, clocks).state, key, capacity, size, now).result == Client.Allowed
  {
    LaterWindowUntouched(st, key, capacity, size, clocks, WindowStart(now, size));
  }

  /** Runs on one key never touch the counters of another key. */
  lemma {:induction false} KeysIndependent(st: State, a: string, b: string, capacity: int, size: real,
                                            clocks: seq<int>, start: real)
    requires size > 0.0 && a != b
    ensures Lookup(Replay(st, a, capacity, size, clocks).state.data, Window(b, start))
         == Lookup(st.data, Window(b, start))
    ensures Lookup(Replay(st, a, capacity, size, clocks).state.ttl, Window(b, start))
         == Lookup(st.ttl, Window(b, start))
  {
    if clocks != [] {
      KeysIndependent(st, a, b, capacity, size, clocks[..|clocks| - 1], start);
    }
  }

  /** The script as the store runs it, step by step on the store's entries. */
  method Script(store: RedisStore, key: string, capacity: int, windowSize: real, now: int) returns (result: int)
    requires windowSize > 0.0
    modifies store
    ensures Effect(store.Snapshot(), result) == Apply(old(store.Snapshot()), key, capacity, windowSize, now)
  {
    var windowStart := WindowStart(now, windowSize);
    var windowKey := Window(key, windowStart);
    var stored := store.Get(windowKey);
    var count := stored.GetOr(0.0);
    if count < capacity as real {
      store.Incr(windowKey);
      store.Expire(windowKey, windowSize);
      result := Client.Allowed;
    } else {
      result := Client.Denied;
    }
  }

  /** What a blocking acquire promises: it runs the script once per
      store-clock reading until the first admission, its answers are those
      of `Replay` and its attempts and sleeps those of `Client.Outcome`,
      sleeping one window length after each denial. */
  ghost predicate Acquired(before: State, after: State, key: string, capacity: int, rate: real,
                           clocks: seq<int>, a: Client.Acquisition, results: seq<int>)
  {
    && a == Client.Outcome(results, WindowSize(rate))
    && |results| == a.attempts
    && |results| <= |clocks|
    && (|results| < |clocks| ==> Client.Allowed in results)
    && Replay(before, key, capacity, WindowSize(rate), clocks[..|results|]) == Trace(after, results)
  }

  class FixedWindowRateLimiter {
    const store: RedisStore

    constructor (store: RedisStore)
      ensures this.store == store
    {
      this.store := store;
    }

    /** Blocking acquire: retries after every denial, sleeping one window
        length. `clocks` are the store-clock readings at which the
        successive attempts run. */
    method AcquireToken(key: string, capacity: int, rate: real, clocks: seq<int>)
      returns (a: Client.Acquisition, ghost results: seq<int>)
      modifies store
      ensures Acquired(old(store.Snapshot()), store.Snapshot(), key, capacity, rate, clocks, a, results)
    {
      var windowSize := WindowSize(rate);
      results := [];
      var attempt := 0;
      var sleeps: seq<real> := [];
      while attempt < |clocks|
        invariant attempt == |results| <= |clocks|
        invariant forall i :: 0 <= i < |results| ==> results[i] != Client.Allowed
        invariant sleeps == seq(attempt, _ => windowSize)
        invariant Replay(old(store.Snapshot()), key, capacity, windowSize, clocks[..attempt])
               == Trace(store.Snapshot(), results)
      {
        var result := Script(store, key, capacity, windowSize, clocks[attempt]);
        assert clocks[..attempt + 1][..attempt] == clocks[..attempt];
        if result == Client.Allowed {
          Client.OutcomeAfterDenials(results, windowSize);
          results := results + [result];
          return Client.Acquisition(true, attempt + 1, sleeps), results;
        }
        results := results + [result];
        attempt := attempt + 1;
        sleeps := sleeps + [windowSize];
      }
      Client.OutcomeOfDenials(results, windowSize);
      a := Client.Acquisition(false, attempt, sleeps);
    }

    /** Non-blocking acquire: one run of the script at store-clock second
        `now`; true exactly when the counter of the current window was below
        capacity. */
    method TryAcquireToken(key: string, capacity: int, rate: real, now: int) returns (success: bool)
      modifies store
      ensures var e := Apply(old(store.Snapshot()), key, capacity, WindowSize(rate), now);
              store.Snapshot() == e.state && success == Client.Granted(e.result)
      ensures success <==>
                Count(old(store.Snapshot()), Window(key, WindowStart(now, WindowSize(rate)))) < capacity as real
    {
      var windowSize := WindowSize(rate);
      var result := Script(store, key, capacity, windowSize, now);
      success := Client.Granted(result);
    }
  }
}
