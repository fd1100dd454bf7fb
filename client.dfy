/**
 What the client library does with a script's answer: the non-blocking entry
 point maps it to a boolean, and the blocking entry point retries after every
 denial, sleeping a fixed interval in between.
 */
module Client {

  /** The two values a decision script returns. */
  const Allowed: int := 0
  const Denied: int := 1

  /** The non-blocking path's reading of a script result: `int(result) == 0`.
      It agrees with the blocking loop: a single attempt with this answer
      either acquires at once or ends with one sleep. */
  predicate Granted(result: int)
    ensures forall interval :: Outcome([result], interval)
                            == if Granted(result) then Acquisition(true, 1, [])
                               else Acquisition(false, 1, [interval])
  {
    result == Allowed
  }

  /** What a blocking acquire did: whether it got a permit, how many times it
      ran the script, and the length of every sleep, in order. */
  datatype Acquisition = Acquisition(acquired: bool, attempts: nat, sleeps: seq<real>)

  /** The errors a blocking acquire can raise before it reaches the store. */
  datatype Error = ZeroDivisionError

  datatype Result<T> = Success(value: T) | Failure(error: Error)

  /** Reference behaviour of the retry loop when the script answers with
      `results`, one per attempt: stop at the first allowed answer, and sleep
      `interval` after every denial. If `results` runs out first, the loop is
      still waiting (the real loop has no bound). */
  function Outcome(results: seq<int>, interval: real): (r: Acquisition)
    ensures r.attempts <= |results|
    ensures r.acquired <==> Allowed in results
    ensures r.acquired ==> 0 < r.attempts && results[r.attempts - 1] == Allowed
    ensures !r.acquired ==> r.attempts == |results|
    ensures forall i :: 0 <= i < r.attempts - 1 ==> results[i] != Allowed
    ensures |r.sleeps| == if r.acquired then r.attempts - 1 else r.attempts
    ensures forall i :: 0 <= i < |r.sleeps| ==> r.sleeps[i] == interval
  {
    if results == [] then Acquisition(false, 0, [])
    else if results[0] == Allowed then Acquisition(true, 1, [])
    else
      var rest := Outcome(results[1..], interval);
      Acquisition(rest.acquired, rest.attempts + 1, [interval] + rest.sleeps)
  }

  /** A run of denials followed by one allowed answer: one attempt per answer
      and one sleep per denial. */
  lemma {:induction false} OutcomeAfterDenials(denials: seq<int>, interval: real)
    requires forall i :: 0 <= i < |denials| ==> denials[i] != Allowed
    ensures Outcome(denials + [Allowed], interval)
         == Acquisition(true, |denials| + 1, seq(|denials|, _ => interval))
  {
    if denials != [] {
      assert (denials + [Allowed])[1..] == denials[1..] + [Allowed];
      OutcomeAfterDenials(denials[1..], interval);
    }
  }

  /** Only denials: every answer is an attempt followed by a sleep. */
  lemma {:induction false} OutcomeOfDenials(denials: seq<int>, interval: real)
    requires forall i :: 0 <= i < |denials| ==> denials[i] != Allowed
    ensures Outcome(denials, interval)
         == Acquisition(false, |denials|, seq(|denials|, _ => interval))
  {
    if denials != [] {
      OutcomeOfDenials(denials[1..], interval);
    }
  }

  /** Denied, denied, allowed: three script calls and two sleeps. */
  lemma DeniedTwiceThenAllowed(interval: real)
    ensures Outcome([Denied, Denied, Allowed], interval)
         == Acquisition(true, 3, [interval, interval])
  {
    OutcomeAfterDenials([Denied, Denied], interval);
    assert [Denied, Denied] + [Allowed] == [Denied, Denied, Allowed];
  }

  function MinNat(a: nat, b: nat): nat {
    if b < a then b else a
  }

  /** The number of allowed answers in a sequence of script results. */
  function CountAllowed(results: seq<int>): (n: nat)
    ensures n <= |results|
    ensures n == 0 <==> Allowed !in results
  {
    if results == [] then 0
    else CountAllowed(results[..|results| - 1]) + (if results[|results| - 1] == Allowed then 1 else 0)
  }

  /** The answers `c` allowed and then denied contain min(k, c) allowed ones. */
  lemma {:induction false} CountPrefixAllowed(k: nat, c: nat)
    ensures CountAllowed(seq(k, i => if i < c then Allowed else Denied)) == MinNat(k, c)
  {
    if k > 0 {
      var rs := seq(k, i => if i < c then Allowed else Denied);
      assert rs[..k - 1] == seq(k - 1, i => if i < c then Allowed else Denied);
      CountPrefixAllowed(k - 1, c);
    }
  }
}
