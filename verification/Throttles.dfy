/** The rate limiter and the circuit breaker as they run, with the clock as a parameter. */
module Throttles {
  import opened Seqs
  import opened Limits

  class RateLimiter {
    const pace: Pace
    var buckets: map<Caller, Bucket>

    constructor (perMinute: nat)
      ensures pace == PaceOf(perMinute) && buckets == map[]
    {
      pace := PaceOf(perMinute);
      buckets := map[];
    }

    function BucketOf(key: Caller): Option<Bucket> reads this { if key in buckets then Some(buckets[key]) else None }

    /** Answers one caller and leaves every other caller's bucket alone. */
    method Allow(key: Caller, now: real) returns (allowed: bool, wait: real)
      modifies this
      ensures var a := Ask(pace, old(BucketOf(key)), now);
              buckets == old(buckets)[key := a.bucket] && allowed == a.allowed && wait == a.wait
    {
      var tokens, last := pace.capacity, now;
      if key in buckets { tokens, last := buckets[key].tokens, buckets[key].last; }
      tokens := AtMost(pace.capacity, tokens + (now - last) * pace.rate);
      if tokens >= 1.0 {
        buckets := buckets[key := Bucket(tokens - 1.0, now)];
        return true, 0.0;
      }
      buckets := buckets[key := Bucket(tokens, now)];
      return false, if pace.rate != 0.0 then (1.0 - tokens) / pace.rate else 60.0;
    }
  }

  /** The breaker as an object, with the clock as a parameter. */
  class CircuitBreaker {
    const c: Circuit
    var failures: int
    var openedAt: Option<real>

    constructor (c: Circuit)
      requires c.threshold >= 1
      ensures this.c == c && State() == Breaker(0, None) && BreakerOk(c, State())
    {
      this.c := c;
      failures, openedAt := 0, None;
    }

    function State(): Breaker reads this { Breaker(failures, openedAt) }

    method Allow(now: real) returns (admitted: bool)
      requires BreakerOk(c, State())
      modifies this
      ensures (admitted, State()) == Admit(c, old(State()), now) && BreakerOk(c, State())
    {
      if openedAt.None? { return true; }
      if now - openedAt.value >= c.reset {
        openedAt, failures := None, c.threshold - 1;
        return true;
      }
      return false;
    }

    method Record(ok: bool, now: real)
      requires c.threshold >= 1
      modifies this
      ensures State() == Note(c, old(State()), ok, now)
      ensures old(openedAt).None? ==> BreakerOk(c, State())
    {
      if ok {
        failures, openedAt := 0, None;
        return;
      }
      failures := failures + 1;
      if failures >= c.threshold { openedAt := Some(now); }
    }
  }

  /** `complete` over an arbitrary endpoint: `answers[i]` says whether attempt `i` succeeds, and
      `turn.noted[i]` when the breaker records it. */
  method Complete(breaker: CircuitBreaker, turn: Turn, answers: seq<bool>) returns (ok: bool, calls: nat)
    requires BreakerOk(breaker.c, breaker.State()) && breaker.c.threshold >= 1
    requires |answers| == breaker.c.retries + 1 && |turn.noted| == |answers|
    modifies breaker
    ensures BreakerOk(breaker.c, breaker.State()) && calls <= breaker.c.retries + 1
    ensures ok <==> calls > 0 && answers[calls - 1]
    ensures ok ==> breaker.State() == Breaker(0, None)
    ensures forall i :: 0 <= i < calls - 1 ==> !answers[i]
    ensures (forall i :: 0 <= i < |answers| ==> !answers[i]) ==> (calls, breaker.State()) == Outage(breaker.c, old(breaker.State()), turn)
    ensures !ok && breaker.openedAt.Some? && calls > 0 ==> breaker.openedAt.value == turn.noted[calls - 1]
  {
    calls := 0;
    var admitted := breaker.Allow(turn.asked);
    if !admitted { return false, 0; }
    ghost var half := breaker.State();
    while calls < |answers|
      invariant calls <= |answers| && breaker.openedAt.None? && BreakerOk(breaker.c, breaker.State())
      invariant forall i :: 0 <= i < calls ==> !answers[i]
      invariant var (n, s) := Failing(breaker.c, breaker.State(), turn.noted[calls..]);
                Failing(breaker.c, half, turn.noted) == (calls + n, s)
    {
      assert turn.noted[calls..][0] == turn.noted[calls] && turn.noted[calls..][1..] == turn.noted[calls + 1..];
      if answers[calls] {
        breaker.Record(true, turn.noted[calls]);
        return true, calls + 1;
      }
      breaker.Record(false, turn.noted[calls]);
      calls := calls + 1;
      if breaker.openedAt.Some? { return false, calls; }
    }
    return false, calls;
  }
}
