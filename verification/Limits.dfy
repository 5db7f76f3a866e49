/** The token bucket before the service and the circuit breaker before the model. */
module Limits {
  import opened Seqs

  // ---------------------------------------------------------------- token bucket

  type Caller = string

  datatype Bucket = Bucket(tokens: real, last: real)

  /** Tokens a bucket may hold, and tokens it gains a second. */
  datatype Pace = Pace(capacity: real, rate: real)

  function PaceOf(perMinute: nat): Pace { Pace(perMinute as real, perMinute as real / 60.0) }

  function AtMost(a: real, b: real): real { if a <= b then a else b }

  /** What a bucket holds at `now`; an unknown caller has a full one, last seen now. */
  function Refilled(p: Pace, b: Option<Bucket>, now: real): real {
    match b
    case None => AtMost(p.capacity, p.capacity)
    case Some(k) => AtMost(p.capacity, k.tokens + (now - k.last) * p.rate)
  }

  datatype Answer = Answer(bucket: Bucket, allowed: bool, wait: real)

  /** `allow`, for one caller. */
  function Ask(p: Pace, b: Option<Bucket>, now: real): Answer {
    var tokens := Refilled(p, b, now);
    if tokens >= 1.0 then Answer(Bucket(tokens - 1.0, now), true, 0.0)
    else Answer(Bucket(tokens, now), false, if p.rate != 0.0 then (1.0 - tokens) / p.rate else 60.0)
  }

  ghost predicate BucketOk(p: Pace, b: Option<Bucket>, now: real) {
    b.Some? ==> 0.0 <= b.value.tokens <= p.capacity && b.value.last <= now
  }

  ghost predicate PaceOk(p: Pace) { p.capacity >= 0.0 && p.rate >= 0.0 }

  ghost predicate Clock(times: seq<real>) { forall i, j :: 0 <= i < j < |times| ==> times[i] <= times[j] }

  function Bucketed(p: Pace, b: Option<Bucket>, times: seq<real>): Option<Bucket>
    decreases |times|
  {
    if times == [] then b else Bucketed(p, Some(Ask(p, b, times[0]).bucket), times[1..])
  }

  /** How many of one caller's calls are allowed. */
  function Granted(p: Pace, b: Option<Bucket>, times: seq<real>): nat
    decreases |times|
  {
    if times == [] then 0 else
      var a := Ask(p, b, times[0]);
      (if a.allowed then 1 else 0) + Granted(p, Some(a.bucket), times[1..])
  }

  lemma Products(a: real, b: real)
    requires a >= 0.0 && b >= 0.0
    ensures a * b >= 0.0
  {
  }

  /** A bucket never holds less than nothing nor more than its capacity. */
  lemma AskKeepsBucket(p: Pace, b: Option<Bucket>, now: real)
    requires PaceOk(p) && BucketOk(p, b, now)
    ensures 0.0 <= Refilled(p, b, now) <= p.capacity && BucketOk(p, Some(Ask(p, b, now).bucket), now)
  {
    if b.Some? { Products(now - b.value.last, p.rate); }
  }

  /** Calls of one caller in an interval take no more than what the bucket held at its first
      call and gained until its last. */
  lemma {:induction false} GrantsArePaidFor(p: Pace, b: Option<Bucket>, times: seq<real>, end: real)
    requires PaceOk(p) && Clock(times) && times != [] && BucketOk(p, b, times[0]) && times[|times| - 1] == end
    ensures Granted(p, b, times) as real <= Refilled(p, b, times[0]) + Gain(p, times[0], end)
    decreases |times|
  {
    AskKeepsBucket(p, b, times[0]);
    var a, rest := Ask(p, b, times[0]), times[1..];
    if rest == [] {
      assert Granted(p, Some(a.bucket), rest) == 0;
    } else {
      assert times[0] <= times[1] && rest[0] == times[1] && rest[|rest| - 1] == end;
      assert Clock(rest);
      GrantsArePaidFor(p, Some(a.bucket), rest, end);
      GrantStep(p, b, a, times[0], rest[0], end, Granted(p, Some(a.bucket), rest));
    }
  }

  /** What a bucket gains between two times. */
  function Gain(p: Pace, from: real, until: real): real { (until - from) * p.rate }

  lemma GrantStep(p: Pace, b: Option<Bucket>, a: Answer, t: real, next: real, end: real, later: nat)
    requires PaceOk(p) && a == Ask(p, b, t) && t <= next
    requires later as real <= Refilled(p, Some(a.bucket), next) + Gain(p, next, end)
    ensures (if a.allowed then 1 else 0) as real + later as real <= Refilled(p, b, t) + Gain(p, t, end)
  {
    Distribute(end, next, t, p.rate);
  }

  lemma Distribute(c: real, b: real, a: real, r: real)
    ensures (c - a) * r == (c - b) * r + (b - a) * r
  {
  }

  /** Over any interval, whatever came before, a caller is allowed at most the capacity and what
      the interval adds. */
  lemma IntervalsAreBounded(p: Pace, b: Option<Bucket>, before: seq<real>, times: seq<real>)
    requires PaceOk(p) && Clock(before + times) && times != [] && BucketOk(p, b, (before + times)[0])
    ensures Granted(p, Bucketed(p, b, before), times) as real <= p.capacity + Gain(p, times[0], times[|times| - 1])
  {
    assert before + [times[0]] == (before + times)[..|before| + 1];
    BucketsStayOk(p, b, before, times[0]);
    assert Clock(times) by {
      forall i, j | 0 <= i < j < |times| ensures times[i] <= times[j] {
        assert (before + times)[|before| + i] <= (before + times)[|before| + j];
      }
    }
    GrantsArePaidFor(p, Bucketed(p, b, before), times, times[|times| - 1]);
    AskKeepsBucket(p, Bucketed(p, b, before), times[0]);
  }

  lemma {:induction false} BucketsStayOk(p: Pace, b: Option<Bucket>, times: seq<real>, now: real)
    requires PaceOk(p) && Clock(times + [now]) && BucketOk(p, b, (times + [now])[0])
    ensures BucketOk(p, Bucketed(p, b, times), now)
    decreases |times|
  {
    if times != [] {
      var all := times + [now];
      AskKeepsBucket(p, b, times[0]);
      assert (times[1..] + [now]) == all[1..];
      assert all[0] <= all[1];
      BucketsStayOk(p, Some(Ask(p, b, times[0]).bucket), times[1..], now);
    }
  }

  ghost predicate Spaced(p: Pace, times: seq<real>) {
    forall i :: 0 <= i < |times| - 1 ==> (times[i + 1] - times[i]) * p.rate >= 1.0
  }

  /** A caller who waits for one token between calls is never denied. */
  lemma {:induction false} SpacedCallersAreServed(p: Pace, b: Option<Bucket>, times: seq<real>)
    requires PaceOk(p) && p.capacity >= 1.0 && Spaced(p, times)
    requires b.Some? && times != [] ==> b.value.tokens >= 0.0 && (times[0] - b.value.last) * p.rate >= 1.0
    ensures Granted(p, b, times) == |times|
    decreases |times|
  {
    if times != [] {
      var a := Ask(p, b, times[0]);
      if b.Some? { assert Refilled(p, b, times[0]) == AtMost(p.capacity, b.value.tokens + (times[0] - b.value.last) * p.rate); }
      assert Refilled(p, b, times[0]) >= 1.0;
      forall i | 0 <= i < |times[1..]| - 1 ensures (times[1..][i + 1] - times[1..][i]) * p.rate >= 1.0 {
        assert (times[i + 2] - times[i + 1]) * p.rate >= 1.0;
      }
      SpacedCallersAreServed(p, Some(a.bucket), times[1..]);
    }
  }

  /** After waiting as long as a denial says, and no longer, the next call is allowed. */
  lemma RetryAfterWaitSucceeds(p: Pace, b: Option<Bucket>, now: real)
    requires p.capacity >= 1.0 && p.rate > 0.0 && !Ask(p, b, now).allowed
    ensures var a := Ask(p, b, now); a.wait > 0.0 && Ask(p, Some(a.bucket), now + a.wait).allowed
  {
    var a := Ask(p, b, now);
    assert a.wait * p.rate == 1.0 - a.bucket.tokens;
    assert (now + a.wait - a.bucket.last) * p.rate == a.wait * p.rate;
  }

  /** So many calls at once. */
  function Burst(now: real, k: nat): seq<real> { seq(k, i requires 0 <= i < k => now) }

  lemma BurstStep(p: Pace, b: Option<Bucket>, now: real, k: nat)
    requires k > 0
    ensures var a := Ask(p, b, now);
            && Granted(p, b, Burst(now, k)) == (if a.allowed then 1 else 0) + Granted(p, Some(a.bucket), Burst(now, k - 1))
            && Bucketed(p, b, Burst(now, k)) == Bucketed(p, Some(a.bucket), Burst(now, k - 1))
  {
    assert Burst(now, k)[1..] == Burst(now, k - 1);
  }

  /** Of calls made at once as many are allowed as there are whole tokens, and each costs one. */
  lemma {:induction false} BurstsSpendTokens(p: Pace, b: Option<Bucket>, now: real, k: nat)
    requires PaceOk(p) && BucketOk(p, b, now)
    ensures Granted(p, b, Burst(now, k)) == if k <= Refilled(p, b, now).Floor then k else Refilled(p, b, now).Floor
    ensures k > 0 ==>
      Bucketed(p, b, Burst(now, k)) == Some(Bucket(Refilled(p, b, now) - Granted(p, b, Burst(now, k)) as real, now))
    decreases k
  {
    AskKeepsBucket(p, b, now);
    if k > 0 {
      var a := Ask(p, b, now);
      BurstStep(p, b, now, k);
      AtOnce(p, a.bucket, now);
      AskKeepsBucket(p, Some(a.bucket), now);
      BurstsSpendTokens(p, Some(a.bucket), now, k - 1);
      if k == 1 { assert Bucketed(p, Some(a.bucket), Burst(now, 0)) == Some(a.bucket); }
    }
  }

  /** No time, no gain. */
  lemma AtOnce(p: Pace, b: Bucket, now: real)
    requires b.tokens <= p.capacity && now == b.last
    ensures Refilled(p, Some(b), now) == b.tokens
  {
    NoGain(now - b.last, p.rate);
    assert Refilled(p, Some(b), now) == AtMost(p.capacity, b.tokens + (now - b.last) * p.rate);
  }

  lemma NoGain(passed: real, rate: real)
    requires passed == 0.0
    ensures passed * rate == 0.0
  {
  }

  lemma MinuteOf(n: real)
    requires n > 0.0
    ensures 60.0 * (n / 60.0) == n && (60.0 / n) * (n / 60.0) == 1.0
  {
    Regrouped(60.0 / n, n / 60.0, 60.0, n);
  }

  lemma Regrouped(y: real, x: real, c: real, n: real)
    requires c != 0.0 && n == x * c && y * n == c
    ensures y * x == 1.0
  {
    assert (y * x) * c == y * (x * c);
  }

  /** What the setting says: a caller not seen before may make that many calls at once and no more;
      one more is due a sixtieth of that many seconds later, and all of them after a minute. */
  lemma PerMinute(n: nat, t: real, k: nat)
    requires n > 0 && k >= n
    ensures Granted(PaceOf(n), None, Burst(t, k)) == n
    ensures var b := Bucketed(PaceOf(n), None, Burst(t, k));
            && Granted(PaceOf(n), b, Burst(t, 1)) == 0
            && Granted(PaceOf(n), b, Burst(t + 60.0 / n as real, k)) == 1
            && Granted(PaceOf(n), b, Burst(t + 60.0, k)) == n
  {
    var p, b := PaceOf(n), Bucketed(PaceOf(n), None, Burst(t, k));
    BurstsSpendTokens(p, None, t, k);
    MinuteOf(n as real);
    SpentBucket(p, t, 0.0, 1, 0);
    SpentBucket(p, t, 60.0 / n as real, k, 1);
    SpentBucket(p, t, 60.0, k, n);
  }

  /** What an empty bucket allows some time later. */
  lemma SpentBucket(p: Pace, t: real, passed: real, k: nat, whole: nat)
    requires PaceOk(p) && passed >= 0.0 && passed * p.rate == whole as real && whole as real <= p.capacity && k >= whole
    ensures Granted(p, Some(Bucket(0.0, t)), Burst(t + passed, k)) == whole
  {
    Regained(p, t, passed, t + passed, whole as real);
    BurstsSpendTokens(p, Some(Bucket(0.0, t)), t + passed, k);
  }

  lemma Regained(p: Pace, t: real, passed: real, now: real, gain: real)
    requires now - t == passed && passed * p.rate == gain && gain <= p.capacity
    ensures Refilled(p, Some(Bucket(0.0, t)), now) == gain
  {
  }

  // ---------------------------------------------------------------- circuit breaker

  datatype Breaker = Breaker(failures: int, openedAt: Option<real>)

  datatype Circuit = Circuit(threshold: int, reset: real, retries: nat)

  ghost predicate BreakerOk(c: Circuit, s: Breaker) { s.openedAt.None? ==> s.failures < c.threshold }

  /** `allow`: whether a call may go through, half-open once the reset time is over. */
  function Admit(c: Circuit, s: Breaker, now: real): (bool, Breaker) {
    match s.openedAt
    case None => (true, s)
    case Some(o) => if now - o >= c.reset then (true, Breaker(c.threshold - 1, None)) else (false, s)
  }

  /** A breaker denies exactly while it is open and the reset time is not over; denied, it stays as
      it is, and admitted half-open, one more failure opens it again and one success closes it. */
  lemma AdmitMeaning(c: Circuit, s: Breaker, now: real)
    requires c.threshold >= 1
    ensures var (admitted, next) := Admit(c, s, now);
            && (admitted <==> s.openedAt.None? || s.openedAt.value + c.reset <= now)
            && (!admitted || s.openedAt.None? ==> next == s)
            && (admitted ==> next.openedAt.None? && Note(c, next, true, now) == Breaker(0, None))
            && (admitted && s.openedAt.Some? ==> Note(c, next, false, now).openedAt == Some(now))
  {
  }

  /** `record`. */
  function Note(c: Circuit, s: Breaker, ok: bool, now: real): Breaker {
    if ok then Breaker(0, None)
    else Breaker(s.failures + 1, if s.failures + 1 >= c.threshold then Some(now) else s.openedAt)
  }

  /** The calls one `complete` makes from an admitted state while every call fails; the breaker
      notes the failure of each attempt at that attempt's own time. */
  function Failing(c: Circuit, s: Breaker, noted: seq<real>): (nat, Breaker)
    decreases |noted|
  {
    if noted == [] then (0, s) else
      var n := Note(c, s, false, noted[0]);
      if n.openedAt.Some? then (1, n)
      else var (calls, last) := Failing(c, n, noted[1..]); (calls + 1, last)
  }

  /** `complete` over an endpoint that always fails. */
  function Outage(c: Circuit, s: Breaker, turn: Turn): (nat, Breaker) {
    var (admitted, half) := Admit(c, s, turn.asked);
    if admitted then Failing(c, half, turn.noted) else (0, s)
  }

  /** One asking of a failing endpoint, and when the failure of each attempt would be noted. */
  datatype Turn = Turn(asked: real, noted: seq<real>)

  function End(turn: Turn): real { if turn.noted == [] then turn.asked else turn.noted[|turn.noted| - 1] }

  /** One attempt and its retries, each noted no earlier than the one before. */
  ghost predicate TurnOk(c: Circuit, turn: Turn) {
    && |turn.noted| == c.retries + 1
    && (forall i :: 0 <= i < |turn.noted| ==> turn.asked <= turn.noted[i])
    && Rising(turn.noted)
  }

  ghost predicate InTime(c: Circuit, turns: seq<Turn>, from: real, until: real) {
    && (forall i :: 0 <= i < |turns| ==> TurnOk(c, turns[i]) && from <= turns[i].asked && End(turns[i]) <= until)
    && (forall i, j :: 0 <= i < j < |turns| ==> End(turns[i]) <= turns[j].asked)
  }

  function CallsMade(c: Circuit, s: Breaker, turns: seq<Turn>): nat
    decreases |turns|
  {
    if turns == [] then 0 else
      var (calls, next) := Outage(c, s, turns[0]);
      calls + CallsMade(c, next, turns[1..])
  }

  /** What one `complete` costs in an outage, and when the breaker opens. */
  lemma {:induction false} FailingMeaning(c: Circuit, s: Breaker, noted: seq<real>)
    requires c.threshold >= 1 && s.openedAt.None? && s.failures < c.threshold
    ensures var (calls, last) := Failing(c, s, noted);
            var left := c.threshold - s.failures;
            if |noted| < left then calls == |noted| && last == Breaker(s.failures + |noted|, None)
            else calls == left && last == Breaker(c.threshold, Some(noted[left - 1]))
    decreases |noted|
  {
    if noted != [] && s.failures + 1 < c.threshold { FailingMeaning(c, Note(c, s, false, noted[0]), noted[1..]); }
  }

  /** The calls a breaker still lets through until `until`. */
  function Allowance(c: Circuit, s: Breaker, from: real, until: real): real
    requires c.reset > 0.0
  {
    match s.openedAt
    case None => (c.threshold - s.failures) as real + (until - from) / c.reset
    case Some(o) => (until - o) / c.reset
  }

  lemma Shorter(a: real, b: real, r: real)
    requires a <= b && r > 0.0
    ensures a / r <= b / r
  {
  }

  lemma OneProbe(o: real, u: real, until: real, r: real)
    requires r > 0.0 && u - o >= r
    ensures 1.0 + (until - u) / r <= (until - o) / r
  {
    assert (until - u) / r + (u - o) / r == (until - o) / r;
    Shorter(r, u - o, r);
  }

  lemma TurnCosts(c: Circuit, s: Breaker, turn: Turn, from: real, until: real)
    requires c.threshold >= 1 && c.reset > 0.0 && BreakerOk(c, s)
    requires TurnOk(c, turn) && from <= turn.asked && End(turn) <= until
    requires s.openedAt.Some? ==> s.openedAt.value <= from
    ensures var (calls, next) := Outage(c, s, turn);
            && BreakerOk(c, next) && (next.openedAt.Some? ==> next.openedAt.value <= End(turn))
            && calls as real + Allowance(c, next, End(turn), until) <= Allowance(c, s, from, until)
  {
    var (admitted, half) := Admit(c, s, turn.asked);
    if admitted {
      FailingMeaning(c, half, turn.noted);
      Shorter(until - End(turn), until - from, c.reset);
      var left := c.threshold - half.failures;
      if left <= |turn.noted| {
        Shorter(until - turn.noted[left - 1], until - from, c.reset);
        if s.openedAt.Some? { OneProbe(s.openedAt.value, turn.noted[left - 1], until, c.reset); }
      }
    }
  }

  /** Main result: while the endpoint is down, a breaker that was closed lets through no more
      than its threshold and one probe for each reset time, however often it is asked. */
  lemma {:induction false} OutageCallsAreBounded(c: Circuit, s: Breaker, turns: seq<Turn>, from: real, until: real)
    requires c.threshold >= 1 && c.reset > 0.0 && BreakerOk(c, s) && from <= until && InTime(c, turns, from, until)
    requires s.openedAt.Some? ==> s.openedAt.value <= from
    ensures CallsMade(c, s, turns) as real <= Allowance(c, s, from, until)
    decreases |turns|
  {
    if turns == [] {
      Shorter(0.0, until - from, c.reset);
      if s.openedAt.Some? { Shorter(0.0, until - s.openedAt.value, c.reset); }
    } else {
      TurnCosts(c, s, turns[0], from, until);
      var (calls, next) := Outage(c, s, turns[0]);
      OutageCallsAreBounded(c, next, turns[1..], End(turns[0]), until);
    }
  }
}
