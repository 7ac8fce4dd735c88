/** The token bucket in front of the public API (internal/server/public_api.go). */
module RateLimiter {
  // Nanoseconds since Go's zero time, which is 0.
  type Time = int

  const DEFAULT_RATE := 100.0
  const SECOND := 1_000_000_000.0

  datatype Bucket = Bucket(rate: real, burst: real, tokens: real, last: Time)

  predicate Valid(b: Bucket) {
    0.0 < b.rate && 1.0 <= b.burst && 0.0 <= b.tokens <= b.burst
  }

  function Min(x: real, y: real): real {
    if x < y then x else y
  }

  function Ceil(x: real): int {
    if x.Floor as real == x then x.Floor else x.Floor + 1
  }

  function New(rate: real, burst: int): (b: Bucket)
    ensures Valid(b) && b.tokens == b.burst && b.last == 0
  {
    var r := if rate <= 0.0 then DEFAULT_RATE else rate;
    var n := if burst <= 0 then Ceil(r) else burst;
    Bucket(r, n as real, n as real, 0)
  }

  // What the passing of time since the last call adds.
  function Earned(b: Bucket, now: Time): real {
    (now - b.last) as real / SECOND * b.rate
  }

  function Refill(b: Bucket, now: Time): Bucket {
    if b.last == 0 then b.(last := now)
    else if now > b.last then b.(tokens := Min(b.burst, b.tokens + Earned(b, now)), last := now)
    else b
  }

  predicate Admits(b: Bucket, now: Time) {
    Refill(b, now).tokens >= 1.0
  }

  function Step(b: Bucket, now: Time): Bucket {
    var r := Refill(b, now);
    if Admits(b, now) then r.(tokens := r.tokens - 1.0) else r
  }

  /** How many of the calls are admitted. */
  function Admitted(b: Bucket, calls: seq<Time>): nat
    decreases |calls|
  {
    if calls == [] then 0
    else (if Admits(b, calls[0]) then 1 else 0) + Admitted(Step(b, calls[0]), calls[1..])
  }

  function After(b: Bucket, calls: seq<Time>): Bucket
    decreases |calls|
  {
    if calls == [] then b else After(Step(b, calls[0]), calls[1..])
  }

  /** The latest time the limiter had seen when the stretch began; for a new limiter, that of the first call. */
  function Begin(b: Bucket, calls: seq<Time>): Time {
    if b.last == 0 && calls != [] then calls[0] else b.last
  }

  lemma StepKeeps(b: Bucket, now: Time)
    requires Valid(b)
    ensures Valid(Step(b, now))
    ensures b.last != 0 ==> Step(b, now).last == if now > b.last then now else b.last
    ensures b.last == 0 ==> Step(b, now).last == now
    ensures Step(b, now).rate == b.rate && Step(b, now).burst == b.burst
  {}

  /** For every sequence of calls, also with a clock that goes backwards, the tokens stay between 0 and burst. */
  lemma {:induction false} TokensStayInRange(b: Bucket, calls: seq<Time>)
    requires Valid(b)
    ensures Valid(After(b, calls)) && After(b, calls).rate == b.rate && After(b, calls).burst == b.burst
    decreases |calls|
  {
    if calls != [] {
      StepKeeps(b, calls[0]);
      TokensStayInRange(Step(b, calls[0]), calls[1..]);
    }
  }

  /** The time a limiter remembers is the latest it has seen. */
  lemma {:induction false} RemembersLatest(b: Bucket, calls: seq<Time>)
    requires Valid(b) && b.last >= 0 && calls != [] && forall t | t in calls :: t > 0
    ensures var end := After(b, calls).last;
      && Begin(b, calls) <= end && (forall t | t in calls :: t <= end) && (end == b.last || end in calls)
    decreases |calls|
  {
    var next := Step(b, calls[0]);
    StepKeeps(b, calls[0]);
    assert calls[0] in calls && calls == [calls[0]] + calls[1..];
    if calls[1..] != [] {
      assert forall t | t in calls[1..] :: t in calls;
      RemembersLatest(next, calls[1..]);
    } else {
      assert After(next, []) == next;
    }
  }

  // What a stretch of calls can earn at most.
  function Allowance(b: Bucket, from: Time, end: Time): real {
    b.rate * ((end - from) as real / SECOND)
  }

  lemma AllowanceAdds(b: Bucket, x: Time, y: Time, z: Time)
    ensures Allowance(b, x, y) + Allowance(b, y, z) == Allowance(b, x, z)
  {}

  /** One call spends what it admits out of the tokens there were and what was earned. */
  lemma OneCall(b: Bucket, now: Time)
    requires Valid(b)
    ensures Step(b, now).tokens + (if Admits(b, now) then 1.0 else 0.0)
            <= b.tokens + Allowance(b, if b.last == 0 then now else b.last, Step(b, now).last)
  {}

  lemma {:induction false} Spending(b: Bucket, calls: seq<Time>)
    requires Valid(b) && b.last >= 0 && calls != [] && forall t | t in calls :: t > 0
    ensures After(b, calls).tokens + Admitted(b, calls) as real <= b.tokens + Allowance(b, Begin(b, calls), After(b, calls).last)
    decreases |calls|
  {
    var now, next := calls[0], Step(b, calls[0]);
    StepKeeps(b, now);
    OneCall(b, now);
    assert now in calls;
    if calls[1..] == [] {
      assert Admitted(next, []) == 0 && After(next, []) == next;
      assert calls == [now];
    } else {
      assert forall t | t in calls[1..] :: t in calls;
      Spending(next, calls[1..]);
      var end := After(b, calls).last;
      assert Begin(next, calls[1..]) == next.last;
      AllowanceAdds(b, Begin(b, calls), next.last, end);
      SameRate(b, next, next.last, end);
    }
  }

  lemma SameRate(a: Bucket, b: Bucket, x: Time, y: Time)
    requires a.rate == b.rate
    ensures Allowance(a, x, y) == Allowance(b, x, y)
  {
  }

  /**
   * In every contiguous stretch of calls the number admitted is at most the
   * burst plus the rate times the advance of the latest time seen, whatever the
   * clock does in between.
   */
  lemma {:induction false} AdmissionBound(rate: real, burst: int, before: seq<Time>, calls: seq<Time>)
    requires calls != [] && (forall t | t in before :: t > 0) && (forall t | t in calls :: t > 0)
    ensures var limiter := New(rate, burst); var b := After(limiter, before);
      Admitted(b, calls) as real <= limiter.burst + Allowance(limiter, Begin(b, calls), After(b, calls).last)
  {
    var limiter := New(rate, burst);
    TokensStayInRange(limiter, before);
    var b := After(limiter, before);
    if before != [] { RemembersLatest(limiter, before); }
    Spending(b, calls);
    TokensStayInRange(b, calls);
    SameRate(limiter, b, Begin(b, calls), After(b, calls).last);
    hide New, After, Admitted, Allowance, Begin;
  }

  /** A full bucket admits a burst at once, and not one call more. */
  lemma {:induction false} BurstAtOnce(b: Bucket, now: Time, calls: seq<Time>)
    requires Valid(b) && b.last == now > 0 && (forall t | t in calls :: t == now)
    ensures Admitted(b, calls) == if |calls| <= b.tokens.Floor then |calls| else b.tokens.Floor
    decreases |calls|
  {
    if calls != [] {
      assert calls[0] in calls && forall t | t in calls[1..] :: t in calls;
      StepKeeps(b, calls[0]);
      BurstAtOnce(Step(b, calls[0]), now, calls[1..]);
    }
  }

  // What a caller gets.

  /** The tokens there are at a time: what was left, and what time has brought since, up to the burst. */
  function Available(b: Bucket, now: Time): real {
    var brought := if b.last != 0 && b.last < now then b.rate * ((now - b.last) as real / 1_000_000_000.0) else 0.0;
    if b.tokens + brought > b.burst then b.burst else b.tokens + brought
  }

  /** A call is admitted exactly when a whole token is there, and takes it; the clock is only ever moved forward. */
  lemma CallExactly(b: Bucket, now: Time)
    requires Valid(b)
    ensures Admits(b, now) <==> Available(b, now) >= 1.0
    ensures Step(b, now) == b.(tokens := if Available(b, now) >= 1.0 then Available(b, now) - 1.0 else Available(b, now),
                               last := if b.last == 0 || now > b.last then now else b.last)
  {}

  /** A new limiter admits `rate` calls a second, 100 unless told otherwise, and holds a full burst, by default the next whole number. */
  lemma NewExactly(rate: real, burst: int)
    ensures var b := New(rate, burst);
      && b.rate == (if rate > 0.0 then rate else 100.0) && b.tokens == b.burst && b.last == 0
      && (burst > 0 ==> b.burst == burst as real)
      && (burst <= 0 ==> b.burst - 1.0 < b.rate <= b.burst && b.burst == b.burst.Floor as real)
  {}

  /**
   * However long the limiter was idle, calls made together are admitted up to
   * the whole tokens available then, and not one more.
   */
  lemma {:induction false} AdmittedTogether(b: Bucket, now: Time, calls: seq<Time>)
    requires Valid(b) && now > 0 && b.last >= 0 && (forall t | t in calls :: t == now)
    ensures Admitted(b, calls) == if |calls| <= Available(b, now).Floor then |calls| else Available(b, now).Floor
    decreases |calls|
  {
    if calls != [] {
      assert calls[0] in calls && forall t | t in calls[1..] :: t in calls;
      StepKeeps(b, now);
      CallExactly(b, now);
      NothingBrought(Step(b, now), now);
      OneLess(Available(b, now));
      hide Step, Admits, Available, Valid;
      AdmittedTogether(Step(b, now), now, calls[1..]);
    }
  }

  lemma OneLess(x: real)
    ensures (x - 1.0).Floor == x.Floor - 1 && (x >= 1.0 <==> x.Floor >= 1)
  {}

  lemma NothingBrought(b: Bucket, now: Time)
    requires Valid(b) && b.last >= now
    ensures Available(b, now) == b.tokens
  {}

  // Each call comes long enough after the one before to have earned a token.
  predicate Spaced(last: Time, calls: seq<Time>, rate: real)
    decreases |calls|
  {
    calls == [] || ((calls[0] - last) as real * rate >= 1_000_000_000.0 && Spaced(calls[0], calls[1..], rate))
  }

  /** Calls at least a second divided by the rate apart are all admitted, for ever. */
  lemma {:induction false} SpacedCallsAreAdmitted(b: Bucket, calls: seq<Time>)
    requires Valid(b) && b.last > 0 && Spaced(b.last, calls, b.rate)
    ensures Admitted(b, calls) == |calls|
    decreases |calls|
  {
    if calls != [] {
      var now := calls[0];
      Earns(now - b.last, b.rate);
      CallExactly(b, now);
      StepKeeps(b, now);
      hide Step, Admits;
      SpacedCallsAreAdmitted(Step(b, now), calls[1..]);
    }
  }

  lemma Earns(gap: int, rate: real)
    requires rate > 0.0 && gap as real * rate >= 1_000_000_000.0
    ensures gap > 0 && rate * (gap as real / 1_000_000_000.0) >= 1.0
  {
    assert rate * (gap as real / 1_000_000_000.0) == gap as real * rate / 1_000_000_000.0;
  }

  class RequestRateLimiter {
    const rate: real
    const burst: real
    var tokens: real
    var last: Time

    ghost function Snap(): Bucket
      reads this
    {
      Bucket(rate, burst, tokens, last)
    }

    constructor (rate: real, burst: int)
      ensures Snap() == New(rate, burst) && Valid(Snap())
    {
      var r := if rate <= 0.0 then DEFAULT_RATE else rate;
      var n := if burst <= 0 then Ceil(r) else burst;
      this.rate, this.burst, this.tokens, this.last := r, n as real, n as real, 0;
    }

    method Allow(now: Time) returns (allowed: bool)
      requires Valid(Snap())
      modifies this
      ensures Valid(Snap()) && Snap() == Step(old(Snap()), now) && allowed == Admits(old(Snap()), now)
    {
      StepKeeps(Snap(), now);
      if last == 0 {
        last := now;
      } else if now > last {
        tokens := Min(burst, tokens + (now - last) as real / SECOND * rate);
        last := now;
      }
      if tokens < 1.0 {
        return false;
      }
      tokens := tokens - 1.0;
      allowed := true;
    }
  }
}
