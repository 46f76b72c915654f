/** Bandwidth caps by token buckets.  Token counts are reals and times whole nanoseconds, as in
    the source apart from float rounding. */
module RateLimit {

  const SECOND: real := 1000000000.0
  const MILLISECOND: nat := 1000000
  const THROTTLE_CHUNK: nat := 128 * 1024

  /** Tokens that a rate produces in a number of nanoseconds. */
  function Gain(rate: real, ns: int): real {
    rate * (ns as real / SECOND)
  }

  lemma GainAdd(rate: real, a: int, b: int)
    ensures Gain(rate, a + b) == Gain(rate, a) + Gain(rate, b)
  {
    assert (a + b) as real / SECOND == a as real / SECOND + b as real / SECOND;
  }

  lemma GainMonotone(rate: real, a: int, b: int)
    requires rate >= 0.0 && a <= b
    ensures Gain(rate, a) <= Gain(rate, b)
  {
    assert a as real / SECOND <= b as real / SECOND;
  }

  // ---------- one bucket ----------

  /** A bucket; `Unlimited` is a disabled one, whose amounts are infinite. */
  datatype Bucket =
    | Limited(capacity: real, tokens: real, fillRate: real, last: int)
    | Unlimited(last: int)
  {
    ghost predicate Ok() {
      Limited? ==> 0.0 < capacity == fillRate && 0.0 <= tokens <= capacity
    }
  }

  function Full(bps: real, now: int): Bucket {
    Limited(bps, bps, bps, now)
  }

  function MinReal(a: real, b: real): real {
    if a <= b then a else b
  }

  function Refill(b: Bucket, now: int): Bucket {
    if now <= b.last then b
    else match b
      case Limited(capacity, tokens, rate, last) =>
        b.(tokens := MinReal(capacity, tokens + Gain(rate, now - last)), last := now)
      case Unlimited(_) => Unlimited(now)
  }

  predicate Affords(b: Bucket, n: int) {
    b.Unlimited? || b.tokens >= n as real
  }

  function Spend(b: Bucket, n: int): Bucket
  {
    match b
    case Limited(_, tokens, _, _) => b.(tokens := tokens - n as real)
    case Unlimited(_) => b
  }

  /** One pass of the loop in `take`, at time `now`. */
  function Pass(b: Bucket, n: int, now: int): (Bucket, bool) {
    var r := Refill(b, now);
    if Affords(r, n) then (Spend(r, n), true) else (r, false)
  }

  /** The sleep after a failed pass: the deficit at the fill rate, truncated to whole
      nanoseconds, at least a millisecond. */
  function Wait(b: Bucket, n: int): nat
    requires b.Limited? && b.fillRate > 0.0
  {
    var ns := ((n as real - b.tokens) / b.fillRate * SECOND).Floor;
    if ns < MILLISECOND then MILLISECOND else ns
  }

  /** `updateRate`, whose two clock readings are `now` and `later`. */
  function SetRate(b: Bucket, bps: real, now: int, later: int): Bucket {
    var tokens := match Refill(b, now)
      case Limited(_, tokens, _, _) => MinReal(tokens, bps)
      case Unlimited(_) => bps;
    Limited(bps, tokens, bps, later)
  }

  /** Tokens in the bucket at time `t`. */
  function Level(b: Bucket, t: int): real
    requires b.Limited?
  {
    Refill(b, t).tokens
  }

  /** Every operation keeps the token count between zero and the capacity. */
  lemma BucketStaysOk(b: Bucket, n: int, bps: real, now: int, later: int)
    requires b.Ok() && n >= 0 && bps > 0.0
    ensures Refill(b, now).Ok() && Pass(b, n, now).0.Ok() && SetRate(b, bps, now, later).Ok()
  {
    if b.Limited? && now > b.last {
      GainMonotone(b.fillRate, 0, now - b.last);
    }
  }

  /** Between two times the level rises by at most what the rate produces. */
  lemma LevelRises(b: Bucket, t: int, u: int)
    requires b.Limited? && b.Ok() && t <= u
    ensures Level(b, u) <= Level(b, t) + Gain(b.fillRate, u - t)
  {
    GainMonotone(b.fillRate, 0, u - t);
    if t > b.last {
      GainAdd(b.fillRate, t - b.last, u - t);
    } else if u > b.last {
      GainMonotone(b.fillRate, u - b.last, u - t);
    }
  }

  // ---------- waiting long enough ----------

  /** The first sleep leaves less than one nanosecond of deficit. */
  lemma FirstSleep(b: Bucket, n: int, slept: int)
    requires b.Limited? && b.Ok() && !Affords(b, n) && slept >= Wait(b, n)
    ensures b.tokens + Gain(b.fillRate, slept) > n as real - Gain(b.fillRate, 1)
  {
    var r := b.fillRate;
    var exact := (n as real - b.tokens) / r * SECOND;
    assert slept as real + 1.0 > exact;
    assert (slept + 1) as real / SECOND > exact / SECOND == (n as real - b.tokens) / r;
    Scale(r, (slept + 1) as real / SECOND, n as real - b.tokens);
    GainAdd(r, slept, 1);
  }

  lemma Scale(r: real, x: real, y: real)
    requires r > 0.0 && x > y / r
    ensures r * x > y
  {
    assert r * (y / r) == y;
  }

  lemma RefillTwice(b: Bucket, t: int, u: int)
    requires b.Ok() && b.last <= t
    ensures u <= t ==> Refill(Refill(b, t), u) == Refill(b, t)
    ensures t <= u ==> Refill(Refill(b, t), u) == Refill(b, u)
  {
    if b.Limited? && b.last < t < u {
      GainMonotone(b.fillRate, 0, t - b.last);
      GainMonotone(b.fillRate, 0, u - t);
      GainAdd(b.fillRate, t - b.last, u - t);
    }
  }

  /** A refill at `now` or later holds whatever was within reach at `now`, up to the capacity. */
  lemma RefillReaches(b: Bucket, now: int, t: int, x: real)
    requires b.Limited? && b.Ok() && b.last <= now <= t && x <= b.capacity
    requires b.tokens + Gain(b.fillRate, now - b.last) >= x
    ensures Refill(b, t).tokens >= x
  {
    GainMonotone(b.fillRate, now - b.last, t - b.last);
  }

  /** After one sleep the level at time `now` is less than a nanosecond short; after two it is enough. */
  ghost predicate Within(b: Bucket, n: int, sleeps: nat, now: int) {
    sleeps == 0 ||
    (b.Limited? && b.last <= now
     && b.tokens + Gain(b.fillRate, now - b.last) >= n as real - (if sleeps == 1 then Gain(b.fillRate, 1) else 0.0))
  }

  /** A failed pass at time `t` and its sleep until `woke` make progress, and there is no third. */
  lemma Retry(b: Bucket, n: nat, sleeps: nat, at: int, t: int, woke: int)
    requires b.Ok() && b.last <= at <= t && Within(b, n, sleeps, at)
    requires b.Unlimited? || n as real <= b.capacity
    requires !Affords(Refill(b, t), n)
    requires woke - Refill(b, t).last >= Wait(Refill(b, t), n)
    ensures sleeps < 2 && Within(Refill(b, t), n, sleeps + 1, woke)
  {
    var r, slept := Refill(b, t), woke - Refill(b, t).last;
    BucketStaysOk(b, 0, 1.0, t, t);
    if sleeps == 0 {
      FirstSleep(r, n, slept);
    } else {
      GainMonotone(b.fillRate, 0, 1);
      RefillReaches(b, at, t, n as real - (if sleeps == 1 then Gain(b.fillRate, 1) else 0.0));
      GainMonotone(b.fillRate, 1, slept);
    }
  }

  /** A request can be served at some time, by a taker that waits alone. */
  ghost predicate Servable(b: Bucket, n: nat) {
    exists t :: t >= b.last && Pass(b, n, t).1
  }

  /** A request is ever served if and only if it fits the capacity: a larger one waits forever. */
  lemma ServableIffFits(b: Bucket, n: nat)
    requires b.Limited? && b.Ok()
    ensures Servable(b, n) <==> n as real <= b.capacity
  {
    if n as real <= b.capacity {
      if Affords(b, n) {
        assert Pass(b, n, b.last).1;
      } else {
        var slept := Wait(b, n) + MILLISECOND;
        var t := b.last + slept;
        FirstSleep(b, n, Wait(b, n));
        GainAdd(b.fillRate, Wait(b, n), MILLISECOND);
        GainMonotone(b.fillRate, 1, MILLISECOND);
        RefillReaches(b, t, t, n as real);
        assert Pass(b, n, t).1;
      }
    } else {
      forall t ensures !Pass(b, n, t).1 {
        BucketStaysOk(b, n, 1.0, t, t);
      }
    }
  }

  // ---------- and not longer ----------

  const SHORTEST: real := 1000000.0   // a millisecond

  function MaxReal(a: real, b: real): real {
    if a >= b then a else b
  }

  /** The longest that a lone taker sleeps in all for `n` tokens, if it first looks at `at` or later:
      not at all if they are there; otherwise the time that the rate needs for those that are
      missing, at least a millisecond, and a millisecond more. */
  function LongestSleep(b: Bucket, n: int, at: int): real
    requires b.Limited? ==> b.fillRate > 0.0
  {
    if b.Unlimited? || n as real <= Level(b, at) then 0.0
    else MaxReal(SHORTEST, (n as real - Level(b, at)) / b.fillRate * SECOND) + SHORTEST
  }

  lemma DivideMonotone(x: real, y: real, r: real)
    requires r > 0.0 && x <= y
    ensures x / r * SECOND <= y / r * SECOND
  {
    assert x / r <= y / r;
  }

  /** The level never falls by itself, so a later first look means less sleep. */
  lemma LevelKeeps(b: Bucket, t: int, u: int)
    requires b.Limited? && b.Ok() && t <= u
    ensures Level(b, t) <= Level(b, u)
  {
    if u > b.last {
      GainMonotone(b.fillRate, 0, u - b.last);
      if t > b.last {
        GainMonotone(b.fillRate, t - b.last, u - b.last);
      }
    }
  }

  /** The first sleep of a taker that finds too little at time `t`. */
  lemma FirstSleepAtMost(b: Bucket, n: int, at: int, t: int)
    requires b.Limited? && b.Ok() && at <= t && !Affords(Refill(b, t), n)
    ensures Wait(Refill(b, t), n) as real <= LongestSleep(b, n, at) - SHORTEST
  {
    LevelKeeps(b, at, t);
    DivideMonotone(n as real - Level(b, t), n as real - Level(b, at), b.fillRate);
  }

  /** Once less than a nanosecond's worth is missing, the sleep is the shortest. */
  lemma SecondSleep(b: Bucket, n: int)
    requires b.Limited? && b.Ok() && !Affords(b, n) && n as real - b.tokens <= Gain(b.fillRate, 1)
    ensures Wait(b, n) == MILLISECOND
  {
    DivideMonotone(n as real - b.tokens, b.fillRate * (1.0 / SECOND), b.fillRate);
    assert b.fillRate * (1.0 / SECOND) / b.fillRate == 1.0 / SECOND;
  }

  /** What has been slept in all before the next look. */
  ghost predicate SleptAtMost(b: Bucket, n: int, at: int, sleeps: nat, slept: int)
    requires b.Ok()
  {
    if sleeps == 0 then slept == 0
    else slept as real <= LongestSleep(b, n, at) - (if sleeps == 1 then SHORTEST else 0.0)
  }

  /** The sleep of a taker that finds too little at time `t` although it has slept before. */
  lemma SleepAgain(c: Bucket, n: nat, at: int, t: int)
    requires c.Limited? && c.Ok() && c.last <= at <= t && n as real <= c.capacity
    requires Within(c, n, 1, at) && !Affords(Refill(c, t), n)
    ensures Wait(Refill(c, t), n) == MILLISECOND
  {
    BucketStaysOk(c, 0, 1.0, t, t);
    GainMonotone(c.fillRate, 0, 1);
    RefillReaches(c, at, t, n as real - Gain(c.fillRate, 1));
    SecondSleep(Refill(c, t), n);
  }

  /** One more sleep, of a taker that began at `start` with bucket `b` and now finds too little in `c`. */
  lemma SleepOnce(b: Bucket, c: Bucket, n: nat, start: int, sleeps: nat, at: int, t: int, slept: nat)
    requires b.Ok() && c.Ok() && b.last <= c.last <= at <= t && c == Refill(b, c.last) && start <= t
    requires c.Unlimited? || n as real <= c.capacity
    requires Within(c, n, sleeps, at) && sleeps < 2 && !Affords(Refill(c, t), n)
    requires SleptAtMost(b, n, start, sleeps, slept)
    ensures SleptAtMost(b, n, start, sleeps + 1, slept + Wait(Refill(c, t), n))
  {
    if sleeps == 0 {
      RefillTwice(b, c.last, t);
      FirstSleepAtMost(b, n, start, t);
    } else {
      SleepAgain(c, n, at, t);
    }
  }

  /** A rate change keeps every token that the new capacity can hold. */
  lemma RateChangeKeepsTokens(b: Bucket, bps: real, now: int, later: int, x: real)
    requires b.Ok() && now <= later && 0.0 <= x <= bps
    ensures Level(SetRate(b, bps, now, later), later) >= x <==> b.Unlimited? || Level(b, now) >= x
  {
  }

  // ---------- the classes ----------

  /** A monotonic clock; sleeping takes at least the time asked for, of which it keeps the sum. */
  class Clock {
    var now: int
    ghost var slept: nat

    constructor () {
      now, slept := 0, 0;
    }

    method Now() returns (t: int)
      modifies this
      ensures old(now) <= now == t && slept == old(slept)
    {
      var step: nat :| 0 <= step;
      now := now + step;
      t := now;
    }

    method Sleep(ns: nat)
      modifies this
      ensures now >= old(now) + ns && slept == old(slept) + ns
    {
      var step: nat :| 0 <= step;
      now := now + ns + step;
      slept := slept + ns;
    }
  }

  class TokenBucket {
    var disabled: bool
    var capacity: real
    var tokens: real
    var fillRate: real
    var last: int

    /** `newTokenBucket` for a positive rate. */
    constructor (bps: real, now: int)
      requires bps > 0.0
      ensures Valid() && Value() == Full(bps, now)
    {
      disabled, capacity, tokens, fillRate, last := false, bps, bps, bps, now;
    }

    function Value(): Bucket
      reads this
    {
      if disabled then Unlimited(last) else Limited(capacity, tokens, fillRate, last)
    }

    ghost predicate Valid()
      reads this
    {
      Value().Ok()
    }

    predicate Fits(n: int)
      reads this
    {
      disabled || n as real <= capacity
    }

    method RefillLocked(now: int)
      requires Valid()
      modifies `tokens, `last
      ensures Valid() && Value() == Refill(old(Value()), now)
    {
      BucketStaysOk(Value(), 0, 1.0, now, now);
      if now <= last {
        return;
      }
      if !disabled {
        var filled := tokens + Gain(fillRate, now - last);
        tokens := if filled < capacity then filled else capacity;
      }
      last := now;
    }

    /** One pass of the loop, under the lock. */
    method TryTake(n: nat, now: int) returns (taken: bool)
      requires Valid()
      modifies `tokens, `last
      ensures Valid() && (Value(), taken) == Pass(old(Value()), n, now)
    {
      BucketStaysOk(Value(), n, 1.0, now, now);
      RefillLocked(now);
      taken := disabled || tokens >= n as real;
      if taken && !disabled {
        tokens := tokens - n as real;
      }
    }

    /** The first `passes` passes of the loop, for a lone taker.  Three are enough if the request
        fits the capacity, and no number is if it does not; once served, the bucket is the old one
        refilled to that time, less the tokens taken.  It sleeps no longer than it must: what the
        clock shows beyond that is the clock's own. */
    method Take(n: int, clock: Clock, passes: nat) returns (served: bool)
      requires Valid() && last <= clock.now
      modifies `tokens, `last, clock
      ensures Valid() && old(last) <= last <= clock.now
      ensures n <= 0 ==> served && Value() == old(Value())
      ensures n > 0 ==>
                Value() == if served then Spend(Refill(old(Value()), last), n) else Refill(old(Value()), last)
      ensures passes >= 3 && Fits(n) ==> served
      ensures n > 0 && !Fits(n) ==> !served
      ensures Fits(n) ==>
                (clock.slept - old(clock.slept)) as real <= LongestSleep(old(Value()), n, old(clock.now))
    {
      if n <= 0 {
        return true;
      }
      for sleeps := 0 to passes
        invariant Valid() && old(last) <= last <= clock.now
        invariant Value() == Refill(old(Value()), last)
        invariant Fits(n) ==> sleeps <= 2 && Within(Value(), n, sleeps, clock.now)
        invariant old(clock.now) <= clock.now && old(clock.slept) <= clock.slept
        invariant Fits(n) ==> SleptAtMost(old(Value()), n, old(clock.now), sleeps, clock.slept - old(clock.slept))
      {
        ghost var b, at, before := Value(), clock.now, clock.slept - old(clock.slept);
        var t := clock.Now();
        RefillTwice(old(Value()), last, t);
        var taken := TryTake(n, t);
        if taken {
          return true;
        }
        clock.Sleep(Wait(Value(), n));
        if Fits(n) {
          Retry(b, n, sleeps, at, t, clock.now);
          SleepOnce(old(Value()), b, n, old(clock.now), sleeps, at, t, before);
        }
      }
      return false;
    }

    method UpdateRate(bps: real, clock: Clock) returns (ghost at: int)
      requires Valid() && bps > 0.0
      modifies this, clock
      ensures Valid() && old(clock.now) <= at <= clock.now
      ensures Value() == SetRate(old(Value()), bps, at, clock.now)
    {
      var now := clock.Now();
      BucketStaysOk(Value(), 0, bps, now, now);
      RefillLocked(now);
      if disabled || tokens > bps {
        tokens := bps;
      }
      disabled, capacity, fillRate := false, bps, bps;
      last := clock.Now();
      at := now;
    }

    method Disable(clock: Clock)
      requires Valid()
      modifies this, clock
      ensures Valid() && disabled && old(clock.now) <= clock.now == last
    {
      disabled := true;
      last := clock.Now();
    }
  }
}
