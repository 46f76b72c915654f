/** The adaptive concurrency limiter: a limit that moves with an exponential moving average of
    request latency, and never lets more requests in than it allows.  Averages are reals. */
module ConcurrencyLimiter {

  const DEFAULT_TARGET: int := 200000000   // 200 ms in nanoseconds

  datatype Limiter = Limiter(limit: int, min: int, max: int, inFlight: int, target: int, ema: real)

  function New(min: int, max: int, target: int): Limiter {
    var lo := if min < 1 then 1 else min;
    var hi := if max < lo then lo else max;
    Limiter(lo, lo, hi, 0, if target <= 0 then DEFAULT_TARGET else target, 0.0)
  }

  /** One pass of the loop in `Acquire`: admitted, or told to wait. */
  function AcquirePass(s: Limiter): (Limiter, bool) {
    if s.inFlight >= s.limit then (s, false) else (s.(inFlight := s.inFlight + 1), true)
  }

  function NextEma(ema: real, duration: int): real {
    if duration <= 0 then ema
    else if ema == 0.0 then duration as real
    else 0.2 * duration as real + 0.8 * ema
  }

  function Target(s: Limiter): real {
    if s.target <= 0 then DEFAULT_TARGET as real else s.target as real
  }

  function ReleaseSpec(s: Limiter, duration: int, success: bool): Limiter {
    var inFlight := if s.inFlight > 0 then s.inFlight - 1 else s.inFlight;
    var ema := NextEma(s.ema, duration);
    var down := if s.limit > s.min then s.limit - 1 else s.limit;
    var up := if s.limit < s.max then s.limit + 1 else s.limit;
    var limit :=
      if !success then down
      else if ema > 0.0 && ema > 1.5 * Target(s) then down
      else if ema > 0.0 && ema < 0.7 * Target(s) then up
      else s.limit;
    s.(inFlight := inFlight, ema := ema, limit := limit)
  }

  // ---------- waiting for admission ----------

  datatype Outcome = Admitted | Cancelled | StillWaiting

  datatype Event = Acquire | Release(duration: int, success: bool)

  function Step(s: Limiter, e: Event): Limiter {
    match e
    case Acquire => AcquirePass(s).0
    case Release(d, ok) => ReleaseSpec(s, d, ok)
  }

  function Run(s: Limiter, es: seq<Event>): Limiter
    decreases |es|
  {
    if es == [] then s else Run(Step(s, es[0]), es[1..])
  }

  /** One round of waiting: what other requests do meanwhile, and whether the context is found
      done before the next look at the counter. */
  datatype Round = Round(others: seq<Event>, done: bool)

  /** What waiting for admission leads to: admission at the first moment below the limit, unless
      the context ends first.  `others` are the events that come before the outcome. */
  function Wait(s: Limiter, rounds: seq<Round>): (r: (seq<Event>, Outcome))
    ensures r.1 == Admitted ==> Run(s, r.0).inFlight < Run(s, r.0).limit
    ensures r.1 == StillWaiting ==> Run(s, r.0).inFlight >= Run(s, r.0).limit
    ensures r.1 == Cancelled ==> exists i :: 0 <= i < |rounds| && rounds[i].done
    decreases |rounds|
  {
    if s.inFlight < s.limit then ([], Admitted)
    else if rounds == [] then ([], StillWaiting)
    else if rounds[0].done then (rounds[0].others, Cancelled)
    else
      var (others, o) := Wait(Run(s, rounds[0].others), rounds[1..]);
      RunConcat(s, rounds[0].others, others);
      (rounds[0].others + others, o)
  }

  lemma {:induction false} RunConcat(s: Limiter, a: seq<Event>, b: seq<Event>)
    ensures Run(s, a + b) == Run(Run(s, a), b)
    decreases |a|
  {
    if a == [] {
      assert a + b == b;
    } else {
      assert (a + b)[1..] == a[1..] + b;
      RunConcat(Step(s, a[0]), a[1..], b);
    }
  }

  function After(before: seq<Event>, w: (seq<Event>, Outcome)): (seq<Event>, Outcome) {
    (before + w.0, w.1)
  }

  lemma WaitNext(s: Limiter, others: seq<Event>, now: Limiter, rounds: seq<Round>, i: nat)
    requires i < |rounds| && now == Run(s, others) && now.inFlight >= now.limit
    ensures var longer := others + rounds[i].others;
            && Run(s, longer) == Run(now, rounds[i].others)
            && After(others, Wait(now, rounds[i..])) ==
               (if rounds[i].done then (longer, Cancelled)
                else After(longer, Wait(Run(now, rounds[i].others), rounds[i + 1..])))
  {
    RunConcat(s, others, rounds[i].others);
    assert rounds[i..][1..] == rounds[i + 1..];
    var more := Wait(Run(now, rounds[i].others), rounds[i + 1..]).0;
    assert others + (rounds[i].others + more) == others + rounds[i].others + more;
  }

  // ---------- the class ----------

  class AdaptiveConcurrencyLimiter {
    var limit: int
    var min: int
    var max: int
    var inFlight: int
    var target: int
    var emaNanos: real
    const alpha: real := 0.2

    function Value(): Limiter
      reads this
    {
      Limiter(limit, min, max, inFlight, target, emaNanos)
    }

    constructor (min: int, max: int, target: int)
      ensures Value() == New(min, max, target) && Ok(Value())
    {
      var lo := if min < 1 then 1 else min;
      var hi := if max < lo then lo else max;
      this.limit, this.min, this.max, this.inFlight := lo, lo, hi, 0;
      this.target := if target <= 0 then DEFAULT_TARGET else target;
      this.emaNanos := 0.0;
    }

    /** One look at the counter, under the lock. */
    method TryAcquire() returns (admitted: bool)
      modifies `inFlight
      ensures (Value(), admitted) == AcquirePass(old(Value()))
    {
      admitted := inFlight < limit;
      if admitted {
        inFlight := inFlight + 1;
      }
    }

    /** Other requests come and go while the lock is free. */
    method Others(es: seq<Event>)
      modifies this
      ensures Value() == Run(old(Value()), es)
    {
      for i := 0 to |es|
        invariant Run(Value(), es[i..]) == Run(old(Value()), es)
      {
        assert es[i..][1..] == es[i + 1..];
        match es[i] {
          case Acquire => var _ := TryAcquire();
          case Release(duration, success) => Release(duration, success);
        }
      }
    }

    /** Waits for admission through any number of rounds; the lock is free during each of them. */
    method Acquire(rounds: seq<Round>) returns (o: Outcome)
      modifies this
      ensures var (others, outcome) := Wait(old(Value()), rounds);
              o == outcome &&
              Value() == Run(old(Value()), if o == Admitted then others + [Event.Acquire] else others)
    {
      ghost var s, others := Value(), [];
      var i := 0;
      assert rounds[0..] == rounds && [] + Wait(s, rounds).0 == Wait(s, rounds).0;
      while true
        invariant 0 <= i <= |rounds| && Value() == Run(s, others)
        invariant Wait(s, rounds) == After(others, Wait(Value(), rounds[i..]))
        decreases |rounds| - i
      {
        var admitted := TryAcquire();
        if admitted {
          RunConcat(s, others, [Event.Acquire]);
          assert others + [] == others;
          return Admitted;
        }
        if i == |rounds| {
          assert others + [] == others;
          return StillWaiting;
        }
        WaitNext(s, others, Value(), rounds, i);
        Others(rounds[i].others);
        if rounds[i].done {
          return Cancelled;
        }
        others := others + rounds[i].others;
        i := i + 1;
      }
    }

    method Release(duration: int, success: bool)
      modifies this
      ensures Value() == ReleaseSpec(old(Value()), duration, success)
    {
      if inFlight > 0 {
        inFlight := inFlight - 1;
      }
      if duration > 0 {
        var d := duration as real;
        if emaNanos == 0.0 {
          emaNanos := d;
        } else {
          emaNanos := alpha * d + (1.0 - alpha) * emaNanos;
        }
      }
      var goal := target as real;
      if goal <= 0.0 {
        goal := DEFAULT_TARGET as real;
      }
      if !success {
        if limit > min {
          limit := limit - 1;
        }
      } else if emaNanos > 0.0 && emaNanos > 1.5 * goal {
        if limit > min {
          limit := limit - 1;
        }
      } else if emaNanos > 0.0 && emaNanos < 0.7 * goal {
        if limit < max {
          limit := limit + 1;
        }
      }
    }
  }

  // ---------- every run ----------

  predicate Ok(s: Limiter) {
    1 <= s.min <= s.limit <= s.max && 0 <= s.inFlight <= s.limit && s.target > 0 && s.ema >= 0.0
  }

  /** In every reachable state the limit is within its bounds and the requests in flight are
      within the limit, even where the limit has just shrunk or a release had no acquire. */
  lemma {:induction false} AlwaysWithinLimit(s: Limiter, es: seq<Event>)
    requires Ok(s)
    ensures Ok(Run(s, es)) && Run(s, es).min == s.min && Run(s, es).max == s.max
    decreases |es|
  {
    if es != [] {
      AlwaysWithinLimit(Step(s, es[0]), es[1..]);
    }
  }

  /** Waiting keeps the same bounds, and admits only below the limit. */
  lemma AdmittedWithinLimit(s: Limiter, rounds: seq<Round>)
    requires Ok(s)
    ensures var (others, o) := Wait(s, rounds);
            var after := Run(s, others + [Event.Acquire]);
            Ok(Run(s, others)) &&
            (o == Admitted ==> Ok(after) && after.inFlight == Run(s, others).inFlight + 1)
  {
    var (others, _) := Wait(s, rounds);
    AlwaysWithinLimit(s, others);
    AlwaysWithinLimit(s, others + [Event.Acquire]);
    RunConcat(s, others, [Event.Acquire]);
  }

  /** Every release is for a request in flight. */
  predicate Paired(s: Limiter, es: seq<Event>)
    decreases |es|
  {
    es == [] || ((es[0].Release? ==> s.inFlight > 0) && Paired(Step(s, es[0]), es[1..]))
  }

  function Admissions(s: Limiter, es: seq<Event>): nat
    decreases |es|
  {
    if es == [] then 0
    else (if es[0].Acquire? && AcquirePass(s).1 then 1 else 0) + Admissions(Step(s, es[0]), es[1..])
  }

  function Releases(es: seq<Event>): nat {
    if es == [] then 0 else (if es[0].Release? then 1 else 0) + Releases(es[1..])
  }

  /** With paired releases the counter is exactly the admissions minus the releases. */
  lemma {:induction false} InFlightCounts(s: Limiter, es: seq<Event>)
    requires Paired(s, es)
    ensures Run(s, es).inFlight == s.inFlight + Admissions(s, es) - Releases(es)
    decreases |es|
  {
    if es != [] {
      InFlightCounts(Step(s, es[0]), es[1..]);
    }
  }

  /** The average always lies between the least and the greatest positive duration seen. */
  lemma {:induction false} EmaInRange(s: Limiter, es: seq<Event>, lo: real, hi: real)
    requires 0.0 < lo <= hi && (s.ema == 0.0 || lo <= s.ema <= hi)
    requires forall e :: e in es && e.Release? && e.duration > 0 ==> lo <= e.duration as real <= hi
    ensures Run(s, es).ema == 0.0 || lo <= Run(s, es).ema <= hi
    decreases |es|
  {
    if es != [] {
      assert es[0] in es;
      EmaInRange(Step(s, es[0]), es[1..], lo, hi);
    }
  }

  // ---------- convergence ----------

  /** How far the average can still be above the durations after k of them: 0.8^k of the start. */
  function Excess(k: nat, x: real): real {
    if k == 0 then x else 0.8 * Excess(k - 1, x)
  }

  function Above(ema: real, d: real): real {
    if ema > d then ema - d else 0.0
  }

  lemma CancelFactor(a: real, b: real, g: real)
    requires g > 0.0 && a * g >= b * g
    ensures a >= b
  {
    assert (a - b) * g >= 0.0;
  }

  /** One step brings the quotient down by at least one. */
  lemma DecayProgress(x: real, gap: real)
    requires gap > 0.0 && x >= gap
    ensures 5.0 * (0.8 * x) / gap <= 5.0 * x / gap - 1.0
    ensures 5.0 * x / gap >= 5.0
  {
    var q := 5.0 * x / gap;
    assert q * gap == 5.0 * x;
    CancelFactor(q, 5.0, gap);
    assert 5.0 * (0.8 * x) / gap == 0.8 * q;
  }

  /** The least number of geometric steps that bring an excess below a gap. */
  function Steps(x: real, gap: real): nat
    requires gap > 0.0
    decreases if x < gap then 0 else (5.0 * x / gap).Floor + 1
  {
    if x < gap then 0
    else
      DecayProgress(x, gap);
      1 + Steps(0.8 * x, gap)
  }

  lemma {:induction false} ExcessShift(k: nat, x: real)
    ensures Excess(k + 1, x) == Excess(k, 0.8 * x)
  {
    if k > 0 {
      ExcessShift(k - 1, x);
    }
  }

  /** `Steps` is the least such number, and the excess stays below the gap from then on. */
  lemma {:induction false} StepsAreLeast(k: nat, x: real, gap: real)
    requires gap > 0.0 && x >= 0.0
    ensures 0.0 <= Excess(k, x)
    ensures Excess(k, x) < gap <==> k >= Steps(x, gap)
    decreases k
  {
    if k > 0 {
      ExcessShift(k - 1, x);
      StepsAreLeast(k - 1, 0.8 * x, gap);
      if x < gap {
        ExcessShrinks(k, x);
      }
    }
  }

  lemma {:induction false} ExcessShrinks(k: nat, x: real)
    requires x >= 0.0
    ensures 0.0 <= Excess(k, x) <= x
  {
    if k > 0 {
      ExcessShrinks(k - 1, x);
    }
  }

  /** The least number of releases after which the average is sure to be below 0.7 of the target. */
  function Settling(ema: real, d: real, target: real): nat
    requires d < 0.7 * target
  {
    Steps(Above(ema, d), 0.7 * target - d)
  }

  /** Only successful releases with positive durations of at most d, besides acquires. */
  ghost predicate Fast(es: seq<Event>, d: real) {
    forall e :: e in es && e.Release? ==> e.success && 0 < e.duration && e.duration as real <= d
  }

  /** State reached after k fast releases from an average `ema`. */
  ghost predicate Climbing(s: Limiter, k: nat, ema: real, d: real)
    requires d < 0.7 * Target(s)
  {
    && Ok(s)
    && s.ema <= d + Excess(k, Above(ema, d))
    && (var base := Settling(ema, d, Target(s));
        k >= base ==> s.limit >= s.max || s.limit >= s.min + (k - base))
  }

  lemma ClimbStep(s: Limiter, k: nat, ema: real, d: real, duration: int)
    requires d < 0.7 * Target(s) && Climbing(s, k, ema, d)
    requires 0 < duration && duration as real <= d
    ensures Climbing(ReleaseSpec(s, duration, true), k + 1, ema, d)
  {
    StepsAreLeast(k + 1, Above(ema, d), 0.7 * Target(s) - d);
  }

  lemma {:induction false} ClimbRun(s: Limiter, es: seq<Event>, k: nat, ema: real, d: real)
    requires d < 0.7 * Target(s) && Climbing(s, k, ema, d) && Fast(es, d)
    ensures Target(Run(s, es)) == Target(s) && Climbing(Run(s, es), k + Releases(es), ema, d)
    decreases |es|
  {
    if es != [] {
      assert es[0] in es;
      match es[0] {
        case Acquire => ClimbRun(Step(s, es[0]), es[1..], k, ema, d);
        case Release(duration, _) =>
          ClimbStep(s, k, ema, d, duration);
          ClimbRun(Step(s, es[0]), es[1..], k + 1, ema, d);
      }
    }
  }

  /** From any state, successful releases of at most d, below 0.7 of the target, raise the limit
      to its maximum within the settling number plus max - min releases. */
  lemma FastReleasesReachMax(s: Limiter, es: seq<Event>, d: real)
    requires Ok(s) && 0.0 < d < 0.7 * Target(s) && Fast(es, d)
    requires Releases(es) >= Settling(s.ema, d, Target(s)) + (s.max - s.min)
    ensures Run(s, es).limit == s.max
  {
    ClimbRun(s, es, 0, s.ema, d);
    AlwaysWithinLimit(s, es);
  }

  function Below(ema: real, d: real): real {
    if ema < d then d - ema else 0.0
  }

  /** The least number of releases after which the average is sure to be above 1.5 of the target. */
  function Warming(ema: real, d: real, target: real): nat
    requires d > 1.5 * target
  {
    Steps(Below(ema, d), d - 1.5 * target)
  }

  /** Only releases with durations of at least d, failed or not, besides acquires. */
  ghost predicate Slow(es: seq<Event>, d: real) {
    forall e :: e in es && e.Release? ==> e.duration as real >= d
  }

  /** State reached after k slow releases from an average `ema`. */
  ghost predicate Falling(s: Limiter, k: nat, ema: real, d: real)
    requires d > 1.5 * s.target as real
  {
    && Ok(s)
    && s.ema >= d - Excess(k, Below(ema, d))
    && (var base := Warming(ema, d, s.target as real);
        k >= base ==> s.limit <= s.min || s.limit <= s.max - (k - base))
  }

  lemma FallStep(s: Limiter, k: nat, ema: real, d: real, duration: int, success: bool)
    requires d > 1.5 * s.target as real && Falling(s, k, ema, d) && duration as real >= d
    ensures Falling(ReleaseSpec(s, duration, success), k + 1, ema, d)
  {
    StepsAreLeast(k, Below(ema, d), d - 1.5 * s.target as real);
    StepsAreLeast(k + 1, Below(ema, d), d - 1.5 * s.target as real);
  }

  lemma {:induction false} FallRun(s: Limiter, es: seq<Event>, k: nat, ema: real, d: real)
    requires d > 1.5 * s.target as real && Falling(s, k, ema, d) && Slow(es, d)
    ensures Run(s, es).target == s.target && Falling(Run(s, es), k + Releases(es), ema, d)
    decreases |es|
  {
    if es != [] {
      assert es[0] in es;
      match es[0] {
        case Acquire => FallRun(Step(s, es[0]), es[1..], k, ema, d);
        case Release(duration, success) =>
          FallStep(s, k, ema, d, duration, success);
          FallRun(Step(s, es[0]), es[1..], k + 1, ema, d);
      }
    }
  }

  /** From any state, releases of at least d, above 1.5 of the target, lower the limit to its minimum
      within the warming number plus max - min releases, even if all succeed. */
  lemma SlowReleasesReachMin(s: Limiter, es: seq<Event>, d: real)
    requires Ok(s) && d > 1.5 * s.target as real && Slow(es, d)
    requires Releases(es) >= Warming(s.ema, d, s.target as real) + (s.max - s.min)
    ensures Run(s, es).limit == s.min
  {
    FallRun(s, es, 0, s.ema, d);
    AlwaysWithinLimit(s, es);
  }

  /** Once the average is between 0.7 and 1.5 of the target, successful releases with durations in
      that range never move the limit. */
  lemma {:induction false} SteadyReleasesKeepLimit(s: Limiter, es: seq<Event>)
    requires Ok(s) && 0.7 * s.target as real <= s.ema <= 1.5 * s.target as real
    requires forall e :: e in es && e.Release? ==>
               e.success && 0.7 * s.target as real <= e.duration as real <= 1.5 * s.target as real
    ensures Run(s, es).limit == s.limit
    decreases |es|
  {
    if es != [] {
      assert es[0] in es;
      AlwaysWithinLimit(s, [es[0]]);
      SteadyReleasesKeepLimit(Step(s, es[0]), es[1..]);
    }
  }

  /** Under a constant duration the average's distance from it shrinks by exactly a fifth each time. */
  lemma {:induction false} AverageDecays(s: Limiter, es: seq<Event>, d: int)
    requires s.ema > 0.0 && d > 0 && forall e :: e in es && e.Release? ==> e.duration == d
    ensures Run(s, es).ema == d as real + Excess(Releases(es), s.ema - d as real)
    decreases |es|
  {
    if es != [] {
      assert es[0] in es;
      AverageDecays(Step(s, es[0]), es[1..], d);
      if es[0].Release? {
        ExcessShift(Releases(es[1..]), s.ema - d as real);
      }
    }
  }

  /** A run of failed releases lowers the limit by one each time, down to the minimum. */
  lemma {:induction false} FailuresReachMin(s: Limiter, es: seq<Event>)
    requires Ok(s)
    requires forall e :: e in es && e.Release? ==> !e.success
    ensures Run(s, es).limit == if s.limit - Releases(es) > s.min then s.limit - Releases(es) else s.min
    ensures Releases(es) >= s.max - s.min ==> Run(s, es).limit == s.min
    decreases |es|
  {
    if es != [] {
      assert es[0] in es;
      AlwaysWithinLimit(s, [es[0]]);
      FailuresReachMin(Step(s, es[0]), es[1..]);
    }
  }
}
