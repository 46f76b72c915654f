/** Throttled streams sharing token buckets: any number of wrapped readers, in both directions,
    charging their buckets in any interleaving, with rate changes in between. */
module Bandwidth {
  import opened RateLimit

  // ---------- the limiter and its slots ----------

  function Bps(mbps: real): real {
    mbps * 1024.0 * 1024.0 / 8.0
  }

  /** Every chunk that a throttled read can charge to a new bucket can be served, if and only if
      the cap is at least 1 Mbps; below that the `take` of a full chunk never returns. */
  lemma ChunksServable(mbps: real, now: int)
    requires mbps > 0.0
    ensures (forall n: nat :: 0 < n <= THROTTLE_CHUNK ==> Servable(Full(Bps(mbps), now), n)) <==> mbps >= 1.0
  {
    var b := Full(Bps(mbps), now);
    var whole: nat := THROTTLE_CHUNK;
    assert Bps(1.0) == whole as real;
    forall n: nat ensures Servable(b, n) <==> n as real <= Bps(mbps) {
      ServableIffFits(b, n);
    }
    if mbps < 1.0 {
      assert !Servable(b, whole);
    }
  }

  class BandwidthLimiter {
    var download: TokenBucket?
    var upload: TokenBucket?
    var combined: TokenBucket?

    constructor (download: TokenBucket?, upload: TokenBucket?, combined: TokenBucket?)
      requires Separate(download, upload, combined)
      ensures this.download == download && this.upload == upload && this.combined == combined
    {
      this.download, this.upload, this.combined := download, upload, combined;
    }

    static predicate Separate(a: TokenBucket?, b: TokenBucket?, c: TokenBucket?) {
      (a == null || (a != b && a != c)) && (b == null || b != c)
    }

    /** The three buckets are different objects. */
    ghost predicate Valid()
      reads this, download, upload, combined
    {
      && Separate(download, upload, combined)
      && (download != null ==> download.Valid())
      && (upload != null ==> upload.Valid())
      && (combined != null ==> combined.Valid())
    }

    /** New content of a slot: a positive rate changes the bucket in place, so that the streams
        already wrapped see it; otherwise the bucket is disabled for them and dropped. */
    static method UpdateBucket(slot: TokenBucket?, bps: real, clock: Clock) returns (next: TokenBucket?)
      requires slot != null ==> slot.Valid()
      modifies slot, clock
      ensures bps <= 0.0 ==> next == null && (slot != null ==> slot.disabled)
      ensures bps > 0.0 && slot != null ==> next == slot && !slot.disabled && slot.fillRate == slot.capacity == bps
      ensures bps > 0.0 && slot == null ==> next != null && fresh(next) && next.Value() == Full(bps, clock.now)
      ensures next != null ==> next.Valid()
    {
      if bps <= 0.0 {
        if slot != null {
          slot.Disable(clock);
        }
        return null;
      }
      if slot == null {
        var now := clock.Now();
        next := new TokenBucket(bps, now);
        return;
      }
      var _ := slot.UpdateRate(bps, clock);
      return slot;
    }

    /** Streams wrapped from now on use the direction's bucket, if any, then the combined one. */
    method Buckets(isDownload: bool) returns (buckets: seq<TokenBucket>)
      requires Valid()
      ensures forall b :: b in buckets <==> b == combined || b == (if isDownload then download else upload)
      ensures forall i, j :: 0 <= i < j < |buckets| ==> buckets[i] != buckets[j]
      ensures combined != null ==> buckets != [] && buckets[|buckets| - 1] == combined
    {
      buckets := [];
      if isDownload {
        if download != null {
          buckets := buckets + [download];
        }
      } else if upload != null {
        buckets := buckets + [upload];
      }
      if combined != null {
        buckets := buckets + [combined];
      }
    }

    /** What a cap does to a slot: a positive one leaves an enabled bucket of that rate there, the
        old one if there was one; any other empties the slot and disables the old bucket. */
    static predicate UpdatedTo(was: TokenBucket?, next: TokenBucket?, bps: real)
      reads was, next
    {
      if bps > 0.0 then
        next != null && !next.disabled && next.fillRate == next.capacity == bps && (was != null ==> next == was)
      else
        next == null && (was != null ==> was.disabled)
    }

    method UpdateCaps(read: real, write: real, both: real, clock: Clock)
      requires Valid()
      modifies this, download, upload, combined, clock
      ensures Valid()
      ensures UpdatedTo(old(download), download, Bps(read))
      ensures UpdatedTo(old(upload), upload, Bps(write))
      ensures UpdatedTo(old(combined), combined, Bps(both))
      ensures fresh({download, upload, combined} - {null} - old({download, upload, combined}))
    {
      download := UpdateBucket(download, Bps(read), clock);
      upload := UpdateBucket(upload, Bps(write), clock);
      combined := UpdateBucket(combined, Bps(both), clock);
    }
  }

  // ---------- the system of wrapped streams ----------

  /** What a wrapped reader is doing: between reads, or charging `n` bytes already read to its
      buckets, `at` of which have been charged. */
  datatype Phase = Ready | Charging(n: nat, at: nat)

  datatype Wrapper = Wrapper(buckets: seq<nat>, phase: Phase, returned: nat)

  /** `granted[i]` counts the bytes taken from bucket i, `budget[i]` is the integral of its rate. */
  datatype System = System(
    now: int,
    buckets: seq<Bucket>,
    granted: seq<nat>,
    budget: seq<real>,
    wrappers: seq<Wrapper>)

  datatype Action =
    | Tick(d: nat)
    | ReadChunk(w: nat, n: nat)             // the source returned n bytes
    | Charge(w: nat)                        // one pass of `take` on the next bucket
    | Return(w: nat)                        // all buckets charged: the bytes go to the caller
    | ChangeRate(b: nat, bps: real, d: nat) // d nanoseconds pass between its clock readings
    | Disable(b: nat)

  predicate Enabled(s: System, a: Action) {
    match a
    case Tick(_) => true
    case ReadChunk(w, n) => w < |s.wrappers| && s.wrappers[w].phase.Ready? && 0 < n <= THROTTLE_CHUNK
    case Charge(w) => w < |s.wrappers| && s.wrappers[w].phase.Charging?
                      && s.wrappers[w].phase.at < |s.wrappers[w].buckets|
                      && s.wrappers[w].buckets[s.wrappers[w].phase.at] < |s.buckets| == |s.granted|
    case Return(w) => w < |s.wrappers| && s.wrappers[w].phase.Charging?
                      && s.wrappers[w].phase.at == |s.wrappers[w].buckets|
    case ChangeRate(b, bps, _) => b < |s.buckets| && bps > 0.0
    case Disable(b) => b < |s.buckets|
  }

  function Rate(b: Bucket): real {
    if b.Limited? then b.fillRate else 0.0
  }

  function Pay(budget: seq<real>, buckets: seq<Bucket>, d: nat): seq<real> {
    seq(|budget|, i requires 0 <= i < |budget| =>
      if i < |buckets| then budget[i] + Gain(Rate(buckets[i]), d) else budget[i])
  }

  function Advance(s: System, d: nat): System {
    s.(now := s.now + d, budget := Pay(s.budget, s.buckets, d))
  }

  function Apply(s: System, a: Action): System
    requires Enabled(s, a)
  {
    match a
    case Tick(d) => Advance(s, d)
    case ReadChunk(w, n) => s.(wrappers := s.wrappers[w := s.wrappers[w].(phase := Charging(n, 0))])
    case Charge(w) =>
      var r := s.wrappers[w];
      var i := r.buckets[r.phase.at];
      var (b, taken) := Pass(s.buckets[i], r.phase.n, s.now);
      if taken then
        s.(buckets := s.buckets[i := b], granted := s.granted[i := s.granted[i] + r.phase.n],
           wrappers := s.wrappers[w := r.(phase := Charging(r.phase.n, r.phase.at + 1))])
      else s.(buckets := s.buckets[i := b])
    case Return(w) =>
      var r := s.wrappers[w];
      s.(wrappers := s.wrappers[w := r.(phase := Ready, returned := r.returned + r.phase.n)])
    case ChangeRate(b, bps, d) =>
      Advance(s, d).(buckets := s.buckets[b := SetRate(s.buckets[b], bps, s.now, s.now + d)])
    case Disable(b) => s.(buckets := s.buckets[b := Unlimited(s.now)])
  }

  ghost predicate Runs(s: System, run: seq<Action>, t: System)
    decreases |run|
  {
    if run == [] then s == t
    else Enabled(s, run[0]) && Runs(Apply(s, run[0]), run[1..], t)
  }

  ghost predicate Ok(s: System) {
    && |s.buckets| == |s.granted| == |s.budget|
    && (forall i :: 0 <= i < |s.buckets| ==> s.buckets[i].Ok() && s.buckets[i].last <= s.now)
    && (forall w :: 0 <= w < |s.wrappers| ==> WrapperOk(s.wrappers[w]))
  }

  ghost predicate WrapperOk(r: Wrapper) {
    && (forall i, j :: 0 <= i < j < |r.buckets| ==> r.buckets[i] != r.buckets[j])
    && (r.phase.Charging? ==> r.phase.at <= |r.buckets|)
  }

  lemma StepOk(s: System, a: Action)
    requires Ok(s) && Enabled(s, a)
    ensures Ok(Apply(s, a))
  {
    match a {
      case Charge(w) =>
        var r := s.wrappers[w];
        BucketStaysOk(s.buckets[r.buckets[r.phase.at]], r.phase.n, 1.0, s.now, s.now);
      case ChangeRate(b, bps, d) => BucketStaysOk(s.buckets[b], 0, bps, s.now, s.now + d);
      case _ =>
    }
  }

  // ---------- tokens granted in a window ----------

  /** Granted bytes plus the present level, less the integral of the rate, never rises. */
  function Potential(s: System, i: nat): real
    requires i < |s.buckets| == |s.granted| == |s.budget| && s.buckets[i].Limited?
  {
    s.granted[i] as real + Level(s.buckets[i], s.now) - s.budget[i]
  }

  lemma PassPotential(b: Bucket, n: nat, now: int)
    requires b.Limited? && b.last <= now
    ensures var (after, taken) := Pass(b, n, now);
            after.Limited? && Level(after, now) == Level(b, now) - (if taken then n as real else 0.0)
  {
  }

  lemma SetRatePotential(b: Bucket, bps: real, now: int, later: int)
    requires b.Limited? && b.Ok() && b.last <= now <= later
    ensures Level(SetRate(b, bps, now, later), later) <= Level(b, now) + Gain(b.fillRate, later - now)
  {
    GainMonotone(b.fillRate, 0, later - now);
  }

  lemma StepPotential(s: System, a: Action, i: nat)
    requires Ok(s) && Enabled(s, a) && i < |s.buckets| && s.buckets[i].Limited? && a != Disable(i)
    ensures Ok(Apply(s, a)) && Apply(s, a).buckets[i].Limited?
    ensures Potential(Apply(s, a), i) <= Potential(s, i)
  {
    StepOk(s, a);
    match a {
      case Tick(d) => LevelRises(s.buckets[i], s.now, s.now + d);
      case Charge(w) =>
        var r := s.wrappers[w];
        if r.buckets[r.phase.at] == i {
          PassPotential(s.buckets[i], r.phase.n, s.now);
        }
      case ChangeRate(b, bps, d) =>
        LevelRises(s.buckets[i], s.now, s.now + d);
        SetRatePotential(s.buckets[i], bps, s.now, s.now + d);
      case _ =>
    }
  }

  lemma {:induction false} RunPotential(s: System, run: seq<Action>, t: System, i: nat)
    requires Ok(s) && Runs(s, run, t) && i < |s.buckets| && s.buckets[i].Limited?
    requires Disable(i) !in run
    ensures Ok(t) && i < |t.buckets| && t.buckets[i].Limited?
    ensures Potential(t, i) <= Potential(s, i)
    decreases |run|
  {
    if run != [] {
      assert run[0] in run;
      StepPotential(s, run[0], i);
      RunPotential(Apply(s, run[0]), run[1..], t, i);
    }
  }

  /** Over any window in which a bucket stays enabled, whatever the takers and rate changes: the
      bytes granted are at most the tokens at the start plus the integral of the rate, and the
      tokens stay between zero and the capacity. */
  lemma GrantedInWindow(s: System, run: seq<Action>, t: System, i: nat)
    requires Ok(s) && Runs(s, run, t) && i < |s.buckets| && s.buckets[i].Limited?
    requires Disable(i) !in run
    ensures i < |t.buckets| == |t.granted| == |t.budget| && t.buckets[i].Limited?
    ensures 0.0 <= t.buckets[i].tokens <= t.buckets[i].capacity
    ensures |s.buckets| == |s.granted| == |s.budget|
    ensures t.granted[i] as real - s.granted[i] as real
         <= Level(s.buckets[i], s.now) + (t.budget[i] - s.budget[i])
  {
    RunPotential(s, run, t, i);
    BucketStaysOk(t.buckets[i], 0, 1.0, t.now, t.now);
  }

  // ---------- bytes returned through a shared bucket ----------

  /** Bytes of a read in progress that have already been charged to bucket `i`. */
  function Charged(r: Wrapper, i: nat): nat {
    if r.phase.Charging? && r.phase.at <= |r.buckets| && i in r.buckets[..r.phase.at] then r.phase.n else 0
  }

  function Returned(r: Wrapper, i: nat): nat {
    if i in r.buckets then r.returned else 0
  }

  function SumCharged(ws: seq<Wrapper>, i: nat): nat {
    if ws == [] then 0 else Charged(ws[0], i) + SumCharged(ws[1..], i)
  }

  /** Bytes handed to callers by all the wrappers that use bucket `i`. */
  function SumReturned(ws: seq<Wrapper>, i: nat): nat {
    if ws == [] then 0 else Returned(ws[0], i) + SumReturned(ws[1..], i)
  }

  lemma {:induction false} SumsUpdate(ws: seq<Wrapper>, w: nat, r: Wrapper, i: nat)
    requires w < |ws|
    ensures SumCharged(ws[w := r], i) == SumCharged(ws, i) - Charged(ws[w], i) + Charged(r, i)
    ensures SumReturned(ws[w := r], i) == SumReturned(ws, i) - Returned(ws[w], i) + Returned(r, i)
  {
    if w == 0 {
      assert ws[w := r][1..] == ws[1..];
    } else {
      assert ws[w := r][1..] == ws[1..][w - 1 := r];
      SumsUpdate(ws[1..], w - 1, r, i);
    }
  }

  /** Bytes granted by a bucket and not yet handed on. */
  function Held(s: System, i: nat): int
    requires i < |s.granted|
  {
    s.granted[i] - SumReturned(s.wrappers, i) - SumCharged(s.wrappers, i)
  }

  lemma ChargeCharged(r: Wrapper, i: nat)
    requires WrapperOk(r) && r.phase.Charging? && r.phase.at < |r.buckets|
    ensures Charged(r.(phase := Charging(r.phase.n, r.phase.at + 1)), i)
         == Charged(r, i) + (if r.buckets[r.phase.at] == i then r.phase.n else 0)
  {
    var at := r.phase.at;
    assert r.buckets[..at + 1] == r.buckets[..at] + [r.buckets[at]];
    if i in r.buckets[..at] {
      var j :| 0 <= j < at && r.buckets[j] == i;
    }
  }

  lemma StepHeld(s: System, a: Action, i: nat)
    requires Ok(s) && Enabled(s, a) && i < |s.granted|
    ensures Ok(Apply(s, a)) && Held(Apply(s, a), i) == Held(s, i)
  {
    StepOk(s, a);
    if a.ReadChunk? || a.Charge? || a.Return? {
      var r := s.wrappers[a.w];
      SumsUpdate(s.wrappers, a.w, Apply(s, a).wrappers[a.w], i);
      if a.Charge? {
        ChargeCharged(r, i);
        assert s.wrappers[a.w := r] == s.wrappers;
      } else if a.Return? {
        assert r.buckets[..r.phase.at] == r.buckets;
      }
    }
  }

  lemma {:induction false} RunHeld(s: System, run: seq<Action>, t: System, i: nat)
    requires Ok(s) && Runs(s, run, t) && i < |s.granted|
    ensures Ok(t) && i < |t.granted| && Held(t, i) == Held(s, i)
    decreases |run|
  {
    if run != [] {
      StepHeld(s, run[0], i);
      RunHeld(Apply(s, run[0]), run[1..], t, i);
    }
  }

  /** Over any window in which a bucket stays enabled, the bytes that all the streams sharing it
      return, downloads and uploads together for the combined bucket, are at most the tokens at
      the start plus the integral of the rate, plus what was already charged when it began. */
  lemma ReturnedInWindow(s: System, run: seq<Action>, t: System, i: nat)
    requires Ok(s) && Runs(s, run, t) && i < |s.buckets| && s.buckets[i].Limited?
    requires Disable(i) !in run
    ensures i < |t.budget| && |s.buckets| == |s.budget|
    ensures SumReturned(t.wrappers, i) as real - SumReturned(s.wrappers, i) as real
         <= Level(s.buckets[i], s.now) + (t.budget[i] - s.budget[i]) + SumCharged(s.wrappers, i) as real
  {
    GrantedInWindow(s, run, t, i);
    RunHeld(s, run, t, i);
  }
}
