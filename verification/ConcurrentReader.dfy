/** The concurrent blob download: a feeder, a pool of workers, a reordering loop and a pipe.
    The goroutines meet only at channels, at the context and at the pipe, so the protocol is a
    state machine whose actions are those meetings; an interleaving is a sequence of actions. */
module ConcurrentReader {

  type Data = seq<int>

  /** Settings of one download, after the constructor's normalisation. */
  datatype Config = Config(blob: Data, chunkSize: nat, concurrency: nat) {
    ghost predicate Valid() {
      chunkSize > 0 && concurrency > 0
    }

    function NumChunks(): nat
      requires chunkSize > 0
    {
      (|blob| + chunkSize - 1) / chunkSize
    }

    /** Offset of chunk `id`, clamped to the blob. */
    function Offset(id: nat): (at: nat)
      ensures at <= |blob|
    {
      if id * chunkSize <= |blob| then id * chunkSize else |blob|
    }

    /** What a successful download of chunk `id` returns. */
    function Slice(id: nat): Data
      requires chunkSize > 0
      requires id < NumChunks()
    {
      OffsetSteps(this, id);
      blob[Offset(id)..Offset(id + 1)]
    }
  }

  function NewConfig(blob: Data, concurrency: int, chunkSize: int): (c: Config)
    ensures c.Valid() && c.blob == blob
    ensures concurrency > 0 ==> c.concurrency == concurrency
    ensures chunkSize > 0 ==> c.chunkSize == chunkSize
  {
    Config(blob,
           if chunkSize <= 0 then 8 * 1024 * 1024 else chunkSize,
           if concurrency <= 0 then 16 else concurrency)
  }

  lemma OffsetSteps(c: Config, id: nat)
    requires c.chunkSize > 0
    ensures id < c.NumChunks() ==>
              c.Offset(id) == id * c.chunkSize < |c.blob| && c.Offset(id) < c.Offset(id + 1)
    ensures id >= c.NumChunks() ==> c.Offset(id) == |c.blob|
  {
    var n, k := c.NumChunks(), c.chunkSize;
    assert (id + 1) * k == id * k + k;
    assert n * k >= |c.blob| && (n > 0 ==> (n - 1) * k < |c.blob|) by {
      var m := |c.blob| + k - 1;
      assert m == n * k + m % k;
      assert n > 0 ==> (n - 1) * k == n * k - k;
    }
    if id < n {
      MulMonotone(id, n - 1, k);
    } else {
      MulMonotone(n, id, k);
    }
  }

  lemma MulMonotone(a: nat, b: nat, k: nat)
    requires a <= b
    ensures a * k <= b * k
  {
  }

  // ---------- state ----------

  datatype Fault = DownloadError | ShortRead

  /** A message on the results channel. */
  datatype Chunk = Good(id: nat, data: Data) | Bad(id: nat, fault: Fault)

  datatype Feeder = Feeding(next: nat) | Closed(fed: nat) {
    function Fed(): nat {
      if Feeding? then next else fed
    }
  }

  datatype Worker =
    | Idle                    // waiting for a job
    | Checking(id: nat)       // has a job, about to look at the context
    | Downloading(id: nat)
    | Sending(res: Chunk)     // blocked on the results channel
    | Exited

  datatype Loop =
    | Receiving                // waiting on the results channel
    | Holding(res: Chunk)      // one result in hand
    | Delivering               // looking up the next chunk in the reorder map
    | Writing(rest: Data)      // blocked in the pipe write
    | Returned                 // about to run the deferred close
    | Done

  datatype Pipe = Open | CleanEOF | Failed(fault: Fault)

  datatype State = State(
    feeder: Feeder,
    workers: seq<Worker>,
    results: seq<Chunk>,
    resultsClosed: bool,
    loop: Loop,
    buffer: map<nat, Chunk>,
    nextChunkID: nat,
    cancelled: bool,          // the reader's own context is done
    external: bool,           // ... because the parent was cancelled or the consumer closed
    readerClosed: bool,
    pipe: Pipe,
    output: Data)             // bytes the consumer has received

  function Start(c: Config): State {
    if |c.blob| == 0
    then State(Closed(0), [], [], true, Returned, map[], 0, false, false, false, Open, [])
    else State(Feeding(0), seq(c.concurrency, _ => Idle), [], false, Receiving, map[], 0,
               false, false, false, Open, [])
  }

  // ---------- actions ----------

  datatype Action =
    | FeedJob(w: nat)                 // rendezvous on the jobs channel
    | FeedEnd                         // all jobs fed: close the channel
    | FeedCancelled                   // the feeder saw the context: close the channel
    | WorkerQuit(w: nat)              // jobs channel closed
    | CheckPasses(w: nat)
    | CheckCancelled(w: nat)
    | DownloadOk(w: nat)
    | DownloadFails(w: nat, fault: Fault)
    | Send(w: nat)
    | SendCancelled(w: nat)
    | CloseResults
    | Receive
    | ResultsEnd                      // results channel closed and drained
    | Fail                            // the result in hand is an error
    | Store                           // put the result in hand into the reorder map
    | Take                            // next chunk is there: start writing it
    | Miss                            // next chunk is not there
    | WriteDone
    | WriteFails
    | ClosePipe                       // the deferred close
    | Consume(n: nat)                 // the consumer reads n bytes
    | CancelParent                    // the caller's context ends
    | CloseReader                     // the consumer closes: cancel, then close its end

  /** Actions that need neither the caller nor the consumer to interfere. */
  predicate IsSystem(a: Action) {
    !a.CancelParent? && !a.CloseReader?
  }

  /** Actions of the feeder, the workers and the goroutine that closes the results channel. */
  predicate IsPool(a: Action) {
    a.FeedJob? || a.FeedEnd? || a.FeedCancelled? || a.WorkerQuit? || a.CheckPasses? || a.CheckCancelled?
    || a.DownloadOk? || a.DownloadFails? || a.Send? || a.SendCancelled? || a.CloseResults?
  }

  predicate Enabled(c: Config, s: State, a: Action) {
    match a
    case FeedJob(w) => s.feeder.Feeding? && c.chunkSize > 0 && s.feeder.next < c.NumChunks()
                       && w < |s.workers| && s.workers[w].Idle?
    case FeedEnd => s.feeder.Feeding? && c.chunkSize > 0 && s.feeder.next >= c.NumChunks()
    case FeedCancelled => s.feeder.Feeding? && c.chunkSize > 0 && s.feeder.next < c.NumChunks()
                          && s.cancelled
    case WorkerQuit(w) => w < |s.workers| && s.workers[w].Idle? && s.feeder.Closed?
    case CheckPasses(w) => w < |s.workers| && s.workers[w].Checking? && !s.cancelled
    case CheckCancelled(w) => w < |s.workers| && s.workers[w].Checking? && s.cancelled
    case DownloadOk(w) => w < |s.workers| && s.workers[w].Downloading?
                          && c.chunkSize > 0 && s.workers[w].id < c.NumChunks()
    case DownloadFails(w, _) => w < |s.workers| && s.workers[w].Downloading?
    case Send(w) => w < |s.workers| && s.workers[w].Sending? && |s.results| < c.concurrency
    case SendCancelled(w) => w < |s.workers| && s.workers[w].Sending? && s.cancelled
    case CloseResults => !s.resultsClosed && forall w :: 0 <= w < |s.workers| ==> s.workers[w].Exited?
    case Receive => s.loop.Receiving? && s.results != []
    case ResultsEnd => s.loop.Receiving? && s.results == [] && s.resultsClosed
    case Fail => s.loop.Holding? && s.loop.res.Bad?
    case Store => s.loop.Holding? && s.loop.res.Good?
    case Take => s.loop.Delivering? && s.nextChunkID in s.buffer && s.buffer[s.nextChunkID].Good?
    case Miss => s.loop.Delivering? && s.nextChunkID !in s.buffer
    case WriteDone => s.loop.Writing? && s.loop.rest == []
    case WriteFails => s.loop.Writing? && s.readerClosed && s.loop.rest != []
    case ClosePipe => s.loop.Returned?
    case Consume(n) => s.loop.Writing? && !s.readerClosed && 0 < n <= |s.loop.rest|
    case CancelParent => !s.external
    case CloseReader => !s.readerClosed
  }

  function Apply(c: Config, s: State, a: Action): State
    requires Enabled(c, s, a)
  {
    match a
    case FeedJob(w) => s.(feeder := Feeding(s.feeder.next + 1),
                          workers := s.workers[w := Checking(s.feeder.next)])
    case FeedEnd => s.(feeder := Closed(s.feeder.next))
    case FeedCancelled => s.(feeder := Closed(s.feeder.next))
    case WorkerQuit(w) => s.(workers := s.workers[w := Exited])
    case CheckPasses(w) => s.(workers := s.workers[w := Downloading(s.workers[w].id)])
    case CheckCancelled(w) => s.(workers := s.workers[w := Exited])
    case DownloadOk(w) =>
      var id := s.workers[w].id;
      s.(workers := s.workers[w := Sending(Good(id, c.Slice(id)))])
    case DownloadFails(w, fault) => s.(workers := s.workers[w := Sending(Bad(s.workers[w].id, fault))])
    case Send(w) => s.(workers := s.workers[w := Idle], results := s.results + [s.workers[w].res])
    case SendCancelled(w) => s.(workers := s.workers[w := Exited])
    case CloseResults => s.(resultsClosed := true)
    case Receive => s.(loop := Holding(s.results[0]), results := s.results[1..])
    case ResultsEnd => s.(loop := Returned)
    case Fail => s.(pipe := Failed(s.loop.res.fault), cancelled := true, loop := Returned)
    case Store => s.(buffer := s.buffer[s.loop.res.id := s.loop.res], loop := Delivering)
    case Take => s.(buffer := s.buffer - {s.nextChunkID}, loop := Writing(s.buffer[s.nextChunkID].data))
    case Miss => s.(loop := Receiving)
    case WriteDone => s.(nextChunkID := s.nextChunkID + 1, loop := Delivering)
    case WriteFails => s.(cancelled := true, loop := Returned)
    case ClosePipe => s.(pipe := if s.pipe.Open? then CleanEOF else s.pipe, loop := Done)
    case Consume(n) => s.(output := s.output + s.loop.rest[..n], loop := Writing(s.loop.rest[n..]))
    case CancelParent => s.(cancelled := true, external := true)
    case CloseReader => s.(cancelled := true, external := true, readerClosed := true)
  }

  /** `t` is reached from `s` by doing `run`, each action being enabled in turn. */
  ghost predicate Runs(c: Config, s: State, run: seq<Action>, t: State)
    decreases |run|
  {
    if run == [] then s == t
    else Enabled(c, s, run[0]) && Runs(c, Apply(c, s, run[0]), run[1..], t)
  }

  // ---------- invariant ----------

  ghost predicate ChunkOk(c: Config, k: Chunk)
    requires c.Valid()
  {
    k.id < c.NumChunks() && (k.Good? ==> k.data == c.Slice(k.id))
  }

  ghost predicate WorkerOk(c: Config, w: Worker)
    requires c.Valid()
  {
    match w
    case Checking(id) => id < c.NumChunks()
    case Downloading(id) => id < c.NumChunks()
    case Sending(res) => ChunkOk(c, res)
    case _ => true
  }

  /** Every chunk that exists anywhere is the right slice of the blob. */
  ghost predicate DataOk(c: Config, s: State)
    requires c.Valid()
  {
    && (forall w :: 0 <= w < |s.workers| ==> WorkerOk(c, s.workers[w]))
    && (forall i :: 0 <= i < |s.results| ==> ChunkOk(c, s.results[i]))
    && (forall id :: id in s.buffer ==> s.buffer[id].Good? && s.buffer[id].id == id && ChunkOk(c, s.buffer[id]))
    && (s.loop.Holding? ==> ChunkOk(c, s.loop.res))
  }

  /** The output is the chunks before `nextChunkID` and the written part of that one. */
  ghost predicate OutputOk(c: Config, s: State)
    requires c.Valid()
  {
    if s.loop.Writing? then
      s.nextChunkID < c.NumChunks()
      && s.output + s.loop.rest == c.blob[..c.Offset(s.nextChunkID + 1)]
      && c.Offset(s.nextChunkID) <= |s.output|
    else if s.cancelled && (s.loop.Returned? || s.loop.Done?) then
      s.output <= c.blob
    else
      s.nextChunkID <= c.NumChunks()
      && s.output == c.blob[..c.Offset(s.nextChunkID)]
  }

  ghost predicate HasJob(w: Worker, id: nat) {
    match w
    case Checking(i) => i == id
    case Downloading(i) => i == id
    case Sending(res) => res.id == id
    case _ => false
  }

  /** Chunk `id` is with a worker, in a channel, in hand, in the reorder map, or delivered. */
  ghost predicate Somewhere(s: State, id: nat) {
    || (exists w :: 0 <= w < |s.workers| && HasJob(s.workers[w], id))
    || (exists i :: 0 <= i < |s.results| && s.results[i].id == id)
    || id in s.buffer
    || (s.loop.Holding? && s.loop.res.id == id)
    || id < s.nextChunkID
    || (s.loop.Writing? && id == s.nextChunkID)
  }

  /** Without cancellation no chunk is lost and the goroutines stop only when their work is done. */
  ghost predicate NothingLost(c: Config, s: State)
    requires c.Valid()
  {
    !s.cancelled ==>
      && (forall id: nat :: id < s.feeder.Fed() ==> Somewhere(s, id))
      && (s.feeder.Closed? ==> s.feeder.fed == c.NumChunks())
      && (forall w :: 0 <= w < |s.workers| && s.workers[w].Exited? ==> s.feeder.Closed?)
      && (s.loop.Receiving? ==> s.nextChunkID !in s.buffer)
      && (s.loop.Returned? || s.loop.Done? ==> s.output == c.blob && s.resultsClosed && s.results == [])
      && s.pipe != Failed(DownloadError) && s.pipe != Failed(ShortRead)
  }

  ghost predicate Shape(c: Config, s: State)
    requires c.Valid()
  {
    && (|s.workers| == c.concurrency || (|c.blob| == 0 && s.feeder.Closed?))
    && (|c.blob| == 0 ==> s.workers == [] && s.resultsClosed)
    && |s.results| <= c.concurrency
    && s.feeder.Fed() <= c.NumChunks()
    && (s.resultsClosed ==> forall w :: 0 <= w < |s.workers| ==> s.workers[w].Exited?)
    && (s.external ==> s.cancelled)
    && (s.readerClosed ==> s.external)
    && (s.pipe.CleanEOF? ==> s.loop.Done?)
    && (s.pipe.Open? ==> !s.loop.Done?)
    && (s.pipe.Failed? ==> s.cancelled && (s.loop.Returned? || s.loop.Done?))
    && (s.cancelled && !s.external ==> s.pipe.Failed?)
    && (forall w :: 0 <= w < |s.workers| && s.workers[w].Exited? ==> s.feeder.Closed? || s.cancelled)
  }

  ghost predicate Inv(c: Config, s: State) {
    c.Valid() && Shape(c, s) && DataOk(c, s) && OutputOk(c, s) && NothingLost(c, s)
  }

  lemma StartInv(c: Config)
    requires c.Valid()
    ensures Inv(c, Start(c))
  {
    OffsetSteps(c, 0);
  }

  lemma PoolShape(c: Config, s: State, a: Action)
    requires Inv(c, s) && Enabled(c, s, a) && IsPool(a)
    ensures Shape(c, Apply(c, s, a))
  {
  }

  lemma LoopShape(c: Config, s: State, a: Action)
    requires Inv(c, s) && Enabled(c, s, a) && !IsPool(a)
    ensures Shape(c, Apply(c, s, a))
  {
  }

  lemma PoolData(c: Config, s: State, a: Action)
    requires Inv(c, s) && Enabled(c, s, a) && IsPool(a)
    ensures DataOk(c, Apply(c, s, a))
  {
  }

  lemma LoopData(c: Config, s: State, a: Action)
    requires Inv(c, s) && Enabled(c, s, a) && !IsPool(a)
    ensures DataOk(c, Apply(c, s, a))
  {
  }

  lemma StepOutput(c: Config, s: State, a: Action)
    requires Inv(c, s) && Enabled(c, s, a)
    ensures OutputOk(c, Apply(c, s, a))
  {
    if IsPool(a) {
      PoolOutput(c, s, a);
    } else if a.Take? {
      TakeOutput(c, s);
    } else if a.Consume? {
      ConsumeOutput(c, s, a.n);
    } else if a.WriteDone? {
      WriteDoneOutput(c, s);
    } else if a.WriteFails? {
      WriteFailsOutput(c, s);
    } else {
      OthersOutput(c, s, a);
    }
  }

  lemma WriteFailsOutput(c: Config, s: State)
    requires Inv(c, s) && Enabled(c, s, WriteFails)
    ensures OutputOk(c, Apply(c, s, WriteFails))
  {
    assert s.output <= s.output + s.loop.rest;
  }

  lemma PoolOutput(c: Config, s: State, a: Action)
    requires c.Valid() && OutputOk(c, s) && Enabled(c, s, a) && IsPool(a)
    ensures OutputOk(c, Apply(c, s, a))
  {
  }

  lemma OthersOutput(c: Config, s: State, a: Action)
    requires Inv(c, s) && Enabled(c, s, a) && !IsPool(a)
    requires !a.Take? && !a.Consume? && !a.WriteDone? && !a.WriteFails?
    ensures OutputOk(c, Apply(c, s, a))
  {
  }

  lemma TakeOutput(c: Config, s: State)
    requires Inv(c, s) && Enabled(c, s, Take)
    ensures OutputOk(c, Apply(c, s, Take))
  {
    var id := s.nextChunkID;
    OffsetSteps(c, id);
    var lo, hi := c.Offset(id), c.Offset(id + 1);
    assert s.buffer[id].data == c.blob[lo..hi];
    assert c.blob[..lo] + c.blob[lo..hi] == c.blob[..hi];
  }

  lemma ConsumeOutput(c: Config, s: State, n: nat)
    requires Inv(c, s) && Enabled(c, s, Consume(n))
    ensures OutputOk(c, Apply(c, s, Consume(n)))
  {
    assert s.loop.rest == s.loop.rest[..n] + s.loop.rest[n..];
    assert s.output + s.loop.rest == (s.output + s.loop.rest[..n]) + s.loop.rest[n..];
  }

  lemma WriteDoneOutput(c: Config, s: State)
    requires Inv(c, s) && Enabled(c, s, WriteDone)
    ensures OutputOk(c, Apply(c, s, WriteDone))
  {
    assert s.output + [] == s.output;
  }

  lemma WorkerKeepsJob(c: Config, s: State, a: Action, w: nat, id: nat)
    requires Enabled(c, s, a) && !Apply(c, s, a).cancelled
    requires w < |s.workers| && HasJob(s.workers[w], id)
    ensures Somewhere(Apply(c, s, a), id)
  {
    var t := Apply(c, s, a);
    if a == Send(w) {
      assert t.results[|s.results|].id == id;
    } else {
      assert w < |t.workers| && HasJob(t.workers[w], id);
    }
  }

  lemma ResultKept(c: Config, s: State, a: Action, i: nat, id: nat)
    requires Enabled(c, s, a)
    requires i < |s.results| && s.results[i].id == id
    ensures Somewhere(Apply(c, s, a), id)
  {
    var t := Apply(c, s, a);
    if a == Receive {
      assert if i > 0 then t.results[i - 1].id == id else t.loop.res.id == id;
    } else {
      assert t.results[i].id == id;
    }
  }

  /** Moving a chunk from one place to the next never drops it. */
  lemma StaysSomewhere(c: Config, s: State, a: Action, id: nat)
    requires Inv(c, s) && Enabled(c, s, a) && !Apply(c, s, a).cancelled
    requires Somewhere(s, id)
    ensures Somewhere(Apply(c, s, a), id)
  {
    if w :| 0 <= w < |s.workers| && HasJob(s.workers[w], id) {
      WorkerKeepsJob(c, s, a, w, id);
    } else if i :| 0 <= i < |s.results| && s.results[i].id == id {
      ResultKept(c, s, a, i, id);
    }
  }

  lemma StepNothingLost(c: Config, s: State, a: Action)
    requires Inv(c, s) && Enabled(c, s, a)
    ensures NothingLost(c, Apply(c, s, a))
  {
    var t := Apply(c, s, a);
    if !t.cancelled {
      forall id: nat | id < t.feeder.Fed()
        ensures Somewhere(t, id)
      {
        if id < s.feeder.Fed() {
          StaysSomewhere(c, s, a, id);
        } else {
          assert HasJob(t.workers[a.w], id);
        }
      }
      if a == ResultsEnd {
        DrainedMeansAll(c, s);
      }
    }
  }

  /** When the results channel closes and is drained, every chunk has been written. */
  lemma DrainedMeansAll(c: Config, s: State)
    requires Inv(c, s) && Enabled(c, s, ResultsEnd) && !s.cancelled
    ensures s.output == c.blob
  {
    OffsetSteps(c, s.nextChunkID);
    if |c.blob| > 0 {
      assert s.workers[0].Exited?;
      assert s.nextChunkID < c.NumChunks() ==> Somewhere(s, s.nextChunkID);
    }
  }

  lemma StepInv(c: Config, s: State, a: Action)
    requires Inv(c, s) && Enabled(c, s, a)
    ensures Inv(c, Apply(c, s, a))
  {
    if IsPool(a) {
      PoolShape(c, s, a);
      PoolData(c, s, a);
    } else {
      LoopShape(c, s, a);
      LoopData(c, s, a);
    }
    StepOutput(c, s, a);
    StepNothingLost(c, s, a);
  }

  lemma {:induction false} RunInv(c: Config, s: State, run: seq<Action>, t: State)
    requires Inv(c, s) && Runs(c, s, run, t)
    ensures Inv(c, t)
    decreases |run|
  {
    if run != [] {
      StepInv(c, s, run[0]);
      RunInv(c, Apply(c, s, run[0]), run[1..], t);
    }
  }

  // ---------- safety over every interleaving ----------

  /** Whatever the interleaving, the consumer has received a prefix of the blob, made of the
      chunks before `nextChunkID` in order, plus at most a part of that chunk. */
  lemma OutputIsPrefix(c: Config, run: seq<Action>, t: State)
    requires c.Valid() && Runs(c, Start(c), run, t)
    ensures t.output <= c.blob
    ensures !t.cancelled ==>
              c.Offset(t.nextChunkID) <= |t.output| <= c.Offset(t.nextChunkID + 1)
  {
    StartInv(c);
    RunInv(c, Start(c), run, t);
    PrefixAt(c, t);
  }

  lemma PrefixAt(c: Config, t: State)
    requires c.Valid() && OutputOk(c, t)
    ensures t.output <= c.blob
    ensures !t.cancelled ==>
              c.Offset(t.nextChunkID) <= |t.output| <= c.Offset(t.nextChunkID + 1)
  {
    OffsetSteps(c, t.nextChunkID);
    if t.loop.Writing? {
      assert t.output <= t.output + t.loop.rest;
    }
  }

  /** A clean end of file means the whole blob, unless the caller cancelled or closed. */
  lemma CleanEOFIsComplete(c: Config, run: seq<Action>, t: State)
    requires c.Valid() && Runs(c, Start(c), run, t)
    requires t.pipe == CleanEOF && !t.external
    ensures t.output == c.blob
  {
    StartInv(c);
    RunInv(c, Start(c), run, t);
  }

  /** No worker ever sends on a closed results channel, and the channel is never overfull. */
  lemma NoSendAfterClose(c: Config, run: seq<Action>, t: State, w: nat)
    requires c.Valid() && Runs(c, Start(c), run, t)
    requires w < |t.workers| && !t.workers[w].Exited?
    ensures !t.resultsClosed && |t.results| <= c.concurrency
  {
    StartInv(c);
    RunInv(c, Start(c), run, t);
  }

  // ---------- errors come from downloads ----------

  ghost predicate NoFault(s: State, f: Fault) {
    && (forall w :: 0 <= w < |s.workers| && s.workers[w].Sending? && s.workers[w].res.Bad? ==>
          s.workers[w].res.fault != f)
    && (forall i :: 0 <= i < |s.results| && s.results[i].Bad? ==> s.results[i].fault != f)
    && (s.loop.Holding? && s.loop.res.Bad? ==> s.loop.res.fault != f)
    && s.pipe != Failed(f)
  }

  lemma PoolAddsNoFault(c: Config, s: State, a: Action, f: Fault)
    requires NoFault(s, f) && Enabled(c, s, a) && IsPool(a)
    requires a.DownloadFails? ==> a.fault != f
    ensures NoFault(Apply(c, s, a), f)
  {
  }

  lemma LoopAddsNoFault(c: Config, s: State, a: Action, f: Fault)
    requires NoFault(s, f) && Enabled(c, s, a) && !IsPool(a)
    ensures NoFault(Apply(c, s, a), f)
  {
  }

  lemma {:induction false} NoFaultRun(c: Config, s: State, run: seq<Action>, t: State, f: Fault)
    requires NoFault(s, f) && Runs(c, s, run, t)
    requires forall a :: a in run && a.DownloadFails? ==> a.fault != f
    ensures NoFault(t, f)
    decreases |run|
  {
    if run != [] {
      assert run[0] in run;
      if IsPool(run[0]) {
        PoolAddsNoFault(c, s, run[0], f);
      } else {
        LoopAddsNoFault(c, s, run[0], f);
      }
      NoFaultRun(c, Apply(c, s, run[0]), run[1..], t, f);
    }
  }

  /** The error the consumer sees is the error of some download of this run. */
  lemma ErrorIsADownloads(c: Config, run: seq<Action>, t: State)
    requires Runs(c, Start(c), run, t) && t.pipe.Failed?
    ensures exists w :: DownloadFails(w, t.pipe.fault) in run
  {
    var f := t.pipe.fault;
    if forall a :: a in run && a.DownloadFails? ==> a.fault != f {
      NoFaultRun(c, Start(c), run, t, f);
      assert false;
    }
    var a :| a in run && a.DownloadFails? && a.fault == f;
    assert DownloadFails(a.w, f) in run;
  }

  // ---------- termination ----------

  function WorkerRank(w: Worker): nat {
    match w
    case Idle => 1
    case Checking(_) => 9
    case Downloading(_) => 8
    case Sending(_) => 7
    case Exited => 0
  }

  function PoolRank(ws: seq<Worker>): nat {
    if ws == [] then 0 else WorkerRank(ws[0]) + PoolRank(ws[1..])
  }

  function LoopRank(l: Loop): nat {
    match l
    case Done => 0
    case Returned => 1
    case Receiving => 2
    case Delivering => 3
    case Writing(_) => 4
    case Holding(_) => 6
  }

  function Flag(b: bool): nat {
    if b then 1 else 0
  }

  /** Work left: jobs not fed, jobs with workers, results, entries to deliver, bytes to read. */
  function WorkLeft(jobs: nat, size: nat, s: State): nat {
    9 * Minus(jobs, s.feeder.Fed()) + Flag(s.feeder.Feeding?) + PoolRank(s.workers)
    + 5 * |s.results| + Flag(!s.resultsClosed) + LoopRank(s.loop) + 2 * |s.buffer|
    + Minus(size, |s.output|) + Flag(!s.external) + Flag(!s.readerClosed)
  }

  function Minus(a: nat, b: nat): nat {
    if b <= a then a - b else 0
  }

  function Rank(c: Config, s: State): nat
    requires c.chunkSize > 0
  {
    WorkLeft(c.NumChunks(), |c.blob|, s)
  }

  lemma {:induction false} PoolRankUpdate(ws: seq<Worker>, i: nat, w: Worker)
    requires i < |ws|
    ensures PoolRank(ws[i := w]) + WorkerRank(ws[i]) == PoolRank(ws) + WorkerRank(w)
  {
    if i == 0 {
      assert ws[i := w][1..] == ws[1..];
    } else {
      assert ws[i := w][1..] == ws[1..][i - 1 := w];
      PoolRankUpdate(ws[1..], i - 1, w);
    }
  }

  lemma PoolStepFalls(c: Config, s: State, a: Action, jobs: nat, size: nat)
    requires Enabled(c, s, a) && IsPool(a)
    requires a.FeedJob? ==> s.feeder.next < jobs
    ensures WorkLeft(jobs, size, Apply(c, s, a)) < WorkLeft(jobs, size, s)
  {
    if !a.FeedEnd? && !a.FeedCancelled? && !a.CloseResults? {
      WorkerStepFalls(c, s, a, jobs, size);
    }
  }

  lemma WorkerStepFalls(c: Config, s: State, a: Action, jobs: nat, size: nat)
    requires Enabled(c, s, a) && IsPool(a) && !a.FeedEnd? && !a.FeedCancelled? && !a.CloseResults?
    requires a.FeedJob? ==> s.feeder.next < jobs
    ensures WorkLeft(jobs, size, Apply(c, s, a)) < WorkLeft(jobs, size, s)
  {
    PoolRankUpdate(s.workers, a.w, Apply(c, s, a).workers[a.w]);
    if a.FeedJob? || a.Send? {
      HandOverFalls(c, s, a, jobs, size);
    }
  }

  lemma HandOverFalls(c: Config, s: State, a: Action, jobs: nat, size: nat)
    requires Enabled(c, s, a) && (a.FeedJob? || a.Send?)
    requires a.FeedJob? ==> s.feeder.next < jobs
    ensures WorkLeft(jobs, size, Apply(c, s, a)) < WorkLeft(jobs, size, s)
  {
    PoolRankUpdate(s.workers, a.w, Apply(c, s, a).workers[a.w]);
  }

  lemma OneFewer(buffer: map<nat, Chunk>, id: nat)
    requires id in buffer
    ensures |buffer - {id}| == |buffer| - 1
  {
    assert buffer.Keys == (buffer - {id}).Keys + {id};
  }

  lemma OneMore(buffer: map<nat, Chunk>, id: nat, res: Chunk)
    ensures |buffer[id := res]| <= |buffer| + 1
  {
    assert buffer[id := res].Keys == buffer.Keys + {id};
  }

  lemma TakeFalls(c: Config, s: State, jobs: nat, size: nat)
    requires Enabled(c, s, Take)
    ensures WorkLeft(jobs, size, Apply(c, s, Take)) < WorkLeft(jobs, size, s)
  {
    OneFewer(s.buffer, s.nextChunkID);
  }

  lemma StoreFalls(c: Config, s: State, jobs: nat, size: nat)
    requires Enabled(c, s, Store)
    ensures WorkLeft(jobs, size, Apply(c, s, Store)) < WorkLeft(jobs, size, s)
  {
    OneMore(s.buffer, s.loop.res.id, s.loop.res);
  }

  lemma ConsumeFalls(c: Config, s: State, n: nat, jobs: nat, size: nat)
    requires Enabled(c, s, Consume(n)) && |s.output| + |s.loop.rest| <= size
    ensures WorkLeft(jobs, size, Apply(c, s, Consume(n))) < WorkLeft(jobs, size, s)
  {
  }

  lemma LoopStepFalls(c: Config, s: State, a: Action, jobs: nat, size: nat)
    requires Enabled(c, s, a) && !IsPool(a)
    requires s.loop.Writing? ==> |s.output| + |s.loop.rest| <= size
    ensures WorkLeft(jobs, size, Apply(c, s, a)) < WorkLeft(jobs, size, s)
  {
    match a
    case Take => TakeFalls(c, s, jobs, size);
    case Store => StoreFalls(c, s, jobs, size);
    case Consume(n) => ConsumeFalls(c, s, n, jobs, size);
    case _ => OthersFall(c, s, a, jobs, size);
  }

  lemma OthersFall(c: Config, s: State, a: Action, jobs: nat, size: nat)
    requires Enabled(c, s, a) && !IsPool(a) && !a.Take? && !a.Store? && !a.Consume?
    ensures WorkLeft(jobs, size, Apply(c, s, a)) < WorkLeft(jobs, size, s)
  {
  }

  lemma StepDecreases(c: Config, s: State, a: Action)
    requires Inv(c, s) && Enabled(c, s, a)
    ensures Inv(c, Apply(c, s, a))
    ensures Rank(c, Apply(c, s, a)) < Rank(c, s)
  {
    StepInv(c, s, a);
    if s.loop.Writing? {
      assert |s.output + s.loop.rest| <= |c.blob|;
    }
    if IsPool(a) {
      PoolStepFalls(c, s, a, c.NumChunks(), |c.blob|);
    } else {
      LoopStepFalls(c, s, a, c.NumChunks(), |c.blob|);
    }
  }

  lemma {:induction false} RunLength(c: Config, s: State, run: seq<Action>, t: State)
    requires Inv(c, s) && Runs(c, s, run, t)
    ensures |run| <= Rank(c, s)
    decreases |run|
  {
    if run != [] {
      StepDecreases(c, s, run[0]);
      RunLength(c, Apply(c, s, run[0]), run[1..], t);
    }
  }

  lemma {:induction false} IdlePoolRank(n: nat)
    ensures PoolRank(seq(n, _ => Idle)) == n
  {
    if n > 0 {
      assert seq(n, _ => Idle)[1..] == seq(n - 1, _ => Idle);
      IdlePoolRank(n - 1);
    }
  }

  /** Every run is finite, and this bounds its number of actions. */
  lemma RunsAreBounded(c: Config, run: seq<Action>, t: State)
    requires c.Valid() && Runs(c, Start(c), run, t)
    ensures |run| <= 9 * c.NumChunks() + c.concurrency + |c.blob| + 6
  {
    StartInv(c);
    RunLength(c, Start(c), run, t);
    IdlePoolRank(c.concurrency);
  }

  // ---------- no deadlock ----------

  ghost predicate PoolFinished(s: State) {
    s.feeder.Closed? && s.resultsClosed && forall w :: 0 <= w < |s.workers| ==> s.workers[w].Exited?
  }

  ghost predicate Finished(s: State) {
    PoolFinished(s) && s.loop.Done?
  }

  /** A pool that is not blocked on a full results channel can move. */
  lemma PoolMoves(c: Config, s: State)
    requires Inv(c, s) && !PoolFinished(s)
    requires s.cancelled || |s.results| < c.concurrency
    ensures exists a :: IsPool(a) && Enabled(c, s, a)
  {
    if w :| 0 <= w < |s.workers| && !s.workers[w].Exited? {
      var a := match s.workers[w] {
        case Idle => if s.feeder.Closed? then WorkerQuit(w)
                     else if s.feeder.next < c.NumChunks() then FeedJob(w) else FeedEnd
        case Checking(_) => if s.cancelled then CheckCancelled(w) else CheckPasses(w)
        case Downloading(_) => DownloadOk(w)
        case Sending(_) => if s.cancelled then SendCancelled(w) else Send(w)
        case Exited => CloseResults
      };
      assert WorkerOk(c, s.workers[w]);
      assert IsPool(a) && Enabled(c, s, a);
    } else if s.feeder.Feeding? {
      var a := if s.feeder.next < c.NumChunks() then FeedCancelled else FeedEnd;
      assert |c.blob| > 0 ==> s.workers[0].Exited?;
      assert IsPool(a) && Enabled(c, s, a);
    } else {
      assert IsPool(CloseResults) && Enabled(c, s, CloseResults);
    }
  }

  lemma PoolKeepsCancelled(c: Config, s: State, a: Action)
    requires Enabled(c, s, a) && IsPool(a)
    ensures Apply(c, s, a).cancelled == s.cancelled
  {
  }

  lemma PoolAction(c: Config, s: State) returns (a: Action)
    requires Inv(c, s) && s.cancelled && !PoolFinished(s)
    ensures IsPool(a) && Enabled(c, s, a)
    ensures Inv(c, Apply(c, s, a)) && Apply(c, s, a).cancelled
    ensures Rank(c, Apply(c, s, a)) < Rank(c, s)
  {
    PoolMoves(c, s);
    a :| IsPool(a) && Enabled(c, s, a);
    StepDecreases(c, s, a);
    PoolKeepsCancelled(c, s, a);
  }

  lemma {:induction false} PoolDrains(c: Config, s: State) returns (run: seq<Action>, t: State)
    requires Inv(c, s) && s.cancelled
    ensures Runs(c, s, run, t) && PoolFinished(t)
    ensures forall i :: 0 <= i < |run| ==> IsPool(run[i])
    decreases Rank(c, s)
  {
    if PoolFinished(s) {
      run, t := [], s;
    } else {
      var a := PoolAction(c, s);
      var rest;
      rest, t := PoolDrains(c, Apply(c, s, a));
      run := [a] + rest;
      assert run[1..] == rest;
    }
  }

  /** After cancellation the feeder, the workers and the closer can run to their exit on their
      own, even when the results channel is full and nobody reads the pipe. */
  lemma CancelReleasesPool(c: Config, run: seq<Action>, s: State) returns (more: seq<Action>, t: State)
    requires c.Valid() && Runs(c, Start(c), run, s) && s.cancelled
    ensures Runs(c, s, more, t) && PoolFinished(t)
    ensures forall i :: 0 <= i < |more| ==> IsPool(more[i])
  {
    StartInv(c);
    RunInv(c, Start(c), run, s);
    more, t := PoolDrains(c, s);
  }

  /** The delivery loop can move unless it waits for a result or has ended. */
  lemma LoopMoves(c: Config, s: State)
    requires Inv(c, s) && !s.loop.Done?
    requires s.loop.Receiving? ==> s.results != [] || s.resultsClosed
    ensures exists a :: IsSystem(a) && Enabled(c, s, a)
  {
    var a := match s.loop {
      case Receiving => if s.results != [] then Receive else ResultsEnd
      case Holding(res) => if res.Bad? then Fail else Store
      case Delivering => if s.nextChunkID in s.buffer then Take else Miss
      case Writing(rest) => if rest == [] then WriteDone
                            else if s.readerClosed then WriteFails else Consume(|rest|)
      case _ => ClosePipe
    };
    assert IsSystem(a) && Enabled(c, s, a);
  }

  /** A loop that has ended without cancellation has seen the pool end. */
  lemma DoneMeansPoolFinished(c: Config, s: State)
    requires Inv(c, s) && s.loop.Done? && !s.cancelled
    ensures PoolFinished(s)
  {
    if |c.blob| > 0 {
      assert s.workers[0].Exited?;
    }
  }

  /** With a consumer that keeps reading, a state that is not final always has a next action. */
  lemma NeverDeadlocks(c: Config, run: seq<Action>, s: State)
    requires c.Valid() && Runs(c, Start(c), run, s) && !Finished(s)
    ensures exists a :: IsSystem(a) && Enabled(c, s, a)
  {
    StartInv(c);
    RunInv(c, Start(c), run, s);
    SomethingMoves(c, s);
  }

  lemma SomethingMoves(c: Config, s: State)
    requires Inv(c, s) && !Finished(s)
    ensures exists a :: IsSystem(a) && Enabled(c, s, a)
  {
    if s.loop.Done? || (s.loop.Receiving? && s.results == [] && !s.resultsClosed) {
      if s.loop.Done? && !s.cancelled {
        DoneMeansPoolFinished(c, s);
      }
      PoolMoves(c, s);
      var a :| IsPool(a) && Enabled(c, s, a);
      assert IsSystem(a);
    } else {
      LoopMoves(c, s);
    }
  }

  // ---------- what every maximal run delivers ----------

  /** A run that cannot be continued without outside interference has finished everything.  If
      nobody cancelled, it delivered the whole blob cleanly or reported the error of a download;
      with no failed download every interleaving delivers the same bytes, the blob. */
  lemma MaximalRunDelivers(c: Config, run: seq<Action>, t: State)
    requires c.Valid() && Runs(c, Start(c), run, t)
    requires forall a :: IsSystem(a) ==> !Enabled(c, t, a)
    ensures Finished(t) && t.output <= c.blob
    ensures !t.external ==>
              || (t.pipe == CleanEOF && t.output == c.blob)
              || (t.pipe.Failed? && exists w :: DownloadFails(w, t.pipe.fault) in run)
    ensures !t.external && (forall a :: a in run ==> !a.DownloadFails?) ==>
              t.pipe == CleanEOF && t.output == c.blob
  {
    if !Finished(t) {
      NeverDeadlocks(c, run, t);
    }
    StartInv(c);
    RunInv(c, Start(c), run, t);
    OutputIsPrefix(c, run, t);
    if t.pipe.Failed? {
      ErrorIsADownloads(c, run, t);
    } else if !t.external {
      CleanEOFIsComplete(c, run, t);
    }
  }

  // ---------- what cancellation and slow chunks can do ----------

  lemma {:induction false} RunsCompose(c: Config, s: State, r1: seq<Action>, m: State, r2: seq<Action>, t: State)
    requires Runs(c, s, r1, m) && Runs(c, m, r2, t)
    ensures Runs(c, s, r1 + r2, t)
    decreases |r1|
  {
    if r1 == [] {
      assert r1 + r2 == r2;
    } else {
      assert (r1 + r2)[1..] == r1[1..] + r2;
      RunsCompose(c, Apply(c, s, r1[0]), r1[1..], m, r2, t);
    }
  }

  lemma RunOne(c: Config, s: State, a: Action)
    requires Enabled(c, s, a)
    ensures Runs(c, s, [a], Apply(c, s, a))
  {
    assert [a][1..] == [];
  }

  /** Extends a run by one action. */
  lemma Then(c: Config, s: State, run: seq<Action>, m: State, a: Action)
    requires Runs(c, s, run, m) && Enabled(c, m, a)
    ensures Runs(c, s, run + [a], Apply(c, m, a))
  {
    RunOne(c, m, a);
    RunsCompose(c, s, run, m, [a], Apply(c, m, a));
  }

  function Quitting(k: nat, n: nat): seq<Worker>
    requires k <= n
  {
    seq(n, i => if i < k then Exited else Idle)
  }

  lemma {:induction false} WorkersQuit(c: Config, s: State, k: nat) returns (run: seq<Action>)
    requires s.feeder.Closed? && k <= |s.workers|
    requires s.workers == Quitting(0, |s.workers|)
    ensures Runs(c, s, run, s.(workers := Quitting(k, |s.workers|)))
  {
    if k == 0 {
      run := [];
    } else {
      var before := WorkersQuit(c, s, k - 1);
      var m := s.(workers := Quitting(k - 1, |s.workers|));
      Then(c, s, before, m, WorkerQuit(k - 1));
      assert m.workers[k - 1 := Exited] == Quitting(k, |s.workers|);
      run := before + [WorkerQuit(k - 1)];
    }
  }

  /** The last three actions once all workers have quit. */
  lemma CloseAfterQuit(c: Config, s: State) returns (run: seq<Action>, t: State)
    requires !s.resultsClosed && s.results == [] && s.loop.Receiving? && s.pipe.Open?
    requires forall w :: 0 <= w < |s.workers| ==> s.workers[w].Exited?
    ensures Runs(c, s, run, t)
    ensures t.pipe == CleanEOF && t.output == s.output && t.external == s.external
  {
    var s1 := Apply(c, s, CloseResults);
    RunOne(c, s, CloseResults);
    var s2 := Apply(c, s1, ResultsEnd);
    Then(c, s, [CloseResults], s1, ResultsEnd);
    t := Apply(c, s2, ClosePipe);
    run := [CloseResults] + [ResultsEnd];
    Then(c, s, run, s2, ClosePipe);
    run := run + [ClosePipe];
  }

  lemma CancelAtOnce(c: Config) returns (run: seq<Action>, t: State)
    requires c.Valid() && |c.blob| > 0
    ensures Runs(c, Start(c), run, t)
    ensures t == Start(c).(feeder := Closed(0), cancelled := true, external := true)
  {
    OffsetSteps(c, 0);
    var s1 := Apply(c, Start(c), CancelParent);
    RunOne(c, Start(c), CancelParent);
    t := Apply(c, s1, FeedCancelled);
    Then(c, Start(c), [CancelParent], s1, FeedCancelled);
    run := [CancelParent] + [FeedCancelled];
  }

  /** The condition on cancellation is needed: for every non-empty blob there is a run in which
      the caller cancels and the consumer sees a clean end of file after no bytes at all. */
  lemma CancelTruncates(c: Config) returns (run: seq<Action>, t: State)
    requires c.Valid() && |c.blob| > 0
    ensures Runs(c, Start(c), run, t) && t.external
    ensures t.pipe == CleanEOF && t.output == [] != c.blob
  {
    var s;
    run, s := CancelAtOnce(c);
    assert s.workers == Quitting(0, c.concurrency);
    var quit := WorkersQuit(c, s, c.concurrency);
    var s' := s.(workers := Quitting(c.concurrency, c.concurrency));
    RunsCompose(c, Start(c), run, s, quit, s');
    var close;
    close, t := CloseAfterQuit(c, s');
    RunsCompose(c, Start(c), run + quit, s', close, t);
    run := run + quit + close;
  }

  // ---------- how full the reorder map gets ----------

  function Held(c: Config, j: nat): (m: map<nat, Chunk>)
    requires c.chunkSize > 0
    requires j < c.NumChunks()
    ensures |m| == j && forall id :: id in m ==> 1 <= id <= j
  {
    if j == 0 then map[] else
      assert j !in Held(c, j - 1);
      Held(c, j - 1)[j := Good(j, c.Slice(j))]
  }

  function Stalled(c: Config, j: nat): State
    requires c.Valid() && c.concurrency > 1 && j < c.NumChunks()
  {
    Start(c).(feeder := Feeding(j + 1),
              workers := Start(c).workers[0 := Checking(0)],
              buffer := Held(c, j))
  }

  /** Backpressure does not bound the reorder map: with two or more workers, while one worker is
      slow with the first chunk the map can come to hold every other chunk of the blob. */
  lemma {:induction false} ReorderMapUnbounded(c: Config, j: nat) returns (run: seq<Action>)
    requires c.Valid() && c.concurrency > 1 && |c.blob| > 0 && j < c.NumChunks()
    ensures Runs(c, Start(c), run, Stalled(c, j)) && |Stalled(c, j).buffer| == j
  {
    if j == 0 {
      run := [FeedJob(0)];
      RunOne(c, Start(c), FeedJob(0));
    } else {
      run := ReorderMapUnbounded(c, j - 1);
      var i := 0;
      while i < 7
        invariant 0 <= i <= 7
        invariant Runs(c, Start(c), run, StalledMidRound(c, j, i))
      {
        MidRoundStep(c, j, i);
        Then(c, Start(c), run, StalledMidRound(c, j, i), RoundAction(i));
        run := run + [RoundAction(i)];
        i := i + 1;
      }
    }
  }

  /** One round of the fast worker and the delivery loop. */
  function RoundAction(i: nat): Action {
    match i
    case 0 => FeedJob(1)
    case 1 => CheckPasses(1)
    case 2 => DownloadOk(1)
    case 3 => Send(1)
    case 4 => Receive
    case 5 => Store
    case _ => Miss
  }

  lemma MidRoundStep(c: Config, j: nat, i: nat)
    requires c.Valid() && c.concurrency > 1 && 0 < j < c.NumChunks() && i < 7
    requires |c.blob| > 0
    ensures Enabled(c, StalledMidRound(c, j, i), RoundAction(i))
    ensures Apply(c, StalledMidRound(c, j, i), RoundAction(i)) == StalledMidRound(c, j, i + 1)
  {
    var s := StalledMidRound(c, j, i);
    var t := Apply(c, s, RoundAction(i));
    assert t.workers == StalledMidRound(c, j, i + 1).workers;
    assert t.results == StalledMidRound(c, j, i + 1).results;
  }

  function StalledMidRound(c: Config, j: nat, i: nat): State
    requires c.Valid() && c.concurrency > 1 && 0 < j < c.NumChunks() && i <= 7
  {
    var s := Stalled(c, j - 1);
    var good := Good(j, c.Slice(j));
    match i
    case 0 => s
    case 1 => s.(feeder := Feeding(j + 1), workers := s.workers[1 := Checking(j)])
    case 2 => s.(feeder := Feeding(j + 1), workers := s.workers[1 := Downloading(j)])
    case 3 => s.(feeder := Feeding(j + 1), workers := s.workers[1 := Sending(good)])
    case 4 => s.(feeder := Feeding(j + 1), results := [good])
    case 5 => s.(feeder := Feeding(j + 1), loop := Holding(good))
    case 6 => s.(feeder := Feeding(j + 1), loop := Delivering, buffer := Held(c, j))
    case _ => Stalled(c, j)
  }

  /** The worker with the first chunk gets it through to the results channel. */
  lemma FirstChunkArrives(c: Config, s: State) returns (run: seq<Action>, t: State)
    requires c.Valid() && |c.blob| > 0 && !s.cancelled && s.results == [] && s.loop.Receiving?
    requires |s.workers| > 0 && s.workers[0] == Checking(0)
    ensures Runs(c, s, run, t) && t.buffer == s.buffer && t.loop.Receiving?
    ensures t.results == [Good(0, c.Slice(0))]
  {
    OffsetSteps(c, 0);
    var s1 := Apply(c, s, CheckPasses(0));
    RunOne(c, s, CheckPasses(0));
    var s2 := Apply(c, s1, DownloadOk(0));
    Then(c, s, [CheckPasses(0)], s1, DownloadOk(0));
    t := Apply(c, s2, Send(0));
    run := [CheckPasses(0)] + [DownloadOk(0)];
    Then(c, s, run, s2, Send(0));
    run := run + [Send(0)];
  }

  /** One step more: the missing first chunk arrives and is in the map with all the others. */
  lemma FirstChunkLast(c: Config, j: nat) returns (run: seq<Action>, t: State)
    requires c.Valid() && c.concurrency > 1 && |c.blob| > 0 && j < c.NumChunks()
    ensures Runs(c, Start(c), run, t) && |t.buffer| == j + 1
  {
    run := ReorderMapUnbounded(c, j);
    var s := Stalled(c, j);
    var more, m := FirstChunkArrives(c, s);
    RunsCompose(c, Start(c), run, s, more, m);
    run := run + more;
    var m' := Apply(c, m, Receive);
    Then(c, Start(c), run, m, Receive);
    run := run + [Receive];
    t := Apply(c, m', Store);
    Then(c, Start(c), run, m', Store);
    run := run + [Store];
    assert 0 !in m.buffer && t.buffer.Keys == m.buffer.Keys + {0};
  }

  /** What the delivery loop, the channel and a single worker hold, in order: consecutive chunks. */
  function NextResult(s: State): nat {
    match s.loop
    case Holding(_) => s.nextChunkID + 1
    case Writing(_) => s.nextChunkID + 1
    case Delivering => s.nextChunkID + |s.buffer|
    case _ => s.nextChunkID
  }

  ghost predicate JobIs(w: Worker, id: nat, fed: nat) {
    match w
    case Idle => fed == id
    case Checking(i) => i == id && fed == id + 1
    case Downloading(i) => i == id && fed == id + 1
    case Sending(res) => res.id == id && fed == id + 1
    case Exited => true
  }

  ghost predicate InOrder(s: State) {
    && |s.workers| <= 1
    && (if s.loop.Delivering? then s.buffer.Keys <= {s.nextChunkID} else s.buffer == map[])
    && (!s.loop.Returned? && !s.loop.Done? ==>
          (s.loop.Holding? ==> s.loop.res.id == s.nextChunkID)
          && (forall i :: 0 <= i < |s.results| ==> s.results[i].id == NextResult(s) + i)
          && (s.workers != [] ==> JobIs(s.workers[0], NextResult(s) + |s.results|, s.feeder.Fed())))
  }

  lemma FeedKeepsOrder(c: Config, s: State, a: Action)
    requires InOrder(s) && Enabled(c, s, a)
    requires a.FeedJob? || a.FeedEnd? || a.FeedCancelled? || a.CloseResults?
    ensures InOrder(Apply(c, s, a))
  {
  }

  lemma SendKeepsOrder(c: Config, s: State, w: nat)
    requires InOrder(s) && Enabled(c, s, Send(w))
    ensures InOrder(Apply(c, s, Send(w)))
  {
  }

  lemma WorkerKeepsOrder(c: Config, s: State, a: Action)
    requires InOrder(s) && Enabled(c, s, a)
    requires a.WorkerQuit? || a.CheckPasses? || a.CheckCancelled? || a.DownloadOk? || a.DownloadFails? || a.SendCancelled?
    ensures InOrder(Apply(c, s, a))
  {
  }

  lemma PoolKeepsOrder(c: Config, s: State, a: Action)
    requires InOrder(s) && Enabled(c, s, a) && IsPool(a)
    ensures InOrder(Apply(c, s, a))
  {
    if a.FeedJob? || a.FeedEnd? || a.FeedCancelled? || a.CloseResults? {
      FeedKeepsOrder(c, s, a);
    } else if a.Send? {
      SendKeepsOrder(c, s, a.w);
    } else {
      WorkerKeepsOrder(c, s, a);
    }
  }

  lemma LoopKeepsOrder(c: Config, s: State, a: Action)
    requires InOrder(s) && Enabled(c, s, a) && !IsPool(a)
    ensures InOrder(Apply(c, s, a))
  {
    match a
    case Receive => ReceiveKeepsOrder(c, s);
    case Store => StoreKeepsOrder(c, s);
    case Take => TakeKeepsOrder(c, s);
    case Miss => MissKeepsOrder(c, s);
    case WriteDone => WriteDoneKeepsOrder(c, s);
    case _ =>
      if a.Consume? || a.CancelParent? || a.CloseReader? {
        OthersKeepOrder(c, s, a);
      } else {
        EndKeepsOrder(c, s, a);
      }
  }

  lemma ReceiveKeepsOrder(c: Config, s: State)
    requires InOrder(s) && Enabled(c, s, Receive)
    ensures InOrder(Apply(c, s, Receive))
  {
  }

  lemma MissKeepsOrder(c: Config, s: State)
    requires InOrder(s) && Enabled(c, s, Miss)
    ensures InOrder(Apply(c, s, Miss))
  {
    assert s.buffer.Keys == {};
    assert s.buffer == map[] && |s.buffer| == 0;
  }

  lemma WriteDoneKeepsOrder(c: Config, s: State)
    requires InOrder(s) && Enabled(c, s, WriteDone)
    ensures InOrder(Apply(c, s, WriteDone))
  {
  }

  /** Actions that end the loop. */
  lemma EndKeepsOrder(c: Config, s: State, a: Action)
    requires InOrder(s) && Enabled(c, s, a)
    requires a.ResultsEnd? || a.Fail? || a.WriteFails? || a.ClosePipe?
    ensures InOrder(Apply(c, s, a))
  {
    var t := Apply(c, s, a);
    assert t.loop.Returned? || t.loop.Done?;
    assert t.buffer == s.buffer && t.workers == s.workers;
  }

  /** Actions that leave the order of results alone. */
  lemma OthersKeepOrder(c: Config, s: State, a: Action)
    requires InOrder(s) && Enabled(c, s, a)
    requires a.Consume? || a.CancelParent? || a.CloseReader?
    ensures InOrder(Apply(c, s, a))
  {
    var t := Apply(c, s, a);
    assert t.results == s.results && t.workers == s.workers && t.feeder == s.feeder && t.buffer == s.buffer;
    assert NextResult(t) == NextResult(s);
  }

  lemma StoreKeepsOrder(c: Config, s: State)
    requires InOrder(s) && Enabled(c, s, Store)
    ensures InOrder(Apply(c, s, Store))
  {
    var t := Apply(c, s, Store);
    assert t.buffer.Keys == {s.nextChunkID};
    assert |t.buffer| == |t.buffer.Keys| == 1;
  }

  lemma TakeKeepsOrder(c: Config, s: State)
    requires InOrder(s) && Enabled(c, s, Take)
    ensures InOrder(Apply(c, s, Take))
  {
    assert s.buffer.Keys == {s.nextChunkID};
    assert |s.buffer| == |s.buffer.Keys| == 1;
    assert Apply(c, s, Take).buffer == map[];
  }

  lemma {:induction false} RunInOrder(c: Config, s: State, run: seq<Action>, t: State)
    requires InOrder(s) && Runs(c, s, run, t)
    ensures InOrder(t)
    decreases |run|
  {
    if run != [] {
      if IsPool(run[0]) {
        PoolKeepsOrder(c, s, run[0]);
      } else {
        LoopKeepsOrder(c, s, run[0]);
      }
      RunInOrder(c, Apply(c, s, run[0]), run[1..], t);
    }
  }

  lemma {:induction false} IdsBelow(ids: set<nat>, n: nat)
    requires forall id :: id in ids ==> id < n
    ensures |ids| <= n
    decreases n
  {
    if n > 0 {
      var last: nat := n - 1;
      IdsBelow(ids - {last}, last);
      if last in ids {
        assert |ids - {last}| == |ids| - 1;
      } else {
        assert ids - {last} == ids;
      }
    } else {
      assert ids == {};
    }
  }

  /** In no run does the reorder map hold more than all chunks, or more than one with one worker. */
  lemma ReorderMapAtMost(c: Config, run: seq<Action>, t: State)
    requires c.Valid() && Runs(c, Start(c), run, t)
    ensures |t.buffer| <= c.NumChunks()
    ensures c.concurrency == 1 ==> |t.buffer| <= 1
  {
    StartInv(c);
    RunInv(c, Start(c), run, t);
    IdsBelow(t.buffer.Keys, c.NumChunks());
    assert |t.buffer.Keys| == |t.buffer|;
    if c.concurrency == 1 {
      RunInOrder(c, Start(c), run, t);
      if t.loop.Delivering? {
        KeysAmong(t.buffer, t.nextChunkID);
      }
    }
  }

  lemma KeysAmong(buffer: map<nat, Chunk>, id: nat)
    requires buffer.Keys <= {id}
    ensures |buffer| <= 1
  {
    if id in buffer {
      OneFewer(buffer, id);
      assert buffer - {id} == map[];
    } else {
      assert buffer == map[];
    }
  }

  ghost predicate MapBounded(c: Config, bound: nat)
    requires c.chunkSize > 0
  {
    forall run, t :: Runs(c, Start(c), run, t) ==> |t.buffer| <= bound
  }

  /** The reorder map is bounded by a number in all runs if and only if the blob has no more chunks
      than that or there is a single worker: backpressure bounds it in no other case. */
  lemma ReorderMapBoundIff(c: Config, bound: nat)
    requires c.Valid() && bound >= 1
    ensures MapBounded(c, bound) <==> c.NumChunks() <= bound || c.concurrency == 1
  {
    if c.NumChunks() <= bound || c.concurrency == 1 {
      forall run, t | Runs(c, Start(c), run, t) ensures |t.buffer| <= bound {
        ReorderMapAtMost(c, run, t);
      }
    } else {
      OffsetSteps(c, 0);
      var run, t := FirstChunkLast(c, bound);
      assert Runs(c, Start(c), run, t) && |t.buffer| > bound;
    }
  }
}
