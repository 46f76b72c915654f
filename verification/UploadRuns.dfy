/** The two backends under the upload protocol: one writes the parts that a completion gathered, the
    other commits staged blocks.  When both store the same objects. */
module UploadRuns {
  import opened Text
  import opened Multipart
  import opened BlockStaging
  import opened UploadProtocol

  /** The upload that a request works on. */
  function UploadOf(c: Core, r: nat): Upload
    requires r in c.requests && c.requests[r].upload < |c.uploads.begun|
  {
    c.uploads.begun[c.requests[r].upload]
  }

  // ---------- buffered parts ----------

  datatype FileSystem = FileSystem(core: Core, objects: map<ObjectName, Bytes>)

  ghost function FileNext(s: FileSystem, a: Action): FileSystem
    requires Enabled(s.core, a)
  {
    FileSystem(Next(s.core, a),
               if a.Write? then s.objects[UploadOf(s.core, a.r).name := ObjectOf(s.core.requests[a.r].log)] else s.objects)
  }

  ghost predicate FileRuns(s: FileSystem, run: seq<Action>, t: FileSystem)
    decreases |run|
  {
    if run == [] then s == t
    else Enabled(s.core, run[0]) && FileRuns(FileNext(s, run[0]), run[1..], t)
  }

  lemma {:induction false} FileRunsAreRuns(s: FileSystem, run: seq<Action>, t: FileSystem)
    requires FileRuns(s, run, t)
    ensures Runs(s.core, run, t.core)
    decreases |run|
  {
    if run != [] {
      FileRunsAreRuns(FileNext(s, run[0]), run[1..], t);
    }
  }

  /** The parts recorded for an upload during a run. */
  ghost function AddedBy(c: Core, run: seq<Action>, u: nat): Log
    decreases |run|
  {
    if run == [] || !Enabled(c, run[0]) then []
    else Added(c, run[0], u) + AddedBy(Next(c, run[0]), run[1..], u)
  }

  lemma {:induction false} LogAfter(c: Core, run: seq<Action>, d: Core, u: nat)
    requires Runs(c, run, d) && u < |c.uploads.begun|
    ensures u < |d.uploads.begun| && d.uploads.begun[u].name == c.uploads.begun[u].name
    ensures d.uploads.begun[u].log == c.uploads.begun[u].log + AddedBy(c, run, u)
    decreases |run|
  {
    var log := c.uploads.begun[u].log;
    if run == [] {
      assert log + [] == log;
    } else {
      UploadsAreIndependent(c, run[0], u);
      LogAfter(Next(c, run[0]), run[1..], d, u);
      assert log + (Added(c, run[0], u) + AddedBy(Next(c, run[0]), run[1..], u)) ==
             log + Added(c, run[0], u) + AddedBy(Next(c, run[0]), run[1..], u);
    }
  }

  /** Until it writes or fails, a completion keeps what it has gathered. */
  lemma {:induction false} StaysGathered(c: Core, run: seq<Action>, d: Core, r: nat)
    requires Runs(c, run, d) && r in c.requests && c.requests[r].Gathered?
    requires Write(r) !in run && Fail(r) !in run
    ensures r in d.requests && d.requests[r] == c.requests[r]
    decreases |run|
  {
    if run != [] {
      assert run[0] in run && forall a :: a in run[1..] ==> a in run;
      StaysGathered(Next(c, run[0]), run[1..], d, r);
    }
  }

  /** Whatever happens between gathering and writing, a completion stores the object of the parts it
      gathered: the last data of each, in ascending part number.  The upload's parts by then are these
      followed by those recorded in between. */
  lemma CompleteStores(s: FileSystem, r: nat, run: seq<Action>, t: FileSystem)
    requires Inv(s.core) && Enabled(s.core, Gather(r)) && FileRuns(FileNext(s, Gather(r)), run, t)
    requires Write(r) !in run && Fail(r) !in run
    ensures Enabled(t.core, Write(r))
    ensures var u := s.core.requests[r].upload;
            var gathered, between := s.core.uploads.begun[u].log, AddedBy(Next(s.core, Gather(r)), run, u);
            && FileNext(t, Write(r)).objects == t.objects[s.core.uploads.begun[u].name := ObjectOf(gathered)]
            && u < |t.core.uploads.begun| && t.core.uploads.begun[u].log == gathered + between
  {
    var c, u := Next(s.core, Gather(r)), s.core.requests[r].upload;
    FileRunsAreRuns(FileNext(s, Gather(r)), run, t);
    LogAfter(c, run, t.core, u);
    StaysGathered(c, run, t.core, r);
  }

  // ---------- staged parts ----------

  /** `history` is what happened at each object's staging area; `stagedAt` tells where a request that
      has staged its part did so. */
  datatype BlobSystem = BlobSystem(
    core: Core,
    objects: map<ObjectName, Bytes>,
    history: map<ObjectName, seq<Event>>,
    stagedAt: map<nat, nat>)

  function EventsAt(history: map<ObjectName, seq<Event>>, name: ObjectName): seq<Event> {
    if name in history then history[name] else []
  }

  function Happened(history: map<ObjectName, seq<Event>>, name: ObjectName, e: Event): map<ObjectName, seq<Event>> {
    history[name := EventsAt(history, name) + [e]]
  }

  /** A completion holds its upload's lock from gathering the block list until the list is committed. */
  predicate Locked(c: Core, u: nat) {
    exists r :: r in c.requests && c.requests[r].Gathered? && c.requests[r].upload == u
  }

  ghost predicate BlobEnabled(s: BlobSystem, a: Action) {
    && Enabled(s.core, a)
    && (a.Record? || a.Gather? ==> !Locked(s.core, s.core.requests[a.r].upload))
    && (a.Record? ==> a.r in s.stagedAt)
    && (a.Write? ==>
          Assembled(EventsAt(s.history, UploadOf(s.core, a.r).name), s.core.requests[a.r].log).Some?)
  }

  ghost function BlobNext(s: BlobSystem, a: Action): BlobSystem
    requires BlobEnabled(s, a)
  {
    var core := Next(s.core, a);
    match a
    case Receive(r, part, data) =>
      var name := UploadOf(s.core, r).name;
      BlobSystem(core, s.objects, Happened(s.history, name, Staged(s.core.requests[r].upload, part, data)),
                 s.stagedAt[r := |EventsAt(s.history, name)|])
    case Record(r) =>
      s.(core := core,
         history := Happened(s.history, UploadOf(s.core, r).name, Recorded(s.core.requests[r].upload, s.stagedAt[r])))
    case Write(r) =>
      var name, log := UploadOf(s.core, r).name, s.core.requests[r].log;
      s.(core := core,
         objects := s.objects[name := Assembled(EventsAt(s.history, name), log).value],
         history := Happened(s.history, name, Committed(Table(log).Keys)))
    case _ => s.(core := core)
  }

  ghost predicate BlobRuns(s: BlobSystem, run: seq<Action>, t: BlobSystem)
    decreases |run|
  {
    if run == [] then s == t
    else BlobEnabled(s, run[0]) && BlobRuns(BlobNext(s, run[0]), run[1..], t)
  }

  lemma {:induction false} BlobRunsAreRuns(s: BlobSystem, run: seq<Action>, t: BlobSystem)
    requires BlobRuns(s, run, t)
    ensures Runs(s.core, run, t.core)
    decreases |run|
  {
    if run != [] {
      BlobRunsAreRuns(BlobNext(s, run[0]), run[1..], t);
    }
  }

  const BlobStart: BlobSystem := BlobSystem(Nothing, map[], map[], map[])

  // ---------- the history tells what was recorded ----------

  /** What an upload has recorded is in the history of its object, a request that has staged its part
      knows where, and no part is recorded under a completion's hands. */
  ghost predicate Traced(s: BlobSystem) {
    && Inv(s.core)
    && (forall u :: 0 <= u < |s.core.uploads.begun| ==> LogTraced(s, u))
    && (forall name: ObjectName, u: nat :: u >= |s.core.uploads.begun| ==> RecordedLog(EventsAt(s.history, name), u) == [])
    && (forall r :: r in s.core.requests ==> RequestTraced(s, r))
  }

  ghost predicate LogTraced(s: BlobSystem, u: nat)
    requires u < |s.core.uploads.begun|
  {
    var upload := s.core.uploads.begun[u];
    upload.log == RecordedLog(EventsAt(s.history, upload.name), u)
  }

  ghost predicate RequestTraced(s: BlobSystem, r: nat)
    requires r in s.core.requests
  {
    var p := s.core.requests[r];
    p.upload < |s.core.uploads.begun| &&
    var events := EventsAt(s.history, s.core.uploads.begun[p.upload].name);
    && (p.Received? ==>
          r in s.stagedAt && s.stagedAt[r] < |events| && events[s.stagedAt[r]] == Staged(p.upload, p.part, p.data))
    && (p.Gathered? ==> p.log == s.core.uploads.begun[p.upload].log)
  }

  lemma RecordedAppend(events: seq<Event>, e: Event, u: nat)
    ensures RecordedLog(events + [e], u) ==
            if e.Recorded? && e.upload == u && e.at < |events| && events[e.at].Staged?
            then RecordedLog(events, u) + [(events[e.at].part, events[e.at].data)]
            else RecordedLog(events, u)
  {
    assert (events + [e])[..|events|] == events;
  }

  /** An event elsewhere, or of another upload, does not change what an upload has recorded. */
  lemma RecordedElsewhere(history: map<ObjectName, seq<Event>>, name: ObjectName, e: Event, other: ObjectName, u: nat)
    requires name != other || !e.Recorded? || e.upload != u
    ensures RecordedLog(EventsAt(Happened(history, name, e), other), u) == RecordedLog(EventsAt(history, other), u)
  {
    RecordedAppend(EventsAt(history, name), e, u);
  }

  lemma EventKept(history: map<ObjectName, seq<Event>>, name: ObjectName, e: Event, other: ObjectName, k: nat)
    requires k < |EventsAt(history, other)|
    ensures k < |EventsAt(Happened(history, name, e), other)|
    ensures EventsAt(Happened(history, name, e), other)[k] == EventsAt(history, other)[k]
  {
  }

  /** Actions that nothing is recorded of: all but the three below. */
  lemma TracedPlain(s: BlobSystem, a: Action)
    requires Traced(s) && BlobEnabled(s, a) && !a.Receive? && !a.Record? && !a.Write?
    ensures Traced(BlobNext(s, a))
  {
    var t := BlobNext(s, a);
    StepInv(s.core, a);
    forall u | 0 <= u < |t.core.uploads.begun| ensures LogTraced(t, u) {
      if u < |s.core.uploads.begun| {
        assert LogTraced(s, u);
        UploadsAreIndependent(s.core, a, u);
      }
    }
    forall r | r in t.core.requests ensures RequestTraced(t, r) {
      if r in s.core.requests {
        assert RequestTraced(s, r);
        UploadsAreIndependent(s.core, a, s.core.requests[r].upload);
      }
    }
  }

  /** An event that is not a recording leaves all logs and all staged parts where they were. */
  lemma TracedEvent(s: BlobSystem, a: Action, name: ObjectName, e: Event, stagedAt: map<nat, nat>)
    requires Traced(s) && Enabled(s.core, a) && (a.Receive? || a.Write?) && !e.Recorded?
    requires forall r :: r in s.core.requests && r != a.r && r in s.stagedAt ==> r in stagedAt && stagedAt[r] == s.stagedAt[r]
    ensures var t := BlobSystem(Next(s.core, a), s.objects, Happened(s.history, name, e), stagedAt);
            && Inv(t.core)
            && (forall u :: 0 <= u < |t.core.uploads.begun| ==> LogTraced(t, u))
            && (forall n: ObjectName, u: nat :: u >= |t.core.uploads.begun| ==> RecordedLog(EventsAt(t.history, n), u) == [])
            && (forall r :: r in t.core.requests && r != a.r ==> RequestTraced(t, r))
  {
    var t := BlobSystem(Next(s.core, a), s.objects, Happened(s.history, name, e), stagedAt);
    StepInv(s.core, a);
    assert t.core.uploads == s.core.uploads;
    forall n: ObjectName, u: nat
      ensures RecordedLog(EventsAt(t.history, n), u) == RecordedLog(EventsAt(s.history, n), u)
    {
      RecordedElsewhere(s.history, name, e, n, u);
    }
    forall u | 0 <= u < |t.core.uploads.begun| ensures LogTraced(t, u) {
      assert LogTraced(s, u);
    }
    forall r | r in t.core.requests && r != a.r ensures RequestTraced(t, r) {
      assert RequestTraced(s, r);
      if s.core.requests[r].Received? {
        EventKept(s.history, name, e, UploadOf(s.core, r).name, s.stagedAt[r]);
      }
    }
  }

  lemma TracedReceive(s: BlobSystem, r: nat, part: int, data: Bytes)
    requires Traced(s) && BlobEnabled(s, Receive(r, part, data))
    ensures Traced(BlobNext(s, Receive(r, part, data)))
  {
    var a, name := Receive(r, part, data), UploadOf(s.core, r).name;
    var t := BlobNext(s, a);
    TracedEvent(s, a, name, Staged(s.core.requests[r].upload, part, data), t.stagedAt);
    assert RequestTraced(t, r);
    forall q | q in t.core.requests ensures RequestTraced(t, q) {
    }
  }

  lemma TracedWrite(s: BlobSystem, r: nat)
    requires Traced(s) && BlobEnabled(s, Write(r))
    ensures Traced(BlobNext(s, Write(r)))
  {
    var a, name := Write(r), UploadOf(s.core, r).name;
    var t := BlobNext(s, a);
    TracedEvent(s, a, name, Committed(Table(s.core.requests[r].log).Keys), s.stagedAt);
    var plain := t.(objects := s.objects);
    forall u | 0 <= u < |t.core.uploads.begun| ensures LogTraced(t, u) {
      assert LogTraced(plain, u);
    }
    forall q | q in t.core.requests ensures RequestTraced(t, q) {
      assert q != r ==> RequestTraced(plain, q);
      assert q == r ==> RequestTraced(s, r);
    }
  }

  lemma TracedRecord(s: BlobSystem, r: nat)
    requires Traced(s) && BlobEnabled(s, Record(r))
    ensures Traced(BlobNext(s, Record(r)))
  {
    var t := BlobNext(s, Record(r));
    var p, name := s.core.requests[r], UploadOf(s.core, r).name;
    var e := Recorded(p.upload, s.stagedAt[r]);
    StepInv(s.core, Record(r));
    assert RequestTraced(s, r);
    RecordedAppend(EventsAt(s.history, name), e, p.upload);
    forall u | 0 <= u < |t.core.uploads.begun| ensures LogTraced(t, u) {
      assert LogTraced(s, u);
      UploadsAreIndependent(s.core, Record(r), u);
      if u != p.upload {
        RecordedElsewhere(s.history, name, e, s.core.uploads.begun[u].name, u);
      }
    }
    forall n: ObjectName, u: nat | u >= |t.core.uploads.begun|
      ensures RecordedLog(EventsAt(t.history, n), u) == []
    {
      RecordedElsewhere(s.history, name, e, n, u);
    }
    forall q | q in t.core.requests ensures RequestTraced(t, q) {
      RecordKeepsRequest(s, r, q);
    }
  }

  lemma RecordKeepsRequest(s: BlobSystem, r: nat, q: nat)
    requires Traced(s) && BlobEnabled(s, Record(r)) && q in s.core.requests && q != r
    ensures RequestTraced(BlobNext(s, Record(r)), q)
  {
    assert RequestTraced(s, q);
    var u := s.core.requests[q].upload;
    UploadsAreIndependent(s.core, Record(r), u);
    if s.core.requests[q].Received? {
      var e := Recorded(s.core.requests[r].upload, s.stagedAt[r]);
      EventKept(s.history, UploadOf(s.core, r).name, e, UploadOf(s.core, q).name, s.stagedAt[q]);
    }
  }

  lemma TracedStep(s: BlobSystem, a: Action)
    requires Traced(s) && BlobEnabled(s, a)
    ensures Traced(BlobNext(s, a))
  {
    match a
    case Receive(r, part, data) => TracedReceive(s, r, part, data);
    case Record(r) => TracedRecord(s, r);
    case Write(r) => TracedWrite(s, r);
    case _ => TracedPlain(s, a);
  }

  /** In every run, what an upload has recorded is exactly what the history of its object says. */
  lemma {:induction false} RunsAreTraced(s: BlobSystem, run: seq<Action>, t: BlobSystem)
    requires Traced(s) && BlobRuns(s, run, t)
    ensures Traced(t)
    decreases |run|
  {
    if run != [] {
      TracedStep(s, run[0]);
      RunsAreTraced(BlobNext(s, run[0]), run[1..], t);
    }
  }

  lemma StartTraced()
    ensures Traced(BlobStart)
  {
  }

  // ---------- completions that are safe ----------

  /** The block found under each part that the upload has recorded is the one recorded last. */
  ghost predicate SafeToWrite(s: BlobSystem, r: nat)
    requires r in s.core.requests && s.core.requests[r].upload < |s.core.uploads.begun|
  {
    Undisturbed(EventsAt(s.history, UploadOf(s.core, r).name), s.core.requests[r].upload)
  }

  /** A commit under that condition stores the object of all parts that the upload has recorded. */
  lemma StagedCompleteStores(s: BlobSystem, r: nat)
    requires Traced(s) && Enabled(s.core, Write(r)) && SafeToWrite(s, r)
    ensures BlobEnabled(s, Write(r))
    ensures s.core.requests[r].log == UploadOf(s.core, r).log
    ensures BlobNext(s, Write(r)).objects == s.objects[UploadOf(s.core, r).name := ObjectOf(UploadOf(s.core, r).log)]
  {
    assert RequestTraced(s, r);
    assert LogTraced(s, s.core.requests[r].upload);
    CompleteIsSafe(EventsAt(s.history, UploadOf(s.core, r).name), s.core.requests[r].upload);
  }

  ghost predicate Same(b: BlobSystem, f: FileSystem) {
    b.core == f.core && b.objects == f.objects
  }

  ghost predicate SafeStep(s: BlobSystem, a: Action)
    requires BlobEnabled(s, a)
  {
    a.Write? ==> SafeToWrite(s, a.r)
  }

  /** Every completion of a run is safe when it commits. */
  ghost predicate SafeRun(s: BlobSystem, run: seq<Action>)
    decreases |run|
  {
    run == [] || (BlobEnabled(s, run[0]) ==> SafeStep(s, run[0]) && SafeRun(BlobNext(s, run[0]), run[1..]))
  }

  lemma StepsAgree(b: BlobSystem, f: FileSystem, a: Action)
    requires Traced(b) && Same(b, f) && BlobEnabled(b, a) && SafeStep(b, a)
    ensures Traced(BlobNext(b, a)) && Same(BlobNext(b, a), FileNext(f, a))
  {
    TracedStep(b, a);
    if a.Write? {
      StagedCompleteStores(b, a.r);
    }
  }

  /** In every interleaving of lookups, stagings, recordings, completions, aborts and failures, both
      backends hold the same uploads and store the same objects, as long as every completion is safe. */
  lemma {:induction false} BackendsAgree(b: BlobSystem, f: FileSystem, run: seq<Action>, t: BlobSystem)
    returns (g: FileSystem)
    requires Traced(b) && Same(b, f) && BlobRuns(b, run, t) && SafeRun(b, run)
    ensures FileRuns(f, run, g) && Same(t, g)
    decreases |run|
  {
    if run == [] {
      g := f;
    } else {
      StepsAgree(b, f, run[0]);
      g := BackendsAgree(BlobNext(b, run[0]), FileNext(f, run[0]), run[1..], t);
    }
  }

  // ---------- parts recorded while a completion is under way ----------

  ghost predicate BlobNeverMissed(s: BlobSystem, u: nat, i: nat) {
    forall run, t, r :: BlobRuns(s, run, t) && r in t.core.requests && t.core.requests[r].Written? ==>
      !Misses(t.core.requests[r], u, i)
  }

  /** With staged parts, a completion that reports success from then on includes the part just recorded
      if and only if none is between committing and forgetting; gathering and committing hold the
      upload's lock. */
  lemma StagedPartNeverMissedIff(s: BlobSystem, r: nat)
    requires Inv(s.core) && BlobEnabled(s, Record(r))
    ensures var u := s.core.requests[r].upload;
            BlobNeverMissed(BlobNext(s, Record(r)), u, |s.core.uploads.begun[u].log|) <==>
            forall q :: q in s.core.requests && s.core.requests[q].upload == u ==> !s.core.requests[q].Written?
  {
    var u := s.core.requests[r].upload;
    var i, t := |s.core.uploads.begun[u].log|, BlobNext(s, Record(r));
    StepInv(s.core, Record(r));
    UploadsAreIndependent(s.core, Record(r), u);
    if forall q :: q in s.core.requests && s.core.requests[q].upload == u ==> !s.core.requests[q].Written? {
      assert Clear(t.core, u, i);
      forall run, v, q | BlobRuns(t, run, v) && q in v.core.requests && v.core.requests[q].Written?
        ensures !Misses(v.core.requests[q], u, i)
      {
        BlobRunsAreRuns(t, run, v);
        StaysClear(t.core, run, v.core, u, i);
      }
    } else {
      var q :| q in s.core.requests && s.core.requests[q].upload == u && s.core.requests[q].Written?;
      assert PhaseOk(s.core.uploads, s.core.requests[q]);
      assert BlobRuns(t, [], t) && q in t.core.requests && Misses(t.core.requests[q], u, i);
      assert !BlobNeverMissed(t, u, i);
    }
  }
}
