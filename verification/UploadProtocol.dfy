/** Multipart uploads as their requests act on them, one critical section at a time: looking up an
    upload, taking in a part, recording it, gathering the parts, writing the object and forgetting
    the upload are separate steps, and any number of requests take them in any order. */
module UploadProtocol {
  import opened Text
  import opened Multipart

  /** The id that `Initiate` hands out at a given clock reading. */
  function UploadId(name: ObjectName, nanos: nat): string {
    name.0 + "-" + name.1 + "-" + FormatUint(nanos, 10)
  }

  /** Two uploads get the same id, and the second replaces the first, if and only if they begin at
      the same clock reading and bucket and key read the same once joined by a dash. */
  lemma UploadIdIff(a: ObjectName, b: ObjectName, s: nat, t: nat)
    ensures UploadId(a, s) == UploadId(b, t) <==> s == t && a.0 + "-" + a.1 == b.0 + "-" + b.1
  {
    var x, y := a.0 + "-" + a.1, b.0 + "-" + b.1;
    PrintedIsPlain(s, 10);
    PrintedIsPlain(t, 10);
    assert UploadId(a, s) == x + ['-'] + FormatUint(s, 10);
    assert UploadId(b, t) == y + ['-'] + FormatUint(t, 10);
    if UploadId(a, s) == UploadId(b, t) {
      SplitAtLast(x, y, '-', FormatUint(s, 10), FormatUint(t, 10));
      PrintInjective(s, t, 10);
    }
  }

  /** Different objects with one upload id. */
  lemma UploadIdsCollide(t: nat)
    ensures UploadId(("a-b", "c"), t) == UploadId(("a", "b-c"), t)
  {
    assert "a-b" + "-" + "c" == "a" + "-" + "b-c";
    UploadIdIff(("a-b", "c"), ("a", "b-c"), t, t);
  }

  // ---------- uploads and their table ----------

  datatype Upload = Upload(id: string, name: ObjectName, log: Log)

  /** All uploads ever begun, and the table of those that can be looked up.  An upload is known by its
      position; requests that have looked it up keep it when it leaves the table. */
  datatype Uploads = Uploads(begun: seq<Upload>, table: map<string, nat>) {
    predicate Valid() {
      forall id :: id in table ==> table[id] < |begun| && begun[table[id]].id == id
    }

    predicate Listed(u: nat) {
      u < |begun| && begun[u].id in table && table[begun[u].id] == u
    }

    /** A new upload takes its id, even from an upload that already has it. */
    function Begin(id: string, name: ObjectName): Uploads {
      Uploads(begun + [Upload(id, name, [])], table[id := |begun|])
    }

    function Append(u: nat, part: int, data: Bytes): Uploads
      requires u < |begun|
    {
      this.(begun := begun[u := begun[u].(log := begun[u].log + [(part, data)])])
    }

    function Remove(id: string): Uploads {
      this.(table := table - {id})
    }
  }

  /** The checks that every request on an upload makes when it looks it up. */
  function Find(s: Uploads, name: ObjectName, id: string): (r: Result<nat>)
    requires s.Valid()
    ensures r.Ok? ==> s.Listed(r.value) && s.begun[r.value].id == id && s.begun[r.value].name == name
  {
    if id !in s.table then Err(NoSuchUpload)
    else if s.begun[s.table[id]].name != name then Err(WrongObject)
    else Ok(s.table[id])
  }

  /** An upload is found exactly by its own id and name while it is listed; an id that is not in the table is
      unknown, and a listed one under another name is refused. */
  lemma FindIff(s: Uploads, name: ObjectName, id: string, u: nat)
    requires s.Valid()
    ensures Find(s, name, id) == Ok(u) <==> s.Listed(u) && s.begun[u].id == id && s.begun[u].name == name
    ensures Find(s, name, id) == Err(NoSuchUpload) <==> id !in s.table
    ensures s.Listed(u) && s.begun[u].id == id && s.begun[u].name != name ==> Find(s, name, id) == Err(WrongObject)
  {
  }

  /** A new upload is empty and found under its id and name, and no other changes but the one it replaces. */
  lemma NewUploadIsFound(s: Uploads, id: string, name: ObjectName, other: nat)
    requires s.Valid() && other < |s.begun|
    ensures var t := s.Begin(id, name);
            && t.Valid() && Find(t, name, id) == Ok(|s.begun|) && t.begun[|s.begun|].log == []
            && t.begun[other] == s.begun[other]
            && (t.Listed(other) <==> s.Listed(other) && s.begun[other].id != id)
  {
  }

  /** A forgotten id is unknown, and no other upload is forgotten. */
  lemma RemovedIsUnknown(s: Uploads, id: string, name: ObjectName, other: nat)
    requires s.Valid() && other < |s.begun|
    ensures var t := s.Remove(id);
            && t.Valid() && Find(t, name, id) == Err(NoSuchUpload) && t.begun == s.begun
            && (t.Listed(other) <==> s.Listed(other) && s.begun[other].id != id)
  {
  }

  // ---------- the objects written ----------

  /** Objects as they were written, oldest first. */
  type Writes = seq<(ObjectName, Bytes)>

  function ObjectsAfter(writes: Writes): map<ObjectName, Bytes> {
    if writes == [] then map[]
    else ObjectsAfter(writes[..|writes| - 1])[writes[|writes| - 1].0 := writes[|writes| - 1].1]
  }

  lemma ObjectsAppend(writes: Writes, name: ObjectName, content: Bytes)
    ensures ObjectsAfter(writes + [(name, content)]) == ObjectsAfter(writes)[name := content]
  {
    assert (writes + [(name, content)])[..|writes|] == writes;
  }

  // ---------- requests in flight ----------

  /** How far a request on an upload has come. */
  datatype Phase =
    | Found(upload: nat)                              // looked up
    | Received(upload: nat, part: int, data: Bytes)   // a part, accepted and taken in
    | Gathered(upload: nat, log: Log)                 // a completion holding the parts of `log`
    | Written(upload: nat, log: Log)                  // the object is written, the upload not forgotten

  datatype Core = Core(uploads: Uploads, requests: map<nat, Phase>)

  datatype Action =
    | Initiate(id: string, name: ObjectName)
    | Abort(id: string)
    | LookUp(r: nat, id: string)
    | Receive(r: nat, part: int, data: Bytes)
    | Record(r: nat)
    | Gather(r: nat)
    | Write(r: nat)
    | Forget(r: nat)
    | Fail(r: nat)                                    // the request ends with an error

  predicate Enabled(c: Core, a: Action) {
    match a
    case Initiate(_, _) => true
    case Abort(id) => id in c.uploads.table
    case LookUp(r, id) => r !in c.requests && id in c.uploads.table
    case Receive(r, _, _) => r in c.requests && c.requests[r].Found? && c.requests[r].upload < |c.uploads.begun|
    case Record(r) => r in c.requests && c.requests[r].Received? && c.requests[r].upload < |c.uploads.begun|
    case Gather(r) =>
      r in c.requests && c.requests[r].Found? && c.requests[r].upload < |c.uploads.begun|
      && c.uploads.begun[c.requests[r].upload].log != []
    case Write(r) => r in c.requests && c.requests[r].Gathered? && c.requests[r].upload < |c.uploads.begun|
    case Forget(r) => r in c.requests && c.requests[r].Written? && c.requests[r].upload < |c.uploads.begun|
    case Fail(r) => r in c.requests
  }

  function Next(c: Core, a: Action): Core
    requires Enabled(c, a)
  {
    match a
    case Initiate(id, name) => c.(uploads := c.uploads.Begin(id, name))
    case Abort(id) => c.(uploads := c.uploads.Remove(id))
    case LookUp(r, id) => c.(requests := c.requests[r := Found(c.uploads.table[id])])
    case Receive(r, part, data) => c.(requests := c.requests[r := Received(c.requests[r].upload, part, data)])
    case Record(r) =>
      var p := c.requests[r];
      Core(c.uploads.Append(p.upload, p.part, p.data), c.requests - {r})
    case Gather(r) =>
      var u := c.requests[r].upload;
      c.(requests := c.requests[r := Gathered(u, c.uploads.begun[u].log)])
    case Write(r) => c.(requests := c.requests[r := Written(c.requests[r].upload, c.requests[r].log)])
    case Forget(r) => Core(c.uploads.Remove(c.uploads.begun[c.requests[r].upload].id), c.requests - {r})
    case Fail(r) => c.(requests := c.requests - {r})
  }

  const Nothing: Core := Core(Uploads([], map[]), map[])

  ghost predicate Runs(c: Core, run: seq<Action>, d: Core)
    decreases |run|
  {
    if run == [] then c == d
    else Enabled(c, run[0]) && Runs(Next(c, run[0]), run[1..], d)
  }

  // ---------- what every run keeps ----------

  /** A completion holds the first parts of its upload, up to when it gathered them. */
  ghost predicate PhaseOk(s: Uploads, p: Phase) {
    p.upload < |s.begun| &&
    (p.Gathered? || p.Written? ==> p.log != [] && p.log <= s.begun[p.upload].log)
  }

  ghost predicate Inv(c: Core) {
    c.uploads.Valid() && forall r :: r in c.requests ==> PhaseOk(c.uploads, c.requests[r])
  }

  /** Uploads keep their names, and only gain parts. */
  ghost predicate Grown(before: Uploads, after: Uploads) {
    |before.begun| <= |after.begun| &&
    forall u :: 0 <= u < |before.begun| ==>
      var a, b := before.begun[u], after.begun[u];
      a.id == b.id && a.name == b.name && a.log <= b.log
  }

  /** The part that an action adds to an upload. */
  function Added(c: Core, a: Action, u: nat): Log
    requires Enabled(c, a)
  {
    if a.Record? && c.requests[a.r].upload == u then [(c.requests[a.r].part, c.requests[a.r].data)] else []
  }

  /** Uploads do not affect one another: an action changes an upload's parts only by recording a part
      that a request on that very upload has received. */
  lemma UploadsAreIndependent(c: Core, a: Action, u: nat)
    requires Enabled(c, a) && u < |c.uploads.begun|
    ensures u < |Next(c, a).uploads.begun|
    ensures Next(c, a).uploads.begun[u] ==
            c.uploads.begun[u].(log := c.uploads.begun[u].log + Added(c, a, u))
  {
    assert c.uploads.begun[u].log + [] == c.uploads.begun[u].log;
  }

  lemma StepGrows(c: Core, a: Action)
    requires Enabled(c, a)
    ensures Grown(c.uploads, Next(c, a).uploads)
  {
    forall u | 0 <= u < |c.uploads.begun|
      ensures u < |Next(c, a).uploads.begun| && Next(c, a).uploads.begun[u].id == c.uploads.begun[u].id
      ensures Next(c, a).uploads.begun[u].name == c.uploads.begun[u].name
      ensures c.uploads.begun[u].log <= Next(c, a).uploads.begun[u].log
    {
      UploadsAreIndependent(c, a, u);
    }
  }

  lemma StepInv(c: Core, a: Action)
    requires Inv(c) && Enabled(c, a)
    ensures Inv(Next(c, a))
  {
    StepGrows(c, a);
    var d := Next(c, a);
    forall r | r in d.requests ensures PhaseOk(d.uploads, d.requests[r]) {
      if r in c.requests {
        assert PhaseOk(c.uploads, c.requests[r]);
      }
    }
    StepValid(c, a);
  }

  lemma StepValid(c: Core, a: Action)
    requires Inv(c) && Enabled(c, a)
    ensures Next(c, a).uploads.Valid()
  {
  }

  lemma {:induction false} RunInv(c: Core, run: seq<Action>, d: Core)
    requires Inv(c) && Runs(c, run, d)
    ensures Inv(d) && Grown(c.uploads, d.uploads)
    decreases |run|
  {
    if run != [] {
      StepInv(c, run[0]);
      StepGrows(c, run[0]);
      RunInv(Next(c, run[0]), run[1..], d);
    }
  }

  lemma {:induction false} RunsAppend(c: Core, run: seq<Action>, d: Core, a: Action)
    requires Runs(c, run, d) && Enabled(d, a)
    ensures Runs(c, run + [a], Next(d, a))
    decreases |run|
  {
    var longer := run + [a];
    if run == [] {
      assert longer[1..] == [];
    } else {
      assert longer[1..] == run[1..] + [a];
      RunsAppend(Next(c, run[0]), run[1..], d, a);
    }
  }

  // ---------- which parts are sure to be in the object ----------

  /** A completion of the upload that does not hold its `i`-th recorded part, and may yet report success. */
  predicate Misses(p: Phase, u: nat, i: nat) {
    (p.Gathered? || p.Written?) && p.upload == u && |p.log| <= i
  }

  ghost predicate Clear(c: Core, u: nat, i: nat) {
    forall r :: r in c.requests ==> !Misses(c.requests[r], u, i)
  }

  /** From here on, no completion of the upload writes its object without the part. */
  ghost predicate NeverMissed(c: Core, u: nat, i: nat) {
    forall run, d, r :: Runs(c, run, d) && r in d.requests && d.requests[r].Written? ==>
      !Misses(d.requests[r], u, i)
  }

  lemma {:induction false} StaysClear(c: Core, run: seq<Action>, d: Core, u: nat, i: nat)
    requires Inv(c) && Runs(c, run, d) && u < |c.uploads.begun| && i < |c.uploads.begun[u].log| && Clear(c, u, i)
    ensures Clear(d, u, i)
    decreases |run|
  {
    if run != [] {
      var next := Next(c, run[0]);
      StepInv(c, run[0]);
      UploadsAreIndependent(c, run[0], u);
      forall r | r in next.requests ensures !Misses(next.requests[r], u, i) {
        if r in c.requests {
          assert !Misses(c.requests[r], u, i);
        }
      }
      StaysClear(next, run[1..], d, u, i);
    }
  }

  /** That is so if and only if no completion is now between gathering without it and forgetting. */
  lemma NeverMissedIff(c: Core, u: nat, i: nat)
    requires Inv(c) && u < |c.uploads.begun| && i < |c.uploads.begun[u].log|
    ensures NeverMissed(c, u, i) <==> Clear(c, u, i)
  {
    if Clear(c, u, i) {
      forall run, d, r | Runs(c, run, d) && r in d.requests && d.requests[r].Written?
        ensures !Misses(d.requests[r], u, i)
      {
        StaysClear(c, run, d, u, i);
      }
    } else {
      var r :| r in c.requests && Misses(c.requests[r], u, i);
      if c.requests[r].Written? {
        assert Runs(c, [], c);
      } else {
        var d := Next(c, Write(r));
        assert [Write(r)][1..] == [];
        assert Runs(c, [Write(r)], d) && Misses(d.requests[r], u, i);
      }
    }
  }

  /** A completion that holds the part, or can still gather it. */
  predicate Leads(p: Phase, u: nat, i: nat) {
    p.upload == u && (p.Found? || ((p.Gathered? || p.Written?) && |p.log| > i))
  }

  ghost predicate Within(c: Core, u: nat, i: nat) {
    c.uploads.Listed(u) || exists r :: r in c.requests && Leads(c.requests[r], u, i)
  }

  /** Some completion of the upload can still write an object with the part. */
  ghost predicate Completable(c: Core, u: nat, i: nat) {
    exists run, d, r :: Runs(c, run, d) && r in d.requests && d.requests[r].Written? && Leads(d.requests[r], u, i)
  }

  lemma {:induction false} StaysOut(c: Core, run: seq<Action>, d: Core, u: nat, i: nat)
    requires Inv(c) && Runs(c, run, d) && u < |c.uploads.begun| && !Within(c, u, i)
    ensures !Within(d, u, i)
    decreases |run|
  {
    if run != [] {
      var next := Next(c, run[0]);
      StepInv(c, run[0]);
      UploadsAreIndependent(c, run[0], u);
      forall r | r in next.requests ensures !Leads(next.requests[r], u, i) {
        if r in c.requests {
          assert !Leads(c.requests[r], u, i);
        }
      }
      StaysOut(next, run[1..], d, u, i);
    }
  }

  lemma FreshRequest(requests: map<nat, Phase>) returns (r: nat)
    ensures r !in requests
  {
    r := UpperBound(requests.Keys);
  }

  lemma {:induction false} UpperBound(keys: set<nat>) returns (n: nat)
    ensures forall k :: k in keys ==> k < n
    decreases |keys|
  {
    n := 0;
    if keys != {} {
      var k :| k in keys;
      n := UpperBound(keys - {k});
      assert forall x :: x in keys ==> x == k || x in keys - {k};
      if n <= k {
        n := k + 1;
      }
    }
  }

  /** That is so if and only if the upload is in the table, or a completion has already looked it up. */
  lemma CompletableIff(c: Core, u: nat, i: nat)
    requires Inv(c) && u < |c.uploads.begun| && i < |c.uploads.begun[u].log|
    ensures Completable(c, u, i) <==> Within(c, u, i)
  {
    if Completable(c, u, i) && !Within(c, u, i) {
      var run, d, r :| Runs(c, run, d) && r in d.requests && d.requests[r].Written? && Leads(d.requests[r], u, i);
      StaysOut(c, run, d, u, i);
    }
    if r :| r in c.requests && Leads(c.requests[r], u, i) {
      CompleteFrom(c, r, u, i);
    } else if c.uploads.Listed(u) {
      CompleteListed(c, u, i);
    }
  }

  lemma CompleteFrom(c: Core, r: nat, u: nat, i: nat)
    requires Inv(c) && u < |c.uploads.begun| && i < |c.uploads.begun[u].log|
    requires r in c.requests && Leads(c.requests[r], u, i)
    ensures Completable(c, u, i)
  {
    assert Runs(c, [], c);
    if c.requests[r].Found? {
      var d := Next(c, Gather(r));
      RunsAppend(c, [], c, Gather(r));
      RunsAppend(c, [] + [Gather(r)], d, Write(r));
      var e := Next(d, Write(r));
      assert Leads(e.requests[r], u, i) && e.requests[r].Written?;
    } else if c.requests[r].Gathered? {
      RunsAppend(c, [], c, Write(r));
      var e := Next(c, Write(r));
      assert Leads(e.requests[r], u, i) && e.requests[r].Written?;
    }
  }

  lemma CompleteListed(c: Core, u: nat, i: nat)
    requires Inv(c) && c.uploads.Listed(u) && i < |c.uploads.begun[u].log|
    ensures Completable(c, u, i)
  {
    var r := FreshRequest(c.requests);
    var look := LookUp(r, c.uploads.begun[u].id);
    var d := Next(c, look);
    StepInv(c, look);
    CompleteFrom(d, r, u, i);
    var run, e, q :| Runs(d, run, e) && q in e.requests && e.requests[q].Written? && Leads(e.requests[q], u, i);
    assert ([look] + run)[1..] == run;
    assert Runs(c, [look] + run, e);
  }

  /** A part that has just been recorded, and is about to be acknowledged, survives: its upload can
      still be completed, and every completion that writes an object from then on includes it. */
  ghost predicate Survives(c: Core, u: nat, i: nat) {
    NeverMissed(c, u, i) && Completable(c, u, i)
  }

  /** A part survives if and only if, when it is recorded, no completion of its upload is between
      gathering and forgetting, and the upload is in the table or some other request has looked it up
      and may yet complete it. */
  lemma PartSurvivesIff(c: Core, r: nat)
    requires Inv(c) && Enabled(c, Record(r))
    ensures var u := c.requests[r].upload;
            Survives(Next(c, Record(r)), u, |c.uploads.begun[u].log|) <==>
            && (forall q :: q in c.requests && c.requests[q].upload == u ==>
                  !c.requests[q].Gathered? && !c.requests[q].Written?)
            && (c.uploads.Listed(u) || exists q :: q in c.requests && c.requests[q] == Found(u))
  {
    var u := c.requests[r].upload;
    assert PhaseOk(c.uploads, c.requests[r]);
    var i, d := |c.uploads.begun[u].log|, Next(c, Record(r));
    StepInv(c, Record(r));
    UploadsAreIndependent(c, Record(r), u);
    NeverMissedIff(d, u, i);
    CompletableIff(d, u, i);
    forall q | q in c.requests && c.requests[q].upload == u && (c.requests[q].Gathered? || c.requests[q].Written?)
      ensures q in d.requests && Misses(d.requests[q], u, i)
    {
      assert PhaseOk(c.uploads, c.requests[q]);
    }
    RecordedWithin(c, r, u, i);
  }

  lemma RecordedWithin(c: Core, r: nat, u: nat, i: nat)
    requires Inv(c) && Enabled(c, Record(r)) && u == c.requests[r].upload && i == |c.uploads.begun[u].log|
    ensures Within(Next(c, Record(r)), u, i) <==>
            c.uploads.Listed(u) || exists q :: q in c.requests && c.requests[q] == Found(u)
  {
    var d := Next(c, Record(r));
    forall q | q in d.requests ensures Leads(d.requests[q], u, i) <==> d.requests[q] == Found(u) {
      assert PhaseOk(c.uploads, c.requests[q]);
    }
    if q :| q in c.requests && c.requests[q] == Found(u) {
      assert q in d.requests && Leads(d.requests[q], u, i);
    }
  }

  /** Such a loss: the part is recorded while its upload is in the table, and an object without it is
      written all the same. */
  lemma LostInTheWindow(c: Core, r: nat, q: nat)
    requires Inv(c) && Enabled(c, Record(r)) && c.uploads.Listed(c.requests[r].upload)
    requires q in c.requests && c.requests[q].Written? && c.requests[q].upload == c.requests[r].upload
    ensures var u := c.requests[r].upload;
            var d := Next(c, Record(r));
            && d.uploads.Listed(u) && !Survives(d, u, |c.uploads.begun[u].log|)
            && Enabled(d, Forget(q)) && !Next(d, Forget(q)).uploads.Listed(u)
  {
    PartSurvivesIff(c, r);
    assert PhaseOk(c.uploads, c.requests[q]);
    UploadsAreIndependent(c, Record(r), c.requests[r].upload);
  }
}
