/** Upload requests as clients send them, with the parts that the backends refuse, and when both backends
    answer a whole interleaving of them alike. */
module UploadRequests {
  import opened Text
  import opened Multipart
  import opened BlockStaging
  import opened UploadProtocol
  import opened UploadRuns
  import FileUploads
  import BlobUploads

  /** A step of a request: the arrival of a part's body, which may be refused, or any other step.
      `fails` stands for a failure of the storage service to stage the part. */
  datatype Step = Send(r: nat, part: int, size: int, body: Body, fails: bool) | Do(a: Action)

  /** What a step comes to in the file backend, which does not use the service for parts. */
  ghost function FileAction(c: Core, q: Step): Action
    requires q.Send? ==> q.r in c.requests && c.requests[q.r].upload < |c.uploads.begun|
  {
    match q
    case Do(a) => a
    case Send(r, part, size, body, _) =>
      var data := FileUploads.Admit(UploadOf(c, r).log, size, body);
      if data.Ok? then Receive(r, part, data.value) else Fail(r)
  }

  /** What it comes to in the blob backend. */
  function BlobAction(q: Step): Action {
    match q
    case Do(a) => a
    case Send(r, part, size, body, fails) =>
      var data := BlobUploads.ReadPart(body, size);
      if data.Ok? && !fails then Receive(r, part, data.value) else Fail(r)
  }

  /** The limits that only the file backend has. */
  ghost predicate WithinLimits(log: Log, size: int, body: Body) {
    && size <= FileUploads.MAX_PART
    && SizeOf(Table(log).Keys, Table(log)) + size <= FileUploads.MAX_TOTAL
    && (size <= 0 ==> |body.data| <= FileUploads.MAX_PART)
  }

  /** A part is admitted by the file backend exactly when the blob backend takes it and it is within the
      file backend's limits; both then take the same data. */
  lemma AcceptedIff(log: Log, size: int, body: Body)
    ensures var file, blob := FileUploads.Admit(log, size, body), BlobUploads.ReadPart(body, size);
            && (file.Ok? <==> blob.Ok? && WithinLimits(log, size, body))
            && (file.Ok? ==> file == blob)
  {
  }

  ghost predicate Possible(c: Core, q: Step) {
    q.Send? ==> q.r in c.requests && c.requests[q.r].Found? && c.requests[q.r].upload < |c.uploads.begun|
  }

  ghost predicate FileServes(s: FileSystem, qs: seq<Step>, t: FileSystem)
    decreases |qs|
  {
    if qs == [] then s == t
    else
      Possible(s.core, qs[0]) &&
      var a := FileAction(s.core, qs[0]);
      Enabled(s.core, a) && FileServes(FileNext(s, a), qs[1..], t)
  }

  ghost predicate BlobServes(s: BlobSystem, qs: seq<Step>, t: BlobSystem)
    decreases |qs|
  {
    if qs == [] then s == t
    else
      Possible(s.core, qs[0]) &&
      var a := BlobAction(qs[0]);
      BlobEnabled(s, a) && BlobServes(BlobNext(s, a), qs[1..], t)
  }

  /** What keeps the two backends together at one step: a part that the blob backend takes is within the
      file backend's limits and is staged, and a completion that commits is safe. */
  ghost predicate Comparable(s: BlobSystem, q: Step)
    requires Possible(s.core, q)
  {
    && (q.Send? && BlobUploads.ReadPart(q.body, q.size).Ok? ==>
          !q.fails && WithinLimits(UploadOf(s.core, q.r).log, q.size, q.body))
    && (BlobEnabled(s, BlobAction(q)) ==> SafeStep(s, BlobAction(q)))
  }

  ghost predicate AllComparable(s: BlobSystem, qs: seq<Step>)
    decreases |qs|
  {
    qs == [] ||
    (Possible(s.core, qs[0]) && BlobEnabled(s, BlobAction(qs[0])) ==>
       Comparable(s, qs[0]) && AllComparable(BlobNext(s, BlobAction(qs[0])), qs[1..]))
  }

  /** Every comparable interleaving of requests, with refused parts and failing completions, leaves both
      backends with the same uploads and the same objects. */
  lemma {:induction false} RequestsAgree(b: BlobSystem, f: FileSystem, qs: seq<Step>, t: BlobSystem)
    returns (g: FileSystem)
    requires Traced(b) && Same(b, f) && BlobServes(b, qs, t) && AllComparable(b, qs)
    ensures FileServes(f, qs, g) && Same(t, g)
    decreases |qs|
  {
    if qs == [] {
      g := f;
    } else {
      var a := BlobAction(qs[0]);
      if qs[0].Send? {
        AcceptedIff(UploadOf(b.core, qs[0].r).log, qs[0].size, qs[0].body);
      }
      assert FileAction(f.core, qs[0]) == a;
      StepsAgree(b, f, a);
      g := RequestsAgree(BlobNext(b, a), FileNext(f, a), qs[1..], t);
    }
  }
}
