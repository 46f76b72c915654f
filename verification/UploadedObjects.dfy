/** From the client's bytes to the stored object: what either backend takes of a part's body, and that an
    object sent in pieces is stored as it was, in whatever order and company the pieces arrive. */
module UploadedObjects {
  import opened Text
  import opened Multipart
  import opened BlockStaging
  import opened UploadProtocol
  import opened UploadRuns
  import opened UploadRequests
  import FileUploads
  import BlobUploads

  // ---------- what is taken of a body ----------

  /** The file backend takes data exactly if that is the front of the body, as long as declared, or the
      whole of an unbroken body when no length is declared, and it is within the limits. */
  lemma FileTakesIff(log: Log, size: int, body: Body, data: Bytes)
    ensures FileUploads.Admit(log, size, body) == Ok(data) <==>
            && data <= body.data && |data| <= FileUploads.MAX_PART
            && (if size > 0 then |data| == size else data == body.data && !body.broken)
            && SizeOf(Table(log).Keys, Table(log)) + size <= FileUploads.MAX_TOTAL
  {
    assert data <= body.data ==> data == body.data[..|data|];
  }

  /** The blob backend does so without limits; above its threshold it reads the whole body. */
  lemma BlobTakesIff(size: int, body: Body, data: Bytes)
    ensures BlobUploads.ReadPart(body, size) == Ok(data) <==>
            && data <= body.data
            && (if 0 < size <= BlobUploads.STAGE_THRESHOLD then |data| == size else data == body.data && !body.broken)
  {
    assert data <= body.data ==> data == body.data[..|data|];
  }

  // ---------- pieces ----------

  function Concat(ps: seq<Bytes>): Bytes {
    if ps == [] then [] else ps[0] + Concat(ps[1..])
  }

  ghost predicate IsPiece(ks: seq<int>, ps: seq<Bytes>, part: int, data: Bytes) {
    exists i :: 0 <= i < |ks| && i < |ps| && ks[i] == part && ps[i] == data
  }

  ghost predicate OnlyPieces(log: Log, ks: seq<int>, ps: seq<Bytes>) {
    forall j :: 0 <= j < |log| ==> IsPiece(ks, ps, log[j].0, log[j].1)
  }

  ghost predicate AllPieces(log: Log, ks: seq<int>, ps: seq<Bytes>) {
    forall i :: 0 <= i < |ks| && i < |ps| ==> (ks[i], ps[i]) in log
  }

  lemma {:induction false} ConcatSnoc(ps: seq<Bytes>, p: Bytes)
    ensures Concat(ps + [p]) == Concat(ps) + p
  {
    if ps == [] {
      assert ps + [p] == [p];
    } else {
      assert (ps + [p])[1..] == ps[1..] + [p];
      ConcatSnoc(ps[1..], p);
    }
  }

  lemma {:induction false} JoinIsConcat(ks: seq<int>, ps: seq<Bytes>, parts: map<int, Bytes>)
    requires |ks| == |ps| && forall i :: 0 <= i < |ks| ==> ks[i] in parts && parts[ks[i]] == ps[i]
    ensures Join(ks, parts) == Concat(ps)
  {
    if ks != [] {
      var n := |ks| - 1;
      JoinIsConcat(ks[..n], ps[..n], parts);
      ConcatSnoc(ps[..n], ps[n]);
      assert ps[..n] + [ps[n]] == ps;
    }
  }

  lemma {:induction false} TableOfLog(log: Log)
    ensures forall part :: part in Table(log) ==> (part, Table(log)[part]) in log
    ensures forall entry :: entry in log ==> entry.0 in Table(log)
  {
    if log != [] {
      TableOfLog(log[..|log| - 1]);
      assert log == log[..|log| - 1] + [log[|log| - 1]];
    }
  }

  lemma PiecesAreTable(log: Log, ks: seq<int>, ps: seq<Bytes>)
    requires |ks| == |ps| && Ascending(ks) && OnlyPieces(log, ks, ps) && AllPieces(log, ks, ps)
    ensures Sorted(Table(log).Keys) == ks && |Table(log)| == |ks|
    ensures forall i :: 0 <= i < |ks| ==> ks[i] in Table(log) && Table(log)[ks[i]] == ps[i]
  {
    var table := Table(log);
    TableOfLog(log);
    forall i | 0 <= i < |ks| ensures ks[i] in table && table[ks[i]] == ps[i] {
      assert (ks[i], ps[i]) in log;
      var j :| 0 <= j < |log| && log[j] == (ks[i], table[ks[i]]);
      assert IsPiece(ks, ps, log[j].0, log[j].1);
    }
    forall part | part in table ensures part in ks {
      var j :| 0 <= j < |log| && log[j] == (part, table[part]);
      assert IsPiece(ks, ps, log[j].0, log[j].1);
    }
    SortedIsUnique(ks, table.Keys);
    SortedIsAscending(table.Keys);
  }

  /** Recorded pieces, all of them and nothing else, in any order and any number of times, make up the
      object that was cut into them. */
  lemma PiecesMakeObject(log: Log, ks: seq<int>, ps: seq<Bytes>)
    requires |ks| == |ps| && Ascending(ks) && OnlyPieces(log, ks, ps) && AllPieces(log, ks, ps)
    ensures ObjectOf(log) == Concat(ps)
  {
    PiecesAreTable(log, ks, ps);
    JoinIsConcat(ks, ps, Table(log));
  }

  // ---------- pieces among other requests ----------

  /** A body that delivers a piece, declared with its length or none, or breaks off on the way. */
  ghost predicate Delivers(body: Body, size: int, piece: Bytes) {
    (size == |piece| || size <= 0) && body.data <= piece && (body.broken || body.data == piece)
  }

  lemma TakenIsPiece(log: Log, size: int, body: Body, piece: Bytes)
    requires Delivers(body, size, piece)
    ensures FileUploads.Admit(log, size, body).Ok? ==> FileUploads.Admit(log, size, body).value == piece
    ensures BlobUploads.ReadPart(body, size).Ok? ==> BlobUploads.ReadPart(body, size).value == piece
  {
    var file, blob := FileUploads.Admit(log, size, body), BlobUploads.ReadPart(body, size);
    if file.Ok? {
      FileTakesIff(log, size, body, file.value);
    }
    if blob.Ok? {
      BlobTakesIff(size, body, blob.value);
    }
  }

  /** What a step sends to the upload is a piece under its part number. */
  ghost predicate SendsPiece(c: Core, q: Step, u: nat, ks: seq<int>, ps: seq<Bytes>)
    requires Possible(c, q)
  {
    match q
    case Send(r, part, size, body, _) =>
      c.requests[r].upload == u ==> exists piece :: IsPiece(ks, ps, part, piece) && Delivers(body, size, piece)
    case Do(a) => a.Receive? && a.r in c.requests && c.requests[a.r].upload == u ==> IsPiece(ks, ps, a.part, a.data)
  }

  /** The upload holds pieces only, and so do the requests that are about to record a part. */
  ghost predicate HoldsPieces(c: Core, u: nat, ks: seq<int>, ps: seq<Bytes>) {
    && u < |c.uploads.begun| && OnlyPieces(c.uploads.begun[u].log, ks, ps)
    && (forall r :: r in c.requests && c.requests[r].Received? && c.requests[r].upload == u ==>
          IsPiece(ks, ps, c.requests[r].part, c.requests[r].data))
  }

  lemma HoldsPiecesStep(c: Core, a: Action, u: nat, ks: seq<int>, ps: seq<Bytes>)
    requires HoldsPieces(c, u, ks, ps) && Enabled(c, a)
    requires a.Receive? && c.requests[a.r].upload == u ==> IsPiece(ks, ps, a.part, a.data)
    ensures HoldsPieces(Next(c, a), u, ks, ps)
  {
    UploadsAreIndependent(c, a, u);
    var log := c.uploads.begun[u].log;
    var after: Log := log + Added(c, a, u);
    forall j | 0 <= j < |after| ensures IsPiece(ks, ps, after[j].0, after[j].1) {
      if j < |log| {
        assert IsPiece(ks, ps, log[j].0, log[j].1);
      }
    }
  }

  ghost predicate FileSendsPieces(s: FileSystem, qs: seq<Step>, u: nat, ks: seq<int>, ps: seq<Bytes>)
    decreases |qs|
  {
    qs == [] ||
    (Possible(s.core, qs[0]) && Enabled(s.core, FileAction(s.core, qs[0])) ==>
       SendsPiece(s.core, qs[0], u, ks, ps)
       && FileSendsPieces(FileNext(s, FileAction(s.core, qs[0])), qs[1..], u, ks, ps))
  }

  ghost predicate BlobSendsPieces(s: BlobSystem, qs: seq<Step>, u: nat, ks: seq<int>, ps: seq<Bytes>)
    decreases |qs|
  {
    qs == [] ||
    (Possible(s.core, qs[0]) && BlobEnabled(s, BlobAction(qs[0])) ==>
       SendsPiece(s.core, qs[0], u, ks, ps)
       && BlobSendsPieces(BlobNext(s, BlobAction(qs[0])), qs[1..], u, ks, ps))
  }

  lemma FileStepHolds(s: FileSystem, q: Step, u: nat, ks: seq<int>, ps: seq<Bytes>)
    requires HoldsPieces(s.core, u, ks, ps) && Possible(s.core, q) && SendsPiece(s.core, q, u, ks, ps)
    requires Enabled(s.core, FileAction(s.core, q))
    ensures HoldsPieces(FileNext(s, FileAction(s.core, q)).core, u, ks, ps)
  {
    if q.Send? && s.core.requests[q.r].upload == u {
      var piece :| IsPiece(ks, ps, q.part, piece) && Delivers(q.body, q.size, piece);
      TakenIsPiece(UploadOf(s.core, q.r).log, q.size, q.body, piece);
    }
    HoldsPiecesStep(s.core, FileAction(s.core, q), u, ks, ps);
  }

  lemma BlobStepHolds(s: BlobSystem, q: Step, u: nat, ks: seq<int>, ps: seq<Bytes>)
    requires HoldsPieces(s.core, u, ks, ps) && Possible(s.core, q) && SendsPiece(s.core, q, u, ks, ps)
    requires BlobEnabled(s, BlobAction(q))
    ensures HoldsPieces(BlobNext(s, BlobAction(q)).core, u, ks, ps)
  {
    if q.Send? && s.core.requests[q.r].upload == u {
      var piece :| IsPiece(ks, ps, q.part, piece) && Delivers(q.body, q.size, piece);
      TakenIsPiece([], q.size, q.body, piece);
    }
    HoldsPiecesStep(s.core, BlobAction(q), u, ks, ps);
  }

  lemma {:induction false} FileHoldsPieces(s: FileSystem, qs: seq<Step>, t: FileSystem, u: nat, ks: seq<int>, ps: seq<Bytes>)
    requires HoldsPieces(s.core, u, ks, ps) && FileServes(s, qs, t) && FileSendsPieces(s, qs, u, ks, ps)
    ensures HoldsPieces(t.core, u, ks, ps)
    decreases |qs|
  {
    if qs != [] {
      FileStepHolds(s, qs[0], u, ks, ps);
      FileHoldsPieces(FileNext(s, FileAction(s.core, qs[0])), qs[1..], t, u, ks, ps);
    }
  }

  lemma {:induction false} BlobHoldsPieces(s: BlobSystem, qs: seq<Step>, t: BlobSystem, u: nat, ks: seq<int>, ps: seq<Bytes>)
    requires HoldsPieces(s.core, u, ks, ps) && BlobServes(s, qs, t) && BlobSendsPieces(s, qs, u, ks, ps)
    ensures HoldsPieces(t.core, u, ks, ps)
    decreases |qs|
  {
    if qs != [] {
      BlobStepHolds(s, qs[0], u, ks, ps);
      BlobHoldsPieces(BlobNext(s, BlobAction(qs[0])), qs[1..], t, u, ks, ps);
    }
  }

  /** Whatever else is going on - other uploads, repeated, refused and broken parts, other completions -
      if what is sent to an upload are pieces of an object, a completion that gathers when all of them
      are recorded stores exactly the object. */
  lemma FilePiecesStored(s: FileSystem, qs: seq<Step>, t: FileSystem, u: nat, ks: seq<int>, ps: seq<Bytes>,
                         r: nat, run: seq<Action>, v: FileSystem)
    requires Inv(s.core) && HoldsPieces(s.core, u, ks, ps) && FileServes(s, qs, t) && FileSendsPieces(s, qs, u, ks, ps)
    requires |ks| == |ps| && Ascending(ks) && u < |t.core.uploads.begun| && AllPieces(t.core.uploads.begun[u].log, ks, ps)
    requires Enabled(t.core, Gather(r)) && t.core.requests[r].upload == u
    requires FileRuns(FileNext(t, Gather(r)), run, v) && Write(r) !in run && Fail(r) !in run
    ensures Enabled(v.core, Write(r))
    ensures FileNext(v, Write(r)).objects == v.objects[t.core.uploads.begun[u].name := Concat(ps)]
  {
    FileServesInv(s, qs, t);
    FileHoldsPieces(s, qs, t, u, ks, ps);
    CompleteStores(t, r, run, v);
    PiecesMakeObject(t.core.uploads.begun[u].log, ks, ps);
  }

  lemma {:induction false} FileServesInv(s: FileSystem, qs: seq<Step>, t: FileSystem)
    requires Inv(s.core) && FileServes(s, qs, t)
    ensures Inv(t.core)
    decreases |qs|
  {
    if qs != [] {
      StepInv(s.core, FileAction(s.core, qs[0]));
      FileServesInv(FileNext(s, FileAction(s.core, qs[0])), qs[1..], t);
    }
  }

  lemma {:induction false} BlobServesTraced(s: BlobSystem, qs: seq<Step>, t: BlobSystem)
    requires Traced(s) && BlobServes(s, qs, t)
    ensures Traced(t)
    decreases |qs|
  {
    if qs != [] {
      TracedStep(s, BlobAction(qs[0]));
      BlobServesTraced(BlobNext(s, BlobAction(qs[0])), qs[1..], t);
    }
  }

  /** The same for staged pieces, if the upload is undisturbed when it is committed. */
  lemma BlobPiecesStored(s: BlobSystem, qs: seq<Step>, t: BlobSystem, u: nat, ks: seq<int>, ps: seq<Bytes>, r: nat)
    requires Traced(s) && HoldsPieces(s.core, u, ks, ps) && BlobServes(s, qs, t) && BlobSendsPieces(s, qs, u, ks, ps)
    requires |ks| == |ps| && Ascending(ks) && u < |t.core.uploads.begun| && AllPieces(t.core.uploads.begun[u].log, ks, ps)
    requires Enabled(t.core, Write(r)) && t.core.requests[r].upload == u && SafeToWrite(t, r)
    ensures BlobEnabled(t, Write(r))
    ensures BlobNext(t, Write(r)).objects == t.objects[t.core.uploads.begun[u].name := Concat(ps)]
  {
    BlobServesTraced(s, qs, t);
    BlobHoldsPieces(s, qs, t, u, ks, ps);
    StagedCompleteStores(t, r);
    PiecesMakeObject(t.core.uploads.begun[u].log, ks, ps);
  }

  // ---------- one client from start to end ----------

  /** A part as a client sends it: its length is declared or not. */
  datatype Sending = Sending(part: int, data: Bytes, size: int)

  function Sent(ss: seq<Sending>): Log {
    seq(|ss|, i requires 0 <= i < |ss| => (ss[i].part, ss[i].data))
  }

  ghost predicate Declared(ss: seq<Sending>) {
    forall i :: 0 <= i < |ss| ==> ss[i].size == |ss[i].data| || ss[i].size <= 0
  }

  /** The steps of uploading one part, and of completing. */
  function PartSteps(r: nat, id: string, p: Sending): seq<Step> {
    [Do(LookUp(r, id)), Send(r, p.part, p.size, Body(p.data, false), false), Do(Record(r))]
  }

  function AllSteps(r: nat, id: string, ss: seq<Sending>): seq<Step> {
    if ss == [] then [Do(LookUp(r, id)), Do(Gather(r)), Do(Write(r)), Do(Forget(r))]
    else PartSteps(r, id, ss[0]) + AllSteps(r, id, ss[1..])
  }

  /** No part is refused for its size, or for what the upload already holds. */
  ghost predicate WithinAll(log: Log, ss: seq<Sending>)
    decreases |ss|
  {
    ss == [] ||
    (|ss[0].data| <= FileUploads.MAX_PART
     && SizeOf(Table(log).Keys, Table(log)) + ss[0].size <= FileUploads.MAX_TOTAL
     && WithinAll(log + [(ss[0].part, ss[0].data)], ss[1..]))
  }

  /** The upload is in the table, and the request number is free. */
  ghost predicate Ready(c: Core, u: nat, r: nat) {
    Inv(c) && c.uploads.Listed(u) && r !in c.requests
  }

  lemma {:induction false} FileServesConcat(s: FileSystem, a: seq<Step>, t: FileSystem, b: seq<Step>, v: FileSystem)
    requires FileServes(s, a, t) && FileServes(t, b, v)
    ensures FileServes(s, a + b, v)
    decreases |a|
  {
    if a == [] {
      assert a + b == b;
    } else {
      assert (a + b)[1..] == a[1..] + b;
      FileServesConcat(FileNext(s, FileAction(s.core, a[0])), a[1..], t, b, v);
    }
  }

  lemma FileServesNext(s: FileSystem, q: Step, qs: seq<Step>, t: FileSystem)
    requires Possible(s.core, q) && Enabled(s.core, FileAction(s.core, q))
    requires FileServes(FileNext(s, FileAction(s.core, q)), qs, t)
    ensures FileServes(s, [q] + qs, t)
  {
    assert ([q] + qs)[1..] == qs;
  }

  lemma Released(requests: map<nat, Phase>, r: nat, a: Phase, b: Phase)
    requires r !in requests
    ensures requests[r := a][r := b] == requests[r := b] && requests[r := b] - {r} == requests
  {
  }

  /** One part on its way: looked up, taken in, recorded. */
  lemma FilePart(s: FileSystem, u: nat, id: string, r: nat, p: Sending) returns (t: FileSystem)
    requires Ready(s.core, u, r) && s.core.uploads.begun[u].id == id && Declared([p])
    requires WithinAll(s.core.uploads.begun[u].log, [p])
    ensures FileServes(s, PartSteps(r, id, p), t)
    ensures t == FileSystem(Core(s.core.uploads.Append(u, p.part, p.data), s.core.requests), s.objects)
  {
    var log := s.core.uploads.begun[u].log;
    assert [p][0] == p;
    FileTakesIff(log, p.size, Body(p.data, false), p.data);
    var qs, look, receive := PartSteps(r, id, p), LookUp(r, id), Receive(r, p.part, p.data);
    var s1 := FileNext(s, look);
    var s2 := FileNext(s1, receive);
    t := FileNext(s2, Record(r));
    assert FileAction(s1.core, qs[1]) == receive;
    FileServesNext(s2, qs[2], [], t);
    FileServesNext(s1, qs[1], [qs[2]], t);
    FileServesNext(s, qs[0], [qs[1], qs[2]], t);
    Released(s.core.requests, r, Found(u), Received(u, p.part, p.data));
  }

  /** Completing: looked up, gathered, written, forgotten. */
  lemma FileCompletion(s: FileSystem, u: nat, id: string, r: nat) returns (t: FileSystem)
    requires Ready(s.core, u, r) && s.core.uploads.begun[u].id == id && s.core.uploads.begun[u].log != []
    ensures FileServes(s, AllSteps(r, id, []), t)
    ensures var upload := s.core.uploads.begun[u];
            && t.objects == s.objects[upload.name := ObjectOf(upload.log)]
            && t.core == Core(s.core.uploads.Remove(id), s.core.requests)
  {
    var log := s.core.uploads.begun[u].log;
    var s1 := FileNext(s, LookUp(r, id));
    var s2 := FileNext(s1, Gather(r));
    var s3 := FileNext(s2, Write(r));
    t := FileNext(s3, Forget(r));
    FileServesNext(s3, Do(Forget(r)), [], t);
    FileServesNext(s2, Do(Write(r)), [Do(Forget(r))], t);
    FileServesNext(s1, Do(Gather(r)), [Do(Write(r)), Do(Forget(r))], t);
    FileServesNext(s, Do(LookUp(r, id)), [Do(Gather(r)), Do(Write(r)), Do(Forget(r))], t);
    Released(s.core.requests, r, Found(u), Gathered(u, log));
    Released(s.core.requests, r, Gathered(u, log), Written(u, log));
  }

  lemma ReadyAfter(c: Core, u: nat, r: nat, part: int, data: Bytes)
    requires Ready(c, u, r)
    ensures Ready(Core(c.uploads.Append(u, part, data), c.requests), u, r)
  {
    var d := Core(c.uploads.Append(u, part, data), c.requests);
    forall q | q in d.requests ensures PhaseOk(d.uploads, d.requests[q]) {
      assert PhaseOk(c.uploads, c.requests[q]);
    }
  }

  lemma SentNext(log: Log, ss: seq<Sending>)
    requires ss != []
    ensures log + Sent(ss) == log + [(ss[0].part, ss[0].data)] + Sent(ss[1..])
  {
  }

  /** A client that uploads parts and completes, with nobody in between. */
  lemma {:induction false} FileUploadRuns(s: FileSystem, u: nat, id: string, r: nat, ss: seq<Sending>)
    returns (t: FileSystem)
    requires Ready(s.core, u, r) && s.core.uploads.begun[u].id == id && Declared(ss)
    requires WithinAll(s.core.uploads.begun[u].log, ss)
    requires s.core.uploads.begun[u].log + Sent(ss) != []
    ensures FileServes(s, AllSteps(r, id, ss), t)
    ensures var upload := s.core.uploads.begun[u];
            t.objects == s.objects[upload.name := ObjectOf(upload.log + Sent(ss))]
    decreases |ss|
  {
    var log := s.core.uploads.begun[u].log;
    if ss == [] {
      assert log + Sent(ss) == log;
      t := FileCompletion(s, u, id, r);
    } else {
      var next := FilePart(s, u, id, r, ss[0]);
      ReadyAfter(s.core, u, r, ss[0].part, ss[0].data);
      SentNext(log, ss);
      t := FileUploadRuns(next, u, id, r, ss[1..]);
      FileServesConcat(s, PartSteps(r, id, ss[0]), next, AllSteps(r, id, ss[1..]), t);
    }
  }

  /** An object cut into pieces under ascending part numbers. */
  ghost predicate Cut(content: Bytes, ks: seq<int>, ps: seq<Bytes>) {
    |ks| == |ps| > 0 && Ascending(ks) && content == Concat(ps)
  }

  /** End to end: whatever the order in which the pieces are sent, repetitions included, and with or
      without declared lengths, the file backend stores exactly the object. */
  lemma FileStoresObject(s: FileSystem, u: nat, id: string, r: nat, content: Bytes, ks: seq<int>, ps: seq<Bytes>,
                         ss: seq<Sending>) returns (t: FileSystem)
    requires Ready(s.core, u, r) && s.core.uploads.begun[u].id == id && s.core.uploads.begun[u].log == []
    requires Cut(content, ks, ps) && OnlyPieces(Sent(ss), ks, ps) && AllPieces(Sent(ss), ks, ps)
    requires Declared(ss) && WithinAll([], ss)
    ensures FileServes(s, AllSteps(r, id, ss), t)
    ensures t.objects == s.objects[s.core.uploads.begun[u].name := content]
  {
    assert [] + Sent(ss) == Sent(ss);
    assert (ks[0], ps[0]) in Sent(ss);
    PiecesMakeObject(Sent(ss), ks, ps);
    t := FileUploadRuns(s, u, id, r, ss);
  }

  ghost predicate DistinctParts(ss: seq<Sending>) {
    forall i, j :: 0 <= i < j < |ss| ==> ss[i].part != ss[j].part
  }

  /** Parts sent once each only add to what is held. */
  lemma {:induction false} SizesAdd(log: Log, ss: seq<Sending>)
    requires DistinctParts(ss) && forall i :: 0 <= i < |ss| ==> ss[i].part !in Table(log)
    requires Declared(ss) && forall i :: 0 <= i < |ss| ==> |ss[i].data| <= FileUploads.MAX_PART
    requires SizeOf(Table(log + Sent(ss)).Keys, Table(log + Sent(ss))) <= FileUploads.MAX_TOTAL
    ensures SizeOf(Table(log).Keys, Table(log)) <= SizeOf(Table(log + Sent(ss)).Keys, Table(log + Sent(ss)))
    ensures WithinAll(log, ss)
    decreases |ss|
  {
    if ss == [] {
      assert log + Sent(ss) == log;
    } else {
      var p, next := ss[0], log + [(ss[0].part, ss[0].data)];
      TableAppend(log, p.part, p.data);
      SizeAfterStore(Table(log), p.part, p.data);
      SentNext(log, ss);
      SizesAdd(next, ss[1..]);
    }
  }

  /** No part is refused if each is sent once, none is too large and the object is within the limit. */
  lemma WithinLimits(content: Bytes, ks: seq<int>, ps: seq<Bytes>, ss: seq<Sending>)
    requires Cut(content, ks, ps) && OnlyPieces(Sent(ss), ks, ps) && AllPieces(Sent(ss), ks, ps)
    requires Declared(ss) && DistinctParts(ss) && |content| <= FileUploads.MAX_TOTAL
    requires forall i :: 0 <= i < |ps| ==> |ps[i]| <= FileUploads.MAX_PART
    ensures WithinAll([], ss)
  {
    forall i | 0 <= i < |ss| ensures |ss[i].data| <= FileUploads.MAX_PART {
      assert IsPiece(ks, ps, Sent(ss)[i].0, Sent(ss)[i].1);
    }
    PiecesMakeObject(Sent(ss), ks, ps);
    ObjectSize(Sent(ss));
    assert [] + Sent(ss) == Sent(ss);
    SizesAdd([], ss);
  }

  // ---------- the same with staged parts ----------

  lemma {:induction false} BlobServesConcat(s: BlobSystem, a: seq<Step>, t: BlobSystem, b: seq<Step>, v: BlobSystem)
    requires BlobServes(s, a, t) && BlobServes(t, b, v)
    ensures BlobServes(s, a + b, v)
    decreases |a|
  {
    if a == [] {
      assert a + b == b;
    } else {
      assert (a + b)[1..] == a[1..] + b;
      BlobServesConcat(BlobNext(s, BlobAction(a[0])), a[1..], t, b, v);
    }
  }

  lemma BlobServesNext(s: BlobSystem, q: Step, qs: seq<Step>, t: BlobSystem)
    requires Possible(s.core, q) && BlobEnabled(s, BlobAction(q))
    requires BlobServes(BlobNext(s, BlobAction(q)), qs, t)
    ensures BlobServes(s, [q] + qs, t)
  {
    assert ([q] + qs)[1..] == qs;
  }

  /** Staging a part and recording it at once disturbs nothing. */
  lemma PartUndisturbed(events: seq<Event>, u: nat, part: int, data: Bytes)
    requires Undisturbed(events, u)
    ensures Undisturbed(events + [Staged(u, part, data)] + [Recorded(u, |events|)], u)
  {
    var staged := events + [Staged(u, part, data)];
    var after := staged + [Recorded(u, |events|)];
    assert staged[..|events|] == events && after[..|staged|] == staged;
    assert RecordedLog(after, u) == RecordedLog(events, u) + [(part, data)];
    TableAppend(RecordedLog(events, u), part, data);
  }

  lemma BlobPart(s: BlobSystem, u: nat, id: string, r: nat, p: Sending) returns (t: BlobSystem)
    requires Ready(s.core, u, r) && s.core.uploads.begun[u].id == id && Declared([p])
    requires !Locked(s.core, u) && Undisturbed(EventsAt(s.history, s.core.uploads.begun[u].name), u)
    ensures BlobServes(s, PartSteps(r, id, p), t)
    ensures t.core == Core(s.core.uploads.Append(u, p.part, p.data), s.core.requests) && t.objects == s.objects
    ensures Undisturbed(EventsAt(t.history, s.core.uploads.begun[u].name), u)
  {
    var name := s.core.uploads.begun[u].name;
    assert [p][0] == p;
    BlobTakesIff(p.size, Body(p.data, false), p.data);
    PartUndisturbed(EventsAt(s.history, name), u, p.part, p.data);
    var qs, look, receive := PartSteps(r, id, p), LookUp(r, id), Receive(r, p.part, p.data);
    var s1 := BlobNext(s, look);
    var s2 := BlobNext(s1, receive);
    assert BlobAction(qs[1]) == receive;
    UnlockedStill(s.core, u, r, s2.core);
    t := BlobNext(s2, Record(r));
    BlobServesNext(s2, qs[2], [], t);
    BlobServesNext(s1, qs[1], [qs[2]], t);
    BlobServesNext(s, qs[0], [qs[1], qs[2]], t);
    Released(s.core.requests, r, Found(u), Received(u, p.part, p.data));
  }

  lemma UnlockedStill(c: Core, u: nat, r: nat, d: Core)
    requires !Locked(c, u) && forall q :: q in d.requests && q != r ==> q in c.requests && d.requests[q] == c.requests[q]
    requires r in d.requests ==> !d.requests[r].Gathered?
    ensures !Locked(d, u)
  {
  }

  lemma BlobCompletion(s: BlobSystem, u: nat, id: string, r: nat) returns (t: BlobSystem)
    requires Traced(s) && Ready(s.core, u, r) && s.core.uploads.begun[u].id == id && s.core.uploads.begun[u].log != []
    requires !Locked(s.core, u) && Undisturbed(EventsAt(s.history, s.core.uploads.begun[u].name), u)
    ensures BlobServes(s, AllSteps(r, id, []), t)
    ensures var upload := s.core.uploads.begun[u];
            t.objects == s.objects[upload.name := ObjectOf(upload.log)]
  {
    var s1 := BlobNext(s, LookUp(r, id));
    TracedStep(s, LookUp(r, id));
    UnlockedStill(s.core, u, r, s1.core);
    var s2 := BlobNext(s1, Gather(r));
    TracedStep(s1, Gather(r));
    t := BlobCommit(s2, r);
    BlobServesNext(s1, Do(Gather(r)), [Do(Write(r)), Do(Forget(r))], t);
    BlobServesNext(s, Do(LookUp(r, id)), [Do(Gather(r)), Do(Write(r)), Do(Forget(r))], t);
  }

  lemma BlobCommit(s: BlobSystem, r: nat) returns (t: BlobSystem)
    requires Traced(s) && Enabled(s.core, Write(r)) && SafeToWrite(s, r)
    ensures BlobServes(s, [Do(Write(r)), Do(Forget(r))], t)
    ensures t.objects == s.objects[UploadOf(s.core, r).name := ObjectOf(UploadOf(s.core, r).log)]
  {
    StagedCompleteStores(s, r);
    var next := BlobNext(s, Write(r));
    t := BlobNext(next, Forget(r));
    BlobServesNext(next, Do(Forget(r)), [], t);
    BlobServesNext(s, Do(Write(r)), [Do(Forget(r))], t);
  }

  lemma {:induction false} BlobUploadRuns(s: BlobSystem, u: nat, id: string, r: nat, ss: seq<Sending>)
    returns (t: BlobSystem)
    requires Traced(s) && Ready(s.core, u, r) && s.core.uploads.begun[u].id == id && Declared(ss)
    requires !Locked(s.core, u) && Undisturbed(EventsAt(s.history, s.core.uploads.begun[u].name), u)
    requires s.core.uploads.begun[u].log + Sent(ss) != []
    ensures BlobServes(s, AllSteps(r, id, ss), t)
    ensures var upload := s.core.uploads.begun[u];
            t.objects == s.objects[upload.name := ObjectOf(upload.log + Sent(ss))]
    decreases |ss|
  {
    var log := s.core.uploads.begun[u].log;
    if ss == [] {
      assert log + Sent(ss) == log;
      t := BlobCompletion(s, u, id, r);
    } else {
      var next := BlobPart(s, u, id, r, ss[0]);
      ReadyAfter(s.core, u, r, ss[0].part, ss[0].data);
      BlobServesTraced(s, PartSteps(r, id, ss[0]), next);
      SentNext(log, ss);
      t := BlobUploadRuns(next, u, id, r, ss[1..]);
      BlobServesConcat(s, PartSteps(r, id, ss[0]), next, AllSteps(r, id, ss[1..]), t);
    }
  }

  lemma {:induction false} NothingRecorded(events: seq<Event>, u: nat)
    requires RecordedLog(events, u) == []
    ensures Undisturbed(events, u)
  {
  }

  /** End to end in the blob backend, which has no limits: whatever other uploads have left in the
      staging area, the object is stored exactly. */
  lemma BlobStoresObject(s: BlobSystem, u: nat, id: string, r: nat, content: Bytes, ks: seq<int>, ps: seq<Bytes>,
                         ss: seq<Sending>) returns (t: BlobSystem)
    requires Traced(s) && Ready(s.core, u, r) && s.core.uploads.begun[u].id == id && s.core.uploads.begun[u].log == []
    requires !Locked(s.core, u)
    requires Cut(content, ks, ps) && OnlyPieces(Sent(ss), ks, ps) && AllPieces(Sent(ss), ks, ps) && Declared(ss)
    ensures BlobServes(s, AllSteps(r, id, ss), t)
    ensures t.objects == s.objects[s.core.uploads.begun[u].name := content]
  {
    assert [] + Sent(ss) == Sent(ss);
    assert (ks[0], ps[0]) in Sent(ss);
    assert LogTraced(s, u);
    NothingRecorded(EventsAt(s.history, s.core.uploads.begun[u].name), u);
    PiecesMakeObject(Sent(ss), ks, ps);
    t := BlobUploadRuns(s, u, id, r, ss);
  }

  // ---------- the tag of an object sent in parts ----------

  function Digests(md5: Bytes -> Bytes, ps: seq<Bytes>): seq<Bytes> {
    seq(|ps|, i requires 0 <= i < |ps| => md5(ps[i]))
  }

  /** The tag of an object sent in pieces is the digest of the pieces' digests, joined in the order of the
      object, with the number of pieces, however often and in whatever order they were sent. */
  lemma TagOfPieces(md5: Bytes -> Bytes, log: Log, ks: seq<int>, ps: seq<Bytes>)
    requires |ks| == |ps| && Ascending(ks) && OnlyPieces(log, ks, ps) && AllPieces(log, ks, ps)
    ensures BlobUploads.CompositeTag(md5, log) == Composite(md5(Concat(Digests(md5, ps))), |ps|)
  {
    PiecesAreTable(log, ks, ps);
    forall i | 0 <= i < |ks|
      ensures ks[i] in BlobUploads.DigestTable(md5, log) && BlobUploads.DigestTable(md5, log)[ks[i]] == md5(ps[i])
    {
      BlobUploads.TablesDescribeLastData(md5, log, ks[i]);
    }
    JoinIsConcat(ks, Digests(md5, ps), BlobUploads.DigestTable(md5, log));
  }

  // ---------- what listings of parts say ----------

  /** The first upload of a part. */
  ghost predicate FirstAt(log: Log, part: int, k: nat) {
    k < |log| && log[k].0 == part && forall j :: 0 <= j < k ==> log[j].0 != part
  }

  /** The file backend lists parts in the order of their first uploads. */
  lemma {:induction false} ListedByFirstUpload(log: Log, i: nat, j: nat) returns (a: nat, b: nat)
    requires i < j < |FileUploads.FirstUploads(log)|
    ensures a < b && FirstAt(log, FileUploads.FirstUploads(log)[i], a) && FirstAt(log, FileUploads.FirstUploads(log)[j], b)
  {
    var n, order := |log| - 1, FileUploads.FirstUploads(log);
    var before := FileUploads.FirstUploads(log[..n]);
    if j < |before| {
      a, b := ListedByFirstUpload(log[..n], i, j);
    } else {
      a := FirstOf(log[..n], order[i]);
      b := n;
      forall k | 0 <= k < n ensures log[k].0 != order[j] {
        TableOfLog(log[..n]);
        FileUploads.FirstUploadsCoverTable(log[..n], order[j]);
        assert log[..n][k] in log[..n];
      }
    }
  }

  lemma {:induction false} FirstOf(log: Log, part: int) returns (k: nat)
    requires part in FileUploads.FirstUploads(log)
    ensures FirstAt(log, part, k)
  {
    var n := |log| - 1;
    if part in FileUploads.FirstUploads(log[..n]) {
      k := FirstOf(log[..n], part);
    } else {
      k := n;
      forall j | 0 <= j < n ensures log[j].0 != part {
        TableOfLog(log[..n]);
        FileUploads.FirstUploadsCoverTable(log[..n], part);
        assert log[..n][j] in log[..n];
      }
    }
  }

  /** The blob backend lists each part with the digest of its last data and the size zero. */
  lemma {:induction false} ListedAt(md5: Bytes -> Bytes, log: Log, parts: seq<int>, i: nat)
    requires i < |parts| && forall p :: p in parts ==> p in Table(log)
    ensures var infos := BlobUploads.ListedParts(md5, log, parts);
            |infos| == |parts| && parts[i] in Table(log) && infos[i] == PartInfo(parts[i], Plain(md5(Table(log)[parts[i]])), 0)
  {
    var n := |parts| - 1;
    assert forall p :: p in parts[..n] ==> p in parts;
    ListedSize(md5, log, parts[..n]);
    if i < n {
      ListedAt(md5, log, parts[..n], i);
    }
  }

  lemma {:induction false} ListedSize(md5: Bytes -> Bytes, log: Log, parts: seq<int>)
    ensures |BlobUploads.ListedParts(md5, log, parts)| == |parts|
  {
    if parts != [] {
      ListedSize(md5, log, parts[..|parts| - 1]);
    }
  }
}
