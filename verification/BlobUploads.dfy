/** Multipart uploads of the Azure Blob backend: parts are staged as blocks of the target blob
    and completion commits the blocks in ascending part number. */
module BlobUploads {
  import opened Text
  import opened Multipart
  import opened PartOrder
  import opened BlockStaging
  import opened UploadProtocol
  import opened UploadRuns

  const STAGE_THRESHOLD: nat := 268_435_456

  // ---------- the blob service ----------

  /** The blocks of one blob that a block list can name: for each id the latest staged block, or
      else the committed one. */
  type Blocks = map<Bytes, Bytes>

  /** Committing a block list: the listed blocks in order, or a failure when one is unknown. */
  function CommitContent(blocks: Blocks, ids: seq<Bytes>): Option<Bytes> {
    if ids == [] then Some([])
    else
      var id := ids[|ids| - 1];
      var before := CommitContent(blocks, ids[..|ids| - 1]);
      if before.None? || id !in blocks then None else Some(before.value + blocks[id])
  }

  /** The blocks are the staged parts under their block ids. */
  ghost predicate Mirrors(blocks: Blocks, shared: map<int, Bytes>) {
    forall part: int :: (part in shared <==> BlockId(part) in blocks) &&
                        (part in shared ==> blocks[BlockId(part)] == shared[part])
  }

  function BlockIds(ks: seq<int>): seq<Bytes> {
    if ks == [] then [] else BlockIds(ks[..|ks| - 1]) + [BlockId(ks[|ks| - 1])]
  }

  lemma BlockIdsNext(ks: seq<int>, i: nat)
    requires i < |ks|
    ensures BlockIds(ks[..i + 1]) == BlockIds(ks[..i]) + [BlockId(ks[i])]
  {
    assert ks[..i + 1][..i] == ks[..i];
  }

  lemma MirrorStage(blocks: Blocks, shared: map<int, Bytes>, part: int, data: Bytes)
    requires Mirrors(blocks, shared)
    ensures Mirrors(blocks[BlockId(part) := data], shared[part := data])
  {
    forall other: int ensures BlockId(other) == BlockId(part) ==> other == part {
      BlockIdInjective(other, part);
    }
  }

  ghost predicate AllIn(ks: seq<int>, shared: map<int, Bytes>) {
    forall i :: 0 <= i < |ks| ==> ks[i] in shared
  }

  lemma AllInNext(ks: seq<int>, shared: map<int, Bytes>)
    requires ks != []
    ensures AllIn(ks, shared) <==> AllIn(ks[..|ks| - 1], shared) && ks[|ks| - 1] in shared
  {
    var init := ks[..|ks| - 1];
    assert forall i :: 0 <= i < |init| ==> init[i] == ks[i];
  }

  /** Committing by block id is joining by part number. */
  lemma {:induction false} CommitIsJoin(blocks: Blocks, shared: map<int, Bytes>, ks: seq<int>)
    requires Mirrors(blocks, shared)
    ensures CommitContent(blocks, BlockIds(ks)) == if AllIn(ks, shared) then Some(Join(ks, shared)) else None
  {
    if ks != [] {
      var init := ks[..|ks| - 1];
      CommitIsJoin(blocks, shared, init);
      AllInNext(ks, shared);
      assert BlockIds(ks)[..|BlockIds(ks)| - 1] == BlockIds(init);
    }
  }

  lemma CommitIsAssembled(blocks: Blocks, events: seq<Event>, log: Log)
    requires Mirrors(blocks, Shared(events))
    ensures CommitContent(blocks, BlockIds(Sorted(Table(log).Keys))) == Assembled(events, log)
  {
    var ks, keys := Sorted(Table(log).Keys), Table(log).Keys;
    SortedIsAscending(keys);
    CommitIsJoin(blocks, Shared(events), ks);
    if AllIn(ks, Shared(events)) {
      assert forall k :: k in keys ==> k in ks;
    } else {
      var i :| 0 <= i < |ks| && ks[i] !in Shared(events);
      assert ks[i] in ks;
    }
  }

  /** The service: object contents, and the blocks of each object. */
  datatype Service = Service(objects: map<ObjectName, Bytes>, blocks: map<ObjectName, Blocks>) {
    function BlocksAt(name: ObjectName): Blocks {
      if name in blocks then blocks[name] else map[]
    }

    function StageBlock(name: ObjectName, id: Bytes, data: Bytes): Service {
      this.(blocks := blocks[name := BlocksAt(name)[id := data]])
    }

    /** The listed blocks become the committed ones; all others are dropped. */
    function CommitBlockList(name: ObjectName, ids: seq<Bytes>): Option<Service> {
      var content := CommitContent(BlocksAt(name), ids);
      if content.None? then None
      else Some(Service(objects[name := content.value], blocks[name := Listed(BlocksAt(name), ids)]))
    }
  }

  function Listed(blocks: Blocks, ids: seq<Bytes>): Blocks {
    map id | id in blocks && id in ids :: blocks[id]
  }

  lemma {:induction false} IdListed(ks: seq<int>, part: int)
    ensures BlockId(part) in BlockIds(ks) <==> part in ks
  {
    if ks != [] {
      IdListed(ks[..|ks| - 1], part);
      BlockIdInjective(part, ks[|ks| - 1]);
      assert ks == ks[..|ks| - 1] + [ks[|ks| - 1]];
    }
  }

  lemma MirrorCommit(blocks: Blocks, shared: map<int, Bytes>, ks: seq<int>, parts: set<int>)
    requires Mirrors(blocks, shared) && SameMembers(ks, parts)
    ensures Mirrors(Listed(blocks, BlockIds(ks)), SharedStep(shared, Committed(parts)))
  {
    forall part: int ensures BlockId(part) in BlockIds(ks) <==> part in parts {
      IdListed(ks, part);
    }
  }

  /** The service's blocks are what the history says. */
  ghost predicate Follows(service: Service, history: map<ObjectName, seq<Event>>) {
    forall name: ObjectName :: Mirrors(service.BlocksAt(name), Shared(EventsAt(history, name)))
  }

  lemma FollowsStep(service: Service, history: map<ObjectName, seq<Event>>, name: ObjectName, e: Event, after: Service)
    requires Follows(service, history)
    requires forall other :: other != name ==> after.BlocksAt(other) == service.BlocksAt(other)
    requires Mirrors(after.BlocksAt(name), SharedStep(Shared(EventsAt(history, name)), e))
    ensures Follows(after, Happened(history, name, e))
  {
    SharedAppend(EventsAt(history, name), e);
    forall other: ObjectName
      ensures Mirrors(after.BlocksAt(other), Shared(EventsAt(Happened(history, name, e), other)))
    {
      assert Mirrors(service.BlocksAt(other), Shared(EventsAt(history, other)));
    }
  }

  lemma FollowsRecord(service: Service, history: map<ObjectName, seq<Event>>, name: ObjectName, upload: nat, at: nat)
    requires Follows(service, history)
    ensures Follows(service, Happened(history, name, Recorded(upload, at)))
  {
    assert Mirrors(service.BlocksAt(name), Shared(EventsAt(history, name)));
    FollowsStep(service, history, name, Recorded(upload, at), service);
  }

  lemma FollowsStage(service: Service, history: map<ObjectName, seq<Event>>, name: ObjectName, upload: nat, part: int, data: Bytes)
    requires Follows(service, history)
    ensures Follows(service.StageBlock(name, BlockId(part), data), Happened(history, name, Staged(upload, part, data)))
  {
    MirrorStage(service.BlocksAt(name), Shared(EventsAt(history, name)), part, data);
    FollowsStep(service, history, name, Staged(upload, part, data), service.StageBlock(name, BlockId(part), data));
  }

  /** Committing the blocks of some parts. */
  lemma FollowsKeep(service: Service, history: map<ObjectName, seq<Event>>, name: ObjectName, content: Bytes, parts: set<int>)
    requires Follows(service, history)
    ensures var kept := Listed(service.BlocksAt(name), BlockIds(Sorted(parts)));
            Follows(Service(service.objects[name := content], service.blocks[name := kept]),
                    Happened(history, name, Committed(parts)))
  {
    var kept := Listed(service.BlocksAt(name), BlockIds(Sorted(parts)));
    var after := Service(service.objects[name := content], service.blocks[name := kept]);
    SortedIsAscending(parts);
    assert Mirrors(service.BlocksAt(name), Shared(EventsAt(history, name)));
    MirrorCommit(service.BlocksAt(name), Shared(EventsAt(history, name)), Sorted(parts), parts);
    FollowsStep(service, history, name, Committed(parts), after);
  }

  lemma FollowsCommit(service: Service, history: map<ObjectName, seq<Event>>, name: ObjectName, log: Log)
    requires Follows(service, history)
    ensures var after := service.CommitBlockList(name, BlockIds(Sorted(Table(log).Keys)));
            var content := Assembled(EventsAt(history, name), log);
            && (after.None? <==> content.None?)
            && (after.Some? ==>
                  after.value.objects == service.objects[name := content.value] &&
                  Follows(after.value, Happened(history, name, Committed(Table(log).Keys))))
  {
    var content := Assembled(EventsAt(history, name), log);
    assert Mirrors(service.BlocksAt(name), Shared(EventsAt(history, name)));
    CommitIsAssembled(service.BlocksAt(name), EventsAt(history, name), log);
    if content.Some? {
      FollowsKeep(service, history, name, content.value, Table(log).Keys);
    }
  }

  // ---------- one upload ----------

  /** The three tables that an upload keeps, by part number. */
  function BlockTable(log: Log): map<int, Bytes> {
    if log == [] then map[]
    else BlockTable(log[..|log| - 1])[log[|log| - 1].0 := BlockId(log[|log| - 1].0)]
  }

  function DigestTable(md5: Bytes -> Bytes, log: Log): map<int, Bytes> {
    if log == [] then map[]
    else DigestTable(md5, log[..|log| - 1])[log[|log| - 1].0 := md5(log[|log| - 1].1)]
  }

  function TagTable(md5: Bytes -> Bytes, log: Log): map<int, ETag> {
    if log == [] then map[]
    else TagTable(md5, log[..|log| - 1])[log[|log| - 1].0 := Plain(md5(log[|log| - 1].1))]
  }

  lemma {:induction false} TableKeys(md5: Bytes -> Bytes, log: Log)
    ensures BlockTable(log).Keys == DigestTable(md5, log).Keys == TagTable(md5, log).Keys == Table(log).Keys
  {
    if log != [] {
      TableKeys(md5, log[..|log| - 1]);
    }
  }

  /** They describe the last data of a part. */
  lemma {:induction false} TablesDescribeLastData(md5: Bytes -> Bytes, log: Log, part: int)
    requires part in Table(log)
    ensures part in BlockTable(log) && BlockTable(log)[part] == BlockId(part)
    ensures part in DigestTable(md5, log) && DigestTable(md5, log)[part] == md5(Table(log)[part])
    ensures part in TagTable(md5, log) && TagTable(md5, log)[part] == Plain(md5(Table(log)[part]))
  {
    if log[|log| - 1].0 != part {
      TablesDescribeLastData(md5, log[..|log| - 1], part);
    }
  }

  lemma TablesAppend(md5: Bytes -> Bytes, log: Log, part: int, data: Bytes)
    ensures var longer := log + [(part, data)];
            && BlockTable(longer) == BlockTable(log)[part := BlockId(part)]
            && DigestTable(md5, longer) == DigestTable(md5, log)[part := md5(data)]
            && TagTable(md5, longer) == TagTable(md5, log)[part := Plain(md5(data))]
  {
    assert (log + [(part, data)])[..|log|] == log;
  }

  /** The composite entity tag: the digest of the part digests in ascending part number. */
  ghost function CompositeTag(md5: Bytes -> Bytes, log: Log): ETag {
    Composite(md5(Join(Sorted(Table(log).Keys), DigestTable(md5, log))), |Table(log)|)
  }

  /** A listed part: the digest of its last data; sizes are not tracked. */
  function ListedPart(md5: Bytes -> Bytes, log: Log, part: int): PartInfo {
    PartInfo(part, if part in Table(log) then Plain(md5(Table(log)[part])) else Plain([]), 0)
  }

  function ListedParts(md5: Bytes -> Bytes, log: Log, parts: seq<int>): seq<PartInfo> {
    if parts == [] then []
    else ListedParts(md5, log, parts[..|parts| - 1]) + [ListedPart(md5, log, parts[|parts| - 1])]
  }

  lemma ListedNext(md5: Bytes -> Bytes, log: Log, parts: seq<int>, i: nat)
    requires i < |parts| && parts[i] in Table(log)
    ensures parts[i] in TagTable(md5, log)
    ensures ListedParts(md5, log, parts[..i + 1]) ==
            ListedParts(md5, log, parts[..i]) + [PartInfo(parts[i], TagTable(md5, log)[parts[i]], 0)]
  {
    assert parts[..i + 1][..i] == parts[..i];
    TablesDescribeLastData(md5, log, parts[i]);
  }

  class StagedUpload {
    const id: string
    const name: ObjectName
    const number: nat                 // position among all uploads
    const md5: Bytes -> Bytes
    var blockIdByPart: map<int, Bytes>
    var partMD5ByPart: map<int, Bytes>
    var partETag: map<int, ETag>
    ghost var log: Log

    ghost predicate Valid() reads this {
      blockIdByPart == BlockTable(log) && partMD5ByPart == DigestTable(md5, log) && partETag == TagTable(md5, log)
    }

    constructor (id: string, name: ObjectName, number: nat, md5: Bytes -> Bytes)
      ensures Valid() && this.id == id && this.name == name && this.number == number && this.md5 == md5 && log == []
    {
      this.id, this.name, this.number, this.md5 := id, name, number, md5;
      blockIdByPart, partMD5ByPart, partETag, log := map[], map[], map[], [];
    }

    method Store(part: int, digest: Bytes, ghost data: Bytes)
      requires Valid() && digest == md5(data)
      modifies this
      ensures Valid() && log == old(log) + [(part, data)]
    {
      TablesAppend(md5, log, part, data);
      blockIdByPart := blockIdByPart[part := BlockId(part)];
      partMD5ByPart := partMD5ByPart[part := digest];
      partETag := partETag[part := Plain(digest)];
      log := log + [(part, data)];
    }

    /** The block list and the joined digests, both in ascending part number. */
    method Gather() returns (blockIds: seq<Bytes>, digests: Bytes)
      requires Valid()
      ensures blockIds == BlockIds(Sorted(Table(log).Keys))
      ensures digests == Join(Sorted(Table(log).Keys), DigestTable(md5, log))
    {
      TableKeys(md5, log);
      var numbers := PartNumbers(blockIdByPart.Keys);
      SortedIsAscending(blockIdByPart.Keys);
      blockIds, digests := [], [];
      for i := 0 to |numbers|
        invariant blockIds == BlockIds(numbers[..i])
        invariant digests == Join(numbers[..i], partMD5ByPart)
      {
        var number := numbers[i];
        assert number in numbers;
        TablesDescribeLastData(md5, log, number);
        JoinNext(numbers, i, partMD5ByPart);
        BlockIdsNext(numbers, i);
        blockIds := blockIds + [blockIdByPart[number]];
        digests := digests + partMD5ByPart[number];
      }
      assert numbers[..|numbers|] == numbers;
    }

    method Infos() returns (infos: seq<PartInfo>)
      requires Valid()
      ensures infos == ListedParts(md5, log, Sorted(Table(log).Keys))
    {
      TableKeys(md5, log);
      var numbers := PartNumbers(blockIdByPart.Keys);
      SortedIsAscending(blockIdByPart.Keys);
      infos := InfosOf(numbers);
    }

    method InfosOf(numbers: seq<int>) returns (infos: seq<PartInfo>)
      requires Valid() && forall part :: part in numbers ==> part in Table(log)
      ensures infos == ListedParts(md5, log, numbers)
    {
      infos := [];
      for i := 0 to |numbers|
        invariant infos == ListedParts(md5, log, numbers[..i])
      {
        var number := numbers[i];
        assert number in numbers;
        ListedNext(md5, log, numbers, i);
        infos := infos + [PartInfo(number, partETag[number], 0)];
      }
      assert numbers[..|numbers|] == numbers;
    }
  }

  // ---------- the backend ----------

  /** What is read of a part's body: exactly the declared size when one is declared and not too
      large, otherwise everything. */
  function ReadPart(body: Body, size: int): Result<Bytes> {
    if 0 < size <= STAGE_THRESHOLD then
      if |body.data| >= size then Ok(body.data[..size]) else Err(ReadFailed)
    else if body.broken then Err(ReadFailed)
    else Ok(body.data)
  }

  /** What the backend and the service hold: the uploads, and what happened at each object. */
  datatype BlobState = BlobState(uploads: Uploads, writes: Writes, history: map<ObjectName, seq<Event>>)

  /** Nothing is ever struck from the history. */
  ghost predicate Extends(before: map<ObjectName, seq<Event>>, after: map<ObjectName, seq<Event>>) {
    forall name: ObjectName :: EventsAt(before, name) <= EventsAt(after, name)
  }

  lemma HappenedExtends(history: map<ObjectName, seq<Event>>, name: ObjectName, e: Event)
    ensures Extends(history, Happened(history, name, e))
  {
  }

  lemma ExtendsTwice(a: map<ObjectName, seq<Event>>, b: map<ObjectName, seq<Event>>, c: map<ObjectName, seq<Event>>)
    requires Extends(a, b) && Extends(b, c)
    ensures Extends(a, c)
  {
    forall name: ObjectName ensures EventsAt(a, name) <= EventsAt(c, name) {
      assert EventsAt(a, name) <= EventsAt(b, name) <= EventsAt(c, name);
    }
  }

  /** The second state may come of the first by what requests do. */
  ghost predicate Later(a: BlobState, b: BlobState) {
    Grown(a.uploads, b.uploads) && a.writes <= b.writes && Extends(a.history, b.history)
  }

  lemma LaterTwice(a: BlobState, b: BlobState, c: BlobState)
    requires Later(a, b) && Later(b, c)
    ensures Later(a, c)
  {
    ExtendsTwice(a.history, b.history, c.history);
    forall u | 0 <= u < |a.uploads.begun| ensures a.uploads.begun[u].log <= c.uploads.begun[u].log {
      assert a.uploads.begun[u].log <= b.uploads.begun[u].log <= c.uploads.begun[u].log;
    }
  }

  class BlobBackend {
    const md5: Bytes -> Bytes
    var uploads: map<string, StagedUpload>
    var begun: seq<StagedUpload>      // all uploads: requests in flight may point to any of them
    var service: Service
    ghost var known: Uploads
    ghost var writes: Writes
    ghost var history: map<ObjectName, seq<Event>>

    /** The uploads and the table are what `known` says. */
    ghost predicate UploadsOk() reads this`uploads, this`begun, this`known, begun {
      && |begun| == |known.begun|
      && (forall k :: 0 <= k < |begun| ==>
            var u := begun[k];
            u.number == k && u.md5 == md5 && known.begun[k] == Upload(u.id, u.name, u.log) && u.Valid())
      && uploads.Keys == known.table.Keys
      && (forall id :: id in uploads ==>
            var u := uploads[id];
            u.number == known.table[id] < |begun| && begun[u.number] == u && u.id == id)
    }

    /** The service holds what has happened. */
    ghost predicate ServiceOk() reads this`service, this`writes, this`history {
      service.objects == ObjectsAfter(writes) && Follows(service, history)
    }

    ghost predicate Valid() reads this, begun {
      UploadsOk() && ServiceOk()
    }

    ghost function View(): BlobState reads this`known, this`writes, this`history {
      BlobState(known, writes, history)
    }

    constructor (md5: Bytes -> Bytes)
      ensures Valid() && View() == BlobState(Uploads([], map[]), [], map[]) && this.md5 == md5
    {
      this.md5 := md5;
      uploads, begun, service := map[], [], Service(map[], map[]);
      known, writes, history := Uploads([], map[]), [], map[];
    }

    /** A new upload takes its id, even from an upload that already has it. */
    method Initiate(name: ObjectName, nanos: nat) returns (id: string)
      requires Valid()
      modifies `uploads, `begun, `known
      ensures Valid() && Later(old(View()), View())
      ensures id == UploadId(name, nanos) && known == old(known).Begin(id, name)
      ensures |begun| == |old(begun)| + 1 && old(begun) <= begun && fresh(begun[|old(begun)|])
    {
      id := UploadId(name, nanos);
      var upload := new StagedUpload(id, name, |begun|, md5);
      begun := begun + [upload];
      uploads := uploads[id := upload];
      known := known.Begin(id, name);
    }

    /** The checks that every request makes first. */
    method LookUp(name: ObjectName, id: string) returns (r: Result<StagedUpload>)
      requires UploadsOk()
      ensures known.Valid()
      ensures match Find(known, name, id)
              case Err(e) => r == Err(e)
              case Ok(u) => u < |begun| && r == Ok(begun[u])
    {
      if id !in uploads {
        return Err(NoSuchUpload);
      }
      if uploads[id].name != name {
        return Err(WrongObject);
      }
      return Ok(uploads[id]);
    }

    method Remove(id: string)
      requires Valid()
      modifies `uploads, `known
      ensures Valid() && Later(old(View()), View())
      ensures known == old(known).Remove(id)
    {
      uploads, known := uploads - {id}, known.Remove(id);
    }

    method StageAt(name: ObjectName, ghost u: nat, part: int, data: Bytes)
      requires Valid()
      modifies `service, `history
      ensures Valid() && Later(old(View()), View())
      ensures history == Happened(old(history), name, Staged(u, part, data))
    {
      HappenedExtends(history, name, Staged(u, part, data));
      FollowsStage(service, history, name, u, part, data);
      service := service.StageBlock(name, BlockId(part), data);
      history := Happened(history, name, Staged(u, part, data));
    }

    /** Records the block of event `at` in an upload that was looked up earlier, which may have left the
        table since. */
    method RecordPart(upload: StagedUpload, part: int, data: Bytes, ghost at: nat)
      requires Valid() && upload in begun
      modifies `known, `history, upload
      ensures Valid() && Later(old(View()), View())
      ensures upload.number < |old(known).begun| && known == old(known).Append(upload.number, part, data)
      ensures history == Happened(old(history), upload.name, Recorded(upload.number, at))
    {
      HappenedExtends(history, upload.name, Recorded(upload.number, at));
      upload.Store(part, md5(data), data);
      known := known.Append(upload.number, part, data);
      FollowsRecord(service, history, upload.name, upload.number, at);
      history := Happened(history, upload.name, Recorded(upload.number, at));
    }

    /** The service commits the blocks of the parts that `log` recorded, or fails if one is unknown. */
    method CommitBlocks(name: ObjectName, ids: seq<Bytes>, ghost log: Log) returns (ok: bool)
      requires Valid() && ids == BlockIds(Sorted(Table(log).Keys))
      modifies `service, `writes, `history
      ensures Valid() && Extends(old(history), history)
      ensures var content := Assembled(EventsAt(old(history), name), log);
              && ok == content.Some?
              && writes == (if ok then old(writes) + [(name, content.value)] else old(writes))
              && history == if ok then Happened(old(history), name, Committed(Table(log).Keys)) else old(history)
    {
      HappenedExtends(history, name, Committed(Table(log).Keys));
      FollowsCommit(service, history, name, log);
      var after := service.CommitBlockList(name, ids);
      if after.None? {
        return false;
      }
      ObjectsAppend(writes, name, after.value.objects[name]);
      writes := writes + [(name, after.value.objects[name])];
      history := Happened(history, name, Committed(Table(log).Keys));
      service := after.value;
      ok := true;
    }

    // ---------- everybody else ----------

    /** One step of another request: an upload begins or leaves the table, a block is staged, recorded in
        an upload that is not locked, or committed with others. */
    method OtherRequest(locked: int)
      requires Valid()
      modifies this, begun
      ensures Valid() && Later(old(View()), View()) && old(begun) <= begun
      ensures forall k :: |old(begun)| <= k < |begun| ==> fresh(begun[k])
      ensures 0 <= locked < |old(begun)| ==> known.begun[locked] == old(known).begun[locked]
    {
      var kind: int, id: string, name: ObjectName, k: int, part: int, data: Bytes := *, *, *, *, *, *;
      if kind == 0 && k >= 0 {
        var _ := Initiate(name, k);
      } else if kind == 1 {
        Remove(id);
      } else if kind == 2 && k >= 0 {
        StageAt(name, k, part, data);
      } else if kind == 3 && 0 <= k < |begun| && k != locked {
        OtherRecord(k, part, data);
      } else if 0 <= k < |begun| {
        OtherCommit(k);
      }
    }

    method OtherRecord(k: nat, part: int, data: Bytes)
      requires Valid() && k < |begun|
      modifies `known, `history, begun[k]
      ensures Valid() && Later(old(View()), View())
      ensures forall u :: 0 <= u < |old(known).begun| && u != k ==> known.begun[u] == old(known).begun[u]
    {
      var at: int := *;
      if at >= 0 {
        RecordPart(begun[k], part, data, at);
      }
    }

    method OtherCommit(k: nat)
      requires Valid() && k < |begun|
      modifies `service, `writes, `history
      ensures Valid() && Later(old(View()), View())
    {
      var ids, _ := begun[k].Gather();
      var _ := CommitBlocks(begun[k].name, ids, begun[k].log);
    }

    /** Other requests do anything while only upload `locked`, if any, is locked. */
    method Interfere(locked: int)
      requires Valid()
      modifies this, begun
      ensures Valid() && Later(old(View()), View()) && old(begun) <= begun
      ensures forall k :: |old(begun)| <= k < |begun| ==> fresh(begun[k])
      ensures 0 <= locked < |old(begun)| ==> known.begun[locked] == old(known).begun[locked]
    {
      var requests: int := *;
      while requests > 0
        invariant Valid() && Later(old(View()), View()) && old(begun) <= begun
        invariant forall k :: |old(begun)| <= k < |begun| ==> fresh(begun[k])
        invariant 0 <= locked < |old(begun)| ==> known.begun[locked] == old(known).begun[locked]
      {
        ghost var now := View();
        OtherRequest(locked);
        LaterTwice(old(View()), now, View());
        requests := requests - 1;
      }
    }

    // ---------- requests ----------

    /** From the staging on; `staging` and `between` are the states that the staging and the recording
        find. */
    method UploadTo(upload: StagedUpload, part: int, data: Bytes, stageFails: bool)
      returns (ok: bool, ghost staging: BlobState, ghost between: BlobState)
      requires Valid() && upload in begun
      modifies this, begun
      ensures Valid() && Later(old(View()), staging) && ok == !stageFails
      ensures !ok ==> View() == staging
      ensures ok ==> Uploaded(upload.number, part, data, staging, between)
    {
      Interfere(-1);
      staging, between := View(), View();
      if stageFails {
        return false, staging, between;
      }
      between := StageAndRecord(upload, part, data);
      ok := true;
    }

    method StageAndRecord(upload: StagedUpload, part: int, data: Bytes) returns (ghost between: BlobState)
      requires Valid() && upload in begun
      modifies this, begun
      ensures Valid() && upload.number < |old(known).begun|
      ensures Uploaded(upload.number, part, data, old(View()), between)
    {
      ghost var at := |EventsAt(history, upload.name)|;
      StageAt(upload.name, upload.number, part, data);
      between := RecordLater(upload, part, data, at);
    }

    /** After others may have acted, the block is recorded. */
    method RecordLater(upload: StagedUpload, part: int, data: Bytes, ghost at: nat) returns (ghost between: BlobState)
      requires Valid() && upload in begun
      modifies this, begun
      ensures Valid() && Later(old(View()), between) && upload.number < |between.uploads.begun|
      ensures View() == BlobState(
                          between.uploads.Append(upload.number, part, data), between.writes,
                          Happened(between.history, upload.name, Recorded(upload.number, at)))
    {
      Interfere(-1);
      between := View();
      RecordPart(upload, part, data, at);
    }

    /** A part was staged in the state `staging` and its block recorded in the state `between`. */
    ghost predicate Uploaded(u: nat, part: int, data: Bytes, staging: BlobState, between: BlobState)
      requires u < |staging.uploads.begun|
      reads this
    {
      var name := staging.uploads.begun[u].name;
      && Later(staging.(history := Happened(staging.history, name, Staged(u, part, data))), between)
      && View() == BlobState(
                     between.uploads.Append(u, part, data), between.writes,
                     Happened(between.history, name, Recorded(u, |EventsAt(staging.history, name)|)))
    }

    /** Others may act between the lookup, the staging of the block and its recording. */
    method UploadPart(name: ObjectName, id: string, part: int, size: int, body: Body, stageFails: bool)
      returns (r: Result<ETag>, ghost staging: BlobState, ghost between: BlobState)
      requires Valid()
      modifies this, begun
      ensures Valid() && old(known).Valid()
      ensures match Find(old(known), name, id)
              case Err(e) => r == Err(e) && View() == old(View())
              case Ok(u) =>
                match ReadPart(body, size)
                case Err(e) => r == Err(e) && View() == old(View())
                case Ok(data) =>
                  Later(old(View()), staging) &&
                  if stageFails then r == Err(StoreFailed) && View() == staging
                  else r == Ok(Plain(md5(data))) && Uploaded(u, part, data, staging, between)
    {
      staging, between := View(), View();
      var found := LookUp(name, id);
      if found.Err? {
        return Err(found.error), staging, between;
      }
      var read := ReadPart(body, size);
      if read.Err? {
        return Err(read.error), staging, between;
      }
      var ok;
      ok, staging, between := UploadTo(found.value, part, read.value, stageFails);
      r := if ok then Ok(Plain(md5(read.value))) else Err(StoreFailed);
    }

    /** What a completion of upload `u` comes to, that finds the state `gathered` when it locks the upload
        and gathers its blocks, `committing` when the service commits them and `forgetting` when it
        forgets the upload. */
    ghost predicate Completed(u: nat, commitFails: bool, r: Result<ETag>, gathered: BlobState, committing: BlobState,
                              forgetting: BlobState)
      requires u < |gathered.uploads.begun|
      reads this
    {
      var upload := gathered.uploads.begun[u];
      if upload.log == [] then r == Err(NoParts) && View() == gathered
      else
        var content := Assembled(EventsAt(committing.history, upload.name), upload.log);
        Later(gathered, committing) && committing.uploads.begun[u] == upload &&
        if commitFails || content.None? then r == Err(StoreFailed) && View() == committing
        else
          && r == Ok(CompositeTag(md5, upload.log))
          && Later(AfterCommit(committing, upload.name, upload.log, content.value), forgetting)
          && View() == forgetting.(uploads := forgetting.uploads.Remove(upload.id))
    }

    ghost function AfterCommit(s: BlobState, name: ObjectName, log: Log, content: Bytes): BlobState {
      BlobState(s.uploads, s.writes + [(name, content)], Happened(s.history, name, Committed(Table(log).Keys)))
    }

    /** After others may have acted, the upload is forgotten. */
    method ForgetLater(id: string) returns (ghost forgetting: BlobState)
      requires Valid()
      modifies this, begun
      ensures Valid() && Later(old(View()), forgetting)
      ensures View() == forgetting.(uploads := forgetting.uploads.Remove(id))
    {
      Interfere(-1);
      forgetting := View();
      Remove(id);
    }

    /** The service commits, and after others may have acted the upload is forgotten. */
    method CommitAndForget(upload: StagedUpload, ids: seq<Bytes>, ghost log: Log)
      returns (ok: bool, ghost forgetting: BlobState)
      requires Valid() && upload in begun && ids == BlockIds(Sorted(Table(log).Keys))
      modifies this, begun
      ensures Valid()
      ensures var content := Assembled(EventsAt(old(history), upload.name), log);
              && ok == content.Some?
              && (!ok ==> View() == old(View()))
              && (ok ==>
                    && Later(AfterCommit(old(View()), upload.name, log, content.value), forgetting)
                    && View() == forgetting.(uploads := forgetting.uploads.Remove(upload.id)))
    {
      forgetting := View();
      ok := CommitBlocks(upload.name, ids, log);
      if ok {
        forgetting := ForgetLater(upload.id);
      }
    }

    /** The block list and the entity tag of what an upload has recorded, if anything. */
    method Prepare(upload: StagedUpload) returns (some: bool, ids: seq<Bytes>, tag: ETag)
      requires upload.Valid() && upload.md5 == md5
      ensures some <==> upload.log != []
      ensures some ==> ids == BlockIds(Sorted(Table(upload.log).Keys)) && tag == CompositeTag(md5, upload.log)
    {
      TableKeys(md5, upload.log);
      NoPartsIffEmpty(upload.log);
      if |upload.blockIdByPart| == 0 {
        return false, [], Plain([]);
      }
      var digests;
      ids, digests := upload.Gather();
      return true, ids, Composite(md5(digests), |upload.partMD5ByPart|);
    }

    method CompleteUpload(upload: StagedUpload, commitFails: bool)
      returns (r: Result<ETag>, ghost gathered: BlobState, ghost committing: BlobState, ghost forgetting: BlobState)
      requires Valid() && upload in begun
      modifies this, begun
      ensures Valid() && Later(old(View()), gathered)
      ensures Completed(upload.number, commitFails, r, gathered, committing, forgetting)
    {
      Interfere(-1);
      gathered, committing, forgetting := View(), View(), View();
      ghost var log := upload.log;
      var some, ids, tag := Prepare(upload);
      if !some {
        return Err(NoParts), gathered, committing, forgetting;
      }
      Interfere(upload.number);
      committing := View();
      if commitFails {
        return Err(StoreFailed), gathered, committing, forgetting;
      }
      var ok;
      ok, forgetting := CommitAndForget(upload, ids, log);
      r := if ok then Ok(tag) else Err(StoreFailed);
    }

    /** Others may act between the lookup, the gathering of the blocks, their commit and the forgetting of
        the upload, but record nothing in it from gathering to commit.  `partETags`, the client's list of
        parts, plays no role. */
    method Complete(name: ObjectName, id: string, partETags: map<int, string>, commitFails: bool)
      returns (r: Result<ETag>, ghost gathered: BlobState, ghost committing: BlobState, ghost forgetting: BlobState)
      requires Valid()
      modifies this, begun
      ensures Valid() && old(known).Valid()
      ensures match Find(old(known), name, id)
              case Err(e) => r == Err(e) && View() == old(View())
              case Ok(u) => Later(old(View()), gathered) && Completed(u, commitFails, r, gathered, committing, forgetting)
    {
      gathered, committing, forgetting := View(), View(), View();
      var found := LookUp(name, id);
      if found.Err? {
        return Err(found.error), gathered, committing, forgetting;
      }
      r, gathered, committing, forgetting := CompleteUpload(found.value, commitFails);
    }

    method Abort(name: ObjectName, id: string) returns (r: Result<()>)
      requires Valid()
      modifies `uploads, `known
      ensures Valid() && old(known).Valid()
      ensures match Find(old(known), name, id)
              case Err(e) => r == Err(e) && known == old(known)
              case Ok(_) => r == Ok(()) && known == old(known).Remove(id)
    {
      var found := LookUp(name, id);
      if found.Err? {
        return Err(found.error);
      }
      Remove(id);
      return Ok(());
    }

    /** The parts in ascending order, each with its last data's digest; sizes are not tracked. */
    method ListParts(name: ObjectName, id: string) returns (r: Result<seq<PartInfo>>)
      requires Valid()
      ensures known.Valid()
      ensures match Find(known, name, id)
              case Err(e) => r == Err(e)
              case Ok(u) =>
                var log := known.begun[u].log;
                r == Ok(ListedParts(md5, log, Sorted(Table(log).Keys)))
    {
      var found := LookUp(name, id);
      if found.Err? {
        return Err(found.error);
      }
      var infos := found.value.Infos();
      return Ok(infos);
    }
  }
}
