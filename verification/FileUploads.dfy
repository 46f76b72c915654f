/** Multipart uploads of the Azure Files backend: parts are buffered in memory and written as
    one file on completion. */
module FileUploads {
  import opened Text
  import opened Multipart
  import opened PartOrder
  import opened UploadProtocol

  const MAX_PART: nat := 268_435_456
  const MAX_TOTAL: nat := 5_368_709_120

  // ---------- part listing order ----------

  /** Part numbers in the order in which they were first uploaded. */
  function FirstUploads(log: Log): seq<int> {
    if log == [] then []
    else
      var before := FirstUploads(log[..|log| - 1]);
      var part := log[|log| - 1].0;
      if part in before then before else before + [part]
  }

  /** Every part of the table appears once. */
  lemma {:induction false} FirstUploadsCoverTable(log: Log, part: int)
    ensures part in FirstUploads(log) <==> part in Table(log)
    ensures forall i, j :: 0 <= i < j < |FirstUploads(log)| ==> FirstUploads(log)[i] != FirstUploads(log)[j]
  {
    if log != [] {
      FirstUploadsCoverTable(log[..|log| - 1], part);
    }
  }

  lemma FirstUploadsAppend(log: Log, part: int, data: Bytes)
    ensures FirstUploads(log + [(part, data)]) ==
            if part in FirstUploads(log) then FirstUploads(log) else FirstUploads(log) + [part]
  {
    assert (log + [(part, data)])[..|log|] == log;
  }

  // ---------- one upload ----------

  class BufferedUpload {
    const id: string
    const name: ObjectName
    const number: nat                 // position among all uploads
    var parts: map<int, Bytes>
    var partOrder: seq<int>
    ghost var log: Log

    ghost predicate Valid() reads this {
      parts == Table(log) && partOrder == FirstUploads(log)
    }

    constructor (id: string, name: ObjectName, number: nat)
      ensures Valid() && this.id == id && this.name == name && this.number == number && log == []
    {
      this.id, this.name, this.number := id, name, number;
      parts, partOrder, log := map[], [], [];
    }

    method Store(part: int, data: Bytes)
      requires Valid()
      modifies this
      ensures Valid() && log == old(log) + [(part, data)]
    {
      TableAppend(log, part, data);
      FirstUploadsAppend(log, part, data);
      FirstUploadsCoverTable(log, part);
      var alreadyExists := part in parts;
      parts := parts[part := data];
      if !alreadyExists {
        partOrder := partOrder + [part];
      }
      log := log + [(part, data)];
    }

    method Assemble() returns (content: Bytes, size: nat)
      requires Valid()
      ensures content == ObjectOf(log) && size == |content|
    {
      var numbers := PartNumbers(parts.Keys);
      SortedIsAscending(parts.Keys);
      content, size := [], 0;
      for i := 0 to |numbers|
        invariant content == Join(numbers[..i], parts) && size == |content|
      {
        assert numbers[i] in numbers;
        JoinNext(numbers, i, parts);
        var data := parts[numbers[i]];
        size := size + |data|;
        content := content + data;
      }
      assert numbers[..|numbers|] == numbers;
    }
  }

  // ---------- the backend ----------

  /** What is read of a part's body: exactly the declared size when one is declared, otherwise
      everything up to the part limit. */
  function ReadPart(body: Body, size: int): Result<Bytes> {
    if size > 0 then
      if |body.data| >= size then Ok(body.data[..size]) else Err(ReadFailed)
    else if |body.data| > MAX_PART then Err(PartTooLarge)
    else if body.broken then Err(ReadFailed)
    else Ok(body.data)
  }

  /** What is done with a part of an upload that holds `log`: the data to store, or an error. */
  ghost function Admit(log: Log, size: int, body: Body): Result<Bytes> {
    if size > MAX_PART then Err(PartTooLarge)
    else if SizeOf(Table(log).Keys, Table(log)) + size > MAX_TOTAL then Err(TotalTooLarge)
    else ReadPart(body, size)
  }

  /** What the backend holds: its uploads, and all objects it has written. */
  datatype FileState = FileState(uploads: Uploads, writes: Writes)

  /** The second state may come of the first by what requests do. */
  ghost predicate Later(a: FileState, b: FileState) {
    Grown(a.uploads, b.uploads) && a.writes <= b.writes
  }

  class FileBackend {
    const md5: Bytes -> Bytes
    var uploads: map<string, BufferedUpload>
    var objects: map<ObjectName, Bytes>
    var begun: seq<BufferedUpload>    // all uploads: requests in flight may point to any of them
    ghost var known: Uploads
    ghost var writes: Writes

    /** The uploads and the table are what `known` says, and the objects what has been written. */
    ghost predicate Valid() reads this, begun {
      && objects == ObjectsAfter(writes)
      && |begun| == |known.begun|
      && (forall k :: 0 <= k < |begun| ==>
            var u := begun[k];
            u.number == k && known.begun[k] == Upload(u.id, u.name, u.log) && u.Valid())
      && uploads.Keys == known.table.Keys
      && (forall id :: id in uploads ==>
            var u := uploads[id];
            u.number == known.table[id] < |begun| && begun[u.number] == u && u.id == id)
    }

    ghost function View(): FileState reads this {
      FileState(known, writes)
    }

    constructor (md5: Bytes -> Bytes)
      ensures Valid() && View() == FileState(Uploads([], map[]), []) && this.md5 == md5
    {
      this.md5 := md5;
      uploads, objects, begun, known, writes := map[], map[], [], Uploads([], map[]), [];
    }

    /** A new upload takes its id, even from an upload that already has it. */
    method Initiate(name: ObjectName, nanos: nat) returns (id: string)
      requires Valid()
      modifies this
      ensures Valid() && id == UploadId(name, nanos)
      ensures View() == FileState(old(known).Begin(id, name), old(writes))
      ensures |begun| == |old(begun)| + 1 && old(begun) <= begun && fresh(begun[|old(begun)|])
    {
      id := UploadId(name, nanos);
      var upload := new BufferedUpload(id, name, |begun|);
      begun := begun + [upload];
      uploads := uploads[id := upload];
      known := known.Begin(id, name);
    }

    /** The checks that every request makes first. */
    method LookUp(name: ObjectName, id: string) returns (r: Result<BufferedUpload>)
      requires Valid()
      ensures known.Valid()
      ensures match Find(known, name, id)
              case Err(e) => r == Err(e)
              case Ok(u) => u < |begun| && r == Ok(begun[u])
    {
      if id !in uploads {
        return Err(NoSuchUpload);
      }
      if uploads[id].name != name {
        return Err(WrongObject);
      }
      return Ok(uploads[id]);
    }

    /** Stores a part in an upload that was looked up earlier, which may have left the table since. */
    method StorePart(upload: BufferedUpload, part: int, data: Bytes)
      requires Valid() && upload in begun
      modifies `known, upload
      ensures Valid()
      ensures upload.number < |old(known).begun| && known == old(known).Append(upload.number, part, data)
    {
      upload.Store(part, data);
      known := known.Append(upload.number, part, data);
    }

    method Remove(id: string)
      requires Valid()
      modifies `uploads, `known
      ensures Valid() && known == old(known).Remove(id)
    {
      uploads, known := uploads - {id}, known.Remove(id);
    }

    method WriteObject(name: ObjectName, content: Bytes)
      requires Valid()
      modifies `objects, `writes
      ensures Valid() && writes == old(writes) + [(name, content)]
    {
      ObjectsAppend(writes, name, content);
      objects := objects[name := content];
      writes := writes + [(name, content)];
    }

    // ---------- everybody else ----------

    /** One step of another request: an upload begins or leaves the table, a part is stored in any
        upload, or an object is written. */
    method OtherRequest()
      requires Valid()
      modifies this, begun
      ensures Valid() && Later(old(View()), View()) && old(begun) <= begun
      ensures forall k :: |old(begun)| <= k < |begun| ==> fresh(begun[k])
    {
      var kind: int, id: string, name: ObjectName, k: int, part: int, data: Bytes := *, *, *, *, *, *;
      if kind == 0 && k >= 0 {
        var _ := Initiate(name, k);
      } else if kind == 1 {
        Remove(id);
      } else if kind == 2 && 0 <= k < |begun| {
        StorePart(begun[k], part, data);
      } else {
        WriteObject(name, data);
      }
    }

    /** Other requests do anything while nothing is locked. */
    method Interfere()
      requires Valid()
      modifies this, begun
      ensures Valid() && Later(old(View()), View()) && old(begun) <= begun
      ensures forall k :: |old(begun)| <= k < |begun| ==> fresh(begun[k])
    {
      var requests: int := *;
      while requests > 0
        invariant Valid() && Later(old(View()), View()) && old(begun) <= begun
        invariant forall k :: |old(begun)| <= k < |begun| ==> fresh(begun[k])
      {
        OtherRequest();
        requests := requests - 1;
      }
    }

    // ---------- requests ----------

    /** The size check and the reading of the body. */
    method Receive(upload: BufferedUpload, size: int, body: Body) returns (r: Result<Bytes>)
      requires upload.Valid() && size <= MAX_PART
      ensures r == Admit(upload.log, size, body)
    {
      var current := TotalSize(upload.parts);
      if current + size > MAX_TOTAL {
        return Err(TotalTooLarge);
      }
      return ReadPart(body, size);
    }

    /** From the check on; `checked` and `between` are the states that the check and the store find. */
    method UploadTo(upload: BufferedUpload, part: int, size: int, body: Body)
      returns (r: Result<ETag>, ghost checked: FileState, ghost between: FileState)
      requires Valid() && upload in begun && size <= MAX_PART
      modifies this, begun
      ensures Valid() && Later(old(View()), checked)
      ensures match Admit(checked.uploads.begun[upload.number].log, size, body)
              case Err(e) => r == Err(e) && View() == checked
              case Ok(data) =>
                && r == Ok(Plain(md5(data))) && Later(checked, between)
                && View() == between.(uploads := between.uploads.Append(upload.number, part, data))
    {
      Interfere();
      checked, between := View(), View();
      var received := Receive(upload, size, body);
      if received.Err? {
        return Err(received.error), checked, between;
      }
      Interfere();
      between := View();
      StorePart(upload, part, received.value);
      r := Ok(Plain(md5(received.value)));
    }

    /** Others may act between the lookup, the check and the store. */
    method UploadPart(name: ObjectName, id: string, part: int, size: int, body: Body)
      returns (r: Result<ETag>, ghost checked: FileState, ghost between: FileState)
      requires Valid()
      modifies this, begun
      ensures Valid() && old(known).Valid()
      ensures size > MAX_PART ==> r == Err(PartTooLarge) && View() == old(View())
      ensures size <= MAX_PART ==>
        match Find(old(known), name, id)
        case Err(e) => r == Err(e) && View() == old(View())
        case Ok(u) =>
          Later(old(View()), checked) &&
          match Admit(checked.uploads.begun[u].log, size, body)
          case Err(e) => r == Err(e) && View() == checked
          case Ok(data) =>
            && r == Ok(Plain(md5(data))) && Later(checked, between)
            && View() == between.(uploads := between.uploads.Append(u, part, data))
    {
      checked, between := View(), View();
      if size > MAX_PART {
        return Err(PartTooLarge), checked, between;
      }
      var found := LookUp(name, id);
      if found.Err? {
        return Err(found.error), checked, between;
      }
      r, checked, between := UploadTo(found.value, part, size, body);
    }

    /** The writing of the file and the forgetting of the upload; `writing` and `forgetting` are the
        states that these find. */
    method Finish(name: ObjectName, id: string, content: Bytes, storeFails: bool)
      returns (ok: bool, ghost writing: FileState, ghost forgetting: FileState)
      requires Valid()
      modifies this, begun
      ensures Valid() && Later(old(View()), writing) && ok == !storeFails
      ensures !ok ==> View() == writing
      ensures ok ==>
                && Later(writing.(writes := writing.writes + [(name, content)]), forgetting)
                && View() == forgetting.(uploads := forgetting.uploads.Remove(id))
    {
      Interfere();
      writing, forgetting := View(), View();
      if storeFails {
        return false, writing, forgetting;
      }
      WriteObject(name, content);
      Interfere();
      forgetting := View();
      Remove(id);
      ok := true;
    }

    /** The gathering of the parts. */
    method Gather(upload: BufferedUpload) returns (r: Result<Bytes>)
      requires upload.Valid()
      ensures r == if upload.log == [] then Err(NoParts) else Ok(ObjectOf(upload.log))
    {
      NoPartsIffEmpty(upload.log);
      if |upload.parts| == 0 {
        return Err(NoParts);
      }
      var content, size := upload.Assemble();
      return Ok(content);
    }

    method CompleteUpload(upload: BufferedUpload, storeFails: bool)
      returns (r: Result<ETag>, ghost gathered: FileState, ghost writing: FileState, ghost forgetting: FileState)
      requires Valid() && upload in begun
      modifies this, begun
      ensures Valid() && Later(old(View()), gathered)
      ensures Completed(upload.number, storeFails, r, gathered, writing, forgetting)
    {
      Interfere();
      gathered, writing, forgetting := View(), View(), View();
      var content := Gather(upload);
      if content.Err? {
        return Err(content.error), gathered, writing, forgetting;
      }
      var ok;
      ok, writing, forgetting := Finish(upload.name, upload.id, content.value, storeFails);
      r := if ok then Ok(Plain(md5(content.value))) else Err(StoreFailed);
    }

    /** What a completion of upload `u` comes to, that finds the state `gathered` when it gathers the
        parts, `writing` when it writes the object and `forgetting` when it forgets the upload. */
    ghost predicate Completed(u: nat, storeFails: bool, r: Result<ETag>, gathered: FileState, writing: FileState,
                              forgetting: FileState)
      requires u < |gathered.uploads.begun|
      reads this
    {
      var upload := gathered.uploads.begun[u];
      var content := ObjectOf(upload.log);
      if upload.log == [] then r == Err(NoParts) && View() == gathered
      else
        Later(gathered, writing) &&
        if storeFails then r == Err(StoreFailed) && View() == writing
        else
          && r == Ok(Plain(md5(content)))
          && Later(writing.(writes := writing.writes + [(upload.name, content)]), forgetting)
          && View() == forgetting.(uploads := forgetting.uploads.Remove(upload.id))
    }

    /** Others may act between the lookup, the gathering of the parts, the writing of the file and the
        forgetting of the upload.  `partETags`, the client's list of parts, plays no role.  `storeFails`
        stands for a failure to create the directories or to write the file. */
    method Complete(name: ObjectName, id: string, partETags: map<int, string>, storeFails: bool)
      returns (r: Result<ETag>, ghost gathered: FileState, ghost writing: FileState, ghost forgetting: FileState)
      requires Valid()
      modifies this, begun
      ensures Valid() && old(known).Valid()
      ensures match Find(old(known), name, id)
              case Err(e) => r == Err(e) && View() == old(View())
              case Ok(u) => Later(old(View()), gathered) && Completed(u, storeFails, r, gathered, writing, forgetting)
    {
      gathered, writing, forgetting := View(), View(), View();
      var found := LookUp(name, id);
      if found.Err? {
        return Err(found.error), gathered, writing, forgetting;
      }
      r, gathered, writing, forgetting := CompleteUpload(found.value, storeFails);
    }

    method Abort(name: ObjectName, id: string) returns (r: Result<()>)
      requires Valid()
      modifies this
      ensures Valid() && old(known).Valid()
      ensures match Find(old(known), name, id)
              case Err(e) => r == Err(e) && View() == old(View())
              case Ok(_) => r == Ok(()) && View() == FileState(old(known).Remove(id), old(writes))
    {
      var found := LookUp(name, id);
      if found.Err? {
        return Err(found.error);
      }
      Remove(id);
      return Ok(());
    }

    /** The parts in the order of their first upload, each with its last data's digest and size. */
    method ListParts(name: ObjectName, id: string) returns (r: Result<seq<PartInfo>>)
      requires Valid()
      ensures known.Valid()
      ensures match Find(known, name, id)
              case Err(e) => r == Err(e)
              case Ok(u) =>
                var log := known.begun[u].log;
                var order, parts := FirstUploads(log), Table(log);
                r.Ok? && |r.value| == |order| &&
                forall i :: 0 <= i < |order| ==>
                  order[i] in parts &&
                  r.value[i] == PartInfo(order[i], Plain(md5(parts[order[i]])), |parts[order[i]]|)
    {
      var found := LookUp(name, id);
      if found.Err? {
        return Err(found.error);
      }
      var upload := found.value;
      var infos := [];
      for i := 0 to |upload.partOrder|
        invariant |infos| == i
        invariant forall k :: 0 <= k < i ==>
          upload.partOrder[k] in upload.parts &&
          infos[k] == PartInfo(upload.partOrder[k], Plain(md5(upload.parts[upload.partOrder[k]])),
                               |upload.parts[upload.partOrder[k]]|)
      {
        var part := upload.partOrder[i];
        FirstUploadsCoverTable(upload.log, part);
        var data := upload.parts[part];
        infos := infos + [PartInfo(part, Plain(md5(data)), |data|)];
      }
      return Ok(infos);
    }
  }
}
