/** The staging area of one blob. Blocks are named by part number alone, so all uploads to the
    same object share it, and an upload knows of a block only once it has recorded it; this module
    says exactly when committing gives an upload what it recorded. */
module BlockStaging {
  import opened Text
  import opened Multipart

  /** What happens at one object: upload `upload` stages a block; it records the block of event `at`;
      some upload commits the blocks of some parts. */
  datatype Event = Staged(upload: nat, part: int, data: Bytes)
                 | Recorded(upload: nat, at: nat)
                 | Committed(parts: set<int>)

  // ---------- block names ----------

  function Padded(digits: Bytes, width: nat): Bytes {
    if |digits| < width then ['0'] + Padded(digits, width - 1) else digits
  }

  /** `%010d`: the part number in at least ten characters. */
  function BlockId(part: int): Bytes {
    if part >= 0 then Padded(FormatUint(part, 10), 10)
    else ['-'] + Padded(FormatUint(-part, 10), 9)
  }

  ghost function ParseBlockId(id: string): int
    requires id != ""
  {
    if id[0] == '-' then -DigitsValue(id[1..], 10) else DigitsValue(id, 10)
  }

  lemma {:induction false} LeadingZero(s: string)
    ensures DigitsValue("0" + s, 10) == DigitsValue(s, 10)
  {
    var t := "0" + s;
    if s == "" {
      assert t[..0] == "";
      assert DigitsValue(t[..0], 10) == 0;
    } else {
      assert t[..|t| - 1] == "0" + s[..|s| - 1];
      LeadingZero(s[..|s| - 1]);
    }
  }

  lemma {:induction false} PaddedValue(digits: Bytes, width: nat)
    requires digits != "" && forall c :: c in digits ==> IsDigit(c, 10)
    ensures DigitsValue(Padded(digits, width), 10) == DigitsValue(digits, 10)
    ensures Padded(digits, width) != "" && IsDigit(Padded(digits, width)[0], 10)
  {
    if |digits| < width {
      PaddedValue(digits, width - 1);
      LeadingZero(Padded(digits, width - 1));
      assert "0" + Padded(digits, width - 1) == Padded(digits, width);
    }
  }

  /** A block id tells the part number. */
  lemma BlockIdValue(part: int)
    ensures BlockId(part) != "" && ParseBlockId(BlockId(part)) == part
  {
    if part >= 0 {
      FormatValue(part, 10);
      PaddedValue(FormatUint(part, 10), 10);
    } else {
      FormatValue(-part, 10);
      PaddedValue(FormatUint(-part, 10), 9);
      assert BlockId(part)[1..] == Padded(FormatUint(-part, 10), 9);
    }
  }

  /** Different parts have different blocks. */
  lemma BlockIdInjective(m: int, n: int)
    ensures BlockId(m) == BlockId(n) ==> m == n
  {
    BlockIdValue(m);
    BlockIdValue(n);
  }

  lemma {:induction false} DigitCount(n: nat, width: nat)
    requires n < Power10(width) && width > 0
    ensures |FormatUint(n, 10)| <= width
  {
    if n >= 10 {
      DigitCount(n / 10, width - 1);
    }
  }

  ghost function Power10(n: nat): nat {
    if n == 0 then 1 else 10 * Power10(n - 1)
  }

  /** Azure wants all block ids of a blob equally long: they are for part numbers below 10^10. */
  lemma BlockIdLength(part: int)
    requires 0 <= part < 10_000_000_000
    ensures |BlockId(part)| == 10
  {
    assert Power10(5) == 100_000;
    assert Power10(10) == 10_000_000_000;
    DigitCount(part, 10);
    PaddedLength(FormatUint(part, 10), 10);
  }

  lemma {:induction false} PaddedLength(digits: Bytes, width: nat)
    requires |digits| <= width
    ensures |Padded(digits, width)| == width
  {
    if |digits| < width {
      PaddedLength(digits, width - 1);
    }
  }

  // ---------- what the staging area holds ----------

  function SharedStep(staged: map<int, Bytes>, e: Event): map<int, Bytes> {
    match e
    case Staged(_, part, data) => staged[part := data]
    case Recorded(_, _) => staged
    case Committed(parts) => map part | part in staged && part in parts :: staged[part]
  }

  /** The data that a block list finds under each part number: the latest staged, or else committed,
      block.  A commit keeps the blocks that it lists and drops all others; writing the object
      directly drops them all, as a commit of no parts does. */
  function Shared(events: seq<Event>): map<int, Bytes> {
    if events == [] then map[]
    else SharedStep(Shared(events[..|events| - 1]), events[|events| - 1])
  }

  lemma SharedAppend(events: seq<Event>, e: Event)
    ensures Shared(events + [e]) == SharedStep(Shared(events), e)
  {
    assert (events + [e])[..|events|] == events;
  }

  /** The last event recorded a block of this upload. */
  predicate Records(events: seq<Event>, upload: nat) {
    events != [] &&
    var e := events[|events| - 1];
    e.Recorded? && e.upload == upload && e.at < |events| - 1 && events[e.at].Staged?
  }

  /** The block that the last event recorded. */
  function Block(events: seq<Event>): (e: Event)
    requires exists u :: Records(events, u)
    ensures e.Staged?
  {
    events[events[|events| - 1].at]
  }

  /** What an upload has recorded, in the order of recording. */
  function RecordedLog(events: seq<Event>, upload: nat): Log {
    if events == [] then []
    else
      var before := RecordedLog(events[..|events| - 1], upload);
      if Records(events, upload) then before + [(Block(events).part, Block(events).data)] else before
  }

  /** The content that committing the blocks of `log`'s parts gives, if all are there. */
  ghost function Assembled(events: seq<Event>, log: Log): Option<Bytes> {
    if Table(log).Keys <= Shared(events).Keys
    then Some(Join(Sorted(Table(log).Keys), Shared(events)))
    else None
  }

  // ---------- when completing is safe ----------

  /** The event that staged the block now found under a part number. */
  function LastStaged(events: seq<Event>, part: int): Option<nat> {
    if events == [] then None
    else
      var before := LastStaged(events[..|events| - 1], part);
      match events[|events| - 1]
      case Staged(_, p, _) => if p == part then Some(|events| - 1) else before
      case Recorded(_, _) => before
      case Committed(parts) => if part in parts then before else None
  }

  /** The event that staged the block which an upload last recorded for a part. */
  function LastRecorded(events: seq<Event>, upload: nat, part: int): Option<nat> {
    if events == [] then None
    else if Records(events, upload) && Block(events).part == part then Some(events[|events| - 1].at)
    else LastRecorded(events[..|events| - 1], upload, part)
  }

  /** Under each part that the upload has recorded, the block found is the one it last recorded:
      no upload has staged that part since, this one included, and no commit has dropped it. */
  ghost predicate Undisturbed(events: seq<Event>, upload: nat) {
    forall part :: part in Table(RecordedLog(events, upload)) ==>
      LastStaged(events, part) == LastRecorded(events, upload, part)
  }

  ghost predicate IsBlock(events: seq<Event>, k: nat, part: int, data: Bytes) {
    k < |events| && events[k].Staged? && events[k].part == part && events[k].data == data
  }

  lemma {:induction false} SharedIsStaged(events: seq<Event>, part: int)
    ensures part in Shared(events) <==> LastStaged(events, part).Some?
    ensures part in Shared(events) ==> IsBlock(events, LastStaged(events, part).value, part, Shared(events)[part])
  {
    if events != [] {
      SharedIsStaged(events[..|events| - 1], part);
    }
  }

  lemma {:induction false} TableIsRecorded(events: seq<Event>, upload: nat, part: int)
    ensures var table := Table(RecordedLog(events, upload));
            && (part in table <==> LastRecorded(events, upload, part).Some?)
            && (part in table ==> IsBlock(events, LastRecorded(events, upload, part).value, part, table[part]))
  {
    if events != [] {
      var init := events[..|events| - 1];
      TableIsRecorded(init, upload, part);
      if Records(events, upload) {
        TableAppend(RecordedLog(init, upload), Block(events).part, Block(events).data);
      }
    }
  }

  lemma {:induction false} JoinDependsOnParts(ks: seq<int>, a: map<int, Bytes>, b: map<int, Bytes>)
    requires forall k :: k in ks ==> k in a && k in b && a[k] == b[k]
    ensures Join(ks, a) == Join(ks, b)
  {
    if ks != [] {
      var init, last := ks[..|ks| - 1], ks[|ks| - 1];
      assert last in ks;
      assert forall k :: k in init ==> k in ks;
      JoinDependsOnParts(init, a, b);
    }
  }

  /** Committing an undisturbed upload gives the object of what it recorded. */
  lemma CompleteIsSafe(events: seq<Event>, upload: nat)
    requires Undisturbed(events, upload)
    ensures Assembled(events, RecordedLog(events, upload)) == Some(ObjectOf(RecordedLog(events, upload)))
  {
    var own := Table(RecordedLog(events, upload));
    forall part | part in own
      ensures part in Shared(events) && Shared(events)[part] == own[part]
    {
      TableIsRecorded(events, upload, part);
      SharedIsStaged(events, part);
    }
    SortedIsAscending(own.Keys);
    JoinDependsOnParts(Sorted(own.Keys), Shared(events), own);
  }

  /** An event without its contents. */
  function Shape(e: Event): Event {
    if e.Staged? then Staged(e.upload, e.part, []) else e
  }

  ghost predicate SameShape(a: seq<Event>, b: seq<Event>) {
    |a| == |b| && forall i :: 0 <= i < |a| ==> Shape(a[i]) == Shape(b[i])
  }

  lemma {:induction false} ShapeDetermines(a: seq<Event>, b: seq<Event>, upload: nat, part: int)
    requires SameShape(a, b)
    ensures LastStaged(a, part) == LastStaged(b, part)
    ensures LastRecorded(a, upload, part) == LastRecorded(b, upload, part)
  {
    if a != [] {
      var n := |a| - 1;
      assert Shape(a[n]) == Shape(b[n]);
      if a[n].Recorded? && a[n].at < n {
        assert Shape(a[a[n].at]) == Shape(b[a[n].at]);
      }
      ShapeDetermines(a[..n], b[..n], upload, part);
    }
  }

  /** The same events with the content "b" in event `k` and "a" in all others. */
  function Mark(events: seq<Event>, k: nat): seq<Event> {
    seq(|events|, i requires 0 <= i < |events| =>
      var e := events[i]; if e.Staged? then Staged(e.upload, e.part, if i == k then "b" else "a") else e)
  }

  lemma {:induction false} JoinUniform(ks: seq<int>, parts: map<int, Bytes>)
    requires forall k :: k in ks ==> k in parts && parts[k] == "a"
    ensures 'b' !in Join(ks, parts)
  {
    if ks != [] {
      var init, last := ks[..|ks| - 1], ks[|ks| - 1];
      assert last in ks;
      assert forall k :: k in init ==> k in ks;
      JoinUniform(init, parts);
    }
  }

  lemma {:induction false} JoinContains(ks: seq<int>, k: int, parts: map<int, Bytes>)
    requires k in ks && k in parts && parts[k] == "b"
    ensures 'b' in Join(ks, parts)
  {
    if ks[|ks| - 1] == k {
      assert "b"[0] == 'b';
    } else {
      JoinContains(ks[..|ks| - 1], k, parts);
    }
  }

  /** If another block than the recorded one is found under some part, some contents go wrong. */
  lemma MarkedGoesWrong(events: seq<Event>, upload: nat, part: int)
    requires part in Table(RecordedLog(events, upload))
    requires LastStaged(events, part) != LastRecorded(events, upload, part)
    ensures exists other :: SameShape(events, other) &&
              Assembled(other, RecordedLog(other, upload)) != Some(ObjectOf(RecordedLog(other, upload)))
  {
    var staged := LastStaged(events, part);
    var k := if staged.Some? then staged.value else 0;
    var marked := Mark(events, k);
    assert SameShape(events, marked);
    TableIsRecorded(events, upload, part);
    TableIsRecorded(marked, upload, part);
    ShapeDetermines(events, marked, upload, part);
    SharedIsStaged(marked, part);
    if staged.Some? && Table(RecordedLog(marked, upload)).Keys <= Shared(marked).Keys {
      MarkedDiffers(events, upload, part, k);
    }
  }

  lemma MarkedDiffers(events: seq<Event>, upload: nat, part: int, k: nat)
    requires part in Table(RecordedLog(Mark(events, k), upload))
    requires Table(RecordedLog(Mark(events, k), upload)).Keys <= Shared(Mark(events, k)).Keys
    requires LastStaged(events, part) == Some(k) != LastRecorded(events, upload, part)
    ensures var marked := Mark(events, k);
            Assembled(marked, RecordedLog(marked, upload)) != Some(ObjectOf(RecordedLog(marked, upload)))
  {
    var marked := Mark(events, k);
    var own := Table(RecordedLog(marked, upload));
    SharedIsStaged(events, part);
    SharedIsStaged(marked, part);
    ShapeDetermines(events, marked, upload, part);
    forall p | p in own ensures own[p] == "a" {
      TableIsRecorded(marked, upload, p);
      ShapeDetermines(events, marked, upload, p);
    }
    SortedIsAscending(own.Keys);
    JoinUniform(Sorted(own.Keys), own);
    JoinContains(Sorted(own.Keys), part, Shared(marked));
  }

  /** Committing gives the object of what the upload recorded, whatever the contents of all blocks,
      if and only if the upload is undisturbed. */
  lemma CompleteIsSafeIff(events: seq<Event>, upload: nat)
    ensures (forall other :: SameShape(events, other) ==>
               Assembled(other, RecordedLog(other, upload)) == Some(ObjectOf(RecordedLog(other, upload))))
            <==> Undisturbed(events, upload)
  {
    if Undisturbed(events, upload) {
      forall other | SameShape(events, other)
        ensures Assembled(other, RecordedLog(other, upload)) == Some(ObjectOf(RecordedLog(other, upload)))
      {
        ShapeUndisturbed(events, other, upload);
        CompleteIsSafe(other, upload);
      }
    } else {
      var part :| part in Table(RecordedLog(events, upload)) &&
                  LastStaged(events, part) != LastRecorded(events, upload, part);
      MarkedGoesWrong(events, upload, part);
    }
  }

  lemma ShapeUndisturbed(events: seq<Event>, other: seq<Event>, upload: nat)
    requires SameShape(events, other) && Undisturbed(events, upload)
    ensures Undisturbed(other, upload)
  {
    forall part | part in Table(RecordedLog(other, upload))
      ensures LastStaged(other, part) == LastRecorded(other, upload, part)
    {
      TableIsRecorded(other, upload, part);
      TableIsRecorded(events, upload, part);
      ShapeDetermines(events, other, upload, part);
    }
  }

  // ---------- a simple way to be safe ----------

  /** Parts staged and not yet recorded, with the event that staged them. */
  function Open(events: seq<Event>): map<int, nat> {
    if events == [] then map[]
    else
      var before := Open(events[..|events| - 1]);
      match events[|events| - 1]
      case Staged(_, part, _) => before[part := |events| - 1]
      case Recorded(_, at) =>
        if at < |events| && events[at].Staged? then before - {events[at].part} else before
      case Committed(_) => before
  }

  /** Only this upload is at work here, nothing has been committed, and a part is not staged again
      before its last staging has been recorded. */
  predicate Orderly(events: seq<Event>, upload: nat) {
    if events == [] then true
    else
      var before := events[..|events| - 1];
      Orderly(before, upload) &&
      match events[|events| - 1]
      case Staged(u, part, _) => u == upload && part !in Open(before)
      case Recorded(u, at) =>
        Records(events, upload) && events[at].part in Open(before) && Open(before)[events[at].part] == at
      case Committed(_) => false
  }

  lemma {:induction false} OrderlyParts(events: seq<Event>, upload: nat, part: int)
    requires Orderly(events, upload)
    ensures if part in Open(events) then LastStaged(events, part) == Some(Open(events)[part])
            else LastStaged(events, part) == LastRecorded(events, upload, part)
  {
    if events != [] {
      OrderlyParts(events[..|events| - 1], upload, part);
    }
  }

  /** One upload at a time per object is safe, if uploads of the same part do not overlap and none is
      under way. */
  lemma AloneIsUndisturbed(events: seq<Event>, upload: nat)
    requires Orderly(events, upload) && Open(events) == map[]
    ensures Undisturbed(events, upload)
  {
    forall part | part in Table(RecordedLog(events, upload))
      ensures LastStaged(events, part) == LastRecorded(events, upload, part)
    {
      OrderlyParts(events, upload, part);
    }
  }

  // ---------- what goes wrong ----------

  /** An upload whose only part is staged again, by whatever upload, before it is completed. */
  lemma StagedAgain(first: nat, second: nat, mine: Bytes, other: Bytes)
    ensures var events := [Staged(first, 1, mine), Recorded(first, 0), Staged(second, 1, other)];
            && RecordedLog(events, first) == [(1, mine)]
            && ObjectOf(RecordedLog(events, first)) == mine
            && Assembled(events, RecordedLog(events, first)) == Some(other)
  {
    var one := [Staged(first, 1, mine)];
    var two := one + [Recorded(first, 0)];
    var events := two + [Staged(second, 1, other)];
    assert events == [Staged(first, 1, mine), Recorded(first, 0), Staged(second, 1, other)];
    assert events[..2] == two && two[..1] == one && one[..0] == [];
    var log: Log := [(1, mine)];
    assert RecordedLog(one, first) == [];
    assert RecordedLog(two, first) == [] + log == log;
    assert RecordedLog(events, first) == log;
    assert log == [] + [(1, mine)];
    TableAppend([], 1, mine);
    assert Table(log) == map[1 := mine];
    SortedIsUnique([1], {1});
    assert Table(log).Keys == {1};
    JoinOfOne(1, Table(log));
    JoinOfOne(1, Shared(events));
  }

  /** Two uploads to one object: the first gets the second's data, although the second is never
      completed. */
  lemma SecondUploadOverwrites()
    ensures var events := [Staged(0, 1, "mine"), Recorded(0, 0), Staged(1, 1, "theirs")];
            Assembled(events, RecordedLog(events, 0)) == Some("theirs") && ObjectOf(RecordedLog(events, 0)) == "mine"
  {
    StagedAgain(0, 1, "mine", "theirs");
  }

  /** One upload: its part is being uploaded again when it is completed, and the new data is committed
      under the digest of the old. */
  lemma ReuploadInProgress()
    ensures var events := [Staged(0, 1, "old"), Recorded(0, 0), Staged(0, 1, "new")];
            Assembled(events, RecordedLog(events, 0)) == Some("new") && ObjectOf(RecordedLog(events, 0)) == "old"
  {
    StagedAgain(0, 0, "old", "new");
  }

  lemma JoinOfOne(k: int, parts: map<int, Bytes>)
    requires k in parts
    ensures Join([k], parts) == parts[k]
  {
    assert [k][..0] == [];
  }
}
