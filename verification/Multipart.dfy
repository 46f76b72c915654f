/** What a multipart upload means, whichever backend stores it: the last data of every part,
    joined in ascending part number. */
module Multipart {
  import opened Text

  datatype Error = PartTooLarge | NoSuchUpload | WrongObject | TotalTooLarge | ReadFailed | NoParts | StoreFailed

  datatype Result<+T> = Ok(value: T) | Err(error: Error)

  /** Bucket and key. */
  type ObjectName = (string, string)

  /** A request body: what it delivers before it ends, and whether it ends in a read error. */
  datatype Body = Body(data: Bytes, broken: bool)

  /** Entity tags: the digest of one body, or the digest of part digests with their count. */
  datatype ETag = Plain(digest: Bytes) | Composite(digest: Bytes, count: nat)

  /** One line of a part listing. */
  datatype PartInfo = PartInfo(part: int, etag: ETag, size: nat)

  /** Parts as they were stored, oldest first. */
  type Log = seq<(int, Bytes)>

  /** The part table that a log leaves behind. */
  function Table(log: Log): map<int, Bytes> {
    if log == [] then map[]
    else
      var last := log[|log| - 1];
      Table(log[..|log| - 1])[last.0 := last.1]
  }

  /** All uploads of one part number, in order. */
  function UploadsOf(log: Log, part: int): seq<Bytes> {
    if log == [] then []
    else
      var before := UploadsOf(log[..|log| - 1], part);
      var last := log[|log| - 1];
      if last.0 == part then before + [last.1] else before
  }

  lemma TableAppend(log: Log, part: int, data: Bytes)
    ensures Table(log + [(part, data)]) == Table(log)[part := data]
  {
    assert (log + [(part, data)])[..|log|] == log;
  }

  /** The table holds exactly the last upload of every part that was uploaded. */
  lemma {:induction false} TableIsLast(log: Log, part: int)
    ensures part in Table(log) <==> UploadsOf(log, part) != []
    ensures part in Table(log) ==> Table(log)[part] == UploadsOf(log, part)[|UploadsOf(log, part)| - 1]
  {
    if log != [] {
      TableIsLast(log[..|log| - 1], part);
    }
  }

  lemma NoPartsIffEmpty(log: Log)
    ensures |Table(log)| == 0 <==> log == []
  {
    if log != [] {
      var last := log[|log| - 1];
      assert last.0 in Table(log);
    }
  }

  predicate HasPart(log: Log, part: int) {
    exists i :: 0 <= i < |log| && log[i].0 == part
  }

  /** A part may be recorded late: it makes no difference after uploads of other parts. */
  lemma {:induction false} LateRecord(log: Log, more: Log, part: int, data: Bytes)
    requires !HasPart(more, part)
    ensures Table(log + [(part, data)] + more) == Table(log + more + [(part, data)])
    decreases |more|
  {
    TableAppend(log + more, part, data);
    if more == [] {
      assert log + [(part, data)] + more == log + more + [(part, data)];
    } else {
      var init, last := more[..|more| - 1], more[|more| - 1];
      assert forall i :: 0 <= i < |init| ==> init[i] == more[i];
      assert last.0 != part;
      LateRecord(log, init, part, data);
      assert log + [(part, data)] + more == log + [(part, data)] + init + [last];
      assert log + more == log + init + [last];
      TableAppend(log + [(part, data)] + init, last.0, last.1);
      TableAppend(log + init, last.0, last.1);
      TableAppend(log + init, part, data);
    }
  }

  // ---------- ascending part numbers ----------

  /** Some member of a set, as when a loop ranges over a Go map. */
  method Pick<T>(s: set<T>) returns (x: T)
    requires |s| > 0
    ensures x in s
  {
    x :| x in s;
  }

  ghost function Any<T>(s: set<T>): (x: T)
    requires |s| > 0
    ensures x in s
  {
    var x :| x in s;
    x
  }

  ghost predicate IsLeast(m: int, s: set<int>) {
    m in s && forall x :: x in s ==> m <= x
  }

  lemma LeastOfMore(y: int, m: int, rest: set<int>)
    requires IsLeast(m, rest)
    ensures IsLeast(if y <= m then y else m, rest + {y})
  {
  }

  lemma {:induction false} HasLeast(s: set<int>)
    requires |s| > 0
    ensures exists m :: IsLeast(m, s)
    decreases |s|
  {
    var y := Any(s);
    var rest := s - {y};
    assert s == rest + {y};
    if |rest| == 0 {
      assert IsLeast(y, rest + {y});
    } else {
      HasLeast(rest);
      var m :| IsLeast(m, rest);
      LeastOfMore(y, m, rest);
    }
  }

  ghost function Least(s: set<int>): (m: int)
    requires |s| > 0
    ensures IsLeast(m, s)
  {
    HasLeast(s);
    var m :| IsLeast(m, s);
    m
  }

  /** The members of a set in ascending order. */
  ghost function Sorted(s: set<int>): (ks: seq<int>)
    decreases |s|
  {
    if |s| == 0 then [] else [Least(s)] + Sorted(s - {Least(s)})
  }

  ghost predicate Ascending(xs: seq<int>) {
    forall i, j :: 0 <= i < j < |xs| ==> xs[i] < xs[j]
  }

  ghost predicate NonDecreasing(xs: seq<int>) {
    forall i, j :: 0 <= i < j < |xs| ==> xs[i] <= xs[j]
  }

  ghost predicate SameMembers(xs: seq<int>, s: set<int>) {
    (forall x :: x in xs ==> x in s) && (forall x :: x in s ==> x in xs)
  }

  lemma Prepend(m: int, rest: seq<int>, s: set<int>)
    requires m in s && (forall x :: x in s ==> m <= x)
    requires Ascending(rest) && SameMembers(rest, s - {m})
    ensures Ascending([m] + rest) && SameMembers([m] + rest, s)
  {
    var xs := [m] + rest;
    forall j | 0 < j < |xs| ensures xs[0] < xs[j] {
      assert xs[j] in rest;
    }
    assert forall j :: 0 < j < |xs| ==> xs[j] == rest[j - 1];
    forall x | x in s ensures x in xs {
      if x == m {
        assert xs[0] == x;
      } else {
        assert x in rest;
      }
    }
  }

  /** `Sorted` is what its name says. */
  lemma {:induction false} SortedIsAscending(s: set<int>)
    ensures Ascending(Sorted(s)) && SameMembers(Sorted(s), s) && |Sorted(s)| == |s|
    decreases |s|
  {
    if |s| > 0 {
      var m := Least(s);
      SortedIsAscending(s - {m});
      Prepend(m, Sorted(s - {m}), s);
    }
  }

  lemma TailMembers(xs: seq<int>, s: set<int>)
    requires |xs| > 0 && Ascending(xs) && SameMembers(xs, s) && |s| > 0
    ensures xs[0] == Least(s)
    ensures Ascending(xs[1..]) && SameMembers(xs[1..], s - {xs[0]})
  {
    var m := Least(s);
    assert xs[0] in xs && m in xs;
    var k :| 0 <= k < |xs| && xs[k] == m;
    assert k == 0;
    assert forall i :: 0 <= i < |xs[1..]| ==> xs[1..][i] == xs[i + 1];
    forall x | x in s - {m} ensures x in xs[1..] {
      var j :| 0 <= j < |xs| && xs[j] == x;
      assert xs[1..][j - 1] == x;
    }
  }

  lemma EmptyTogether(xs: seq<int>, s: set<int>)
    requires SameMembers(xs, s)
    ensures |xs| == 0 <==> |s| == 0
  {
    if |xs| > 0 {
      var x := xs[0];
      assert x in xs && x in s && |s| > 0;
    }
    if |s| > 0 {
      var y := Any(s);
      assert y in s && y in xs;
    }
  }

  /** There is one ascending arrangement of a set. */
  lemma {:induction false} SortedIsUnique(xs: seq<int>, s: set<int>)
    requires Ascending(xs) && SameMembers(xs, s)
    ensures xs == Sorted(s)
    decreases |xs|
  {
    EmptyTogether(xs, s);
    if |s| > 0 {
      TailMembers(xs, s);
      SortedIsUnique(xs[1..], s - {xs[0]});
      assert xs == [xs[0]] + xs[1..];
    }
  }

  lemma {:induction false} CountTwice(xs: seq<int>, i: nat, j: nat)
    requires i < j < |xs| && xs[i] == xs[j]
    ensures multiset(xs)[xs[i]] >= 2
  {
    assert xs == xs[..j] + xs[j..];
    assert multiset(xs) == multiset(xs[..j]) + multiset(xs[j..]);
    assert xs[..j][i] in multiset(xs[..j]);
    assert xs[j..][0] in multiset(xs[j..]);
  }

  lemma SortedFromMultiset(xs: seq<int>, s: set<int>)
    requires NonDecreasing(xs) && multiset(xs) == multiset(s)
    ensures xs == Sorted(s)
  {
    forall i, j | 0 <= i < j < |xs| ensures xs[i] < xs[j] {
      assert multiset(s)[xs[i]] <= 1;
      if xs[i] == xs[j] {
        CountTwice(xs, i, j);
      }
    }
    forall x ensures x in xs <==> x in s {
      assert x in multiset(xs) <==> x in multiset(s);
    }
    SortedIsUnique(xs, s);
  }

  /** The contents of the given parts, joined in the given order. */
  function Join(ks: seq<int>, parts: map<int, Bytes>): Bytes {
    if ks == [] then []
    else Join(ks[..|ks| - 1], parts) + (if ks[|ks| - 1] in parts then parts[ks[|ks| - 1]] else [])
  }

  lemma JoinNext(ks: seq<int>, i: nat, parts: map<int, Bytes>)
    requires i < |ks| && ks[i] in parts
    ensures Join(ks[..i + 1], parts) == Join(ks[..i], parts) + parts[ks[i]]
  {
    assert ks[..i + 1][..i] == ks[..i];
  }

  /** The object that completing an upload must produce. */
  ghost function ObjectOf(log: Log): Bytes {
    Join(Sorted(Table(log).Keys), Table(log))
  }

  /** The order in which different parts were uploaded does not matter: two logs that agree on
      the uploads of each part number give the same object. */
  lemma OrderIndependent(a: Log, b: Log)
    requires forall part :: UploadsOf(a, part) == UploadsOf(b, part)
    ensures ObjectOf(a) == ObjectOf(b)
  {
    forall part ensures part in Table(a) <==> part in Table(b)
      ensures part in Table(a) ==> Table(a)[part] == Table(b)[part]
    {
      TableIsLast(a, part);
      TableIsLast(b, part);
    }
    assert Table(a) == Table(b);
  }

  /** Uploading a part again replaces its earlier data and nothing else. */
  lemma ReuploadReplaces(log: Log, part: int, older: Bytes, newer: Bytes)
    ensures ObjectOf(log + [(part, older)] + [(part, newer)]) == ObjectOf(log + [(part, newer)])
  {
    TableAppend(log, part, older);
    TableAppend(log + [(part, older)], part, newer);
    TableAppend(log, part, newer);
    assert Table(log)[part := older][part := newer] == Table(log)[part := newer];
  }

  // ---------- sizes ----------

  /** Bytes held by the given parts. */
  ghost function SizeOf(ks: set<int>, parts: map<int, Bytes>): nat
    requires ks <= parts.Keys
    decreases |ks|
  {
    if |ks| == 0 then 0
    else
      var k := Any(ks);
      |parts[k]| + SizeOf(ks - {k}, parts)
  }

  /** The size does not depend on the order in which the parts are counted. */
  lemma {:induction false} SizeWithout(k: int, ks: set<int>, parts: map<int, Bytes>)
    requires k in ks && ks <= parts.Keys
    ensures SizeOf(ks, parts) == |parts[k]| + SizeOf(ks - {k}, parts)
    decreases |ks|
  {
    var first := Any(ks);
    if first != k {
      SizeWithout(k, ks - {first}, parts);
      SizeWithout(first, ks - {k}, parts);
      assert ks - {first} - {k} == ks - {k} - {first};
    }
  }

  lemma {:induction false} SizeDependsOnParts(ks: set<int>, a: map<int, Bytes>, b: map<int, Bytes>)
    requires ks <= a.Keys && ks <= b.Keys && forall k :: k in ks ==> a[k] == b[k]
    ensures SizeOf(ks, a) == SizeOf(ks, b)
    decreases |ks|
  {
    if |ks| > 0 {
      SizeDependsOnParts(ks - {Any(ks)}, a, b);
    }
  }

  /** Storing a part adds its size and takes away the size of the data it replaces. */
  lemma SizeAfterStore(parts: map<int, Bytes>, k: int, data: Bytes)
    ensures var after := parts[k := data];
            SizeOf(after.Keys, after) ==
            SizeOf(parts.Keys, parts) + |data| - (if k in parts then |parts[k]| else 0)
  {
    var after := parts[k := data];
    SizeWithout(k, after.Keys, after);
    var others := parts.Keys - {k};
    assert after.Keys - {k} == others;
    SizeDependsOnParts(others, after, parts);
    if k in parts {
      SizeWithout(k, parts.Keys, parts);
    } else {
      assert others == parts.Keys;
    }
  }

  lemma {:induction false} JoinSize(ks: seq<int>, s: set<int>, parts: map<int, Bytes>)
    requires Ascending(ks) && SameMembers(ks, s) && s <= parts.Keys
    ensures |Join(ks, parts)| == SizeOf(s, parts)
    decreases |ks|
  {
    EmptyTogether(ks, s);
    if |ks| > 0 {
      var init, last := ks[..|ks| - 1], ks[|ks| - 1];
      assert last in ks;
      forall x | x in s - {last} ensures x in init {
        var i :| 0 <= i < |ks| && ks[i] == x;
        assert init[i] == x;
      }
      assert forall i :: 0 <= i < |init| ==> init[i] == ks[i] && ks[i] in ks;
      JoinSize(init, s - {last}, parts);
      SizeWithout(last, s, parts);
    }
  }

  /** An object is as long as its parts together. */
  lemma ObjectSize(log: Log)
    ensures |ObjectOf(log)| == SizeOf(Table(log).Keys, Table(log))
  {
    SortedIsAscending(Table(log).Keys);
    JoinSize(Sorted(Table(log).Keys), Table(log).Keys, Table(log));
  }

  /** The size loop of the upload check. */
  method TotalSize(parts: map<int, Bytes>) returns (total: nat)
    ensures total == SizeOf(parts.Keys, parts)
  {
    var left := parts.Keys;
    total := 0;
    while |left| > 0
      invariant left <= parts.Keys
      invariant total + SizeOf(left, parts) == SizeOf(parts.Keys, parts)
      decreases |left|
    {
      var k := Pick(left);
      SizeWithout(k, left, parts);
      total := total + |parts[k]|;
      left := left - {k};
    }
  }

  // ---------- the client's list of parts ----------

  /** The same parts in the same order, with other contents. */
  ghost predicate SameParts(a: Log, b: Log) {
    |a| == |b| && forall i :: 0 <= i < |a| ==> a[i].0 == b[i].0
  }

  /** The object that S3 would make of the parts that the client lists, an error if one is unknown. */
  ghost function ListedObject(log: Log, listed: set<int>): Option<Bytes> {
    if listed <= Table(log).Keys then Some(Join(Sorted(listed), Table(log))) else None
  }

  lemma {:induction false} SamePartsSameKeys(a: Log, b: Log)
    requires SameParts(a, b)
    ensures Table(a).Keys == Table(b).Keys
  {
    if a != [] {
      SamePartsSameKeys(a[..|a| - 1], b[..|b| - 1]);
    }
  }

  function Filled(log: Log): Log {
    seq(|log|, i requires 0 <= i < |log| => (log[i].0, "a"))
  }

  lemma {:induction false} FilledTable(log: Log, part: int)
    requires part in Table(Filled(log))
    ensures Table(Filled(log))[part] == "a"
  {
    var n := |log| - 1;
    assert Filled(log)[..n] == Filled(log[..n]);
    if log[n].0 != part {
      FilledTable(log[..n], part);
    }
  }

  lemma {:induction false} UnitSizes(ks: set<int>, parts: map<int, Bytes>)
    requires ks <= parts.Keys && forall k :: k in ks ==> |parts[k]| == 1
    ensures SizeOf(ks, parts) == |ks|
    decreases |ks|
  {
    if |ks| > 0 {
      UnitSizes(ks - {Any(ks)}, parts);
    }
  }

  lemma SubsetOfSameSize(a: set<int>, b: set<int>)
    requires a <= b && |a| == |b|
    ensures a == b
  {
    assert |b - a| == 0;
    assert b == a + (b - a);
  }

  /** An object of one byte per listed part. */
  lemma ListedSize(log: Log, listed: set<int>)
    requires listed <= Table(Filled(log)).Keys
    ensures |Join(Sorted(listed), Table(Filled(log)))| == |listed|
  {
    var parts := Table(Filled(log));
    forall k | k in listed ensures |parts[k]| == 1 {
      FilledTable(log, k);
    }
    SortedIsAscending(listed);
    JoinSize(Sorted(listed), listed, parts);
    UnitSizes(listed, parts);
  }

  /** Ignoring the client's list gives the object it asks for, whatever the contents of the parts,
      if and only if it lists exactly the parts that were uploaded. */
  lemma IgnoringTheListIff(log: Log, listed: set<int>)
    ensures (forall other :: SameParts(log, other) ==> ListedObject(other, listed) == Some(ObjectOf(other)))
            <==> listed == Table(log).Keys
  {
    if listed == Table(log).Keys {
      forall other | SameParts(log, other) ensures ListedObject(other, listed) == Some(ObjectOf(other)) {
        SamePartsSameKeys(log, other);
      }
    } else {
      var other := Filled(log);
      assert SameParts(log, other);
      SamePartsSameKeys(log, other);
      if listed <= Table(other).Keys {
        ListedSize(log, listed);
        ListedSize(log, Table(other).Keys);
        if |listed| == |Table(other).Keys| {
          SubsetOfSameSize(listed, Table(other).Keys);
        }
      }
    }
  }
}
