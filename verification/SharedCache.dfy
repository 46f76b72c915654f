/** One cache shared by all objects: when each object is always served its own bytes. */
module SharedCache {
  import opened Text
  import opened LruCache
  import opened LruPolicy
  import opened CacheKeys

  const BLOCK: nat := 8 * 1024 * 1024

  /** Larger objects are not cached as a whole. */
  const WHOLE_LIMIT: nat := 50 * 1024 * 1024

  // ---------- one version of an object and its blocks ----------

  datatype Object = Object(bucket: string, key: string, data: Bytes) {
    predicate HasBlock(blk: nat) {
      blk * BLOCK < |data|
    }

    /** Where block `blk` starts, or the end of the object. */
    function At(blk: nat): (at: nat)
      ensures at <= |data|
      ensures at <= blk * BLOCK && (HasBlock(blk) ==> at == blk * BLOCK)
    {
      if blk == 0 then 0
      else if At(blk - 1) + BLOCK <= |data| then At(blk - 1) + BLOCK
      else |data|
    }

    /** End of block `blk`, exclusive. */
    function End(blk: nat): nat {
      At(blk + 1)
    }

    function Block(blk: nat): Bytes
      requires HasBlock(blk)
    {
      data[At(blk)..End(blk)]
    }

    /** Blocks `a` up to but not including `b`. */
    function Span(a: nat, b: nat): Bytes {
      if At(a) <= At(b) then data[At(a)..At(b)] else []
    }

    /** The key of the object as a whole. */
    function Whole(): string {
      WholeKey(bucket, key)
    }

    function KeyOf(blk: nat): string
      requires HasBlock(blk)
    {
      BlockKey(bucket, key, blk * BLOCK, End(blk) - 1)
    }
  }

  lemma SliceOfSlice(s: Bytes, a: nat, i: nat, j: nat, b: nat)
    requires a <= i <= j <= b <= |s|
    ensures s[a..b][i - a..j - a] == s[i..j]
  {
    assert forall k :: 0 <= k < j - i ==> s[a..b][i - a..j - a][k] == s[i..j][k];
  }

  lemma SlicesJoin(s: Bytes, a: nat, b: nat, c: nat)
    requires a <= b <= c <= |s|
    ensures s[a..b] + s[b..c] == s[a..c]
  {
  }

  lemma {:induction false} AtMonotone(o: Object, a: nat, b: nat)
    requires a <= b
    ensures o.At(a) <= o.At(b)
    ensures o.HasBlock(b) ==> o.HasBlock(a)
    decreases b - a
  {
    if a < b {
      AtMonotone(o, a, b - 1);
    }
  }

  // ---------- what the proxy stores ----------

  ghost predicate BlockEntry(o: Object, blk: nat, key: string, data: Bytes) {
    o.HasBlock(blk) && key == o.KeyOf(blk) && data == o.Block(blk)
  }

  ghost predicate WholeEntry(o: Object, key: string, data: Bytes) {
    0 < |o.data| <= WHOLE_LIMIT && key == o.Whole() && data == o.data
  }

  /** What a request for the object may put into the cache: one of its blocks, or all of it. */
  ghost predicate Entry(o: Object, key: string, data: Bytes) {
    WholeEntry(o, key, data) || exists blk: nat :: BlockEntry(o, blk, key, data)
  }

  lemma BlockFacts(o: Object, blk: nat)
    requires o.HasBlock(blk)
    ensures o.At(blk) == blk * BLOCK < o.End(blk) <= |o.data|
    ensures o.End(blk) == Min((blk + 1) * BLOCK, |o.data|)
    ensures |o.Block(blk)| == o.End(blk) - o.At(blk) > 0
  {
  }

  lemma WholeIsNoBlock(o: Object, blk: nat)
    requires o.HasBlock(blk)
    ensures Escape(o.Whole()) != Escape(o.KeyOf(blk))
  {
    BlockFacts(o, blk);
    WholeFileName(o.bucket, o.key, blk * BLOCK, o.End(blk) - 1);
  }

  lemma SharedBlock(a: Object, b: Object, i: nat, j: nat)
    requires a.HasBlock(i) && b.HasBlock(j)
    ensures Escape(a.KeyOf(i)) == Escape(b.KeyOf(j)) <==>
            Escape(a.Whole()) == Escape(b.Whole()) && i == j && a.End(i) == b.End(j)
  {
    var e1, e2 := LastByte(a, i), LastByte(b, j);
    SharedBounds(a, b, i * BLOCK, e1, j * BLOCK, e2);
  }

  function LastByte(o: Object, blk: nat): (e: nat)
    requires o.HasBlock(blk)
    ensures e + 1 == o.End(blk) && o.KeyOf(blk) == BlockKey(o.bucket, o.key, blk * BLOCK, e)
  {
    BlockFacts(o, blk);
    o.End(blk) - 1
  }

  lemma SharedBounds(a: Object, b: Object, s1: nat, e1: nat, s2: nat, e2: nat)
    ensures Escape(BlockKey(a.bucket, a.key, s1, e1)) == Escape(BlockKey(b.bucket, b.key, s2, e2)) <==>
            Escape(a.Whole()) == Escape(b.Whole()) && s1 == s2 && e1 == e2
  {
    BlockFileNamesIff(a.bucket, a.key, s1, e1, b.bucket, b.key, s2, e2);
  }

  /** Entries of one object never share a file unless they are the same, although the escape of file
      names is not injective. */
  lemma OwnEntriesAgree(o: Object, k1: string, d1: Bytes, k2: string, d2: Bytes)
    requires Entry(o, k1, d1) && Entry(o, k2, d2) && Escape(k1) == Escape(k2)
    ensures d1 == d2
  {
    if a: nat :| BlockEntry(o, a, k1, d1) {
      if b: nat :| BlockEntry(o, b, k2, d2) {
        SharedBlock(o, o, a, b);
      } else {
        WholeIsNoBlock(o, a);
      }
    } else if b: nat :| BlockEntry(o, b, k2, d2) {
      WholeIsNoBlock(o, b);
    }
  }

  /** Some cache file belongs to both objects; this depends on names and sizes alone. */
  ghost predicate ShareFile(a: Object, b: Object) {
    exists k1, d1, k2, d2 :: Entry(a, k1, d1) && Entry(b, k2, d2) && Escape(k1) == Escape(k2)
  }

  lemma Shared(a: Object, b: Object, k1: string, d1: Bytes, k2: string, d2: Bytes)
    requires Entry(a, k1, d1) && Entry(b, k2, d2) && Escape(k1) == Escape(k2)
    ensures ShareFile(a, b) && ShareFile(b, a)
  {
  }

  ghost predicate Apart(os: seq<Object>) {
    forall i, j :: 0 <= i < j < |os| ==> !ShareFile(os[i], os[j])
  }

  // ---------- every trace ----------

  /** Each file that belongs to an object holds that object's bytes. */
  ghost predicate Correct(o: Object, files: map<string, Bytes>) {
    forall key, data :: Entry(o, key, data) && Escape(key) in files ==> files[Escape(key)] == data
  }

  ghost predicate AllCorrect(os: seq<Object>, files: map<string, Bytes>) {
    forall i :: 0 <= i < |os| ==> Correct(os[i], files)
  }

  /** Cache operations that requests for these objects, prefetches, invalidations, expiry and
      maintenance perform: anything but storing bytes that are no entry of any of them. */
  ghost predicate Permitted(os: seq<Object>, op: Op) {
    op.PutOp? && op.source.Some? ==> exists i :: 0 <= i < |os| && Entry(os[i], op.key, op.source.value)
  }

  lemma StoreKeepsCorrect(os: seq<Object>, files: map<string, Bytes>, i: nat, key: string, data: Bytes)
    requires Apart(os) && AllCorrect(os, files) && i < |os| && Entry(os[i], key, data)
    ensures AllCorrect(os, files[Escape(key) := data])
  {
    forall j, k, d | 0 <= j < |os| && Entry(os[j], k, d) && Escape(k) == Escape(key) ensures d == data {
      if i == j {
        OwnEntriesAgree(os[i], k, d, key, data);
      } else {
        Shared(os[i], os[j], key, data, k, d);
      }
    }
    forall j | 0 <= j < |os| ensures Correct(os[j], files[Escape(key) := data]) {
      assert Correct(os[j], files);
    }
  }

  /** A block's file, if it is there, holds the block. */
  lemma BlockFileCorrect(os: seq<Object>, files: map<string, Bytes>, o: Object, blk: nat)
    requires o in os && AllCorrect(os, files) && o.HasBlock(blk) && Escape(o.KeyOf(blk)) in files
    ensures files[Escape(o.KeyOf(blk))] == o.Block(blk)
  {
    var i :| 0 <= i < |os| && os[i] == o;
    assert Correct(os[i], files) && BlockEntry(o, blk, o.KeyOf(blk), o.Block(blk));
    assert Entry(o, o.KeyOf(blk), o.Block(blk));
  }

  ghost predicate Fewer(after: map<string, Bytes>, before: map<string, Bytes>) {
    forall name :: name in after ==> name in before && after[name] == before[name]
  }

  lemma FewerIsCorrect(os: seq<Object>, before: map<string, Bytes>, after: map<string, Bytes>)
    requires AllCorrect(os, before) && Fewer(after, before)
    ensures AllCorrect(os, after)
  {
    forall j | 0 <= j < |os| ensures Correct(os[j], after) {
      assert Correct(os[j], before);
    }
  }

  lemma {:induction false} EvictFewer(c: Cache, maxBytes: int)
    ensures Fewer(Evict(c, maxBytes).files, c.files)
    decreases |c.items|
  {
    if Total(c.items) > maxBytes && c.items != [] {
      WithoutKeys(c.items, {c.items[0].key});
      EvictFewer(Drop(c, {c.items[0].key}), maxBytes);
    }
  }

  lemma InsertKeepsCorrect(os: seq<Object>, c: Cache, key: string, data: Bytes, used: int, expires: int, maxBytes: int)
    requires Apart(os) && AllCorrect(os, c.files) && exists i :: 0 <= i < |os| && Entry(os[i], key, data)
    ensures AllCorrect(os, Evict(Insert(c, key, data, used, expires), maxBytes).files)
  {
    var i :| 0 <= i < |os| && Entry(os[i], key, data);
    var put := Insert(c, key, data, used, expires);
    StoreKeepsCorrect(os, c.files, i, key, data);
    EvictFewer(put, maxBytes);
    FewerIsCorrect(os, put.files, Evict(put, maxBytes).files);
  }

  lemma PutKeepsCorrect(os: seq<Object>, s: Settings, c: Cache, op: Op)
    requires Apart(os) && AllCorrect(os, c.files) && op.PutOp? && Permitted(os, op)
    ensures AllCorrect(os, Step(s, c, op).files)
  {
    var without := Drop(c, {op.key});
    FewerIsCorrect(os, c.files, without.files);
    if op.source.Some? && |op.source.value| <= s.maxBytes && op.copied {
      InsertKeepsCorrect(os, without, op.key, op.source.value, op.used, op.expiryBase + s.ttl, s.maxBytes);
    }
  }

  lemma StepKeepsCorrect(os: seq<Object>, s: Settings, c: Cache, op: Op)
    requires Apart(os) && AllCorrect(os, c.files) && Permitted(os, op)
    ensures AllCorrect(os, Step(s, c, op).files)
  {
    if op.PutOp? {
      PutKeepsCorrect(os, s, c, op);
    } else {
      FewerIsCorrect(os, c.files, Step(s, c, op).files);
    }
  }

  /** Over every trace, each file that belongs to one of the objects holds that object's bytes. */
  lemma {:induction false} TraceStaysCorrect(os: seq<Object>, s: Settings, c: Cache, ops: seq<Op>)
    requires Apart(os) && AllCorrect(os, c.files) && forall op :: op in ops ==> Permitted(os, op)
    ensures AllCorrect(os, Trace(s, c, ops).files)
    decreases |ops|
  {
    if ops != [] {
      assert ops[0] in ops;
      StepKeepsCorrect(os, s, c, ops[0]);
      TraceStaysCorrect(os, s, Step(s, c, ops[0]), ops[1..]);
    }
  }

  // ---------- the exact condition ----------

  /** Whatever hits under a key of the object reads the object's bytes. */
  ghost predicate ServesOwn(o: Object, c: Cache) {
    forall key, data, now, used :: Entry(o, key, data) && GetSpec(c, key, now, used).1 ==>
      Escape(key) in c.files && c.files[Escape(key)] == data
  }

  ghost predicate AlwaysServesOwn(os: seq<Object>) {
    forall s, ops :: (forall op :: op in ops ==> Permitted(os, op)) ==>
      forall i :: 0 <= i < |os| ==> ServesOwn(os[i], Trace(s, Cache([], map[]), ops))
  }

  /** The same names and sizes. */
  predicate SameShape(a: Object, b: Object) {
    a.bucket == b.bucket && a.key == b.key && |a.data| == |b.data|
  }

  ghost predicate SameShapes(os: seq<Object>, ps: seq<Object>) {
    |os| == |ps| && forall i :: 0 <= i < |os| ==> SameShape(os[i], ps[i])
  }

  lemma {:induction false} ShapeBlocks(a: Object, b: Object, blk: nat)
    requires SameShape(a, b)
    ensures a.At(blk) == b.At(blk)
  {
    if blk > 0 {
      ShapeBlocks(a, b, blk - 1);
    }
  }

  lemma EntryInShape(a: Object, b: Object, key: string, data: Bytes) returns (other: Bytes)
    requires SameShape(a, b) && Entry(a, key, data)
    ensures Entry(b, key, other)
  {
    if blk: nat :| BlockEntry(a, blk, key, data) {
      ShapeBlocks(a, b, blk);
      ShapeBlocks(a, b, blk + 1);
      other := b.Block(blk);
      assert BlockEntry(b, blk, key, other);
    } else {
      other := b.data;
    }
  }

  lemma ShapesShare(a: Object, b: Object, a': Object, b': Object)
    requires SameShape(a, a') && SameShape(b, b') && ShareFile(a, b)
    ensures ShareFile(a', b')
  {
    var k1, d1, k2, d2 :| Entry(a, k1, d1) && Entry(b, k2, d2) && Escape(k1) == Escape(k2);
    var e1 := EntryInShape(a, a', k1, d1);
    var e2 := EntryInShape(b, b', k2, d2);
  }

  /** The same object filled with one byte. */
  function Paint(o: Object, c: Byte): Object {
    o.(data := seq(|o.data|, _ => c))
  }

  lemma PaintedEntry(o: Object, c: Byte, key: string, data: Bytes)
    requires Entry(Paint(o, c), key, data)
    ensures |data| > 0 && data[0] == c
  {
    if blk: nat :| BlockEntry(Paint(o, c), blk, key, data) {
      BlockFacts(Paint(o, c), blk);
    }
  }

  /** The shortest time to live for which the cleanup timer, set to half of it, can run. */
  const SHORTEST: int := 2

  /** Storing other bytes under the same file name spoils the first entry, which still hits. */
  lemma SecondPutSpoils(a: string, b: string, x: Bytes, y: Bytes)
    requires Escape(a) == Escape(b) && x != y
    ensures var ops := [PutOp(a, Some(x), true, 0, 0), PutOp(b, Some(y), true, 0, 0)];
            var c := Trace(Settings(|x| + |y|, SHORTEST), Cache([], map[]), ops);
            GetSpec(c, a, 0, 0).1 && Escape(a) in c.files && c.files[Escape(a)] != x
  {
    var s := Settings(|x| + |y|, SHORTEST);
    if a == b {
      SamePutTwice(s, a, x, y);
    } else {
      CollidingNames(s, a, b, x, y, 0);
    }
  }

  /** A cache with one entry. */
  function Single(a: string, x: Bytes, ttl: int): Cache {
    Cache([Item(a, |x|, 0, ttl)], map[Escape(a) := x])
  }

  lemma PutInEmpty(s: Settings, a: string, x: Bytes)
    requires |x| <= s.maxBytes
    ensures Step(s, Cache([], map[]), PutOp(a, Some(x), true, 0, 0)) == Single(a, x, s.ttl)
  {
    DropAbsent(Cache([], map[]), a);
    assert [] + [Item(a, |x|, 0, s.ttl)] == [Item(a, |x|, 0, s.ttl)];
    assert Total([Item(a, |x|, 0, s.ttl)]) == |x|;
  }

  lemma PutAgain(s: Settings, a: string, x: Bytes, y: Bytes)
    requires |y| <= s.maxBytes
    ensures Step(s, Single(a, x, s.ttl), PutOp(a, Some(y), true, 0, 0)) == Single(a, y, s.ttl)
  {
    var c := Single(a, x, s.ttl);
    DropOne(c, 0);
    assert c.items[..0] + c.items[1..] == [] && c.files - {Escape(a)} == map[];
    DropAbsent(Cache([], map[]), a);
    assert Drop(c, {a}) == Drop(Cache([], map[]), {a});
    PutInEmpty(s, a, y);
  }

  lemma SamePutTwice(s: Settings, a: string, x: Bytes, y: Bytes)
    requires |x| + |y| <= s.maxBytes && s.ttl >= 0
    ensures var c := Trace(s, Cache([], map[]), [PutOp(a, Some(x), true, 0, 0), PutOp(a, Some(y), true, 0, 0)]);
            c == Single(a, y, s.ttl) && GetSpec(c, a, 0, 0).1
  {
    var first, second := PutOp(a, Some(x), true, 0, 0), PutOp(a, Some(y), true, 0, 0);
    PutInEmpty(s, a, x);
    PutAgain(s, a, x, y);
    var c1, c2 := Single(a, x, s.ttl), Single(a, y, s.ttl);
    assert [first, second][1..] == [second] && [second][1..] == [];
    assert Trace(s, c1, [second]) == Trace(s, c2, []) == c2;
  }

  lemma SpoiledRun(ps: seq<Object>, i: nat, j: nat, k1: string, d1: Bytes, k2: string, d2: Bytes)
    requires i < |ps| && j < |ps| && Entry(ps[i], k1, d1) && Entry(ps[j], k2, d2)
    requires Escape(k1) == Escape(k2) && d1 != d2
    ensures !AlwaysServesOwn(ps)
  {
    SecondPutSpoils(k1, k2, d1, d2);
    var s, ops := Settings(|d1| + |d2|, SHORTEST), [PutOp(k1, Some(d1), true, 0, 0), PutOp(k2, Some(d2), true, 0, 0)];
    assert forall op :: op in ops ==> Permitted(ps, op);
    assert !ServesOwn(ps[i], Trace(s, Cache([], map[]), ops));
  }

  lemma SharedFileFails(os: seq<Object>, i: nat, j: nat) returns (ps: seq<Object>)
    requires i < |os| && j < |os| && i != j && ShareFile(os[i], os[j])
    ensures SameShapes(os, ps) && !AlwaysServesOwn(ps)
  {
    ps := seq(|os|, k requires 0 <= k < |os| => Paint(os[k], if k == i then 'a' else 'b'));
    ShapesShare(os[i], os[j], ps[i], ps[j]);
    var k1, d1, k2, d2 :| Entry(ps[i], k1, d1) && Entry(ps[j], k2, d2) && Escape(k1) == Escape(k2);
    PaintedEntry(os[i], 'a', k1, d1);
    PaintedEntry(os[j], 'b', k2, d2);
    SpoiledRun(ps, i, j, k1, d1, k2, d2);
  }

  /** Each object is always served its own bytes, whatever the contents, settings and operations, if
      and only if no two of the objects have a cache file in common. */
  lemma SharedCacheIff(os: seq<Object>)
    ensures (forall ps :: SameShapes(os, ps) ==> AlwaysServesOwn(ps)) <==> Apart(os)
  {
    if Apart(os) {
      forall ps | SameShapes(os, ps) ensures AlwaysServesOwn(ps) {
        ApartServesOwn(os, ps);
      }
    } else {
      var i, j :| 0 <= i < j < |os| && ShareFile(os[i], os[j]);
      var ps := SharedFileFails(os, i, j);
    }
  }

  lemma ApartServesOwn(os: seq<Object>, ps: seq<Object>)
    requires Apart(os) && SameShapes(os, ps)
    ensures AlwaysServesOwn(ps)
  {
    forall i, j | 0 <= i < j < |ps| ensures !ShareFile(ps[i], ps[j]) {
      if ShareFile(ps[i], ps[j]) {
        ShapesShare(ps[i], ps[j], os[i], os[j]);
      }
    }
    forall s, ops, i | (forall op :: op in ops ==> Permitted(ps, op)) && 0 <= i < |ps|
      ensures ServesOwn(ps[i], Trace(s, Cache([], map[]), ops))
    {
      TraceStaysCorrect(ps, s, Cache([], map[]), ops);
    }
  }

  // ---------- the condition in terms of names and sizes ----------

  /** The file of the whole object `a` has the name of a block of `b`. */
  ghost predicate NamedLikeBlock(a: Object, b: Object) {
    0 < |a.data| <= WHOLE_LIMIT && exists blk: nat :: b.HasBlock(blk) && Escape(a.Whole()) == Escape(b.KeyOf(blk))
  }

  /** Two objects with the same escaped name, of which some block or the whole ends up in one file:
      first blocks of equal length, or both small enough to be cached as a whole. */
  predicate SameName(a: Object, b: Object) {
    && Escape(a.Whole()) == Escape(b.Whole()) && |a.data| > 0 && |b.data| > 0
    && (Min(|a.data|, BLOCK) == Min(|b.data|, BLOCK) || (|a.data| <= WHOLE_LIMIT && |b.data| <= WHOLE_LIMIT))
  }

  /** Two objects have a cache file in common if and only if they have the same escaped name and
      matching sizes, or one is named like a block of the other. */
  lemma ShareFileIff(a: Object, b: Object)
    ensures ShareFile(a, b) <==> SameName(a, b) || NamedLikeBlock(a, b) || NamedLikeBlock(b, a)
  {
    if ShareFile(a, b) {
      var k1, d1, k2, d2 :| Entry(a, k1, d1) && Entry(b, k2, d2) && Escape(k1) == Escape(k2);
      SharedIsNamed(a, b, k1, d1, k2, d2);
    }
    if SameName(a, b) {
      SameNameShares(a, b);
    } else if NamedLikeBlock(a, b) {
      NamedLikeBlockShares(a, b);
    } else if NamedLikeBlock(b, a) {
      NamedLikeBlockShares(b, a);
    }
  }

  lemma SharedIsNamed(a: Object, b: Object, k1: string, d1: Bytes, k2: string, d2: Bytes)
    requires Entry(a, k1, d1) && Entry(b, k2, d2) && Escape(k1) == Escape(k2)
    ensures SameName(a, b) || NamedLikeBlock(a, b) || NamedLikeBlock(b, a)
  {
    if i: nat :| BlockEntry(a, i, k1, d1) {
      if j: nat :| BlockEntry(b, j, k2, d2) {
        SharedBlock(a, b, i, j);
        BlockFacts(a, i);
        BlockFacts(b, i);
      }
    }
  }

  lemma SameNameShares(a: Object, b: Object)
    requires SameName(a, b)
    ensures ShareFile(a, b)
  {
    if |a.data| <= WHOLE_LIMIT && |b.data| <= WHOLE_LIMIT {
      Shared(a, b, a.Whole(), a.data, b.Whole(), b.data);
    } else {
      BlockFacts(a, 0);
      BlockFacts(b, 0);
      SharedBlock(a, b, 0, 0);
      assert BlockEntry(a, 0, a.KeyOf(0), a.Block(0)) && BlockEntry(b, 0, b.KeyOf(0), b.Block(0));
      Shared(a, b, a.KeyOf(0), a.Block(0), b.KeyOf(0), b.Block(0));
    }
  }

  lemma NamedLikeBlockShares(a: Object, b: Object)
    requires NamedLikeBlock(a, b)
    ensures ShareFile(a, b) && ShareFile(b, a)
  {
    var blk: nat :| b.HasBlock(blk) && Escape(a.Whole()) == Escape(b.KeyOf(blk));
    assert BlockEntry(b, blk, b.KeyOf(blk), b.Block(blk));
    Shared(a, b, a.Whole(), a.data, b.KeyOf(blk), b.Block(blk));
  }

  /** Two different objects of one bucket and any equal size that spoil each other's blocks. */
  lemma CollidingObjects(x: Bytes, y: Bytes)
    requires |x| == |y| > 0
    ensures ShareFile(Object("bucket", "a/b", x), Object("bucket", "a_b", y))
  {
    var a, b := Object("bucket", "a/b", x), Object("bucket", "a_b", y);
    EscapeCollides();
    EscapeConcat("bucket/", "a/b");
    EscapeConcat("bucket/", "a_b");
    assert a.Whole() == "bucket/" + "a/b" && b.Whole() == "bucket/" + "a_b";
    SameNameShares(a, b);
  }
}
