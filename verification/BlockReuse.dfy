/** The blocks that cover a range as a run of cache entries: which of them a quiet request finds, and that
    the next request for the range finds all of them. */
module BlockReuse {
  import opened Text
  import opened LruCache
  import opened LruPolicy
  import opened LruReuse
  import LruTimes
  import opened SharedCache

  /** What goes on around a request: anything, or nothing, at one moment and with a disk that works. */
  datatype Around = Busy | Quiet(now: int)

  /** `n` blocks from `first` on, as entries. */
  function Covering(o: Object, first: nat, n: nat): Entries {
    if n == 0 then []
    else if o.HasBlock(first + n - 1) then
      Covering(o, first, n - 1) + [EntryOf(o, first + n - 1)]
    else Covering(o, first, n - 1)
  }

  /** The last block of a run, and so every one before it, is there. */
  ghost predicate Runs(o: Object, first: nat, n: nat) {
    n == 0 || o.HasBlock(first + n - 1)
  }

  lemma RunsShorter(o: Object, first: nat, n: nat, k: nat)
    requires Runs(o, first, n) && k <= n
    ensures Runs(o, first, k)
  {
    if k > 0 {
      AtMonotone(o, first + k - 1, first + n - 1);
    }
  }

  lemma {:induction false} CoveringSize(o: Object, first: nat, n: nat)
    requires Runs(o, first, n)
    ensures |Covering(o, first, n)| == n
  {
    if n > 0 {
      RunsShorter(o, first, n, n - 1);
      CoveringSize(o, first, n - 1);
    }
  }

  /** The entry of block `blk`. */
  function EntryOf(o: Object, blk: nat): (string, Bytes) {
    if o.HasBlock(blk) then (o.KeyOf(blk), o.Block(blk)) else ("", [])
  }

  lemma {:induction false} CoveringAt(o: Object, first: nat, n: nat, i: nat)
    requires Runs(o, first, n) && i < n
    ensures |Covering(o, first, n)| == n && o.HasBlock(first + i) && Covering(o, first, n)[i] == EntryOf(o, first + i)
  {
    RunsShorter(o, first, n, n - 1);
    CoveringSize(o, first, n - 1);
    if i < n - 1 {
      CoveringAt(o, first, n - 1, i);
    }
  }

  /** Blocks of one object have files of their own. */
  lemma CoveringOwn(o: Object, first: nat, n: nat)
    requires Runs(o, first, n)
    ensures OwnFiles(Covering(o, first, n))
  {
    CoveringSize(o, first, n);
    var es := Covering(o, first, n);
    forall i, j | 0 <= i < j < |es| ensures Escape(es[i].0) != Escape(es[j].0) {
      CoveringAt(o, first, n, i);
      CoveringAt(o, first, n, j);
      SharedBlock(o, o, first + i, first + j);
    }
  }

  lemma {:induction false} CoveringTotal(s: Settings, o: Object, first: nat, n: nat, now: int)
    requires Runs(o, first, n)
    ensures o.At(first) <= o.At(first + n)
    ensures Total(Fresh(s, Covering(o, first, n), now)) == o.At(first + n) - o.At(first)
  {
    if n > 0 {
      RunsShorter(o, first, n, n - 1);
      CoveringTotal(s, o, first, n - 1, now);
      BlockFacts(o, first + n - 1);
      FreshTotal(s, Covering(o, first, n - 1), EntryOf(o, first + n - 1), now);
    } else {
      assert Fresh(s, [], now) == [];
    }
  }

  // ---------- a cache that holds entries of the objects only ----------

  ghost predicate EntryKey(os: seq<Object>, key: string) {
    exists i, data :: 0 <= i < |os| && Entry(os[i], key, data)
  }

  ghost predicate Tidy(os: seq<Object>, c: Cache) {
    forall key :: key in Keys(c.items) ==> EntryKey(os, key)
  }

  lemma SameKey(o: Object, k1: string, d1: Bytes, k2: string, d2: Bytes)
    requires Entry(o, k1, d1) && Entry(o, k2, d2) && Escape(k1) == Escape(k2)
    ensures k1 == k2
  {
    if a: nat :| BlockEntry(o, a, k1, d1) {
      if b: nat :| BlockEntry(o, b, k2, d2) {
        SharedBlock(o, o, a, b);
      } else {
        WholeIsNoBlock(o, a);
      }
    } else if b: nat :| BlockEntry(o, b, k2, d2) {
      WholeIsNoBlock(o, b);
    }
  }

  lemma OthersNames(a: Object, b: Object, k1: string, d1: Bytes, k2: string, d2: Bytes)
    requires !ShareFile(a, b) && Entry(a, k1, d1) && Entry(b, k2, d2)
    ensures Escape(k1) != Escape(k2)
  {
  }

  lemma OwnNames(o: Object, k1: string, d1: Bytes, k2: string, d2: Bytes)
    requires Entry(o, k1, d1) && Entry(o, k2, d2)
    ensures Escape(k1) == Escape(k2) ==> k1 == k2
  {
    if Escape(k1) == Escape(k2) {
      SameKey(o, k1, d1, k2, d2);
    }
  }

  lemma EntryKeysDiffer(os: seq<Object>, keys: set<string>)
    requires Apart(os) && forall k :: k in keys ==> EntryKey(os, k)
    ensures NamesDiffer(keys)
  {
    forall a, b | a in keys && b in keys ensures Escape(a) == Escape(b) ==> a == b {
      var i, d :| 0 <= i < |os| && Entry(os[i], a, d);
      var j, e :| 0 <= j < |os| && Entry(os[j], b, e);
      if i < j {
        OthersNames(os[i], os[j], a, d, b, e);
      } else if j < i {
        OthersNames(os[j], os[i], b, e, a, d);
      } else {
        OwnNames(os[i], a, d, b, e);
      }
    }
  }

  lemma StepTidy(os: seq<Object>, s: Settings, c: Cache, op: Op)
    requires Tidy(os, c) && Permitted(os, op)
    ensures Tidy(os, Step(s, c, op))
  {
    var after := Step(s, c, op);
    forall key | key in Keys(after.items) ensures EntryKey(os, key) {
      var x := LruTimes.KeyHasItem(after, key);
      LruTimes.StepItem(s, c, op, x);
      KeysByIndex(c.items);
    }
  }

  /** So is every cache that was only ever used for these objects. */
  lemma {:induction false} TraceTidy(os: seq<Object>, s: Settings, c: Cache, ops: seq<Op>)
    requires Tidy(os, c) && forall op :: op in ops ==> Permitted(os, op)
    ensures Tidy(os, Trace(s, c, ops))
    decreases |ops|
  {
    if ops != [] {
      assert ops[0] in ops;
      StepTidy(os, s, c, ops[0]);
      TraceTidy(os, s, Step(s, c, ops[0]), ops[1..]);
    }
  }

  // ---------- the next request ----------

  lemma CoveringIsEntry(os: seq<Object>, o: Object, first: nat, n: nat, i: nat)
    requires o in os && Runs(o, first, n) && i < n
    ensures |Covering(o, first, n)| == n && EntryKey(os, Covering(o, first, n)[i].0)
  {
    CoveringAt(o, first, n, i);
    var j :| 0 <= j < |os| && os[j] == o;
    assert BlockEntry(o, first + i, o.KeyOf(first + i), o.Block(first + i));
    assert Entry(os[j], o.KeyOf(first + i), o.Block(first + i));
  }

  /** All keys of the cache and of a run of blocks. */
  function KeysWith(c: Cache, es: Entries): set<string> {
    Keys(c.items) + set i | 0 <= i < |es| :: es[i].0
  }

  lemma KeysApart(os: seq<Object>, c: Cache, o: Object, first: nat, n: nat)
    requires o in os && Apart(os) && Tidy(os, c) && Runs(o, first, n)
    ensures NamesDiffer(KeysWith(c, Covering(o, first, n)))
  {
    var es := Covering(o, first, n);
    CoveringSize(o, first, n);
    forall k | k in KeysWith(c, es) ensures EntryKey(os, k) {
      if k !in Keys(c.items) {
        var i :| 0 <= i < n && es[i].0 == k;
        CoveringIsEntry(os, o, first, n, i);
      }
    }
    EntryKeysDiffer(os, KeysWith(c, es));
  }

  /** The blocks of a range that were just stored are all held as long as their time to live, if the cache
      can hold them together. */
  lemma StoredIsHeld(os: seq<Object>, s: Settings, c: Cache, o: Object, first: nat, n: nat, now: int, later: int)
    requires o in os && Apart(os) && Tidy(os, c) && DistinctKeys(c.items) && Runs(o, first, n)
    requires o.At(first + n) - o.At(first) <= s.maxBytes && later <= now + s.ttl
    ensures AllHeld(AllStored(s, c, Covering(o, first, n), now), Covering(o, first, n), later)
  {
    CoveringOwn(o, first, n);
    CoveringTotal(s, o, first, n, now);
    KeysApart(os, c, o, first, n);
    StoredAreHeld(s, c, Covering(o, first, n), now, later, KeysWith(c, Covering(o, first, n)));
  }

  // ---------- what a quiet request does to the cache ----------

  /** All blocks from `first` up to but not including `to` are served. */
  ghost predicate BlocksHeld(c: Cache, o: Object, first: nat, to: nat, now: int) {
    forall blk: nat :: first <= blk < to && o.HasBlock(blk) ==> Held(c, o.KeyOf(blk), now)
  }

  /** Looking for one block does not take away another. */
  lemma LookKeepsBlocks(c: Cache, o: Object, first: nat, to: nat, blk: nat, now: int)
    requires o.HasBlock(blk) && BlocksHeld(c, o, first, to, now)
    ensures BlocksHeld(Look(c, o.KeyOf(blk), now), o, first, to, now)
  {
    forall b: nat | first <= b < to && o.HasBlock(b) ensures Held(Look(c, o.KeyOf(blk), now), o.KeyOf(b), now) {
      SharedBlock(o, o, b, blk);
      LookKeeps(c, o.KeyOf(b), o.KeyOf(blk), now);
    }
  }

  /** What a request knows that has looked for blocks one after another, and found all up to `blk`: they are
      held, and those of the range that were held before still are. */
  ghost predicate FoundUpTo(os: seq<Object>, before: Cache, c: Cache, o: Object, first: nat, blk: nat, to: nat, now: int) {
    && (Tidy(os, before) ==> Tidy(os, c))
    && BlocksHeld(c, o, first, blk, now)
    && (BlocksHeld(before, o, first, to, now) ==> BlocksHeld(c, o, first, to, now))
  }

  lemma LookOnce(os: seq<Object>, s: Settings, before: Cache, c: Cache, o: Object, first: nat, blk: nat, to: nat, now: int)
    requires FoundUpTo(os, before, c, o, first, blk, to, now) && first <= blk < to && o.HasBlock(blk)
    ensures var next := Look(c, o.KeyOf(blk), now);
            && (Held(c, o.KeyOf(blk), now) ==> FoundUpTo(os, before, next, o, first, blk + 1, to, now))
            && (!Held(c, o.KeyOf(blk), now) ==> MissedOne(os, before, next, o, first, to, now))
  {
    if Tidy(os, c) {
      StepTidy(os, s, c, GetOp(o.KeyOf(blk), now, now));
    }
    LookKeepsBlocks(c, o, first, blk, blk, now);
    if BlocksHeld(c, o, first, to, now) {
      LookKeepsBlocks(c, o, first, to, blk, now);
    }
    if Held(c, o.KeyOf(blk), now) {
      LookKeeps(c, o.KeyOf(blk), o.KeyOf(blk), now);
    }
  }

  /** A request that has missed a block: the range was not held. */
  ghost predicate MissedOne(os: seq<Object>, before: Cache, c: Cache, o: Object, first: nat, to: nat, now: int) {
    (Tidy(os, before) ==> Tidy(os, c)) && !BlocksHeld(before, o, first, to, now)
  }

  /** The cache after `n` blocks from `first` on have been stored. */
  function AfterStores(s: Settings, c: Cache, o: Object, first: nat, n: nat, now: int): Cache {
    if n == 0 then c else Store(s, AfterStores(s, c, o, first, n - 1, now), EntryOf(o, first + n - 1), now)
  }

  lemma {:induction false} StoresAreStored(s: Settings, c: Cache, o: Object, first: nat, n: nat, now: int)
    requires Runs(o, first, n)
    ensures AfterStores(s, c, o, first, n, now) == AllStored(s, c, Covering(o, first, n), now)
  {
    if n > 0 {
      RunsShorter(o, first, n, n - 1);
      StoresAreStored(s, c, o, first, n - 1, now);
      StoredNext(s, c, Covering(o, first, n - 1), EntryOf(o, first + n - 1), now);
    }
  }

  lemma EntriesHeld(c: Cache, o: Object, first: nat, n: nat, now: int)
    requires Runs(o, first, n) && AllHeld(c, Covering(o, first, n), now)
    ensures BlocksHeld(c, o, first, first + n, now)
  {
    forall blk: nat | first <= blk < first + n && o.HasBlock(blk) ensures Held(c, o.KeyOf(blk), now) {
      CoveringAt(o, first, n, blk - first);
    }
  }

  /** Stored blocks are held as long as their time to live, if the cache can hold them together. */
  lemma StoredBlocksHeld(os: seq<Object>, s: Settings, c: Cache, o: Object, first: nat, n: nat, now: int)
    requires o in os && Apart(os) && Tidy(os, c) && DistinctKeys(c.items) && Runs(o, first, n)
    requires o.At(first + n) - o.At(first) <= s.maxBytes
    ensures BlocksHeld(AfterStores(s, c, o, first, n, now), o, first, first + n, now + s.ttl)
  {
    var after := AfterStores(s, c, o, first, n, now);
    StoresAreStored(s, c, o, first, n, now);
    StoredIsHeld(os, s, c, o, first, n, now, now + s.ttl);
    EntriesHeld(after, o, first, n, now + s.ttl);
  }

  /** What is held at some time was held before. */
  lemma HeldEarlier(c: Cache, o: Object, first: nat, to: nat, t: int, u: int)
    requires t <= u && BlocksHeld(c, o, first, to, u)
    ensures BlocksHeld(c, o, first, to, t)
  {
    forall blk: nat | first <= blk < to && o.HasBlock(blk) ensures Held(c, o.KeyOf(blk), t) {
      assert Held(c, o.KeyOf(blk), u);
    }
  }

  /** What a quiet request for a range tells and leaves: it fetches nothing if the cache held all blocks of
      the range; afterwards it holds them, and if they were fetched, until their time to live is over. */
  ghost predicate Reused(os: seq<Object>, s: Settings, before: Cache, after: Cache, o: Object, first: nat, to: nat,
                         now: int, fetched: bool) {
    && (BlocksHeld(before, o, first, to, now) ==> !fetched)
    && (!fetched ==> BlocksHeld(after, o, first, to, now))
    && (fetched && Tidy(os, before) && o.At(first) <= o.At(to) <= o.At(first) + s.maxBytes ==>
          BlocksHeld(after, o, first, to, now + s.ttl))
  }

  lemma FetchedIsReused(os: seq<Object>, s: Settings, before: Cache, c: Cache, o: Object, first: nat, n: nat, now: int)
    requires o in os && Apart(os) && Runs(o, first, n) && DistinctKeys(c.items)
    requires MissedOne(os, before, c, o, first, first + n, now)
    ensures Reused(os, s, before, AfterStores(s, c, o, first, n, now), o, first, first + n, now, true)
  {
    if Tidy(os, before) && o.At(first) <= o.At(first + n) <= o.At(first) + s.maxBytes {
      StoredBlocksHeld(os, s, c, o, first, n, now);
    }
  }

  /** At a later time the range is still held, if it was fetched and has not expired or no time has passed. */
  lemma HeldAgain(os: seq<Object>, s: Settings, before: Cache, after: Cache, o: Object, first: nat, to: nat,
                  now: int, fetched: bool, again: int)
    requires Reused(os, s, before, after, o, first, to, now, fetched)
    requires Tidy(os, before) && |o.data| <= s.maxBytes && first <= to && again <= now + s.ttl
    ensures fetched || again <= now ==> BlocksHeld(after, o, first, to, again)
  {
    AtMonotone(o, first, to);
    if fetched {
      HeldEarlier(after, o, first, to, again, now + s.ttl);
    } else if again <= now {
      HeldEarlier(after, o, first, to, again, now);
    }
  }
}
