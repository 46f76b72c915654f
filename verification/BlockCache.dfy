/** Range requests served from cached 8 MiB blocks: every response carries exactly the bytes asked
    for, whatever is cached, evicted, expired, prefetched or done by other requests meanwhile. */
module BlockCache {
  import opened Text
  import opened LruCache
  import opened LruPolicy
  import opened CacheKeys
  import opened SharedCache
  import opened LruReuse
  import opened BlockReuse
  import RangeHeader

  // ---------- serving a range ----------

  datatype Response =
    | FallBack                                                  // not handled here
    | RangeError(multiple: bool)
    | Partial(payload: Bytes, start: int, end: int, total: int)

  /** The storage behind the proxy, for one object version.  A call can fail; one that succeeds
      returns exactly the bytes requested.  `log` lists the ranges that were delivered. */
  class Backend {
    const obj: Object
    var log: seq<(nat, nat)>
    var failures: nat

    constructor (o: Object)
      ensures obj == o && log == [] && failures == 0
    {
      obj, log, failures := o, [], 0;
    }

    method HeadObject() returns (size: Option<nat>)
      modifies this`failures
      ensures size.Some? ==> size.value == |obj.data| && failures == old(failures)
      ensures size.None? ==> failures > old(failures)
    {
      var ok: bool := *;
      if ok {
        size := Some(|obj.data|);
      } else {
        failures, size := failures + 1, None;
      }
    }

    method GetObjectRange(offset: nat, length: nat) returns (data: Option<Bytes>)
      requires offset + length <= |obj.data|
      modifies this
      ensures data.Some? ==> data.value == obj.data[offset..offset + length]
                             && log == old(log) + [(offset, length)] && failures == old(failures)
      ensures data.None? ==> log == old(log) && failures > old(failures)
    {
      var ok: bool := *;
      if ok {
        log, data := log + [(offset, length)], Some(obj.data[offset..offset + length]);
      } else {
        failures, data := failures + 1, None;
      }
    }
  }

  /** The response that section 14 of RFC 9110 and the clamping of the parser call for. */
  ghost predicate Answers(o: Object, header: string, resp: Response) {
    match RangeHeader.ParseSingleRange(header, |o.data|)
    case Interval(start, end) => resp == Partial(o.data[start..end + 1], start, end, |o.data|)
    case Multiple => resp == RangeError(true)
    case Invalid => resp == RangeError(false)
  }

  /** Blocks `first` to `last` of the object, one fetch covering them exactly. */
  ghost function Cover(o: Object, first: nat, last: nat): (nat, nat)
    requires first <= last && o.HasBlock(last)
  {
    (o.At(first), o.End(last) - o.At(first))
  }

  // ---------- which blocks a request looks at ----------

  /** A look at the cache: the block, and whether its bytes were found. */
  type Lookup = (nat, bool)

  /** Blocks in ascending order from `first` on. */
  ghost predicate Looked(o: Object, ls: seq<Lookup>, first: nat) {
    forall j :: 0 <= j < |ls| ==> ls[j].0 == first + j && o.HasBlock(first + j)
  }

  ghost predicate AllHit(ls: seq<Lookup>) {
    forall j :: 0 <= j < |ls| ==> ls[j].1
  }

  /** How the blocks `first` to `last` were obtained: every one found in the cache and nothing fetched,
      or the first ones found, the next one missed, and one fetch of exactly all of them. */
  ghost predicate Served(o: Object, first: nat, last: nat, ls: seq<Lookup>, fetched: seq<(nat, nat)>) {
    && first <= last && o.HasBlock(last) && Looked(o, ls, first)
    && (if AllHit(ls) then |ls| == last - first + 1 && fetched == []
        else |ls| <= last - first + 1 && FirstMissed(ls) && fetched == [Cover(o, first, last)])
  }

  /** Single-block fetches of the blocks that were missed. */
  ghost function Fetches(o: Object, ls: seq<Lookup>): seq<(nat, nat)> {
    if ls == [] then []
    else
      var (blk, hit) := ls[|ls| - 1];
      var before := Fetches(o, ls[..|ls| - 1]);
      if hit || !o.HasBlock(blk) then before else before + [Cover(o, blk, blk)]
  }

  /** What a prefetch did: it looked at no more than `count` blocks and fetched exactly those that were
      missed, except perhaps the last one, whose fetch failed. */
  ghost predicate Prefetched(o: Object, first: nat, count: nat, ls: seq<Lookup>, fetched: seq<(nat, nat)>) {
    && |ls| <= count && Looked(o, ls, first)
    && (fetched == Fetches(o, ls) || (ls != [] && !ls[|ls| - 1].1 && fetched == Fetches(o, ls[..|ls| - 1])))
  }

  /** Blocks `first` up to but not including `blk`, all found in the cache. */
  ghost predicate Collected(o: Object, first: nat, blk: nat, bs: seq<Bytes>, ls: seq<Lookup>) {
    |ls| == blk - first && Looked(o, ls, first) && AllHit(ls) && Flatten(bs) == o.Span(first, blk)
  }

  lemma CollectNext(o: Object, first: nat, blk: nat, bs: seq<Bytes>, ls: seq<Lookup>)
    requires first <= blk && o.HasBlock(blk) && Collected(o, first, blk, bs, ls)
    ensures Collected(o, first, blk + 1, bs + [o.Block(blk)], ls + [(blk, true)])
    ensures Looked(o, ls + [(blk, false)], first) && FirstMissed(ls + [(blk, false)])
  {
    LookedNext(o, ls, first, true);
    LookedNext(o, ls, first, false);
    BlocksTile(o, first, blk, bs);
  }

  /** The last look missed and all before it hit. */
  ghost predicate FirstMissed(ls: seq<Lookup>) {
    ls != [] && !ls[|ls| - 1].1 && AllHit(ls[..|ls| - 1])
  }

  lemma LookedNext(o: Object, ls: seq<Lookup>, first: nat, hit: bool)
    requires Looked(o, ls, first) && o.HasBlock(first + |ls|)
    ensures var longer := ls + [(first + |ls|, hit)];
            Looked(o, longer, first) && (AllHit(ls) ==> if hit then AllHit(longer) else FirstMissed(longer))
  {
    var longer: seq<Lookup> := ls + [(first + |ls|, hit)];
    assert longer[..|ls|] == ls && longer[|ls|] == (first + |ls|, hit);
    forall j | 0 <= j < |longer|
      ensures longer[j].0 == first + j && o.HasBlock(first + j) && (j < |ls| ==> longer[j] == ls[j])
    {
      if j < |ls| {
        assert ls[j].0 == first + j;
      }
    }
  }

  lemma FetchesNext(o: Object, ls: seq<Lookup>, l: Lookup)
    ensures Fetches(o, ls + [l]) ==
            if l.1 || !o.HasBlock(l.0) then Fetches(o, ls) else Fetches(o, ls) + [Cover(o, l.0, l.0)]
  {
    assert (ls + [l])[..|ls|] == ls;
  }

  function Flatten(bs: seq<Bytes>): Bytes {
    if bs == [] then [] else Flatten(bs[..|bs| - 1]) + bs[|bs| - 1]
  }

  lemma FlattenNext(bs: seq<Bytes>, b: Bytes)
    ensures Flatten(bs + [b]) == Flatten(bs) + b
  {
    assert (bs + [b])[..|bs|] == bs;
  }

  /** Appending the next block extends the slice to that block's end. */
  lemma BlocksTile(o: Object, first: nat, blk: nat, bs: seq<Bytes>)
    requires first <= blk && o.HasBlock(blk)
    requires Flatten(bs) == o.Span(first, blk)
    ensures Flatten(bs + [o.Block(blk)]) == o.Span(first, blk + 1)
  {
    AtMonotone(o, first, blk);
    AtMonotone(o, blk, blk + 1);
    FlattenNext(bs, o.Block(blk));
    SlicesJoin(o.data, o.At(first), o.At(blk), o.At(blk + 1));
  }

  /** The piece of a span that holds one of its blocks. */
  lemma BlockInSpan(o: Object, first: nat, blk: nat, last: nat)
    requires first <= blk <= last && o.HasBlock(last)
    ensures o.HasBlock(blk)
    ensures o.At(first) <= o.At(blk) <= o.End(blk) <= o.At(last + 1)
    ensures |o.Span(first, last + 1)| == o.At(last + 1) - o.At(first)
    ensures o.Span(first, last + 1)[o.At(blk) - o.At(first)..o.End(blk) - o.At(first)] == o.Block(blk)
  {
    AtMonotone(o, first, blk);
    AtMonotone(o, blk, last);
    AtMonotone(o, blk, blk + 1);
    AtMonotone(o, blk + 1, last + 1);
    SliceOfSlice(o.data, o.At(first), o.At(blk), o.End(blk), o.At(last + 1));
  }

  /** The piece of fetched blocks that the splitting loop cuts out for one of them. */
  lemma CutBlock(o: Object, first: nat, blk: nat, last: nat, data: Bytes, offset: nat, length: nat)
    requires first <= blk <= last && o.HasBlock(last) && data == o.Span(first, last + 1)
    requires offset == o.At(blk) - o.At(first) && length == o.End(blk) - o.At(blk)
    ensures o.HasBlock(blk) && offset + length <= |data|
    ensures data[offset..offset + length] == o.Block(blk)
  {
    BlockInSpan(o, first, blk, last);
    assert offset + length == o.End(blk) - o.At(first);
  }

  /** The block that holds a position. */
  lemma BlockOf(o: Object, pos: nat)
    requires pos < |o.data|
    ensures o.HasBlock(pos / BLOCK)
    ensures o.At(pos / BLOCK) == pos / BLOCK * BLOCK <= pos < o.End(pos / BLOCK)
    ensures o.End(pos / BLOCK) == Min((pos / BLOCK + 1) * BLOCK, |o.data|)
  {
    var blk := pos / BLOCK;
    assert blk * BLOCK <= pos < (blk + 1) * BLOCK;
    BlockFacts(o, blk);
  }

  /** The blocks that cover an interval, and where the interval lies in them. */
  lemma CoverInterval(o: Object, start: nat, end: nat)
    requires start <= end < |o.data|
    ensures var first, last := start / BLOCK, end / BLOCK;
            && first <= last && o.HasBlock(last)
            && o.At(first) == first * BLOCK <= start
            && end < o.End(last) == Min((last + 1) * BLOCK, |o.data|)
            && |o.Span(first, last + 1)| == o.End(last) - o.At(first)
            && o.Span(first, last + 1)[start - o.At(first)..end + 1 - o.At(first)] == o.data[start..end + 1]
  {
    var first, last := start / BLOCK, end / BLOCK;
    BlockOf(o, start);
    BlockOf(o, end);
    BlocksInOrder(start, end);
    AtMonotone(o, first, last);
    AtMonotone(o, last, last + 1);
    SliceOfSlice(o.data, o.At(first), start, end + 1, o.End(last));
  }

  lemma BlocksInOrder(start: nat, end: nat)
    requires start <= end
    ensures start / BLOCK <= end / BLOCK
  {
  }

  lemma PrefetchNext(o: Object, first: nat, ls: seq<Lookup>, hit: bool, was: seq<(nat, nat)>)
    requires Looked(o, ls, first) && o.HasBlock(first + |ls|)
    ensures var blk := first + |ls|;
            var longer := ls + [(blk, hit)];
            && Looked(o, longer, first) && longer[..|longer| - 1] == ls
            && was + Fetches(o, longer) == was + Fetches(o, ls) + (if hit then [] else [Cover(o, blk, blk)])
  {
    LookedNext(o, ls, first, hit);
    FetchesNext(o, ls, (first + |ls|, hit));
  }

  /** Joining the cached blocks. */
  method Concatenated(blocks: seq<Bytes>) returns (all: Bytes)
    ensures all == Flatten(blocks)
  {
    all := [];
    for i := 0 to |blocks|
      invariant all == Flatten(blocks[..i])
    {
      assert blocks[..i + 1][..i] == blocks[..i];
      all := all + blocks[i];
    }
    assert blocks[..|blocks|] == blocks;
  }

  class RangeHandler {
    const cache: LRUCache
    const backend: Backend
    const world: seq<Object>               // all objects read through the cache
    const around: Around                   // what goes on meanwhile

    constructor (cache: LRUCache, backend: Backend, world: seq<Object>, around: Around)
      requires cache.Valid() && backend.obj in world && Apart(world) && AllCorrect(world, cache.files)
      ensures this.cache == cache && this.backend == backend && this.world == world && this.around == around
      ensures Valid()
    {
      this.cache, this.backend, this.world, this.around := cache, backend, world, around;
    }

    function Limits(): Settings {
      Settings(cache.maxBytes, cache.ttl)
    }

    /** No two objects have a file in common, and every file of each holds its bytes. */
    ghost predicate Valid()
      reads this, cache
    {
      backend.obj in world && Apart(world) && cache.Valid() && AllCorrect(world, cache.files)
    }

    // ---------- everybody else ----------

    /** Any one permitted operation on the cache. */
    method OtherOperation()
      requires Valid()
      modifies cache
      ensures Valid()
    {
      ghost var c := cache.Contents();
      var kind: int := *;
      if kind == 0 {
        var key: string, now: int, used: int := *, *, *;
        var _ := cache.Get(key, now, used);
        StepKeepsCorrect(world, Settings(cache.maxBytes, cache.ttl), c, GetOp(key, now, used));
      } else if kind == 1 {
        var key: string, removable: bool := *, *;
        var ok := cache.Delete(key, removable);
        StepKeepsCorrect(world, Settings(cache.maxBytes, cache.ttl), c, DeleteOp(key, ok));
      } else if kind == 2 {
        var now: int := *;
        cache.SweepExpired(now);
        StepKeepsCorrect(world, Settings(cache.maxBytes, cache.ttl), c, SweepOp(now));
      } else if kind == 3 {
        var stuck: set<string> := *;
        ghost var ok, removed;
        ok, removed := cache.Clear(stuck);
        StepKeepsCorrect(world, Settings(cache.maxBytes, cache.ttl), c, ClearOp(ok, removed));
      } else {
        OtherStore();
      }
    }

    /** Some request stores a block of an object, or all of it. */
    method OtherStore()
      requires Valid()
      modifies cache
      ensures Valid()
    {
      var i: int, blk: int, whole: bool := *, *, *;
      if 0 <= i < |world| {
        var o := world[i];
        if whole && 0 < |o.data| <= WHOLE_LIMIT {
          assert WholeEntry(o, o.Whole(), o.data);
          var _ := StoreEntry(o.Whole(), o.data, i);
        } else if blk >= 0 && o.HasBlock(blk) {
          assert BlockEntry(o, blk, o.KeyOf(blk), o.Block(blk));
          var _ := StoreEntry(o.KeyOf(blk), o.Block(blk), i);
        }
      }
    }

    /** Puts an entry of some object into the cache; the disk may fail in any way. */
    method StoreEntry(key: string, data: Bytes, ghost i: nat) returns (ok: bool)
      requires Valid() && i < |world| && Entry(world[i], key, data)
      modifies cache
      ensures Valid()
      ensures around.Quiet? ==>
                cache.Contents() == Store(Limits(), old(cache.Contents()), (key, data), around.now)
                && ok == (|data| <= cache.maxBytes)
    {
      var readable: bool, copied: bool := *, *;
      var created: int, used: int, base: int := *, *, *;
      if around.Quiet? {
        readable, copied, created, used, base := true, true, around.now, around.now, around.now;
      }
      StoreIsPut(Limits(), cache.Contents(), key, data, base);
      ok := StoreSource(key, if readable then Some(data) else None, copied, created, used, base, data, i);
    }

    method StoreSource(key: string, source: Option<Bytes>, copied: bool, created: int, used: int, base: int,
                       ghost data: Bytes, ghost i: nat) returns (ok: bool)
      requires Valid() && i < |world| && Entry(world[i], key, data) && (source.Some? ==> source.value == data)
      modifies cache
      ensures Valid()
      ensures (cache.Contents(), ok)
           == PutSpec(old(cache.Contents()), key, source, copied, used, base + cache.ttl, cache.maxBytes)
    {
      ghost var c := cache.Contents();
      ok := cache.Put(key, source, copied, created, used, base);
      StepKeepsCorrect(world, Settings(cache.maxBytes, cache.ttl), c, PutOp(key, source, copied, used, base));
    }

    /** Other requests, prefetches, invalidations and the expiry sweep do anything that is permitted. */
    method Interfere()
      requires Valid()
      modifies cache
      ensures Valid()
      ensures around.Quiet? ==> cache.Contents() == old(cache.Contents())
    {
      var operations: int := *;
      if around.Quiet? {
        return;
      }
      while operations > 0
        invariant Valid()
      {
        OtherOperation();
        operations := operations - 1;
      }
    }

    // ---------- this request ----------

    /** Key and bounds of one block, as the loops compute them. */
    method BlockBounds(blk: nat, size: nat) returns (bStart: nat, bEnd: nat, bKey: string)
      requires size == |backend.obj.data| && backend.obj.HasBlock(blk)
      ensures bStart == backend.obj.At(blk) && bEnd + 1 == backend.obj.End(blk) && bStart <= bEnd
      ensures bStart == blk * BLOCK
      ensures bKey == backend.obj.KeyOf(blk)
    {
      bStart := blk * BLOCK;
      bEnd := bStart + BLOCK - 1;
      if bEnd >= size {
        bEnd := size - 1;
      }
      bKey := BlockKey(backend.obj.bucket, backend.obj.key, bStart, bEnd);
    }

    /** Looks up one block and then reads its file, as one step; others act before, between and after. */
    method ReadBlock(blk: nat, size: nat) returns (data: Option<Bytes>)
      requires Valid() && backend.obj.HasBlock(blk) && size == |backend.obj.data|
      modifies cache
      ensures Valid()
      ensures data.Some? ==> data.value == backend.obj.Block(blk)
      ensures around.Quiet? ==>
                cache.Contents() == Look(old(cache.Contents()), backend.obj.KeyOf(blk), around.now)
                && (data.Some? <==> Held(old(cache.Contents()), backend.obj.KeyOf(blk), around.now))
    {
      var _, _, key := BlockBounds(blk, size);
      var now: int, used: int, readable: bool := *, *, *;
      if around.Quiet? {
        now, used, readable := around.now, around.now, true;
      }
      Interfere();
      ghost var c := cache.Contents();
      var path := cache.Get(key, now, used);
      StepKeepsCorrect(world, Settings(cache.maxBytes, cache.ttl), c, GetOp(key, now, used));
      Interfere();
      if path.Some? && path.value in cache.files && readable {
        data := Some(cache.files[path.value]);
        BlockFileCorrect(world, cache.files, backend.obj, blk);
      } else {
        data := None;
      }
    }

    method CacheBlock(key: string, data: Bytes, ghost blk: nat) returns (ok: bool)
      requires Valid() && BlockEntry(backend.obj, blk, key, data)
      modifies cache
      ensures Valid()
      ensures around.Quiet? ==>
                cache.Contents() == Store(Limits(), old(cache.Contents()), (key, data), around.now)
                && ok == (|data| <= cache.maxBytes)
    {
      Interfere();
      ghost var i :| 0 <= i < |world| && world[i] == backend.obj;
      ok := StoreEntry(key, data, i);
    }

    /** One step of the loop that collects cached blocks. */
    method ReadNext(startBlock: nat, blk: nat, size: nat, found: seq<Bytes>, ghost ls: seq<Lookup>,
                    ghost endBlock: nat, ghost before: Cache)
      returns (next: Option<seq<Bytes>>)
      requires Valid() && startBlock <= blk && backend.obj.HasBlock(blk) && size == |backend.obj.data|
      requires Collected(backend.obj, startBlock, blk, found, ls)
      requires blk <= endBlock && (around.Quiet? ==> QuietFound(before, startBlock, blk, endBlock))
      modifies cache
      ensures Valid()
      ensures next.Some? ==> Collected(backend.obj, startBlock, blk + 1, next.value, ls + [(blk, true)])
      ensures next.None? ==> Looked(backend.obj, ls + [(blk, false)], startBlock) && FirstMissed(ls + [(blk, false)])
      ensures around.Quiet? ==>
                if next.Some? then QuietFound(before, startBlock, blk + 1, endBlock)
                else QuietMissed(before, startBlock, endBlock)
    {
      ghost var c := cache.Contents();
      var data := ReadBlock(blk, size);
      CollectNext(backend.obj, startBlock, blk, found, ls);
      next := if data.Some? then Some(found + [data.value]) else None;
      if around.Quiet? {
        LookOnce(world, Limits(), before, c, backend.obj, startBlock, blk, endBlock + 1, around.now);
      }
    }

    /** What a quiet request knows in the middle of the loop, and what when a block is missing. */
    ghost predicate QuietFound(before: Cache, startBlock: nat, blk: nat, endBlock: nat)
      requires around.Quiet?
      reads this, cache, backend
    {
      FoundUpTo(world, before, cache.Contents(), backend.obj, startBlock, blk, endBlock + 1, around.now)
    }

    ghost predicate QuietMissed(before: Cache, startBlock: nat, endBlock: nat)
      requires around.Quiet?
      reads this, cache, backend
    {
      MissedOne(world, before, cache.Contents(), backend.obj, startBlock, endBlock + 1, around.now)
    }

    /** Tries to take every block from the cache, in order; stops at the first one missing. */
    method ReadBlocks(startBlock: nat, endBlock: nat, size: nat)
      returns (blocks: Option<seq<Bytes>>, ghost ls: seq<Lookup>)
      requires Valid() && size == |backend.obj.data|
      requires startBlock <= endBlock && backend.obj.HasBlock(endBlock)
      modifies cache
      ensures Valid() && |ls| <= endBlock - startBlock + 1
      ensures blocks.Some? ==> Collected(backend.obj, startBlock, endBlock + 1, blocks.value, ls)
      ensures blocks.None? ==> Looked(backend.obj, ls, startBlock) && FirstMissed(ls)
      ensures around.Quiet? ==>
                if blocks.Some? then QuietFound(old(cache.Contents()), startBlock, endBlock + 1, endBlock)
                else QuietMissed(old(cache.Contents()), startBlock, endBlock)
    {
      ghost var before := cache.Contents();
      var found: Option<seq<Bytes>> := Some([]);
      var blk := startBlock;
      ls := [];
      while blk <= endBlock
        invariant Valid() && startBlock <= blk <= endBlock + 1
        invariant found.Some? && Collected(backend.obj, startBlock, blk, found.value, ls)
        invariant around.Quiet? ==> QuietFound(before, startBlock, blk, endBlock)
      {
        AtMonotone(backend.obj, blk, endBlock);
        found := ReadNext(startBlock, blk, size, found.value, ls, endBlock, before);
        ls := ls + [(blk, found.Some?)];
        if found.None? {
          return None, ls;
        }
        blk := blk + 1;
      }
      return found, ls;
    }

    /** It has stored the blocks from `startBlock` up to but not including `blk`. */
    ghost predicate QuietStores(before: Cache, startBlock: nat, blk: nat)
      requires around.Quiet? && startBlock <= blk
      reads this, cache, backend
    {
      cache.Contents() == AfterStores(Limits(), before, backend.obj, startBlock, blk - startBlock, around.now)
    }

    /** Cuts block `blk` out of the fetched chunk and caches it. */
    method CachePiece(data: Bytes, bufOffset: nat, startBlock: nat, blk: nat, endBlock: nat, size: nat, ghost before: Cache)
      returns (next: nat)
      requires Valid() && size == |backend.obj.data|
      requires startBlock <= blk <= endBlock && backend.obj.HasBlock(endBlock)
      requires data == backend.obj.Span(startBlock, endBlock + 1)
      requires bufOffset == backend.obj.At(blk) - backend.obj.At(startBlock)
      requires around.Quiet? ==> QuietStores(before, startBlock, blk)
      modifies cache
      ensures Valid() && next == backend.obj.At(blk + 1) - backend.obj.At(startBlock)
      ensures around.Quiet? ==> QuietStores(before, startBlock, blk + 1)
    {
      AtMonotone(backend.obj, blk, endBlock);
      var bStart, bEnd, bKey := BlockBounds(blk, size);
      var bLen := bEnd - bStart + 1;
      CutBlock(backend.obj, startBlock, blk, endBlock, data, bufOffset, bLen);
      var _ := CacheBlock(bKey, data[bufOffset..bufOffset + bLen], blk);
      return bufOffset + bLen;
    }

    /** Splits the fetched chunk at block boundaries and caches each piece. */
    method CacheBlocks(data: Bytes, startBlock: nat, endBlock: nat, size: nat)
      requires Valid() && size == |backend.obj.data|
      requires startBlock <= endBlock && backend.obj.HasBlock(endBlock)
      requires data == backend.obj.Span(startBlock, endBlock + 1)
      modifies cache
      ensures Valid()
      ensures around.Quiet? ==> QuietStores(old(cache.Contents()), startBlock, endBlock + 1)
    {
      ghost var before := cache.Contents();
      var bufOffset := 0;
      var blk := startBlock;
      while blk <= endBlock
        invariant Valid() && startBlock <= blk <= endBlock + 1
        invariant around.Quiet? ==> QuietStores(before, startBlock, blk)
        invariant bufOffset == backend.obj.At(blk) - backend.obj.At(startBlock)
      {
        bufOffset := CachePiece(data, bufOffset, startBlock, blk, endBlock, size, before);
        blk := blk + 1;
      }
    }

    /** What a quiet request has made of the range, having fetched it or not. */
    ghost predicate QuietReused(before: Cache, startBlock: nat, endBlock: nat, fetched: bool)
      requires around.Quiet?
      reads this, cache, backend
    {
      Reused(world, Limits(), before, cache.Contents(), backend.obj, startBlock, endBlock + 1, around.now, fetched)
    }

    /** One fetch of the covering blocks, each of which is then cached. */
    method FetchBlocks(startBlock: nat, endBlock: nat, size: nat, chunkStart: nat, chunkLen: nat, ghost before: Cache)
      returns (buf: Option<Bytes>)
      requires Valid() && size == |backend.obj.data|
      requires startBlock <= endBlock && backend.obj.HasBlock(endBlock)
      requires chunkStart == backend.obj.At(startBlock) && chunkStart + chunkLen == backend.obj.End(endBlock)
      requires around.Quiet? ==> QuietMissed(before, startBlock, endBlock)
      modifies cache, backend
      ensures Valid()
      ensures buf.None? ==> backend.failures > old(backend.failures)
      ensures buf.Some? ==> buf.value == backend.obj.Span(startBlock, endBlock + 1)
      ensures buf.Some? ==> backend.log == old(backend.log) + [(chunkStart, chunkLen)]
      ensures around.Quiet? ==>
                if buf.Some? then QuietReused(before, startBlock, endBlock, true)
                else QuietMissed(before, startBlock, endBlock)
    {
      buf := backend.GetObjectRange(chunkStart, chunkLen);
      AtMonotone(backend.obj, startBlock, endBlock + 1);
      if buf.Some? {
        ghost var c := cache.Contents();
        LinkedView(cache.entries, cache.lruList, cache.heap);
        CacheBlocks(buf.value, startBlock, endBlock, size);
        if around.Quiet? {
          FetchedIsReused(world, Limits(), before, c, backend.obj, startBlock, endBlock + 1 - startBlock, around.now);
        }
      }
    }

    /** The bytes of the covering blocks: all from the cache, or all from one fetch. */
    method ReadOrFetch(startBlock: nat, endBlock: nat, size: nat, chunkStart: nat, chunkLen: nat)
      returns (buf: Option<Bytes>, ghost ls: seq<Lookup>)
      requires Valid() && size == |backend.obj.data|
      requires startBlock <= endBlock && backend.obj.HasBlock(endBlock)
      requires chunkStart == backend.obj.At(startBlock) && chunkStart + chunkLen == backend.obj.End(endBlock)
      modifies cache, backend
      ensures Valid()
      ensures buf.None? ==> backend.failures > old(backend.failures)
      ensures buf.Some? ==> buf.value == backend.obj.Span(startBlock, endBlock + 1)
      ensures buf.Some? ==> old(backend.log) <= backend.log
                            && Served(backend.obj, startBlock, endBlock, ls, backend.log[|old(backend.log)|..])
      ensures around.Quiet? && buf.Some? ==>
                QuietReused(old(cache.Contents()), startBlock, endBlock, backend.log != old(backend.log))
      ensures around.Quiet? && buf.None? ==> QuietMissed(old(cache.Contents()), startBlock, endBlock)
    {
      ghost var before := cache.Contents();
      var blocks;
      blocks, ls := ReadBlocks(startBlock, endBlock, size);
      if blocks.Some? {
        var all := Concatenated(blocks.value);
        return Some(all), ls;
      }
      buf := FetchBlocks(startBlock, endBlock, size, chunkStart, chunkLen, before);
    }

    /** The part of the handler after the Range header has been parsed. */
    method ServeInterval(start: nat, end: nat, size: nat) returns (resp: Response, ghost ls: seq<Lookup>)
      requires Valid() && start <= end < size == |backend.obj.data|
      modifies cache, backend
      ensures Valid()
      ensures resp == FallBack || resp == Partial(backend.obj.data[start..end + 1], start, end, size)
      ensures resp == FallBack ==> backend.failures > old(backend.failures)
      ensures resp != FallBack ==>
                old(backend.log) <= backend.log
                && Served(backend.obj, start / BLOCK, end / BLOCK, ls, backend.log[|old(backend.log)|..])
      ensures around.Quiet? && resp != FallBack ==>
                QuietReused(old(cache.Contents()), start / BLOCK, end / BLOCK, backend.log != old(backend.log))
      ensures around.Quiet? && resp == FallBack ==> QuietMissed(old(cache.Contents()), start / BLOCK, end / BLOCK)
    {
      CoverInterval(backend.obj, start, end);
      var length := end - start + 1;
      var startBlock, endBlock := start / BLOCK, end / BLOCK;
      var chunkStart := startBlock * BLOCK;
      var chunkEnd := (endBlock + 1) * BLOCK - 1;
      if chunkEnd >= size {
        chunkEnd := size - 1;
      }
      var chunkLen := chunkEnd - chunkStart + 1;
      var buf;
      buf, ls := ReadOrFetch(startBlock, endBlock, size, chunkStart, chunkLen);
      if buf.None? {
        return FallBack, ls;
      }
      var offset := start - chunkStart;
      var payloadEnd := Min(offset + length, |buf.value|);
      var payload := buf.value[offset..payloadEnd];
      return Partial(payload, start, start + |payload| - 1, size), ls;
    }

    /** Every response is the exact answer for the object, whatever others do to the cache between any
        two steps of the request, unless the storage failed or the object is empty and the request falls
        back.  Nothing is fetched if every block was found in the cache, and otherwise exactly the
        blocks that cover the range, at once. */
    method HandleRangeGet(header: string) returns (resp: Response, ghost ls: seq<Lookup>)
      requires Valid()
      modifies cache, backend
      ensures Valid()
      ensures resp != FallBack ==> |backend.obj.data| > 0 && Answers(backend.obj, header, resp)
      ensures resp == FallBack ==> |backend.obj.data| == 0 || backend.failures > old(backend.failures)
      ensures resp.Partial? ==>
                old(backend.log) <= backend.log && 0 <= resp.start <= resp.end
                && Served(backend.obj, resp.start / BLOCK, resp.end / BLOCK, ls, backend.log[|old(backend.log)|..])
                && (around.Quiet? ==>
                      QuietReused(old(cache.Contents()), resp.start / BLOCK, resp.end / BLOCK,
                                  backend.log != old(backend.log)))
    {
      ls := [];
      var head := backend.HeadObject();
      if head.None? || head.value <= 0 {
        return FallBack, ls;
      }
      match RangeHeader.ParseSingleRange(header, head.value) {
        case Multiple => resp := RangeError(true);
        case Invalid => resp := RangeError(false);
        case Interval(start, end) => resp, ls := ServeInterval(start, end, head.value);
      }
    }

    /** Looks for one block and, if it is missing, fetches and caches it; `more` tells whether the
        prefetch goes on. */
    method PrefetchBlock(blk: nat, size: nat) returns (hit: bool, more: bool)
      requires Valid() && backend.obj.HasBlock(blk) && size == |backend.obj.data|
      modifies cache, backend
      ensures Valid()
      ensures hit ==> more && backend.log == old(backend.log)
      ensures !hit ==> backend.log == old(backend.log) + [Cover(backend.obj, blk, blk)]
                       || (!more && backend.log == old(backend.log))
      ensures around.Quiet? ==> hit == Held(old(cache.Contents()), backend.obj.KeyOf(blk), around.now)
      ensures around.Quiet? && !more ==> backend.failures > old(backend.failures) || BLOCK > cache.maxBytes
      ensures backend.failures >= old(backend.failures)
    {
      var cached := ReadBlock(blk, size);
      if cached.Some? {
        return true, true;
      }
      var blockStart, blockEnd, bKey := BlockBounds(blk, size);
      var fetched := backend.GetObjectRange(blockStart, blockEnd - blockStart + 1);
      if fetched.None? {
        return false, false;
      }
      more := CacheBlock(bKey, fetched.value, blk);
      hit := false;
    }

    /** Caches up to `count` following blocks that are missing.  It fetches single blocks only, those
        it has just looked for in vain, while others use the cache as they like. */
    method PrefetchBlocks(startBlock: nat, count: nat) returns (ghost ls: seq<Lookup>)
      requires Valid()
      modifies cache, backend
      ensures Valid() && old(backend.log) <= backend.log
      ensures Prefetched(backend.obj, startBlock, count, ls, backend.log[|old(backend.log)|..])
      ensures around.Quiet? && backend.failures == old(backend.failures) && BLOCK <= cache.maxBytes ==>
                |ls| == count || !backend.obj.HasBlock(startBlock + |ls|)
    {
      var totalSize := |backend.obj.data|;
      ls := [];
      ghost var was := backend.log;
      for i := 0 to count
        invariant Valid() && |ls| == i && Looked(backend.obj, ls, startBlock)
        invariant backend.failures >= old(backend.failures)
        invariant backend.log == was + Fetches(backend.obj, ls)
      {
        var blk := startBlock + i;
        if blk * BLOCK >= totalSize {
          return;
        }
        var hit, more := PrefetchBlock(blk, totalSize);
        PrefetchNext(backend.obj, startBlock, ls, hit, was);
        ls := ls + [(blk, hit)];
        if !more {
          return;
        }
      }
    }
  }

  /** The same range asked for twice while nothing else goes on, the second time before the blocks expire:
      the second answer is the first one, and needs nothing from the storage. */
  method AskTwice(first: RangeHandler, again: RangeHandler, header: string)
    returns (one: Response, two: Response, ghost fetched: bool, ghost log: seq<(nat, nat)>)
    requires first.Valid() && first.around.Quiet? && Tidy(first.world, first.cache.Contents())
    requires again.cache == first.cache && again.backend == first.backend && again.world == first.world
    requires again.around.Quiet? && again.around.now <= first.around.now + first.cache.ttl
    requires |first.backend.obj.data| <= first.cache.maxBytes
    modifies first.cache, first.backend
    ensures first.Valid() && again.Valid()
    ensures one.Partial? && two.Partial? ==> one == two
    ensures fetched <==> log != old(first.backend.log)
    ensures one.Partial? && two.Partial? && (fetched || again.around.now <= first.around.now) ==>
              first.backend.log == log
  {
    ghost var before, ls1, ls2 := first.cache.Contents(), [], [];
    one, ls1 := first.HandleRangeGet(header);
    log := first.backend.log;
    fetched := log != old(first.backend.log);
    if one.Partial? {
      HeldAgain(first.world, first.Limits(), before, first.cache.Contents(), first.backend.obj, one.start / BLOCK,
                one.end / BLOCK + 1, first.around.now, fetched, again.around.now);
    }
    two, ls2 := again.HandleRangeGet(header);
  }
}
