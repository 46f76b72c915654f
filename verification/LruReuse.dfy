/** Entries stored one after another while nobody else uses the cache: they are all held as long as they fit,
    and looking one of them up does not take away another. */
module LruReuse {
  import opened Text
  import opened LruCache
  import opened LruPolicy
  import opened LruTimes

  type Entries = seq<(string, Bytes)>

  /** The key is served at this time. */
  predicate Held(c: Cache, key: string, now: int) {
    GetSpec(c, key, now, now).1
  }

  ghost predicate AllHeld(c: Cache, es: Entries, now: int) {
    forall i :: 0 <= i < |es| ==> Held(c, es[i].0, now)
  }

  /** The entries have files of their own. */
  ghost predicate OwnFiles(es: Entries) {
    forall i, j :: 0 <= i < j < |es| ==> Escape(es[i].0) != Escape(es[j].0)
  }

  function Look(c: Cache, key: string, now: int): Cache {
    GetSpec(c, key, now, now).0
  }

  function Store(s: Settings, c: Cache, e: (string, Bytes), now: int): Cache {
    Step(s, c, PutOp(e.0, Some(e.1), true, now, now))
  }

  /** The cache after all these have been stored. */
  function AllStored(s: Settings, c: Cache, es: Entries, now: int): Cache {
    if es == [] then c else Store(s, AllStored(s, c, es[..|es| - 1], now), es[|es| - 1], now)
  }

  lemma StoreIsPut(s: Settings, c: Cache, key: string, data: Bytes, now: int)
    ensures PutSpec(c, key, Some(data), true, now, now + s.ttl, s.maxBytes)
         == (Store(s, c, (key, data), now), |data| <= s.maxBytes)
  {
  }

  lemma StoredNext(s: Settings, c: Cache, es: Entries, e: (string, Bytes), now: int)
    ensures AllStored(s, c, es + [e], now) == Store(s, AllStored(s, c, es, now), e, now)
  {
    assert (es + [e])[..|es|] == es;
  }

  // ---------- looking up ----------

  lemma {:induction false} FindWithout(v: seq<Item>, gone: set<string>, key: string)
    requires key !in gone
    ensures Find(Without(v, gone), key) == Find(v, key)
  {
    if v != [] {
      FindWithout(v[1..], gone, key);
      assert v[0].key !in gone ==> ([v[0]] + Without(v[1..], gone))[1..] == Without(v[1..], gone);
    }
  }

  lemma {:induction false} FindConcat(v: seq<Item>, w: seq<Item>, key: string)
    ensures Find(v + w, key) == if Find(v, key).Some? then Find(v, key) else Find(w, key)
  {
    if v == [] {
      assert v + w == w;
    } else {
      assert (v + w)[1..] == v[1..] + w;
      FindConcat(v[1..], w, key);
    }
  }

  lemma {:induction false} FindGone(v: seq<Item>, key: string)
    ensures Find(Without(v, {key}), key) == None
  {
    if v != [] {
      FindGone(v[1..], key);
      assert v[0].key != key ==> ([v[0]] + Without(v[1..], {key}))[1..] == Without(v[1..], {key});
    }
  }

  lemma TouchedIsHeld(c: Cache, key: string, now: int)
    requires Held(c, key, now)
    ensures Held(Look(c, key, now), key, now)
  {
    var touched := [Find(c.items, key).value.(lastUsed := now)];
    FindGone(c.items, key);
    FindConcat(Without(c.items, {key}), touched, key);
    assert Find(touched, key) == Some(touched[0]);
  }

  lemma OtherStaysFound(c: Cache, key: string, other: string, now: int)
    requires other != key
    ensures Find(Look(c, other, now).items, key) == Find(c.items, key)
  {
    var found := Find(c.items, other);
    FindWithout(c.items, {other}, key);
    if found.Some? {
      var touched := [found.value.(lastUsed := now)];
      FindConcat(Without(c.items, {other}), touched, key);
      assert Find(touched, key) == None;
    }
  }

  /** Looking up one key does not take away another that has a file of its own. */
  lemma LookKeeps(c: Cache, key: string, other: string, now: int)
    requires Held(c, key, now) && (Escape(other) == Escape(key) ==> other == key)
    ensures Held(Look(c, other, now), key, now)
  {
    if other == key {
      TouchedIsHeld(c, key, now);
    } else {
      OtherStaysFound(c, key, other, now);
      assert Escape(key) in Look(c, other, now).files;
    }
  }

  // ---------- storing ----------

  function Made(s: Settings, e: (string, Bytes), now: int): Item {
    Item(e.0, |e.1|, now, now + s.ttl)
  }

  /** The items of entries just stored. */
  function Fresh(s: Settings, es: Entries, now: int): seq<Item> {
    seq(|es|, i requires 0 <= i < |es| => Made(s, es[i], now))
  }

  lemma FreshNext(s: Settings, es: Entries, e: (string, Bytes), now: int)
    ensures Fresh(s, es + [e], now) == Fresh(s, es, now) + [Made(s, e, now)]
  {
  }

  lemma FreshTotal(s: Settings, es: Entries, e: (string, Bytes), now: int)
    ensures Total(Fresh(s, es + [e], now)) == Total(Fresh(s, es, now)) + |e.1|
  {
    FreshNext(s, es, e, now);
    TotalConcat(Fresh(s, es, now), [Made(s, e, now)]);
  }

  /** The last items are those of the entries just stored, which have files of their own. */
  ghost predicate EndsFresh(s: Settings, c: Cache, front: seq<Item>, es: Entries, now: int) {
    && c.items == front + Fresh(s, es, now) && DistinctKeys(c.items)
    && forall i :: 0 <= i < |es| ==> Escape(es[i].0) in c.files
  }

  lemma {:induction false} WithoutConcat(v: seq<Item>, w: seq<Item>, gone: set<string>)
    ensures Without(v + w, gone) == Without(v, gone) + Without(w, gone)
  {
    if v == [] {
      assert v + w == w;
    } else {
      assert (v + w)[1..] == v[1..] + w;
      WithoutConcat(v[1..], w, gone);
    }
  }

  lemma {:induction false} KeysConcat(v: seq<Item>, w: seq<Item>)
    ensures Keys(v + w) == Keys(v) + Keys(w)
  {
    if v == [] {
      assert v + w == w;
    } else {
      assert (v + w)[1..] == v[1..] + w;
      KeysConcat(v[1..], w);
    }
  }

  lemma FreshKeys(s: Settings, es: Entries, now: int, key: string)
    ensures key in Keys(Fresh(s, es, now)) <==> exists i :: 0 <= i < |es| && es[i].0 == key
  {
    KeysByIndex(Fresh(s, es, now));
    if i :| 0 <= i < |es| && es[i].0 == key {
      assert Fresh(s, es, now)[i].key == key;
    }
  }

  /** The cache with one more entry put after others, before anything is evicted. */
  function Full(c: Cache, e: (string, Bytes), added: Item): Cache {
    Cache(Without(c.items, {e.0}) + [added], Drop(c, {e.0}).files[Escape(e.0) := e.1])
  }

  /** An eviction stops before the entries just stored, if they fit. */
  lemma EvictionStops(kept: seq<Item>, news: seq<Item>, k: nat, limit: int)
    requires k <= |kept + news| && Total(news) <= limit
    requires forall j :: 0 <= j < k ==> Total((kept + news)[j..]) > limit
    ensures k <= |kept|
    ensures (kept + news)[k..] == kept[k..] + news && (kept + news)[..k] == kept[..k]
  {
    assert (kept + news)[|kept|..] == news;
  }

  lemma EvictFront(full: Cache, kept: seq<Item>, news: seq<Item>, limit: int) returns (k: nat)
    requires full.items == kept + news && DistinctKeys(full.items) && Total(news) <= limit
    ensures k <= |kept| && Evict(full, limit) == Cache(kept[k..] + news, full.files - Names(Keys(kept[..k])))
  {
    k := EvictIsSuffix(full, limit);
    EvictionStops(kept, news, k, limit);
    var after := Evict(full, limit);
    assert full.items[k..] == kept[k..] + news && full.items[..k] == kept[..k];
    assert after == Cache(after.items, after.files);
  }

  lemma KeptAndNew(s: Settings, c: Cache, front: seq<Item>, es: Entries, e: (string, Bytes), now: int)
    requires c.items == front + Fresh(s, es, now) && forall i :: 0 <= i < |es| ==> es[i].0 != e.0
    ensures Full(c, e, Made(s, e, now)).items == Without(front, {e.0}) + Fresh(s, es + [e], now)
  {
    var news := Fresh(s, es, now);
    FreshKeys(s, es, now, e.0);
    WithoutConcat(front, news, {e.0});
    WithoutNone(news, {e.0});
    FreshNext(s, es, e, now);
    assert Without(front, {e.0}) + news + [Made(s, e, now)] == Without(front, {e.0}) + (news + [Made(s, e, now)]);
  }

  /** Storing one more entry drops some of the older ones from the front, and nothing else. */
  lemma StoreDrops(s: Settings, c: Cache, front: seq<Item>, es: Entries, e: (string, Bytes), now: int)
    returns (k: nat)
    requires c.items == front + Fresh(s, es, now) && forall i :: 0 <= i < |es| ==> es[i].0 != e.0
    requires DistinctKeys(c.items) && Total(Fresh(s, es + [e], now)) <= s.maxBytes && |e.1| <= s.maxBytes
    ensures var kept := Without(front, {e.0});
            k <= |kept| && Store(s, c, e, now) ==
            Cache(kept[k..] + Fresh(s, es + [e], now),
                  Full(c, e, Made(s, e, now)).files - Names(Keys(kept[..k])))
    ensures DistinctKeys(Full(c, e, Made(s, e, now)).items)
  {
    var kept, full := Without(front, {e.0}), Full(c, e, Made(s, e, now));
    KeptAndNew(s, c, front, es, e, now);
    InsertDistinct(c, e.0, Made(s, e, now));
    assert full == Insert(Drop(c, {e.0}), e.0, e.1, now, now + s.ttl);
    k := EvictFront(full, kept, Fresh(s, es + [e], now), s.maxBytes);
  }

  /** Their files stay, if no other entry has a file of the same name. */
  lemma FilesStay(c: Cache, e: (string, Bytes), added: Item, gone: set<string>, key: string, keys: set<string>)
    requires NamesDiffer(keys) && gone + {e.0, key} <= keys && key !in gone
    requires key == e.0 || Escape(key) in c.files
    ensures Escape(key) in Full(c, e, added).files - Names(gone)
  {
  }

  lemma {:induction false} DistinctConcat(v: seq<Item>, w: seq<Item>)
    requires DistinctKeys(v + w)
    ensures Keys(v) !! Keys(w)
  {
    if v != [] {
      assert (v + w)[1..] == v[1..] + w;
      KeysConcat(v[1..], w);
      DistinctConcat(v[1..], w);
    }
  }

  /** What is dropped are keys of older entries, none of those stored. */
  lemma DroppedAreOld(s: Settings, c: Cache, front: seq<Item>, es: Entries, e: (string, Bytes), now: int, k: nat)
    requires c.items == front + Fresh(s, es, now) && DistinctKeys(c.items) && k <= |Without(front, {e.0})|
    ensures var kept := Without(front, {e.0});
            && Keys(kept[..k]) + Keys(kept[k..]) <= Keys(c.items)
            && e.0 !in Keys(kept[..k]) && Keys(kept[..k]) !! Keys(Fresh(s, es, now))
  {
    var kept := Without(front, {e.0});
    WithoutKeys(front, {e.0});
    KeysConcat(front, Fresh(s, es, now));
    DistinctConcat(front, Fresh(s, es, now));
    KeysConcat(kept[..k], kept[k..]);
    assert kept[..k] + kept[k..] == kept;
  }

  lemma FreshKeysNext(s: Settings, es: Entries, e: (string, Bytes), now: int)
    ensures Keys(Fresh(s, es + [e], now)) == Keys(Fresh(s, es, now)) + {e.0}
  {
    FreshNext(s, es, e, now);
    KeysAppend(Fresh(s, es, now), Made(s, e, now));
  }

  /** Storing one more entry after others leaves all of them at the end of the list, with their files. */
  lemma StoreNext(s: Settings, c: Cache, front: seq<Item>, es: Entries, e: (string, Bytes), now: int, keys: set<string>)
    returns (rest: seq<Item>)
    requires EndsFresh(s, c, front, es, now) && Total(Fresh(s, es + [e], now)) <= s.maxBytes && |e.1| <= s.maxBytes
    requires forall i :: 0 <= i < |es| ==> es[i].0 != e.0
    requires NamesDiffer(keys) && Keys(c.items) + {e.0} <= keys
    ensures EndsFresh(s, Store(s, c, e, now), rest, es + [e], now)
    ensures Keys(Store(s, c, e, now).items) <= keys
  {
    var kept := Without(front, {e.0});
    var k := StoreDrops(s, c, front, es, e, now);
    rest := kept[k..];
    StepDistinct(s, c, PutOp(e.0, Some(e.1), true, now, now));
    DroppedAreOld(s, c, front, es, e, now, k);
    KeysConcat(rest, Fresh(s, es + [e], now));
    KeysConcat(front, Fresh(s, es, now));
    FreshKeysNext(s, es, e, now);
    FilesAllStay(s, c, front, es, e, now, keys, k);
  }

  lemma FilesAllStay(s: Settings, c: Cache, front: seq<Item>, es: Entries, e: (string, Bytes), now: int,
                     keys: set<string>, k: nat)
    requires EndsFresh(s, c, front, es, now) && NamesDiffer(keys) && Keys(c.items) + {e.0} <= keys
    requires k <= |Without(front, {e.0})|
    ensures var files := Full(c, e, Made(s, e, now)).files - Names(Keys(Without(front, {e.0})[..k]));
            forall i :: 0 <= i < |es + [e]| ==> Escape((es + [e])[i].0) in files
  {
    var gone, all := Keys(Without(front, {e.0})[..k]), es + [e];
    DroppedAreOld(s, c, front, es, e, now, k);
    KeysConcat(front, Fresh(s, es, now));
    forall i | 0 <= i < |all| ensures Escape(all[i].0) in Full(c, e, Made(s, e, now)).files - Names(gone) {
      FreshKeys(s, es, now, all[i].0);
      FilesStay(c, e, Made(s, e, now), gone, all[i].0, keys);
    }
  }

  lemma {:induction false} TotalMonotone(s: Settings, es: Entries, n: nat, now: int)
    requires n <= |es|
    ensures Total(Fresh(s, es[..n], now)) <= Total(Fresh(s, es, now))
  {
    assert Fresh(s, es, now) == Fresh(s, es, now)[..n] + Fresh(s, es, now)[n..];
    TotalConcat(Fresh(s, es, now)[..n], Fresh(s, es, now)[n..]);
    assert Fresh(s, es, now)[..n] == Fresh(s, es[..n], now);
  }

  lemma {:induction false} StoredEnds(s: Settings, c: Cache, es: Entries, now: int, keys: set<string>)
    returns (front: seq<Item>)
    requires DistinctKeys(c.items) && NamesDiffer(keys) && Keys(c.items) <= keys
    requires OwnFiles(es) && forall i :: 0 <= i < |es| ==> es[i].0 in keys
    requires Total(Fresh(s, es, now)) <= s.maxBytes
    ensures EndsFresh(s, AllStored(s, c, es, now), front, es, now)
    ensures Keys(AllStored(s, c, es, now).items) <= keys
    decreases |es|
  {
    if es == [] {
      front := c.items;
      assert Fresh(s, es, now) == [] && front + [] == front;
    } else {
      var init, last := es[..|es| - 1], es[|es| - 1];
      assert init + [last] == es;
      TotalMonotone(s, es, |es| - 1, now);
      FreshTotal(s, init, last, now);
      var before := StoredEnds(s, c, init, now, keys);
      front := StoreNext(s, AllStored(s, c, init, now), before, init, last, now, keys);
    }
  }

  /** Entries that were just stored are held as long as their time to live, if they fit together and no other
      entry has a file of the same name as one of them. */
  lemma StoredAreHeld(s: Settings, c: Cache, es: Entries, now: int, later: int, keys: set<string>)
    requires DistinctKeys(c.items) && NamesDiffer(keys) && Keys(c.items) <= keys
    requires OwnFiles(es) && forall i :: 0 <= i < |es| ==> es[i].0 in keys
    requires Total(Fresh(s, es, now)) <= s.maxBytes && later <= now + s.ttl
    ensures AllHeld(AllStored(s, c, es, now), es, later)
  {
    var front := StoredEnds(s, c, es, now, keys);
    var after := AllStored(s, c, es, now);
    forall i | 0 <= i < |es| ensures Held(after, es[i].0, later) {
      var p := |front| + i;
      assert after.items[p] == Fresh(s, es, now)[i] == Made(s, es[i], now);
      FindAt(after.items, p);
    }
  }

  lemma {:induction false} FindAt(v: seq<Item>, i: nat)
    requires i < |v| && DistinctKeys(v)
    ensures Find(v, v[i].key) == Some(v[i])
  {
    if i > 0 {
      FindAt(v[1..], i - 1);
      KeysByIndex(v);
    }
  }
}
