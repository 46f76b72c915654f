/** The LRU cache with expiry: a recency list, an index by key, a byte counter and a directory of
    files.  The class refines a cache that is just a sequence of items and the file contents. */
module LruCache {
  import opened Text

  // ---------- the abstract cache ----------

  datatype Item = Item(key: string, size: nat, lastUsed: int, expires: int)

  /** Items from least to most recently used, and the files of the cache directory by name. */
  datatype Cache = Cache(items: seq<Item>, files: map<string, Bytes>)

  predicate IsPlain(c: char) {
    'a' <= c <= 'z' || 'A' <= c <= 'Z' || '0' <= c <= '9' || c == '.'
  }

  /** `escapeName`: the file name under which a key is stored. */
  function Escape(key: string): string {
    if key == "" then "" else [if IsPlain(key[0]) then key[0] else '_'] + Escape(key[1..])
  }

  function Total(v: seq<Item>): nat {
    if v == [] then 0 else v[0].size + Total(v[1..])
  }

  function Keys(v: seq<Item>): set<string> {
    if v == [] then {} else {v[0].key} + Keys(v[1..])
  }

  predicate DistinctKeys(v: seq<Item>) {
    v == [] || (v[0].key !in Keys(v[1..]) && DistinctKeys(v[1..]))
  }

  /** The items whose key is not in `gone`, in order. */
  function Without(v: seq<Item>, gone: set<string>): seq<Item> {
    if v == [] then []
    else if v[0].key in gone then Without(v[1..], gone)
    else [v[0]] + Without(v[1..], gone)
  }

  function Names(keys: set<string>): set<string> {
    set k | k in keys :: Escape(k)
  }

  lemma NamesAdd(keys: set<string>, key: string)
    ensures Names(keys + {key}) == Names(keys) + {Escape(key)}
  {
  }

  /** Removing entries removes their items and deletes their files. */
  function Drop(c: Cache, gone: set<string>): Cache {
    Cache(Without(c.items, gone), c.files - Names(gone * Keys(c.items)))
  }

  function Find(v: seq<Item>, key: string): (r: Option<Item>)
    ensures r.Some? ==> r.value in v && r.value.key == key
    ensures r.None? ==> forall i :: 0 <= i < |v| ==> v[i].key != key
  {
    if v == [] then None else if v[0].key == key then Some(v[0]) else Find(v[1..], key)
  }

  function GetSpec(c: Cache, key: string, now: int, used: int): (Cache, bool) {
    match Find(c.items, key)
    case None => (c, false)
    case Some(item) =>
      if now > item.expires || Escape(key) !in c.files then (Drop(c, {key}), false)
      else (Cache(Without(c.items, {key}) + [item.(lastUsed := used)], c.files), true)
  }

  /** Drops the least recently used items until the rest fits. */
  function Evict(c: Cache, maxBytes: int): Cache
    decreases |c.items|
  {
    if Total(c.items) > maxBytes && c.items != [] then
      WithoutKeys(c.items, {c.items[0].key});
      Evict(Drop(c, {c.items[0].key}), maxBytes)
    else c
  }

  function Insert(c: Cache, key: string, data: Bytes, used: int, expires: int): Cache {
    Cache(c.items + [Item(key, |data|, used, expires)], c.files[Escape(key) := data])
  }

  /** `copied` is false when the copy into the cache directory fails. */
  function PutSpec(c: Cache, key: string, source: Option<Bytes>, copied: bool, used: int, expires: int,
                         maxBytes: int): (Cache, bool) {
    if source.None? || |source.value| > maxBytes then (c, false)
    else
      var without := Drop(c, {key});
      if !copied then (without, false)
      else (Evict(Insert(without, key, source.value, used, expires), maxBytes), true)
  }

  function ExpiredKeys(v: seq<Item>, now: int): set<string> {
    if v == [] then {}
    else (if now > v[0].expires then {v[0].key} else {}) + ExpiredKeys(v[1..], now)
  }

  function SweepSpec(c: Cache, now: int): Cache {
    Drop(c, ExpiredKeys(c.items, now))
  }

  /** `Clear`; when it fails it has already deleted some files. */
  function ClearSpec(c: Cache, ok: bool, removed: set<string>): Cache {
    if ok then Drop(c, Keys(c.items)) else Cache(c.items, c.files - removed)
  }

  // ---------- facts about the abstract cache ----------

  lemma {:induction false} WithoutKeys(v: seq<Item>, gone: set<string>)
    ensures Keys(Without(v, gone)) == Keys(v) - gone
    ensures |Without(v, gone)| <= |v|
    ensures gone * Keys(v) != {} ==> |Without(v, gone)| < |v|
  {
    if v != [] {
      WithoutKeys(v[1..], gone);
      assert ([v[0]] + Without(v[1..], gone))[1..] == Without(v[1..], gone);
    }
  }

  lemma {:induction false} WithoutDistinct(v: seq<Item>, gone: set<string>)
    requires DistinctKeys(v)
    ensures DistinctKeys(Without(v, gone))
  {
    if v != [] {
      WithoutDistinct(v[1..], gone);
      WithoutKeys(v[1..], gone);
      assert ([v[0]] + Without(v[1..], gone))[1..] == Without(v[1..], gone);
    }
  }

  /** The recursive definitions, by position. */
  lemma {:induction false} KeysByIndex(v: seq<Item>)
    ensures forall i :: 0 <= i < |v| ==> v[i].key in Keys(v)
    ensures forall k :: k in Keys(v) ==> exists i :: 0 <= i < |v| && v[i].key == k
    ensures DistinctKeys(v) <==> forall i, j :: 0 <= i < j < |v| ==> v[i].key != v[j].key
  {
    if v != [] {
      var w := v[1..];
      KeysByIndex(w);
      assert forall i :: 0 < i < |v| ==> v[i] == w[i - 1];
      assert forall i :: 0 <= i < |w| ==> w[i] == v[i + 1];
    }
  }

  lemma {:induction false} WithoutNone(v: seq<Item>, gone: set<string>)
    requires gone !! Keys(v)
    ensures Without(v, gone) == v
  {
    if v != [] {
      WithoutNone(v[1..], gone);
    }
  }

  /** Removing one key of a duplicate-free sequence removes exactly that position. */
  lemma {:induction false} WithoutOne(v: seq<Item>, i: nat)
    requires i < |v| && DistinctKeys(v)
    ensures v[i].key in Keys(v)
    ensures Without(v, {v[i].key}) == v[..i] + v[i + 1..]
  {
    var w := v[1..];
    if i == 0 {
      WithoutNone(w, {v[0].key});
      assert v[..0] + v[1..] == w;
    } else {
      WithoutOne(w, i - 1);
      assert v[..i] + v[i + 1..] == [v[0]] + (w[..i - 1] + w[i..]);
    }
  }

  lemma {:induction false} WithoutTwice(v: seq<Item>, a: set<string>, b: set<string>)
    ensures Without(Without(v, a), b) == Without(v, a + b)
  {
    if v != [] {
      WithoutTwice(v[1..], a, b);
      assert ([v[0]] + Without(v[1..], a))[1..] == Without(v[1..], a);
    }
  }

  /** Removing two sets of entries one after the other removes both. */
  lemma DropTwice(c: Cache, a: set<string>, b: set<string>)
    ensures Drop(Drop(c, a), b) == Drop(c, a + b)
  {
    WithoutTwice(c.items, a, b);
    WithoutKeys(c.items, a);
    var first, second := a * Keys(c.items), b * (Keys(c.items) - a);
    assert first + second == (a + b) * Keys(c.items);
    assert Names(first) + Names(second) == Names(first + second);
    assert c.files - Names(first) - Names(second) == c.files - (Names(first) + Names(second));
  }

  lemma {:induction false} TotalConcat(v: seq<Item>, w: seq<Item>)
    ensures Total(v + w) == Total(v) + Total(w)
  {
    if v == [] {
      assert v + w == w;
    } else {
      assert (v + w)[1..] == v[1..] + w;
      TotalConcat(v[1..], w);
    }
  }

  lemma TotalRemove(v: seq<Item>, i: nat)
    requires i < |v|
    ensures Total(v[..i] + v[i + 1..]) == Total(v) - v[i].size
  {
    TotalConcat(v[..i], v[i + 1..]);
    TotalConcat(v[..i], v[i..]);
    assert v[..i] + v[i..] == v;
    assert v[i..][1..] == v[i + 1..];
  }

  lemma DropOne(c: Cache, i: nat)
    requires DistinctKeys(c.items) && i < |c.items|
    ensures Drop(c, {c.items[i].key})
         == Cache(c.items[..i] + c.items[i + 1..], c.files - {Escape(c.items[i].key)})
  {
    WithoutOne(c.items, i);
    var key := c.items[i].key;
    assert {key} * Keys(c.items) == {key} && Names({key}) == {Escape(key)};
  }

  lemma DropAbsent(c: Cache, key: string)
    requires key !in Keys(c.items)
    ensures Drop(c, {key}) == c
  {
    WithoutNone(c.items, {key});
    assert {key} * Keys(c.items) == {};
  }

  lemma DropNothing(c: Cache)
    ensures Drop(c, {}) == c
  {
    WithoutNone(c.items, {});
    assert {} * Keys(c.items) == {};
  }

  lemma DropAll(c: Cache)
    ensures Drop(c, Keys(c.items)) == Cache([], c.files - Names(Keys(c.items)))
  {
    WithoutKeys(c.items, Keys(c.items));
    assert Keys(c.items) * Keys(c.items) == Keys(c.items);
  }

  // ---------- the class ----------

  datatype CacheEntry = CacheEntry(
    key: string,
    filePath: string,
    fileSize: nat,
    createdAt: int,
    lastUsedAt: int,
    expiresAt: int)
  {
    function AsItem(): Item {
      Item(key, fileSize, lastUsedAt, expiresAt)
    }
  }

  /** A pointer to a list element; the list and the index share elements through it. */
  type Element = nat

  type Heap = map<Element, CacheEntry>

  type Index = map<string, Element>

  /** The list holds each element once, one per key, and the index maps exactly their keys. */
  predicate Linked(entries: Index, es: seq<Element>, heap: Heap) {
    if es == [] then entries == map[]
    else
      es[0] in heap &&
      var entry := heap[es[0]];
      && entry.filePath == Escape(entry.key)
      && entry.key in entries && entries[entry.key] == es[0]
      && Linked(entries - {entry.key}, es[1..], heap)
  }

  function View(es: seq<Element>, heap: Heap): seq<Item> {
    if es == [] then []
    else (if es[0] in heap then [heap[es[0]].AsItem()] else []) + View(es[1..], heap)
  }

  function RemoveAt(es: seq<Element>, i: nat): seq<Element>
    requires i < |es|
  {
    es[..i] + es[i + 1..]
  }

  lemma {:induction false} LinkedElement(entries: Index, es: seq<Element>, heap: Heap, e: Element)
    requires Linked(entries, es, heap) && e in es
    ensures e in heap && heap[e].filePath == Escape(heap[e].key)
    ensures heap[e].key in entries && entries[heap[e].key] == e
  {
    if e != es[0] {
      LinkedElement(entries - {heap[es[0]].key}, es[1..], heap, e);
    }
  }

  lemma {:induction false} LinkedKey(entries: Index, es: seq<Element>, heap: Heap, key: string)
    requires Linked(entries, es, heap) && key in entries
    ensures entries[key] in es && entries[key] in heap && heap[entries[key]].key == key
    ensures Find(View(es, heap), key) == Some(heap[entries[key]].AsItem())
  {
    var first := heap[es[0]].key;
    assert View(es, heap)[1..] == View(es[1..], heap);
    if key != first {
      LinkedKey(entries - {first}, es[1..], heap, key);
    }
  }

  lemma {:induction false} LinkedView(entries: Index, es: seq<Element>, heap: Heap)
    requires Linked(entries, es, heap)
    ensures Keys(View(es, heap)) == entries.Keys && DistinctKeys(View(es, heap))
    ensures |View(es, heap)| == |es|
    ensures forall i :: 0 <= i < |es| ==> es[i] in heap && View(es, heap)[i] == heap[es[i]].AsItem()
  {
    if es != [] {
      LinkedView(entries - {heap[es[0]].key}, es[1..], heap);
      assert View(es, heap)[1..] == View(es[1..], heap);
    }
  }

  lemma {:induction false} LinkedRemove(entries: Index, es: seq<Element>, heap: Heap, i: nat)
    requires Linked(entries, es, heap) && i < |es|
    ensures es[i] in heap
    ensures Linked(entries - {heap[es[i]].key}, RemoveAt(es, i), heap)
    ensures forall e :: e in RemoveAt(es, i) <==> e in es && e != es[i]
  {
    var entry := heap[es[0]];
    if i == 0 {
      assert RemoveAt(es, 0) == es[1..];
      if es[0] in es[1..] {
        LinkedElement(entries - {entry.key}, es[1..], heap, es[0]);
      }
    } else {
      var rest := entries - {entry.key};
      LinkedRemove(rest, es[1..], heap, i - 1);
      LinkedElement(rest, es[1..], heap, es[i]);
      assert RemoveAt(es, i) == [es[0]] + RemoveAt(es[1..], i - 1);
      var key := heap[es[i]].key;
      assert entries - {key} - {entry.key} == rest - {key};
    }
  }

  lemma ViewAppend(es: seq<Element>, fs: seq<Element>, heap: Heap)
    ensures View(es + fs, heap) == View(es, heap) + View(fs, heap)
  {
    if es == [] {
      assert es + fs == fs;
    } else {
      assert (es + fs)[1..] == es[1..] + fs;
      ViewAppend(es[1..], fs, heap);
    }
  }

  lemma RemoveBehind(x: Item, v: seq<Item>, i: nat)
    requires 0 < i <= |v|
    ensures ([x] + v)[..i] + ([x] + v)[i + 1..] == [x] + (v[..i - 1] + v[i..])
  {
  }

  lemma ViewCons(e: Element, es: seq<Element>, heap: Heap)
    requires e in heap
    ensures View([e] + es, heap) == [heap[e].AsItem()] + View(es, heap)
  {
    assert ([e] + es)[1..] == es;
  }

  lemma {:induction false} ViewRemoveAt(entries: Index, es: seq<Element>, heap: Heap, i: nat)
    requires Linked(entries, es, heap) && i < |es|
    ensures |View(es, heap)| == |es|
    ensures View(RemoveAt(es, i), heap) == View(es, heap)[..i] + View(es, heap)[i + 1..]
    decreases |es|
  {
    var rest := entries - {heap[es[0]].key};
    LinkedView(rest, es[1..], heap);
    if i == 0 {
      assert RemoveAt(es, 0) == es[1..];
    } else {
      ViewRemoveAt(rest, es[1..], heap, i - 1);
      ViewRemoveBehind(es[0], es[1..], heap, i - 1);
      assert es == [es[0]] + es[1..];
    }
  }

  lemma ViewRemoveBehind(e: Element, es: seq<Element>, heap: Heap, i: nat)
    requires e in heap && i < |es| == |View(es, heap)|
    requires View(RemoveAt(es, i), heap) == View(es, heap)[..i] + View(es, heap)[i + 1..]
    ensures var v := View([e] + es, heap);
            |v| == |es| + 1 && View(RemoveAt([e] + es, i + 1), heap) == v[..i + 1] + v[i + 2..]
  {
    assert RemoveAt([e] + es, i + 1) == [e] + RemoveAt(es, i);
    ViewCons(e, RemoveAt(es, i), heap);
    ViewCons(e, es, heap);
    RemoveBehind(heap[e].AsItem(), View(es, heap), i + 1);
  }

  lemma {:induction false} LinkedAppend(entries: Index, es: seq<Element>, heap: Heap, e: Element)
    requires Linked(entries, es, heap) && e in heap
    requires heap[e].key !in entries && heap[e].filePath == Escape(heap[e].key)
    ensures Linked(entries[heap[e].key := e], es + [e], heap)
    ensures View(es + [e], heap) == View(es, heap) + [heap[e].AsItem()]
  {
    ViewAppend(es, [e], heap);
    if es == [] {
      assert (map[])[heap[e].key := e] - {heap[e].key} == map[];
    } else {
      var first := heap[es[0]].key;
      LinkedAppend(entries - {first}, es[1..], heap, e);
      assert (es + [e])[1..] == es[1..] + [e];
      assert entries[heap[e].key := e] - {first} == (entries - {first})[heap[e].key := e];
    }
  }

  /** Only the values of the listed elements matter. */
  lemma {:induction false} LinkedFrame(entries: Index, es: seq<Element>, heap: Heap, e: Element, entry: CacheEntry)
    requires Linked(entries, es, heap) && e !in es
    ensures Linked(entries, es, heap[e := entry])
    ensures View(es, heap[e := entry]) == View(es, heap)
  {
    if es != [] {
      LinkedFrame(entries - {heap[es[0]].key}, es[1..], heap, e, entry);
    }
  }

  lemma FindAbsent(v: seq<Item>, key: string)
    requires key !in Keys(v)
    ensures Find(v, key) == None
  {
  }

  /** Moving an element to the back with a new access time. */
  lemma MoveLinked(entries: Index, es: seq<Element>, heap: Heap, i: nat, entry: CacheEntry)
    requires Linked(entries, es, heap) && i < |es| && es[i] in heap
    requires entry == heap[es[i]].(lastUsedAt := entry.lastUsedAt)
    ensures Linked(entries, RemoveAt(es, i) + [es[i]], heap[es[i] := entry])
    ensures View(RemoveAt(es, i) + [es[i]], heap[es[i] := entry])
         == Without(View(es, heap), {entry.key}) + [entry.AsItem()]
    ensures Total(View(RemoveAt(es, i) + [es[i]], heap[es[i] := entry])) == Total(View(es, heap))
  {
    var e, v, rest, heap' := es[i], View(es, heap), RemoveAt(es, i), heap[es[i] := entry];
    LinkedView(entries, es, heap);
    LinkedElement(entries, es, heap, e);
    LinkedRemove(entries, es, heap, i);
    ViewRemoveAt(entries, es, heap, i);
    LinkedFrame(entries - {entry.key}, rest, heap, e, entry);
    LinkedAppend(entries - {entry.key}, rest, heap', e);
    assert (entries - {entry.key})[entry.key := e] == entries;
    WithoutOne(v, i);
    TotalRemove(v, i);
    TotalConcat(v[..i] + v[i + 1..], [entry.AsItem()]);
  }

  /** Keys of some list elements. */
  function KeysOf(es: seq<Element>, heap: Heap): set<string> {
    Keys(View(es, heap))
  }

  lemma {:induction false} KeysConcat(v: seq<Item>, w: seq<Item>)
    ensures Keys(v + w) == Keys(v) + Keys(w)
  {
    if v == [] {
      assert v + w == w;
    } else {
      assert (v + w)[1..] == v[1..] + w;
      KeysConcat(v[1..], w);
    }
  }

  lemma KeysSnoc(es: seq<Element>, e: Element, heap: Heap)
    requires e in heap
    ensures KeysOf(es + [e], heap) == KeysOf(es, heap) + {heap[e].key}
  {
    ViewAppend(es, [e], heap);
    KeysConcat(View(es, heap), View([e], heap));
    assert View([e], heap) == [heap[e].AsItem()];
  }

  lemma DropNext(c: Cache, es: seq<Element>, j: nat, heap: Heap)
    requires j < |es| && es[j] in heap
    ensures Drop(Drop(c, KeysOf(es[..j], heap)), {heap[es[j]].key}) == Drop(c, KeysOf(es[..j + 1], heap))
  {
    DropTwice(c, KeysOf(es[..j], heap), {heap[es[j]].key});
    KeysSnoc(es[..j], es[j], heap);
    assert es[..j + 1] == es[..j] + [es[j]];
  }

  predicate NoRepeats(es: seq<Element>) {
    forall j, k :: 0 <= j < k < |es| ==> es[j] != es[k]
  }

  lemma LinkedNoDuplicates(entries: Index, es: seq<Element>, heap: Heap)
    requires Linked(entries, es, heap)
    ensures NoRepeats(es)
  {
    LinkedView(entries, es, heap);
    KeysByIndex(View(es, heap));
  }

  /** The elements whose time has passed, front to back. */
  function ExpiredElements(es: seq<Element>, heap: Heap, now: int): seq<Element> {
    if es == [] then []
    else (if es[0] in heap && now > heap[es[0]].expiresAt then [es[0]] else []) + ExpiredElements(es[1..], heap, now)
  }

  lemma ExpiredNext(found: seq<Element>, es: seq<Element>, i: nat, heap: Heap, now: int)
    requires i < |es| && es[i] in heap
    ensures found + ExpiredElements(es[i..], heap, now) ==
            (if now > heap[es[i]].expiresAt then found + [es[i]] else found) + ExpiredElements(es[i + 1..], heap, now)
  {
    assert es[i..][1..] == es[i + 1..];
  }

  /** They are elements of the list. */
  lemma {:induction false} ExpiredElementsListed(entries: Index, es: seq<Element>, heap: Heap, now: int, e: Element)
    requires Linked(entries, es, heap) && e in ExpiredElements(es, heap, now)
    ensures e in es && e in heap
    decreases |es|
  {
    var rest := ExpiredElements(es[1..], heap, now);
    if e in rest {
      ExpiredElementsListed(entries - {heap[es[0]].key}, es[1..], heap, now, e);
    }
  }

  lemma ConsNoRepeats(e: Element, es: seq<Element>)
    requires e !in es && NoRepeats(es)
    ensures NoRepeats([e] + es)
  {
    var all := [e] + es;
    forall j, k | 0 <= j < k < |all| ensures all[j] != all[k] {
      assert all[k] == es[k - 1] && es[k - 1] in es;
      assert j > 0 ==> all[j] == es[j - 1];
    }
  }

  /** Each of them is there once. */
  lemma {:induction false} ExpiredElementsDistinct(entries: Index, es: seq<Element>, heap: Heap, now: int)
    requires Linked(entries, es, heap)
    ensures NoRepeats(ExpiredElements(es, heap, now))
    decreases |es|
  {
    if es != [] {
      var others, rest := entries - {heap[es[0]].key}, ExpiredElements(es[1..], heap, now);
      ExpiredElementsDistinct(others, es[1..], heap, now);
      FirstIsUnique(entries, es, heap);
      if es[0] in rest {
        ExpiredElementsListed(others, es[1..], heap, now, es[0]);
      }
      ConsNoRepeats(es[0], rest);
      assert [] + rest == rest;
    }
  }

  lemma ConsKeys(x: Item, v: seq<Item>, now: int)
    ensures Keys([x] + v) == {x.key} + Keys(v)
    ensures ExpiredKeys([x] + v, now) == (if now > x.expires then {x.key} else {}) + ExpiredKeys(v, now)
  {
    assert ([x] + v)[1..] == v;
  }

  /** Their keys are the expired keys. */
  lemma {:induction false} ExpiredElementKeys(entries: Index, es: seq<Element>, heap: Heap, now: int)
    requires Linked(entries, es, heap)
    ensures KeysOf(ExpiredElements(es, heap, now), heap) == ExpiredKeys(View(es, heap), now)
    decreases |es|
  {
    if es != [] {
      var x, rest := heap[es[0]].AsItem(), ExpiredElements(es[1..], heap, now);
      assert [] + rest == rest;
      ExpiredElementKeys(entries - {heap[es[0]].key}, es[1..], heap, now);
      ConsKeys(x, View(es[1..], heap), now);
      ConsKeys(x, View(rest, heap), now);
      ViewCons(es[0], rest, heap);
    }
  }

  lemma FirstIsUnique(entries: Index, es: seq<Element>, heap: Heap)
    requires Linked(entries, es, heap) && es != []
    ensures es[0] !in es[1..]
  {
    LinkedNoDuplicates(entries, es, heap);
  }

  class LRUCache {
    const maxBytes: int
    const ttl: int
    var currentBytes: int
    var entries: Index
    var lruList: seq<Element>
    var heap: Heap                       // the list elements' values
    var nextElement: nat                 // elements below this have been used
    var files: map<string, Bytes>        // the cache directory

    constructor (maxBytes: int, ttl: int)
      ensures Valid() && Contents() == Cache([], map[])
      ensures this.maxBytes == maxBytes && this.ttl == ttl
    {
      this.maxBytes, this.ttl := maxBytes, ttl;
      currentBytes, entries, lruList, heap, nextElement, files := 0, map[], [], map[], 0, map[];
    }

    /** List and index hold the same entries, one per key, and the counter is their total size. */
    ghost predicate Consistent()
      reads this
    {
      && Linked(entries, lruList, heap)
      && currentBytes == Total(View(lruList, heap))
      && forall e :: e in heap ==> e < nextElement
    }

    /** Between operations the cache also respects its size limit. */
    ghost predicate Valid()
      reads this
    {
      Consistent() && (lruList == [] || currentBytes <= maxBytes)
    }

    ghost function Contents(): Cache
      reads this
    {
      Cache(View(lruList, heap), files)
    }

    method RemoveEntry(elem: Element)
      requires Consistent() && elem in lruList
      modifies this
      ensures Consistent() && heap == old(heap) && elem in heap
      ensures Contents() == Drop(old(Contents()), {heap[elem].key})
      ensures forall e :: e in lruList <==> e in old(lruList) && e != elem
      ensures |lruList| < old(|lruList|) && currentBytes <= old(currentBytes)
      ensures entries == old(entries) - {heap[elem].key}
    {
      ghost var c := Contents();
      var i :| 0 <= i < |lruList| && lruList[i] == elem;
      LinkedView(entries, lruList, heap);
      LinkedElement(entries, lruList, heap, elem);
      DropOne(c, i);
      TotalRemove(c.items, i);
      LinkedRemove(entries, lruList, heap, i);
      ViewRemoveAt(entries, lruList, heap, i);
      lruList := RemoveAt(lruList, i);
      entries := entries - {heap[elem].key};
      currentBytes := currentBytes - heap[elem].fileSize;
      files := files - {heap[elem].filePath};
    }

    /** `now` is the time of the expiry check, `used` the time recorded for the access. */
    method Get(key: string, now: int, used: int) returns (path: Option<string>)
      requires Valid()
      modifies this
      ensures Valid()
      ensures (Contents(), path.Some?) == GetSpec(old(Contents()), key, now, used)
      ensures path.Some? ==> path.value == Escape(key) && path.value in files
    {
      LinkedView(entries, lruList, heap);
      if key !in entries {
        FindAbsent(View(lruList, heap), key);
        return None;
      }
      LinkedKey(entries, lruList, heap, key);
      var elem := entries[key];
      LinkedElement(entries, lruList, heap, elem);
      var entry := heap[elem];
      if now > entry.expiresAt || entry.filePath !in files {
        RemoveEntry(elem);
        return None;
      }
      MoveToBack(elem, used);
      return Some(entry.filePath);
    }

    method MoveToBack(elem: Element, used: int)
      requires Valid() && elem in lruList && elem in heap
      modifies this
      ensures Valid()
      ensures var entry := old(heap[elem]);
              Contents() == Cache(Without(old(Contents()).items, {entry.key})
                                  + [entry.AsItem().(lastUsed := used)], old(files))
    {
      var i :| 0 <= i < |lruList| && lruList[i] == elem;
      var entry := heap[elem].(lastUsedAt := used);
      MoveLinked(entries, lruList, heap, i, entry);
      lruList := RemoveAt(lruList, i) + [elem];
      heap := heap[elem := entry];
    }

    /** `source` is the file to cache, if it can be read; `copied` tells whether the copy into
        the cache directory succeeds; the three times are those of the three clock readings. */
    method Put(key: string, source: Option<Bytes>, copied: bool, created: int, used: int, expiryBase: int)
      returns (ok: bool)
      requires Valid()
      modifies this
      ensures Valid()
      ensures (Contents(), ok)
           == PutSpec(old(Contents()), key, source, copied, used, expiryBase + ttl, maxBytes)
    {
      if source.None? {
        return false;
      }
      var actualSize := |source.value|;
      if actualSize > maxBytes {
        return false;
      }
      LinkedView(entries, lruList, heap);
      if key in entries {
        LinkedKey(entries, lruList, heap, key);
        RemoveEntry(entries[key]);
      } else {
        DropAbsent(Contents(), key);
      }
      if !copied {
        return false;
      }
      PushBack(CacheEntry(key, Escape(key), actualSize, created, used, expiryBase + ttl), source.value);
      EvictToFit();
      return true;
    }

    /** Evicts least recently used entries until the size limit holds. */
    method EvictToFit()
      requires Consistent()
      modifies this
      ensures Valid() && Contents() == Evict(old(Contents()), maxBytes)
    {
      while currentBytes > maxBytes && |lruList| > 0
        invariant Consistent()
        invariant Evict(Contents(), maxBytes) == Evict(old(Contents()), maxBytes)
        decreases |lruList|
      {
        RemoveEntry(lruList[0]);
      }
    }

    method PushBack(entry: CacheEntry, data: Bytes)
      requires Consistent() && entry.key !in entries
      requires entry.filePath == Escape(entry.key) && entry.fileSize == |data|
      modifies this
      ensures Consistent()
      ensures Contents() == Insert(old(Contents()), entry.key, data, entry.lastUsedAt, entry.expiresAt)
    {
      var elem := nextElement;
      if elem in lruList {
        LinkedElement(entries, lruList, heap, elem);
      }
      LinkedFrame(entries, lruList, heap, elem, entry);
      LinkedAppend(entries, lruList, heap[elem := entry], elem);
      TotalConcat(View(lruList, heap), [entry.AsItem()]);
      nextElement := nextElement + 1;
      files := files[entry.filePath := data];
      lruList := lruList + [elem];
      heap := heap[elem := entry];
      entries := entries[entry.key := elem];
      currentBytes := currentBytes + entry.fileSize;
    }

    /** `removable` is false when the file exists and cannot be deleted. */
    method Delete(key: string, removable: bool) returns (ok: bool)
      requires Valid()
      modifies this
      ensures Valid()
      ensures ok == (removable || key !in Keys(old(Contents()).items))
      ensures Contents() == if ok then Drop(old(Contents()), {key}) else old(Contents())
    {
      LinkedView(entries, lruList, heap);
      if key !in entries {
        DropAbsent(Contents(), key);
        return true;
      }
      if !removable {
        return false;
      }
      LinkedKey(entries, lruList, heap, key);
      RemoveEntry(entries[key]);
      return true;
    }

    /** Deletes the files of all entries in the map's arbitrary order, up to the first that exists and
        cannot be removed. */
    method DeleteFiles(stuck: set<string>) returns (ok: bool, ghost removed: set<string>)
      requires Linked(entries, lruList, heap)
      modifies `files
      ensures files == old(files) - removed
      ensures removed * old(files).Keys * stuck == {}
      ensures if ok then removed == Names(entries.Keys) else removed <= Names(entries.Keys)
      ensures !ok ==> Names(entries.Keys) * old(files).Keys * stuck != {}
    {
      ghost var was, all := files, entries.Keys;
      var left := entries.Keys;
      removed := {};
      while left != {}
        invariant left <= all && removed == Names(all - left)
        invariant files == was - removed
        invariant removed * was.Keys * stuck == {}
        decreases left
      {
        var key :| key in left;
        LinkedKey(entries, lruList, heap, key);
        LinkedElement(entries, lruList, heap, entries[key]);
        var path := heap[entries[key]].filePath;
        if path in files && path in stuck {
          assert path in Names(all) * was.Keys * stuck;
          return false, removed;
        }
        NamesAdd(all - left, key);
        assert all - (left - {key}) == all - left + {key};
        files := files - {path};
        removed := removed + {path};
        left := left - {key};
      }
      assert all - left == all;
      return true, removed;
    }

    /** `stuck` are the files that cannot be removed.  If one of them is met, the entries stay,
        without the files already deleted. */
    method Clear(stuck: set<string>) returns (ok: bool, ghost removed: set<string>)
      requires Valid()
      modifies this
      ensures Valid()
      ensures ok <==> Names(Keys(old(Contents()).items)) * old(files).Keys * stuck == {}
      ensures Contents() == ClearSpec(old(Contents()), ok, removed)
      ensures removed <= Names(Keys(old(Contents()).items)) && removed * old(files).Keys * stuck == {}
    {
      ghost var c := Contents();
      LinkedView(entries, lruList, heap);
      ok, removed := DeleteFiles(stuck);
      if ok {
        DropAll(c);
        entries, lruList, currentBytes := map[], [], 0;
      }
    }

    /** First loop of the background cleanup: the expired elements, front to back. */
    method FindExpired(now: int) returns (toRemove: seq<Element>)
      requires Valid()
      ensures toRemove == ExpiredElements(lruList, heap, now)
      ensures forall e :: e in toRemove ==> e in lruList && e in heap
      ensures NoRepeats(toRemove)
      ensures KeysOf(toRemove, heap) == ExpiredKeys(Contents().items, now)
    {
      toRemove := [];
      assert lruList[0..] == lruList;
      for i := 0 to |lruList|
        invariant toRemove + ExpiredElements(lruList[i..], heap, now) == ExpiredElements(lruList, heap, now)
      {
        assert lruList[i] in lruList;
        LinkedElement(entries, lruList, heap, lruList[i]);
        ExpiredNext(toRemove, lruList, i, heap, now);
        if now > heap[lruList[i]].expiresAt {
          toRemove := toRemove + [lruList[i]];
        }
      }
      forall e | e in toRemove ensures e in lruList && e in heap {
        ExpiredElementsListed(entries, lruList, heap, now, e);
      }
      ExpiredElementsDistinct(entries, lruList, heap, now);
      ExpiredElementKeys(entries, lruList, heap, now);
    }

    /** One tick of the background cleanup. */
    method SweepExpired(now: int)
      requires Valid()
      modifies this
      ensures Valid()
      ensures Contents() == SweepSpec(old(Contents()), now)
    {
      ghost var c := Contents();
      var toRemove := FindExpired(now);
      DropNothing(c);
      for j := 0 to |toRemove|
        invariant Valid() && heap == old(heap)
        invariant forall k :: j <= k < |toRemove| ==> toRemove[k] in lruList
        invariant Contents() == Drop(c, KeysOf(toRemove[..j], heap))
      {
        var e := toRemove[j];
        RemoveEntry(e);
        DropNext(c, toRemove, j, heap);
      }
      assert toRemove[..|toRemove|] == toRemove;
    }
  }
}
