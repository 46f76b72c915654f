/** What the cache's operations amount to over whole traces: least-recently-used order, the size
    limit, exact eviction and expiry, and that a hit returns the bytes last stored. */
module LruPolicy {
  import opened Text
  import opened LruCache

  // ---------- eviction removes the shortest front prefix ----------

  lemma DropFront(c: Cache)
    requires DistinctKeys(c.items) && c.items != []
    ensures Drop(c, {c.items[0].key}) == Cache(c.items[1..], c.files - {Escape(c.items[0].key)})
  {
    DropOne(c, 0);
    assert c.items[..0] + c.items[1..] == c.items[1..];
  }

  lemma {:induction false} EvictIsSuffix(c: Cache, maxBytes: int) returns (k: nat)
    requires DistinctKeys(c.items)
    ensures k <= |c.items| && Evict(c, maxBytes).items == c.items[k..]
    ensures k < |c.items| ==> Total(c.items[k..]) <= maxBytes
    ensures forall j :: 0 <= j < k ==> Total(c.items[j..]) > maxBytes
    ensures Evict(c, maxBytes).files == c.files - Names(Keys(c.items[..k]))
    decreases |c.items|
  {
    var v := c.items;
    if Total(v) > maxBytes && v != [] {
      DropFront(c);
      var i := EvictIsSuffix(Drop(c, {v[0].key}), maxBytes);
      k := i + 1;
      assert v[1..][i..] == v[k..];
      forall j | 0 <= j < k ensures Total(v[j..]) > maxBytes {
        assert if j > 0 then v[1..][j - 1..] == v[j..] else v[j..] == v;
      }
      FrontNames(c, i);
    } else {
      k := 0;
      assert v[..0] == [] && v[0..] == v && Names({}) == {};
    }
  }

  lemma FrontNames(c: Cache, i: nat)
    requires i < |c.items|
    ensures c.files - {Escape(c.items[0].key)} - Names(Keys(c.items[1..][..i]))
         == c.files - Names(Keys(c.items[..i + 1]))
  {
    var v := c.items;
    assert v[..i + 1][1..] == v[1..][..i];
    var rest := Keys(v[1..][..i]);
    NamesAdd(rest, v[0].key);
    assert Keys(v[..i + 1]) == rest + {v[0].key};
  }

  /** A successful Put replaces the key's own entry, appends the new one, and evicts exactly the
      shortest front prefix that makes the rest fit; the new entry itself always stays. */
  lemma PutIsLru(c: Cache, key: string, data: Bytes, used: int, expires: int, maxBytes: int) returns (k: nat)
    requires DistinctKeys(c.items) && |data| <= maxBytes
    ensures var kept := Without(c.items, {key});
            var (after, ok) := PutSpec(c, key, Some(data), true, used, expires, maxBytes);
            var added := Item(key, |data|, used, expires);
            && ok && k <= |kept|
            && after.items == kept[k..] + [added]
            && Total(after.items) <= maxBytes
            && (forall j :: 0 <= j < k ==> Total(kept[j..] + [added]) > maxBytes)
  {
    var kept, added := Without(c.items, {key}), Item(key, |data|, used, expires);
    var full := Insert(Drop(c, {key}), key, data, used, expires);
    InsertDistinct(c, key, added);
    k := EvictIsSuffix(full, maxBytes);
    var n := |kept|;
    SuffixOfAppend(kept, added);
    assert Total([added]) == |data|;
    assert k <= n;
  }

  lemma SuffixOfAppend(v: seq<Item>, x: Item)
    ensures forall j :: 0 <= j <= |v| ==> (v + [x])[j..] == v[j..] + [x]
    ensures (v + [x])[|v|..] == [x]
  {
  }

  lemma InsertDistinct(c: Cache, key: string, x: Item)
    requires DistinctKeys(c.items) && x.key == key
    ensures DistinctKeys(Without(c.items, {key}) + [x])
    ensures Keys(Without(c.items, {key}) + [x]) == Keys(c.items) + {key}
  {
    WithoutDistinct(c.items, {key});
    WithoutKeys(c.items, {key});
    DistinctSnoc(Without(c.items, {key}), x);
  }

  lemma {:induction false} DistinctSnoc(v: seq<Item>, x: Item)
    requires DistinctKeys(v) && x.key !in Keys(v)
    ensures DistinctKeys(v + [x]) && Keys(v + [x]) == Keys(v) + {x.key}
  {
    if v == [] {
      assert v + [x] == [x];
    } else {
      assert (v + [x])[1..] == v[1..] + [x];
      DistinctSnoc(v[1..], x);
    }
  }

  // ---------- the sweep ----------

  function Unexpired(v: seq<Item>, now: int): seq<Item> {
    if v == [] then []
    else if now > v[0].expires then Unexpired(v[1..], now)
    else [v[0]] + Unexpired(v[1..], now)
  }

  lemma {:induction false} ExpiredAreKeys(v: seq<Item>, now: int)
    ensures ExpiredKeys(v, now) <= Keys(v)
  {
    if v != [] {
      ExpiredAreKeys(v[1..], now);
    }
  }

  /** The sweep removes exactly the expired items and keeps the order of the others. */
  lemma {:induction false} SweepKeepsUnexpired(v: seq<Item>, now: int, gone: set<string>)
    requires DistinctKeys(v) && gone * Keys(v) == ExpiredKeys(v, now)
    ensures Without(v, gone) == Unexpired(v, now)
  {
    if v != [] {
      ExpiredAreKeys(v[1..], now);
      SweepKeepsUnexpired(v[1..], now, gone);
    }
  }

  lemma SweepIsExact(c: Cache, now: int)
    requires DistinctKeys(c.items)
    ensures SweepSpec(c, now).items == Unexpired(c.items, now)
    ensures SweepSpec(c, now).files == c.files - Names(ExpiredKeys(c.items, now))
  {
    ExpiredAreKeys(c.items, now);
    var gone := ExpiredKeys(c.items, now);
    assert gone * Keys(c.items) == gone;
    SweepKeepsUnexpired(c.items, now, gone);
  }

  // ---------- traces ----------

  datatype Op =
    | GetOp(key: string, now: int, used: int)
    | PutOp(key: string, source: Option<Bytes>, copied: bool, used: int, expiryBase: int)
    | DeleteOp(key: string, removable: bool)
    | ClearOp(ok: bool, removed: set<string>)
    | SweepOp(now: int)

  datatype Settings = Settings(maxBytes: int, ttl: int)

  function Step(s: Settings, c: Cache, op: Op): Cache {
    match op
    case GetOp(key, now, used) => GetSpec(c, key, now, used).0
    case PutOp(key, source, copied, used, base) =>
      PutSpec(c, key, source, copied, used, base + s.ttl, s.maxBytes).0
    case DeleteOp(key, removable) => if removable then Drop(c, {key}) else c
    case ClearOp(ok, removed) => ClearSpec(c, ok, removed)
    case SweepOp(now) => SweepSpec(c, now)
  }

  function Trace(s: Settings, c: Cache, ops: seq<Op>): Cache
    decreases |ops|
  {
    if ops == [] then c else Trace(s, Step(s, c, ops[0]), ops[1..])
  }

  /** The times an operation records do not run backwards. */
  predicate Clocked(ops: seq<Op>, from: int)
    decreases |ops|
  {
    if ops == [] then true
    else if ops[0].GetOp? || ops[0].PutOp? then from <= ops[0].used && Clocked(ops[1..], ops[0].used)
    else Clocked(ops[1..], from)
  }

  /** Items are ordered by last use, and none was used after `upTo`. */
  predicate Ordered(v: seq<Item>, upTo: int) {
    v == [] || (v[|v| - 1].lastUsed <= upTo && Ordered(v[..|v| - 1], v[|v| - 1].lastUsed))
  }

  ghost predicate Good(s: Settings, c: Cache, upTo: int) {
    && DistinctKeys(c.items)
    && (c.items == [] || Total(c.items) <= s.maxBytes)
    && Ordered(c.items, upTo)
  }

  lemma {:induction false} OrderedLater(v: seq<Item>, t: int, u: int)
    requires Ordered(v, t) && t <= u
    ensures Ordered(v, u)
  {
  }

  lemma {:induction false} OrderedWithout(v: seq<Item>, t: int, gone: set<string>)
    requires Ordered(v, t)
    ensures Ordered(Without(v, gone), t)
    decreases |v|
  {
    if v != [] {
      var front, last := v[..|v| - 1], v[|v| - 1];
      OrderedWithout(front, last.lastUsed, gone);
      assert v == front + [last];
      WithoutSnoc(front, last, gone);
      var w := Without(front, gone);
      if last.key in gone {
        assert Without(v, gone) == w;
        OrderedLater(w, last.lastUsed, t);
      } else {
        assert Without(v, gone) == w + [last] && (w + [last])[..|w|] == w;
      }
    }
  }

  lemma {:induction false} WithoutSnoc(v: seq<Item>, x: Item, gone: set<string>)
    ensures Without(v + [x], gone) == Without(v, gone) + (if x.key in gone then [] else [x])
  {
    if v == [] {
      assert v + [x] == [x];
    } else {
      assert (v + [x])[1..] == v[1..] + [x];
      WithoutSnoc(v[1..], x, gone);
    }
  }

  lemma {:induction false} OrderedSuffix(v: seq<Item>, t: int, k: nat)
    requires Ordered(v, t) && k <= |v|
    ensures Ordered(v[k..], t)
    decreases |v|
  {
    if k < |v| {
      var front, last := v[..|v| - 1], v[|v| - 1];
      OrderedSuffix(front, last.lastUsed, k);
      assert v[k..][..|v[k..]| - 1] == front[k..];
    }
  }

  lemma OrderedSnoc(v: seq<Item>, t: int, x: Item)
    requires Ordered(v, t) && t <= x.lastUsed
    ensures Ordered(v + [x], x.lastUsed)
  {
    OrderedLater(v, t, x.lastUsed);
    assert (v + [x])[..|v|] == v;
  }

  lemma {:induction false} WithoutTotal(v: seq<Item>, gone: set<string>)
    ensures Total(Without(v, gone)) <= Total(v)
  {
    if v != [] {
      WithoutTotal(v[1..], gone);
    }
  }

  lemma DropGood(s: Settings, c: Cache, upTo: int, gone: set<string>)
    requires Good(s, c, upTo)
    ensures Good(s, Drop(c, gone), upTo)
  {
    WithoutDistinct(c.items, gone);
    WithoutTotal(c.items, gone);
    OrderedWithout(c.items, upTo, gone);
  }

  lemma GetGood(s: Settings, c: Cache, upTo: int, key: string, now: int, used: int)
    requires Good(s, c, upTo) && upTo <= used
    ensures Good(s, GetSpec(c, key, now, used).0, used)
  {
    OrderedLater(c.items, upTo, used);
    DropGood(s, c, used, {key});
    StepDistinct(s, c, GetOp(key, now, used));
    if GetSpec(c, key, now, used).1 {
      var item := Find(c.items, key).value;
      OrderedSnoc(Without(c.items, {key}), used, item.(lastUsed := used));
      TouchTotal(c.items, item, used);
    }
  }

  lemma TouchTotal(v: seq<Item>, item: Item, used: int)
    requires DistinctKeys(v) && item in v
    ensures Total(Without(v, {item.key}) + [item.(lastUsed := used)]) == Total(v)
  {
    var i :| 0 <= i < |v| && v[i] == item;
    WithoutOne(v, i);
    TotalRemove(v, i);
    TotalConcat(Without(v, {item.key}), [item.(lastUsed := used)]);
  }

  lemma PutGood(s: Settings, c: Cache, upTo: int, op: Op)
    requires Good(s, c, upTo) && op.PutOp? && upTo <= op.used
    ensures Good(s, Step(s, c, op), op.used)
  {
    OrderedLater(c.items, upTo, op.used);
    DropGood(s, c, op.used, {op.key});
    StepDistinct(s, c, op);
    if op.source.Some? && |op.source.value| <= s.maxBytes && op.copied {
      var data, expires := op.source.value, op.expiryBase + s.ttl;
      var x := Item(op.key, |data|, op.used, expires);
      var kept := Without(c.items, {op.key});
      var k := PutIsLru(c, op.key, data, op.used, expires, s.maxBytes);
      OrderedSuffix(kept, op.used, k);
      OrderedSnoc(kept[k..], op.used, x);
    }
  }

  lemma {:induction false} DistinctSuffix(v: seq<Item>, k: nat)
    requires DistinctKeys(v) && k <= |v|
    ensures DistinctKeys(v[k..])
  {
    if k > 0 {
      DistinctSuffix(v[1..], k - 1);
      assert v[1..][k - 1..] == v[k..];
    }
  }

  /** Over every trace: one item per key, the size limit kept, and the list ordered by last use,
      so that the front prefix a Put evicts is the least recently used. */
  lemma {:induction false} TraceGood(s: Settings, c: Cache, ops: seq<Op>, from: int) returns (upTo: int)
    requires Good(s, c, from) && Clocked(ops, from)
    ensures Good(s, Trace(s, c, ops), upTo)
    decreases |ops|
  {
    if ops == [] {
      upTo := from;
    } else {
      var op := ops[0];
      var next := if op.GetOp? || op.PutOp? then op.used else from;
      match op {
        case GetOp(key, now, used) => GetGood(s, c, from, key, now, used);
        case PutOp(_, _, _, _, _) => PutGood(s, c, from, op);
        case DeleteOp(key, _) => DropGood(s, c, from, {key});
        case ClearOp(_, _) => DropGood(s, c, from, Keys(c.items));
        case SweepOp(now) => DropGood(s, c, from, ExpiredKeys(c.items, now));
      }
      upTo := TraceGood(s, Step(s, c, op), ops[1..], next);
    }
  }

  // ---------- contents ----------

  ghost predicate NamesDiffer(keys: set<string>) {
    forall a, b :: a in keys && b in keys && a != b ==> Escape(a) != Escape(b)
  }

  /** The bytes last stored under each key. */
  function Latest(s: Settings, m: map<string, Bytes>, op: Op): map<string, Bytes> {
    if op.PutOp? && op.source.Some? && |op.source.value| <= s.maxBytes && op.copied
    then m[op.key := op.source.value] else m
  }

  function LatestAfter(s: Settings, m: map<string, Bytes>, ops: seq<Op>): map<string, Bytes>
    decreases |ops|
  {
    if ops == [] then m else LatestAfter(s, Latest(s, m, ops[0]), ops[1..])
  }

  /** The file of every resident key holds the bytes last stored under that key; with `full`, every
      resident key has its file. */
  ghost predicate Stored(c: Cache, m: map<string, Bytes>, full: bool) {
    forall k :: k in Keys(c.items) ==>
      k in m && (full ==> Escape(k) in c.files) && (Escape(k) in c.files ==> c.files[Escape(k)] == m[k])
  }

  lemma DropStored(c: Cache, m: map<string, Bytes>, full: bool, gone: set<string>)
    requires Stored(c, m, full) && NamesDiffer(Keys(c.items))
    ensures Stored(Drop(c, gone), m, full) && Keys(Drop(c, gone).items) <= Keys(c.items)
  {
    WithoutKeys(c.items, gone);
  }

  lemma {:induction false} EvictStored(c: Cache, m: map<string, Bytes>, full: bool, maxBytes: int)
    requires Stored(c, m, full) && NamesDiffer(Keys(c.items))
    ensures Stored(Evict(c, maxBytes), m, full) && Keys(Evict(c, maxBytes).items) <= Keys(c.items)
    decreases |c.items|
  {
    if Total(c.items) > maxBytes && c.items != [] {
      DropStored(c, m, full, {c.items[0].key});
      WithoutKeys(c.items, {c.items[0].key});
      EvictStored(Drop(c, {c.items[0].key}), m, full, maxBytes);
    }
  }

  lemma PutStored(s: Settings, c: Cache, m: map<string, Bytes>, full: bool, op: Op, keys: set<string>)
    requires op.PutOp? && Stored(c, m, full) && DistinctKeys(c.items)
    requires NamesDiffer(keys) && Keys(c.items) + {op.key} <= keys
    ensures Stored(Step(s, c, op), Latest(s, m, op), full) && Keys(Step(s, c, op).items) <= keys
  {
    DropStored(c, m, full, {op.key});
    if op.source.Some? && |op.source.value| <= s.maxBytes && op.copied {
      var data, expires := op.source.value, op.expiryBase + s.ttl;
      var x := Item(op.key, |data|, op.used, expires);
      var without := Drop(c, {op.key});
      var put := Insert(without, op.key, data, op.used, expires);
      InsertDistinct(c, op.key, x);
      WithoutKeys(c.items, {op.key});
      assert Stored(put, Latest(s, m, op), full);
      EvictStored(put, Latest(s, m, op), full, s.maxBytes);
    }
  }

  lemma GetStored(c: Cache, m: map<string, Bytes>, full: bool, key: string, now: int, used: int)
    requires Stored(c, m, full) && DistinctKeys(c.items) && NamesDiffer(Keys(c.items))
    ensures Stored(GetSpec(c, key, now, used).0, m, full)
    ensures Keys(GetSpec(c, key, now, used).0.items) <= Keys(c.items)
  {
    DropStored(c, m, full, {key});
    var (after, hit) := GetSpec(c, key, now, used);
    if hit {
      var item := Find(c.items, key).value;
      InsertDistinct(c, key, item.(lastUsed := used));
      KeysByIndex(c.items);
    }
  }

  function OpKeys(ops: seq<Op>): set<string>
    decreases |ops|
  {
    if ops == [] then {}
    else (if ops[0].PutOp? then {ops[0].key} else {}) + OpKeys(ops[1..])
  }

  /** Over every trace whose stored keys have distinct file names, each resident key's file holds
      the bytes last stored under it, and is there unless some `Clear` failed halfway. */
  lemma {:induction false} TraceStored(s: Settings, c: Cache, m: map<string, Bytes>, full: bool, ops: seq<Op>, keys: set<string>)
    requires Stored(c, m, full) && DistinctKeys(c.items)
    requires NamesDiffer(keys) && Keys(c.items) + OpKeys(ops) <= keys
    requires full ==> forall op :: op in ops && op.ClearOp? ==> op.ok
    ensures Stored(Trace(s, c, ops), LatestAfter(s, m, ops), full)
    decreases |ops|
  {
    if ops != [] {
      var op := ops[0];
      assert op in ops;
      StepDistinct(s, c, op);
      match op {
        case GetOp(key, now, used) => GetStored(c, m, full, key, now, used);
        case PutOp(_, _, _, _, _) => PutStored(s, c, m, full, op, keys);
        case DeleteOp(key, _) => DropStored(c, m, full, {key});
        case ClearOp(_, _) => DropStored(c, m, full, Keys(c.items));
        case SweepOp(now) => DropStored(c, m, full, ExpiredKeys(c.items, now));
      }
      TraceStored(s, Step(s, c, op), Latest(s, m, op), full, ops[1..], keys);
    }
  }

  lemma PutDistinct(s: Settings, c: Cache, op: Op)
    requires DistinctKeys(c.items) && op.PutOp?
    ensures DistinctKeys(Step(s, c, op).items)
  {
    WithoutDistinct(c.items, {op.key});
    if op.source.Some? && |op.source.value| <= s.maxBytes && op.copied {
      var x := Item(op.key, |op.source.value|, op.used, op.expiryBase + s.ttl);
      var k := PutIsLru(c, op.key, op.source.value, op.used, x.expires, s.maxBytes);
      InsertDistinct(c, op.key, x);
      var kept := Without(c.items, {op.key});
      DistinctSuffix(kept + [x], k);
      SuffixOfAppend(kept, x);
    }
  }

  lemma StepDistinct(s: Settings, c: Cache, op: Op)
    requires DistinctKeys(c.items)
    ensures DistinctKeys(Step(s, c, op).items)
  {
    match op {
      case GetOp(key, now, used) =>
        WithoutDistinct(c.items, {key});
        var found := Find(c.items, key);
        if found.Some? {
          InsertDistinct(c, key, found.value.(lastUsed := used));
        }
      case PutOp(_, _, _, _, _) => PutDistinct(s, c, op);
      case DeleteOp(key, _) => WithoutDistinct(c.items, {key});
      case ClearOp(_, _) => WithoutDistinct(c.items, Keys(c.items));
      case SweepOp(now) => WithoutDistinct(c.items, ExpiredKeys(c.items, now));
    }
  }

  /** A hit at the end of a trace from the empty cache reads back the bytes last stored. */
  lemma HitReadsBack(s: Settings, ops: seq<Op>, key: string, now: int, used: int)
    requires NamesDiffer(OpKeys(ops))
    ensures var c := Trace(s, Cache([], map[]), ops);
            GetSpec(c, key, now, used).1 ==>
              && key in LatestAfter(s, map[], ops)
              && Escape(key) in c.files && c.files[Escape(key)] == LatestAfter(s, map[], ops)[key]
  {
    TraceStored(s, Cache([], map[]), map[], false, ops, OpKeys(ops));
    KeysByIndex(Trace(s, Cache([], map[]), ops).items);
  }

  /** The condition on file names is exact: storing two keys and reading the first hits and gives
      its own bytes if and only if the two file names differ. */
  lemma CollidingNames(s: Settings, a: string, b: string, x: Bytes, y: Bytes, t: int)
    requires a != b && x != y && |x| + |y| <= s.maxBytes && s.ttl >= 0
    ensures var ops := [PutOp(a, Some(x), true, t, t), PutOp(b, Some(y), true, t, t)];
            var c := Trace(s, Cache([], map[]), ops);
            && GetSpec(c, a, t, t).1
            && (c.files[Escape(a)] == x <==> Escape(a) != Escape(b))
  {
    var first, second := PutOp(a, Some(x), true, t, t), PutOp(b, Some(y), true, t, t);
    var empty := Cache([], map[]);
    var ia, ib := Item(a, |x|, t, t + s.ttl), Item(b, |y|, t, t + s.ttl);
    var c1 := Cache([ia], map[Escape(a) := x]);
    var c2 := Cache([ia, ib], map[Escape(a) := x][Escape(b) := y]);
    assert Step(s, empty, first) == c1 by {
      DropAbsent(empty, a);
      assert [] + [ia] == [ia] && Total([ia]) == |x|;
    }
    assert Step(s, c1, second) == c2 by {
      DropAbsent(c1, b);
      assert [ia] + [ib] == [ia, ib] && [ia, ib][1..] == [ib] && Total([ib]) == |y|;
    }
    assert [first, second][1..] == [second] && [second][1..] == [];
    assert Trace(s, c1, [second]) == Trace(s, c2, []) == c2;
    assert Find(c2.items, a) == Some(ia);
  }

  /** Such keys exist: the escape maps every special character to an underscore. */
  lemma EscapeCollides()
    ensures "a/b" != "a_b" && Escape("a/b") == Escape("a_b")
  {
    assert "a/b"[1..] == "/b" && "/b"[1..] == "b" && "b"[1..] == "";
    assert "a_b"[1..] == "_b" && "_b"[1..] == "b";
    assert Escape("b") == ['b'] + Escape("");
    assert Escape("/b") == ['_'] + Escape("b") && Escape("_b") == ['_'] + Escape("b");
  }
}
