/** Hits and recency told by the operations alone: when an entry is served, what removes it, and
    that the list is in order of last use, for every trace from the empty cache. */
module LruTimes {
  import opened Text
  import opened LruCache
  import opened LruPolicy

  const Empty: Cache := Cache([], map[])

  /** A Put that stores its file. */
  predicate Stores(s: Settings, op: Op, key: string) {
    op.PutOp? && op.key == key && op.source.Some? && |op.source.value| <= s.maxBytes && op.copied
  }

  predicate Hits(c: Cache, op: Op, key: string) {
    op.GetOp? && op.key == key && GetSpec(c, key, op.now, op.used).1
  }

  /** The cache before operation `i`, or after all of them. */
  function At(s: Settings, ops: seq<Op>, i: nat): Cache
    requires i <= |ops|
  {
    Trace(s, Empty, ops[..i])
  }

  lemma {:induction false} TraceSnoc(s: Settings, c: Cache, ops: seq<Op>, op: Op)
    ensures Trace(s, c, ops + [op]) == Step(s, Trace(s, c, ops), op)
    decreases |ops|
  {
    var longer := ops + [op];
    if ops == [] {
      assert longer[1..] == [];
    } else {
      assert longer[1..] == ops[1..] + [op];
      TraceSnoc(s, Step(s, c, ops[0]), ops[1..], op);
    }
  }

  lemma AtNext(s: Settings, ops: seq<Op>, i: nat)
    requires i < |ops|
    ensures At(s, ops, i + 1) == Step(s, At(s, ops, i), ops[i])
  {
    assert ops[..i + 1] == ops[..i] + [ops[i]];
    TraceSnoc(s, Empty, ops[..i], ops[i]);
  }

  lemma {:induction false} AtDistinct(s: Settings, ops: seq<Op>, i: nat)
    requires i <= |ops|
    ensures DistinctKeys(At(s, ops, i).items)
  {
    if i > 0 {
      AtDistinct(s, ops, i - 1);
      AtNext(s, ops, i - 1);
      StepDistinct(s, At(s, ops, i - 1), ops[i - 1]);
    }
  }

  // ---------- where the items of a state come from ----------

  lemma {:induction false} WithoutMembers(v: seq<Item>, gone: set<string>, x: Item)
    ensures x in Without(v, gone) <==> x in v && x.key !in gone
  {
    if v != [] {
      WithoutMembers(v[1..], gone, x);
    }
  }

  lemma {:induction false} EvictMembers(c: Cache, maxBytes: int, x: Item)
    requires x in Evict(c, maxBytes).items
    ensures x in c.items
    decreases |c.items|
  {
    if Total(c.items) > maxBytes && c.items != [] {
      WithoutKeys(c.items, {c.items[0].key});
      EvictMembers(Drop(c, {c.items[0].key}), maxBytes, x);
      WithoutMembers(c.items, {c.items[0].key}, x);
    }
  }

  /** The item that a storing Put makes. */
  function Made(s: Settings, op: Op): Item
    requires op.PutOp? && op.source.Some?
  {
    Item(op.key, |op.source.value|, op.used, op.expiryBase + s.ttl)
  }

  lemma PutItem(s: Settings, c: Cache, op: Op, x: Item)
    requires op.PutOp? && x in Step(s, c, op).items
    ensures if Stores(s, op, x.key) then x == Made(s, op) else x in c.items
  {
    WithoutMembers(c.items, {op.key}, x);
    if Stores(s, op, op.key) {
      EvictMembers(Insert(Drop(c, {op.key}), op.key, op.source.value, op.used, op.expiryBase + s.ttl), s.maxBytes, x);
    }
  }

  lemma GetItem(s: Settings, c: Cache, op: Op, x: Item)
    requires op.GetOp? && x in Step(s, c, op).items
    ensures if Hits(c, op, x.key) then x.lastUsed == op.used && exists y :: y in c.items && x == y.(lastUsed := op.used)
            else x in c.items
  {
    WithoutMembers(c.items, {op.key}, x);
  }

  /** An item is one made by this Put, one touched by this Get, or an old one that this does not use. */
  lemma StepItem(s: Settings, c: Cache, op: Op, x: Item)
    requires x in Step(s, c, op).items
    ensures if Stores(s, op, x.key) then x == Made(s, op)
            else if Hits(c, op, x.key) then x.lastUsed == op.used && exists y :: y in c.items && x == y.(lastUsed := op.used)
            else x in c.items
  {
    match op {
      case GetOp(_, _, _) => GetItem(s, c, op, x);
      case PutOp(_, _, _, _, _) => PutItem(s, c, op, x);
      case DeleteOp(key, _) => WithoutMembers(c.items, {key}, x);
      case ClearOp(_, _) => WithoutMembers(c.items, Keys(c.items), x);
      case SweepOp(now) => WithoutMembers(c.items, ExpiredKeys(c.items, now), x);
    }
  }

  // ---------- the times of an item ----------

  /** The last operation that stored the key. */
  ghost predicate StoredLast(s: Settings, ops: seq<Op>, key: string, i: nat) {
    i < |ops| && Stores(s, ops[i], key) && forall j :: i < j < |ops| ==> !Stores(s, ops[j], key)
  }

  predicate Uses(s: Settings, ops: seq<Op>, key: string, i: nat)
    requires i < |ops|
  {
    Stores(s, ops[i], key) || Hits(At(s, ops, i), ops[i], key)
  }

  /** The last operation that stored or hit the key. */
  ghost predicate UsedLast(s: Settings, ops: seq<Op>, key: string, i: nat) {
    i < |ops| && Uses(s, ops, key, i) && forall j :: i < j < |ops| ==> !Uses(s, ops, key, j)
  }

  ghost predicate FromStore(s: Settings, ops: seq<Op>, x: Item, i: nat) {
    && StoredLast(s, ops, x.key, i)
    && x.size == |ops[i].source.value| && x.expires == ops[i].expiryBase + s.ttl
  }

  ghost predicate FromUse(s: Settings, ops: seq<Op>, x: Item, i: nat) {
    && UsedLast(s, ops, x.key, i)
    && ((ops[i].PutOp? && x.lastUsed == ops[i].used) || (ops[i].GetOp? && x.lastUsed == ops[i].used))
  }

  lemma StoredEarlier(s: Settings, ops: seq<Op>, n: nat, x: Item, y: Item, i: nat)
    requires n < |ops| && FromStore(s, ops[..n], y, i) && !Stores(s, ops[n], y.key)
    requires x.key == y.key && x.size == y.size && x.expires == y.expires
    ensures FromStore(s, ops[..n + 1], x, i)
  {
    assert forall j :: 0 <= j < n ==> ops[..n + 1][j] == ops[..n][j];
  }

  lemma UsedEarlier(s: Settings, ops: seq<Op>, n: nat, x: Item, i: nat)
    requires n < |ops| && FromUse(s, ops[..n], x, i) && !Uses(s, ops, x.key, n)
    ensures FromUse(s, ops[..n + 1], x, i)
  {
    var more, some := ops[..n + 1], ops[..n];
    forall j | 0 <= j <= n ensures Uses(s, more, x.key, j) == Uses(s, ops, x.key, j) {
      assert more[..j] == ops[..j] && more[j] == ops[j];
    }
    forall j | 0 <= j < n ensures Uses(s, some, x.key, j) == Uses(s, ops, x.key, j) {
      assert some[..j] == ops[..j] && some[j] == ops[j];
    }
    assert more[i] == some[i];
  }

  lemma UsedNow(s: Settings, ops: seq<Op>, n: nat, x: Item)
    requires n < |ops| && Uses(s, ops, x.key, n)
    requires (ops[n].PutOp? && x.lastUsed == ops[n].used) || (ops[n].GetOp? && x.lastUsed == ops[n].used)
    ensures FromUse(s, ops[..n + 1], x, n)
  {
    assert ops[..n + 1][..n] == ops[..n];
  }

  /** Every item was stored by the last Put that stored its key, with that Put's size and deadline, and
      shows the time of the last operation that stored or hit it. */
  lemma {:induction false} ItemTimes(s: Settings, ops: seq<Op>, n: nat, x: Item) returns (i: nat, j: nat)
    requires n <= |ops| && x in At(s, ops, n).items
    ensures FromStore(s, ops[..n], x, i) && FromUse(s, ops[..n], x, j)
    decreases n
  {
    if n == 0 {
      assert false;
    } else {
      var c, op := At(s, ops, n - 1), ops[n - 1];
      AtNext(s, ops, n - 1);
      StepItem(s, c, op, x);
      if Stores(s, op, x.key) {
        i, j := n - 1, n - 1;
        UsedNow(s, ops, n - 1, x);
      } else if Hits(c, op, x.key) {
        var y :| y in c.items && x == y.(lastUsed := op.used);
        i, j := ItemTimes(s, ops, n - 1, y);
        StoredEarlier(s, ops, n - 1, x, y, i);
        UsedNow(s, ops, n - 1, x);
        j := n - 1;
      } else {
        i, j := ItemTimes(s, ops, n - 1, x);
        StoredEarlier(s, ops, n - 1, x, x, i);
        UsedEarlier(s, ops, n - 1, x, j);
      }
    }
  }

  // ---------- what removes an entry ----------

  /** The items from that of a key on: it and those used later. */
  function From(v: seq<Item>, key: string): seq<Item> {
    if v == [] then [] else if v[0].key == key then v else From(v[1..], key)
  }

  /** Whether an operation that finds the cache `c` removes an entry with the given deadline. */
  predicate Removes(s: Settings, c: Cache, op: Op, key: string, deadline: int) {
    match op
    case GetOp(k, now, _) => k == key && (now > deadline || Escape(key) !in c.files)
    case PutOp(k, source, copied, _, _) =>
      source.Some? && |source.value| <= s.maxBytes &&
      if k == key then !copied
      else copied && Total(From(Without(c.items, {k}), key)) + |source.value| > s.maxBytes
    case DeleteOp(k, removable) => k == key && removable
    case ClearOp(ok, _) => ok
    case SweepOp(now) => now > deadline
  }

  lemma {:induction false} FromPosition(v: seq<Item>, key: string) returns (p: nat)
    requires DistinctKeys(v) && key in Keys(v)
    ensures p < |v| && v[p].key == key && From(v, key) == v[p..]
    ensures forall k :: 0 <= k <= |v| ==> (key in Keys(v[k..]) <==> k <= p)
  {
    if v[0].key == key {
      p := 0;
    } else {
      var q := FromPosition(v[1..], key);
      p := q + 1;
      assert v[1..][q..] == v[p..];
    }
    forall k | 0 <= k <= |v| ensures key in Keys(v[k..]) <==> k <= p {
      KeysByIndex(v);
      KeysByIndex(v[k..]);
      if k <= p {
        assert v[k..][p - k] == v[p];
      }
    }
  }

  lemma {:induction false} KeysAppend(v: seq<Item>, x: Item)
    ensures Keys(v + [x]) == Keys(v) + {x.key}
  {
    if v == [] {
      assert v + [x] == [x];
    } else {
      assert (v + [x])[1..] == v[1..] + [x];
      KeysAppend(v[1..], x);
    }
  }

  lemma {:induction false} SuffixTotal(v: seq<Item>, i: nat, j: nat)
    requires i <= j <= |v|
    ensures Total(v[j..]) <= Total(v[i..])
  {
    TotalConcat(v[i..j], v[j..]);
    assert v[i..j] + v[j..] == v[i..];
  }

  /** The suffix that eviction leaves holds a key exactly if the items from that key on fit. */
  lemma SuffixHasIff(kept: seq<Item>, added: Item, k: nat, key: string, limit: int)
    requires DistinctKeys(kept) && key in Keys(kept) && key != added.key && k <= |kept|
    requires Total(kept[k..] + [added]) <= limit
    requires forall j :: 0 <= j < k ==> Total(kept[j..] + [added]) > limit
    ensures key in Keys(kept[k..] + [added]) <==> Total(From(kept, key)) + added.size <= limit
  {
    var p := FromPosition(kept, key);
    KeysAppend(kept[k..], added);
    TotalConcat(kept[p..], [added]);
    TotalConcat(kept[k..], [added]);
    if k <= p {
      SuffixTotal(kept, k, p);
    }
  }

  /** Storing another key evicts an entry exactly if it, those used later and the new one do not fit. */
  lemma EvictedIff(s: Settings, c: Cache, op: Op, key: string)
    requires DistinctKeys(c.items) && key in Keys(c.items)
    requires op.PutOp? && op.key != key && Stores(s, op, op.key)
    ensures key in Keys(Step(s, c, op).items) <==>
            Total(From(Without(c.items, {op.key}), key)) + |op.source.value| <= s.maxBytes
  {
    var k := PutIsLru(c, op.key, op.source.value, op.used, op.expiryBase + s.ttl, s.maxBytes);
    WithoutDistinct(c.items, {op.key});
    WithoutKeys(c.items, {op.key});
    SuffixHasIff(Without(c.items, {op.key}), Made(s, op), k, key, s.maxBytes);
  }

  lemma PutRemovesIff(s: Settings, c: Cache, op: Op, key: string, deadline: int)
    requires DistinctKeys(c.items) && key in Keys(c.items) && op.PutOp? && !Stores(s, op, key)
    ensures key in Keys(Step(s, c, op).items) <==> !Removes(s, c, op, key, deadline)
  {
    WithoutKeys(c.items, {op.key});
    if op.key != key && Stores(s, op, op.key) {
      EvictedIff(s, c, op, key);
    }
  }

  lemma GetRemovesIff(s: Settings, c: Cache, op: Op, key: string, x: Item)
    requires DistinctKeys(c.items) && x in c.items && x.key == key && op.GetOp?
    ensures key in Keys(Step(s, c, op).items) <==> !Removes(s, c, op, key, x.expires)
  {
    WithoutKeys(c.items, {op.key});
    KeysByIndex(c.items);
    var found := Find(c.items, op.key);
    if found.Some? {
      KeysAppend(Without(c.items, {op.key}), found.value.(lastUsed := op.used));
    }
  }

  lemma {:induction false} ExpiredIff(v: seq<Item>, now: int, x: Item)
    requires DistinctKeys(v) && x in v
    ensures x.key in ExpiredKeys(v, now) <==> now > x.expires
  {
    if x == v[0] {
      ExpiredAreKeys(v[1..], now);
    } else {
      ExpiredIff(v[1..], now, x);
      KeysByIndex(v[1..]);
    }
  }

  lemma SweepRemovesIff(s: Settings, c: Cache, now: int, x: Item)
    requires DistinctKeys(c.items) && x in c.items
    ensures x.key in Keys(Step(s, c, SweepOp(now)).items) <==> now <= x.expires
  {
    WithoutKeys(c.items, ExpiredKeys(c.items, now));
    ExpiredIff(c.items, now, x);
    KeysByIndex(c.items);
  }

  /** An entry outlives an operation exactly if that does not remove it. */
  lemma RemovedIff(s: Settings, c: Cache, op: Op, key: string, x: Item)
    requires DistinctKeys(c.items) && x in c.items && x.key == key && !Stores(s, op, key)
    ensures key in Keys(Step(s, c, op).items) <==> !Removes(s, c, op, key, x.expires)
  {
    KeysByIndex(c.items);
    match op {
      case GetOp(_, _, _) => GetRemovesIff(s, c, op, key, x);
      case PutOp(_, _, _, _, _) => PutRemovesIff(s, c, op, key, x.expires);
      case DeleteOp(k, _) => WithoutKeys(c.items, {k});
      case ClearOp(_, _) => WithoutKeys(c.items, Keys(c.items));
      case SweepOp(now) => SweepRemovesIff(s, c, now, x);
    }
  }

  // ---------- when an entry is there, and when it is served ----------

  /** The key was last stored at `i` and nothing has removed it since. */
  ghost predicate Lives(s: Settings, ops: seq<Op>, key: string, i: nat) {
    StoredLast(s, ops, key, i) &&
    forall j :: i < j < |ops| ==> !Removes(s, At(s, ops, j), ops[j], key, ops[i].expiryBase + s.ttl)
  }

  lemma KeyHasItem(c: Cache, key: string) returns (x: Item)
    requires key in Keys(c.items)
    ensures x in c.items && x.key == key
  {
    KeysByIndex(c.items);
    var i :| 0 <= i < |c.items| && c.items[i].key == key;
    x := c.items[i];
  }

  lemma StoringKeeps(s: Settings, c: Cache, op: Op, key: string)
    requires DistinctKeys(c.items) && Stores(s, op, key)
    ensures key in Keys(Step(s, c, op).items)
  {
    var k := PutIsLru(c, key, op.source.value, op.used, op.expiryBase + s.ttl, s.maxBytes);
    KeysAppend(Without(c.items, {key})[k..], Made(s, op));
  }

  lemma AbsentStays(s: Settings, c: Cache, op: Op, key: string)
    requires key !in Keys(c.items) && !Stores(s, op, key)
    ensures key !in Keys(Step(s, c, op).items)
  {
    if key in Keys(Step(s, c, op).items) {
      var x := KeyHasItem(Step(s, c, op), key);
      StepItem(s, c, op, x);
      KeysByIndex(c.items);
    }
  }

  /** After being stored at `i`, the key is there up to `n` exactly if nothing in between removes it. */
  lemma {:induction false} ThereUpTo(s: Settings, ops: seq<Op>, key: string, i: nat, n: nat)
    requires StoredLast(s, ops, key, i) && i < n <= |ops|
    ensures key in Keys(At(s, ops, n).items) <==>
            forall j :: i < j < n ==> !Removes(s, At(s, ops, j), ops[j], key, ops[i].expiryBase + s.ttl)
    decreases n
  {
    var c := At(s, ops, n - 1);
    AtNext(s, ops, n - 1);
    AtDistinct(s, ops, n - 1);
    if n == i + 1 {
      StoringKeeps(s, c, ops[i], key);
    } else {
      ThereUpTo(s, ops, key, i, n - 1);
      if key in Keys(c.items) {
        var x := KeyHasItem(c, key);
        var k, _ := ItemTimes(s, ops, n - 1, x);
        SameStore(s, ops, n - 1, key, i, k);
        RemovedIff(s, c, ops[n - 1], key, x);
      } else {
        AbsentStays(s, c, ops[n - 1], key);
      }
    }
  }

  lemma SameStore(s: Settings, ops: seq<Op>, n: nat, key: string, i: nat, k: nat)
    requires StoredLast(s, ops, key, i) && i < n <= |ops| && StoredLast(s, ops[..n], key, k)
    ensures i == k
  {
    assert Stores(s, ops[..n][k], key) && ops[..n][k] == ops[k];
    assert ops[..n][i] == ops[i];
  }

  /** An entry is in the cache after a trace if and only if the key was stored and nothing since its last
      storing removes it: no failed replacement, deletion or clearing, no sweep or access after its
      deadline, no access without its file, and no storing that it and the entries used later leave
      no room for. */
  lemma ResidentIff(s: Settings, ops: seq<Op>, key: string)
    ensures key in Keys(Trace(s, Empty, ops).items) <==> exists i: nat :: Lives(s, ops, key, i)
  {
    var n := |ops|;
    assert ops[..n] == ops;
    if key in Keys(At(s, ops, n).items) {
      var x := KeyHasItem(At(s, ops, n), key);
      var i, _ := ItemTimes(s, ops, n, x);
      ThereUpTo(s, ops, key, i, n);
      assert Lives(s, ops, key, i);
    }
    if i: nat :| Lives(s, ops, key, i) {
      ThereUpTo(s, ops, key, i, n);
    }
  }

  /** A Get after a trace hits if and only if its time is no later than the expiry time read by the
      last Put that stored the key plus the time to live, nothing has removed the entry since, and
      its file is there. */
  lemma HitIff(s: Settings, ops: seq<Op>, key: string, now: int, used: int)
    ensures GetSpec(Trace(s, Empty, ops), key, now, used).1 <==>
            Escape(key) in Trace(s, Empty, ops).files &&
            exists i: nat :: Lives(s, ops, key, i) && now <= ops[i].expiryBase + s.ttl
  {
    var c, n := Trace(s, Empty, ops), |ops|;
    assert ops[..n] == ops;
    KeysByIndex(c.items);
    ResidentIff(s, ops, key);
    if key in Keys(c.items) {
      var x := Find(c.items, key).value;
      var i, _ := ItemTimes(s, ops, n, x);
      var k: nat :| Lives(s, ops, key, k);
      SameStore(s, ops, n, key, k, i);
      forall j: nat | Lives(s, ops, key, j) ensures j == i {
        SameStore(s, ops, n, key, j, i);
      }
    }
  }

  /** The list is in order of last use: each item shows the time of the last operation that stored or
      hit its key, and these times do not decrease along the list. */
  lemma RecencyIsLastUse(s: Settings, ops: seq<Op>, from: int, a: nat, b: nat) returns (i: nat, j: nat)
    requires Clocked(ops, from) && s.maxBytes >= 0 && a < b < |Trace(s, Empty, ops).items|
    ensures var v := Trace(s, Empty, ops).items;
            && UsedLast(s, ops, v[a].key, i) && UsedLast(s, ops, v[b].key, j)
            && FromUse(s, ops, v[a], i) && FromUse(s, ops, v[b], j)
            && v[a].lastUsed <= v[b].lastUsed
  {
    var v := Trace(s, Empty, ops).items;
    assert ops[..|ops|] == ops;
    var k;
    k, i := ItemTimes(s, ops, |ops|, v[a]);
    k, j := ItemTimes(s, ops, |ops|, v[b]);
    var upTo := TraceGood(s, Empty, ops, from);
    OrderedByIndex(v, upTo, a, b);
  }

  lemma {:induction false} OrderedByIndex(v: seq<Item>, upTo: int, a: nat, b: nat)
    requires Ordered(v, upTo) && a <= b < |v|
    ensures v[a].lastUsed <= v[b].lastUsed <= upTo
    decreases |v|
  {
    var n := |v| - 1;
    if b < n {
      OrderedByIndex(v[..n], v[n].lastUsed, a, b);
    } else if a < n {
      OrderedByIndex(v[..n], v[n].lastUsed, a, n - 1);
    }
  }
}
