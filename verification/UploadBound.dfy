/** How much one buffered upload can hold when several parts arrive at once. The size check and
    the store are separate critical sections, so this follows every interleaving of them. */
module UploadBound {
  import opened Text
  import opened Multipart
  import opened FileUploads

  /** Part numbers go from 1 to this. */
  const MAX_PARTS: nat := 10_000

  /** One request in flight: still to be checked, or past the check with its declared size. */
  datatype Slot = Idle | Checked(size: int)

  datatype State = State(parts: map<int, Bytes>, slots: seq<Slot>)

  datatype Action = Check(slot: nat, size: int)
                  | Store(slot: nat, part: int, body: Body)
                  | GiveUp(slot: nat)

  function Start(slots: nat): State {
    State(map[], seq(slots, _ => Idle))
  }

  ghost function Total(s: State): nat {
    SizeOf(s.parts.Keys, s.parts)
  }

  ghost predicate Enabled(s: State, a: Action) {
    match a
    case Check(k, size) =>
      k < |s.slots| && s.slots[k].Idle? && size <= MAX_PART && Total(s) + size <= MAX_TOTAL
    case Store(k, part, body) =>
      1 <= part <= MAX_PARTS && k < |s.slots| && s.slots[k].Checked? && ReadPart(body, s.slots[k].size).Ok?
    case GiveUp(k) => k < |s.slots|
  }

  ghost function Apply(s: State, a: Action): State
    requires Enabled(s, a)
  {
    match a
    case Check(k, size) => s.(slots := s.slots[k := Checked(size)])
    case Store(k, part, body) =>
      State(s.parts[part := ReadPart(body, s.slots[k].size).value], s.slots[k := Idle])
    case GiveUp(k) => s.(slots := s.slots[k := Idle])
  }

  ghost predicate Runs(s: State, run: seq<Action>, t: State)
    decreases |run|
  {
    if run == [] then s == t
    else Enabled(s, run[0]) && Runs(Apply(s, run[0]), run[1..], t)
  }

  // ---------- the bound ----------

  /** Most bytes that a slot may still add. */
  function Pending(slot: Slot): nat {
    match slot
    case Idle => 0
    case Checked(size) => if size > 0 then size else MAX_PART
  }

  function AllPending(slots: seq<Slot>): nat {
    if slots == [] then 0 else Pending(slots[0]) + AllPending(slots[1..])
  }

  lemma {:induction false} PendingUpdate(slots: seq<Slot>, k: nat, slot: Slot)
    requires k < |slots|
    ensures AllPending(slots[k := slot]) == AllPending(slots) - Pending(slots[k]) + Pending(slot)
  {
    if k == 0 {
      assert slots[k := slot][1..] == slots[1..];
    } else {
      assert slots[k := slot][1..] == slots[1..][k - 1 := slot];
      PendingUpdate(slots[1..], k - 1, slot);
    }
  }

  ghost predicate NoneLarge(slots: seq<Slot>) {
    forall k :: 0 <= k < |slots| && slots[k].Checked? ==> slots[k].size <= MAX_PART
  }

  lemma {:induction false} PendingAtMost(slots: seq<Slot>)
    requires NoneLarge(slots)
    ensures AllPending(slots) <= |slots| * MAX_PART
  {
    if slots != [] {
      PendingAtMost(slots[1..]);
    }
  }

  /** Declared sizes are at least `least`. */
  ghost predicate Declares(run: seq<Action>, least: int) {
    forall i :: 0 <= i < |run| && run[i].Check? ==> run[i].size >= least
  }

  /** Room for all slots at once: a slot that declares a positive size has its own part counted in
      the check, one that does not may still add a full part. */
  function Room(slots: nat, least: int): int {
    if least >= 1 then MAX_TOTAL + (slots - 1) * MAX_PART else MAX_TOTAL - least + slots * MAX_PART
  }

  /** The most bytes that can ever be buffered. */
  function Most(slots: nat, least: int): int {
    if slots == 0 || least > MAX_PART then 0
    else if Room(slots, least) <= MAX_PARTS * MAX_PART then Room(slots, least)
    else MAX_PARTS * MAX_PART
  }

  ghost predicate PartsOk(parts: map<int, Bytes>) {
    forall k :: k in parts ==> 1 <= k <= MAX_PARTS && |parts[k]| <= MAX_PART
  }

  ghost predicate Inv(s: State, least: int) {
    && NoneLarge(s.slots) && PartsOk(s.parts)
    && Total(s) + AllPending(s.slots) <= Room(|s.slots|, least)
  }

  lemma ReadPartSize(body: Body, size: int)
    requires ReadPart(body, size).Ok? && size <= MAX_PART
    ensures |ReadPart(body, size).value| <= Pending(Checked(size)) <= MAX_PART
  {
  }

  lemma StepInv(s: State, a: Action, least: int)
    requires Inv(s, least) && Enabled(s, a) && (a.Check? ==> a.size >= least)
    ensures Inv(Apply(s, a), least)
  {
    match a
    case Check(k, size) =>
      PendingUpdate(s.slots, k, Checked(size));
      CheckKeepsRoom(s, k, size, least);
    case Store(k, part, body) =>
      ReadPartSize(body, s.slots[k].size);
      PendingUpdate(s.slots, k, Idle);
      SizeAfterStore(s.parts, part, ReadPart(body, s.slots[k].size).value);
    case GiveUp(k) =>
      PendingUpdate(s.slots, k, Idle);
  }

  /** At the moment of a check the total is low enough for every slot to be pending in full. */
  lemma CheckKeepsRoom(s: State, k: nat, size: int, least: int)
    requires NoneLarge(s.slots) && Enabled(s, Check(k, size)) && size >= least
    ensures Total(s) + AllPending(s.slots) + Pending(Checked(size)) <= Room(|s.slots|, least)
  {
    var full := s.slots[k := Checked(0)];
    PendingUpdate(s.slots, k, Checked(0));
    PendingAtMost(full);
    assert |full| == |s.slots|;
    assert (|s.slots| - 1) * MAX_PART == |s.slots| * MAX_PART - MAX_PART;
  }

  lemma {:induction false} RunInv(s: State, run: seq<Action>, t: State, least: int)
    requires Inv(s, least) && Runs(s, run, t) && Declares(run, least)
    ensures Inv(t, least) && |t.slots| == |s.slots|
    decreases |run|
  {
    if run != [] {
      StepInv(s, run[0], least);
      RunInv(Apply(s, run[0]), run[1..], t, least);
    }
  }

  /** Without a slot, or with sizes above the part limit, nothing ever passes the check. */
  ghost predicate Unused(s: State) {
    s.parts == map[] && forall k :: 0 <= k < |s.slots| ==> s.slots[k].Idle?
  }

  lemma {:induction false} NothingPasses(s: State, run: seq<Action>, t: State, least: int)
    requires Unused(s) && Runs(s, run, t) && Declares(run, least)
    requires |s.slots| == 0 || least > MAX_PART
    ensures Unused(t)
    decreases |run|
  {
    if run != [] {
      assert run[0].GiveUp?;
      NothingPasses(Apply(s, run[0]), run[1..], t, least);
    }
  }

  lemma {:induction false} StartInv(slots: nat)
    ensures AllPending(Start(slots).slots) == 0
    decreases slots
  {
    if slots > 0 {
      StartInv(slots - 1);
      assert Start(slots).slots[1..] == Start(slots - 1).slots;
    }
  }

  lemma {:induction false} NumbersUpTo(ks: set<int>, n: nat)
    requires forall k :: k in ks ==> 1 <= k <= n
    ensures |ks| <= n
    decreases n
  {
    if |ks| > 0 {
      var k := Any(ks);
      assert k in ks && 1 <= k <= n;
      NumbersUpTo(ks - {n}, n - 1);
      assert |ks| <= |ks - {n}| + 1;
    }
  }

  lemma {:induction false} SizeAtMost(ks: set<int>, parts: map<int, Bytes>)
    requires ks <= parts.Keys && forall k :: k in ks ==> |parts[k]| <= MAX_PART
    ensures SizeOf(ks, parts) <= |ks| * MAX_PART
    decreases |ks|
  {
    if |ks| > 0 {
      SizeAtMost(ks - {Any(ks)}, parts);
    }
  }

  /** In every interleaving, with at most `slots` parts in flight and declared sizes of at least
      `least`, the buffered bytes stay within `Most`. */
  lemma BufferedBytesBounded(slots: nat, run: seq<Action>, t: State, least: int)
    requires Runs(Start(slots), run, t) && Declares(run, least)
    ensures Total(t) <= Most(slots, least)
  {
    if slots == 0 || least > MAX_PART {
      NothingPasses(Start(slots), run, t, least);
    } else {
      StartInv(slots);
      assert (slots - 1) * MAX_PART >= 0;
      RunInv(Start(slots), run, t, least);
      NumbersUpTo(t.parts.Keys, MAX_PARTS);
      SizeAtMost(t.parts.Keys, t.parts);
    }
  }

  // ---------- the bound is attained ----------

  ghost predicate Reachable(slots: nat, least: int, t: State) {
    exists run :: Runs(Start(slots), run, t) && Declares(run, least)
  }

  lemma {:induction false} RunsAppend(s: State, run: seq<Action>, t: State, a: Action)
    requires Runs(s, run, t) && Enabled(t, a)
    ensures Runs(s, run + [a], Apply(t, a))
    decreases |run|
  {
    var longer := run + [a];
    if run == [] {
      assert longer[1..] == [];
    } else {
      assert longer[1..] == run[1..] + [a];
      RunsAppend(Apply(s, run[0]), run[1..], t, a);
    }
  }

  lemma ReachStep(slots: nat, least: int, t: State, a: Action)
    requires Reachable(slots, least, t) && Enabled(t, a) && (a.Check? ==> a.size >= least)
    ensures Reachable(slots, least, Apply(t, a))
  {
    var run :| Runs(Start(slots), run, t) && Declares(run, least);
    RunsAppend(Start(slots), run, t, a);
    assert Declares(run + [a], least);
  }

  function Zeros(n: nat): Bytes {
    seq(n, _ => '0')
  }

  /** Parts 1 to `n`, all full. */
  function FullParts(n: nat): map<int, Bytes> {
    if n == 0 then map[] else FullParts(n - 1)[n := Zeros(MAX_PART)]
  }

  /** The same, and `r` bytes more in the last possible part. */
  function Parts(n: nat, r: nat): map<int, Bytes> {
    if r == 0 then FullParts(n) else FullParts(n)[MAX_PARTS := Zeros(r)]
  }

  lemma {:induction false} FullPartsBelow(n: nat, k: int)
    requires k in FullParts(n)
    ensures k <= n
  {
    if k != n {
      FullPartsBelow(n - 1, k);
    }
  }

  lemma {:induction false} FullPartsSize(n: nat)
    ensures SizeOf(FullParts(n).Keys, FullParts(n)) == n * MAX_PART
  {
    if n > 0 {
      FullPartsSize(n - 1);
      if n in FullParts(n - 1) {
        FullPartsBelow(n - 1, n);
      }
      SizeAfterStore(FullParts(n - 1), n, Zeros(MAX_PART));
    }
  }

  /** A point of the schedule that fills an upload: `n` full parts and `r` bytes more are stored, and
      the first `checked` slots are past the check, all with the same declared size. */
  datatype Plan = Plan(slots: nat, size: int, n: nat, r: nat, checked: nat) {
    predicate Valid() {
      && n <= MAX_PARTS && (r > 0 ==> n < MAX_PARTS && r <= MAX_PART)
      && checked <= slots && (size <= 0 || size == MAX_PART)
    }

    function Bytes(): nat {
      n * MAX_PART + r
    }
  }

  function Stage(p: Plan): State {
    State(Parts(p.n, p.r), seq(p.slots, k => if k < p.checked then Checked(p.size) else Idle))
  }

  ghost predicate Reached(p: Plan, least: int) {
    Reachable(p.slots, least, Stage(p))
  }

  lemma StageBytes(p: Plan)
    requires p.Valid()
    ensures Total(Stage(p)) == p.Bytes()
  {
    FullPartsSize(p.n);
    if p.r > 0 {
      if MAX_PARTS in FullParts(p.n) {
        FullPartsBelow(p.n, MAX_PARTS);
      }
      SizeAfterStore(FullParts(p.n), MAX_PARTS, Zeros(p.r));
    }
  }

  lemma CheckNext(p: Plan, least: int)
    requires p.Valid() && Reached(p, least) && p.checked < p.slots
    requires least <= p.size && p.Bytes() + p.size <= MAX_TOTAL
    ensures Reached(p.(checked := p.checked + 1), least)
  {
    StageBytes(p);
    ReachStep(p.slots, least, Stage(p), Check(p.checked, p.size));
    assert Apply(Stage(p), Check(p.checked, p.size)) == Stage(p.(checked := p.checked + 1));
  }

  lemma FullBody(size: int)
    requires size <= 0 || size == MAX_PART
    ensures ReadPart(Body(Zeros(MAX_PART), false), size) == Ok(Zeros(MAX_PART))
  {
    assert Zeros(MAX_PART)[..MAX_PART] == Zeros(MAX_PART);
  }

  lemma NextPart(n: nat, r: nat)
    requires r > 0 ==> n + 1 < MAX_PARTS
    ensures Parts(n, r)[n + 1 := Zeros(MAX_PART)] == Parts(n + 1, r)
  {
  }

  lemma StoreNext(p: Plan, least: int)
    requires p.Valid() && Reached(p, least) && p.checked > 0
    requires p.(n := p.n + 1).Valid()
    ensures Reached(p.(n := p.n + 1, checked := p.checked - 1), least)
  {
    FullBody(p.size);
    NextPart(p.n, p.r);
    var a := Store(p.checked - 1, p.n + 1, Body(Zeros(MAX_PART), false));
    ReachStep(p.slots, least, Stage(p), a);
    assert Apply(Stage(p), a) == Stage(p.(n := p.n + 1, checked := p.checked - 1));
  }

  lemma StartReached(p: Plan, least: int)
    requires p.n == 0 && p.r == 0 && p.checked == 0
    ensures Reached(p, least)
  {
    assert Start(p.slots) == Stage(p);
    assert Runs(Start(p.slots), [], Start(p.slots)) && Declares([], least);
  }

  /** One part after another, as long as the check lets the last one pass. */
  lemma {:induction false} OneByOne(p: Plan, least: int)
    requires p.Valid() && p.slots > 0 && p.checked == 0 && p.r == 0
    requires least <= p.size && (p.n - 1) * MAX_PART + p.size <= MAX_TOTAL
    ensures Reached(p, least)
    decreases p.n
  {
    if p.n == 0 {
      StartReached(p, least);
    } else {
      var before := p.(n := p.n - 1);
      OneByOne(before, least);
      CheckNext(before, least);
      StoreNext(before.(checked := 1), least);
    }
  }

  /** A part of `r` bytes, declared with no size. */
  lemma AddRest(p: Plan, r: nat, least: int)
    requires p.Valid() && p.slots > 0 && p.checked == 0 && p.r == 0 && p.(r := r).Valid()
    requires least <= p.size <= 0 && p.Bytes() + p.size <= MAX_TOTAL && Reached(p, least)
    ensures Reached(p.(r := r), least)
  {
    if r > 0 {
      CheckNext(p, least);
      var s := Stage(p.(checked := 1));
      var a := Store(0, MAX_PARTS, Body(Zeros(r), false));
      ReachStep(p.slots, least, s, a);
      assert Apply(s, a) == Stage(p.(r := r));
    }
  }

  /** Slots pass the check one after another before any of them stores. */
  lemma {:induction false} CheckAll(p: Plan, users: nat, least: int)
    requires p.Valid() && p.checked == 0 && users <= p.slots && Reached(p, least)
    requires least <= p.size && p.Bytes() + p.size <= MAX_TOTAL
    ensures Reached(p.(checked := users), least)
  {
    if users > 0 {
      CheckAll(p, users - 1, least);
      CheckNext(p.(checked := users - 1), least);
    }
  }

  /** Then each of them stores a full part, the last slot first. */
  lemma {:induction false} StoreAll(p: Plan, least: int)
    requires p.Valid() && Reached(p, least) && p.(n := p.n + p.checked).Valid()
    ensures Reached(p.(n := p.n + p.checked, checked := 0), least)
    decreases p.checked
  {
    if p.checked > 0 {
      StoreNext(p, least);
      StoreAll(p.(n := p.n + 1, checked := p.checked - 1), least);
    }
  }

  /** Filling up to the limit, and then one full part more for each of `users` slots. */
  lemma Overfill(p: Plan, r: nat, users: nat, least: int) returns (t: State)
    requires p.Valid() && p.slots > 0 && p.checked == 0 && p.r == 0 && users <= p.slots
    requires least <= p.size && p.Bytes() + r + p.size <= MAX_TOTAL
    requires p.(r := r, n := p.n + users).Valid() && (r > 0 ==> p.size <= 0)
    ensures Reachable(p.slots, least, t) && Total(t) == (p.n + users) * MAX_PART + r
  {
    OneByOne(p, least);
    if r > 0 {
      AddRest(p, r, least);
    }
    var full := p.(r := r);
    CheckAll(full, users, least);
    StoreAll(full.(checked := users), least);
    var end := full.(n := p.n + users);
    t := Stage(end);
    StageBytes(end);
  }

  /** The bound is exact: for any number of slots and any least size, some interleaving reaches it. */
  lemma BoundIsAttained(slots: nat, least: int) returns (t: State)
    ensures Reachable(slots, least, t) && Total(t) == Most(slots, least)
  {
    if slots == 0 || least > MAX_PART {
      StartReached(Plan(slots, 0, 0, 0, 0), least);
      t := Stage(Plan(slots, 0, 0, 0, 0));
      StageBytes(Plan(slots, 0, 0, 0, 0));
    } else if least >= 1 {
      t := AttainPositive(slots, least);
    } else {
      t := AttainUndeclared(slots, least);
    }
  }

  lemma AttainPositive(slots: nat, least: int) returns (t: State)
    requires slots > 0 && 1 <= least <= MAX_PART
    ensures Reachable(slots, least, t) && Total(t) == Most(slots, least)
  {
    var full: nat := MAX_TOTAL / MAX_PART - 1;
    var users: nat := Min(slots, MAX_PARTS - full);
    t := Overfill(Plan(slots, MAX_PART, full, 0, 0), 0, users, least);
  }

  lemma AttainUndeclared(slots: nat, least: int) returns (t: State)
    requires slots > 0 && least <= 0
    ensures Reachable(slots, least, t) && Total(t) == Most(slots, least)
  {
    var room := MAX_TOTAL - least;
    var q, r := room / MAX_PART, room % MAX_PART;
    assert room == q * MAX_PART + r;
    if q + slots < MAX_PARTS {
      t := Overfill(Plan(slots, least, q, 0, 0), r, slots, least);
    } else {
      var users: nat := Min(slots, MAX_PARTS);
      var full: nat := MAX_PARTS - users;
      assert full <= q;
      t := Overfill(Plan(slots, least, full, 0, 0), 0, users, least);
    }
  }

  /** With a negative enough size declared each time, requests one at a time fill every part. */
  lemma NegativeSizesDefeatTheLimit() returns (t: State)
    ensures Reachable(1, -(MAX_PARTS * MAX_PART), t) && Total(t) == MAX_PARTS * MAX_PART
  {
    t := BoundIsAttained(1, -(MAX_PARTS * MAX_PART));
  }

  // ---------- when the limit is kept ----------

  ghost predicate LimitKept(slots: nat, least: int) {
    forall run, t :: Runs(Start(slots), run, t) && Declares(run, least) ==> Total(t) <= MAX_TOTAL
  }

  /** Every run keeps the documented limit if and only if nothing can pass the check, or parts come
      one at a time with positive declared sizes. */
  lemma LimitKeptIff(slots: nat, least: int)
    ensures LimitKept(slots, least) <==>
            slots == 0 || least > MAX_PART || (slots == 1 && least >= 1)
  {
    if slots == 0 || least > MAX_PART || (slots == 1 && least >= 1) {
      forall run, t | Runs(Start(slots), run, t) && Declares(run, least) ensures Total(t) <= MAX_TOTAL {
        BufferedBytesBounded(slots, run, t, least);
      }
    } else {
      var t := BoundIsAttained(slots, least);
      assert Most(slots, least) > MAX_TOTAL by {
        assert slots >= 2 ==> (slots - 1) * MAX_PART >= MAX_PART;
        assert slots * MAX_PART >= MAX_PART;
      }
      var run :| Runs(Start(slots), run, t) && Declares(run, least);
      assert Total(t) > MAX_TOTAL;
    }
  }
}
