/** Sorting part numbers in place. */
module PartOrder {
  import opened Multipart

  /** Everything before `i` is final: no entry is greater than a later one. */
  ghost predicate SettledUpTo(xs: seq<int>, i: int) {
    forall p, q :: 0 <= p < q < |xs| && p < i ==> xs[p] <= xs[q]
  }

  predicate Rearranged(xs: seq<int>, ys: seq<int>) {
    multiset(xs) == multiset(ys)
  }

  /** Exchanging two entries that are out of order, both at or after the settled part. */
  lemma SwapSettled(xs: seq<int>, ys: seq<int>, i: int, j: int)
    requires 0 <= i < j < |xs| && ys == xs[i := xs[j]][j := xs[i]]
    requires SettledUpTo(xs, i) && xs[i] > xs[j]
    requires forall q :: i < q < j ==> xs[i] <= xs[q]
    ensures Rearranged(ys, xs) && SettledUpTo(ys, i)
    ensures forall q :: i < q <= j ==> ys[i] <= ys[q]
  {
    assert forall p, q :: 0 <= p < i <= q < |xs| ==> xs[p] <= xs[q];
    forall p, q | 0 <= p < q < |ys| && p < i ensures ys[p] <= ys[q] {
      assert ys[p] == xs[p];
      if q == i {
        assert ys[q] == xs[j];
      } else if q == j {
        assert ys[q] == xs[i];
      } else {
        assert ys[q] == xs[q];
      }
    }
  }

  /** One pass of the exchange sort: the least of the entries from `i` on moves to `i`. */
  method PlaceLeast(a: array<int>, i: nat)
    requires i < a.Length && SettledUpTo(a[..], i)
    modifies a
    ensures SettledUpTo(a[..], i + 1)
    ensures Rearranged(a[..], old(a[..]))
  {
    var j := i + 1;
    while j < a.Length
      invariant i < j <= a.Length
      invariant Rearranged(a[..], old(a[..]))
      invariant SettledUpTo(a[..], i)
      invariant forall q :: i < q < j ==> a[..][i] <= a[..][q]
    {
      if a[i] > a[j] {
        ghost var before := a[..];
        a[i], a[j] := a[j], a[i];
        SwapSettled(before, a[..], i, j);
      }
      j := j + 1;
    }
  }

  /** The exchange sort written out in the file backend; `sort.Ints` meets the same contract. */
  method SortAscending(a: array<int>)
    modifies a
    ensures NonDecreasing(a[..]) && Rearranged(a[..], old(a[..]))
  {
    var i := 0;
    while i < a.Length
      invariant 0 <= i <= a.Length
      invariant Rearranged(a[..], old(a[..]))
      invariant SettledUpTo(a[..], i)
    {
      PlaceLeast(a, i);
      i := i + 1;
    }
  }

  /** Part numbers of a table, collected in the map's arbitrary order and then sorted. */
  method PartNumbers(keys: set<int>) returns (ks: seq<int>)
    ensures ks == Sorted(keys)
  {
    var left := keys;
    var found: seq<int> := [];
    while |left| > 0
      invariant left <= keys
      invariant multiset(found) + multiset(left) == multiset(keys)
      decreases left
    {
      var k := Pick(left);
      found := found + [k];
      left := left - {k};
    }
    var a := new int[|found|](i requires 0 <= i < |found| => found[i]);
    assert a[..] == found;
    SortAscending(a);
    SortedFromMultiset(a[..], keys);
    return a[..];
  }
}
