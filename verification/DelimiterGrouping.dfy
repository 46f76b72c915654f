/** One page of an S3 listing: keys are grouped by a delimiter after the request's prefix. */
module DelimiterGrouping {
  import opened Text
  import opened FileListing

  /** The limit sent to the backend. */
  function MaxKeys(param: string): (n: nat)
    ensures 1 <= n <= 1000
  {
    var parsed := if param == "" then None else ParseInt(param, 10);
    if parsed.None? || parsed.value <= 0 || parsed.value > 1000 then 1000 else parsed.value
  }

  // ---------- the common prefix of a key ----------

  /** The part of a key up to and including the first delimiter after the prefix. */
  function GroupOf(key: string, prefix: string, delimiter: string): Option<string>
    requires prefix <= key
  {
    var rest := key[|prefix|..];
    var i := Index(rest, delimiter);
    if i >= 0 then Some(prefix + rest[..i + |delimiter|]) else None
  }

  /** A common prefix is the shortest one that ends in the delimiter. */
  ghost predicate IsGroup(cp: string, prefix: string, delimiter: string) {
    && |prefix| + |delimiter| <= |cp| && prefix <= cp
    && OccursAt(cp[|prefix|..], delimiter, |cp| - |prefix| - |delimiter|)
    && forall j :: 0 <= j < |cp| - |prefix| - |delimiter| ==> !OccursAt(cp[|prefix|..], delimiter, j)
  }

  lemma OccursInLonger(s: string, t: string, sub: string, j: int)
    requires s <= t && j + |sub| <= |s|
    ensures OccursAt(s, sub, j) <==> OccursAt(t, sub, j)
  {
    if j >= 0 {
      assert s[j..j + |sub|] == t[j..j + |sub|];
    }
  }

  /** A key is in a group exactly when the group's prefix is a prefix of the key. */
  lemma GroupOfIff(key: string, prefix: string, delimiter: string, cp: string)
    requires prefix <= key
    ensures GroupOf(key, prefix, delimiter) == Some(cp) <==> IsGroup(cp, prefix, delimiter) && cp <= key
  {
    if GroupOf(key, prefix, delimiter).Some? {
      GroupOfShape(key, prefix, delimiter);
    }
    if IsGroup(cp, prefix, delimiter) && cp <= key {
      ShapeIsGroupOf(key, prefix, delimiter, cp);
    }
  }

  lemma ShapeIsGroupOf(key: string, prefix: string, delimiter: string, cp: string)
    requires prefix <= key && IsGroup(cp, prefix, delimiter) && cp <= key
    ensures GroupOf(key, prefix, delimiter) == Some(cp)
  {
    var head, rest := cp[|prefix|..], key[|prefix|..];
    var k := |head| - |delimiter|;
    assert head == rest[..|head|];
    forall j | 0 <= j <= k ensures OccursAt(head, delimiter, j) <==> OccursAt(rest, delimiter, j) {
      OccursInLonger(head, rest, delimiter, j);
    }
    IndexIs(rest, delimiter, k);
    assert cp == prefix + head;
  }

  lemma GroupOfShape(key: string, prefix: string, delimiter: string)
    requires prefix <= key && Index(key[|prefix|..], delimiter) >= 0
    ensures var cp := GroupOf(key, prefix, delimiter).value;
            IsGroup(cp, prefix, delimiter) && cp <= key
  {
    var rest := key[|prefix|..];
    var i := Index(rest, delimiter);
    var head := rest[..i + |delimiter|];
    var cp := prefix + head;
    assert cp[|prefix|..] == head;
    forall j | 0 <= j <= i ensures OccursAt(head, delimiter, j) <==> OccursAt(rest, delimiter, j) {
      OccursInLonger(head, rest, delimiter, j);
    }
    assert key == prefix + rest;
  }

  /** No group's prefix is a prefix of another's, even for delimiters of several characters. */
  lemma GroupsArePrefixFree(a: string, b: string, prefix: string, delimiter: string)
    requires IsGroup(a, prefix, delimiter) && IsGroup(b, prefix, delimiter) && a <= b
    ensures a == b
  {
    var k := |a| - |prefix| - |delimiter|;
    var headA, headB := a[|prefix|..], b[|prefix|..];
    assert headA <= headB;
    OccursInLonger(headA, headB, delimiter, k);
    assert k >= |b| - |prefix| - |delimiter|;
  }

  // ---------- grouping a page ----------

  ghost predicate AllHavePrefix(objects: Objects, prefix: string) {
    forall i :: 0 <= i < |objects| ==> prefix <= objects[i].key
  }

  /** Objects with no delimiter after the prefix, in listing order. */
  function Direct(objects: Objects, prefix: string, delimiter: string): Objects
    requires AllHavePrefix(objects, prefix)
  {
    if objects == [] then []
    else
      var before := Direct(objects[..|objects| - 1], prefix, delimiter);
      var last := objects[|objects| - 1];
      if GroupOf(last.key, prefix, delimiter).None? then before + [last] else before
  }

  /** The groups of the others, each at its first appearance. */
  function Groups(objects: Objects, prefix: string, delimiter: string): seq<string>
    requires AllHavePrefix(objects, prefix)
  {
    if objects == [] then []
    else
      var before := Groups(objects[..|objects| - 1], prefix, delimiter);
      var group := GroupOf(objects[|objects| - 1].key, prefix, delimiter);
      if group.None? || group.value in before then before else before + [group.value]
  }

  lemma GroupingNext(objects: Objects, i: nat, prefix: string, delimiter: string)
    requires AllHavePrefix(objects, prefix) && i < |objects|
    ensures AllHavePrefix(objects[..i], prefix) && AllHavePrefix(objects[..i + 1], prefix)
    ensures var group := GroupOf(objects[i].key, prefix, delimiter);
            var contents, groups := Direct(objects[..i], prefix, delimiter), Groups(objects[..i], prefix, delimiter);
            && Direct(objects[..i + 1], prefix, delimiter) == (if group.None? then contents + [objects[i]] else contents)
            && Groups(objects[..i + 1], prefix, delimiter) ==
               (if group.None? || group.value in groups then groups else groups + [group.value])
  {
    assert objects[..i + 1][..i] == objects[..i];
  }

  /** The grouping loop of the handler. */
  method Group(objects: Objects, prefix: string, delimiter: string)
    returns (contents: Objects, commonPrefixes: seq<string>)
    requires AllHavePrefix(objects, prefix)
    ensures delimiter == "" ==> contents == objects && commonPrefixes == []
    ensures delimiter != "" ==>
      contents == Direct(objects, prefix, delimiter) && commonPrefixes == Groups(objects, prefix, delimiter)
  {
    if delimiter == "" {
      return objects, [];
    }
    contents, commonPrefixes := GroupKeys(objects, prefix, delimiter);
  }

  /** The part of the loop body that looks at one key. */
  method KeyGroup(key: string, prefix: string, delimiter: string) returns (group: Option<string>)
    requires prefix <= key
    ensures group == GroupOf(key, prefix, delimiter)
  {
    var rest := key[|prefix|..];
    var idx := Index(rest, delimiter);
    return if idx >= 0 then Some(prefix + rest[..idx + |delimiter|]) else None;
  }

  method GroupKeys(objects: Objects, prefix: string, delimiter: string)
    returns (contents: Objects, commonPrefixes: seq<string>)
    requires AllHavePrefix(objects, prefix)
    ensures contents == Direct(objects, prefix, delimiter)
    ensures commonPrefixes == Groups(objects, prefix, delimiter)
  {
    contents, commonPrefixes := [], [];
    var seen: map<string, bool> := map[];
    for i := 0 to |objects|
      invariant AllHavePrefix(objects[..i], prefix)
      invariant contents == Direct(objects[..i], prefix, delimiter)
      invariant commonPrefixes == Groups(objects[..i], prefix, delimiter)
      invariant forall cp :: cp in seen <==> cp in commonPrefixes
    {
      GroupingNext(objects, i, prefix, delimiter);
      var group := KeyGroup(objects[i].key, prefix, delimiter);
      if group.None? {
        contents := contents + [objects[i]];
      } else if group.value !in seen {
        seen := seen[group.value := true];
        commonPrefixes := commonPrefixes + [group.value];
      }
    }
    assert objects[..|objects|] == objects;
  }

  // ---------- what a page of groups means ----------

  /** A common prefix is listed exactly when some key of the page is in its group. */
  lemma {:induction false} GroupsAreWitnessed(objects: Objects, prefix: string, delimiter: string, cp: string)
    requires AllHavePrefix(objects, prefix)
    ensures cp in Groups(objects, prefix, delimiter) <==>
            exists i :: 0 <= i < |objects| && GroupOf(objects[i].key, prefix, delimiter) == Some(cp)
  {
    if objects != [] {
      var n := |objects| - 1;
      var init := objects[..n];
      GroupsAreWitnessed(init, prefix, delimiter, cp);
      assert forall i :: 0 <= i < n ==> init[i] == objects[i];
    }
  }

  ghost predicate Distinct(xs: seq<string>) {
    forall i, j :: 0 <= i < j < |xs| ==> xs[i] != xs[j]
  }

  lemma DistinctAppend(xs: seq<string>, x: string)
    requires Distinct(xs) && x !in xs
    ensures Distinct(xs + [x])
  {
    var ys := xs + [x];
    forall i, j | 0 <= i < j < |ys| ensures ys[i] != ys[j] {
      assert ys[i] == xs[i] && xs[i] in xs;
      assert j < |xs| ==> ys[j] == xs[j];
    }
  }

  lemma {:induction false} GroupsAreDistinct(objects: Objects, prefix: string, delimiter: string)
    requires AllHavePrefix(objects, prefix)
    ensures Distinct(Groups(objects, prefix, delimiter))
  {
    if objects != [] {
      var before := Groups(objects[..|objects| - 1], prefix, delimiter);
      var group := GroupOf(objects[|objects| - 1].key, prefix, delimiter);
      GroupsAreDistinct(objects[..|objects| - 1], prefix, delimiter);
      if group.Some? && group.value !in before {
        DistinctAppend(before, group.value);
      }
    }
  }

  lemma {:induction false} DirectIff(objects: Objects, prefix: string, delimiter: string, x: Object)
    requires AllHavePrefix(objects, prefix)
    ensures x in Direct(objects, prefix, delimiter) <==>
            x in objects && prefix <= x.key && GroupOf(x.key, prefix, delimiter).None?
  {
    if objects != [] {
      var init := objects[..|objects| - 1];
      DirectIff(init, prefix, delimiter, x);
      assert objects == init + [objects[|objects| - 1]];
    }
  }

  /** Every key of the page is either in the contents and under no listed common prefix, or not in
      the contents and under exactly one. */
  lemma PageIsPartitioned(objects: Objects, prefix: string, delimiter: string, x: Object)
    requires AllHavePrefix(objects, prefix) && x in objects
    ensures var cps := Groups(objects, prefix, delimiter);
            if x in Direct(objects, prefix, delimiter)
            then forall cp :: cp in cps ==> !(cp <= x.key)
            else exists cp :: cp in cps && cp <= x.key && forall other :: other in cps && other <= x.key ==> other == cp
  {
    var cps := Groups(objects, prefix, delimiter);
    var i :| 0 <= i < |objects| && objects[i] == x;
    DirectIff(objects, prefix, delimiter, x);
    forall cp | cp in cps ensures cp <= x.key <==> GroupOf(x.key, prefix, delimiter) == Some(cp) {
      GroupsAreWitnessed(objects, prefix, delimiter, cp);
      var k :| 0 <= k < |objects| && GroupOf(objects[k].key, prefix, delimiter) == Some(cp);
      GroupOfIff(objects[k].key, prefix, delimiter, cp);
      GroupOfIff(x.key, prefix, delimiter, cp);
    }
    var group := GroupOf(x.key, prefix, delimiter);
    if group.Some? {
      GroupsAreWitnessed(objects, prefix, delimiter, group.value);
      assert group.value in cps;
    }
  }

  /** Listed common prefixes do not contain one another. */
  lemma ListedPrefixesArePrefixFree(objects: Objects, prefix: string, delimiter: string, i: nat, j: nat)
    requires AllHavePrefix(objects, prefix)
    requires i < |Groups(objects, prefix, delimiter)| && j < |Groups(objects, prefix, delimiter)| && i != j
    ensures var cps := Groups(objects, prefix, delimiter); !(cps[i] <= cps[j])
  {
    var cps := Groups(objects, prefix, delimiter);
    ListedIsGroup(objects, prefix, delimiter, cps[i]);
    ListedIsGroup(objects, prefix, delimiter, cps[j]);
    GroupsAreDistinct(objects, prefix, delimiter);
    if cps[i] <= cps[j] {
      GroupsArePrefixFree(cps[i], cps[j], prefix, delimiter);
    }
  }

  lemma ListedIsGroup(objects: Objects, prefix: string, delimiter: string, cp: string)
    requires AllHavePrefix(objects, prefix) && cp in Groups(objects, prefix, delimiter)
    ensures IsGroup(cp, prefix, delimiter)
  {
    GroupsAreWitnessed(objects, prefix, delimiter, cp);
    var k :| 0 <= k < |objects| && GroupOf(objects[k].key, prefix, delimiter) == Some(cp);
    GroupOfIff(objects[k].key, prefix, delimiter, cp);
  }

  /** Position of the first key in a group. */
  ghost function FirstIn(objects: Objects, prefix: string, delimiter: string, cp: string): nat
    requires AllHavePrefix(objects, prefix)
  {
    if objects == [] then 0
    else
      var init := objects[..|objects| - 1];
      if cp in Groups(init, prefix, delimiter) then FirstIn(init, prefix, delimiter, cp) else |init|
  }

  /** Common prefixes are in the order in which their groups first appear. */
  lemma {:induction false} OrderOfFirstAppearance(objects: Objects, prefix: string, delimiter: string, i: nat, j: nat)
    requires AllHavePrefix(objects, prefix) && i < j < |Groups(objects, prefix, delimiter)|
    ensures var cps := Groups(objects, prefix, delimiter);
            FirstIn(objects, prefix, delimiter, cps[i]) < FirstIn(objects, prefix, delimiter, cps[j])
  {
    var init := objects[..|objects| - 1];
    var before := Groups(init, prefix, delimiter);
    GroupsAreDistinct(objects, prefix, delimiter);
    FirstInRange(init, prefix, delimiter, Groups(objects, prefix, delimiter)[i]);
    if j < |before| {
      OrderOfFirstAppearance(init, prefix, delimiter, i, j);
    }
  }

  lemma {:induction false} FirstInRange(objects: Objects, prefix: string, delimiter: string, cp: string)
    requires AllHavePrefix(objects, prefix)
    ensures cp in Groups(objects, prefix, delimiter) ==>
              FirstIn(objects, prefix, delimiter, cp) < |objects| &&
              GroupOf(objects[FirstIn(objects, prefix, delimiter, cp)].key, prefix, delimiter) == Some(cp)
  {
    if objects != [] {
      FirstInRange(objects[..|objects| - 1], prefix, delimiter, cp);
    }
  }

  /** The key count of a page is at most its number of objects, and zero only for an empty page. */
  lemma {:induction false} KeyCountAtMostPage(objects: Objects, prefix: string, delimiter: string)
    requires AllHavePrefix(objects, prefix)
    ensures |Direct(objects, prefix, delimiter)| + |Groups(objects, prefix, delimiter)| <= |objects|
    ensures objects != [] ==> |Direct(objects, prefix, delimiter)| + |Groups(objects, prefix, delimiter)| > 0
  {
    if objects != [] {
      KeyCountAtMostPage(objects[..|objects| - 1], prefix, delimiter);
    }
  }

  // ---------- grouping over pages ----------

  ghost predicate PagesHavePrefix(pages: seq<Objects>, prefix: string) {
    forall i :: 0 <= i < |pages| ==> AllHavePrefix(pages[i], prefix)
  }

  /** The contents of all pages together. */
  ghost function AllContents(pages: seq<Objects>, prefix: string, delimiter: string): Objects
    requires PagesHavePrefix(pages, prefix)
  {
    if pages == [] then []
    else Direct(pages[0], prefix, delimiter) + AllContents(pages[1..], prefix, delimiter)
  }

  lemma {:induction false} JoinedHavePrefix(pages: seq<Objects>, prefix: string)
    ensures AllHavePrefix(Joined(pages), prefix) <==> PagesHavePrefix(pages, prefix)
  {
    if pages != [] {
      JoinedHavePrefix(pages[1..], prefix);
      var all, first, rest := Joined(pages), pages[0], Joined(pages[1..]);
      assert forall i :: 0 <= i < |first| ==> all[i] == first[i];
      assert forall i :: 0 <= i < |rest| ==> all[|first| + i] == rest[i];
      assert forall i :: 0 <= i < |pages| - 1 ==> pages[1..][i] == pages[i + 1];
    }
  }

  lemma {:induction false} DirectConcat(a: Objects, b: Objects, prefix: string, delimiter: string)
    requires AllHavePrefix(a, prefix) && AllHavePrefix(b, prefix)
    ensures AllHavePrefix(a + b, prefix)
    ensures Direct(a + b, prefix, delimiter) == Direct(a, prefix, delimiter) + Direct(b, prefix, delimiter)
    decreases |b|
  {
    if b == [] {
      assert a + b == a;
    } else {
      var init := b[..|b| - 1];
      assert (a + b)[..|a + b| - 1] == a + init;
      DirectConcat(a, init, prefix, delimiter);
    }
  }

  lemma {:induction false} ContentsOverPages(pages: seq<Objects>, prefix: string, delimiter: string)
    requires PagesHavePrefix(pages, prefix)
    ensures AllHavePrefix(Joined(pages), prefix)
    ensures AllContents(pages, prefix, delimiter) == Direct(Joined(pages), prefix, delimiter)
  {
    JoinedHavePrefix(pages, prefix);
    if pages != [] {
      ContentsOverPages(pages[1..], prefix, delimiter);
      DirectConcat(pages[0], Joined(pages[1..]), prefix, delimiter);
    }
  }

  /** Some key of the page is in the group. */
  ghost predicate Reaches(objects: Objects, prefix: string, delimiter: string, cp: string)
    requires AllHavePrefix(objects, prefix)
  {
    exists i :: 0 <= i < |objects| && GroupOf(objects[i].key, prefix, delimiter) == Some(cp)
  }

  /** A client that follows the tokens of a listing receives every ungrouped object once, in order, but a
      common prefix again on each page that its group reaches: two pages list the same one if and only
      if its group has keys on both. */
  lemma GroupingOverPages(all: Objects, limits: nat -> int, prefix: string, delimiter: string)
    requires |all| < TWO_POW_63 && AllHavePrefix(all, prefix)
    ensures var pages := Pages(all, "", limits, 0, |all| + 1);
            && PagesHavePrefix(pages, prefix)
            && AllContents(pages, prefix, delimiter) == Direct(all, prefix, delimiter)
            && forall i, j, cp :: 0 <= i < j < |pages| ==>
                 (cp in Groups(pages[i], prefix, delimiter) && cp in Groups(pages[j], prefix, delimiter) <==>
                  Reaches(pages[i], prefix, delimiter, cp) && Reaches(pages[j], prefix, delimiter, cp))
  {
    var pages := Pages(all, "", limits, 0, |all| + 1);
    PagesAreFollowed(all, "", limits, 0, |all| + 1);
    FollowingTokensListsAll(all, limits);
    JoinedHavePrefix(pages, prefix);
    ContentsOverPages(pages, prefix, delimiter);
    forall i, cp | 0 <= i < |pages|
      ensures cp in Groups(pages[i], prefix, delimiter) <==> Reaches(pages[i], prefix, delimiter, cp)
    {
      GroupsAreWitnessed(pages[i], prefix, delimiter, cp);
    }
  }

  // ---------- the whole request ----------

  datatype Response = Response(contents: Objects, commonPrefixes: seq<string>, keyCount: nat, maxKeys: nat, next: string)

  lemma {:induction false} FilterKeepsPrefix(objects: Objects, prefix: string)
    ensures AllHavePrefix(Filter(objects, prefix), prefix)
  {
    if objects != [] {
      FilterKeepsPrefix(objects[..|objects| - 1], prefix);
    }
  }

  /** Listing a share through the handler: a page of the matching objects, grouped. */
  method ListObjectsV2Handler(root: seq<Page>, prefix: string, delimiter: string, token: string, maxKeysParam: string)
    returns (r: Option<Response>)
    ensures r.None? <==> Walk(root, "", prefix).None?
    ensures r.Some? ==>
      var page := PageAt(Filter(Everything(root, ""), prefix), token, MaxKeys(maxKeysParam));
      && r.value.next == page.next && r.value.maxKeys == MaxKeys(maxKeysParam)
      && r.value.keyCount == |r.value.contents| + |r.value.commonPrefixes| <= r.value.maxKeys
      && AllHavePrefix(page.objects, prefix)
      && (delimiter == "" ==> r.value.contents == page.objects && r.value.commonPrefixes == [])
      && (delimiter != "" ==>
            r.value.contents == Direct(page.objects, prefix, delimiter) &&
            r.value.commonPrefixes == Groups(page.objects, prefix, delimiter))
  {
    var maxKeys := MaxKeys(maxKeysParam);
    var listing := ListObjectsV2(root, prefix, token, maxKeys);
    if listing.None? {
      return None;
    }
    var page := listing.value;
    FilterKeepsPrefix(Everything(root, ""), prefix);
    assert AllHavePrefix(page.objects, prefix);
    if delimiter != "" {
      KeyCountAtMostPage(page.objects, prefix, delimiter);
    }
    var contents, commonPrefixes := Group(page.objects, prefix, delimiter);
    return Some(Response(contents, commonPrefixes, |contents| + |commonPrefixes|, maxKeys, page.next));
  }
}
