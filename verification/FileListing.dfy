/** Listing an Azure Files share: the recursive walk that skips directories which cannot hold a
    match, and pagination by offset. */
module FileListing {
  import opened Text

  datatype File = File(name: string, size: nat)
  datatype SubDirectory = SubDirectory(name: string, pages: seq<Page>)

  /** One page of a directory as the service returns it; a page that fails ends the walk. */
  datatype Page = Page(files: seq<File>, dirs: seq<SubDirectory>) | Failed

  datatype Object = Object(key: string, size: nat)

  type Objects = seq<Object>

  function PathIn(dirPath: string, name: string): string {
    if dirPath == "" then name else dirPath + "/" + name
  }

  predicate HasPrefix(s: string, prefix: string) {
    prefix <= s
  }

  /** Whether the walk enters a directory. */
  predicate Enters(path: string, prefix: string) {
    prefix == "" || HasPrefix(prefix, path) || HasPrefix(path, prefix)
  }

  function Matching(files: seq<File>, dirPath: string, prefix: string): Objects {
    if files == [] then []
    else
      var before := Matching(files[..|files| - 1], dirPath, prefix);
      var file := files[|files| - 1];
      var path := PathIn(dirPath, file.name);
      if HasPrefix(path, prefix) then before + [Object(path, file.size)] else before
  }

  // ---------- what the walk lists ----------

  function Walk(pages: seq<Page>, dirPath: string, prefix: string): Option<Objects>
    decreases pages, 1
  {
    if pages == [] then Some([])
    else if pages[0].Failed? then None
    else
      var below := WalkDirs(pages[0].dirs, dirPath, prefix);
      var rest := if below.Some? then Walk(pages[1..], dirPath, prefix) else None;
      if rest.None? then None
      else Some(Matching(pages[0].files, dirPath, prefix) + below.value + rest.value)
  }

  function WalkDirs(dirs: seq<SubDirectory>, dirPath: string, prefix: string): Option<Objects>
    decreases dirs, 0
  {
    if dirs == [] then Some([])
    else
      var path := PathIn(dirPath, dirs[0].name);
      var first := if Enters(path, prefix) then Walk(dirs[0].pages, path, prefix) else Some([]);
      var rest := if first.Some? then WalkDirs(dirs[1..], dirPath, prefix) else None;
      if rest.None? then None else Some(first.value + rest.value)
  }

  /** Everything in a directory, with nothing skipped and failed pages read as empty. */
  function Everything(pages: seq<Page>, dirPath: string): Objects
    decreases pages, 1
  {
    if pages == [] then []
    else
      (if pages[0].Failed? then [] else
         Matching(pages[0].files, dirPath, "") + EverythingBelow(pages[0].dirs, dirPath)) +
      Everything(pages[1..], dirPath)
  }

  function EverythingBelow(dirs: seq<SubDirectory>, dirPath: string): Objects
    decreases dirs, 0
  {
    if dirs == [] then []
    else Everything(dirs[0].pages, PathIn(dirPath, dirs[0].name)) + EverythingBelow(dirs[1..], dirPath)
  }

  function Filter(objects: Objects, prefix: string): Objects {
    if objects == [] then []
    else
      var before := Filter(objects[..|objects| - 1], prefix);
      var last := objects[|objects| - 1];
      if HasPrefix(last.key, prefix) then before + [last] else before
  }

  lemma {:induction false} FilterConcat(a: Objects, b: Objects, prefix: string)
    ensures Filter(a + b, prefix) == Filter(a, prefix) + Filter(b, prefix)
    decreases |b|
  {
    if b == [] {
      assert a + b == a;
    } else {
      assert (a + b)[..|a + b| - 1] == a + b[..|b| - 1];
      FilterConcat(a, b[..|b| - 1], prefix);
    }
  }

  lemma FilterNext(objects: Objects, last: Object, prefix: string)
    ensures Filter(objects + [last], prefix) ==
            if HasPrefix(last.key, prefix) then Filter(objects, prefix) + [last] else Filter(objects, prefix)
  {
    assert (objects + [last])[..|objects|] == objects;
  }

  lemma {:induction false} MatchingIsFilter(files: seq<File>, dirPath: string, prefix: string)
    ensures Matching(files, dirPath, prefix) == Filter(Matching(files, dirPath, ""), prefix)
  {
    if files != [] {
      var init, file := files[..|files| - 1], files[|files| - 1];
      MatchingIsFilter(init, dirPath, prefix);
      FilterNext(Matching(init, dirPath, ""), Object(PathIn(dirPath, file.name), file.size), prefix);
    }
  }

  // ---------- nothing is lost by skipping ----------

  /** All objects listed below a directory carry its path. */
  ghost predicate AllUnder(objects: Objects, dirPath: string) {
    forall i :: 0 <= i < |objects| ==> HasPrefix(objects[i].key, dirPath)
  }

  lemma {:induction false} MatchingUnder(files: seq<File>, dirPath: string)
    ensures AllUnder(Matching(files, dirPath, ""), dirPath)
  {
    if files != [] {
      MatchingUnder(files[..|files| - 1], dirPath);
    }
  }

  lemma {:induction false} EverythingUnder(pages: seq<Page>, dirPath: string)
    ensures AllUnder(Everything(pages, dirPath), dirPath)
    decreases pages, 1
  {
    if pages != [] {
      EverythingUnder(pages[1..], dirPath);
      if pages[0].Page? {
        MatchingUnder(pages[0].files, dirPath);
        BelowUnder(pages[0].dirs, dirPath);
      }
    }
  }

  lemma {:induction false} BelowUnder(dirs: seq<SubDirectory>, dirPath: string)
    ensures AllUnder(EverythingBelow(dirs, dirPath), dirPath)
    decreases dirs, 0
  {
    if dirs != [] {
      var path := PathIn(dirPath, dirs[0].name);
      EverythingUnder(dirs[0].pages, path);
      assert HasPrefix(path, dirPath);
      BelowUnder(dirs[1..], dirPath);
    }
  }

  /** Two prefixes of one string are comparable. */
  lemma PrefixesCompare(s: string, a: string, b: string)
    requires HasPrefix(s, a) && HasPrefix(s, b)
    ensures HasPrefix(a, b) || HasPrefix(b, a)
  {
  }

  lemma {:induction false} NothingMatches(objects: Objects, path: string, prefix: string)
    requires AllUnder(objects, path) && !Enters(path, prefix)
    ensures Filter(objects, prefix) == []
  {
    if objects != [] {
      NothingMatches(objects[..|objects| - 1], path, prefix);
      var key := objects[|objects| - 1].key;
      if HasPrefix(key, prefix) {
        PrefixesCompare(key, path, prefix);
      }
    }
  }

  /** The walk that skips directories lists exactly what filtering a full walk would list, in
      the same order, for every tree and every prefix. */
  lemma {:induction false} WalkIsFilter(pages: seq<Page>, dirPath: string, prefix: string)
    requires Walk(pages, dirPath, prefix).Some?
    ensures Walk(pages, dirPath, prefix).value == Filter(Everything(pages, dirPath), prefix)
    decreases pages, 1
  {
    if pages != [] {
      var here, below := Matching(pages[0].files, dirPath, ""), EverythingBelow(pages[0].dirs, dirPath);
      MatchingIsFilter(pages[0].files, dirPath, prefix);
      WalkDirsIsFilter(pages[0].dirs, dirPath, prefix);
      WalkIsFilter(pages[1..], dirPath, prefix);
      FilterConcat(here, below, prefix);
      FilterConcat(here + below, Everything(pages[1..], dirPath), prefix);
    }
  }

  lemma {:induction false} WalkDirsIsFilter(dirs: seq<SubDirectory>, dirPath: string, prefix: string)
    requires WalkDirs(dirs, dirPath, prefix).Some?
    ensures WalkDirs(dirs, dirPath, prefix).value == Filter(EverythingBelow(dirs, dirPath), prefix)
    decreases dirs, 0
  {
    if dirs != [] {
      var path := PathIn(dirPath, dirs[0].name);
      var below := Everything(dirs[0].pages, path);
      if Enters(path, prefix) {
        WalkIsFilter(dirs[0].pages, path, prefix);
      } else {
        EverythingUnder(dirs[0].pages, path);
        NothingMatches(below, path, prefix);
      }
      WalkDirsIsFilter(dirs[1..], dirPath, prefix);
      FilterConcat(below, EverythingBelow(dirs[1..], dirPath), prefix);
    }
  }

  /** Skipping can only avoid failures: where the unrestricted walk succeeds, so does every other. */
  lemma {:induction false} SkippingAddsNoFailure(pages: seq<Page>, dirPath: string, prefix: string)
    requires Walk(pages, dirPath, "").Some?
    ensures Walk(pages, dirPath, prefix).Some?
    decreases pages, 1
  {
    if pages != [] {
      SkippingAddsNoFailureBelow(pages[0].dirs, dirPath, prefix);
      SkippingAddsNoFailure(pages[1..], dirPath, prefix);
    }
  }

  lemma {:induction false} SkippingAddsNoFailureBelow(dirs: seq<SubDirectory>, dirPath: string, prefix: string)
    requires WalkDirs(dirs, dirPath, "").Some?
    ensures WalkDirs(dirs, dirPath, prefix).Some?
    decreases dirs, 0
  {
    if dirs != [] {
      SkippingAddsNoFailure(dirs[0].pages, PathIn(dirPath, dirs[0].name), prefix);
      SkippingAddsNoFailureBelow(dirs[1..], dirPath, prefix);
    }
  }

  // ---------- the walk as it runs ----------

  /** What was found so far, followed by what is still to be found, unless that fails. */
  function Then(found: Objects, rest: Option<Objects>): Option<Objects> {
    if rest.None? then None else Some(found + rest.value)
  }

  lemma ConcatAssociates(a: Objects, b: Objects, c: Objects, d: Objects)
    ensures a + (b + c + d) == a + b + c + d
  {
  }

  lemma WalkNext(pages: seq<Page>, i: nat, dirPath: string, prefix: string, found: Objects)
    requires i < |pages| && pages[i].Page?
    ensures var here := found + Matching(pages[i].files, dirPath, prefix);
            var below := WalkDirs(pages[i].dirs, dirPath, prefix);
            Then(found, Walk(pages[i..], dirPath, prefix)) ==
            if below.None? then None
            else Then(here + below.value, Walk(pages[i + 1..], dirPath, prefix))
  {
    assert pages[i..][1..] == pages[i + 1..];
    var below, rest := WalkDirs(pages[i].dirs, dirPath, prefix), Walk(pages[i + 1..], dirPath, prefix);
    if below.Some? && rest.Some? {
      ConcatAssociates(found, Matching(pages[i].files, dirPath, prefix), below.value, rest.value);
    }
  }

  lemma WalkDirsNext(dirs: seq<SubDirectory>, i: nat, dirPath: string, prefix: string, found: Objects)
    requires i < |dirs|
    ensures var path := PathIn(dirPath, dirs[i].name);
            var first := if Enters(path, prefix) then Walk(dirs[i].pages, path, prefix) else Some([]);
            Then(found, WalkDirs(dirs[i..], dirPath, prefix)) ==
            if first.None? then None
            else Then(found + first.value, WalkDirs(dirs[i + 1..], dirPath, prefix))
  {
    assert dirs[i..][1..] == dirs[i + 1..];
    var path := PathIn(dirPath, dirs[i].name);
    var first := if Enters(path, prefix) then Walk(dirs[i].pages, path, prefix) else Some([]);
    var rest := WalkDirs(dirs[i + 1..], dirPath, prefix);
    if first.Some? && rest.Some? {
      assert found + (first.value + rest.value) == found + first.value + rest.value;
    }
  }

  class Lister {
    const prefix: string
    var objects: Objects

    constructor (prefix: string)
      ensures this.prefix == prefix && objects == []
    {
      this.prefix := prefix;
      objects := [];
    }

    method ListPages(pages: seq<Page>, dirPath: string) returns (ok: bool)
      modifies this
      ensures var result := Then(old(objects), Walk(pages, dirPath, prefix));
              ok == result.Some? && (ok ==> objects == result.value)
      decreases pages, 1
    {
      ghost var result := Then(objects, Walk(pages, dirPath, prefix));
      assert pages[0..] == pages;
      for i := 0 to |pages|
        invariant Then(objects, Walk(pages[i..], dirPath, prefix)) == result
      {
        if pages[i].Failed? {
          return false;
        }
        WalkNext(pages, i, dirPath, prefix, objects);
        ListFiles(pages[i].files, dirPath);
        ok := ListDirs(pages[i].dirs, dirPath);
        if !ok {
          return false;
        }
      }
      return true;
    }

    method ListFiles(files: seq<File>, dirPath: string)
      modifies this
      ensures objects == old(objects) + Matching(files, dirPath, prefix)
    {
      for i := 0 to |files|
        invariant objects == old(objects) + Matching(files[..i], dirPath, prefix)
      {
        assert files[..i + 1][..i] == files[..i];
        var path := PathIn(dirPath, files[i].name);
        if prefix == "" || HasPrefix(path, prefix) {
          objects := objects + [Object(path, files[i].size)];
        }
      }
      assert files[..|files|] == files;
    }

    /** One subdirectory, if it can hold a match. */
    method ListDir(dir: SubDirectory, dirPath: string) returns (ok: bool)
      modifies this
      ensures var path := PathIn(dirPath, dir.name);
              var result := Then(old(objects), if Enters(path, prefix) then Walk(dir.pages, path, prefix) else Some([]));
              ok == result.Some? && (ok ==> objects == result.value)
      decreases dir
    {
      var path := PathIn(dirPath, dir.name);
      if prefix == "" || HasPrefix(prefix, path) || HasPrefix(path, prefix) {
        ok := ListPages(dir.pages, path);
      } else {
        assert objects + [] == objects;
        ok := true;
      }
    }

    method ListDirs(dirs: seq<SubDirectory>, dirPath: string) returns (ok: bool)
      modifies this
      ensures var result := Then(old(objects), WalkDirs(dirs, dirPath, prefix));
              ok == result.Some? && (ok ==> objects == result.value)
      decreases dirs, 0
    {
      ghost var result := Then(objects, WalkDirs(dirs, dirPath, prefix));
      assert dirs[0..] == dirs;
      for i := 0 to |dirs|
        invariant Then(objects, WalkDirs(dirs[i..], dirPath, prefix)) == result
      {
        WalkDirsNext(dirs, i, dirPath, prefix, objects);
        ok := ListDir(dirs[i], dirPath);
        if !ok {
          return false;
        }
      }
      return true;
    }
  }

  /** All objects with the prefix, or nothing if some page on the way failed. */
  method ListAllObjects(root: seq<Page>, prefix: string) returns (r: Option<Objects>)
    ensures r == Walk(root, "", prefix)
    ensures r.Some? ==> r.value == Filter(Everything(root, ""), prefix)
    ensures Walk(root, "", "").Some? ==> r.Some?
  {
    var lister := new Lister(prefix);
    var ok := lister.ListPages(root, "");
    if ok {
      WalkIsFilter(root, "", prefix);
      assert [] + Walk(root, "", prefix).value == Walk(root, "", prefix).value;
    }
    if Walk(root, "", "").Some? {
      SkippingAddsNoFailure(root, "", prefix);
    }
    return if ok then Some(lister.objects) else None;
  }

  // ---------- pages of a listing ----------

  datatype Listing = Listing(objects: Objects, next: string)

  /** A token that does not name a position in the listing starts again from the top. */
  function Offset(all: Objects, token: string): (offset: nat)
    ensures offset <= |all|
  {
    if token == "" then 0
    else
      var parsed := ParseInt(token, 10);
      if parsed.Some? && 0 <= parsed.value < |all| then parsed.value else 0
  }

  function PageSize(maxResults: int): nat {
    if maxResults <= 0 then 1000 else maxResults
  }

  function PageAt(all: Objects, token: string, maxResults: int): (page: Listing)
    ensures |page.objects| <= PageSize(maxResults)
  {
    var offset := Offset(all, token);
    var end := if offset + PageSize(maxResults) > |all| then |all| else offset + PageSize(maxResults);
    Listing(all[offset..end], if end < |all| then FormatUint(end, 10) else "")
  }

  /** The token printed for a position is read back as that position. */
  lemma TokenRoundTrip(all: Objects, offset: nat)
    requires offset < |all| < TWO_POW_63
    ensures FormatUint(offset, 10) != "" && Offset(all, FormatUint(offset, 10)) == offset
  {
    PrintedIsPlain(offset, 10);
    ParsePrinted(offset, 10);
  }

  /** What a client receives that follows tokens for `requests` requests, choosing a limit for each. */
  function Follow(all: Objects, token: string, limits: nat -> int, first: nat, requests: nat): (Objects, string)
    decreases requests
  {
    if requests == 0 then ([], token)
    else
      var page := PageAt(all, token, limits(first));
      if page.next == "" then (page.objects, "")
      else
        var rest := Follow(all, page.next, limits, first + 1, requests - 1);
        (page.objects + rest.0, rest.1)
  }

  /** A page and what follows its token make up what followed the previous token. */
  lemma NextPage(all: Objects, token: string, maxResults: int)
    requires |all| < TWO_POW_63 && PageAt(all, token, maxResults).next != ""
    ensures var page := PageAt(all, token, maxResults);
            var next := Offset(all, page.next);
            Offset(all, token) < next < |all| && page.objects + all[next..] == all[Offset(all, token)..]
  {
    var offset := Offset(all, token);
    var end := offset + PageSize(maxResults);
    TokenRoundTrip(all, end);
    assert all[offset..end] + all[end..] == all[offset..];
  }

  lemma {:induction false} FollowFrom(all: Objects, token: string, limits: nat -> int, first: nat, requests: nat)
    requires |all| < TWO_POW_63 && requests > |all| - Offset(all, token)
    ensures Follow(all, token, limits, first, requests) == (all[Offset(all, token)..], "")
    decreases requests
  {
    var page := PageAt(all, token, limits(first));
    if page.next != "" {
      NextPage(all, token, limits(first));
      FollowFrom(all, page.next, limits, first + 1, requests - 1);
    } else {
      EndOfListing(all, token, limits(first));
    }
  }

  lemma EndOfListing(all: Objects, token: string, maxResults: int)
    requires PageAt(all, token, maxResults).next == ""
    ensures PageAt(all, token, maxResults).objects == all[Offset(all, token)..]
  {
    var offset := Offset(all, token);
    var end := if offset + PageSize(maxResults) > |all| then |all| else offset + PageSize(maxResults);
    PrintedIsPlain(end, 10);
  }

  /** From the empty token, with any limits, a client reaches the end of a stable listing within
      one request more than there are objects and has then received every object once, in order. */
  lemma FollowingTokensListsAll(all: Objects, limits: nat -> int)
    requires |all| < TWO_POW_63
    ensures Follow(all, "", limits, 0, |all| + 1) == (all, "")
  {
    FollowFrom(all, "", limits, 0, |all| + 1);
    assert all[0..] == all;
  }

  /** The pages that such a client receives. */
  function Pages(all: Objects, token: string, limits: nat -> int, first: nat, requests: nat): seq<Objects>
    decreases requests
  {
    if requests == 0 then []
    else
      var page := PageAt(all, token, limits(first));
      [page.objects] + if page.next == "" then [] else Pages(all, page.next, limits, first + 1, requests - 1)
  }

  function Joined(pages: seq<Objects>): Objects {
    if pages == [] then [] else pages[0] + Joined(pages[1..])
  }

  lemma {:induction false} PagesAreFollowed(all: Objects, token: string, limits: nat -> int, first: nat, requests: nat)
    ensures Joined(Pages(all, token, limits, first, requests)) == Follow(all, token, limits, first, requests).0
    decreases requests
  {
    if requests > 0 {
      var page := PageAt(all, token, limits(first));
      var pages := Pages(all, token, limits, first, requests);
      if page.next == "" {
        assert pages[1..] == [] && page.objects + [] == page.objects;
      } else {
        PagesAreFollowed(all, page.next, limits, first + 1, requests - 1);
        assert pages[1..] == Pages(all, page.next, limits, first + 1, requests - 1);
      }
    }
  }

  method ListObjectsV2(root: seq<Page>, prefix: string, token: string, maxResults: int)
    returns (r: Option<Listing>)
    ensures r.None? <==> Walk(root, "", prefix).None?
    ensures r.Some? ==> r.value == PageAt(Filter(Everything(root, ""), prefix), token, maxResults)
  {
    var found := ListAllObjects(root, prefix);
    if found.None? {
      return None;
    }
    var all := found.value;
    var max := if maxResults <= 0 then 1000 else maxResults;
    var offset := 0;
    if token != "" {
      var parsed := ParseInt(token, 10);
      if parsed.Some? && parsed.value >= 0 && parsed.value < |all| {
        offset := parsed.value;
      }
    }
    var end := offset + max;
    if end > |all| {
      end := |all|;
    }
    var next := "";
    if end < |all| {
      next := FormatUint(end, 10);
    }
    return Some(Listing(all[offset..end], next));
  }
}
