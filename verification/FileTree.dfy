/** What a listing of an Azure Files share contains, told by the tree alone: the files at all
    addresses, in the order of their addresses, under the names on the way joined by slashes. */
module FileTree {
  import opened Text
  import opened FileListing

  // ---------- files and their addresses ----------

  /** Which subdirectory of which page. */
  datatype Turn = Turn(page: nat, dir: nat)

  /** The turns from the root, then which file of which page. */
  datatype Address = Address(turns: seq<Turn>, page: nat, file: nat)

  /** Following an address from a directory leads over these names to a file of this size. */
  ghost predicate LeadsTo(pages: seq<Page>, a: Address, names: seq<string>, size: nat)
    decreases |a.turns|
  {
    if a.turns == [] then
      a.page < |pages| && pages[a.page].Page? && a.file < |pages[a.page].files|
      && names == [pages[a.page].files[a.file].name] && size == pages[a.page].files[a.file].size
    else
      var t := a.turns[0];
      t.page < |pages| && pages[t.page].Page? && t.dir < |pages[t.page].dirs|
      && |names| > 0 && names[0] == pages[t.page].dirs[t.dir].name
      && LeadsTo(pages[t.page].dirs[t.dir].pages, a.(turns := a.turns[1..]), names[1..], size)
  }

  function FirstPage(a: Address): nat {
    if a.turns == [] then a.page else a.turns[0].page
  }

  /** Pages in order; on a page, files before subdirectories; either in order. */
  ghost predicate Before(a: Address, b: Address)
    decreases |a.turns|
  {
    if FirstPage(a) != FirstPage(b) then FirstPage(a) < FirstPage(b)
    else if a.turns == [] then b.turns != [] || a.file < b.file
    else
      b.turns != [] &&
      if a.turns[0] != b.turns[0] then a.turns[0].dir < b.turns[0].dir
      else Before(a.(turns := a.turns[1..]), b.(turns := b.turns[1..]))
  }

  /** Names joined by slashes. */
  function Joined(names: seq<string>): string {
    if names == [] then "" else if |names| == 1 then names[0] else names[0] + "/" + Joined(names[1..])
  }

  /** No directory has an empty name. */
  ghost predicate Named(pages: seq<Page>)
    decreases pages, 1
  {
    forall i :: 0 <= i < |pages| && pages[i].Page? ==> DirsNamed(pages[i].dirs)
  }

  ghost predicate DirsNamed(dirs: seq<SubDirectory>)
    decreases dirs, 0
  {
    forall i :: 0 <= i < |dirs| ==> dirs[i].name != "" && Named(dirs[i].pages)
  }

  // ---------- all files of a tree, in order ----------

  datatype Found = Found(at: Address, names: seq<string>, size: nat)

  function PageFiles(files: seq<File>, page: nat): seq<Found> {
    seq(|files|, i requires 0 <= i < |files| => Found(Address([], page, i), [files[i].name], files[i].size))
  }

  /** Files found in a subdirectory, seen from its parent. */
  function Below(name: string, t: Turn, fs: seq<Found>): seq<Found> {
    seq(|fs|, i requires 0 <= i < |fs| =>
      Found(fs[i].at.(turns := [t] + fs[i].at.turns), [name] + fs[i].names, fs[i].size))
  }

  function FilesFrom(pages: seq<Page>, k: nat): seq<Found>
    requires k <= |pages|
    decreases pages, 1, |pages| - k
  {
    if k == |pages| then []
    else
      (if pages[k].Failed? then [] else PageFiles(pages[k].files, k) + DirsFrom(pages[k].dirs, k, 0)) +
      FilesFrom(pages, k + 1)
  }

  function DirsFrom(dirs: seq<SubDirectory>, page: nat, d: nat): seq<Found>
    requires d <= |dirs|
    decreases dirs, 0, |dirs| - d
  {
    if d == |dirs| then []
    else Below(dirs[d].name, Turn(page, d), FilesFrom(dirs[d].pages, 0)) + DirsFrom(dirs, page, d + 1)
  }

  // ---------- they are the listing ----------

  function Listed(front: string, fs: seq<Found>): Objects {
    seq(|fs|, i requires 0 <= i < |fs| => Object(front + Joined(fs[i].names), fs[i].size))
  }

  function Front(dirPath: string): string {
    if dirPath == "" then "" else dirPath + "/"
  }

  lemma ListedConcat(front: string, a: seq<Found>, b: seq<Found>)
    ensures Listed(front, a + b) == Listed(front, a) + Listed(front, b)
  {
  }

  lemma {:induction false} MatchingListed(files: seq<File>, dirPath: string, page: nat)
    ensures Matching(files, dirPath, "") == Listed(Front(dirPath), PageFiles(files, page))
  {
    if files == [] {
      assert Listed(Front(dirPath), PageFiles(files, page)) == [];
    } else {
      var n := |files| - 1;
      MatchingListed(files[..n], dirPath, page);
      assert PageFiles(files, page) == PageFiles(files[..n], page) + PageFiles(files, page)[n..];
      ListedConcat(Front(dirPath), PageFiles(files[..n], page), PageFiles(files, page)[n..]);
      assert Joined([files[n].name]) == files[n].name && Front(dirPath) + files[n].name == PathIn(dirPath, files[n].name);
      assert Listed(Front(dirPath), PageFiles(files, page)[n..]) == [Object(PathIn(dirPath, files[n].name), files[n].size)];
    }
  }

  lemma BelowListed(front: string, name: string, t: Turn, fs: seq<Found>)
    requires forall i :: 0 <= i < |fs| ==> fs[i].names != []
    ensures Listed(front, Below(name, t, fs)) == Listed(front + name + "/", fs)
  {
    forall i | 0 <= i < |fs|
      ensures front + Joined([name] + fs[i].names) == front + name + "/" + Joined(fs[i].names)
    {
      assert ([name] + fs[i].names)[1..] == fs[i].names;
    }
  }

  /** The full walk lists the files of the tree in that order, each under the names on its way. */
  lemma {:induction false} EverythingListed(pages: seq<Page>, k: nat, dirPath: string)
    requires k <= |pages| && Named(pages)
    ensures Everything(pages[k..], dirPath) == Listed(Front(dirPath), FilesFrom(pages, k))
    decreases pages, 1, |pages| - k
  {
    if k < |pages| {
      assert pages[k..][1..] == pages[k + 1..];
      EverythingListed(pages, k + 1, dirPath);
      if pages[k].Page? {
        var here, below := PageFiles(pages[k].files, k), DirsFrom(pages[k].dirs, k, 0);
        MatchingListed(pages[k].files, dirPath, k);
        DirsListed(pages[k].dirs, k, 0, dirPath);
        assert pages[k].dirs[0..] == pages[k].dirs;
        ListedConcat(Front(dirPath), here, below);
        ListedConcat(Front(dirPath), here + below, FilesFrom(pages, k + 1));
      }
    }
  }

  lemma {:induction false} DirsListed(dirs: seq<SubDirectory>, page: nat, d: nat, dirPath: string)
    requires d <= |dirs| && DirsNamed(dirs)
    ensures EverythingBelow(dirs[d..], dirPath) == Listed(Front(dirPath), DirsFrom(dirs, page, d))
    decreases dirs, 0, |dirs| - d
  {
    if d < |dirs| {
      var name, inner := dirs[d].name, FilesFrom(dirs[d].pages, 0);
      var first := Below(name, Turn(page, d), inner);
      assert dirs[d..][1..] == dirs[d + 1..];
      EverythingListed(dirs[d].pages, 0, PathIn(dirPath, name));
      assert dirs[d].pages[0..] == dirs[d].pages;
      NamesNotEmpty(dirs[d].pages, 0);
      BelowListed(Front(dirPath), name, Turn(page, d), inner);
      assert Front(PathIn(dirPath, name)) == Front(dirPath) + name + "/";
      DirsListed(dirs, page, d + 1, dirPath);
      ListedConcat(Front(dirPath), first, DirsFrom(dirs, page, d + 1));
    }
  }

  // ---------- they are the files at all addresses ----------

  ghost predicate AllLead(pages: seq<Page>, fs: seq<Found>, k: nat) {
    forall i :: 0 <= i < |fs| ==> LeadsTo(pages, fs[i].at, fs[i].names, fs[i].size) && FirstPage(fs[i].at) >= k
  }

  /** Everything found is at its address. */
  lemma {:induction false} FoundLead(pages: seq<Page>, k: nat)
    requires k <= |pages|
    ensures AllLead(pages, FilesFrom(pages, k), k)
    decreases pages, 1, |pages| - k
  {
    if k < |pages| {
      FoundLead(pages, k + 1);
      if pages[k].Page? {
        DirsLead(pages, k, 0);
        assert AllLead(pages, PageFiles(pages[k].files, k), k);
      }
    }
  }

  lemma {:induction false} DirsLead(pages: seq<Page>, k: nat, d: nat)
    requires k < |pages| && pages[k].Page? && d <= |pages[k].dirs|
    ensures AllLead(pages, DirsFrom(pages[k].dirs, k, d), k)
    decreases pages, 0, |pages[k].dirs| - d
  {
    var dirs := pages[k].dirs;
    if d < |dirs| {
      FoundLead(dirs[d].pages, 0);
      DirsLead(pages, k, d + 1);
      BelowLead(pages, k, d, FilesFrom(dirs[d].pages, 0));
    }
  }

  lemma BelowLead(pages: seq<Page>, k: nat, d: nat, fs: seq<Found>)
    requires k < |pages| && pages[k].Page? && d < |pages[k].dirs|
    requires AllLead(pages[k].dirs[d].pages, fs, 0)
    ensures AllLead(pages, Below(pages[k].dirs[d].name, Turn(k, d), fs), k)
  {
    var name, t := pages[k].dirs[d].name, Turn(k, d);
    forall i | 0 <= i < |fs|
      ensures LeadsTo(pages, fs[i].at.(turns := [t] + fs[i].at.turns), [name] + fs[i].names, fs[i].size)
    {
      var a := fs[i].at.(turns := [t] + fs[i].at.turns);
      assert a.turns[1..] == fs[i].at.turns && a.(turns := a.turns[1..]) == fs[i].at;
      assert ([name] + fs[i].names)[1..] == fs[i].names;
    }
  }

  lemma {:induction false} NamesNotEmpty(pages: seq<Page>, k: nat)
    requires k <= |pages|
    ensures forall i :: 0 <= i < |FilesFrom(pages, k)| ==> FilesFrom(pages, k)[i].names != []
  {
    FoundLead(pages, k);
    var fs := FilesFrom(pages, k);
    forall i | 0 <= i < |fs| ensures fs[i].names != [] {
      assert LeadsTo(pages, fs[i].at, fs[i].names, fs[i].size);
    }
  }

  /** Every file at an address is found. */
  lemma {:induction false} LeadFound(pages: seq<Page>, k: nat, f: Found)
    requires k <= |pages| && LeadsTo(pages, f.at, f.names, f.size) && FirstPage(f.at) >= k
    ensures f in FilesFrom(pages, k)
    decreases |f.at.turns|, 1, |pages| - k
  {
    if FirstPage(f.at) > k {
      LeadFound(pages, k + 1, f);
    } else if f.at.turns == [] {
      assert PageFiles(pages[k].files, k)[f.at.file] == f;
    } else {
      LeadFoundBelow(pages, k, 0, f);
    }
  }

  lemma {:induction false} LeadFoundBelow(pages: seq<Page>, k: nat, d: nat, f: Found)
    requires LeadsTo(pages, f.at, f.names, f.size) && f.at.turns != [] && f.at.turns[0].page == k
    requires d <= f.at.turns[0].dir
    ensures f in DirsFrom(pages[k].dirs, k, d)
    decreases |f.at.turns|, 0, |pages[k].dirs| - d
  {
    var dirs := pages[k].dirs;
    if d < f.at.turns[0].dir {
      LeadFoundBelow(pages, k, d + 1, f);
    } else {
      var inner := Found(f.at.(turns := f.at.turns[1..]), f.names[1..], f.size);
      LeadFound(dirs[d].pages, 0, inner);
      var fs := FilesFrom(dirs[d].pages, 0);
      var i :| 0 <= i < |fs| && fs[i] == inner;
      assert [f.at.turns[0]] + inner.at.turns == f.at.turns && [f.names[0]] + inner.names == f.names;
      assert Below(dirs[d].name, Turn(k, d), fs)[i] == f;
    }
  }

  // ---------- they are in order ----------

  ghost predicate InOrder(fs: seq<Found>) {
    forall i, j :: 0 <= i < j < |fs| ==> Before(fs[i].at, fs[j].at)
  }

  ghost predicate AllBefore(a: seq<Found>, b: seq<Found>) {
    forall i, j :: 0 <= i < |a| && 0 <= j < |b| ==> Before(a[i].at, b[j].at)
  }

  lemma ConcatInOrder(a: seq<Found>, b: seq<Found>)
    requires InOrder(a) && InOrder(b) && AllBefore(a, b)
    ensures InOrder(a + b)
  {
  }

  /** Found below one page, in subdirectories from `d` on. */
  ghost predicate Under(fs: seq<Found>, page: nat, d: nat) {
    forall i :: 0 <= i < |fs| ==>
      fs[i].at.turns != [] && fs[i].at.turns[0].page == page && fs[i].at.turns[0].dir >= d
  }

  lemma {:induction false} DirsUnder(dirs: seq<SubDirectory>, page: nat, d: nat)
    requires d <= |dirs|
    ensures Under(DirsFrom(dirs, page, d), page, d)
    decreases |dirs| - d
  {
    if d < |dirs| {
      DirsUnder(dirs, page, d + 1);
    }
  }

  lemma {:induction false} FoundInOrder(pages: seq<Page>, k: nat)
    requires k <= |pages|
    ensures InOrder(FilesFrom(pages, k))
    decreases pages, 1, |pages| - k
  {
    if k < |pages| {
      FoundInOrder(pages, k + 1);
      FoundLead(pages, k + 1);
      if pages[k].Page? {
        var here, below := PageFiles(pages[k].files, k), DirsFrom(pages[k].dirs, k, 0);
        DirsInOrder(pages[k].dirs, k, 0);
        DirsUnder(pages[k].dirs, k, 0);
        ConcatInOrder(here, below);
        ConcatInOrder(here + below, FilesFrom(pages, k + 1));
      }
    }
  }

  lemma {:induction false} DirsInOrder(dirs: seq<SubDirectory>, page: nat, d: nat)
    requires d <= |dirs|
    ensures InOrder(DirsFrom(dirs, page, d))
    decreases dirs, 0, |dirs| - d
  {
    if d < |dirs| {
      var inner := FilesFrom(dirs[d].pages, 0);
      FoundInOrder(dirs[d].pages, 0);
      BelowInOrder(dirs[d].name, Turn(page, d), inner);
      DirsInOrder(dirs, page, d + 1);
      DirsUnder(dirs, page, d + 1);
      ConcatInOrder(Below(dirs[d].name, Turn(page, d), inner), DirsFrom(dirs, page, d + 1));
    }
  }

  lemma BelowInOrder(name: string, t: Turn, fs: seq<Found>)
    requires InOrder(fs)
    ensures InOrder(Below(name, t, fs))
  {
    var gs := Below(name, t, fs);
    forall i, j | 0 <= i < j < |gs| ensures Before(gs[i].at, gs[j].at) {
      assert gs[i].at.(turns := gs[i].at.turns[1..]) == fs[i].at;
      assert gs[j].at.(turns := gs[j].at.turns[1..]) == fs[j].at;
    }
  }

  // ---------- the listing under a prefix ----------

  /** The files whose names, joined, have the prefix. */
  function Kept(fs: seq<Found>, prefix: string): seq<Found> {
    if fs == [] then []
    else
      var before, last := Kept(fs[..|fs| - 1], prefix), fs[|fs| - 1];
      if StartsWith(Joined(last.names), prefix) then before + [last] else before
  }

  predicate StartsWith(s: string, prefix: string) {
    |prefix| <= |s| && s[..|prefix|] == prefix
  }

  lemma {:induction false} FilterListed(fs: seq<Found>, prefix: string)
    ensures Filter(Listed("", fs), prefix) == Listed("", Kept(fs, prefix))
  {
    if fs == [] {
      assert Listed("", fs) == [] && Listed("", []) == [];
    } else {
      var n := |fs| - 1;
      FilterListed(fs[..n], prefix);
      assert Listed("", fs)[..n] == Listed("", fs[..n]);
      assert Listed("", fs)[n].key == "" + Joined(fs[n].names) == Joined(fs[n].names);
      ListedConcat("", Kept(fs[..n], prefix), [fs[n]]);
    }
  }

  lemma {:induction false} KeptMembers(fs: seq<Found>, prefix: string, f: Found)
    ensures f in Kept(fs, prefix) <==> f in fs && StartsWith(Joined(f.names), prefix)
  {
    if fs != [] {
      KeptMembers(fs[..|fs| - 1], prefix, f);
      assert fs == fs[..|fs| - 1] + [fs[|fs| - 1]];
    }
  }

  lemma {:induction false} KeptInOrder(fs: seq<Found>, prefix: string)
    requires InOrder(fs)
    ensures InOrder(Kept(fs, prefix))
  {
    if fs != [] {
      var n := |fs| - 1;
      var before := Kept(fs[..n], prefix);
      KeptInOrder(fs[..n], prefix);
      forall i | 0 <= i < |before| ensures Before(before[i].at, fs[n].at) {
        KeptMembers(fs[..n], prefix, before[i]);
        assert before[i] in fs[..n];
        var j :| 0 <= j < n && fs[j] == before[i];
      }
      ConcatInOrder(before, [fs[n]]);
    }
  }

  /** An object of the listing is the file at that address. */
  ghost predicate IsAt(pages: seq<Page>, o: Object, f: Found) {
    LeadsTo(pages, f.at, f.names, f.size) && o == Object(Joined(f.names), f.size)
  }

  /** All files of a tree whose names, joined, have the prefix, in the order of their addresses. */
  function Listing(pages: seq<Page>, prefix: string): seq<Found> {
    Kept(FilesFrom(pages, 0), prefix)
  }

  lemma ListingMembers(pages: seq<Page>, prefix: string, f: Found)
    ensures f in Listing(pages, prefix) <==>
            LeadsTo(pages, f.at, f.names, f.size) && StartsWith(Joined(f.names), prefix)
  {
    var all := FilesFrom(pages, 0);
    KeptMembers(all, prefix, f);
    FoundLead(pages, 0);
    if LeadsTo(pages, f.at, f.names, f.size) {
      LeadFound(pages, 0, f);
    }
  }

  lemma ListingIsFilter(pages: seq<Page>, prefix: string)
    requires Named(pages)
    ensures Filter(Everything(pages, ""), prefix) == Listed("", Listing(pages, prefix))
  {
    assert pages[0..] == pages;
    EverythingListed(pages, 0, "");
    FilterListed(FilesFrom(pages, 0), prefix);
  }

  lemma ListedAt(pages: seq<Page>, prefix: string, i: nat)
    requires i < |Listing(pages, prefix)|
    ensures IsAt(pages, Listed("", Listing(pages, prefix))[i], Listing(pages, prefix)[i])
  {
    var f := Listing(pages, prefix)[i];
    ListingMembers(pages, prefix, f);
    assert "" + Joined(f.names) == Joined(f.names);
  }

  /** A listing under any prefix holds one object for each address that leads to a file whose name has
      the prefix, in the order of the addresses: its key is the names on the way joined by slashes,
      its size the file's. */
  lemma ListingIsTree(pages: seq<Page>, prefix: string) returns (fs: seq<Found>)
    requires Named(pages)
    ensures var all := Filter(Everything(pages, ""), prefix);
            |fs| == |all| && forall i :: 0 <= i < |fs| ==> IsAt(pages, all[i], fs[i])
    ensures InOrder(fs)
    ensures forall f: Found :: f in fs <==> LeadsTo(pages, f.at, f.names, f.size) && StartsWith(Joined(f.names), prefix)
  {
    fs := Listing(pages, prefix);
    ListingIsFilter(pages, prefix);
    FoundInOrder(pages, 0);
    KeptInOrder(FilesFrom(pages, 0), prefix);
    forall f: Found
      ensures f in fs <==> LeadsTo(pages, f.at, f.names, f.size) && StartsWith(Joined(f.names), prefix)
    {
      ListingMembers(pages, prefix, f);
    }
    forall i | 0 <= i < |fs| ensures IsAt(pages, Listed("", fs)[i], fs[i]) {
      ListedAt(pages, prefix, i);
    }
  }

  lemma {:induction false} AtOnce(a: Address)
    ensures !Before(a, a)
    decreases |a.turns|
  {
    if a.turns != [] {
      AtOnce(a.(turns := a.turns[1..]));
    }
  }

  // ---------- keys and names ----------

  /** The parts of a key between its slashes. */
  function Parts(key: string): (parts: seq<string>)
    ensures |parts| > 0
  {
    if key == "" then [""]
    else if key[0] == '/' then [""] + Parts(key[1..])
    else [[key[0]] + Parts(key[1..])[0]] + Parts(key[1..])[1..]
  }

  lemma {:induction false} PartsOfOne(name: string)
    requires '/' !in name
    ensures Parts(name) == [name]
  {
    if name != "" {
      assert name[0] in name && name == [name[0]] + name[1..];
      PartsOfOne(name[1..]);
    }
  }

  lemma {:induction false} PartsOfTwo(name: string, rest: string)
    requires '/' !in name
    ensures Parts(name + "/" + rest) == [name] + Parts(rest)
  {
    var key := name + "/" + rest;
    if name == "" {
      assert key[1..] == rest;
    } else {
      assert name[0] in name && name == [name[0]] + name[1..];
      assert key[0] == name[0] && key[1..] == name[1..] + "/" + rest;
      PartsOfTwo(name[1..], rest);
    }
  }

  ghost predicate NoSlashes(names: seq<string>) {
    forall i :: 0 <= i < |names| ==> '/' !in names[i]
  }

  lemma {:induction false} PartsOfJoined(names: seq<string>)
    requires names != [] && NoSlashes(names)
    ensures Parts(Joined(names)) == names
  {
    if |names| == 1 {
      PartsOfOne(names[0]);
    } else {
      PartsOfJoined(names[1..]);
      PartsOfTwo(names[0], Joined(names[1..]));
    }
  }

  lemma {:induction false} JoinedParts(key: string)
    ensures Joined(Parts(key)) == key
  {
    if key != "" {
      JoinedParts(key[1..]);
    }
  }

  /** No name in the tree holds a slash. */
  ghost predicate Plain(pages: seq<Page>) {
    forall a, names, size :: LeadsTo(pages, a, names, size) ==> NoSlashes(names)
  }

  lemma LeadsSomewhere(pages: seq<Page>, a: Address, names: seq<string>, size: nat)
    requires LeadsTo(pages, a, names, size)
    ensures names != []
  {
  }

  lemma ListedLeads(pages: seq<Page>, prefix: string, key: string, size: nat)
    requires Named(pages) && Plain(pages) && Object(key, size) in Listed("", Listing(pages, prefix))
    ensures StartsWith(key, prefix) && exists a :: LeadsTo(pages, a, Parts(key), size)
  {
    var fs := Listing(pages, prefix);
    var i :| 0 <= i < |fs| && Listed("", fs)[i] == Object(key, size);
    var f := fs[i];
    ListedAt(pages, prefix, i);
    ListingMembers(pages, prefix, f);
    LeadsSomewhere(pages, f.at, f.names, f.size);
    PartsOfJoined(f.names);
  }

  lemma LeadsListed(pages: seq<Page>, prefix: string, key: string, size: nat, a: Address)
    requires StartsWith(key, prefix) && LeadsTo(pages, a, Parts(key), size)
    ensures Object(key, size) in Listed("", Listing(pages, prefix))
  {
    var fs, f := Listing(pages, prefix), Found(a, Parts(key), size);
    JoinedParts(key);
    ListingMembers(pages, prefix, f);
    var i :| 0 <= i < |fs| && fs[i] == f;
    ListedAt(pages, prefix, i);
    assert Listed("", fs)[i] in Listed("", fs);
  }

  /** An object with a given key and size is listed if and only if the parts of the key between slashes lead
      through the tree to a file of that size, and the key has the prefix. */
  lemma ListedIff(pages: seq<Page>, prefix: string, key: string, size: nat)
    requires Named(pages) && Plain(pages)
    ensures Object(key, size) in Filter(Everything(pages, ""), prefix) <==>
            StartsWith(key, prefix) && exists a :: LeadsTo(pages, a, Parts(key), size)
  {
    ListingIsFilter(pages, prefix);
    if Object(key, size) in Listed("", Listing(pages, prefix)) {
      ListedLeads(pages, prefix, key, size);
    }
    if StartsWith(key, prefix) {
      if a :| LeadsTo(pages, a, Parts(key), size) {
        LeadsListed(pages, prefix, key, size, a);
      }
    }
  }

  // ---------- when a listing fails ----------

  /** Whether a directory's path and a prefix can have a key in common. */
  predicate Meets(path: string, prefix: string) {
    StartsWith(path, prefix) || StartsWith(prefix, path)
  }

  /** From the directory at `dirPath`, these turns through directories that meet the prefix lead to a page
      that fails. */
  ghost predicate FailsAt(pages: seq<Page>, dirPath: string, prefix: string, turns: seq<Turn>, page: nat)
    decreases |turns|
  {
    if turns == [] then page < |pages| && pages[page].Failed?
    else
      var t := turns[0];
      t.page < |pages| && pages[t.page].Page? && t.dir < |pages[t.page].dirs| &&
      var dir := pages[t.page].dirs[t.dir];
      Meets(Front(dirPath) + dir.name, prefix)
      && FailsAt(dir.pages, Front(dirPath) + dir.name, prefix, turns[1..], page)
  }

  lemma EntersIff(dirPath: string, name: string, prefix: string)
    ensures PathIn(dirPath, name) == Front(dirPath) + name
    ensures Enters(PathIn(dirPath, name), prefix) <==> Meets(Front(dirPath) + name, prefix)
  {
    assert "" + name == name;
  }

  lemma {:induction false} FailureHasPlace(pages: seq<Page>, k: nat, dirPath: string, prefix: string)
    returns (turns: seq<Turn>, page: nat)
    requires k <= |pages| && Walk(pages[k..], dirPath, prefix).None?
    ensures FailsAt(pages, dirPath, prefix, turns, page)
    decreases pages, 1, |pages| - k
  {
    assert pages[k..][1..] == pages[k + 1..];
    if pages[k].Failed? {
      turns, page := [], k;
    } else if WalkDirs(pages[k].dirs, dirPath, prefix).None? {
      assert pages[k].dirs[0..] == pages[k].dirs;
      turns, page := FailureHasPlaceBelow(pages, k, 0, dirPath, prefix);
    } else {
      turns, page := FailureHasPlace(pages, k + 1, dirPath, prefix);
    }
  }

  lemma {:induction false} FailureHasPlaceBelow(pages: seq<Page>, k: nat, d: nat, dirPath: string, prefix: string)
    returns (turns: seq<Turn>, page: nat)
    requires k < |pages| && pages[k].Page? && d <= |pages[k].dirs|
    requires WalkDirs(pages[k].dirs[d..], dirPath, prefix).None?
    ensures FailsAt(pages, dirPath, prefix, turns, page)
    decreases pages, 0, |pages[k].dirs| - d
  {
    var dirs := pages[k].dirs;
    assert dirs[d..][1..] == dirs[d + 1..];
    var path := PathIn(dirPath, dirs[d].name);
    EntersIff(dirPath, dirs[d].name, prefix);
    if Enters(path, prefix) && Walk(dirs[d].pages, path, prefix).None? {
      assert dirs[d].pages[0..] == dirs[d].pages;
      var rest;
      rest, page := FailureHasPlace(dirs[d].pages, 0, path, prefix);
      turns := [Turn(k, d)] + rest;
      assert turns[1..] == rest;
    } else {
      turns, page := FailureHasPlaceBelow(pages, k, d + 1, dirPath, prefix);
    }
  }

  /** Subdirectories from `d` on fail if the first of them is entered and fails, or the others do. */
  lemma DirFails(dirs: seq<SubDirectory>, d: nat, dirPath: string, prefix: string)
    requires d < |dirs|
    requires WalkDirs(dirs[d + 1..], dirPath, prefix).None?
             || (Meets(Front(dirPath) + dirs[d].name, prefix)
                 && Walk(dirs[d].pages, Front(dirPath) + dirs[d].name, prefix).None?)
    ensures WalkDirs(dirs[d..], dirPath, prefix).None?
  {
    assert dirs[d..][1..] == dirs[d + 1..] && dirs[d..][0] == dirs[d];
    EntersIff(dirPath, dirs[d].name, prefix);
  }

  lemma {:induction false} PlaceFails(pages: seq<Page>, k: nat, dirPath: string, prefix: string, turns: seq<Turn>, page: nat)
    requires FailsAt(pages, dirPath, prefix, turns, page)
    requires k <= (if turns == [] then page else turns[0].page)
    ensures Walk(pages[k..], dirPath, prefix).None?
    decreases |turns|, 1, |pages| - k
  {
    assert pages[k..][1..] == pages[k + 1..];
    if k < (if turns == [] then page else turns[0].page) {
      PlaceFails(pages, k + 1, dirPath, prefix, turns, page);
    } else if turns != [] {
      assert pages[k].dirs[0..] == pages[k].dirs;
      PlaceFailsBelow(pages[k].dirs, 0, dirPath, prefix, turns, page);
    }
  }

  lemma {:induction false} PlaceFailsBelow(dirs: seq<SubDirectory>, d: nat, dirPath: string, prefix: string,
                                           turns: seq<Turn>, page: nat)
    requires turns != [] && d <= turns[0].dir < |dirs|
    requires var dir := dirs[turns[0].dir];
             Meets(Front(dirPath) + dir.name, prefix)
             && FailsAt(dir.pages, Front(dirPath) + dir.name, prefix, turns[1..], page)
    ensures WalkDirs(dirs[d..], dirPath, prefix).None?
    decreases |turns|, 0, |dirs| - d
  {
    if d < turns[0].dir {
      PlaceFailsBelow(dirs, d + 1, dirPath, prefix, turns, page);
    } else {
      assert dirs[d].pages[0..] == dirs[d].pages;
      PlaceFails(dirs[d].pages, 0, Front(dirPath) + dirs[d].name, prefix, turns[1..], page);
    }
    DirFails(dirs, d, dirPath, prefix);
  }

  /** From the root, these turns lead to a page that fails. */
  ghost predicate Failure(root: seq<Page>, prefix: string, turns: seq<Turn>, page: nat) {
    FailsAt(root, "", prefix, turns, page)
  }

  /** A listing fails if and only if some page fails that is reached through directories whose paths can have
      a key in common with the prefix. */
  lemma FailsIff(root: seq<Page>, prefix: string)
    ensures Walk(root, "", prefix).None? <==> exists turns, page: nat :: Failure(root, prefix, turns, page)
  {
    assert root[0..] == root;
    if Walk(root, "", prefix).None? {
      var turns, page := FailureHasPlace(root, 0, "", prefix);
      assert Failure(root, prefix, turns, page);
    }
    if turns, page: nat :| Failure(root, prefix, turns, page) {
      PlaceFails(root, 0, "", prefix, turns, page);
    }
  }
}
