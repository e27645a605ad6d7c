/** The breadth-first search for SYSTEM.CNF over the directories of an ISO9660 image. */
module SystemCnf {
  import opened Storage
  import opened Layout
  import opened Iso9660

  const VISITS: nat := 1024
  const DIRECTORY_BYTES: nat := 16 * 1024 * 1024
  const CNF_BYTES: nat := 64 * 1024

  function Min(a: nat, b: nat): nat { if a <= b then a else b }

  /** What the search reads of a directory. */
  function Listing(image: Bytes, d: Entry): seq<Entry> {
    Parse(Slice(image, d.extent * SECTOR, Min(d.size, DIRECTORY_BYTES)))
  }

  function FirstCnf(entries: seq<Entry>): (first: Option<Entry>)
    ensures first.Some? <==> exists k :: 0 <= k < |entries| && entries[k].name == "SYSTEM.CNF" && !entries[k].directory
    ensures first.Some? ==> first.value in entries && first.value.name == "SYSTEM.CNF" && !first.value.directory
  {
    if entries == [] then None
    else if entries[0].name == "SYSTEM.CNF" && !entries[0].directory then Some(entries[0])
    else FirstCnf(entries[1..])
  }

  /** Entry `n` is the first file named SYSTEM.CNF. */
  ghost predicate IsFirstCnf(entries: seq<Entry>, n: nat) {
    && n < |entries| && entries[n].name == "SYSTEM.CNF" && !entries[n].directory
    && forall k :: 0 <= k < n ==> entries[k].name != "SYSTEM.CNF" || entries[k].directory
  }

  lemma {:induction false} FirstCnfIsFirst(entries: seq<Entry>) returns (n: nat)
    requires FirstCnf(entries).Some?
    ensures IsFirstCnf(entries, n) && entries[n] == FirstCnf(entries).value
  {
    if entries[0].name == "SYSTEM.CNF" && !entries[0].directory {
      n := 0;
    } else {
      n := FirstCnfIsFirst(entries[1..]);
      n := n + 1;
    }
  }

  function Directories(entries: seq<Entry>): seq<Entry> {
    if entries == [] then []
    else (if entries[0].directory then [entries[0]] else []) + Directories(entries[1..])
  }

  lemma {:induction false} DirectoriesOfBoth(entries: seq<Entry>, more: seq<Entry>)
    ensures Directories(entries + more) == Directories(entries) + Directories(more)
    decreases |entries|
  {
    if entries == [] {
      assert entries + more == more;
    } else {
      var first := if entries[0].directory then [entries[0]] else [];
      assert (entries + more)[0] == entries[0] && (entries + more)[1..] == entries[1..] + more;
      DirectoriesOfBoth(entries[1..], more);
      assert first + (Directories(entries[1..]) + Directories(more))
          == (first + Directories(entries[1..])) + Directories(more);
    }
  }

  lemma {:induction false} DirectoriesAre(entries: seq<Entry>)
    ensures forall d :: d in Directories(entries) <==> d in entries && d.directory
    ensures (forall d :: d in entries ==> d.directory) ==> Directories(entries) == entries
  {
    if entries != [] {
      DirectoriesAre(entries[1..]);
      assert entries == [entries[0]] + entries[1..];
    }
  }

  /** The directories among the entries, all of them and in their order. */
  lemma DirectoriesMean(entries: seq<Entry>, more: seq<Entry>)
    ensures forall d :: d in Directories(entries) <==> d in entries && d.directory
    ensures Directories(entries + more) == Directories(entries) + Directories(more)
    ensures (forall d :: d in entries ==> d.directory) ==> Directories(entries) == entries
  {
    DirectoriesAre(entries);
    DirectoriesOfBoth(entries, more);
  }

  function Contents(image: Bytes, cnf: Option<Entry>): Option<Bytes> {
    match cnf
    case None => None
    case Some(e) => Some(Slice(image, e.extent * SECTOR, Min(e.size, CNF_BYTES)))
  }

  predicate Seen(expanded: seq<Entry>, extent: nat) { exists k :: 0 <= k < |expanded| && expanded[k].extent == extent }

  /** What was found, and the directories read on the way. */
  datatype Hunt = Hunt(cnf: Option<Entry>, expanded: seq<Entry>)

  function Search(image: Bytes, pending: seq<Entry>, expanded: seq<Entry>): Hunt
    requires |expanded| <= VISITS + 1
    decreases VISITS + 1 - |expanded|, |pending|
  {
    if pending == [] then Hunt(None, expanded)
    else if Seen(expanded, pending[0].extent) || |expanded| > VISITS then Search(image, pending[1..], expanded)
    else
      var listing, next := Listing(image, pending[0]), expanded + [pending[0]];
      if FirstCnf(listing).Some? then Hunt(FirstCnf(listing), next)
      else Search(image, pending[1..] + Directories(listing), next)
  }

  /** Looks through one directory: the first SYSTEM.CNF, or more directories to visit. */
  method ScanDirectory(entries: seq<Entry>, pending: seq<Entry>) returns (cnf: Option<Entry>, pending': seq<Entry>)
    ensures cnf == FirstCnf(entries)
    ensures cnf.None? ==> pending' == pending + Directories(entries)
  {
    pending' := pending;
    var i := 0;
    while i < |entries|
      invariant 0 <= i <= |entries|
      invariant FirstCnf(entries) == FirstCnf(entries[i..])
      invariant pending + Directories(entries) == pending' + Directories(entries[i..])
    {
      var entry := entries[i];
      if entry.name == "SYSTEM.CNF" && !entry.directory { return Some(entry), pending'; }
      if entry.directory { pending' := pending' + [entry]; }
      i := i + 1;
    }
    cnf := None;
  }

  /** `bytes` are those of the image from `at` on, at most `length`. */
  ghost predicate ReadFrom(image: Bytes, at: nat, length: nat, bytes: Bytes) {
    && |bytes| == (if |image| <= at then 0 else if |image| - at < length then |image| - at else length)
    && forall k :: 0 <= k < |bytes| ==> bytes[k] == image[at + k]
  }

  /** `bytes` are the first 64 KiB of the file that entry `n` of vertex `i` names, counted in
      breadth-first order; no earlier vertex and no earlier entry names such a file. */
  ghost predicate FoundAt(image: Bytes, root: Entry, k: nat, i: nat, n: nat, bytes: Bytes) {
    var firsts := Firsts(image, root, k);
    && i < |firsts| && i < 1025 && Reachable(image, root, firsts[i])
    && (forall j :: 0 <= j < i ==> !ListsCnf(image, firsts[j]))
    && IsFirstCnf(Listing(image, firsts[i]), n)
    && var e := Listing(image, firsts[i])[n];
       ReadFrom(image, 2048 * e.extent, if e.size < 65536 then e.size else 65536, bytes)
  }

  /** The search itself, with its queue and its set of visited extents. */
  method FindSystemCnf(image: Bytes, root: Entry) returns (cnf: Option<Bytes>)
    ensures cnf == Contents(image, Search(image, [root], []).cnf)
    ensures cnf.Some? <==> exists k: nat :: ListedIn(image, Firsts(image, root, k), 0)
    ensures cnf.Some? ==> exists k: nat, i: nat, n: nat :: FoundAt(image, root, k, i, n, cnf.value)
  {
    SearchIsExact(image, root);
    if Search(image, [root], []).cnf.Some? { SearchFindsFirst(image, root); }
    cnf := RunSearch(image, root);
  }

  /** The loop. */
  method RunSearch(image: Bytes, root: Entry) returns (cnf: Option<Bytes>)
    ensures cnf == Contents(image, Search(image, [root], []).cnf)
  {
    hide Listing, FirstCnf, Directories;
    var pending, visited := [root], {};
    ghost var expanded := [];
    while pending != []
      invariant |visited| == |expanded| <= VISITS + 1
      invariant forall extent :: extent in visited <==> Seen(expanded, extent)
      invariant Search(image, pending, expanded) == Search(image, [root], [])
      decreases VISITS + 1 - |visited|, |pending|
    {
      var directory := pending[0];
      pending := pending[1..];
      if directory.extent in visited || |visited| > VISITS { continue; }
      visited := visited + {directory.extent};
      SeenAlso(expanded, directory);
      expanded := expanded + [directory];
      var entries := ReadDirectory(image, directory);
      var found;
      found, pending := ScanDirectory(entries, pending);
      if found.Some? { return Contents(image, found); }
    }
    cnf := None;
  }

  method ReadDirectory(image: Bytes, d: Entry) returns (entries: seq<Entry>)
    ensures entries == Listing(image, d)
  {
    entries := ParseDirectory(Slice(image, d.extent * SECTOR, Min(d.size, DIRECTORY_BYTES)));
  }

  lemma SeenAlso(expanded: seq<Entry>, d: Entry)
    ensures forall extent :: Seen(expanded + [d], extent) <==> Seen(expanded, extent) || extent == d.extent
  {
    forall extent ensures Seen(expanded + [d], extent) <==> Seen(expanded, extent) || extent == d.extent {
      if Seen(expanded, extent) {
        var k :| 0 <= k < |expanded| && expanded[k].extent == extent;
        assert (expanded + [d])[k].extent == extent;
      }
      if extent == d.extent { assert (expanded + [d])[|expanded|].extent == extent; }
    }
  }

  // ---- What the search reaches.

  /** A way through the directories: each is listed in the one before. */
  ghost predicate IsPath(image: Bytes, path: seq<Entry>) {
    forall k :: 0 < k < |path| ==> path[k] in Directories(Listing(image, path[k - 1]))
  }

  ghost predicate PathTo(image: Bytes, root: Entry, d: Entry, path: seq<Entry>) {
    path != [] && path[0] == root && path[|path| - 1] == d && IsPath(image, path)
  }

  ghost predicate Reachable(image: Bytes, root: Entry, d: Entry) { exists path :: PathTo(image, root, d, path) }

  /** Reachable within `k` steps. */
  ghost predicate Within(image: Bytes, root: Entry, d: Entry, k: nat) {
    exists path :: PathTo(image, root, d, path) && |path| <= k + 1
  }

  /** Each extent at most once. */
  ghost predicate Distinct(expanded: seq<Entry>) {
    forall i, j :: 0 <= i < j < |expanded| ==> expanded[i].extent != expanded[j].extent
  }

  lemma WithinRoot(image: Bytes, root: Entry)
    ensures Within(image, root, root, 0)
  {
    assert PathTo(image, root, root, [root]);
  }

  lemma WithinNext(image: Bytes, root: Entry, d: Entry, c: Entry, k: nat)
    requires Within(image, root, d, k) && c in Directories(Listing(image, d))
    ensures Within(image, root, c, k + 1)
  {
    hide Listing, Directories;
    var path :| PathTo(image, root, d, path) && |path| <= k + 1;
    PathOneLonger(image, path, c);
    assert PathTo(image, root, c, path + [c]);
  }

  lemma PathOneLonger(image: Bytes, path: seq<Entry>, c: Entry)
    requires path != [] && IsPath(image, path) && c in Directories(Listing(image, path[|path| - 1]))
    ensures IsPath(image, path + [c])
  {
    hide Listing, Directories;
    var longer := path + [c];
    forall k | 0 < k < |longer| ensures longer[k] in Directories(Listing(image, longer[k - 1])) {
      if k < |path| { assert path[k] in Directories(Listing(image, path[k - 1])); }
    }
  }

  lemma PathOneShorter(image: Bytes, path: seq<Entry>)
    requires |path| > 1 && IsPath(image, path)
    ensures IsPath(image, path[..|path| - 1]) && path[|path| - 1] in Directories(Listing(image, path[|path| - 2]))
  {
    hide Listing, Directories;
    var shorter := path[..|path| - 1];
    forall k | 0 < k < |shorter| ensures shorter[k] in Directories(Listing(image, shorter[k - 1])) {
      assert path[k] in Directories(Listing(image, path[k - 1]));
    }
  }

  lemma DistinctAlso(expanded: seq<Entry>, d: Entry)
    requires Distinct(expanded) && !Seen(expanded, d.extent)
    ensures Distinct(expanded + [d])
  {
  }

  lemma {:induction false} ExpandsOnce(image: Bytes, pending: seq<Entry>, expanded: seq<Entry>)
    requires |expanded| <= VISITS + 1 && Distinct(expanded)
    ensures var hunt := Search(image, pending, expanded); |hunt.expanded| <= VISITS + 1 && Distinct(hunt.expanded)
    decreases VISITS + 1 - |expanded|, |pending|
  {
    hide Listing, Directories, Seen, FirstCnf, Distinct;
    if pending != [] {
      var d := pending[0];
      if Seen(expanded, d.extent) || |expanded| > VISITS {
        ExpandsOnce(image, pending[1..], expanded);
      } else {
        DistinctAlso(expanded, d);
        if FirstCnf(Listing(image, d)).None? {
          ExpandsOnce(image, pending[1..] + Directories(Listing(image, d)), expanded + [d]);
        }
      }
    }
  }

  /** Whatever the image, cycles included: no extent is expanded twice, at most 1025 are. */
  lemma EachExtentOnce(image: Bytes, root: Entry)
    ensures var expanded := Search(image, [root], []).expanded; |expanded| <= 1025 && Distinct(expanded)
  {
    ExpandsOnce(image, [root], []);
  }

  // ---- The graph the search walks: one vertex an extent, with the listing of the first
  // entry that names it in breadth-first order.  No limit and no early end here.

  /** One level of the graph: the entries that are first for their extent join `firsts`, and
      what they list is the next level. */
  function Level(image: Bytes, level: seq<Entry>, firsts: seq<Entry>): (result: (seq<Entry>, seq<Entry>))
    ensures |firsts| <= |result.0| && forall i :: 0 <= i < |firsts| ==> result.0[i] == firsts[i]
    decreases |level|
  {
    if level == [] then (firsts, [])
    else if Seen(firsts, level[0].extent) then Level(image, level[1..], firsts)
    else
      var (more, next) := Level(image, level[1..], firsts + [level[0]]);
      (more, Directories(Listing(image, level[0])) + next)
  }

  /** The first `k` levels: their vertices in breadth-first order, and the level after them. */
  function Levels(image: Bytes, root: Entry, k: nat): (seq<Entry>, seq<Entry>) {
    if k == 0 then ([], [root]) else Level(image, Levels(image, root, k - 1).1, Levels(image, root, k - 1).0)
  }

  function Firsts(image: Bytes, root: Entry, k: nat): seq<Entry> { Levels(image, root, k).0 }

  function Frontier(image: Bytes, root: Entry, k: nat): seq<Entry> { Levels(image, root, k).1 }

  predicate ListsCnf(image: Bytes, d: Entry) { FirstCnf(Listing(image, d)).Some? }

  /** One of the first 1025 vertices, from `from` on, lists a SYSTEM.CNF. */
  ghost predicate ListedIn(image: Bytes, firsts: seq<Entry>, from: nat) {
    exists i :: from <= i < |firsts| && i < 1025 && ListsCnf(image, firsts[i])
  }

  /** The SYSTEM.CNF that the first of them to list one lists first. */
  function FirstIn(image: Bytes, firsts: seq<Entry>, from: nat): Option<Entry>
    decreases |firsts| - from
  {
    if from >= |firsts| || from > VISITS then None
    else if ListsCnf(image, firsts[from]) then FirstCnf(Listing(image, firsts[from]))
    else FirstIn(image, firsts, from + 1)
  }

  lemma {:induction false} FirstInIsListed(image: Bytes, firsts: seq<Entry>, from: nat)
    ensures FirstIn(image, firsts, from).Some? <==> ListedIn(image, firsts, from)
    ensures FirstIn(image, firsts, from).Some? ==>
              exists i :: from <= i < |firsts| && i < 1025 && ListsCnf(image, firsts[i])
                          && FirstIn(image, firsts, from) == FirstCnf(Listing(image, firsts[i]))
                          && forall j :: from <= j < i ==> !ListsCnf(image, firsts[j])
    decreases |firsts| - from
  {
    hide Listing, FirstCnf;
    if from < |firsts| && from <= VISITS && !ListsCnf(image, firsts[from]) {
      FirstInIsListed(image, firsts, from + 1);
      OneLater(image, firsts, from);
    }
  }

  /** More vertices behind do not change what is found. */
  lemma {:induction false} FirstInMore(image: Bytes, before: seq<Entry>, firsts: seq<Entry>, from: nat)
    requires |before| <= |firsts| && forall i :: 0 <= i < |before| ==> firsts[i] == before[i]
    requires from <= |before|
    ensures FirstIn(image, firsts, from)
            == if FirstIn(image, before, from).Some? then FirstIn(image, before, from)
               else FirstIn(image, firsts, |before|)
    decreases |before| - from
  {
    hide Listing, FirstCnf;
    if from < |before| && from <= VISITS && !ListsCnf(image, before[from]) {
      FirstInMore(image, before, firsts, from + 1);
    } else if from < |before| && from > VISITS {
      assert FirstIn(image, firsts, |before|).None?;
    }
  }

  /** At the limit the search only empties its queue. */
  lemma {:induction false} DrainsAtLimit(image: Bytes, pending: seq<Entry>, expanded: seq<Entry>)
    requires |expanded| == VISITS + 1
    ensures Search(image, pending, expanded).cnf.None?
    decreases |pending|
  {
    hide Listing, FirstCnf, Seen;
    if pending != [] { DrainsAtLimit(image, pending[1..], expanded); }
  }

  lemma Concats(pending: seq<Entry>, level: seq<Entry>, next: seq<Entry>)
    requires level != [] && pending == level + next
    ensures pending != [] && pending[0] == level[0] && pending[1..] == level[1..] + next
  {
  }

  /** The search walks a level as the graph does, or ends in it. */
  lemma {:induction false} SearchWalksLevel(image: Bytes, level: seq<Entry>, next: seq<Entry>, expanded: seq<Entry>)
    requires |expanded| <= VISITS + 1
    ensures var (firsts, later) := Level(image, level, expanded);
            var hunt := Search(image, level + next, expanded);
            && (ListedIn(image, firsts, |expanded|) ==> hunt.cnf == FirstIn(image, firsts, |expanded|))
            && (!ListedIn(image, firsts, |expanded|) ==>
                  if |firsts| <= VISITS + 1 then hunt == Search(image, next + later, firsts) else hunt.cnf.None?)
    decreases |level|
  {
    hide Listing, FirstCnf, Directories, Seen;
    if level == [] {
      assert level + next == next && next + [] == next;
    } else {
      var d := level[0];
      Concats(level + next, level, next);
      if Seen(expanded, d.extent) {
        SearchWalksLevel(image, level[1..], next, expanded);
      } else if |expanded| > VISITS {
        DrainsAtLimit(image, level[1..] + next, expanded);
      } else {
        var found := Directories(Listing(image, d));
        var (firsts, later) := Level(image, level[1..], expanded + [d]);
        assert firsts[|expanded|] == (expanded + [d])[|expanded|] == d;
        assert ListsCnf(image, d) ==> FirstIn(image, firsts, |expanded|) == FirstCnf(Listing(image, d));
        if !ListsCnf(image, d) {
          SearchWalksLevel(image, level[1..], next + found, expanded + [d]);
          assert level[1..] + next + found == level[1..] + (next + found);
          assert next + (found + later) == next + found + later;
          OneLater(image, firsts, |expanded|);
        }
      }
    }
  }

  lemma OneLater(image: Bytes, firsts: seq<Entry>, from: nat)
    requires from < |firsts| && !ListsCnf(image, firsts[from])
    ensures ListedIn(image, firsts, from) <==> ListedIn(image, firsts, from + 1)
  {
  }

  lemma ListedInBoth(image: Bytes, before: seq<Entry>, firsts: seq<Entry>)
    requires |before| <= |firsts| && forall i :: 0 <= i < |before| ==> firsts[i] == before[i]
    ensures ListedIn(image, firsts, 0) <==> ListedIn(image, before, 0) || ListedIn(image, firsts, |before|)
  {
    if ListedIn(image, firsts, 0) {
      var i :| 0 <= i < |firsts| && i < 1025 && ListsCnf(image, firsts[i]);
      if i < |before| { assert ListsCnf(image, before[i]); }
    }
    if ListedIn(image, before, 0) {
      var i :| 0 <= i < |before| && i < 1025 && ListsCnf(image, before[i]);
      assert ListsCnf(image, firsts[i]);
    }
  }

  /** After `k` levels the search has ended, or stands where the graph stands. */
  lemma {:induction false} SearchWalksLevels(image: Bytes, root: Entry, k: nat)
    ensures var hunt := Search(image, [root], []);
            && (ListedIn(image, Firsts(image, root, k), 0) ==> hunt.cnf == FirstIn(image, Firsts(image, root, k), 0))
            && (!ListedIn(image, Firsts(image, root, k), 0) ==>
                  if |Firsts(image, root, k)| <= VISITS + 1
                  then hunt == Search(image, Frontier(image, root, k), Firsts(image, root, k))
                  else hunt.cnf.None?)
  {
    hide Search, Level, ListedIn, FirstIn;
    if k == 0 {
      NothingListed(image);
    } else {
      var before, level := Firsts(image, root, k - 1), Frontier(image, root, k - 1);
      SearchWalksLevels(image, root, k - 1);
      ListedInBoth(image, before, Firsts(image, root, k));
      FirstInMore(image, before, Firsts(image, root, k), 0);
      FirstInIsListed(image, before, 0);
      if |before| <= VISITS + 1 {
        SearchWalksLevel(image, level, [], before);
        assert level + [] == level && [] + Frontier(image, root, k) == Frontier(image, root, k);
      } else {
        NotListedBeyond(image, Firsts(image, root, k), |before|);
      }
    }
  }

  lemma NothingListed(image: Bytes)
    ensures !ListedIn(image, [], 0)
  {
  }

  lemma NotListedBeyond(image: Bytes, firsts: seq<Entry>, from: nat)
    requires from > VISITS
    ensures !ListedIn(image, firsts, from)
  {
  }

  lemma NextLevel(image: Bytes, root: Entry, k: nat)
    requires k > 0
    ensures Level(image, Frontier(image, root, k - 1), Firsts(image, root, k - 1))
            == (Firsts(image, root, k), Frontier(image, root, k))
  {
  }

  /** Levels grow until one is empty. */
  lemma {:induction false} LevelsGrow(image: Bytes, root: Entry, k: nat)
    requires forall j :: 0 <= j <= k ==> Frontier(image, root, j) != []
    ensures |Firsts(image, root, k)| >= k
  {
    hide Levels, Level, Frontier, Firsts;
    if k > 0 {
      LevelsGrow(image, root, k - 1);
      NextLevel(image, root, k);
      EmptyUnlessGrown(image, Frontier(image, root, k - 1), Firsts(image, root, k - 1));
    }
  }

  lemma {:induction false} EmptyUnlessGrown(image: Bytes, level: seq<Entry>, firsts: seq<Entry>)
    ensures |Level(image, level, firsts).0| == |firsts| ==> Level(image, level, firsts).1 == []
    decreases |level|
  {
    hide Listing, Seen;
    if level != [] && Seen(firsts, level[0].extent) { EmptyUnlessGrown(image, level[1..], firsts); }
  }

  /** Exactly when the search finds a SYSTEM.CNF: when one of the first 1025 extents, in
      breadth-first order, lists one in its first entry. */
  lemma SearchIsExact(image: Bytes, root: Entry)
    ensures Search(image, [root], []).cnf.Some? <==> exists k: nat :: ListedIn(image, Firsts(image, root, k), 0)
  {
    hide Search, ListedIn, Levels;
    hide FirstIn;
    if k: nat :| ListedIn(image, Firsts(image, root, k), 0) {
      SearchWalksLevels(image, root, k);
      FirstInIsListed(image, Firsts(image, root, k), 0);
    } else {
      if j: nat :| Frontier(image, root, j) == [] {
        SearchWalksLevels(image, root, j);
        NothingPending(image, Firsts(image, root, j));
      } else {
        SearchWalksLevels(image, root, VISITS + 2);
        LevelsGrow(image, root, VISITS + 2);
      }
    }
  }

  /** And what it finds: the first SYSTEM.CNF by breadth-first order and order of listing. */
  lemma SearchFindsFirst(image: Bytes, root: Entry)
    requires Search(image, [root], []).cnf.Some?
    ensures exists k: nat, i: nat, n: nat ::
              FoundAt(image, root, k, i, n, Contents(image, Search(image, [root], []).cnf).value)
  {
    hide Listing, Levels, Search, FirstIn, ListedIn, Contents, FoundAt;
    SearchIsExact(image, root);
    var k: nat :| ListedIn(image, Firsts(image, root, k), 0);
    SearchWalksLevels(image, root, k);
    var i, n := FirstInIsAt(image, root, k);
  }

  lemma FirstInIsAt(image: Bytes, root: Entry, k: nat) returns (i: nat, n: nat)
    requires ListedIn(image, Firsts(image, root, k), 0)
    ensures FirstIn(image, Firsts(image, root, k), 0).Some?
    ensures FoundAt(image, root, k, i, n, Contents(image, FirstIn(image, Firsts(image, root, k), 0)).value)
  {
    hide Listing, Levels, FirstIn, IsFirstCnf, Contents, Within, Reachable;
    var firsts := Firsts(image, root, k);
    FirstInIsListed(image, firsts, 0);
    i :| 0 <= i < |firsts| && i < 1025 && ListsCnf(image, firsts[i])
      && FirstIn(image, firsts, 0) == FirstCnf(Listing(image, firsts[i]))
      && forall j :: 0 <= j < i ==> !ListsCnf(image, firsts[j]);
    n := FirstCnfIsFirst(Listing(image, firsts[i]));
    VertexIsReachable(image, root, k, i);
    ContentsAre(image, Listing(image, firsts[i])[n]);
  }

  lemma ContentsAre(image: Bytes, e: Entry)
    ensures ReadFrom(image, 2048 * e.extent, if e.size < 65536 then e.size else 65536, Contents(image, Some(e)).value)
  {
  }

  lemma VertexIsReachable(image: Bytes, root: Entry, k: nat, i: nat)
    requires i < |Firsts(image, root, k)|
    ensures Reachable(image, root, Firsts(image, root, k)[i])
  {
    hide Levels, Listing;
    FirstsMean(image, root, k);
    assert Firsts(image, root, k)[i] in Firsts(image, root, k);
    assert Within(image, root, Firsts(image, root, k)[i], k - 1);
  }

  /** What a directory lists: the entries of the records packed at its extent. */
  lemma ListingOfPacked(image: Bytes, d: Entry, sectors: seq<seq<Record>>)
    requires AllFit(sectors) && At(image, 2048 * d.extent, Pack(sectors))
    requires d.size == |Pack(sectors)| <= 16 * 1024 * 1024
    ensures Listing(image, d) == Entries(Flatten(sectors))
  {
    ParsingUndoesPacking(sectors);
    hide Parse, Pack, Entries;
    assert Slice(image, d.extent * SECTOR, d.size) == Pack(sectors);
  }

  /** Of a longer directory the first 16 MiB are read. */
  lemma ListingIsClipped(image: Bytes, d: Entry)
    requires d.size > 16 * 1024 * 1024
    ensures Listing(image, d) == Listing(image, d.(size := 16 * 1024 * 1024))
  {
  }

  lemma NothingPending(image: Bytes, expanded: seq<Entry>)
    ensures |expanded| <= VISITS + 1 ==> Search(image, [], expanded).cnf.None?
  {
  }

  // ---- What the graph is.

  /** Every vertex of `firsts` is reached within `k` steps. */
  ghost predicate AllWithin(image: Bytes, root: Entry, ds: seq<Entry>, k: nat) {
    forall d :: d in ds ==> Within(image, root, d, k)
  }

  lemma WithinMore(image: Bytes, root: Entry, d: Entry, k: nat, n: nat)
    requires Within(image, root, d, k) && k <= n
    ensures Within(image, root, d, n)
  {
    var path :| PathTo(image, root, d, path) && |path| <= k + 1;
  }

  /** A level adds each new extent once, and what each of them lists. */
  lemma {:induction false} LevelMeans(image: Bytes, level: seq<Entry>, firsts: seq<Entry>)
    requires Distinct(firsts)
    ensures var (more, next) := Level(image, level, firsts);
            && Distinct(more) && (forall d :: d in more ==> d in firsts || d in level)
            && (forall d :: d in firsts || d in level ==> Seen(more, d.extent))
            && (forall d :: d in more && d !in firsts ==> forall c :: c in Directories(Listing(image, d)) ==> c in next)
            && (forall c :: c in next ==> exists d :: d in level && c in Directories(Listing(image, d)))
    decreases |level|
  {
    hide Listing, Directories;
    if level == [] {
      forall d | d in firsts ensures Seen(firsts, d.extent) { MemberSeen(firsts, d); }
    } else {
      var d := level[0];
      assert level == [d] + level[1..];
      if Seen(firsts, d.extent) {
        LevelMeans(image, level[1..], firsts);
        StillSeen(image, level[1..], firsts, d.extent);
      } else {
        DistinctAlso(firsts, d);
        LevelMeans(image, level[1..], firsts + [d]);
        assert d in firsts + [d];
      }
    }
  }

  lemma MemberSeen(ds: seq<Entry>, d: Entry)
    requires d in ds
    ensures Seen(ds, d.extent)
  {
    var k :| 0 <= k < |ds| && ds[k] == d;
  }

  lemma StillSeen(image: Bytes, level: seq<Entry>, firsts: seq<Entry>, extent: nat)
    requires Seen(firsts, extent)
    ensures Seen(Level(image, level, firsts).0, extent)
  {
    var more := Level(image, level, firsts).0;
    var k :| 0 <= k < |firsts| && firsts[k].extent == extent;
    assert more[k].extent == extent;
  }

  /** The vertices of the first `k` levels: each extent once, each within `k - 1` steps, and
      everything they list is a vertex of the next level. */
  lemma {:induction false} FirstsMean(image: Bytes, root: Entry, k: nat)
    ensures Distinct(Firsts(image, root, k)) && AllWithin(image, root, Frontier(image, root, k), k)
    ensures k > 0 ==> AllWithin(image, root, Firsts(image, root, k), k - 1) && Seen(Firsts(image, root, k), root.extent)
    ensures k == 0 ==> Firsts(image, root, k) == []
    ensures forall d, c :: d in Firsts(image, root, k) && c in Directories(Listing(image, d)) ==>
              Seen(Firsts(image, root, k + 1), c.extent)
  {
    hide Within, Listing, Directories, Level;
    if k == 0 {
      WithinRoot(image, root);
    } else {
      var before, level := Firsts(image, root, k - 1), Frontier(image, root, k - 1);
      var firsts, next := Firsts(image, root, k), Frontier(image, root, k);
      FirstsMean(image, root, k - 1);
      LevelMeans(image, level, before);
      LevelMeans(image, next, firsts);
      forall c | c in next ensures Within(image, root, c, k) {
        var d :| d in level && c in Directories(Listing(image, d));
        WithinNext(image, root, d, c, k - 1);
      }
      forall d | d in firsts ensures Within(image, root, d, k - 1) {
        if d in before && k > 1 { WithinMore(image, root, d, k - 2, k - 1); }
      }
      if k == 1 { assert root in level; } else { StillSeen(image, level, before, root.extent); }
      forall d, c | d in firsts && c in Directories(Listing(image, d))
        ensures Seen(Firsts(image, root, k + 1), c.extent)
      {
        if d in before { StillSeen(image, next, firsts, c.extent); } else { assert c in next; }
      }
    }
  }

  // ---- A SYSTEM.CNF is found whenever one is near enough.

  /** Two entries for one extent, both within `k` steps, list the same directory. */
  ghost predicate OneListingWithin(image: Bytes, root: Entry, k: nat) {
    forall a, b :: Within(image, root, a, k) && Within(image, root, b, k) && a.extent == b.extent ==>
      Listing(image, a) == Listing(image, b)
  }

  lemma {:induction false} DistinctCount(expanded: seq<Entry>)
    requires Distinct(expanded)
    ensures |set k | 0 <= k < |expanded| :: expanded[k].extent| == |expanded|
    decreases |expanded|
  {
    if expanded != [] {
      var rest := expanded[..|expanded| - 1];
      DistinctCount(rest);
      var before := set k | 0 <= k < |rest| :: rest[k].extent;
      var all := set k | 0 <= k < |expanded| :: expanded[k].extent;
      forall x | x in all ensures x in before + {expanded[|rest|].extent} {
        var k :| 0 <= k < |expanded| && expanded[k].extent == x;
        if k < |rest| { assert rest[k].extent == x; }
      }
      forall x | x in before ensures x in all && x != expanded[|rest|].extent {
        var k :| 0 <= k < |rest| && rest[k].extent == x;
        assert expanded[k].extent == x;
      }
      assert all == before + {expanded[|rest|].extent};
    }
  }

  lemma SubsetIsSmaller(a: set<nat>, b: set<nat>)
    requires a <= b
    ensures |a| <= |b|
  {
    assert b == a + (b - a);
  }

  lemma FirstsFit(firsts: seq<Entry>, extents: set<nat>)
    requires Distinct(firsts) && forall d :: d in firsts ==> d.extent in extents
    ensures |firsts| <= |extents|
  {
    DistinctCount(firsts);
    SubsetIsSmaller(set k | 0 <= k < |firsts| :: firsts[k].extent, extents);
  }

  /** With one listing an extent, every directory within `k` steps is a vertex of the graph. */
  lemma {:induction false} PathIsSeen(image: Bytes, root: Entry, k: nat, path: seq<Entry>)
    requires OneListingWithin(image, root, k) && 0 < |path| <= k + 1 && path[0] == root && IsPath(image, path)
    ensures Seen(Firsts(image, root, |path|), path[|path| - 1].extent)
    decreases |path|
  {
    hide IsPath, OneListingWithin, Firsts, Listing, Directories, Within;
    var n := |path| - 1;
    if n > 0 {
      var rest := path[..n];
      PathOneShorter(image, path);
      PathIsSeen(image, root, k, rest);
      IsWithin(image, root, rest[n - 1], rest);
      ChildIsSeen(image, root, k, n, rest[n - 1], path[n]);
    } else {
      FirstsMean(image, root, 1);
    }
  }

  lemma ChildIsSeen(image: Bytes, root: Entry, k: nat, n: nat, parent: Entry, child: Entry)
    requires OneListingWithin(image, root, k) && 0 < n <= k && Within(image, root, parent, n - 1)
    requires Seen(Firsts(image, root, n), parent.extent) && child in Directories(Listing(image, parent))
    ensures Seen(Firsts(image, root, n + 1), child.extent)
  {
    hide Listing, Directories, Levels, Within, Firsts;
    FirstsMean(image, root, n);
    var firsts := Firsts(image, root, n);
    var i :| 0 <= i < |firsts| && firsts[i].extent == parent.extent;
    assert firsts[i] in firsts;
    WithinMore(image, root, parent, n - 1, k);
    WithinMore(image, root, firsts[i], n - 1, k);
  }

  lemma IsWithin(image: Bytes, root: Entry, d: Entry, path: seq<Entry>)
    requires PathTo(image, root, d, path)
    ensures Within(image, root, d, |path| - 1) && Reachable(image, root, d)
  {
  }

  /** If at most 1025 extents are reachable within `k` steps, and their entries agree, a
      SYSTEM.CNF that a directory within `k` steps lists is found, however large the image. */
  lemma FoundWithinSteps(image: Bytes, root: Entry, k: nat, extents: set<nat>, d: Entry)
    requires |extents| <= 1025 && forall e :: Within(image, root, e, k) ==> e.extent in extents
    requires OneListingWithin(image, root, k) && Within(image, root, d, k) && ListsCnf(image, d)
    ensures Search(image, [root], []).cnf.Some?
  {
    hide Listing, Levels, Search;
    var path :| PathTo(image, root, d, path) && |path| <= k + 1;
    var n := |path|;
    hide Within;
    PathIsSeen(image, root, k, path);
    FirstsMean(image, root, n);
    var firsts := Firsts(image, root, n);
    forall e | e in firsts ensures e.extent in extents { WithinMore(image, root, e, n - 1, k); }
    FirstsFit(firsts, extents);
    var i :| 0 <= i < |firsts| && firsts[i].extent == d.extent;
    assert firsts[i] in firsts && Within(image, root, firsts[i], k);
    assert ListsCnf(image, firsts[i]);
    assert ListedIn(image, firsts, 0);
    SearchIsExact(image, root);
  }

  /** What is found is listed by a reachable directory. */
  lemma FoundIsReachable(image: Bytes, root: Entry)
    requires Search(image, [root], []).cnf.Some?
    ensures exists d :: Reachable(image, root, d) && ListsCnf(image, d)
  {
    hide Listing, Levels, Search;
    SearchIsExact(image, root);
    var k: nat :| ListedIn(image, Firsts(image, root, k), 0);
    var firsts := Firsts(image, root, k);
    var i :| 0 <= i < |firsts| && i < 1025 && ListsCnf(image, firsts[i]);
    FirstsMean(image, root, k);
    assert firsts[i] in firsts && Within(image, root, firsts[i], k - 1);
  }

  /** Two reachable entries for one extent list the same directory. */
  ghost predicate OneListingPerExtent(image: Bytes, root: Entry) {
    forall a, b :: Reachable(image, root, a) && Reachable(image, root, b) && a.extent == b.extent ==>
      Listing(image, a) == Listing(image, b)
  }

  /** `extents` are enough for every reachable directory, and within the visit limit. */
  ghost predicate WithinLimit(image: Bytes, root: Entry, extents: set<nat>) {
    |extents| <= 1025 && forall d :: Reachable(image, root, d) ==> d.extent in extents
  }

  /** Where the whole image is within the visit limit, whatever the cycles, a SYSTEM.CNF is
      found if and only if some reachable directory lists one. */
  lemma SearchIsComplete(image: Bytes, root: Entry, extents: set<nat>)
    requires WithinLimit(image, root, extents) && OneListingPerExtent(image, root)
    ensures Search(image, [root], []).cnf.Some? <==> exists d :: Reachable(image, root, d) && ListsCnf(image, d)
  {
    hide Listing, Search, IsPath;
    if Search(image, [root], []).cnf.Some? { FoundIsReachable(image, root); }
    if d :| Reachable(image, root, d) && ListsCnf(image, d) {
      var path :| PathTo(image, root, d, path);
      FoundWithinSteps(image, root, |path| - 1, extents, d);
    }
  }

  // ---- When two entries give one extent different sizes, a SYSTEM.CNF may be missed.

  function Directory(name: byte, extent: nat, size: nat): Record {
    Record(0, extent, size, Zeros(7), 2, 0, 0, Zeros(4), [name], [])
  }

  /** "SYSTEM.CNF" */
  const CNF_NAME: Bytes := [83, 89, 83, 84, 69, 77, 46, 67, 78, 70]

  const CNF_RECORD := Record(0, 2, 10, Zeros(7), 0, 0, 0, Zeros(4), CNF_NAME, [])

  /** The root lists directories A and B, both at extent 1, A with no bytes; B lists SYSTEM.CNF. */
  function TwoSizes(): seq<seq<Record>> { [[Directory(65, 1, 0), Directory(66, 1, SECTOR)], [CNF_RECORD]] }

  lemma NamesOfTwoSizes()
    ensures Name([65]) == "A" && Name([66]) == "B" && Name(CNF_NAME) == "SYSTEM.CNF"
  {
    assert Ascii([65]) == "A" && Ascii([66]) == "B" && Ascii(CNF_NAME) == "SYSTEM.CNF";
  }

  lemma EntriesOfTwoSizes()
    ensures Entries(TwoSizes()[0]) == [Entry("A", 1, 0, true), Entry("B", 1, SECTOR, true)]
    ensures Entries(TwoSizes()[1]) == [Entry("SYSTEM.CNF", 2, 10, false)]
  {
    NamesOfTwoSizes();
    hide Name;
    var a, b := Directory(65, 1, 0), Directory(66, 1, SECTOR);
    assert [a, b][1..] == [b] && [b][1..] == [] && [CNF_RECORD][1..] == [];
    assert ToEntry([65], 1, 0, 2) == Entry("A", 1, 0, true);
    assert Entries([a]) == [Entry("A", 1, 0, true)];
    assert Entries([b]) == [Entry("B", 1, SECTOR, true)];
    assert Entries([CNF_RECORD]) == [Entry("SYSTEM.CNF", 2, 10, false)];
    EntriesOfFirst([a, b]);
  }

  lemma TwoSizesFit()
    ensures AllFit(TwoSizes()[..1]) && AllFit(TwoSizes()[1..]) && AllFit(TwoSizes())
  {
    hide Encode;
    var records := TwoSizes()[0];
    EncodesFirst(records);
    EncodesFirst(records[1..]);
    assert records[1..][1..] == [];
    EncodesFirst(TwoSizes()[1]);
  }

  lemma PackOfTwoSizes()
    ensures AllFit(TwoSizes()) && |Pack(TwoSizes())| == 2 * SECTOR
    ensures Parse(Slice(Pack(TwoSizes()), 0, SECTOR)) == Entries(TwoSizes()[0])
    ensures Parse(Slice(Pack(TwoSizes()), SECTOR, SECTOR)) == Entries(TwoSizes()[1])
  {
    TwoSizesFit();
    hide EncodeAll, Parse, Entries, AllFit;
    var all := TwoSizes();
    var first, second := all[..1], all[1..];
    assert first[1..] == [] && second[1..] == [];
    assert Pack(all) == Pack(first) + Pack(second);
    assert Slice(Pack(all), 0, SECTOR) == Pack(first);
    assert Slice(Pack(all), SECTOR, SECTOR) == Pack(second);
    ParsingUndoesPacking(first);
    ParsingUndoesPacking(second);
    assert Flatten(first) == all[0] && Flatten(second) == all[1];
  }

  lemma TwoSizesListings()
    ensures AllFit(TwoSizes())
    ensures var image := Pack(TwoSizes());
            && Listing(image, Entry("/", 0, SECTOR, true)) == [Entry("A", 1, 0, true), Entry("B", 1, SECTOR, true)]
            && Listing(image, Entry("A", 1, 0, true)) == []
            && Listing(image, Entry("B", 1, SECTOR, true)) == [Entry("SYSTEM.CNF", 2, 10, false)]
  {
    PackOfTwoSizes();
    EntriesOfTwoSizes();
    var image := Pack(TwoSizes());
    assert Slice(image, SECTOR, 0) == [];
    hide Pack, Entries, TwoSizes, AllFit, ParseFrom;
    assert Parse([]) == [] by { NothingToParse(); }
  }

  lemma NothingToParse()
    ensures Parse([]) == []
  {
  }

  lemma Expands(image: Bytes, pending: seq<Entry>, expanded: seq<Entry>, pending': seq<Entry>, expanded': seq<Entry>)
    requires pending != [] && !Seen(expanded, pending[0].extent) && |expanded| <= VISITS
    requires FirstCnf(Listing(image, pending[0])).None?
    requires pending' == pending[1..] + Directories(Listing(image, pending[0])) && expanded' == expanded + [pending[0]]
    ensures Search(image, pending, expanded) == Search(image, pending', expanded')
  {
  }

  /** The smaller entry is met first, and the extent is not read again. */
  lemma SmallerSizeHidesCnf()
    ensures exists image, root, d ::
              Search(image, [root], []).cnf.None? && Reachable(image, root, d) && FirstCnf(Listing(image, d)).Some?
  {
    TwoSizesListings();
    hide Listing, Pack, AllFit, TwoSizes;
    var image, root := Pack(TwoSizes()), Entry("/", 0, SECTOR, true);
    var a, b := Entry("A", 1, 0, true), Entry("B", 1, SECTOR, true);
    WithinRoot(image, root);
    assert [a, b][1..] == [b] && [b][1..] == [];
    assert Directories([b]) == [b];
    assert Directories([a, b]) == [a] + Directories([b]);
    WithinNext(image, root, root, b, 0);
    assert Reachable(image, root, b);
    hide Reachable, Within;
    assert Seen([root, a], b.extent) by { assert [root, a][1].extent == b.extent; }
    assert Search(image, [b], [root, a]) == Search(image, [], [root, a]);
    assert !Seen([root], a.extent) && !Seen([], root.extent);
    Expands(image, [a, b], [root], [b], [root, a]);
    assert Listing(image, root) == [a, b] && FirstCnf([a, b]).None?;
    Expands(image, [root], [], [a, b], [root]);
  }
}
