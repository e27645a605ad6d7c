/** `executeMultipart` from the selection to the removed candidates. */
module MultipartRun {
  import opened Storage
  import opened Journal
  import opened Candidates
  import opened Repair
  import opened Multipart

  /** `x` is promoted before `y`: `ul.cfg` after everything else, the parts by `leq`. */
  predicate GoesBefore(x: string, y: string, leq: (string, string) -> bool) {
    x != UL_CFG && (y == UL_CFG || leq(x, y))
  }

  function Insert(x: string, names: seq<string>, leq: (string, string) -> bool): seq<string> {
    if names == [] || GoesBefore(x, names[0], leq) then [x] + names
    else [names[0]] + Insert(x, names[1..], leq)
  }

  /** The promotion order of the selected files. */
  function Ordered(names: seq<string>, leq: (string, string) -> bool): seq<string> {
    if names == [] then [] else Insert(names[0], Ordered(names[1..], leq), leq)
  }

  ghost predicate UlCfgLast(names: seq<string>) {
    forall i, j :: 0 <= i < j < |names| && names[i] == "ul.cfg" ==> names[j] == "ul.cfg"
  }

  lemma {:induction false} InsertKeepsNames(x: string, names: seq<string>, leq: (string, string) -> bool)
    ensures multiset(Insert(x, names, leq)) == multiset(names) + multiset{x}
  {
    if names == [] || GoesBefore(x, names[0], leq) {
    } else {
      assert names == [names[0]] + names[1..];
      InsertKeepsNames(x, names[1..], leq);
    }
  }

  lemma {:induction false} InsertKeepsOrder(x: string, names: seq<string>, leq: (string, string) -> bool)
    requires UlCfgLast(names)
    ensures UlCfgLast(Insert(x, names, leq))
  {
    if names == [] || GoesBefore(x, names[0], leq) {
    } else {
      var rest := Insert(x, names[1..], leq);
      InsertKeepsOrder(x, names[1..], leq);
      if names[0] == UL_CFG {
        InsertKeepsNames(x, names[1..], leq);
        forall j | 0 <= j < |rest| ensures rest[j] == UL_CFG {
          assert rest[j] in multiset(rest);
          assert rest[j] in names[1..] || rest[j] == x;
          if rest[j] in names[1..] {
            var k :| 0 <= k < |names[1..]| && names[1..][k] == rest[j];
            assert names[0] == UL_CFG && names[k + 1] == rest[j];
          }
        }
      }
    }
  }

  /** The order is a rearrangement of the selection with `ul.cfg` at the end,
      whatever the collation `leq` of the part names is. */
  lemma {:induction false} OrderedPutsUlCfgLast(names: seq<string>, leq: (string, string) -> bool)
    ensures UlCfgLast(Ordered(names, leq)) && multiset(Ordered(names, leq)) == multiset(names)
  {
    if names != [] {
      assert names == [names[0]] + names[1..];
      OrderedPutsUlCfgLast(names[1..], leq);
      InsertKeepsOrder(names[0], Ordered(names[1..], leq), leq);
      InsertKeepsNames(names[0], Ordered(names[1..], leq), leq);
    }
  }

  /** A collation: any two names can be compared, consistently. */
  ghost predicate Collates(leq: (string, string) -> bool) {
    && (forall x, y :: leq(x, y) || leq(y, x))
    && (forall x, y, z :: leq(x, y) && leq(y, z) ==> leq(x, z))
  }

  /** Parts before `ul.cfg`, and among themselves by the collation. */
  ghost predicate Sorted(names: seq<string>, leq: (string, string) -> bool) {
    forall i, j :: 0 <= i < j < |names| ==>
      names[j] == UL_CFG || (names[i] != UL_CFG && leq(names[i], names[j]))
  }

  lemma {:induction false} InsertSorts(x: string, names: seq<string>, leq: (string, string) -> bool)
    requires Collates(leq) && Sorted(names, leq)
    ensures Sorted(Insert(x, names, leq), leq)
  {
    var all := Insert(x, names, leq);
    if names == [] {
    } else if GoesBefore(x, names[0], leq) {
      forall i, j | 0 <= i < j < |all|
        ensures all[j] == UL_CFG || (all[i] != UL_CFG && leq(all[i], all[j]))
      {
        if i > 0 { assert all[i] == names[i - 1] && all[j] == names[j - 1]; } else { assert all[j] == names[j - 1]; }
      }
    } else {
      var rest := Insert(x, names[1..], leq);
      InsertSorts(x, names[1..], leq);
      InsertKeepsNames(x, names[1..], leq);
      forall j | 0 <= j < |rest| ensures rest[j] == UL_CFG || (names[0] != UL_CFG && leq(names[0], rest[j])) {
        assert rest[j] in multiset(rest);
        if rest[j] != x {
          assert rest[j] in names[1..];
          var k :| 0 <= k < |names[1..]| && names[1..][k] == rest[j];
          assert names[k + 1] == rest[j];
        }
      }
    }
  }

  /** The order of promotion is by the collation, `ul.cfg` last. */
  lemma {:induction false} OrderedSorts(names: seq<string>, leq: (string, string) -> bool)
    requires Collates(leq)
    ensures Sorted(Ordered(names, leq), leq)
  {
    if names != [] {
      OrderedSorts(names[1..], leq);
      InsertSorts(names[0], Ordered(names[1..], leq), leq);
    }
  }

  function Total(parts: seq<Fingerprint>, k: nat): nat
    requires k <= |parts|
  {
    if k == 0 then 0 else Total(parts, k - 1) + |parts[k - 1].contents|
  }

  lemma {:induction false} TotalGrows(parts: seq<Fingerprint>, j: nat, k: nat)
    requires j <= k <= |parts|
    ensures Total(parts, j) <= Total(parts, k)
    decreases k
  {
    if j < k { TotalGrows(parts, j, k - 1); }
  }

  /** `p` is not the candidate of one of the first `k` parts. */
  ghost predicate Spared(p: Path, parts: seq<Fingerprint>, operation: string, k: nat) {
    forall i :: 0 <= i < k && i < |parts| ==> p != Candidate(parts[i].name, operation)
  }

  /** Nothing differs outside the candidates of the first `k` parts. */
  ghost predicate SameButFirst(before: Files, after: Files, parts: seq<Fingerprint>, operation: string, k: nat) {
    forall p {:trigger Spared(p, parts, operation, k)} :: Spared(p, parts, operation, k) ==>
      (p in before <==> p in after) && (p in before ==> before[p] == after[p])
  }

  lemma SameButFirstComposes(a: Files, b: Files, d: Files, parts: seq<Fingerprint>, operation: string, k: nat)
    requires k <= |parts| && SameButFirst(a, b, parts, operation, |parts|) && SameButFirst(b, d, parts, operation, k)
    ensures SameButFirst(a, d, parts, operation, |parts|)
  {
    forall p | Spared(p, parts, operation, |parts|)
      ensures (p in a <==> p in d) && (p in a ==> a[p] == d[p])
    {
      assert Spared(p, parts, operation, k);
    }
  }

  ghost predicate AllHold(files: Files, parts: seq<Fingerprint>) {
    forall i :: 0 <= i < |parts| ==> Holds(files, File(parts[i].name), parts[i].contents)
  }

  ghost predicate CandidatesHold(files: Files, parts: seq<Fingerprint>, operation: string, k: nat) {
    forall i :: 0 <= i < k && i < |parts| ==> Holds(files, Candidate(parts[i].name, operation), parts[i].contents)
  }

  ghost predicate CandidatesGone(files: Files, parts: seq<Fingerprint>, operation: string, k: nat) {
    forall i :: 0 <= i < k && i < |parts| ==> Candidate(parts[i].name, operation) !in files
  }

  /** The file is what its fingerprint says. */
  ghost predicate Diagnosed(files: Files, fingerprints: seq<Fingerprint>, name: string) {
    var found := Find(fingerprints, name);
    found.Some? && Holds(files, File(name), found.value.contents)
  }

  ghost predicate RefusesSource(files: Files, fingerprints: seq<Fingerprint>, name: string, code: Code) {
    || (code == SourceChanged && !Diagnosed(files, fingerprints, name))
    || (code == NotFound && File(name) !in files)
  }

  /** Looks up and checks the fingerprint of every selected file. */
  method CollectSources(m: Device, fingerprints: seq<Fingerprint>, names: seq<string>) returns (r: Outcome,
                        parts: seq<Fingerprint>)
    modifies m`faults
    ensures m.faults <= old(m.faults)
    ensures |parts| <= |names| && forall i :: 0 <= i < |parts| ==>
              parts[i].name == names[i] && Find(fingerprints, names[i]) == Some(parts[i])
    ensures AllHold(m.files, parts) && (r.Ok? ==> |parts| == |names|)
    ensures r.Crashed? ==> m.crashes
    ensures r.Thrown? ==>
              || (r.code == IoError && m.faults < old(m.faults))
              || exists i :: 0 <= i < |names| && RefusesSource(m.files, fingerprints, names[i], r.code)
  {
    parts := [];
    for i := 0 to |names|
      invariant m.faults <= old(m.faults) && |parts| == i
      invariant forall k :: 0 <= k < i ==> parts[k].name == names[k] && Find(fingerprints, names[k]) == Some(parts[k])
      invariant AllHold(m.files, parts)
    {
      var expected := Find(fingerprints, names[i]);
      assert !Diagnosed(m.files, fingerprints, names[i]) ==>
          RefusesSource(m.files, fingerprints, names[i], SourceChanged);
      assert File(names[i]) !in m.files ==> RefusesSource(m.files, fingerprints, names[i], NotFound);
      if expected.None? { return Thrown(SourceChanged), parts; }
      :- m.Open(File(names[i]));
      var contents :- m.Read(File(names[i]));
      if contents != expected.value.contents { return Thrown(SourceChanged), parts; }
      parts := parts + [expected.value];
    }
    r := Ok;
  }

  /** The first `k` parts, with distinct names, have their candidates. */
  ghost predicate StagedTo(base: Files, files: Files, parts: seq<Fingerprint>, operation: string, k: nat) {
    && k <= |parts| && SameButFirst(base, files, parts, operation, k)
    && CandidatesHold(files, parts, operation, k)
    && (forall i, j :: 0 <= i < j < k ==> parts[i].name != parts[j].name)
  }

  lemma StageStep(base: Files, files: Files, after: Files, parts: seq<Fingerprint>, operation: string, k: nat)
    requires StagedTo(base, files, parts, operation, k) && k < |parts|
    requires Adds(files, after, Candidate(parts[k].name, operation))
    ensures SameButFirst(base, files, parts, operation, |parts|) && SameButFirst(base, after, parts, operation, |parts|)
    ensures Candidate(parts[k].name, operation) !in files
              && Holds(after, Candidate(parts[k].name, operation), parts[k].contents) ==>
              StagedTo(base, after, parts, operation, k + 1)
  {
    var c := Candidate(parts[k].name, operation);
    forall p | Spared(p, parts, operation, k + 1)
      ensures (p in base <==> p in after) && (p in base ==> base[p] == after[p])
    {
      assert p != c && Spared(p, parts, operation, k);
    }
    forall p | Spared(p, parts, operation, |parts|)
      ensures Spared(p, parts, operation, k + 1) && Spared(p, parts, operation, k)
    {
    }
    if c !in files {
      forall i | 0 <= i < k ensures parts[i].name != parts[k].name {
        assert Holds(files, Candidate(parts[i].name, operation), parts[i].contents);
      }
    }
  }

  /** Only candidates of the parts are other files than before. */
  ghost predicate SameIdsBut(before: Ids<Path>, after: Ids<Path>, parts: seq<Fingerprint>, operation: string) {
    forall p {:trigger Spared(p, parts, operation, |parts|)} :: Spared(p, parts, operation, |parts|) ==>
      after.Of(p) == before.Of(p)
  }

  /** What was heard of the first `k` candidates: each is contiguous. */
  ghost function Copied(parts: seq<Fingerprint>, operation: string, ids: Ids<Path>, k: nat): Answers
    requires k <= |parts|
  {
    seq(k, i requires 0 <= i < k =>
      var candidate := Candidate(parts[i].name, operation); FoundWhole(candidate, ids.Of(candidate)))
  }

  /** That was all that was heard, and these are files made since `made`. */
  ghost predicate NewCandidates(before: Answers, after: Answers, made: nat, ids: Ids<Path>, parts: seq<Fingerprint>,
                                operation: string, k: nat) {
    && k <= |parts| && after == before + Copied(parts, operation, ids, k)
    && forall i :: 0 <= i < k ==> made <= ids.Of(Candidate(parts[i].name, operation))
  }

  /** And after it that the work is still wanted. */
  ghost predicate StagedCandidates(before: Answers, after: Answers, made: nat, ids: Ids<Path>,
                                   parts: seq<Fingerprint>, operation: string) {
    && after == before + Copied(parts, operation, ids, |parts|) + [Wanted()]
    && forall i :: 0 <= i < |parts| ==> made <= ids.Of(Candidate(parts[i].name, operation))
  }

  /** Why there are no candidates. */
  ghost predicate StagingRefusal(before: Answers, after: Answers, free: int, parts: seq<Fingerprint>,
                                 operation: string, code: Code) {
    match code
    case NoSpaceOnDevice => free < Total(parts, |parts|)
    case AlreadyExists => !DistinctNames(parts)
    case StillFragmented =>
      exists i :: 0 <= i < |parts| && RefusesCandidate(before, after, parts[i], operation)
    case _ => false
  }

  ghost predicate RefusesCandidate(before: Answers, after: Answers, part: Fingerprint, operation: string) {
    Heard(before, after, Some(Contiguous(Candidate(part.name, operation))))
  }

  lemma NoCandidateYet(answers: Answers, ids: Ids<Path>, parts: seq<Fingerprint>, operation: string)
    ensures Heard(answers, answers, None) && SameIdsBut(ids, ids, parts, operation)
    ensures NewCandidates(answers, answers, ids.made, ids, parts, operation, 0)
  {
  }

  lemma OneMoreCandidate(first: Answers, before: Answers, after: Answers, start: Ids<Path>, was: Ids<Path>,
                         ids: Ids<Path>, parts: seq<Fingerprint>, operation: string, k: nat, r: Outcome)
    requires k < |parts| && Heard(first, before, None) && SameIdsBut(start, was, parts, operation)
    requires start.made <= was.made
    requires NewCandidates(first, before, start.made, was, parts, operation, k)
    requires ids == was || ids == was.Added(Candidate(parts[k].name, operation))
    requires Recorded(before, after, Candidate(parts[k].name, operation), was.made, r)
    ensures first <= after && SameIdsBut(start, ids, parts, operation)
    ensures start.made <= ids.made
    ensures r.Ok? && ids == was.Added(Candidate(parts[k].name, operation))
              && after == before + [Answer(Contiguous(Candidate(parts[k].name, operation)), was.made, true)] ==>
              && Heard(first, after, None)
              && ((forall i :: 0 <= i < k ==> parts[i].name != parts[k].name) ==>
                    NewCandidates(first, after, start.made, ids, parts, operation, k + 1))
  {
    var c := Candidate(parts[k].name, operation);
    HeardExtends(first, before, None);
    RecordedExtends(before, after, c, was.made, r);
    forall p | Spared(p, parts, operation, |parts|) ensures ids.Of(p) == start.Of(p) { assert p != c; }
    if r.Ok? && ids == was.Added(c) && after == before + [Answer(Contiguous(c), was.made, true)] {
      assert Heard(before, after, None);
      HeardBoth(first, before, after, None);
      if forall i :: 0 <= i < k ==> parts[i].name != parts[k].name {
        assert Copied(parts, operation, ids, k + 1) == Copied(parts, operation, was, k) + [FoundWhole(c, was.made)];
        assert forall i :: 0 <= i < k + 1 ==> start.made <= ids.Of(Candidate(parts[i].name, operation));
      }
    }
  }

  lemma CandidateRefused(first: Answers, before: Answers, after: Answers, base: Files, files: Files, start: int,
                         free: int, parts: seq<Fingerprint>, operation: string, k: nat, file: nat, code: Code)
    requires k < |parts| && Heard(first, before, None) && CandidatesGone(base, parts, operation, |parts|)
    requires StagedTo(base, files, parts, operation, k) && AllHold(base, parts)
    requires free == start - Total(parts, k) && Total(parts, k + 1) <= Total(parts, |parts|)
    requires Recorded(before, after, Candidate(parts[k].name, operation), file, Thrown(code))
    requires Explains(files, free, File(parts[k].name), Candidate(parts[k].name, operation), parts[k], USBExtreme, code)
    ensures StagingRefusal(first, after, start, parts, operation, code)
  {
    var c := Candidate(parts[k].name, operation);
    assert Spared(File(parts[k].name), parts, operation, k);
    assert Holds(base, File(parts[k].name), parts[k].contents);
    if code == StillFragmented {
      HeardBoth(first, before, after, Some(Contiguous(c)));
      assert RefusesCandidate(first, after, parts[k], operation);
    }
    assert c !in base;
    assert code == AlreadyExists ==> !Spared(c, parts, operation, k);
  }

  /** The first `k` candidates are made and verified, nothing else has happened. */
  ghost predicate MadeSoFar(base: Files, files: Files, first: Answers, now: Answers, start: Ids<Path>, ids: Ids<Path>,
                            parts: seq<Fingerprint>, operation: string, k: nat) {
    && StagedTo(base, files, parts, operation, k) && Heard(first, now, None)
    && SameIdsBut(start, ids, parts, operation) && start.made <= ids.made
    && NewCandidates(first, now, start.made, ids, parts, operation, k)
  }

  /** One more candidate; `pushed` when it is on the list. */
  method CreateNext(m: Device, parts: seq<Fingerprint>, operation: string, k: nat, ghost base: Files,
                    ghost first: Answers, ghost start: Ids<Path>, ghost room: int)
    returns (r: Outcome, pushed: bool)
    requires k < |parts| && AllHold(base, parts) && CandidatesGone(base, parts, operation, |parts|)
    requires MadeSoFar(base, m.files, first, m.answers, start, m.ids, parts, operation, k)
    requires m.free == room - Total(parts, k)
    modifies m`faults, m`files, m`ids, m`free, m`lowest, m`answers
    ensures m.faults <= old(m.faults) && (r.Crashed? ==> m.crashes) && m.Space() == old(m.Space())
    ensures SameButFirst(base, m.files, parts, operation, |parts|)
    ensures first <= m.answers && SameIdsBut(start, m.ids, parts, operation)
    ensures r.Ok? ==>
              && pushed && MadeSoFar(base, m.files, first, m.answers, start, m.ids, parts, operation, k + 1)
              && m.free == room - Total(parts, k + 1)
    ensures r.Thrown? ==>
              || (r.code == IoError && m.faults < old(m.faults))
              || StagingRefusal(first, m.answers, room, parts, operation, r.code)
    ensures old(m.Quiet()) && r.Thrown? ==> !pushed && SameButFirst(base, m.files, parts, operation, k)
    ensures m.lowest >= var least := room - Total(parts, k + 1); if least < old(m.lowest) then least else old(m.lowest)
  {
    hide Extends;
    hide Heard, SameIdsBut, NewCandidates, StagingRefusal, Explains, Recorded, CandidatesGone, SameButFirst;
    hide CandidatesHold, AllHold;
    var part := parts[k];
    ghost var asked, ids, before := m.answers, m.ids, m.files;
    SourceStays(base, before, parts, operation, k);
    TotalGrows(parts, k + 1, |parts|);
    r := CreateCandidate(m, part.name, operation, part, USBExtreme);
    StageStep(base, before, m.files, parts, operation, k);
    OneMoreCandidate(first, asked, m.answers, start, ids, m.ids, parts, operation, k, r);
    if r.Thrown? && Explains(before, room - Total(parts, k), File(part.name), Candidate(part.name, operation), part,
                             USBExtreme, r.code) {
      CandidateRefused(first, asked, m.answers, base, before, room, room - Total(parts, k), parts, operation, k,
                       ids.made, r.code);
    }
    pushed := r.Ok?;
    if pushed { r := m.Next(); }
  }

  lemma SourceStays(base: Files, files: Files, parts: seq<Fingerprint>, operation: string, k: nat)
    requires k < |parts| && AllHold(base, parts) && StagedTo(base, files, parts, operation, k)
    ensures Holds(files, File(parts[k].name), parts[k].contents)
  {
    assert Holds(base, File(parts[k].name), parts[k].contents);
    assert Spared(File(parts[k].name), parts, operation, k);
  }

  /** Creates the candidates in order; `made` of them exist. */
  method CreateAll(m: Device, parts: seq<Fingerprint>, operation: string) returns (r: Outcome, made: nat)
    requires AllHold(m.files, parts) && CandidatesGone(m.files, parts, operation, |parts|)
    modifies m`faults, m`files, m`ids, m`free, m`lowest, m`answers
    ensures m.faults <= old(m.faults)
    ensures made <= |parts| && SameButFirst(old(m.files), m.files, parts, operation, |parts|)
    ensures r.Ok? ==> made == |parts| && DistinctNames(parts) && CandidatesHold(m.files, parts, operation, |parts|)
    ensures old(m.Quiet()) ==> SameButFirst(old(m.files), m.files, parts, operation, made)
    // every candidate is a new file that was found contiguous, and a refusal has its reason
    ensures Extends(old(m.answers), m.answers) && SameIdsBut(old(m.ids), m.ids, parts, operation)
    ensures r.Ok? ==>
              && Heard(old(m.answers), m.answers, None)
              && NewCandidates(old(m.answers), m.answers, old(m.ids).made, m.ids, parts, operation, |parts|)
    ensures r.Thrown? ==>
              || (r.code == IoError && m.faults < old(m.faults))
              || StagingRefusal(old(m.answers), m.answers, old(m.free), parts, operation, r.code)
    ensures m.Space() == old(m.Space())
    ensures m.lowest >=
              var least := old(m.free) - Total(parts, |parts|); if least < old(m.lowest) then least else old(m.lowest)
    ensures r.Crashed? ==> m.crashes
  {
    made := 0;
    NoCandidateYet(m.answers, m.ids, parts, operation);
    ghost var base, first, start, room := m.files, m.answers, m.ids, m.free;
    NothingStaged(base, first, start, parts, operation);
    assert Total(parts, 0) == 0;
    hide *;
    TotalGrows(parts, 0, |parts|);
    r := Ok;
    while made < |parts|
      invariant made <= |parts| && m.faults <= old(m.faults) && m.Space() == old(m.Space()) && r.Ok?
      invariant MadeSoFar(base, m.files, first, m.answers, start, m.ids, parts, operation, made)
      invariant m.free == room - Total(parts, made)
      invariant m.lowest >= if m.free < old(m.lowest) then m.free else old(m.lowest)
    {
      TotalGrows(parts, made + 1, |parts|);
      var pushed;
      r, pushed := CreateNext(m, parts, operation, made, base, first, start, room);
      if pushed { made := made + 1; }
      if !r.Ok? { return; }
    }
    StagingMeans(base, m.files, first, m.answers, start, m.ids, parts, operation, made);
  }

  lemma NothingStaged(base: Files, first: Answers, start: Ids<Path>, parts: seq<Fingerprint>, operation: string)
    ensures MadeSoFar(base, base, first, first, start, start, parts, operation, 0)
  {
  }

  lemma StagingMeans(base: Files, files: Files, first: Answers, now: Answers, start: Ids<Path>, ids: Ids<Path>,
                     parts: seq<Fingerprint>, operation: string, k: nat)
    requires MadeSoFar(base, files, first, now, start, ids, parts, operation, k)
    ensures SameButFirst(base, files, parts, operation, |parts|) && SameButFirst(base, files, parts, operation, k)
    ensures first <= now && SameIdsBut(start, ids, parts, operation) && Heard(first, now, None)
    ensures k == |parts| ==>
              && DistinctNames(parts) && CandidatesHold(files, parts, operation, |parts|)
              && NewCandidates(first, now, start.made, ids, parts, operation, |parts|)
  {
    HeardExtends(first, now, None);
    SameButMore(base, files, parts, operation, k);
    hide Heard;
  }

  lemma SameButMore(base: Files, files: Files, parts: seq<Fingerprint>, operation: string, k: nat)
    requires SameButFirst(base, files, parts, operation, k) && k <= |parts|
    ensures SameButFirst(base, files, parts, operation, |parts|)
  {
    forall p | Spared(p, parts, operation, |parts|)
      ensures (p in base <==> p in files) && (p in base ==> base[p] == files[p])
    {
      assert Spared(p, parts, operation, k);
    }
  }

  /** Removes the first `count` candidates; a failure does not stop the others. */
  method DropFirst(m: Device, parts: seq<Fingerprint>, operation: string, count: nat) returns (r: Outcome)
    requires count <= |parts|
    modifies m`faults, m`files, m`free
    ensures m.faults <= old(m.faults)
    ensures SameButFirst(old(m.files), m.files, parts, operation, count)
    ensures r.Ok? ==> CandidatesGone(m.files, parts, operation, count)
    ensures r.Thrown? ==> r.code == IoError && m.faults < old(m.faults)
    ensures m.Space() == old(m.Space())
    ensures r.Crashed? ==> m.crashes
    ensures old(m.faults) == 0 ==> !r.Thrown?
  {
    r := Ok;
    for i := 0 to count
      invariant m.faults <= old(m.faults) && m.Space() == old(m.Space()) && !r.Crashed?
      invariant SameButFirst(old(m.files), m.files, parts, operation, count)
      invariant r.Ok? ==> CandidatesGone(m.files, parts, operation, i)
      invariant old(m.faults) == 0 ==> r.Ok?
      invariant r.Thrown? ==> r.code == IoError && m.faults < old(m.faults)
    {
      var removed := m.Remove(Candidate(parts[i].name, operation));
      if removed.Crashed? { return Crashed; }
      if removed.Thrown? { r := removed; }
    }
  }

  /** Two devices that agree outside the candidates carry the same verdicts. */
  lemma CandidatesDoNotMatter(before: Files, after: Files, parts: seq<Fingerprint>, operation: string, k: nat,
                              state: State, orphan: Option<nat>)
    requires SameButFirst(before, after, parts, operation, k)
    ensures SoundSet(before, state, parts, operation, orphan) ==> SoundSet(after, state, parts, operation, orphan)
    ensures AllAtHome(before, parts, operation) ==> AllAtHome(after, parts, operation)
    ensures SameOthers(before, after, parts, operation)
  {
    forall p | !Own(p, parts, operation) ensures Spared(p, parts, operation, k) {
    }
    forall i | 0 <= i < |parts|
      ensures KeptPart(before, parts[i], operation) <==> KeptPart(after, parts[i], operation)
      ensures InPlace(before, parts[i], operation) <==> InPlace(after, parts[i], operation)
      ensures AtHome(before, parts[i], operation) <==> AtHome(after, parts[i], operation)
      ensures SetAsidePart(before, parts[i], operation) <==> SetAsidePart(after, parts[i], operation)
    {
      assert Spared(File(parts[i].name), parts, operation, k)
        && Spared(Backup(parts[i].name, operation), parts, operation, k);
    }
  }

  /** All parts home and no candidate left: the device is what it was. */
  lemma NothingChanged(before: Files, after: Files, parts: seq<Fingerprint>, operation: string)
    requires SameOthers(before, after, parts, operation)
    requires AllAtHome(before, parts, operation) && AllAtHome(after, parts, operation)
    requires CandidatesGone(before, parts, operation, |parts|) && CandidatesGone(after, parts, operation, |parts|)
    ensures after == before
  {
    forall p ensures (p in before <==> p in after) && (p in before ==> before[p] == after[p]) {
      if Own(p, parts, operation) {
        var n := match p case File(n) => n case Backup(n, _) => n case Candidate(n, _) => n;
        var i :| 0 <= i < |parts| && parts[i].name == n;
        assert AtHome(before, parts[i], operation) && AtHome(after, parts[i], operation);
      }
    }
  }

  lemma StoppedIsSoundSet(files: Files, parts: seq<Fingerprint>, operation: string, promoted: nat, orphan: Option<nat>)
    requires Stopped(files, parts, operation, promoted, orphan)
    ensures SoundSet(files, Promoting, parts, operation, orphan)
    ensures SoundSet(files, ActiveValidating, parts, operation, orphan)
  {
    StoppedIsSound(files, parts, operation, promoted, orphan);
    hide AllKept, PrefixMoved;
  }

  lemma HalfwayInPlace(files: Files, parts: seq<Fingerprint>, operation: string)
    requires Halfway(files, parts, operation, |parts|)
    ensures AllInPlace(files, parts)
    ensures SoundSet(files, Committed, parts, operation, None)
    ensures SoundSet(files, CleanupPending, parts, operation, None)
  {
    forall i | 0 <= i < |parts| ensures KeptPart(files, parts[i], operation) {
      assert InPlace(files, parts[i], operation);
    }
    forall i | 0 <= i < |parts| ensures Holds(files, File(parts[i].name), parts[i].contents) {
      assert InPlace(files, parts[i], operation);
    }
  }

  /** Promotion, validation, commit and cleanup: what the handler has to cope with. */
  method ReplaceAll(m: Device, id: JournalId, parts: seq<Fingerprint>, operation: string, entry: Entry)
    returns (r: Outcome, journal: Entry, promoted: nat, ghost orphan: Option<nat>)
    requires id in m.journals && m.journals[id] == entry && entry.state == Promoting
    requires DistinctNames(parts) && Halfway(m.files, parts, operation, 0)
    modifies m`faults, m`files, m`ids, m`free, m`journals, m`answers
    ensures m.faults <= old(m.faults)
    ensures SameOthers(old(m.files), m.files, parts, operation)
    ensures OnlyEntry(old(m.journals), m.journals, id) && SameSet(entry, m.journals[id], parts, operation)
    ensures SoundSet(m.files, m.journals[id].state, parts, operation, orphan)
    ensures orphan.Some? ==> m.journals[id].backups == entry.backups
    ensures m.journals[id].state in {Promoting, ActiveValidating, Committed, CleanupPending, CleanupComplete}
    ensures r.Ok? <==> m.journals[id].state == CleanupComplete
    ensures r.Thrown? ==> journal == m.journals[id]
    ensures !PastCommit(m.journals[id].state) ==> Stopped(m.files, parts, operation, promoted, orphan)
    ensures m.Space() == old(m.Space())
    ensures r.Crashed? ==> m.crashes
    // past the commit every part is its candidate, seen contiguous in its place; before it the
    // original files are kept, and a refusal is on record
    ensures Extends(old(m.answers), m.answers) && SameOtherIds(old(m.ids), m.ids, parts, operation)
    ensures PastCommit(m.journals[id].state) ==>
              && Heard(old(m.answers), m.answers, None)
              && PartsChecked(old(m.answers), m.answers, parts, m.ids)
              && Exchanged(m.ids, parts, operation, old(m.ids), |parts|)
    ensures !PastCommit(m.journals[id].state) ==> Originals(m.files, m.ids, parts, operation, old(m.ids))
    ensures r.Thrown? ==>
              || (r.code in {IoError, InvalidJournalTransition} && m.faults < old(m.faults))
              || SetRefusal(old(m.answers), m.answers, parts, r.code)
    ensures r.Thrown? && PastCommit(m.journals[id].state) ==> m.faults < old(m.faults)
    ensures old(m.faults) == 0 && r.Thrown? ==> journal.state == ActiveValidating && orphan == None
  {
    hide Heard, PartsChecked, Exchanged, Originals, SetRefusal, SameOtherIds, AllInPlace, Stopped, Halfway, SoundSet;
    hide SameOthers, OnlyEntry;
    ghost var start := m.journals;
    OneWrite(start, id, entry);
    journal := entry;
    r, promoted, orphan := PromoteAll(m, parts, operation);
    StoppedIsSoundSet(m.files, parts, operation, promoted, orphan);
    if !r.Ok? { return; }
    ghost var files := m.files;
    HalfwayInPlace(m.files, parts, operation);
    r, journal := ValidateAll(m, id, parts, operation, entry);
    HasEntry(start, m.journals, id);
    if !r.Ok? { return; }
    ghost var validated := m.journals;
    r := CleanUpAll(m, id, parts, operation, journal);
    HasEntry(validated, m.journals, id);
    OnlyEntryBoth(start, validated, m.journals, id);
    SameOthersBoth(old(m.files), files, m.files, parts, operation);
    journal := m.journals[id];
  }

  /** The guarded block of `executeMultipart` with its handler. */
  method CommitSet(m: Device, id: JournalId, parts: seq<Fingerprint>, operation: string, entry: Entry)
    returns (r: Outcome, ghost orphan: Option<nat>)
    requires id in m.journals && m.journals[id] == entry && entry.state == Promoting
    requires DistinctNames(parts) && Halfway(m.files, parts, operation, 0)
    modifies m`faults, m`files, m`ids, m`free, m`journals, m`answers
    ensures m.faults <= old(m.faults)
    ensures SameOthers(old(m.files), m.files, parts, operation)
    ensures OnlyEntry(old(m.journals), m.journals, id) && SameSet(entry, m.journals[id], parts, operation)
    ensures SoundSet(m.files, m.journals[id].state, parts, operation, orphan) && !BeforePromotion(m.journals[id].state)
    ensures orphan.Some? ==> m.journals[id].backups == entry.backups
    ensures r.Ok? ==> m.journals[id].state == CleanupComplete
    ensures m.Space() == old(m.Space())
    ensures r.Crashed? ==> m.crashes
    ensures old(m.faults) == 0 ==> m.journals[id].state != RecoveryPending
    // past the commit every part is its candidate, seen contiguous in its place; before it the
    // original files are kept, and a refusal is on record
    ensures Extends(old(m.answers), m.answers) && SameOtherIds(old(m.ids), m.ids, parts, operation)
    ensures PastCommit(m.journals[id].state) ==>
              && Heard(old(m.answers), m.answers, None)
              && PartsChecked(old(m.answers), m.answers, parts, m.ids)
              && Exchanged(m.ids, parts, operation, old(m.ids), |parts|)
    ensures !PastCommit(m.journals[id].state) ==> Originals(m.files, m.ids, parts, operation, old(m.ids))
    ensures r.Thrown? ==>
              || (r.code in {IoError, InvalidJournalTransition} && m.faults < old(m.faults))
              || SetRefusal(old(m.answers), m.answers, parts, r.code)
    ensures old(m.faults) == 0 && r.Thrown? ==> m.journals[id].state == Restored && orphan == None
  {
    hide Extends;
    hide Heard, PartsChecked, Exchanged, Originals, SetRefusal, SameOtherIds;
    var journal, promoted;
    r, journal, promoted, orphan := ReplaceAll(m, id, parts, operation, entry);
    if r.Thrown? {
      ghost var ids := m.ids;
      r := RollBackAll(m, id, parts, operation, promoted, orphan, old(m.ids), r.code, journal);
      SameOtherIdsBoth(old(m.ids), ids, m.ids, parts, operation);
    }
  }

  /** All candidates, or (when that fails and nothing else does) none. */
  method CreateAllOrNone(m: Device, parts: seq<Fingerprint>, operation: string) returns (r: Outcome, dropped: bool)
    requires AllHold(m.files, parts) && CandidatesGone(m.files, parts, operation, |parts|)
    modifies m`faults, m`files, m`ids, m`free, m`lowest, m`answers
    ensures m.faults <= old(m.faults)
    ensures SameButFirst(old(m.files), m.files, parts, operation, |parts|)
    ensures r.Ok? ==> DistinctNames(parts) && CandidatesHold(m.files, parts, operation, |parts|)
    ensures r.Thrown? && old(m.Quiet()) ==> dropped && CandidatesGone(m.files, parts, operation, |parts|)
    ensures Extends(old(m.answers), m.answers) && SameIdsBut(old(m.ids), m.ids, parts, operation)
    ensures r.Ok? ==>
              && Heard(old(m.answers), m.answers, None)
              && NewCandidates(old(m.answers), m.answers, old(m.ids).made, m.ids, parts, operation, |parts|)
    ensures r.Thrown? ==>
              || (r.code == IoError && m.faults < old(m.faults))
              || StagingRefusal(old(m.answers), m.answers, old(m.free), parts, operation, r.code)
    ensures m.Space() == old(m.Space())
    ensures m.lowest >=
              var least := old(m.free) - Total(parts, |parts|); if least < old(m.lowest) then least else old(m.lowest)
    ensures r.Crashed? ==> m.crashes
  {
    hide Heard, SameIdsBut, NewCandidates, StagingRefusal;
    var made;
    dropped := false;
    r, made := CreateAll(m, parts, operation);
    ghost var staged := m.files;
    if r.Thrown? {
      var gone := DropFirst(m, parts, operation, made);
      SameButFirstComposes(old(m.files), staged, m.files, parts, operation, made);
      if !gone.Ok? { return gone, false; }
      dropped := true;
      if old(m.Quiet()) {
        StillGone(old(m.files), staged, m.files, parts, operation, made);
      }
    }
  }

  lemma StillGone(base: Files, staged: Files, after: Files, parts: seq<Fingerprint>, operation: string, made: nat)
    requires made <= |parts| && CandidatesGone(base, parts, operation, |parts|)
    requires SameButFirst(base, staged, parts, operation, made) && SameButFirst(staged, after, parts, operation, made)
    requires CandidatesGone(after, parts, operation, made)
    ensures CandidatesGone(after, parts, operation, |parts|)
  {
    forall i | 0 <= i < |parts| ensures Candidate(parts[i].name, operation) !in after {
      var c := Candidate(parts[i].name, operation);
      if Spared(c, parts, operation, made) {
        assert c !in base;
      }
    }
  }

  /** The two transitions before a set is staged. */
  method EnterStaging(m: Device, id: JournalId, entry: Entry) returns (r: Outcome, journal: Entry)
    requires id in m.journals && m.journals[id] == entry && entry.state == Planned
    modifies m`faults, m`journals
    ensures m.faults <= old(m.faults) && (r.Crashed? ==> m.crashes) && (old(m.faults) == 0 ==> !r.Thrown?)
    ensures r.Thrown? ==> r.code == IoError && m.faults < old(m.faults)
    ensures OnlyEntry(old(m.journals), m.journals, id)
    ensures m.journals[id] == entry.(revision := m.journals[id].revision, state := m.journals[id].state)
    ensures m.journals[id].state in {Planned, PreflightValidated, Staging}
    ensures r.Ok? ==> journal == m.journals[id] && journal.state == Staging
  {
    journal :- Transition(m, id, entry.revision, PreflightValidated, NoPatch);
    journal :- Transition(m, id, journal.revision, Staging, NoPatch);
    r := Ok;
  }

  lemma SameIdsButSelf(ids: Ids<Path>, parts: seq<Fingerprint>, operation: string)
    ensures SameIdsBut(ids, ids, parts, operation)
  {
  }

  /** The candidates, and the question after them. */
  lemma CandidatesLater(a: Answers, b: Answers, c: Answers, made: nat, ids: Ids<Path>, parts: seq<Fingerprint>,
                        operation: string, refused: Option<Question<Path>>)
    requires Heard(a, b, None) && Extends(b, c) && NewCandidates(a, b, made, ids, parts, operation, |parts|)
    ensures c == b + [Wanted()] ==> StagedCandidates(a, c, made, ids, parts, operation)
    ensures Extends(a, c) && (Heard(b, c, refused) ==> Heard(a, c, refused))
  {
    HeardExtends(a, b, None);
    if Heard(b, c, refused) { HeardBoth(a, b, c, refused); }
  }

  /** Candidates for a set that is being staged, and their record; or `AbortedUnchanged`. */
  method StageEntered(m: Device, id: JournalId, parts: seq<Fingerprint>, operation: string, entry: Entry)
    returns (r: Outcome, journal: Entry, proceed: bool)
    requires id in m.journals && m.journals[id] == entry && entry.state == Staging
    requires AllHold(m.files, parts) && CandidatesGone(m.files, parts, operation, |parts|)
    modifies m`faults, m`files, m`ids, m`free, m`lowest, m`journals, m`answers
    ensures m.faults <= old(m.faults)
    ensures OnlyEntry(old(m.journals), m.journals, id)
    ensures var now := m.journals[id];
            now == entry.(revision := now.revision, state := now.state, candidates := now.candidates)
    ensures Early(m.journals[id].state)
    ensures OnlyCandidates(entry.candidates) ==> OnlyCandidates(m.journals[id].candidates)
    ensures SameButFirst(old(m.files), m.files, parts, operation, |parts|)
    ensures r.Ok? ==>
              journal == m.journals[id] && journal.state == if proceed then CandidateVerified else AbortedUnchanged
    ensures r.Ok? && proceed ==> DistinctNames(parts) && CandidatesHold(m.files, parts, operation, |parts|)
    ensures (r.Ok? && !proceed) || (r.Thrown? && old(m.Quiet())) ==>
              m.journals[id].state == AbortedUnchanged && CandidatesGone(m.files, parts, operation, |parts|)
    ensures Extends(old(m.answers), m.answers) && SameIdsBut(old(m.ids), m.ids, parts, operation)
    ensures r.Ok? ==> Heard(old(m.answers), m.answers, if proceed then None else Some(NotCancelled))
    ensures r.Ok? && proceed ==>
              StagedCandidates(old(m.answers), m.answers, old(m.ids).made, m.ids, parts, operation)
    ensures r.Thrown? ==>
              || (r.code == IoError && m.faults < old(m.faults))
              || StagingRefusal(old(m.answers), m.answers, old(m.free), parts, operation, r.code)
    ensures m.Space() == old(m.Space())
    ensures m.lowest >=
              var least := old(m.free) - Total(parts, |parts|); if least < old(m.lowest) then least else old(m.lowest)
    ensures r.Crashed? ==> m.crashes
  {
    hide Extends, OnlyEntry;
    hide Heard, SameIdsBut, NewCandidates, StagedCandidates, StagingRefusal, SameButFirst, CandidatesGone;
    hide CandidatesHold;
    hide OnlyCandidates, AllHold, Total, DistinctNames;
    journal, proceed := entry, false;
    ghost var start, journals := m.answers, m.journals;
    OneWrite(journals, id, entry);
    var dropped;
    r, dropped := CreateAllOrNone(m, parts, operation);
    ghost var files, made := m.files, m.answers;
    if r.Ok? {
      r, journal, proceed := FinishSet(m, id, parts, operation, entry);
      CandidatesLater(start, made, m.answers, old(m.ids).made, m.ids, parts, operation,
                      if proceed then None else Some(NotCancelled));
      SameButFirstComposes(old(m.files), files, m.files, parts, operation, |parts|);
    } else if r.Thrown? && dropped {
      var recorded, aborted := Transition(m, id, entry.revision, AbortedUnchanged, NoPatch);
      OneWrite(journals, id, aborted);
      if !recorded.Ok? { r := recorded; }
    }
    HasEntry(journals, m.journals, id);
  }

  /** From the planned journal to the verified candidates, or to `AbortedUnchanged`. */
  method StageSet(m: Device, id: JournalId, parts: seq<Fingerprint>, operation: string, entry: Entry)
    returns (r: Outcome, journal: Entry, proceed: bool)
    requires id in m.journals && m.journals[id] == entry && entry.state == Planned
    requires AllHold(m.files, parts) && CandidatesGone(m.files, parts, operation, |parts|)
    modifies m`faults, m`files, m`ids, m`free, m`lowest, m`journals, m`answers
    ensures m.faults <= old(m.faults)
    ensures OnlyEntry(old(m.journals), m.journals, id)
    ensures var now := m.journals[id];
            now == entry.(revision := now.revision, state := now.state, candidates := now.candidates)
    ensures Early(m.journals[id].state)
    ensures OnlyCandidates(entry.candidates) ==> OnlyCandidates(m.journals[id].candidates)
    ensures SameButFirst(old(m.files), m.files, parts, operation, |parts|)
    ensures r.Ok? ==>
              journal == m.journals[id] && journal.state == if proceed then CandidateVerified else AbortedUnchanged
    ensures r.Ok? && proceed ==> DistinctNames(parts) && CandidatesHold(m.files, parts, operation, |parts|)
    ensures (r.Ok? && !proceed) || (r.Thrown? && old(m.Quiet())) ==>
              m.journals[id].state == AbortedUnchanged && CandidatesGone(m.files, parts, operation, |parts|)
    ensures Extends(old(m.answers), m.answers) && SameIdsBut(old(m.ids), m.ids, parts, operation)
    ensures r.Ok? ==> Heard(old(m.answers), m.answers, if proceed then None else Some(NotCancelled))
    ensures r.Ok? && proceed ==>
              StagedCandidates(old(m.answers), m.answers, old(m.ids).made, m.ids, parts, operation)
    ensures r.Thrown? ==>
              || (r.code == IoError && m.faults < old(m.faults))
              || StagingRefusal(old(m.answers), m.answers, old(m.free), parts, operation, r.code)
    ensures m.Space() == old(m.Space())
    ensures m.lowest >=
              var least := old(m.free) - Total(parts, |parts|); if least < old(m.lowest) then least else old(m.lowest)
    ensures r.Crashed? ==> m.crashes
  {
    SameIdsButSelf(m.ids, parts, operation);
    SameButSelf(m.files, parts, operation);
    hide Extends, OnlyEntry;
    hide Heard, SameIdsBut, NewCandidates, StagedCandidates, StagingRefusal, SameButFirst, CandidatesGone;
    hide CandidatesHold;
    hide OnlyCandidates, AllHold, DistinctNames;
    TotalGrows(parts, 0, |parts|);
    proceed := false;
    ghost var journals := m.journals;
    r, journal := EnterStaging(m, id, entry);
    HasEntry(journals, m.journals, id);
    if !r.Ok? { return; }
    ghost var entered := m.journals;
    r, journal, proceed := StageEntered(m, id, parts, operation, journal);
    HasEntry(entered, m.journals, id);
    OnlyEntryBoth(journals, entered, m.journals, id);
  }

  lemma SameButSelf(files: Files, parts: seq<Fingerprint>, operation: string)
    ensures SameButFirst(files, files, parts, operation, |parts|)
  {
  }

  /** Drops verified candidates. */
  method WithdrawSet(m: Device, id: JournalId, parts: seq<Fingerprint>, operation: string, entry: Entry)
    returns (r: Outcome, journal: Entry)
    requires id in m.journals && m.journals[id] == entry && entry.state == CandidateVerified
    modifies m`faults, m`files, m`free, m`journals
    ensures m.faults <= old(m.faults) && (r.Crashed? ==> m.crashes) && m.Space() == old(m.Space())
    ensures r.Thrown? ==> r.code == IoError && m.faults < old(m.faults)
    ensures OnlyEntry(old(m.journals), m.journals, id)
    ensures m.journals[id] == entry.(revision := m.journals[id].revision, state := m.journals[id].state)
    ensures m.journals[id].state in {CandidateVerified, AbortedUnchanged}
    ensures SameButFirst(old(m.files), m.files, parts, operation, |parts|)
    ensures r.Ok? ==> journal == m.journals[id] && journal.state == AbortedUnchanged
    ensures r.Ok? ==> CandidatesGone(m.files, parts, operation, |parts|)
  {
    hide SameButFirst, CandidatesGone, OnlyEntry;
    journal := entry;
    OneWrite(m.journals, id, entry);
    ghost var journals := m.journals;
    r := DropFirst(m, parts, operation, |parts|);
    if !r.Ok? { return; }
    r, journal := Transition(m, id, entry.revision, AbortedUnchanged, NoPatch);
    OneWrite(journals, id, journal);
  }

  /** Records the verified candidates, or drops them when the caller cancelled. */
  method FinishSet(m: Device, id: JournalId, parts: seq<Fingerprint>, operation: string, entry: Entry)
    returns (r: Outcome, journal: Entry, proceed: bool)
    requires id in m.journals && m.journals[id] == entry && entry.state == Staging
    modifies m`faults, m`files, m`free, m`journals, m`answers
    ensures m.faults <= old(m.faults)
    ensures OnlyEntry(old(m.journals), m.journals, id)
    ensures var now := m.journals[id];
            now == entry.(revision := now.revision, state := now.state, candidates := now.candidates)
    ensures m.journals[id].state in {Staging, CandidateVerified, AbortedUnchanged}
    ensures OnlyCandidates(entry.candidates) ==> OnlyCandidates(m.journals[id].candidates)
    ensures SameButFirst(old(m.files), m.files, parts, operation, |parts|)
    ensures r.Ok? ==>
              journal == m.journals[id] && journal.state == if proceed then CandidateVerified else AbortedUnchanged
    ensures r.Ok? && proceed ==> m.files == old(m.files)
    ensures r.Ok? && !proceed ==> CandidatesGone(m.files, parts, operation, |parts|)
    ensures Extends(old(m.answers), m.answers)
    ensures r.Ok? ==> Heard(old(m.answers), m.answers, if proceed then None else Some(NotCancelled))
    ensures r.Ok? && proceed ==> m.answers == old(m.answers) + [Wanted()]
    ensures r.Thrown? ==> r.code == IoError && m.faults < old(m.faults)
    ensures m.Space() == old(m.Space())
    ensures r.Crashed? ==> m.crashes
    ensures old(m.faults) == 0 ==> !r.Thrown?
  {
    proceed := false;
    var candidates := seq(|parts|, i requires 0 <= i < |parts| => Candidate(parts[i].name, operation));
    assert OnlyCandidates(candidates);
    SameButSelf(m.files, parts, operation);
    HeardExtends(m.answers, m.answers, None);
    hide Extends, Heard, SameButFirst, CandidatesGone, OnlyCandidates, OnlyEntry, Wanted;
    ghost var journals := m.journals;
    OneWrite(journals, id, entry);
    r, journal := Transition(m, id, entry.revision, CandidateVerified, SetCandidates(candidates));
    if !r.Ok? { return; }
    ghost var verified := m.journals;
    OneWrite(journals, id, journal);
    var wanted := m.Ask(NotCancelled);
    HeardWanted(old(m.answers), m.answers, wanted);
    if !wanted {
      r, journal := WithdrawSet(m, id, parts, operation, journal);
      OnlyEntryBoth(journals, verified, m.journals, id);
      if !r.Ok? { return; }
    }
    r, proceed := Ok, wanted;
  }

  function NamesOf(parts: seq<Fingerprint>): (names: seq<string>)
    ensures |names| == |parts| && forall i :: 0 <= i < |parts| ==> names[i] == parts[i].name
  {
    seq(|parts|, i requires 0 <= i < |parts| => parts[i].name)
  }

  /** Records what is about to be promoted. */
  method RecordIntent(m: Device, id: JournalId, parts: seq<Fingerprint>, entry: Entry) returns (r: Outcome,
                      journal: Entry)
    requires id in m.journals && m.journals[id] == entry && entry.state == CandidateVerified
    modifies m`faults, m`journals
    ensures m.faults <= old(m.faults)
    ensures OnlyEntry(old(m.journals), m.journals, id)
    ensures m.journals[id] == entry.(
              revision := m.journals[id].revision, state := m.journals[id].state, intents := m.journals[id].intents)
    ensures m.journals[id].state in {CandidateVerified, CommitIntent, Promoting}
    ensures m.journals[id].intents
              == if m.journals[id].state == CandidateVerified then entry.intents else NamesOf(parts)
    ensures r.Ok? ==> journal == m.journals[id] && journal.state == Promoting && journal.intents == NamesOf(parts)
    ensures r.Thrown? ==> r.code == IoError && m.faults < old(m.faults)
    ensures r.Crashed? ==> m.crashes
    ensures old(m.faults) == 0 ==> !r.Thrown?
  {
    journal :- Transition(m, id, entry.revision, CommitIntent, SetIntents(NamesOf(parts)));
    journal :- Transition(m, id, journal.revision, Promoting, NoPatch);
    r := Ok;
  }

  predicate OnlyCandidates(paths: seq<Path>) { forall c :: c in paths ==> c.Candidate? }

  /** Once promotion was announced the journal names the parts, and backups, when
      recorded, are those of the parts in promotion order. */
  ghost predicate RecordsSet(entry: Entry, parts: seq<Fingerprint>, operation: string) {
    && Announces(entry, NamesOf(parts)) && OnlyCandidates(entry.candidates)
    && (entry.backups == []
        || (|entry.backups| == |parts| && forall i :: 0 <= i < |parts| ==>
          entry.backups[i] == Backup(parts[i].name, operation)))
  }

  /** The promotion, its handler, and the removal of the candidates. */
  method PromoteAnnounced(m: Device, id: JournalId, parts: seq<Fingerprint>, operation: string, entry: Entry)
    returns (r: Outcome, ghost orphan: Option<nat>)
    requires id in m.journals && m.journals[id] == entry && entry.state == Promoting
    requires entry.backups == [] && entry.intents == NamesOf(parts) && OnlyCandidates(entry.candidates)
    requires DistinctNames(parts) && Halfway(m.files, parts, operation, 0)
    modifies m`faults, m`files, m`ids, m`free, m`journals, m`answers
    ensures m.faults <= old(m.faults)
    ensures SameOthers(old(m.files), m.files, parts, operation)
    ensures OnlyEntry(old(m.journals), m.journals, id)
    ensures m.journals[id].operation == entry.operation && m.journals[id].fingerprints == entry.fingerprints
    ensures RecordsSet(m.journals[id], parts, operation)
    ensures SoundSet(m.files, m.journals[id].state, parts, operation, orphan)
    ensures orphan.Some? ==> m.journals[id].backups == []
    ensures r.Ok? ==> m.journals[id].state == CleanupComplete && CandidatesGone(m.files, parts, operation, |parts|)
    // past the commit every part is its candidate, seen contiguous in its place; before it the
    // original files are kept, and a refusal is on record
    ensures Extends(old(m.answers), m.answers) && SameOtherIds(old(m.ids), m.ids, parts, operation)
    ensures PastCommit(m.journals[id].state) ==>
              && Heard(old(m.answers), m.answers, None)
              && PartsChecked(old(m.answers), m.answers, parts, m.ids)
              && Exchanged(m.ids, parts, operation, old(m.ids), |parts|)
    ensures !PastCommit(m.journals[id].state) ==> Originals(m.files, m.ids, parts, operation, old(m.ids))
    ensures r.Thrown? ==>
              || (r.code in {IoError, InvalidJournalTransition} && m.faults < old(m.faults))
              || SetRefusal(old(m.answers), m.answers, parts, r.code)
    ensures m.Space() == old(m.Space())
    ensures r.Crashed? ==> m.crashes
    ensures old(m.faults) == 0 ==> m.journals[id].state != RecoveryPending
    ensures old(m.faults) == 0 && r.Thrown? ==>
              && m.journals[id].state == Restored && orphan == None
              && CandidatesGone(m.files, parts, operation, |parts|)
  {
    hide Extends, Heard, PartsChecked, Exchanged, Originals, SetRefusal, SameOtherIds, SoundSet, SameOthers, OnlyEntry;
    hide RecordsSet, CandidatesGone, SameSet, Halfway;
    ghost var announced := m.journals;
    r, orphan := CommitSet(m, id, parts, operation, entry);
    HasEntry(announced, m.journals, id);
    ReplacedIsRecorded(entry, m.journals[id], parts, operation);
    if r.Crashed? { return; }
    ghost var before := m.files;
    var dropped := DropFirst(m, parts, operation, |parts|);
    OriginalsWithoutCandidates(before, m.files, parts, operation, m.ids, old(m.ids));
    CandidatesDoNotMatter(before, m.files, parts, operation, |parts|, m.journals[id].state, orphan);
    SameOthersBoth(old(m.files), before, m.files, parts, operation);
    if !dropped.Ok? { r := dropped; }
  }

  /** From the recorded intent on: promotion, handler, removal of the candidates. */
  method PromoteSet(m: Device, id: JournalId, parts: seq<Fingerprint>, operation: string, entry: Entry)
    returns (r: Outcome, ghost orphan: Option<nat>)
    requires id in m.journals && m.journals[id] == entry && entry.state == CandidateVerified
    requires entry.backups == [] && entry.intents == [] && OnlyCandidates(entry.candidates)
    requires DistinctNames(parts) && AllAtHome(m.files, parts, operation)
    requires CandidatesHold(m.files, parts, operation, |parts|)
    modifies m`faults, m`files, m`ids, m`free, m`journals, m`answers
    ensures m.faults <= old(m.faults)
    ensures SameOthers(old(m.files), m.files, parts, operation)
    ensures OnlyEntry(old(m.journals), m.journals, id)
    ensures m.journals[id].operation == entry.operation && m.journals[id].fingerprints == entry.fingerprints
    ensures RecordsSet(m.journals[id], parts, operation)
    ensures SoundSet(m.files, m.journals[id].state, parts, operation, orphan)
    ensures orphan.Some? ==> m.journals[id].backups == []
    ensures r.Ok? ==> m.journals[id].state == CleanupComplete && CandidatesGone(m.files, parts, operation, |parts|)
    // past the commit every part is its candidate, seen contiguous in its place; before it the
    // original files are kept, and a refusal is on record
    ensures Extends(old(m.answers), m.answers) && SameOtherIds(old(m.ids), m.ids, parts, operation)
    ensures PastCommit(m.journals[id].state) ==>
              && Heard(old(m.answers), m.answers, None)
              && PartsChecked(old(m.answers), m.answers, parts, m.ids)
              && Exchanged(m.ids, parts, operation, old(m.ids), |parts|)
    ensures !PastCommit(m.journals[id].state) ==> Originals(m.files, m.ids, parts, operation, old(m.ids))
    ensures r.Thrown? ==>
              || (r.code in {IoError, InvalidJournalTransition} && m.faults < old(m.faults))
              || SetRefusal(old(m.answers), m.answers, parts, r.code)
    ensures m.Space() == old(m.Space())
    ensures r.Crashed? ==> m.crashes
    ensures old(m.faults) == 0 ==> m.journals[id].state != RecoveryPending
    ensures old(m.faults) == 0 && r.Thrown? ==>
              && m.journals[id].state == Restored && orphan == None
              && CandidatesGone(m.files, parts, operation, |parts|)
  {
    orphan := None;
    ReadyToPromote(m.files, parts, operation);
    OriginalsAtHome(m.files, parts, operation, m.ids);
    SameIdsAtStart(m.ids, parts, operation);
    SameAsStart(m.files, parts, operation);
    hide Extends;
    hide Heard, PartsChecked, Exchanged, Originals, SetRefusal, SameOtherIds, SoundSet, SameOthers, OnlyEntry;
    hide RecordsSet;
    hide AllAtHome, CandidatesHold, CandidatesGone, SameSet, Halfway;
    ghost var start := m.journals;
    var journal;
    r, journal := RecordIntent(m, id, parts, entry);
    HasEntry(start, m.journals, id);
    IntentIsRecorded(entry, m.journals[id], parts, operation);
    if !r.Ok? { return; }
    ghost var announced := m.journals;
    r, orphan := PromoteAnnounced(m, id, parts, operation, journal);
    HasEntry(announced, m.journals, id);
    OnlyEntryBoth(start, announced, m.journals, id);
  }

  lemma IntentIsRecorded(entry: Entry, now: Entry, parts: seq<Fingerprint>, operation: string)
    requires entry.intents == [] && entry.backups == [] && OnlyCandidates(entry.candidates)
    requires now == entry.(revision := now.revision, state := now.state, intents := now.intents)
    requires now.state in {CandidateVerified, CommitIntent, Promoting}
    requires now.intents == if now.state == CandidateVerified then entry.intents else NamesOf(parts)
    ensures RecordsSet(now, parts, operation)
  {
  }

  lemma ReplacedIsRecorded(entry: Entry, now: Entry, parts: seq<Fingerprint>, operation: string)
    requires SameSet(entry, now, parts, operation) && !Early(now.state) && entry.backups == []
    requires entry.intents == NamesOf(parts) && OnlyCandidates(entry.candidates)
    ensures RecordsSet(now, parts, operation)
    ensures now.operation == entry.operation && now.fingerprints == entry.fingerprints
  {
  }

  lemma OriginalsWithoutCandidates(before: Files, after: Files, parts: seq<Fingerprint>, operation: string,
                                   ids: Ids<Path>, first: Ids<Path>)
    requires SameButFirst(before, after, parts, operation, |parts|)
    ensures Originals(before, ids, parts, operation, first) ==> Originals(after, ids, parts, operation, first)
  {
    forall i | 0 <= i < |parts| && Originals(before, ids, parts, operation, first)
      ensures Original(after, ids, parts[i].name, operation, first.Of(File(parts[i].name)))
    {
      assert Spared(File(parts[i].name), parts, operation, |parts|);
      assert Spared(Backup(parts[i].name, operation), parts, operation, |parts|);
      assert Original(before, ids, parts[i].name, operation, first.Of(File(parts[i].name)));
    }
  }

  lemma ReadyToPromote(files: Files, parts: seq<Fingerprint>, operation: string)
    requires AllAtHome(files, parts, operation) && CandidatesHold(files, parts, operation, |parts|)
    ensures Halfway(files, parts, operation, 0)
    ensures forall s :: BeforePromotion(s) ==> SoundSet(files, s, parts, operation, None)
  {
    forall i | 0 <= i < |parts| ensures IsReady(files, parts[i], operation) && KeptPart(files, parts[i], operation) {
      assert AtHome(files, parts[i], operation) && Holds(files, Candidate(parts[i].name, operation), parts[i].contents);
    }
  }

  lemma HomeIsSound(files: Files, parts: seq<Fingerprint>, operation: string, state: State, orphan: Option<nat>)
    requires AllAtHome(files, parts, operation) && BeforePromotion(state) && (orphan.Some? ==> orphan.value < |parts|)
    ensures SoundSet(files, state, parts, operation, orphan)
  {
    forall i | 0 <= i < |parts| ensures KeptPart(files, parts[i], operation) && !InPlace(files, parts[i], operation) {
      assert AtHome(files, parts[i], operation);
    }
  }

  /** Every answer on the way to the commit of a set, in order: each copy as a candidate, twice that
      the work is still wanted, and each copy but that of `ul.cfg` in its place. */
  ghost function SetHearing(parts: seq<Fingerprint>, operation: string, ids: Ids<Path>): Answers {
    seq(|parts|, i requires 0 <= i < |parts| =>
      FoundWhole(Candidate(parts[i].name, operation), ids.Of(File(parts[i].name))))
    + [Wanted(), Wanted()] + Inspected(parts, ids, |parts|)
  }

  /** Past the commit every part is a file this run made, and all that had to be asked was answered
      `yes`. */
  ghost predicate SetHeeded(before: Answers, after: Answers, first: Ids<Path>, ids: Ids<Path>, state: State,
                            parts: seq<Fingerprint>, operation: string) {
    && Extends(before, after)
    && (PastCommit(state) ==>
          && EndsWith(before, after, SetHearing(parts, operation, ids))
          && forall i :: 0 <= i < |parts| ==> first.made <= ids.Of(File(parts[i].name)))
  }

  lemma StagedIsHeeded(before: Answers, after: Answers, first: Ids<Path>, ids: Ids<Path>, state: State, files: Files,
                       parts: seq<Fingerprint>, operation: string)
    requires before <= after && Early(state) && SameIdsBut(first, ids, parts, operation)
    requires AllAtHome(files, parts, operation)
    ensures SetHeeded(before, after, first, ids, state, parts, operation)
    ensures Originals(files, ids, parts, operation, first)
    ensures SameOtherIds(first, ids, parts, operation)
  {
    OriginalsAtHome(files, parts, operation, ids);
    SameFirst(files, ids, parts, operation, first, ids);
    forall p | !Own(p, parts, operation) ensures ids.Of(p) == first.Of(p) {
      assert Spared(p, parts, operation, |parts|);
    }
  }

  /** The files under the parts' own names are what staging left as they were. */
  lemma SameFirst(files: Files, ids: Ids<Path>, parts: seq<Fingerprint>, operation: string, first: Ids<Path>,
                  staged: Ids<Path>)
    requires SameIdsBut(first, staged, parts, operation)
    ensures Originals(files, ids, parts, operation, staged) ==> Originals(files, ids, parts, operation, first)
  {
    forall i | 0 <= i < |parts| ensures staged.Of(File(parts[i].name)) == first.Of(File(parts[i].name)) {
      assert Spared(File(parts[i].name), parts, operation, |parts|);
    }
    if Originals(files, ids, parts, operation, staged) {
      forall i | 0 <= i < |parts|
        ensures Original(files, ids, parts[i].name, operation, first.Of(File(parts[i].name)))
      {
        assert Original(files, ids, parts[i].name, operation, staged.Of(File(parts[i].name)));
      }
    }
  }

  lemma HeardOfSet(a: Answers, b: Answers, c: Answers, staged: Ids<Path>, ids: Ids<Path>, parts: seq<Fingerprint>,
                   operation: string)
    requires b == a + Copied(parts, operation, staged, |parts|) + [Wanted()] && PartsChecked(b, c, parts, ids)
    requires Exchanged(ids, parts, operation, staged, |parts|)
    ensures c == a + SetHearing(parts, operation, ids)
  {
    hide Inspected;
    var copies := seq(|parts|, i requires 0 <= i < |parts| =>
      FoundWhole(Candidate(parts[i].name, operation), ids.Of(File(parts[i].name))));
    assert copies == Copied(parts, operation, staged, |parts|);
    assert SetHearing(parts, operation, ids) == copies + [Wanted(), Wanted()] + Inspected(parts, ids, |parts|);
  }

  lemma PromotedIsHeeded(a: Answers, b: Answers, c: Answers, first: Ids<Path>, staged: Ids<Path>, ids: Ids<Path>,
                         state: State, parts: seq<Fingerprint>, operation: string)
    requires Heard(a, b, None) && Extends(b, c) && StagedCandidates(a, b, first.made, staged, parts, operation)
    requires SameIdsBut(first, staged, parts, operation) && SameOtherIds(staged, ids, parts, operation)
    requires PastCommit(state) ==>
               && Heard(b, c, None) && PartsChecked(b, c, parts, ids)
               && Exchanged(ids, parts, operation, staged, |parts|)
    ensures SetHeeded(a, c, first, ids, state, parts, operation)
    ensures SameOtherIds(first, ids, parts, operation)
    ensures forall code :: SetRefusal(b, c, parts, code) ==> SetRefusal(a, c, parts, code)
  {
    PartsAfter(a, b, c, parts);
    if PastCommit(state) { HeardOfSet(a, b, c, staged, ids, parts, operation); }
    hide Heard, Inspected;
    forall p | !Own(p, parts, operation) ensures ids.Of(p) == first.Of(p) {
      assert Spared(p, parts, operation, |parts|);
    }
  }

  /** With room and different names only an answer refuses a set. */
  lemma NoRefusal(before: Answers, after: Answers, free: int, parts: seq<Fingerprint>, operation: string)
    ensures Heard(before, after, None) && Total(parts, |parts|) <= free && DistinctNames(parts) ==>
              forall code :: !StagingRefusal(before, after, free, parts, operation, code)
                             && !SetRefusal(before, after, parts, code)
    ensures Heard(before, after, None) ==> !Heard(before, after, Some(NotCancelled))
  {
    if Heard(before, after, None) {
      forall i | 0 <= i < |parts|
        ensures !RefusesCandidate(before, after, parts[i], operation) && !RefusesPart(before, after, parts[i])
      {
      }
    }
  }

  /** Staging and promotion of checked sources. */
  method RunSet(m: Device, id: JournalId, parts: seq<Fingerprint>, operation: string, entry: Entry)
    returns (r: Outcome, proceed: bool, ghost orphan: Option<nat>)
    requires id in m.journals && m.journals[id] == entry && entry.state == Planned && entry.backups == []
    requires entry.intents == [] && entry.candidates == []
    requires AllAtHome(m.files, parts, operation) && CandidatesGone(m.files, parts, operation, |parts|)
    modifies m`faults, m`files, m`ids, m`free, m`lowest, m`journals, m`answers
    ensures m.faults <= old(m.faults)
    ensures OnlyEntry(old(m.journals), m.journals, id)
    ensures m.journals[id].operation == entry.operation && m.journals[id].fingerprints == entry.fingerprints
    ensures SameOthers(old(m.files), m.files, parts, operation)
    ensures RecordsSet(m.journals[id], parts, operation)
    ensures SoundSet(m.files, m.journals[id].state, parts, operation, orphan)
    ensures orphan.Some? ==> m.journals[id].backups == []
    ensures r.Ok? ==> m.files == old(m.files)
    ensures r.Ok? ==> m.journals[id].state == if proceed then CleanupComplete else AbortedUnchanged
    ensures old(m.Quiet()) && r.Thrown? ==>
              m.files == old(m.files) && m.journals[id].state in {AbortedUnchanged, Restored}
    // what the answers decide
    ensures SetHeeded(old(m.answers), m.answers, old(m.ids), m.ids, m.journals[id].state, parts, operation)
    ensures !PastCommit(m.journals[id].state) ==> Originals(m.files, m.ids, parts, operation, old(m.ids))
    ensures SameOtherIds(old(m.ids), m.ids, parts, operation)
    ensures r.Ok? && !proceed ==> Heard(old(m.answers), m.answers, Some(NotCancelled))
    ensures r.Thrown? ==>
              || (r.code in {IoError, InvalidJournalTransition} && m.faults < old(m.faults))
              || StagingRefusal(old(m.answers), m.answers, old(m.free), parts, operation, r.code)
              || SetRefusal(old(m.answers), m.answers, parts, r.code)
    ensures old(m.Quiet()) && Total(parts, |parts|) <= old(m.free) && DistinctNames(parts)
              && Heard(old(m.answers), m.answers, None) ==>
              r.Ok? && proceed
    ensures m.Space() == old(m.Space())
    ensures m.lowest >=
              var least := old(m.free) - Total(parts, |parts|); if least < old(m.lowest) then least else old(m.lowest)
    ensures r.Crashed? ==> m.crashes
  {
    hide CandidatesGone, AllHold, SameOthers, OnlyEntry, Heard, SetHeeded, Originals, SameOtherIds, SameIdsBut;
    hide StagedCandidates, StagingRefusal, SetRefusal, PartsChecked, Exchanged, RecordsSet, SoundSet, AllAtHome;
    orphan := None;
    HomeHolds(m.files, parts, operation);
    ghost var start, first := m.answers, m.ids;
    var journal;
    r, journal, proceed := StageSet(m, id, parts, operation, entry);
    HasEntry(old(m.journals), m.journals, id);
    ghost var staged, files, asked, ids := m.journals, m.files, m.answers, m.ids;
    CandidatesDoNotMatter(old(m.files), files, parts, operation, |parts|, m.journals[id].state, orphan);
    HomeIsSound(files, parts, operation, m.journals[id].state, orphan);
    StagedIsHeeded(start, asked, first, ids, m.journals[id].state, files, parts, operation);
    StagedIsRecorded(m.journals[id], entry, parts, operation);
    if r.Ok? && proceed {
      r, orphan := PromoteSet(m, id, parts, operation, journal);
      HasEntry(staged, m.journals, id);
      OnlyEntryBoth(old(m.journals), staged, m.journals, id);
      SameOthersBoth(old(m.files), files, m.files, parts, operation);
      PromotedIsHeeded(start, asked, m.answers, first, ids, m.ids, m.journals[id].state, parts, operation);
      SameFirst(m.files, m.ids, parts, operation, first, ids);
    }
    NoRefusal(start, m.answers, old(m.free), parts, operation);
    SetAtHome(m.files, m.journals[id].state, parts, operation, orphan);
    if r.Ok? || (r.Thrown? && old(m.Quiet())) {
      NothingChanged(old(m.files), m.files, parts, operation);
    }
  }

  lemma StagedIsRecorded(now: Entry, entry: Entry, parts: seq<Fingerprint>, operation: string)
    requires entry.intents == [] && entry.backups == [] && OnlyCandidates(now.candidates) && Early(now.state)
    requires now.intents == entry.intents && now.backups == entry.backups
    ensures RecordsSet(now, parts, operation)
  {
  }

  lemma SetAtHome(files: Files, state: State, parts: seq<Fingerprint>, operation: string, orphan: Option<nat>)
    requires SoundSet(files, state, parts, operation, orphan)
    ensures BeforePromotion(state) || state == CleanupComplete || (state == Restored && orphan == None) ==>
              AllAtHome(files, parts, operation)
  {
  }

  lemma HomeHolds(files: Files, parts: seq<Fingerprint>, operation: string)
    requires AllAtHome(files, parts, operation)
    ensures AllHold(files, parts)
  {
    assert forall i :: 0 <= i < |parts| ==> AtHome(files, parts[i], operation);
  }

  /** `parts` are fingerprints of the first selected files in promotion order. */
  ghost predicate InOrder(parts: seq<Fingerprint>, item: Item, leq: (string, string) -> bool) {
    var ordered := Ordered(item.files, leq);
    |parts| <= |ordered| && forall i :: 0 <= i < |parts| ==> Find(item.fingerprints, ordered[i]) == Some(parts[i])
  }

  lemma InOrderIsSelected(parts: seq<Fingerprint>, item: Item, leq: (string, string) -> bool)
    requires InOrder(parts, item, leq)
    ensures forall i :: 0 <= i < |parts| ==> parts[i].name in item.files
  {
    OrderedPutsUlCfgLast(item.files, leq);
    forall i | 0 <= i < |parts| ensures parts[i].name in item.files {
      assert parts[i].name in multiset(Ordered(item.files, leq));
    }
  }

  lemma PrefixKeepsUlCfgLast(parts: seq<Fingerprint>, ordered: seq<string>)
    requires |parts| <= |ordered| && UlCfgLast(ordered) && forall i :: 0 <= i < |parts| ==> parts[i].name == ordered[i]
    ensures UlCfgLast(NamesOf(parts)) && (|parts| == |ordered| ==> NamesOf(parts) == ordered)
    ensures |multiset(ordered)| == |ordered|
  {
    assert NamesOf(parts) == ordered[..|parts|];
  }

  lemma NothingGathered(files: Files)
    ensures UlCfgLast(NamesOf([])) && AllHold(files, [])
  {
  }

  /** The selection is not empty and confined to the installation. */
  predicate Selected(item: Item) {
    item.files != [] && forall f :: f in item.files ==> f in item.relativePaths || f == UL_CFG
  }

  /** Why a set is refused before anything is written. */
  ghost predicate SelectionRefusal(files: Files, free: int, item: Item, code: Code) {
    match code
    case InvalidSelection => !Selected(item)
    case InsufficientSpace => free < item.temporaryBytes
    case _ => exists n :: n in item.files && RefusesSource(files, item.fingerprints, n, code)
  }

  lemma NotSelected(item: Item)
    requires item.files == [] || exists f :: f in item.files && f !in item.relativePaths && f != UL_CFG
    ensures !Selected(item)
  {
  }

  lemma SomeSourceRefused(files: Files, item: Item, ordered: seq<string>)
    requires multiset(ordered) == multiset(item.files)
    ensures forall code :: (exists i :: 0 <= i < |ordered| && RefusesSource(files, item.fingerprints, ordered[i], code))
              ==> SelectionRefusal(files, 0, item, code)
    ensures forall code, free :: code !in {InvalidSelection, InsufficientSpace} ==>
              (SelectionRefusal(files, 0, item, code) ==> SelectionRefusal(files, free, item, code))
    ensures forall code, n :: RefusesSource(files, item.fingerprints, n, code) ==> code in {SourceChanged, NotFound}
  {
    forall code, i | 0 <= i < |ordered| && RefusesSource(files, item.fingerprints, ordered[i], code)
      ensures SelectionRefusal(files, 0, item, code)
    {
      assert ordered[i] in multiset(item.files);
      assert ordered[i] in item.files;
      assert code in {SourceChanged, NotFound};
    }
    hide Selected;
  }

  /** Selection check, promotion order, source check and space check. */
  method Gather(m: Device, item: Item, leq: (string, string) -> bool) returns (r: Outcome, parts: seq<Fingerprint>)
    modifies m`faults
    ensures m.faults <= old(m.faults)
    ensures UlCfgLast(NamesOf(parts)) && AllHold(m.files, parts)
    ensures InOrder(parts, item, leq)
    ensures r.Ok? ==> multiset(NamesOf(parts)) == multiset(item.files) && parts != [] && item.temporaryBytes <= m.free
    ensures r.Ok? ==> NamesOf(parts) == Ordered(item.files, leq)
    ensures r.Crashed? ==> m.crashes
    ensures r.Thrown? ==>
              (r.code == IoError && m.faults < old(m.faults)) || SelectionRefusal(m.files, m.free, item, r.code)
  {
    hide AllHold, UlCfgLast, Ordered, Find, NamesOf, RefusesSource, Selected;
    parts := [];
    NothingGathered(m.files);
    if item.files == [] || exists f :: f in item.files && f !in item.relativePaths && f != UL_CFG {
      assert !Selected(item) by { NotSelected(item); }
      return Thrown(InvalidSelection), [];
    }
    var ordered := Ordered(item.files, leq);
    OrderedPutsUlCfgLast(item.files, leq);
    r, parts := CollectSources(m, item.fingerprints, ordered);
    PrefixKeepsUlCfgLast(parts, ordered);
    SomeSourceRefused(m.files, item, ordered);
    if !r.Ok? { return; }
    :- m.Next();
    r := if m.free < item.temporaryBytes then Thrown(InsufficientSpace) else Ok;
  }

  lemma StartsAtHome(files: Files, parts: seq<Fingerprint>, operation: string, item: Item,
                     leq: (string, string) -> bool)
    requires Fresh(files, operation, item.files) && AllHold(files, parts) && InOrder(parts, item, leq)
    ensures AllAtHome(files, parts, operation) && CandidatesGone(files, parts, operation, |parts|)
    ensures SoundSet(files, Planned, parts, operation, None)
  {
    OrderedPutsUlCfgLast(item.files, leq);
    forall i | 0 <= i < |parts|
      ensures AtHome(files, parts[i], operation) && Candidate(parts[i].name, operation) !in files
    {
      assert Holds(files, File(parts[i].name), parts[i].contents);
      assert parts[i].name in multiset(Ordered(item.files, leq));
    }
    HomeIsSound(files, parts, operation, Planned, None);
  }

  /** `executeMultipart`.  `parts` are the checked sources in promotion order. */
  method ExecuteMultipart(m: Device, id: JournalId, operation: string, item: Item, leq: (string, string) -> bool,
                          entry: Entry)
    returns (r: Outcome, modified: seq<string>, ghost parts: seq<Fingerprint>, ghost orphan: Option<nat>)
    requires id in m.journals && m.journals[id] == entry && entry.state == Planned && entry.backups == []
    requires entry.intents == [] && entry.candidates == []
    requires Fresh(m.files, operation, item.files)
    modifies m`faults, m`files, m`ids, m`free, m`lowest, m`journals, m`answers
    ensures m.faults <= old(m.faults)
    ensures OnlyEntry(old(m.journals), m.journals, id)
    ensures m.journals[id].operation == entry.operation && m.journals[id].fingerprints == entry.fingerprints
    ensures UlCfgLast(NamesOf(parts)) && InOrder(parts, item, leq)
    ensures SameOthers(old(m.files), m.files, parts, operation)
    ensures RecordsSet(m.journals[id], parts, operation)
    // every part's original survives, and the journal says where
    ensures SoundSet(m.files, m.journals[id].state, parts, operation, orphan)
    ensures orphan.Some? ==> m.journals[id].backups == []
    ensures !Early(m.journals[id].state) ==> NamesOf(parts) == Ordered(item.files, leq)
    // a rollback is all or nothing: always once the backups were recorded, and whenever no file is missing
    ensures m.journals[id].state == Restored && m.journals[id].backups != [] ==> AllAtHome(m.files, parts, operation)
    ensures m.journals[id].state == Restored ==>
              (AllAtHome(m.files, parts, operation)
               <==> forall i :: 0 <= i < |parts| ==> File(parts[i].name) in m.files)
    // a completed run replaced all files by identical ones and left nothing behind
    ensures r.Ok? ==> m.files == old(m.files)
    ensures r.Ok? ==>
              if m.journals[id].state == CleanupComplete
              then modified != [] && multiset(modified) == multiset(item.files)
              else m.journals[id].state == AbortedUnchanged && modified == []
    ensures m.Space() == old(m.Space())
    ensures r.Crashed? ==> m.crashes
    // without faults or crashes a failed run leaves the device as it was
    ensures old(m.Quiet()) && r.Thrown? ==>
              m.files == old(m.files) && m.journals[id].state in {Planned, AbortedUnchanged, Restored}
    // what the answers decide: past the commit the parts are new files found contiguous; before it
    // the original files are kept; a refusal has its reason, and without one the set is rewritten
    ensures SetHeeded(old(m.answers), m.answers, old(m.ids), m.ids, m.journals[id].state, parts, operation)
    ensures !PastCommit(m.journals[id].state) ==> Originals(m.files, m.ids, parts, operation, old(m.ids))
    ensures SameOtherIds(old(m.ids), m.ids, parts, operation)
    ensures m.journals[id].state != Planned ==> item.temporaryBytes <= old(m.free)
    ensures r.Ok? && modified == [] ==> Heard(old(m.answers), m.answers, Some(NotCancelled))
    ensures r.Thrown? ==>
              || (r.code in {IoError, InvalidJournalTransition} && m.faults < old(m.faults))
              || SetRefused(old(m.answers), m.answers, old(m.files), old(m.free), item, parts, operation, r.code)
    ensures old(m.Quiet()) && Replaceable(old(m.files), item) && Total(parts, |parts|) <= old(m.free)
              && item.temporaryBytes <= old(m.free) && Heard(old(m.answers), m.answers, None) ==>
              r.Ok? && modified == Ordered(item.files, leq)
    ensures m.lowest >=
              var least := old(m.free) - Total(parts, |parts|); if least < old(m.lowest) then least else old(m.lowest)
  {
    hide Extends;
    hide SoundSet, AllAtHome, SameOthers, RecordsSet, InOrder, UlCfgLast, CandidatesGone, AllHold, Fresh;
    hide NamesOf, Total, OnlyEntry, Ordered, SelectionRefusal, StagingRefusal, SetRefusal, Heard, SetHeeded, Originals;
    hide SameOtherIds, Replaceable, DistinctNames;
    var proceed;
    modified, orphan := [], None;
    var sources;
    ghost var start, before := m.answers, m.files;
    r, sources := Gather(m, item, leq);
    parts := sources;
    TotalGrows(parts, 0, |parts|);
    StartsAtHome(m.files, parts, operation, item, leq);
    NothingRun(m.files, m.journals, id, parts, operation);
    NothingAsked(m.answers, m.ids, m.files, parts, operation);
    ReplaceableIsSelected(before, old(m.free), item, leq, parts);
    if !r.Ok? { return; }
    r, proceed, orphan := RunSet(m, id, sources, operation, entry);
    HasEntry(old(m.journals), m.journals, id);
    if m.journals[id].state == Restored { AllOrNothing(m.files, m.journals[id], parts, operation, orphan); }
    if proceed { modified := NamesOf(sources); }
  }

  /** Why a set is not rewritten, other than for a failing step. */
  ghost predicate SetRefused(before: Answers, after: Answers, files: Files, free: int, item: Item,
                             parts: seq<Fingerprint>, operation: string, code: Code) {
    || SelectionRefusal(files, free, item, code)
    || StagingRefusal(before, after, free, parts, operation, code)
    || SetRefusal(before, after, parts, code)
  }

  /** A proper selection of different files, each as diagnosed. */
  ghost predicate Replaceable(files: Files, item: Item) {
    && Selected(item)
    && (forall i, j :: 0 <= i < j < |item.files| ==> item.files[i] != item.files[j])
    && forall n :: n in item.files ==> Diagnosed(files, item.fingerprints, n)
  }

  lemma NothingAsked(answers: Answers, ids: Ids<Path>, files: Files, parts: seq<Fingerprint>, operation: string)
    requires AllAtHome(files, parts, operation)
    ensures SetHeeded(answers, answers, ids, ids, Planned, parts, operation)
    ensures Originals(files, ids, parts, operation, ids) && SameOtherIds(ids, ids, parts, operation)
  {
    OriginalsAtHome(files, parts, operation, ids);
  }

  lemma ReplaceableIsSelected(files: Files, free: int, item: Item, leq: (string, string) -> bool,
                              parts: seq<Fingerprint>)
    ensures Replaceable(files, item) && item.temporaryBytes <= free ==>
              forall code :: !SelectionRefusal(files, free, item, code)
    ensures Replaceable(files, item) && NamesOf(parts) == Ordered(item.files, leq) ==> DistinctNames(parts)
  {
    if Replaceable(files, item) {
      OrderedPutsUlCfgLast(item.files, leq);
      forall n, code | n in item.files ensures !RefusesSource(files, item.fingerprints, n, code) { }
      if NamesOf(parts) == Ordered(item.files, leq) {
        NoDuplicates(item.files, Ordered(item.files, leq));
        forall i, j | 0 <= i < j < |parts| ensures parts[i].name != parts[j].name {
          assert NamesOf(parts)[i] != NamesOf(parts)[j];
        }
      }
    }
  }

  /** A rearrangement of different names has different names. */
  lemma NoDuplicates(names: seq<string>, others: seq<string>)
    requires multiset(names) == multiset(others)
    requires forall i, j :: 0 <= i < j < |names| ==> names[i] != names[j]
    ensures forall i, j :: 0 <= i < j < |others| ==> others[i] != others[j]
  {
    forall i, j | 0 <= i < j < |others| ensures others[i] != others[j] {
      assert others == others[..j] + others[j..];
      assert others[i] in others[..j] && others[j] in others[j..];
      assert others[i] == others[j] ==> multiset(others)[others[i]] >= 2;
      OnlyOnce(names, others[i]);
    }
  }

  lemma {:induction false} OnlyOnce(names: seq<string>, n: string)
    requires forall i, j :: 0 <= i < j < |names| ==> names[i] != names[j]
    ensures multiset(names)[n] <= 1
  {
    if names != [] {
      assert names == [names[0]] + names[1..];
      OnlyOnce(names[1..], n);
      forall k | 0 <= k < |names[1..]| ensures names[1..][k] != names[0] { assert names[k + 1] != names[0]; }
      assert names[0] !in multiset(names[1..]);
    }
  }

  lemma NothingRun(files: Files, journals: Entries, id: JournalId, parts: seq<Fingerprint>, operation: string)
    requires id in journals && journals[id].state == Planned
    requires journals[id].intents == [] && journals[id].candidates == [] && journals[id].backups == []
    ensures OnlyEntry(journals, journals, id) && SameOthers(files, files, parts, operation)
    ensures RecordsSet(journals[id], parts, operation)
  {
  }

  /** A rollback is all or nothing.  The one part that can stay away is one whose directory
      sync failed right after its original was set aside; then no backups were recorded and
      its file is missing.  So a journal with recorded backups that says `Restored` has every
      part home, and one without has every part home if and only if no file is missing. */
  lemma AllOrNothing(files: Files, entry: Entry, parts: seq<Fingerprint>, operation: string, orphan: Option<nat>)
    requires SoundSet(files, Restored, parts, operation, orphan) && (orphan.Some? ==> entry.backups == [])
    ensures entry.backups != [] ==> AllAtHome(files, parts, operation)
    ensures AllAtHome(files, parts, operation) <==> forall i :: 0 <= i < |parts| ==> File(parts[i].name) in files
    ensures forall i :: 0 <= i < |parts| && File(parts[i].name) !in files ==>
              && Holds(files, Backup(parts[i].name, operation), parts[i].contents)
              && forall j :: 0 <= j < |parts| && j != i ==> AtHome(files, parts[j], operation)
  {
    forall i | 0 <= i < |parts| ensures AtHome(files, parts[i], operation) <==> File(parts[i].name) in files {
      if orphan == Some(i) {
        assert SetAsidePart(files, parts[i], operation);
      } else {
        assert AtHome(files, parts[i], operation);
      }
    }
  }

  /** That part exists: when the sync after the very first rename fails, the handler has
      nothing to undo, and the journal ends `Restored` with the part away. */
  lemma SyncFailureLeavesOneAway(files: Files, parts: seq<Fingerprint>, operation: string)
    requires DistinctNames(parts) && parts != [] && Halfway(files, parts, operation, 0)
    ensures var aside := SetAside(files, parts[0].name, operation);
            && Stopped(aside, parts, operation, 0, Some(0)) && SoundSet(aside, Restored, parts, operation, Some(0))
            && !AllAtHome(aside, parts, operation) && File(parts[0].name) !in aside
  {
    PromotionSteps(files, parts, operation, 0);
    var aside := SetAside(files, parts[0].name, operation);
    StoppedIsSound(aside, parts, operation, 0, Some(0));
    assert !AtHome(aside, parts[0], operation);
  }
}
