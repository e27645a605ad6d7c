/** Installing a game: staging, promotion over existing files, and in-process rollback. */
module Installation {
  import opened Storage

  /** A file of the device, a staged file, or the file a destination held before. */
  datatype Name = Outside(path: string) | Staged(name: string) | Previous(path: string)

  type Files = map<Name, Bytes>

  /** A staged file and where it goes. */
  datatype Part = Part(name: string, destination: string)

  datatype Journal = Journal(promoting: bool, staged: seq<string>, promoted: seq<string>, backups: seq<string>)

  type Device = Machine<Name, Journal>

  ghost function Names(names: seq<string>): set<string> { set d | d in names }

  ghost predicate Distinct(names: seq<string>) {
    forall i, j :: 0 <= i < j < |names| ==> names[i] != names[j]
  }

  /** Files outside `names` are the same. */
  ghost predicate SameBut(before: Files, files: Files, names: set<Name>) {
    forall p :: p !in names ==> (p in files <==> p in before) && (p in before ==> files[p] == before[p])
  }

  /** How destination `d` stands during promotion and rollback. */
  ghost predicate Stands(before: Files, files: Files, d: string, promoted: bool, backedUp: bool) {
    if backedUp then
      && Outside(d) in before && Previous(d) in files && files[Previous(d)] == before[Outside(d)]
      && (!promoted ==> Outside(d) !in files)
    else if promoted then Outside(d) !in before
    else
      && (Outside(d) in files <==> Outside(d) in before)
      && (Outside(d) in before ==> files[Outside(d)] == before[Outside(d)])
  }

  /** Nothing outside staging is lost: each file is in its place or in its backup. */
  ghost predicate Underway(before: Files, files: Files, promoted: set<string>, backups: set<string>) {
    forall d :: Stands(before, files, d, d in promoted, d in backups)
  }

  /** Every file outside staging is as before. */
  ghost predicate Restored(before: Files, files: Files) {
    forall d :: Stands(before, files, d, false, false)
  }

  type Answers = seq<Answer<Name>>

  /** The question was answered with a refusal. */
  ghost predicate Denied(before: Answers, after: Answers, q: Question<Name>) {
    exists k :: |before| <= k < |after| && after[k].question == q && !after[k].yes
  }

  /** None of the first `k` files was found fragmented. */
  ghost predicate NoneFragmented(before: Answers, after: Answers, names: seq<Name>, k: nat) {
    forall i :: 0 <= i < k && i < |names| ==> Passed(before, after, names[i])
  }

  ghost predicate Passed(before: Answers, after: Answers, name: Name) {
    exists k :: |before| <= k < |after| && after[k].question == NotFragmented(name) && after[k].yes
  }

  /** Some file was. */
  ghost predicate OneFragmented(before: Answers, after: Answers, names: seq<Name>) {
    exists i :: 0 <= i < |names| && Denied(before, after, NotFragmented(names[i]))
  }

  lemma NobodyAsked(answers: Answers, names: seq<Name>)
    ensures Heard(answers, answers, None) && Extends(answers, answers) && NoneFragmented(answers, answers, names, 0)
  {
  }

  /** Later answers do not change what was heard before, and earlier ones not what is heard later. */
  lemma HeardOn(a: Answers, b: Answers, c: Answers)
    requires Extends(a, b) && Extends(b, c)
    ensures Extends(a, c)
    ensures Heard(a, b, None) && Heard(b, c, None) ==> Heard(a, c, None)
    ensures forall q :: Denied(a, b, q) || Denied(b, c, q) ==> Denied(a, c, q)
    ensures forall name :: Passed(a, b, name) || Passed(b, c, name) ==> Passed(a, c, name)
  {
    if Heard(a, b, None) && Heard(b, c, None) { HeardBoth(a, b, c, None); }
    forall q | Denied(a, b, q) ensures Denied(a, c, q) {
      var k :| |a| <= k < |b| && b[k].question == q && !b[k].yes;
      assert c[k] == b[k];
    }
    forall name | Passed(a, b, name) ensures Passed(a, c, name) {
      var k :| |a| <= k < |b| && b[k].question == NotFragmented(name) && b[k].yes;
      assert c[k] == b[k];
    }
  }

  lemma OneAnswer(before: Answers, after: Answers, q: Question<Name>, file: nat, yes: bool)
    requires after == before + [Answer(q, file, yes)]
    ensures Extends(before, after)
    ensures if yes then Heard(before, after, None) else Denied(before, after, q) && !Heard(before, after, None)
    ensures yes && q.NotFragmented? ==> Passed(before, after, q.name)
  {
    assert after[|before|] == Answer(q, file, yes);
  }

  lemma DeniedIsHeard(before: Answers, after: Answers)
    requires Heard(before, after, None)
    ensures forall q :: !Denied(before, after, q)
  {
  }

  /** Looks at the extents of all these files. */
  method InspectAll(m: Device, names: seq<Name>) returns (r: Outcome, fragmented: bool)
    modifies m`faults, m`answers
    ensures Charged(r, old(m.faults), m.faults, m.crashes) && (r.Thrown? ==> r.code == IoError)
    ensures Extends(old(m.answers), m.answers)
    ensures r.Ok? && !fragmented ==>
              Heard(old(m.answers), m.answers, None) && NoneFragmented(old(m.answers), m.answers, names, |names|)
    ensures r.Ok? && fragmented ==> OneFragmented(old(m.answers), m.answers, names)
  {
    hide Heard, Extends, NoneFragmented, OneFragmented, Passed, Denied;
    r, fragmented := Ok, false;
    ghost var start := m.answers;
    NobodyAsked(start, names);
    for i := 0 to |names|
      invariant r.Ok? && m.faults == old(m.faults) && Extends(start, m.answers)
      invariant if fragmented then OneFragmented(start, m.answers, names)
                else Heard(start, m.answers, None) && NoneFragmented(start, m.answers, names, i)
    {
      r := m.Next();
      if !r.Ok? { return; }
      ghost var asked := m.answers;
      var whole := m.Ask(NotFragmented(names[i]));
      OneAnswer(asked, m.answers, NotFragmented(names[i]), m.ids.Of(names[i]), whole);
      OneMoreInspected(start, asked, m.answers, names, i, whole);
      if !whole { fragmented := true; }
    }
  }

  lemma OneMoreInspected(a: Answers, b: Answers, c: Answers, names: seq<Name>, i: nat, whole: bool)
    requires Extends(a, b) && Extends(b, c) && i < |names|
    requires if whole then Passed(b, c, names[i]) && Heard(b, c, None) else Denied(b, c, NotFragmented(names[i]))
    ensures Extends(a, c)
    ensures OneFragmented(a, b, names) || !whole ==> OneFragmented(a, c, names)
    ensures whole && Heard(a, b, None) && NoneFragmented(a, b, names, i) ==>
              Heard(a, c, None) && NoneFragmented(a, c, names, i + 1)
  {
    HeardOn(a, b, c);
    hide Heard, Extends, Passed, Denied;
    if !whole { assert Denied(a, c, NotFragmented(names[i])); }
    if OneFragmented(a, b, names) {
      var k :| 0 <= k < |names| && Denied(a, b, NotFragmented(names[k]));
      assert Denied(a, c, NotFragmented(names[k]));
    }
  }

  // ---- Promotion.

  lemma BackUpKeeps(before: Files, files: Files, promoted: set<string>, backups: set<string>, d: string)
    requires Underway(before, files, promoted, backups) && d !in promoted && d !in backups && Outside(d) in files
    ensures Underway(before, (files - {Outside(d)})[Previous(d) := files[Outside(d)]], promoted, backups + {d})
  {
    var after := (files - {Outside(d)})[Previous(d) := files[Outside(d)]];
    assert Stands(before, files, d, false, false);
    forall e ensures Stands(before, after, e, e in promoted, e in backups + {d}) {
      assert Stands(before, files, e, e in promoted, e in backups);
    }
  }

  lemma PromoteKeeps(before: Files, files: Files, promoted: set<string>, backups: set<string>, s: string, d: string)
    requires Underway(before, files, promoted, backups) && d !in promoted && Outside(d) !in files && Staged(s) in files
    ensures Underway(before, (files - {Staged(s)})[Outside(d) := files[Staged(s)]], promoted + {d}, backups)
  {
    var after := (files - {Staged(s)})[Outside(d) := files[Staged(s)]];
    assert Stands(before, files, d, false, d in backups);
    forall e ensures Stands(before, after, e, e in promoted + {d}, e in backups) {
      assert Stands(before, files, e, e in promoted, e in backups);
    }
  }

  /** The existing destination aside, if there is one. */
  method BackUp(m: Device, d: string, journal: Journal, ghost before: Files) returns (r: Outcome, journal': Journal)
    requires Underway(before, m.files, Names(journal.promoted), Names(journal.backups))
    requires d !in journal.promoted && d !in journal.backups && Distinct(journal.backups)
    modifies m`faults, m`files, m`ids, m`free
    ensures Charged(r, old(m.faults), m.faults, m.crashes)
    ensures Underway(before, m.files, Names(journal'.promoted), Names(journal'.backups)) && Distinct(journal'.backups)
    ensures journal' == journal || journal' == journal.(backups := journal.backups + [d])
    ensures r.Ok? ==> Outside(d) !in m.files
    ensures r.Thrown? ==> r.code == IoError
    ensures SameBut(old(m.files), m.files, {Outside(d), Previous(d)})
  {
    hide Underway;
    journal' := journal;
    ghost var files := m.files;
    r := m.Rename(Outside(d), Previous(d));
    if r.Ok? {
      BackUpKeeps(before, files, Names(journal.promoted), Names(journal.backups), d);
      assert Names(journal.backups + [d]) == Names(journal.backups) + {d};
      journal' := journal.(backups := journal.backups + [d]);
    } else if r == Thrown(NotFound) {
      r := Ok;
    }
  }

  /** One file into its place. */
  method PromoteOne(m: Device, op: JournalId, part: Part, makesDirectory: bool, journal: Journal, ghost before: Files)
    returns (r: Outcome, journal': Journal)
    requires Underway(before, m.files, Names(journal.promoted), Names(journal.backups))
    requires part.destination !in journal.promoted && part.destination !in journal.backups && Distinct(journal.backups)
    modifies m`faults, m`files, m`ids, m`free, m`journals
    ensures Charged(r, old(m.faults), m.faults, m.crashes)
    ensures Underway(before, m.files, Names(journal'.promoted), Names(journal'.backups)) && Distinct(journal'.backups)
    ensures forall d :: d in journal'.backups ==> d in journal.backups || d == part.destination
    ensures journal'.promoted == journal.promoted || journal'.promoted == journal.promoted + [part.destination]
    ensures r.Ok? ==>
              && journal'.promoted == journal.promoted + [part.destination] && Staged(part.name) in old(m.files)
              && Outside(part.destination) in m.files
              && m.files[Outside(part.destination)] == old(m.files)[Staged(part.name)]
    ensures r.Thrown? && Staged(part.name) in old(m.files) ==> r.code == IoError
    ensures SameBut(old(m.files), m.files, {Outside(part.destination), Previous(part.destination), Staged(part.name)})
  {
    hide Underway, Distinct, Names;
    journal' := journal;
    if makesDirectory {
      r := m.Next();
      if !r.Ok? { return; }
    }
    var d := part.destination;
    r, journal' := BackUp(m, d, journal, before);
    if !r.Ok? { return; }
    ghost var files := m.files;
    r := m.Rename(Staged(part.name), Outside(d));
    if !r.Ok? { return; }
    OneMoreName(journal'.promoted, d);
    PromoteKeeps(before, files, Names(journal'.promoted), Names(journal'.backups), part.name, d);
    journal' := journal'.(promoted := journal'.promoted + [d]);
    r := m.Put(op, journal');
  }

  lemma OneMoreName(names: seq<string>, d: string)
    ensures Names(names + [d]) == Names(names) + {d}
    ensures d !in names ==> d !in Names(names)
    ensures Distinct(names) && d !in names ==> Distinct(names + [d])
  {
  }

  function Destinations(parts: seq<Part>): seq<string> {
    seq(|parts|, i requires 0 <= i < |parts| => parts[i].destination)
  }

  /** No two parts share a staged file or a destination. */
  ghost predicate Disjoint(parts: seq<Part>) {
    forall i, j :: 0 <= i < j < |parts| ==>
      parts[i].name != parts[j].name && parts[i].destination != parts[j].destination
  }

  /** The first `k` parts are in their places, the others still staged. */
  ghost predicate Placed(staged: Files, files: Files, parts: seq<Part>, k: nat) {
    && (forall i :: 0 <= i < k && i < |parts| ==>
          && Staged(parts[i].name) in staged && Outside(parts[i].destination) in files
          && files[Outside(parts[i].destination)] == staged[Staged(parts[i].name)])
    && (forall i :: k <= i < |parts| ==>
          && (Staged(parts[i].name) in files <==> Staged(parts[i].name) in staged)
          && (Staged(parts[i].name) in staged ==> files[Staged(parts[i].name)] == staged[Staged(parts[i].name)]))
  }

  lemma PlaceNext(staged: Files, files: Files, files': Files, parts: seq<Part>, k: nat)
    requires Disjoint(parts) && k < |parts| && Placed(staged, files, parts, k)
    requires Staged(parts[k].name) in files && Outside(parts[k].destination) in files'
    requires files'[Outside(parts[k].destination)] == files[Staged(parts[k].name)]
    requires var d := parts[k].destination;
             SameBut(files, files', {Outside(d), Previous(d), Staged(parts[k].name)})
    ensures Placed(staged, files', parts, k + 1)
  {
  }

  lemma NextDestination(parts: seq<Part>, k: nat)
    requires Disjoint(parts) && k < |parts|
    ensures parts[k].destination !in Destinations(parts[..k])
    ensures Destinations(parts[..k + 1]) == Destinations(parts[..k]) + [parts[k].destination]
    ensures parts[k].destination in Destinations(parts)
    ensures forall d :: d in Destinations(parts[..k]) ==> d in Destinations(parts)
  {
    assert Destinations(parts)[k] == parts[k].destination;
    forall d | d in Destinations(parts[..k]) ensures d in Destinations(parts) {
      var i :| 0 <= i < k && Destinations(parts[..k])[i] == d;
      assert Destinations(parts)[i] == d;
    }
  }

  /** `promote`: the first `directories` parts, then `ul.cfg` if there is one. */
  method Promote(m: Device, op: JournalId, parts: seq<Part>, directories: nat, journal: Journal, ghost before: Files)
    returns (r: Outcome, journal': Journal)
    requires Disjoint(parts) && journal.promoted == [] && journal.backups == [] && Restored(before, m.files)
    modifies m`faults, m`files, m`ids, m`free, m`journals
    ensures Charged(r, old(m.faults), m.faults, m.crashes)
    ensures Underway(before, m.files, Names(journal'.promoted), Names(journal'.backups))
    ensures Distinct(journal'.promoted) && Distinct(journal'.backups)
    ensures r.Ok? ==> journal'.promoted == Destinations(parts) && Placed(old(m.files), m.files, parts, |parts|)
    ensures forall d :: d in journal'.backups ==> d in Destinations(parts)
    ensures r.Thrown? && AllStaged(old(m.files), parts) ==> r.code == IoError
  {
    r, journal' := Ok, journal;
    hide Disjoint, Placed, Distinct, SameBut;
    NothingPromoted(before, m.files, parts);
    hide Names, Underway, Restored;
    var k := 0;
    while k < |parts|
      invariant 0 <= k <= |parts| && r.Ok? && m.faults == old(m.faults)
      invariant Underway(before, m.files, Names(journal'.promoted), Names(journal'.backups))
      invariant Distinct(journal'.promoted) && Distinct(journal'.backups)
      invariant journal'.promoted == Destinations(parts[..k])
      invariant forall d :: d in journal'.backups ==> d in Destinations(parts[..k])
      invariant Placed(old(m.files), m.files, parts, k)
    {
      NextDestination(parts, k);
      OneMoreName(journal'.promoted, parts[k].destination);
      ghost var files := m.files;
      StillStaged(old(m.files), files, parts, k);
      r, journal' := PromoteOne(m, op, parts[k], k < directories, journal', before);
      if !r.Ok? { return; }
      PlaceNext(old(m.files), files, m.files, parts, k);
      k := k + 1;
    }
    assert parts[..|parts|] == parts;
  }

  /** Every part has its staged file. */
  ghost predicate AllStaged(files: Files, parts: seq<Part>) {
    forall i :: 0 <= i < |parts| ==> Staged(parts[i].name) in files
  }

  lemma StillStaged(staged: Files, files: Files, parts: seq<Part>, k: nat)
    requires Placed(staged, files, parts, k) && k < |parts|
    ensures AllStaged(staged, parts) ==> Staged(parts[k].name) in files
  {
  }

  lemma NothingPromoted(before: Files, files: Files, parts: seq<Part>)
    requires Restored(before, files)
    ensures Underway(before, files, Names([]), Names([])) && Distinct([]) && Placed(files, files, parts, 0)
  {
    forall d
      ensures Stands(before, files, d, d in Names([]), d in Names([]))
    {
      assert Stands(before, files, d, false, false);
    }
  }

  // ---- Rollback.

  lemma UnpromoteKeeps(before: Files, files: Files, promoted: set<string>, backups: set<string>, d: string)
    requires Underway(before, files, promoted, backups) && d in promoted
    ensures Underway(before, files - {Outside(d)}, promoted - {d}, backups)
  {
    var after := files - {Outside(d)};
    forall e ensures Stands(before, after, e, e in promoted - {d}, e in backups) {
      assert Stands(before, files, e, e in promoted, e in backups);
    }
  }

  lemma PutBackKeeps(before: Files, files: Files, backups: set<string>, d: string)
    requires Underway(before, files, {}, backups) && d in backups
    ensures Previous(d) in files
    ensures Underway(before, (files - {Previous(d)})[Outside(d) := files[Previous(d)]], {}, backups - {d})
  {
    assert Stands(before, files, d, d in {}, d in backups);
    var after := (files - {Previous(d)})[Outside(d) := files[Previous(d)]];
    forall e ensures Stands(before, after, e, e in {}, e in backups - {d}) {
      assert Stands(before, files, e, e in {}, e in backups);
    }
  }

  lemma LastOfDistinct(names: seq<string>, k: nat)
    requires Distinct(names) && k < |names|
    ensures Names(names[..k + 1]) - {names[k]} == Names(names[..k]) && names[k] in Names(names[..k + 1])
  {
    assert names[..k + 1] == names[..k] + [names[k]];
  }

  /** `rollback`, first half: what was promoted goes. */
  method RemovePromoted(m: Device, promoted: seq<string>, ghost before: Files,
                        ghost backups: set<string>) returns (r: Outcome)
    requires Distinct(promoted) && Underway(before, m.files, Names(promoted), backups)
    modifies m`faults, m`files, m`free
    ensures Charged(r, old(m.faults), m.faults, m.crashes)
    ensures r.Thrown? ==> r.code == IoError
    ensures r.Ok? ==> Underway(before, m.files, {}, backups)
    ensures !r.Ok? ==> exists rest: set<string> :: Underway(before, m.files, rest, backups)
    ensures SameStaging(old(m.files), m.files)
  {
    hide Underway, Distinct, Names;
    assert promoted == promoted[..|promoted|];
    r := Ok;
    var k := |promoted|;
    while k > 0
      invariant 0 <= k <= |promoted| && r.Ok? && m.faults == old(m.faults)
      invariant Underway(before, m.files, Names(promoted[..k]), backups)
      invariant SameStaging(old(m.files), m.files)
    {
      LastOfDistinct(promoted, k - 1);
      UnpromoteKeeps(before, m.files, Names(promoted[..k]), backups, promoted[k - 1]);
      r := m.Remove(Outside(promoted[k - 1]));
      if !r.Ok? { return; }
      k := k - 1;
    }
    assert promoted[..0] == [] && Names([]) == {} by { NoNames(); }
  }

  lemma NoNames()
    ensures Names([]) == {}
  {
  }

  /** The backups still to be put back once the `k`-th has been dealt with. */
  lemma OneLess(backups: seq<string>, k: nat, gone: set<string>, stuck: set<string>)
    requires Distinct(backups) && k < |backups|
    ensures var d, left := backups[k], (Names(backups[..k + 1]) - gone) + stuck;
            && (d in gone ==> (Names(backups[..k]) - gone) + stuck == left)
            && (d !in gone ==>
                  && d in left && (Names(backups[..k]) - gone) + (stuck + {d}) == left
                  && (Names(backups[..k]) - gone) + (stuck - {d}) == left - {d})
  {
    LastOfDistinct(backups, k);
  }

  /** These destinations have no backup any more. */
  ghost predicate NoBackups(files: Files, gone: set<string>) { forall d :: d in gone ==> Previous(d) !in files }

  lemma OneMoreStuck(stuck: set<string>, d: string, backups: seq<string>)
    requires d in backups && forall e :: e in stuck ==> e in backups
    ensures |stuck + {d}| <= |stuck| + 1 && |stuck - {d}| <= |stuck|
    ensures forall e :: e in stuck + {d} ==> e in backups
  {
    if d !in stuck { assert |stuck + {d}| == |stuck| + 1; } else { assert stuck + {d} == stuck; }
    if d in stuck { assert |stuck - {d}| == |stuck| - 1; } else { assert stuck - {d} == stuck; }
  }

  /** One backup put back; a failure is swallowed. */
  method PutBackOne(m: Device, d: string, ghost before: Files, ghost left: set<string>, ghost gone: set<string>)
    returns (r: Outcome, ghost failed: bool)
    requires Underway(before, m.files, {}, left) && (d in gone || d in left)
    requires NoBackups(m.files, gone)
    modifies m`faults, m`files, m`ids, m`free
    ensures m.faults <= old(m.faults) && (r.Ok? || (r.Crashed? && m.crashes))
    ensures Underway(before, m.files, {}, if r.Crashed? || d in gone || failed then left else left - {d})
    ensures d !in gone && failed ==> m.faults < old(m.faults)
    ensures NoBackups(m.files, gone)
  {
    hide Underway;
    if d !in gone { PutBackKeeps(before, m.files, left, d); }
    r := m.Rename(Previous(d), Outside(d));
    failed := r.Thrown?;
    if r.Thrown? { r := Ok; }
  }

  /** The `k`-th of the backups; `stuck` are those that failed before. */
  method PutBackNext(m: Device, backups: seq<string>, k: nat, ghost before: Files, ghost gone: set<string>,
                     ghost stuck: set<string>)
    returns (r: Outcome, ghost stuck': set<string>)
    requires k < |backups| && Distinct(backups) && NoBackups(m.files, gone) && forall d :: d in stuck ==> d in backups
    requires Underway(before, m.files, {}, (Names(backups[..k + 1]) - gone) + stuck)
    modifies m`faults, m`files, m`ids, m`free
    ensures m.faults <= old(m.faults) && (r.Ok? || (r.Crashed? && m.crashes)) && NoBackups(m.files, gone)
    ensures Underway(before, m.files, {},
                     if r.Crashed? then (Names(backups[..k + 1]) - gone) + stuck
                     else (Names(backups[..k]) - gone) + stuck')
    ensures |stuck'| <= |stuck| + old(m.faults) - m.faults && forall d :: d in stuck' ==> d in backups
  {
    hide Underway, Distinct, Names, NoBackups;
    var d := backups[k];
    ghost var failed;
    OneLess(backups, k, gone, stuck);
    OneMoreStuck(stuck, d, backups);
    r, failed := PutBackOne(m, d, before, (Names(backups[..k + 1]) - gone) + stuck, gone);
    stuck' := if r.Crashed? || d in gone then stuck else if failed then stuck + {d} else stuck - {d};
  }

  /** Second half: the files that were there before come back.  A failure is swallowed; of
      `gone` there is no backup any more. */
  method PutBack(m: Device, backups: seq<string>, ghost before: Files, ghost gone: set<string>)
    returns (r: Outcome, ghost stuck: set<string>)
    requires Distinct(backups) && Underway(before, m.files, {}, Names(backups) - gone) && NoBackups(m.files, gone)
    modifies m`faults, m`files, m`ids, m`free
    ensures m.faults <= old(m.faults) && (r.Ok? || (r.Crashed? && m.crashes)) && NoBackups(m.files, gone)
    ensures Underway(before, m.files, {}, stuck)
    ensures r.Ok? ==> |stuck| <= old(m.faults) - m.faults && forall d :: d in stuck ==> d in backups
  {
    hide Underway, Distinct, Names, NoBackups;
    assert backups == backups[..|backups|];
    r, stuck := Ok, {};
    assert (Names(backups) - gone) + stuck == Names(backups) - gone;
    var k := |backups|;
    while k > 0
      invariant 0 <= k <= |backups| && r.Ok? && m.faults <= old(m.faults) && NoBackups(m.files, gone)
      invariant Underway(before, m.files, {}, (Names(backups[..k]) - gone) + stuck)
      invariant |stuck| <= old(m.faults) - m.faults && forall d :: d in stuck ==> d in backups
    {
      ghost var left := (Names(backups[..k]) - gone) + stuck;
      r, stuck := PutBackNext(m, backups, k - 1, before, gone, stuck);
      if r.Crashed? { return r, left; }
      k := k - 1;
    }
    assert backups[..0] == [] && Names([]) == {} by { NoNames(); }
    assert ({} - gone) + stuck == stuck;
  }

  /** Backups are where they were. */
  ghost predicate SameStaging(before: Files, files: Files) {
    forall d :: Previous(d) in files <==> Previous(d) in before
  }

  /** `rollback`.  With no failure of its own it puts every file outside staging back as it
      was; and while staging exists nothing is lost even if it fails. */
  method RollBack(m: Device, journal: Journal, ghost before: Files, ghost gone: set<string>) returns (r: Outcome)
    requires Underway(before, m.files, Names(journal.promoted), Names(journal.backups) - gone)
    requires Distinct(journal.promoted) && Distinct(journal.backups)
    requires NoBackups(m.files, gone)
    modifies m`faults, m`files, m`ids, m`free
    ensures m.faults <= old(m.faults) && (r.Crashed? ==> m.crashes) && (r.Thrown? ==> m.faults < old(m.faults))
    ensures r.Thrown? ==> r.code == IoError
    ensures r.Ok? && m.faults == old(m.faults) ==> Restored(before, m.files)
    ensures r.Ok? ==> KeptOrMissing(before, m.files) && |Missing(before, m.files)| <= old(m.faults) - m.faults
    ensures r.Ok? ==> forall d :: d in Missing(before, m.files) ==> d in journal.backups
    ensures Safe(before, m.files) && NoBackups(m.files, gone)
  {
    hide Underway, Distinct, Restored, Safe, KeptOrMissing, Missing, Names;
    r := RemovePromoted(m, journal.promoted, before, Names(journal.backups) - gone);
    if !r.Ok? {
      ghost var rest: set<string> :| Underway(before, m.files, rest, Names(journal.backups) - gone);
      UnderwayIsSafe(before, m.files, rest, Names(journal.backups) - gone);
      return;
    }
    ghost var stuck;
    r, stuck := PutBack(m, journal.backups, before, gone);
    UnderwayIsSafe(before, m.files, {}, stuck);
    StuckIsMissing(before, m.files, stuck);
    if stuck == {} { NothingStuck(before, m.files); }
  }

  /** Every file outside staging is as before, or was there before and is missing. */
  ghost predicate KeptOrMissing(before: Files, files: Files) {
    forall d :: Stands(before, files, d, false, false) || (Outside(d) in before && Outside(d) !in files)
  }

  /** The files of before that are not in their place. */
  ghost function Missing(before: Files, files: Files): set<string> {
    set p | p in before && p.Outside? && p !in files :: p.path
  }

  lemma StuckIsMissing(before: Files, files: Files, stuck: set<string>)
    requires Underway(before, files, {}, stuck)
    ensures KeptOrMissing(before, files) && Missing(before, files) == stuck && |Missing(before, files)| == |stuck|
  {
    var none: set<string> := {};
    forall d ensures d in Missing(before, files) <==> d in stuck {
      assert Stands(before, files, d, d in none, d in stuck);
      assert d in Missing(before, files) <==> Outside(d) in before && Outside(d) !in files;
    }
    forall d ensures Stands(before, files, d, false, false) || (Outside(d) in before && Outside(d) !in files) {
      assert Stands(before, files, d, d in none, d in stuck);
    }
  }

  /** Every file of before is in its place or in its backup. */
  ghost predicate Safe(before: Files, files: Files) {
    forall d :: Outside(d) in before ==>
      || (Outside(d) in files && files[Outside(d)] == before[Outside(d)])
      || (Previous(d) in files && files[Previous(d)] == before[Outside(d)])
  }

  lemma UnderwayIsSafe(before: Files, files: Files, promoted: set<string>, backups: set<string>)
    requires Underway(before, files, promoted, backups)
    ensures Safe(before, files)
  {
    forall d | Outside(d) in before
      ensures || (Outside(d) in files && files[Outside(d)] == before[Outside(d)])
              || (Previous(d) in files && files[Previous(d)] == before[Outside(d)])
    {
      assert Stands(before, files, d, d in promoted, d in backups);
    }
  }

  lemma NothingStuck(before: Files, files: Files)
    requires Underway(before, files, {}, {})
    ensures Restored(before, files)
  {
    var none: set<string> := {};
    forall d ensures Stands(before, files, d, false, false) { assert Stands(before, files, d, d in none, d in none); }
  }

  /** `rm` of the staging directory, one file after another. */
  method Discard(m: Device) returns (r: Outcome)
    modifies m`faults, m`files, m`free
    ensures Charged(r, old(m.faults), m.faults, m.crashes)
    ensures forall p: Name :: p.Outside? ==>
              (p in m.files <==> p in old(m.files)) && (p in m.files ==> m.files[p] == old(m.files)[p])
    ensures r.Thrown? ==> r.code == IoError
    ensures forall p :: p in m.files ==> p in old(m.files) && m.files[p] == old(m.files)[p]
    ensures r.Ok? ==> forall p :: p in m.files ==> p.Outside?
  {
    r := Ok;
    var names := set p | p in m.files && !p.Outside?;
    while names != {}
      invariant r.Ok? && m.faults == old(m.faults)
      invariant forall p :: p in names ==> !p.Outside?
      invariant forall p :: p in m.files && !p.Outside? ==> p in names
      invariant forall p :: p in m.files ==> p in old(m.files) && m.files[p] == old(m.files)[p]
      invariant forall p: Name :: p.Outside? ==>
                  (p in m.files <==> p in old(m.files)) && (p in m.files ==> m.files[p] == old(m.files)[p])
      decreases |names|
    {
      var p :| p in names;
      r := m.Remove(p);
      if !r.Ok? { return; }
      names := names - {p};
    }
  }

  // ---- Staging.

  /** The bytes of part `i`. */
  function Piece(source: Bytes, size: nat, i: nat): Bytes { Slice(source, i * size, size) }

  function Joined(source: Bytes, size: nat, k: nat): Bytes {
    if k == 0 then [] else Joined(source, size, k - 1) + Piece(source, size, k - 1)
  }

  /** Enough parts joined are the source again. */
  lemma {:induction false} SplitAndJoined(source: Bytes, size: nat, k: nat)
    ensures Joined(source, size, k) == Slice(source, 0, k * size)
  {
    if k > 0 {
      SplitAndJoined(source, size, k - 1);
      assert k * size == (k - 1) * size + size;
      SliceBoth(source, (k - 1) * size, size);
    }
  }

  lemma SliceBoth(source: Bytes, a: nat, b: nat)
    ensures Slice(source, 0, a) + Slice(source, a, b) == Slice(source, 0, a + b)
  {
  }

  /** `copyRange` of one part into a new staged file. */
  method StageOne(m: Device, name: string, piece: Bytes) returns (r: Outcome)
    modifies m`faults, m`files, m`ids, m`free, m`lowest
    ensures Charged(r, old(m.faults), m.faults, m.crashes)
    ensures r.Ok? ==> m.files == old(m.files)[Staged(name) := piece]
    ensures SameBut(old(m.files), m.files, {Staged(name)})
    ensures r.Ok? ==> m.free == old(m.free) - |piece|
    ensures r.Thrown? ==>
              || (r.code == IoError)
              || (r.code == AlreadyExists && Staged(name) in old(m.files))
              || (r.code == NoSpaceOnDevice && old(m.free) < |piece|)
  {
    r := m.CreateExclusive(Staged(name));
    if !r.Ok? { return; }
    r := m.Append(Staged(name), piece);
    if !r.Ok? { return; }
    assert [] + piece == piece;
    r := m.Open(Staged(name));
  }

  /** The parts that have been staged so far. */
  ghost predicate HasStaged(files: Files, parts: seq<Part>, pieces: seq<Bytes>, k: nat)
    requires k <= |parts| == |pieces|
  {
    forall i :: 0 <= i < k ==> Staged(parts[i].name) in files && files[Staged(parts[i].name)] == pieces[i]
  }

  lemma StageNext(before: Files, files: Files, files': Files, parts: seq<Part>, pieces: seq<Bytes>, k: nat)
    requires |parts| == |pieces| && k < |parts| && Disjoint(parts)
    requires SameBut(files, files', {Staged(parts[k].name)})
    ensures Restored(before, files) ==> Restored(before, files')
    ensures HasStaged(files, parts, pieces, k) && files' == files[Staged(parts[k].name) := pieces[k]] ==>
              HasStaged(files', parts, pieces, k + 1)
  {
    if Restored(before, files) {
      forall d ensures Stands(before, files', d, false, false) { assert Stands(before, files, d, false, false); }
    }
  }

  /** Every part, and `ul.cfg` if there is one, into a new file each. */
  method StageAll(m: Device, op: JournalId, parts: seq<Part>, pieces: seq<Bytes>, journal: Journal, ghost before: Files)
    returns (r: Outcome, journal': Journal)
    requires |parts| == |pieces| && Disjoint(parts) && Restored(before, m.files)
    modifies m`faults, m`files, m`ids, m`free, m`lowest, m`journals
    ensures Charged(r, old(m.faults), m.faults, m.crashes)
    ensures Restored(before, m.files) && journal'.promoted == journal.promoted && journal'.backups == journal.backups
    ensures r.Ok? ==> HasStaged(m.files, parts, pieces, |parts|)
    ensures r.Thrown? ==>
              || r.code == IoError
              || (r.code == AlreadyExists && exists i :: 0 <= i < |parts| && Staged(parts[i].name) in old(m.files))
              || (r.code == NoSpaceOnDevice && old(m.free) < BytesOf(pieces, |pieces|))
  {
    hide Restored, HasStaged, Disjoint, SameBut, SameToCome;
    r, journal' := Ok, journal;
    var k := 0;
    SameAtFirst(m.files, parts);
    assert HasStaged(m.files, parts, pieces, 0) by { NothingStaged(m.files, parts, pieces); }
    while k < |parts|
      invariant 0 <= k <= |parts| && r.Ok? && m.faults == old(m.faults)
      invariant Restored(before, m.files) && HasStaged(m.files, parts, pieces, k)
      invariant m.free == old(m.free) - BytesOf(pieces, k)
      invariant SameToCome(old(m.files), m.files, parts, k)
      invariant journal'.promoted == journal.promoted && journal'.backups == journal.backups
    {
      ghost var files := m.files;
      BytesGrow(pieces, k + 1, |pieces|);
      r := StageOne(m, parts[k].name, pieces[k]);
      OthersNotStaged(old(m.files), files, m.files, parts, k);
      StageNext(before, files, m.files, parts, pieces, k);
      if !r.Ok? { return; }
      journal' := journal'.(staged := journal'.staged + [parts[k].name]);
      r := m.Put(op, journal');
      if !r.Ok? { return; }
      k := k + 1;
    }
  }

  function BytesOf(pieces: seq<Bytes>, k: nat): nat
    requires k <= |pieces|
  {
    if k == 0 then 0 else BytesOf(pieces, k - 1) + |pieces[k - 1]|
  }

  lemma {:induction false} BytesGrow(pieces: seq<Bytes>, j: nat, k: nat)
    requires j <= k <= |pieces|
    ensures BytesOf(pieces, j) <= BytesOf(pieces, k)
    decreases k
  {
    if j < k { BytesGrow(pieces, j, k - 1); }
  }

  /** Of the parts from `k` on, the same are staged as before. */
  ghost predicate SameToCome(before: Files, files: Files, parts: seq<Part>, k: nat) {
    forall i :: k <= i < |parts| ==> (Staged(parts[i].name) in files <==> Staged(parts[i].name) in before)
  }

  lemma SameAtFirst(files: Files, parts: seq<Part>)
    ensures SameToCome(files, files, parts, 0)
  {
  }

  lemma OthersNotStaged(before: Files, files: Files, after: Files, parts: seq<Part>, k: nat)
    requires Disjoint(parts) && k < |parts| && SameBut(files, after, {Staged(parts[k].name)})
    requires SameToCome(before, files, parts, k)
    ensures SameToCome(before, after, parts, k + 1)
    ensures Staged(parts[k].name) in files <==> Staged(parts[k].name) in before
  {
  }

  lemma NothingStaged(files: Files, parts: seq<Part>, pieces: seq<Bytes>)
    requires |parts| == |pieces|
    ensures HasStaged(files, parts, pieces, 0)
  {
  }

  function Concat(pieces: seq<Bytes>): Bytes {
    if pieces == [] then [] else Concat(pieces[..|pieces| - 1]) + pieces[|pieces| - 1]
  }

  ghost predicate CutFrom(source: Bytes, size: nat, pieces: seq<Bytes>) {
    forall i :: 0 <= i < |pieces| ==> pieces[i] == Piece(source, size, i)
  }

  /** The pieces a source is cut into are the source when put together. */
  lemma PiecesMakeSource(source: Bytes, size: nat, pieces: seq<Bytes>)
    requires CutFrom(source, size, pieces) && |pieces| * size >= |source|
    ensures Concat(pieces) == source
  {
    SplitAndJoined(source, size, |pieces|);
    hide Piece;
    ConcatIsJoined(source, size, pieces);
  }

  lemma {:induction false} ConcatIsJoined(source: Bytes, size: nat, pieces: seq<Bytes>)
    requires CutFrom(source, size, pieces)
    ensures Concat(pieces) == Joined(source, size, |pieces|)
    decreases |pieces|
  {
    if pieces != [] { ConcatIsJoined(source, size, pieces[..|pieces| - 1]); }
  }

  /** The bytes of files one after another, as a running hash takes them. */
  method ReadAll(m: Device, names: seq<Name>) returns (r: Outcome, contents: Bytes)
    modifies m`faults
    ensures Charged(r, old(m.faults), m.faults, m.crashes)
    ensures r.Ok? ==> (forall i :: 0 <= i < |names| ==> names[i] in m.files)
    ensures r.Thrown? && (forall i :: 0 <= i < |names| ==> names[i] in m.files) ==> r.code == IoError
    ensures r.Ok? ==>
              forall pieces :: |pieces| == |names| && (forall i :: 0 <= i < |names| ==> m.files[names[i]] == pieces[i])
                ==> contents == Concat(pieces)
  {
    r, contents := Ok, [];
    ghost var read: seq<Bytes> := [];
    var k := 0;
    while k < |names|
      invariant 0 <= k <= |names| && |read| == k && r.Ok? && m.faults == old(m.faults)
      invariant forall i :: 0 <= i < k ==> names[i] in m.files && m.files[names[i]] == read[i]
      invariant contents == Concat(read)
    {
      var next;
      r, next := m.Read(names[k]);
      if !r.Ok? { return; }
      assert (read + [next])[..k] == read;
      read, contents := read + [next], contents + next;
      k := k + 1;
    }
    forall pieces | |pieces| == |names| && (forall i :: 0 <= i < |names| ==> m.files[names[i]] == pieces[i])
      ensures contents == Concat(pieces)
    {
      assert pieces == read;
    }
  }

  // ---- The whole installation.

  /** Every part in its place, every other file as before. */
  ghost predicate InPlace(before: Files, files: Files, parts: seq<Part>, pieces: seq<Bytes>)
    requires |parts| == |pieces|
  {
    && (forall i :: 0 <= i < |parts| ==>
          Outside(parts[i].destination) in files && files[Outside(parts[i].destination)] == pieces[i])
    && (forall d :: d !in Destinations(parts) ==> Stands(before, files, d, false, false))
  }

  /** And no staging left. */
  ghost predicate Installed(before: Files, files: Files, parts: seq<Part>, pieces: seq<Bytes>)
    requires |parts| == |pieces|
  {
    InPlace(before, files, parts, pieces) && forall p :: p in files ==> p.Outside?
  }

  lemma PromotedIsInPlace(
    before: Files, staged: Files, files: Files, after: Files, parts: seq<Part>, pieces: seq<Bytes>,
    backups: seq<string>)
    requires |parts| == |pieces| && HasStaged(staged, parts, pieces, |parts|) && Placed(staged, files, parts, |parts|)
    requires Underway(before, files, Names(Destinations(parts)), Names(backups))
    requires forall d :: d in backups ==> d in Destinations(parts)
    requires forall p: Name :: p.Outside? ==> (p in after <==> p in files) && (p in after ==> after[p] == files[p])
    ensures InPlace(before, after, parts, pieces)
  {
    forall d | d !in Destinations(parts) ensures Stands(before, after, d, false, false) {
      assert Stands(before, files, d, d in Names(Destinations(parts)), d in Names(backups));
    }
  }

  function StagedNames(parts: seq<Part>, n: nat): seq<Name>
    requires n <= |parts|
  {
    seq(n, i requires 0 <= i < n => Staged(parts[i].name))
  }

  function PlacedNames(parts: seq<Part>, n: nat): seq<Name>
    requires n <= |parts|
  {
    seq(n, i requires 0 <= i < n => Outside(parts[i].destination))
  }

  /** How an installation ended. */
  datatype Phase = Finished | Undone | RollbackFailed | DiscardDied | DiscardFailed | DiscardStuck

  /** Why an installation is refused, other than for a failing step. */
  ghost predicate InstallRefused(before: Answers, after: Answers, files: Files, free: int, parts: seq<Part>, n: nat,
                                 pieces: seq<Bytes>, expected: Bytes, code: Code)
    requires n <= |parts| == |pieces|
  {
    match code
    case Cancelled => Denied(before, after, NotCancelled)
    case StillFragmented =>
      OneFragmented(before, after, StagedNames(parts, n)) || OneFragmented(before, after, PlacedNames(parts, n))
    case HashMismatch => Concat(pieces[..n]) != expected
    case AlreadyExists => exists i :: 0 <= i < |parts| && Staged(parts[i].name) in files
    case NoSpaceOnDevice => free < BytesOf(pieces, |pieces|)
    case _ => false
  }

  /** Nothing stands in the way: staging is empty, there is room, and the pieces are the game. */
  ghost predicate Installable(files: Files, free: int, parts: seq<Part>, n: nat, pieces: seq<Bytes>, expected: Bytes)
    requires n <= |parts| == |pieces|
  {
    && (forall i :: 0 <= i < |parts| ==> Staged(parts[i].name) !in files)
    && BytesOf(pieces, |pieces|) <= free && Concat(pieces[..n]) == expected
  }

  lemma SomeReasons(before: Answers, after: Answers, files: Files, free: int, parts: seq<Part>, n: nat,
                    pieces: seq<Bytes>, expected: Bytes)
    requires n <= |parts| == |pieces|
    ensures Denied(before, after, NotCancelled) ==>
              InstallRefused(before, after, files, free, parts, n, pieces, expected, Cancelled)
    ensures (exists i :: 0 <= i < |parts| && Staged(parts[i].name) in files) ==>
              InstallRefused(before, after, files, free, parts, n, pieces, expected, AlreadyExists)
    ensures free < BytesOf(pieces, |pieces|) ==>
              InstallRefused(before, after, files, free, parts, n, pieces, expected, NoSpaceOnDevice)
  {
    hide Denied;
  }

  lemma NotRefused(before: Answers, after: Answers, files: Files, free: int, parts: seq<Part>, n: nat,
                   pieces: seq<Bytes>, expected: Bytes)
    requires n <= |parts| == |pieces| && Installable(files, free, parts, n, pieces, expected)
    requires Heard(before, after, None)
    ensures forall code :: !InstallRefused(before, after, files, free, parts, n, pieces, expected, code)
  {
    DeniedIsHeard(before, after);
    hide Heard, Denied, Concat;
  }

  /** Refusals remain when more is asked. */
  lemma RefusedLater(a: Answers, b: Answers, c: Answers, files: Files, free: int, parts: seq<Part>, n: nat,
                     pieces: seq<Bytes>, expected: Bytes)
    requires n <= |parts| == |pieces| && Extends(a, b) && Extends(b, c)
    ensures Extends(a, c)
    ensures forall code :: InstallRefused(b, c, files, free, parts, n, pieces, expected, code)
                           || InstallRefused(a, b, files, free, parts, n, pieces, expected, code) ==>
              InstallRefused(a, c, files, free, parts, n, pieces, expected, code)
  {
    HeardOn(a, b, c);
    FragmentedOn(a, b, c, StagedNames(parts, n));
    FragmentedOn(a, b, c, PlacedNames(parts, n));
    hide Extends, Denied, OneFragmented, Concat;
  }

  lemma FragmentedOn(a: Answers, b: Answers, c: Answers, names: seq<Name>)
    requires Extends(a, b) && Extends(b, c)
    ensures OneFragmented(a, b, names) || OneFragmented(b, c, names) ==> OneFragmented(a, c, names)
    ensures NoneFragmented(a, b, names, |names|) || NoneFragmented(b, c, names, |names|) ==>
              NoneFragmented(a, c, names, |names|)
  {
    HeardOn(a, b, c);
    hide Extends, Denied, Passed;
    if OneFragmented(a, b, names) || OneFragmented(b, c, names) {
      var k :| 0 <= k < |names|
        && (Denied(a, b, NotFragmented(names[k])) || Denied(b, c, NotFragmented(names[k])));
      assert Denied(a, c, NotFragmented(names[k]));
    }
    if NoneFragmented(a, b, names, |names|) || NoneFragmented(b, c, names, |names|) {
      forall i | 0 <= i < |names| ensures Passed(a, c, names[i]) { }
    }
  }

  /** Nobody had cancelled. */
  ghost function Wanted(): Answer<Name> { Answer(NotCancelled, 0, true) }

  /** What was heard of the staged parts: none is fragmented, and then that the game is still wanted. */
  ghost predicate CheckedStaged(before: Answers, after: Answers, parts: seq<Part>, n: nat)
    requires n <= |parts|
  {
    && |before| < |after| && after[|after| - 1] == Wanted()
    && NoneFragmented(before, after[..|after| - 1], StagedNames(parts, n), n)
  }

  /** That the game is wanted, and that. */
  ghost predicate Prepared(before: Answers, after: Answers, parts: seq<Part>, n: nat)
    requires n <= |parts|
  {
    CheckedStaged(before + [Wanted()], after, parts, n) && before + [Wanted()] <= after
  }

  /** All that is asked before a game counts as installed: that again, and then that no part is
      fragmented in its place. */
  ghost predicate AskedAll(before: Answers, after: Answers, parts: seq<Part>, n: nat)
    requires n <= |parts|
  {
    exists prepared ::
      && Extends(prepared, after) && Prepared(before, prepared, parts, n)
      && NoneFragmented(prepared, after, PlacedNames(parts, n), n)
  }

  /** Staging and all checks before promotion; the first `n` parts hold the game. */
  method Prepare(
    m: Device, op: JournalId, parts: seq<Part>, n: nat, pieces: seq<Bytes>, expected: Bytes, journal: Journal,
    ghost before: Files)
    returns (r: Outcome, journal': Journal)
    requires n <= |parts| == |pieces| && Disjoint(parts) && Restored(before, m.files)
    modifies m`faults, m`files, m`ids, m`free, m`lowest, m`journals, m`answers
    ensures Charged(r, old(m.faults), m.faults, m.crashes)
    ensures Restored(before, m.files) && journal'.promoted == journal.promoted && journal'.backups == journal.backups
    ensures r.Ok? ==> HasStaged(m.files, parts, pieces, |parts|) && Concat(pieces[..n]) == expected
    ensures Extends(old(m.answers), m.answers)
    ensures r.Ok? ==> Heard(old(m.answers), m.answers, None) && Prepared(old(m.answers), m.answers, parts, n)
    ensures r.Thrown? && r.code != IoError ==>
              InstallRefused(old(m.answers), m.answers, old(m.files), old(m.free), parts, n, pieces, expected, r.code)
  {
    hide Restored, Concat, Disjoint, Heard, Extends, NoneFragmented, OneFragmented, Denied, HasStaged, Prepared;
    hide CheckedStaged;
    hide InstallRefused;
    journal' := journal;
    ghost var start := m.answers;
    var wanted := m.Ask(NotCancelled);
    OneAnswer(start, m.answers, NotCancelled, 0, wanted);
    SomeReasons(start, m.answers, old(m.files), old(m.free), parts, n, pieces, expected);
    if !wanted { return Thrown(Cancelled), journal'; }
    ghost var asked := m.answers;
    r, journal' := StageAll(m, op, parts, pieces, journal, before);
    if !r.Ok? { return; }
    r := CheckStaged(m, parts, n, pieces, expected);
    HeardOn(start, asked, m.answers);
    WantedFirst(start, asked, m.answers, parts, n);
    RefusedLater(start, asked, m.answers, old(m.files), old(m.free), parts, n, pieces, expected);
    if !r.Ok? { return; }
    journal' := journal'.(promoting := true);
    r := m.Put(op, journal');
  }

  lemma WantedFirst(start: Answers, asked: Answers, after: Answers, parts: seq<Part>, n: nat)
    requires asked == start + [Wanted()] && n <= |parts| && Extends(asked, after)
    ensures CheckedStaged(asked, after, parts, n) ==> Prepared(start, after, parts, n)
  {
    hide CheckedStaged;
  }

  lemma StillWanted(start: Answers, inspected: Answers, after: Answers, parts: seq<Part>, n: nat)
    requires n <= |parts| && Extends(start, inspected) && after == inspected + [Wanted()]
    requires NoneFragmented(start, inspected, StagedNames(parts, n), n)
    ensures CheckedStaged(start, after, parts, n)
  {
    hide NoneFragmented;
    assert after[..|after| - 1] == inspected;
  }

  /** The checks of the staged parts: the bytes of the game, no fragmented part, still wanted. */
  method CheckStaged(m: Device, parts: seq<Part>, n: nat, pieces: seq<Bytes>, expected: Bytes) returns (r: Outcome)
    requires n <= |parts| == |pieces| && HasStaged(m.files, parts, pieces, |parts|)
    modifies m`faults, m`answers
    ensures Charged(r, old(m.faults), m.faults, m.crashes) && Extends(old(m.answers), m.answers)
    ensures r.Ok? ==>
              && Concat(pieces[..n]) == expected && Heard(old(m.answers), m.answers, None)
              && CheckedStaged(old(m.answers), m.answers, parts, n)
    ensures r.Thrown? && r.code != IoError ==>
              forall files, free ::
                InstallRefused(old(m.answers), m.answers, files, free, parts, n, pieces, expected, r.code)
  {
    hide Concat, Heard, Extends, NoneFragmented, OneFragmented, Denied, HasStaged;
    ghost var start := m.answers;
    NobodyAsked(start, StagedNames(parts, n));
    var contents, fragmented;
    r, contents := ReadStaged(m, parts, n, pieces);
    if !r.Ok? { return; }
    if contents != expected { return Thrown(HashMismatch); }
    r, fragmented := InspectAll(m, StagedNames(parts, n));
    if !r.Ok? { return; }
    if fragmented { return Thrown(StillFragmented); }
    ghost var inspected := m.answers;
    var wanted := m.Ask(NotCancelled);
    OneAnswer(inspected, m.answers, NotCancelled, 0, wanted);
    HeardOn(start, inspected, m.answers);
    FragmentedOn(start, inspected, m.answers, StagedNames(parts, n));
    if !wanted { return Thrown(Cancelled); }
    StillWanted(start, inspected, m.answers, parts, n);
  }

  /** The bytes of the first `n` staged parts. */
  method ReadStaged(m: Device, parts: seq<Part>, n: nat, pieces: seq<Bytes>) returns (r: Outcome, contents: Bytes)
    requires n <= |parts| == |pieces| && HasStaged(m.files, parts, pieces, |parts|)
    modifies m`faults
    ensures Charged(r, old(m.faults), m.faults, m.crashes) && (r.Thrown? ==> r.code == IoError)
    ensures r.Ok? ==> contents == Concat(pieces[..n])
  {
    hide Concat;
    r, contents := ReadAll(m, StagedNames(parts, n));
    if r.Ok? { assert contents == Concat(pieces[..n]); }
  }

  /** Everything inside the `try`. */
  method TryInstall(
    m: Device, op: JournalId, parts: seq<Part>, n: nat, pieces: seq<Bytes>, expected: Bytes, ghost before: Files)
    returns (r: Outcome, journal: Journal, discarding: bool)
    requires n <= |parts| == |pieces| && Disjoint(parts) && Restored(before, m.files)
    modifies m`faults, m`files, m`ids, m`free, m`lowest, m`journals, m`answers
    ensures Charged(r, old(m.faults), m.faults, m.crashes)
    ensures r.Ok? ==> Installed(before, m.files, parts, pieces) && Concat(pieces[..n]) == expected
    ensures !r.Ok? ==>
              && Distinct(journal.promoted) && Distinct(journal.backups)
              && var gone := if discarding then Gone(journal, m.files) else {};
                 Underway(Without(before, gone), m.files, Names(journal.promoted), Names(journal.backups) - gone)
    ensures discarding && r.Thrown? ==> r.code == IoError
    ensures discarding ==> forall d :: d in journal.backups ==> d in Destinations(parts) && Outside(d) in before
    ensures discarding ==> InPlace(before, m.files, parts, pieces) && Concat(pieces[..n]) == expected
    ensures forall d :: d in journal.backups ==> d in Destinations(parts)
    ensures r.Ok? ==> discarding
    // promoted only if wanted and whole, and kept only if whole in its place; a refusal has its reason
    ensures Extends(old(m.answers), m.answers)
    ensures discarding ==>
              Heard(old(m.answers), m.answers, None) && AskedAll(old(m.answers), m.answers, parts, n)
    ensures r.Thrown? && r.code != IoError ==>
              InstallRefused(old(m.answers), m.answers, old(m.files), old(m.free), parts, n, pieces, expected, r.code)
  {
    hide Restored, Underway, Distinct, Names, InPlace, HasStaged, Placed, Concat, Disjoint, Heard, Extends;
    hide NoneFragmented, OneFragmented, AllStaged, Denied, Prepared, AskedAll;
    ghost var start := m.answers;
    journal, discarding := Journal(false, [], [], []), false;
    NothingGone(before);
    r, journal := Prepare(m, op, parts, n, pieces, expected, journal, before);
    NothingPromoted(before, m.files, parts);
    if !r.Ok? {
      assert Names(journal.promoted) == Names([]) && Names(journal.backups) == Names([]);
      AllKept(journal);
      return;
    }
    ghost var staged, prepared := m.files, m.answers;
    StagedIsThere(staged, parts, pieces);
    r, journal := Promote(m, op, parts, n, journal, before);
    AllKept(journal);
    if !r.Ok? { return; }
    BackedUpBefore(before, m.files, journal);
    var fragmented;
    r, fragmented := InspectAll(m, PlacedNames(parts, n));
    HeardOn(start, prepared, m.answers);
    FragmentedOn(start, prepared, m.answers, PlacedNames(parts, n));
    PlacedLast(start, prepared, m.answers, parts, n);
    if !r.Ok? { return; }
    if fragmented { return Thrown(StillFragmented), journal, false; }
    var contents;
    PlacedIsThere(staged, m.files, parts, n);
    r, contents := ReadAll(m, PlacedNames(parts, n));
    if !r.Ok? { return; }
    ghost var files := m.files;
    r := Discard(m);
    discarding := true;
    DiscardedUnderway(before, files, m.files, journal);
    PromotedIsInPlace(before, staged, files, m.files, parts, pieces, journal.backups);
  }

  lemma PlacedLast(start: Answers, prepared: Answers, after: Answers, parts: seq<Part>, n: nat)
    requires n <= |parts| && Extends(prepared, after)
    ensures Prepared(start, prepared, parts, n) && NoneFragmented(prepared, after, PlacedNames(parts, n), n) ==>
              AskedAll(start, after, parts, n)
  {
    hide Prepared, NoneFragmented, Extends;
  }

  lemma StagedIsThere(files: Files, parts: seq<Part>, pieces: seq<Bytes>)
    requires |parts| == |pieces|
    ensures HasStaged(files, parts, pieces, |parts|) ==> AllStaged(files, parts)
  {
  }

  lemma PlacedIsThere(staged: Files, files: Files, parts: seq<Part>, n: nat)
    requires Placed(staged, files, parts, |parts|) && n <= |parts|
    ensures forall i :: 0 <= i < n ==> PlacedNames(parts, n)[i] in files
  {
  }

  /** Destinations whose backup has been removed. */
  ghost function Gone(journal: Journal, files: Files): set<string> {
    set d | d in journal.backups && Previous(d) !in files
  }

  /** The files of before, without those whose backup is gone. */
  ghost function Without(before: Files, gone: set<string>): Files {
    before - set d | d in gone :: Outside(d)
  }

  lemma NothingGone(before: Files)
    ensures Without(before, {}) == before
  {
  }

  lemma AllKept(journal: Journal)
    ensures Names(journal.backups) - {} == Names(journal.backups)
  {
  }

  lemma BackedUpBefore(before: Files, files: Files, journal: Journal)
    requires Underway(before, files, Names(journal.promoted), Names(journal.backups))
    ensures forall d :: d in journal.backups ==> Outside(d) in before
  {
    forall d | d in journal.backups ensures Outside(d) in before {
      assert Stands(before, files, d, d in Names(journal.promoted), d in Names(journal.backups));
    }
  }

  /** A removal of staging that stops anywhere: what lost its backup can no longer come back,
      the rest still can. */
  lemma DiscardedUnderway(before: Files, files: Files, after: Files, journal: Journal)
    requires Underway(before, files, Names(journal.promoted), Names(journal.backups))
    requires forall p :: p in after ==> p in files && after[p] == files[p]
    requires forall p: Name :: p.Outside? ==> (p in after <==> p in files)
    ensures var gone := Gone(journal, after);
            Underway(Without(before, gone), after, Names(journal.promoted), Names(journal.backups) - gone)
  {
    var gone, promoted, backups := Gone(journal, after), Names(journal.promoted), Names(journal.backups);
    forall d ensures Stands(Without(before, gone), after, d, d in promoted, d in backups - gone) {
      assert Stands(before, files, d, d in promoted, d in backups);
    }
  }

  /** A rollback after a failed removal restores everything if and only if no backup had gone. */
  lemma RestoredIffNothingGone(before: Files, files: Files, gone: set<string>)
    requires Restored(Without(before, gone), files) && forall d :: d in gone ==> Outside(d) in before
    ensures Restored(before, files) <==> gone == {}
    ensures KeptOrMissing(before, files) && forall d :: d in gone ==> Outside(d) !in files
  {
    forall d ensures Stands(before, files, d, false, false) <==> d !in gone
      ensures d in gone ==> Outside(d) !in files
    {
      assert Stands(Without(before, gone), files, d, false, false);
    }
    if d :| d in gone { assert !Stands(before, files, d, false, false); }
  }

  /** A failed removal costs a file: the destination held [1] and now holds [2]; its backup was
      removed before the failure, so the rollback removes the new file and restores nothing. */
  lemma DiscardLosesPrevious()
    ensures var before: Files := map[Outside("g") := [1]];
            var promoted: Files := map[Outside("g") := [2], Previous("g") := [1]];
            var discarded := promoted - {Previous("g")};
            var journal := Journal(true, ["g"], ["g"], ["g"]);
            && Underway(before, promoted, Names(journal.promoted), Names(journal.backups))
            && Gone(journal, discarded) == {"g"}
            && !Safe(before, discarded - {Outside("g")}) && !Restored(before, discarded - {Outside("g")})
  {
    var before: Files := map[Outside("g") := [1]];
    var promoted: Files := map[Outside("g") := [2], Previous("g") := [1]];
    var after := promoted - {Previous("g")} - {Outside("g")};
    assert Names(["g"]) == {"g"};
    assert Outside("g") in before && Outside("g") !in after && Previous("g") !in after;
    assert !Stands(before, after, "g", false, false);
  }

  lemma RestoredIffNoneMissing(before: Files, files: Files)
    requires KeptOrMissing(before, files)
    ensures Restored(before, files) <==> Missing(before, files) == {}
  {
    forall d ensures Stands(before, files, d, false, false) <==> d !in Missing(before, files) {
      assert d in Missing(before, files) <==> Outside(d) in before && Outside(d) !in files;
      assert Stands(before, files, d, false, false) || (Outside(d) in before && Outside(d) !in files);
    }
    if d :| d in Missing(before, files) { assert !Stands(before, files, d, false, false); }
  }

  /** A second failure costs a file: the new file is removed, the rename of the backup fails, and
      the backup goes with the staging directory. */
  lemma StuckBackupLosesPrevious()
    ensures var before: Files := map[Outside("g") := [1]];
            var promoted: Files := map[Outside("g") := [2], Previous("g") := [1]];
            var stuck := promoted - {Outside("g")};
            var discarded := stuck - {Previous("g")};
            && Underway(before, promoted, {"g"}, {"g"}) && Underway(before, stuck, {}, {"g"})
            && Missing(before, discarded) == {"g"} && !Safe(before, discarded)
  {
    var before: Files := map[Outside("g") := [1]];
    var promoted: Files := map[Outside("g") := [2], Previous("g") := [1]];
    var none: set<string>, one := {}, {"g"};
    assert Underway(before, promoted, one, one);
    UnpromoteKeeps(before, promoted, one, one, "g");
    assert one - {"g"} == none;
    var discarded := promoted - {Outside("g")} - {Previous("g")};
    assert discarded == map[] && Outside("g") in before;
    assert forall p :: p in before <==> p == Outside("g");
  }

  /** `install`.  On success the verified game is in place and nothing else has changed.
      - `Undone`, a failure before staging is discarded and a rollback that ran through: every file
        outside staging is as it was if that was the only failure; each further one costs at most
        one replaced file, which then is missing.
      - `RollbackFailed`, the process died or the rollback could not finish: each file is in its
        place or in its backup.
      - `DiscardDied`, the process died while staging was being removed: the verified game is in place.
      - `DiscardFailed`, that removal failed and the rollback ran through: some replaced files may be
        missing, all others are as before; if that was the only failure all are as before if and only
        if none is missing, so where no destination existed before.
      - `DiscardStuck`, the rollback after it could not finish either: each file is in its place or in
        its backup, or it was replaced and its backup is gone. */
  method Install(m: Device, op: JournalId, parts: seq<Part>, n: nat, pieces: seq<Bytes>, expected: Bytes)
    returns (r: Outcome, phase: Phase)
    requires n <= |parts| == |pieces| && Disjoint(parts)
    modifies m`faults, m`files, m`ids, m`free, m`lowest, m`journals, m`answers
    ensures r.Ok? <==> phase.Finished?
    ensures r.Ok? ==> Installed(old(m.files), m.files, parts, pieces) && Concat(pieces[..n]) == expected
    ensures OneFailure(r, old(m.faults)) && phase.Undone? ==> Restored(old(m.files), m.files)
    ensures phase.Undone? ==>
              && KeptOrMissing(old(m.files), m.files) && ReplacedOnly(old(m.files), m.files, parts)
              && |Missing(old(m.files), m.files)| <= old(m.faults) - m.faults
              && (Restored(old(m.files), m.files) <==> Missing(old(m.files), m.files) == {})
    ensures phase.RollbackFailed? ==> Safe(old(m.files), m.files)
    ensures phase.DiscardDied? ==>
              r.Crashed? && InPlace(old(m.files), m.files, parts, pieces) && Concat(pieces[..n]) == expected
    ensures phase.DiscardFailed? ==>
              KeptOrMissing(old(m.files), m.files) && ReplacedOnly(old(m.files), m.files, parts)
    ensures OneFailure(r, old(m.faults)) && phase.DiscardFailed? ==>
              (Restored(old(m.files), m.files) <==> NoneMissing(old(m.files), m.files, parts))
    ensures OneFailure(r, old(m.faults)) && phase.DiscardFailed? && NothingThere(old(m.files), parts) ==>
              Restored(old(m.files), m.files)
    ensures phase.DiscardStuck? ==> SafeOrReplaced(old(m.files), m.files, parts)
    // installed only if wanted, and if no part was found fragmented, staged or in its place; a refusal
    // has its reason, and without one an undisturbed run installs
    ensures r.Ok? ==> Heard(old(m.answers), m.answers, None) && AskedAll(old(m.answers), m.answers, parts, n)
    ensures r.Thrown? && r.code != IoError ==>
              InstallRefused(old(m.answers), m.answers, old(m.files), old(m.free), parts, n, pieces, expected, r.code)
    ensures old(m.Quiet()) && Installable(old(m.files), old(m.free), parts, n, pieces, expected)
              && Heard(old(m.answers), m.answers, None) ==>
              r.Ok?
  {
    hide Restored, Underway, Distinct, Names, InPlace, Concat, Safe, Disjoint, KeptOrMissing, NoneMissing, Without;
    hide NothingThere, Missing, ReplacedOnly, SafeOrReplaced, Heard, Extends, AskedAll, InstallRefused;
    hide Installable;
    ghost var before := m.files;
    Untouched(before, parts);
    r := m.Put(op, Journal(false, [], [], []));
    if !r.Ok? { return r, Undone; }
    var journal, discarding;
    r, journal, discarding := TryInstall(m, op, parts, n, pieces, expected, before);
    if r.Ok? { return r, Finished; }
    if Installable(before, old(m.free), parts, n, pieces, expected) && Heard(old(m.answers), m.answers, None) {
      NotRefused(old(m.answers), m.answers, before, old(m.free), parts, n, pieces, expected);
    }
    phase := if discarding then DiscardFailed else Undone;
    ghost var gone := if discarding then Gone(journal, m.files) else {};
    ghost var left := Without(before, gone);
    NothingGone(before);
    if r.Crashed? {
      if discarding { return r, DiscardDied; }
      UnderwayIsSafe(left, m.files, Names(journal.promoted), Names(journal.backups) - gone);
      return r, RollbackFailed;
    }
    var undone := RollBack(m, journal, left, gone);
    if !undone.Ok? {
      SafeWithout(before, m.files, gone, parts);
      return undone, if discarding then DiscardStuck else RollbackFailed;
    }
    ghost var files := m.files;
    undone := Discard(m);
    DiscardKeeps(left, files, m.files);
    WithoutAreMissing(before, m.files, gone, parts);
    RestoredIffNoneMissing(before, m.files);
    if discarding && old(m.faults) == 1 { GoneAreMissing(before, m.files, gone, parts); }
    if NothingThere(before, parts) { NothingReplaced(before, m.files, parts); }
    if !undone.Ok? { r := undone; }
  }

  /** What is missing was to be replaced. */
  ghost predicate ReplacedOnly(before: Files, files: Files, parts: seq<Part>) {
    forall d :: d in Missing(before, files) ==> d in Destinations(parts)
  }

  /** Every file of before is in its place or in its backup, or was replaced and has no backup. */
  ghost predicate SafeOrReplaced(before: Files, files: Files, parts: seq<Part>) {
    forall d :: Outside(d) in before ==>
      || (Outside(d) in files && files[Outside(d)] == before[Outside(d)])
      || (Previous(d) in files && files[Previous(d)] == before[Outside(d)])
      || (d in Destinations(parts) && Previous(d) !in files)
  }

  lemma SafeWithout(before: Files, files: Files, gone: set<string>, parts: seq<Part>)
    requires Safe(Without(before, gone), files)
    requires forall d :: d in gone ==> d in Destinations(parts) && Previous(d) !in files
    ensures SafeOrReplaced(before, files, parts)
  {
    forall d | Outside(d) in before && d !in gone ensures Outside(d) in Without(before, gone) { }
  }

  lemma WithoutAreMissing(before: Files, files: Files, gone: set<string>, parts: seq<Part>)
    requires KeptOrMissing(Without(before, gone), files)
    requires forall d :: d in gone ==> d in Destinations(parts) && Outside(d) in before
    requires ReplacedOnly(Without(before, gone), files, parts)
    ensures KeptOrMissing(before, files) && ReplacedOnly(before, files, parts)
  {
    var left := Without(before, gone);
    forall d
      ensures Stands(before, files, d, false, false) || (Outside(d) in before && Outside(d) !in files)
      ensures Outside(d) in before && Outside(d) !in files ==> d in Destinations(parts)
    {
      assert Stands(left, files, d, false, false) || (Outside(d) in left && Outside(d) !in files);
      if d !in gone && Outside(d) in before && Outside(d) !in files { assert d in Missing(left, files); }
    }
  }

  /** No destination that existed is missing. */
  ghost predicate NoneMissing(before: Files, files: Files, parts: seq<Part>) {
    forall d :: d in Destinations(parts) && Outside(d) in before ==> Outside(d) in files
  }

  /** The condition a caller can check beforehand: nothing is replaced. */
  ghost predicate NothingThere(before: Files, parts: seq<Part>) {
    forall d :: d in Destinations(parts) ==> Outside(d) !in before
  }

  lemma NothingReplaced(before: Files, files: Files, parts: seq<Part>)
    requires NothingThere(before, parts)
    ensures NoneMissing(before, files, parts)
  {
  }

  lemma GoneAreMissing(before: Files, files: Files, gone: set<string>, parts: seq<Part>)
    requires Restored(Without(before, gone), files)
    requires forall d :: d in gone ==> d in Destinations(parts) && Outside(d) in before
    ensures KeptOrMissing(before, files) && (Restored(before, files) <==> NoneMissing(before, files, parts))
  {
    RestoredIffNothingGone(before, files, gone);
    if Restored(before, files) {
      forall d | d in Destinations(parts) && Outside(d) in before ensures Outside(d) in files {
        assert Stands(before, files, d, false, false);
      }
    }
  }

  lemma Untouched(files: Files, parts: seq<Part>)
    ensures Restored(files, files) && Safe(files, files) && KeptOrMissing(files, files)
    ensures Missing(files, files) == {} && ReplacedOnly(files, files, parts)
  {
  }

  lemma DiscardKeeps(before: Files, files: Files, after: Files)
    requires forall p: Name :: p.Outside? ==> (p in after <==> p in files) && (p in after ==> after[p] == files[p])
    ensures Restored(before, files) ==> Restored(before, after)
    ensures KeptOrMissing(before, files) ==> KeptOrMissing(before, after)
    ensures Missing(before, after) == Missing(before, files)
  {
    forall d ensures Stands(before, files, d, false, false) <==> Stands(before, after, d, false, false) { }
  }
}
