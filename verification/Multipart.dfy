/** Replacement of several parts of one installation, all or none. */
module Multipart {
  import opened Storage
  import opened Journal
  import opened Candidates
  import opened Repair

  ghost predicate Named(n: string, parts: seq<Fingerprint>) {
    exists i :: 0 <= i < |parts| && parts[i].name == n
  }

  ghost predicate DistinctNames(parts: seq<Fingerprint>) {
    forall i, j :: 0 <= i < j < |parts| ==> parts[i].name != parts[j].name
  }

  /** A name that the repair of `parts` may touch. */
  ghost predicate Own(p: Path, parts: seq<Fingerprint>, operation: string) {
    match p
    case File(n) => Named(n, parts)
    case Backup(n, o) => o == operation && Named(n, parts)
    case Candidate(n, o) => o == operation && Named(n, parts)
  }

  ghost predicate SameOthers(before: Files, after: Files, parts: seq<Fingerprint>, operation: string) {
    forall p :: !Own(p, parts, operation) ==> (p in before <==> p in after) && (p in before ==> before[p] == after[p])
  }

  lemma SameAsStart(files: Files, parts: seq<Fingerprint>, operation: string)
    ensures SameOthers(files, files, parts, operation)
  {
  }

  lemma SameOthersBoth(a: Files, b: Files, c: Files, parts: seq<Fingerprint>, operation: string)
    requires SameOthers(a, b, parts, operation) && SameOthers(b, c, parts, operation)
    ensures SameOthers(a, c, parts, operation)
  {
  }

  ghost predicate KeptPart(files: Files, part: Fingerprint, operation: string) {
    Kept(files, part.name, operation, part.contents)
  }

  /** The part is back at, or was never taken from, its own name. */
  ghost predicate AtHome(files: Files, part: Fingerprint, operation: string) {
    Holds(files, File(part.name), part.contents) && Backup(part.name, operation) !in files
  }

  /** The original is set aside; the source name is empty or has the new copy. */
  ghost predicate SetAsidePart(files: Files, part: Fingerprint, operation: string) {
    KeptPart(files, part, operation) && Backup(part.name, operation) in files
  }

  /** The new copy is in place and the original still set aside. */
  ghost predicate InPlace(files: Files, part: Fingerprint, operation: string) {
    SetAsidePart(files, part, operation) && File(part.name) in files
  }

  /** Parts are replaced in order: none is in place before all earlier ones are. */
  ghost predicate PrefixMoved(files: Files, parts: seq<Fingerprint>, operation: string) {
    forall i, j :: 0 <= i < j < |parts| && InPlace(files, parts[j], operation) ==> InPlace(files, parts[i], operation)
  }

  ghost predicate AllKept(files: Files, parts: seq<Fingerprint>, operation: string) {
    forall i :: 0 <= i < |parts| ==> KeptPart(files, parts[i], operation)
  }

  ghost predicate AllAtHome(files: Files, parts: seq<Fingerprint>, operation: string) {
    forall i :: 0 <= i < |parts| ==> AtHome(files, parts[i], operation)
  }

  ghost predicate IsReady(files: Files, part: Fingerprint, operation: string) {
    Ready(files, part.name, operation, part.contents)
  }

  /** The first `k` parts are replaced, the others have their candidates ready. */
  ghost predicate Halfway(files: Files, parts: seq<Fingerprint>, operation: string, k: nat) {
    && (forall i :: 0 <= i < k && i < |parts| ==>
          InPlace(files, parts[i], operation) && Candidate(parts[i].name, operation) !in files)
    && (forall i :: k <= i < |parts| ==> IsReady(files, parts[i], operation))
  }

  /** What a promotion that stopped leaves to its handler: the first `promoted` parts
      are set aside; every other part is at home, except an orphan whose original was
      renamed without being recorded as promoted. */
  ghost predicate Stopped(files: Files, parts: seq<Fingerprint>, operation: string, promoted: nat,
                          orphan: Option<nat>) {
    && promoted <= |parts|
    && (orphan.Some? ==> orphan.value == promoted < |parts|)
    && (forall i :: 0 <= i < promoted ==> SetAsidePart(files, parts[i], operation))
    && (forall i :: promoted <= i < |parts| && orphan != Some(i) ==> AtHome(files, parts[i], operation))
    && (orphan.Some? ==> SetAsidePart(files, parts[promoted], operation) && File(parts[promoted].name) !in files)
    && PrefixMoved(files, parts, operation)
  }

  /** One rename at a time, every intermediate device is one the handler can undo. */
  lemma PromotionSteps(files: Files, parts: seq<Fingerprint>, operation: string, k: nat)
    requires DistinctNames(parts) && k < |parts| && Halfway(files, parts, operation, k)
    ensures IsReady(files, parts[k], operation) && Stopped(files, parts, operation, k, None)
    ensures var aside := SetAside(files, parts[k].name, operation);
            && Stopped(aside, parts, operation, k, Some(k)) && Stopped(aside, parts, operation, k + 1, None)
            && SameOthers(files, aside, parts, operation)
    ensures var swapped := Swapped(files, parts[k].name, operation);
            && Stopped(swapped, parts, operation, k + 1, None) && Halfway(swapped, parts, operation, k + 1)
            && SameOthers(files, swapped, parts, operation)
  {
    assert IsReady(files, parts[k], operation);
    var aside, swapped := SetAside(files, parts[k].name, operation), Swapped(files, parts[k].name, operation);
    forall i | 0 <= i < |parts| && i != k
      ensures InPlace(files, parts[i], operation) <==> InPlace(aside, parts[i], operation)
      ensures InPlace(files, parts[i], operation) <==> InPlace(swapped, parts[i], operation)
      ensures AtHome(files, parts[i], operation) <==> AtHome(aside, parts[i], operation)
      ensures AtHome(files, parts[i], operation) <==> AtHome(swapped, parts[i], operation)
      ensures IsReady(files, parts[i], operation) <==> IsReady(swapped, parts[i], operation)
      ensures Candidate(parts[i].name, operation) in files <==> Candidate(parts[i].name, operation) in swapped
    {
    }
    assert Named(parts[k].name, parts);
  }

  /** The original file of every part is under its backup name or, without one, its own. */
  ghost predicate Originals(files: Files, ids: Ids<Path>, parts: seq<Fingerprint>, operation: string,
                            first: Ids<Path>) {
    forall i :: 0 <= i < |parts| ==>
      Original(files, ids, parts[i].name, operation, first.Of(File(parts[i].name)))
  }

  /** The first `k` parts are the files that were their candidates. */
  ghost predicate Exchanged(ids: Ids<Path>, parts: seq<Fingerprint>, operation: string, first: Ids<Path>, k: nat) {
    forall i :: 0 <= i < k && i < |parts| ==>
      ids.Of(File(parts[i].name)) == first.Of(Candidate(parts[i].name, operation))
  }

  /** Every other name has the file it had. */
  ghost predicate SameOtherIds(before: Ids<Path>, after: Ids<Path>, parts: seq<Fingerprint>, operation: string) {
    forall p :: !Own(p, parts, operation) ==> after.Of(p) == before.Of(p)
  }

  lemma SameIdsAtStart(ids: Ids<Path>, parts: seq<Fingerprint>, operation: string)
    ensures SameOtherIds(ids, ids, parts, operation)
  {
  }

  lemma OriginalsAtHome(files: Files, parts: seq<Fingerprint>, operation: string, ids: Ids<Path>)
    requires Halfway(files, parts, operation, 0) || AllAtHome(files, parts, operation)
    ensures Originals(files, ids, parts, operation, ids)
  {
    forall i | 0 <= i < |parts|
      ensures Original(files, ids, parts[i].name, operation, ids.Of(File(parts[i].name)))
    {
      assert IsReady(files, parts[i], operation) || AtHome(files, parts[i], operation);
    }
  }

  /** The names from part `k` on have the files they had. */
  ghost predicate NotYet(ids: Ids<Path>, parts: seq<Fingerprint>, operation: string, first: Ids<Path>, k: nat) {
    forall i :: k <= i < |parts| ==>
      && ids.Of(File(parts[i].name)) == first.Of(File(parts[i].name))
      && ids.Of(Candidate(parts[i].name, operation)) == first.Of(Candidate(parts[i].name, operation))
  }

  /** One part promoted, or partly so, the other ones as before. */
  lemma PromotionMovesFiles(before: Files, files: Files, was: Ids<Path>, ids: Ids<Path>, parts: seq<Fingerprint>,
                            operation: string, first: Ids<Path>, k: nat)
    requires DistinctNames(parts) && k < |parts| && SameIds(was, ids, Touched(parts[k].name, operation))
    requires SameExcept(before, files, Touched(parts[k].name, operation))
    requires Originals(before, was, parts, operation, first)
    requires Original(files, ids, parts[k].name, operation, first.Of(File(parts[k].name)))
    ensures Originals(files, ids, parts, operation, first)
    ensures SameOtherIds(was, ids, parts, operation)
    ensures NotYet(was, parts, operation, first, k) ==> NotYet(ids, parts, operation, first, k + 1)
    ensures Exchanged(was, parts, operation, first, k)
              && ids.Of(File(parts[k].name)) == first.Of(Candidate(parts[k].name, operation)) ==>
              Exchanged(ids, parts, operation, first, k + 1)
  {
    assert Named(parts[k].name, parts);
    forall i | 0 <= i < |parts| && i != k
      ensures Original(files, ids, parts[i].name, operation, first.Of(File(parts[i].name)))
    {
      assert Original(before, was, parts[i].name, operation, first.Of(File(parts[i].name)));
    }
  }

  /** The two renames of one part; `pushed` records the first one and its sync. */
  method PromotePart(m: Device, name: string, operation: string) returns (r: Outcome, pushed: bool)
    requires File(name) in m.files && Candidate(name, operation) in m.files && Backup(name, operation) !in m.files
    modifies m`faults, m`files, m`ids, m`free
    ensures m.faults <= old(m.faults)
    ensures !pushed ==> !r.Ok? && m.files in {old(m.files), SetAside(old(m.files), name, operation)}
    ensures pushed ==> m.files in {SetAside(old(m.files), name, operation), Swapped(old(m.files), name, operation)}
    ensures r.Ok? ==> m.files == Swapped(old(m.files), name, operation)
    ensures SameExcept(old(m.files), m.files, Touched(name, operation))
    ensures SameIds(old(m.ids), m.ids, Touched(name, operation))
    ensures Original(m.files, m.ids, name, operation, old(m.ids).Of(File(name)))
    ensures r.Ok? ==> m.ids.Of(File(name)) == old(m.ids).Of(Candidate(name, operation))
    ensures r.Thrown? ==> r.code == IoError && m.faults < old(m.faults)
    ensures m.Space() == old(m.Space())
    ensures r.Crashed? ==> m.crashes
    ensures old(m.faults) == 0 ==> !r.Thrown?
  {
    pushed := false;
    :- m.Next();
    :- m.Rename(File(name), Backup(name, operation));
    :- SyncDirectory(m);
    pushed := true;
    :- m.Next();
    :- m.Rename(Candidate(name, operation), File(name));
    :- SyncDirectory(m);
    :- m.Next();
    r := Ok;
  }

  lemma NoneYet(first: Ids<Path>, parts: seq<Fingerprint>, operation: string)
    ensures NotYet(first, parts, operation, first, 0) && Exchanged(first, parts, operation, first, 0)
  {
  }

  lemma NotYetMeans(ids: Ids<Path>, parts: seq<Fingerprint>, operation: string, first: Ids<Path>, k: nat)
    requires NotYet(ids, parts, operation, first, k) && k < |parts|
    ensures ids.Of(File(parts[k].name)) == first.Of(File(parts[k].name))
    ensures ids.Of(Candidate(parts[k].name, operation)) == first.Of(Candidate(parts[k].name, operation))
  {
  }

  lemma SameOtherIdsBoth(a: Ids<Path>, b: Ids<Path>, c: Ids<Path>, parts: seq<Fingerprint>, operation: string)
    requires SameOtherIds(a, b, parts, operation) && SameOtherIds(b, c, parts, operation)
    ensures SameOtherIds(a, c, parts, operation)
  {
  }

  method PromoteAll(m: Device, parts: seq<Fingerprint>, operation: string)
    returns (r: Outcome, promoted: nat, ghost orphan: Option<nat>)
    requires DistinctNames(parts) && Halfway(m.files, parts, operation, 0)
    modifies m`faults, m`files, m`ids, m`free
    ensures m.faults <= old(m.faults)
    ensures SameOthers(old(m.files), m.files, parts, operation)
    ensures Stopped(m.files, parts, operation, promoted, orphan)
    ensures r.Ok? ==> promoted == |parts| && orphan == None && Halfway(m.files, parts, operation, |parts|)
    ensures Originals(m.files, m.ids, parts, operation, old(m.ids))
    ensures SameOtherIds(old(m.ids), m.ids, parts, operation)
    ensures r.Ok? ==> Exchanged(m.ids, parts, operation, old(m.ids), |parts|)
    ensures r.Thrown? ==> r.code == IoError && m.faults < old(m.faults)
    ensures m.Space() == old(m.Space())
    ensures r.Crashed? ==> m.crashes
    ensures old(m.faults) == 0 ==> !r.Thrown?
  {
    promoted, orphan := 0, None;
    OriginalsAtHome(m.files, parts, operation, m.ids);
    hide Originals, SameOtherIds, NotYet, Exchanged, SameExcept, SameIds, Original;
    ghost var first := m.ids;
    assert SameOtherIds(first, first, parts, operation) by { SameIdsAtStart(first, parts, operation); }
    NoneYet(first, parts, operation);
    while promoted < |parts|
      invariant promoted <= |parts| && orphan == None && m.faults <= old(m.faults) && m.Space() == old(m.Space())
      invariant SameOthers(old(m.files), m.files, parts, operation)
      invariant Halfway(m.files, parts, operation, promoted)
      invariant Originals(m.files, m.ids, parts, operation, first) && SameOtherIds(first, m.ids, parts, operation)
      invariant NotYet(m.ids, parts, operation, first, promoted)
      invariant Exchanged(m.ids, parts, operation, first, promoted)
    {
      ghost var files, ids, k := m.files, m.ids, promoted;
      NotYetMeans(ids, parts, operation, first, k);
      PromotionSteps(m.files, parts, operation, promoted);
      ghost var before := m.files;
      var pushed;
      r, pushed := PromotePart(m, parts[promoted].name, operation);
      PromotionMovesFiles(files, m.files, ids, m.ids, parts, operation, first, k);
      SameOtherIdsBoth(first, ids, m.ids, parts, operation);
      if pushed {
        promoted := promoted + 1;
      } else if m.files == SetAside(before, parts[promoted].name, operation) {
        orphan := Some(promoted);
      }
      if !r.Ok? { return; }
    }
    r := Ok;
  }

  /** During the rollback: promoted parts from `i` on are home again. */
  ghost predicate RolledTo(files: Files, parts: seq<Fingerprint>, operation: string, i: nat, orphan: Option<nat>) {
    && i <= |parts|
    && (forall k :: 0 <= k < i ==> SetAsidePart(files, parts[k], operation))
    && (forall k :: i <= k < |parts| && orphan != Some(k) ==> AtHome(files, parts[k], operation))
    && (forall k :: i <= k < |parts| && orphan == Some(k) ==>
          SetAsidePart(files, parts[k], operation) && File(parts[k].name) !in files)
    && PrefixMoved(files, parts, operation)
  }

  /** The device after the backup of `name` was put back. */
  ghost function PutHome(files: Files, name: string, operation: string): Files
    requires Backup(name, operation) in files
  {
    (files - {File(name), Backup(name, operation)})[File(name) := files[Backup(name, operation)]]
  }

  lemma RollbackSteps(files: Files, parts: seq<Fingerprint>, operation: string, i: nat, orphan: Option<nat>)
    requires DistinctNames(parts) && i < |parts| && orphan != Some(i)
    requires RolledTo(files, parts, operation, i + 1, orphan)
    ensures SetAsidePart(files, parts[i], operation)
    ensures var gone := files - {File(parts[i].name)};
            && SameOthers(files, gone, parts, operation)
            && AllKept(gone, parts, operation) && PrefixMoved(gone, parts, operation)
    ensures var home := PutHome(files, parts[i].name, operation);
            SameOthers(files, home, parts, operation) && RolledTo(home, parts, operation, i, orphan)
  {
    assert SetAsidePart(files, parts[i], operation);
    var gone, home := files - {File(parts[i].name)}, PutHome(files, parts[i].name, operation);
    forall k | 0 <= k < |parts| && k != i
      ensures InPlace(files, parts[k], operation) <==> InPlace(gone, parts[k], operation)
      ensures InPlace(files, parts[k], operation) <==> InPlace(home, parts[k], operation)
      ensures SetAsidePart(files, parts[k], operation) <==> SetAsidePart(home, parts[k], operation)
      ensures AtHome(files, parts[k], operation) <==> AtHome(home, parts[k], operation)
      ensures KeptPart(files, parts[k], operation) <==> KeptPart(gone, parts[k], operation)
    {
    }
    assert forall k :: i < k < |parts| ==> !InPlace(files, parts[k], operation);
    assert Named(parts[i].name, parts);
  }

  method PutHomeFromBackup(m: Device, name: string, operation: string) returns (r: Outcome)
    requires Backup(name, operation) in m.files
    modifies m`faults, m`files, m`ids, m`free
    ensures m.faults <= old(m.faults)
    ensures m.files == old(m.files) || m.files == old(m.files) - {File(name)}
              || m.files == PutHome(old(m.files), name, operation)
    ensures r.Ok? ==> m.files == PutHome(old(m.files), name, operation)
    ensures SameExcept(old(m.files), m.files, Touched(name, operation))
    ensures SameIds(old(m.ids), m.ids, Touched(name, operation))
    ensures Original(m.files, m.ids, name, operation, old(m.ids).Of(Backup(name, operation)))
    ensures m.Space() == old(m.Space())
    ensures r.Crashed? ==> m.crashes
    ensures old(m.faults) == 0 ==> !r.Thrown?
  {
    r := m.Remove(File(name));
    if !r.Ok? { return; }
    :- m.Rename(Backup(name, operation), File(name));
    :- SyncDirectory(m);
    r := Ok;
  }

  /** Hashes every source; the first one that differs ends the check. */
  method CheckSources(m: Device, parts: seq<Fingerprint>) returns (r: Outcome)
    modifies m`faults
    ensures m.faults <= old(m.faults)
    ensures r.Ok? ==> forall i :: 0 <= i < |parts| ==> Holds(m.files, File(parts[i].name), parts[i].contents)
    ensures r.Crashed? ==> m.crashes
    ensures old(m.faults) == 0
              && (forall i :: 0 <= i < |parts| ==> Holds(m.files, File(parts[i].name), parts[i].contents)) ==>
              !r.Thrown?
  {
    for i := 0 to |parts|
      invariant m.faults <= old(m.faults)
      invariant forall k :: 0 <= k < i ==> Holds(m.files, File(parts[k].name), parts[k].contents)
    {
      var contents :- m.Read(File(parts[i].name));
      if contents != parts[i].contents { return Thrown(RestoredHashMismatch); }
    }
    r := Ok;
  }

  lemma BackupIsOriginal(files: Files, ids: Ids<Path>, parts: seq<Fingerprint>, operation: string, first: Ids<Path>,
                         i: nat)
    requires Originals(files, ids, parts, operation, first) && i < |parts|
    requires Backup(parts[i].name, operation) in files
    ensures ids.Of(Backup(parts[i].name, operation)) == first.Of(File(parts[i].name))
  {
    assert Original(files, ids, parts[i].name, operation, first.Of(File(parts[i].name)));
  }

  lemma RolledIsKept(files: Files, parts: seq<Fingerprint>, operation: string, i: nat, orphan: Option<nat>)
    requires RolledTo(files, parts, operation, i, orphan)
    ensures AllKept(files, parts, operation) && PrefixMoved(files, parts, operation)
    ensures i == 0 ==> forall k :: 0 <= k < |parts| && orphan != Some(k) ==> AtHome(files, parts[k], operation)
  {
    forall k | 0 <= k < |parts| ensures KeptPart(files, parts[k], operation) {
      assert SetAsidePart(files, parts[k], operation) || AtHome(files, parts[k], operation);
    }
  }

  /** A part put back, or not quite. */
  lemma StepIsSame(start: Files, before: Files, after: Files, parts: seq<Fingerprint>, operation: string, i: nat,
                   orphan: Option<nat>)
    requires DistinctNames(parts) && i < |parts| && orphan != Some(i) && SameOthers(start, before, parts, operation)
    requires RolledTo(before, parts, operation, i + 1, orphan) && Backup(parts[i].name, operation) in before
    requires after == before || after == before - {File(parts[i].name)}
             || after == PutHome(before, parts[i].name, operation)
    ensures SameOthers(start, after, parts, operation)
    ensures AllKept(after, parts, operation) && PrefixMoved(after, parts, operation)
  {
    RollbackSteps(before, parts, operation, i, orphan);
    RolledIsKept(before, parts, operation, i + 1, orphan);
    var home := PutHome(before, parts[i].name, operation);
    RolledIsKept(home, parts, operation, i, orphan);
    SameAsStart(before, parts, operation);
    SameOthersBoth(start, before, after, parts, operation);
  }

  lemma StoppedIsRolled(files: Files, parts: seq<Fingerprint>, operation: string, promoted: nat, orphan: Option<nat>)
    requires Stopped(files, parts, operation, promoted, orphan)
    ensures RolledTo(files, parts, operation, promoted, orphan) && promoted <= |parts|
    ensures orphan.Some? ==> orphan.value == promoted
  {
  }

  /** The undo inside the rollback: last promoted part first, then a check of every
      promoted part. */
  method UndoAll(m: Device, parts: seq<Fingerprint>, operation: string, promoted: nat, ghost orphan: Option<nat>,
                 ghost first: Ids<Path>)
    returns (r: Outcome)
    requires DistinctNames(parts) && Stopped(m.files, parts, operation, promoted, orphan)
    requires Originals(m.files, m.ids, parts, operation, first)
    modifies m`faults, m`files, m`ids, m`free
    ensures m.faults <= old(m.faults)
    ensures SameOthers(old(m.files), m.files, parts, operation)
    ensures AllKept(m.files, parts, operation) && PrefixMoved(m.files, parts, operation)
    ensures r.Ok? ==> RolledTo(m.files, parts, operation, 0, orphan)
    ensures Originals(m.files, m.ids, parts, operation, first)
    ensures SameOtherIds(old(m.ids), m.ids, parts, operation)
    ensures m.Space() == old(m.Space())
    ensures r.Crashed? ==> m.crashes
    ensures old(m.faults) == 0 ==> !r.Thrown?
  {
    hide Originals, SameOtherIds, SameExcept, SameIds, Original, NotYet, Exchanged;
    SameIdsAtStart(m.ids, parts, operation);
    StoppedIsRolled(m.files, parts, operation, promoted, orphan);
    hide RolledTo, AllKept, PrefixMoved, Stopped, DistinctNames;
    SameAsStart(m.files, parts, operation);
    hide SameOthers;
    var i := promoted;
    while i > 0
      invariant 0 <= i <= promoted && m.faults <= old(m.faults) && m.Space() == old(m.Space())
      invariant SameOthers(old(m.files), m.files, parts, operation)
      invariant RolledTo(m.files, parts, operation, i, orphan)
      invariant Originals(m.files, m.ids, parts, operation, first) && SameOtherIds(old(m.ids), m.ids, parts, operation)
    {
      i := i - 1;
      ghost var files, ids := m.files, m.ids;
      RollbackSteps(m.files, parts, operation, i, orphan);
      RolledIsKept(m.files, parts, operation, i + 1, orphan);
      BackupIsOriginal(files, ids, parts, operation, first, i);
      r := PutHomeFromBackup(m, parts[i].name, operation);
      PromotionMovesFiles(files, m.files, ids, m.ids, parts, operation, first, i);
      SameOtherIdsBoth(old(m.ids), ids, m.ids, parts, operation);
      StepIsSame(old(m.files), files, m.files, parts, operation, i, orphan);
      if !r.Ok? { return; }
    }
    RolledIsKept(m.files, parts, operation, 0, orphan);
    r := CheckSources(m, parts[..promoted]);
  }

  /** How the journal and the device relate when a multipart repair has stopped. */
  ghost predicate SoundSet(files: Files, state: State, parts: seq<Fingerprint>, operation: string,
                           orphan: Option<nat>) {
    && AllKept(files, parts, operation)
    && (orphan.Some? ==> orphan.value < |parts|)
    && (!PastCommit(state) ==> PrefixMoved(files, parts, operation))
    && (BeforePromotion(state) ==> AllAtHome(files, parts, operation))
    && (PastCommit(state) ==> forall i :: 0 <= i < |parts| ==> File(parts[i].name) in files)
    && (state == CleanupComplete ==> AllAtHome(files, parts, operation))
    && (state == Restored ==> RolledTo(files, parts, operation, 0, orphan))
  }

  lemma StoppedIsSound(files: Files, parts: seq<Fingerprint>, operation: string, promoted: nat, orphan: Option<nat>)
    requires Stopped(files, parts, operation, promoted, orphan)
    ensures AllKept(files, parts, operation)
  {
    forall i | 0 <= i < |parts| ensures KeptPart(files, parts[i], operation) {
      assert SetAsidePart(files, parts[i], operation) || AtHome(files, parts[i], operation);
    }
  }

  /** The rollback proper, recorded as `Restored` or `RecoveryPending`. */
  method UndoAndRecord(m: Device, id: JournalId, parts: seq<Fingerprint>, operation: string, promoted: nat,
                       ghost orphan: Option<nat>, ghost first: Ids<Path>, entry: Entry)
    returns (r: Outcome)
    requires id in m.journals && m.journals[id] == entry && entry.state == RollingBack
    requires DistinctNames(parts) && Stopped(m.files, parts, operation, promoted, orphan)
    requires Originals(m.files, m.ids, parts, operation, first)
    modifies m`faults, m`files, m`ids, m`free, m`journals
    ensures m.faults <= old(m.faults)
    ensures SameOthers(old(m.files), m.files, parts, operation)
    ensures OnlyEntry(old(m.journals), m.journals, id)
    ensures m.journals[id] == entry.(revision := m.journals[id].revision, state := m.journals[id].state)
    ensures m.journals[id].state in {RollingBack, Restored, RecoveryPending}
    ensures AllKept(m.files, parts, operation) && PrefixMoved(m.files, parts, operation)
    ensures m.journals[id].state == Restored ==> RolledTo(m.files, parts, operation, 0, orphan)
    ensures Originals(m.files, m.ids, parts, operation, first)
    ensures SameOtherIds(old(m.ids), m.ids, parts, operation)
    ensures r.Thrown? ==> r.code == IoError && m.faults < old(m.faults)
    ensures m.Space() == old(m.Space())
    ensures r.Crashed? ==> m.crashes
    ensures old(m.faults) == 0 ==>
              !r.Thrown? && m.journals[id].state != RecoveryPending && (r.Ok? ==> m.journals[id].state == Restored)
  {
    hide Originals, SameOtherIds;
    r := UndoAll(m, parts, operation, promoted, orphan, first);
    if r.Ok? {
      var restored;
      r, restored := Transition(m, id, entry.revision, Restored, NoPatch);
    }
    if r.Thrown? {
      var pending :- Transition(m, id, entry.revision, RecoveryPending, NoPatch);
      r := Ok;
    }
  }

  lemma RollingIsSound(files: Files, parts: seq<Fingerprint>, operation: string, orphan: Option<nat>)
    requires AllKept(files, parts, operation) && PrefixMoved(files, parts, operation)
    requires (orphan.Some? ==> orphan.value < |parts|)
    ensures SoundSet(files, RollbackRequired, parts, operation, orphan)
    ensures SoundSet(files, RollingBack, parts, operation, orphan)
    ensures SoundSet(files, RecoveryPending, parts, operation, orphan)
    ensures RolledTo(files, parts, operation, 0, orphan) ==> SoundSet(files, Restored, parts, operation, orphan)
  {
    hide AllKept, PrefixMoved, RolledTo;
  }

  /** The handler.  Past the commit the table refuses it and nothing is touched. */
  method RollBackAll(m: Device, id: JournalId, parts: seq<Fingerprint>, operation: string, promoted: nat,
                     ghost orphan: Option<nat>, ghost first: Ids<Path>, cause: Code, entry: Entry)
    returns (r: Outcome)
    requires id in m.journals && m.journals[id] == entry
    requires entry.state in {Promoting, ActiveValidating, Committed, CleanupPending}
    requires DistinctNames(parts) && SoundSet(m.files, entry.state, parts, operation, orphan)
    requires !PastCommit(entry.state) ==>
              && Stopped(m.files, parts, operation, promoted, orphan)
              && Originals(m.files, m.ids, parts, operation, first)
    modifies m`faults, m`files, m`ids, m`free, m`journals
    ensures m.faults <= old(m.faults)
    ensures !r.Ok?
    ensures SameOthers(old(m.files), m.files, parts, operation)
    ensures OnlyEntry(old(m.journals), m.journals, id)
    ensures m.journals[id] == entry.(revision := m.journals[id].revision, state := m.journals[id].state)
    ensures SoundSet(m.files, m.journals[id].state, parts, operation, orphan)
    ensures m.journals[id].state in {entry.state, RollbackRequired, RollingBack, Restored, RecoveryPending}
    ensures PastCommit(entry.state) ==> m.files == old(m.files) && m.journals[id] == entry
    ensures if PastCommit(entry.state) then m.ids == old(m.ids)
            else Originals(m.files, m.ids, parts, operation, first)
    ensures SameOtherIds(old(m.ids), m.ids, parts, operation)
    ensures r.Thrown? ==>
              || (!PastCommit(entry.state) && r.code == cause)
              || (r.code == IoError && m.faults < old(m.faults))
              || (PastCommit(entry.state) && r.code == InvalidJournalTransition)
    ensures m.Space() == old(m.Space())
    ensures r.Crashed? ==> m.crashes
    ensures old(m.faults) == 0 && !PastCommit(entry.state) ==>
              && m.journals[id].state != RecoveryPending
              && (r.Thrown? ==> r.code == cause && m.journals[id].state == Restored)
  {
    if !PastCommit(entry.state) { StoppedIsSound(m.files, parts, operation, promoted, orphan); }
    SameAsStart(m.files, parts, operation);
    if !PastCommit(entry.state) { RollingIsSound(m.files, parts, operation, orphan); }
    SameIdsAtStart(m.ids, parts, operation);
    hide SoundSet, SameOthers, Stopped, RolledTo, AllKept, PrefixMoved, Originals, SameOtherIds;
    var journal :- BeginRollback(m, id, entry);
    ghost var journals := m.journals;
    hide OnlyEntry;
    r := UndoAndRecord(m, id, parts, operation, promoted, orphan, first, journal);
    OnlyEntryBoth(old(m.journals), journals, m.journals, id);
    RollingIsSound(m.files, parts, operation, orphan);
    if r.Ok? { r := Thrown(cause); }
  }

  const UL_CFG: string := "ul.cfg"

  ghost predicate AllInPlace(files: Files, parts: seq<Fingerprint>) {
    forall i :: 0 <= i < |parts| ==> Holds(files, File(parts[i].name), parts[i].contents)
  }

  lemma InPlaceMeans(files: Files, parts: seq<Fingerprint>, i: nat)
    requires i < |parts|
    ensures AllInPlace(files, parts) ==> Holds(files, File(parts[i].name), parts[i].contents)
  {
  }

  /** What was heard of the first `k` parts in their places: each but `ul.cfg` is contiguous. */
  ghost function Inspected(parts: seq<Fingerprint>, ids: Ids<Path>, k: nat): Answers
    requires k <= |parts|
  {
    if k == 0 then []
    else
      var file := File(parts[k - 1].name);
      Inspected(parts, ids, k - 1) + if parts[k - 1].name == UL_CFG then [] else [FoundWhole(file, ids.Of(file))]
  }

  /** What was heard: that the work is still wanted, and that every part but `ul.cfg` is contiguous. */
  ghost predicate PartsChecked(before: Answers, after: Answers, parts: seq<Fingerprint>, ids: Ids<Path>) {
    after == before + [Wanted()] + Inspected(parts, ids, |parts|)
  }

  /** Some part was found not to be contiguous. */
  ghost predicate PartRefused(before: Answers, after: Answers, parts: seq<Fingerprint>) {
    exists i :: 0 <= i < |parts| && RefusesPart(before, after, parts[i])
  }

  ghost predicate RefusesPart(before: Answers, after: Answers, part: Fingerprint) {
    Heard(before, after, Some(Contiguous(File(part.name))))
  }

  lemma OnePartAsked(first: Answers, before: Answers, after: Answers, parts: seq<Fingerprint>, i: nat, yes: bool)
    requires Heard(first, before, None) && i < |parts|
    requires Heard(before, after, if yes then None else Some(Contiguous(File(parts[i].name))))
    ensures first <= after && Extends(before, after)
    ensures if yes then Heard(first, after, None) else PartRefused(first, after, parts)
  {
    HeardBoth(first, before, after, if yes then None else Some(Contiguous(File(parts[i].name))));
    if !yes { assert RefusesPart(first, after, parts[i]); }
  }

  lemma OneMoreInspected(first: Answers, before: Answers, after: Answers, parts: seq<Fingerprint>, ids: Ids<Path>,
                         i: nat)
    requires i < |parts| && before == first + Inspected(parts, ids, i)
    requires var file := File(parts[i].name);
             after == if parts[i].name == UL_CFG then before else before + [FoundWhole(file, ids.Of(file))]
    ensures after == first + Inspected(parts, ids, i + 1)
  {
    if parts[i].name == UL_CFG { assert Inspected(parts, ids, i) + [] == Inspected(parts, ids, i); }
  }

  /** Hash and extents of every promoted part except `ul.cfg`. */
  method ValidateParts(m: Device, parts: seq<Fingerprint>) returns (r: Outcome)
    modifies m`faults, m`answers
    ensures m.faults <= old(m.faults)
    ensures r.Ok? ==> forall i :: 0 <= i < |parts| && parts[i].name != UL_CFG ==>
              Holds(m.files, File(parts[i].name), parts[i].contents)
    ensures r.Crashed? ==> m.crashes
    ensures Extends(old(m.answers), m.answers)
    ensures r.Ok? ==>
              && Heard(old(m.answers), m.answers, None)
              && m.answers == old(m.answers) + Inspected(parts, m.ids, |parts|)
    ensures r.Thrown? && AllInPlace(m.files, parts) ==>
              || (r.code == IoError && m.faults < old(m.faults))
              || (r.code == StillFragmented && PartRefused(old(m.answers), m.answers, parts))
  {
    NothingHeard(m.answers);
    hide Heard, Inspected, AllInPlace, PartRefused;
    assert m.answers == m.answers + Inspected(parts, m.ids, 0) by { NothingInspected(parts, m.ids); }
    for i := 0 to |parts|
      invariant m.faults <= old(m.faults)
      invariant Heard(old(m.answers), m.answers, None) && Extends(old(m.answers), m.answers)
      invariant m.answers == old(m.answers) + Inspected(parts, m.ids, i)
      invariant forall k :: 0 <= k < i && parts[k].name != UL_CFG ==>
                Holds(m.files, File(parts[k].name), parts[k].contents)
    {
      ghost var asked := m.answers;
      if parts[i].name != UL_CFG {
        InPlaceMeans(m.files, parts, i);
        var active :- m.Read(File(parts[i].name));
        if active != parts[i].contents { return Thrown(StillFragmented); }
        var contiguous :- m.Inspect(File(parts[i].name));
        OnePartAsked(old(m.answers), asked, m.answers, parts, i, contiguous);
        if !contiguous { return Thrown(StillFragmented); }
      }
      OneMoreInspected(old(m.answers), asked, m.answers, parts, m.ids, i);
    }
    r := Ok;
  }

  lemma NothingInspected(parts: seq<Fingerprint>, ids: Ids<Path>)
    ensures Inspected(parts, ids, 0) == []
  {
  }

  /** Why the promotion of a set is given up, as far as it was asked. */
  ghost predicate SetRefusal(before: Answers, after: Answers, parts: seq<Fingerprint>, code: Code) {
    match code
    case Cancelled => Heard(before, after, Some(NotCancelled))
    case StillFragmented => PartRefused(before, after, parts)
    case _ => false
  }

  lemma HeardExtends(before: Answers, after: Answers, refused: Option<Question<Path>>)
    requires Heard(before, after, refused)
    ensures before <= after
  {
  }

  /** Earlier answers do not matter to the verdicts on the parts. */
  lemma PartsAfter(a: Answers, b: Answers, c: Answers, parts: seq<Fingerprint>)
    requires Heard(a, b, None) && Extends(b, c)
    ensures a <= c
    ensures Heard(b, c, None) ==> Heard(a, c, None)
    ensures PartRefused(b, c, parts) ==> PartRefused(a, c, parts)
    ensures Heard(b, c, Some(NotCancelled)) ==> Heard(a, c, Some(NotCancelled))
  {
    HeardExtends(a, b, None);
    if Heard(b, c, None) { HeardBoth(a, b, c, None); }
    if Heard(b, c, Some(NotCancelled)) { HeardBoth(a, b, c, Some(NotCancelled)); }
    if PartRefused(b, c, parts) {
      var i :| 0 <= i < |parts| && RefusesPart(b, c, parts[i]);
      HeardBoth(a, b, c, Some(Contiguous(File(parts[i].name))));
      assert RefusesPart(a, c, parts[i]);
    }
    hide Heard;
  }

  /** The last look at the promoted parts. */
  method CheckAllActive(m: Device, parts: seq<Fingerprint>) returns (r: Outcome)
    modifies m`faults, m`answers
    ensures m.faults <= old(m.faults) && (r.Crashed? ==> m.crashes)
    ensures Extends(old(m.answers), m.answers)
    ensures r.Ok? ==>
              && Heard(old(m.answers), m.answers, None) && PartsChecked(old(m.answers), m.answers, parts, m.ids)
              && forall i :: 0 <= i < |parts| && parts[i].name != UL_CFG ==>
                   Holds(m.files, File(parts[i].name), parts[i].contents)
    ensures r.Thrown? && AllInPlace(m.files, parts) ==>
              || (r.code == IoError && m.faults < old(m.faults))
              || SetRefusal(old(m.answers), m.answers, parts, r.code)
  {
    hide Heard, Inspected, PartRefused, AllInPlace;
    ghost var start := m.answers;
    var proceed := m.Ask(NotCancelled);
    HeardExtends(start, m.answers, if proceed then None else Some(NotCancelled));
    if !proceed { return Thrown(Cancelled); }
    ghost var asked := m.answers;
    r := ValidateParts(m, parts);
    PartsAfter(start, asked, m.answers, parts);
  }

  /** Re-verification of the promoted parts (never of `ul.cfg`) and the commit. */
  method ValidateAll(m: Device, id: JournalId, parts: seq<Fingerprint>, operation: string, entry: Entry)
    returns (r: Outcome, journal: Entry)
    requires id in m.journals && m.journals[id] == entry && entry.state == Promoting
    modifies m`faults, m`journals, m`answers
    ensures m.faults <= old(m.faults)
    ensures OnlyEntry(old(m.journals), m.journals, id)
    ensures !r.Crashed? ==> journal == m.journals[id]
    ensures SameSet(entry, m.journals[id], parts, operation)
    ensures m.journals[id].state in {Promoting, ActiveValidating, Committed, CleanupPending}
    ensures r.Ok? ==> journal.state == CleanupPending
    ensures r.Crashed? ==> m.crashes
    ensures PastCommit(m.journals[id].state) ==> forall i :: 0 <= i < |parts| && parts[i].name != UL_CFG ==>
              Holds(m.files, File(parts[i].name), parts[i].contents)
    // the commit follows the verdicts on the promoted parts, and a refusal is on record
    ensures Extends(old(m.answers), m.answers)
    ensures PastCommit(m.journals[id].state) ==>
              Heard(old(m.answers), m.answers, None) && PartsChecked(old(m.answers), m.answers, parts, m.ids)
    ensures r.Thrown? && AllInPlace(m.files, parts) ==>
              || (r.code == IoError && m.faults < old(m.faults))
              || (SetRefusal(old(m.answers), m.answers, parts, r.code) && journal.state == ActiveValidating)
    ensures r.Thrown? && PastCommit(m.journals[id].state) ==> m.faults < old(m.faults)
  {
    journal := entry;
    var backups := seq(|parts|, i requires 0 <= i < |parts| => Backup(parts[i].name, operation));
    var next :- Transition(m, id, journal.revision, ActiveValidating, SetBackups(backups));
    journal := next;
    hide Heard, PartsChecked, SetRefusal, AllInPlace;
    r := CheckAllActive(m, parts);
    if !r.Ok? { return; }
    ghost var journals := m.journals;
    r, journal := Commit(m, id, journal);
    OnlyEntryBoth(old(m.journals), journals, m.journals, id);
  }

  /** `later` records the same set as `entry`, perhaps with all its backups in order. */
  ghost predicate SameSet(entry: Entry, later: Entry, parts: seq<Fingerprint>, operation: string) {
    && later.operation == entry.operation && later.fingerprints == entry.fingerprints
    && later.intents == entry.intents && later.candidates == entry.candidates
    && (later.backups == entry.backups
        || (|later.backups| == |parts| && forall i :: 0 <= i < |parts| ==>
          later.backups[i] == Backup(parts[i].name, operation)))
  }

  /** Every new copy is in place and the first `i` backups are gone. */
  ghost predicate CleanedTo(files: Files, parts: seq<Fingerprint>, operation: string, i: nat) {
    && AllKept(files, parts, operation)
    && (forall k :: 0 <= k < |parts| ==> File(parts[k].name) in files)
    && (forall k :: 0 <= k < i && k < |parts| ==> Backup(parts[k].name, operation) !in files)
  }

  lemma CleanupStep(files: Files, parts: seq<Fingerprint>, operation: string, i: nat)
    requires i < |parts| && CleanedTo(files, parts, operation, i)
    ensures var gone := files - {Backup(parts[i].name, operation)};
            CleanedTo(gone, parts, operation, i + 1) && SameOthers(files, gone, parts, operation)
  {
    var gone := files - {Backup(parts[i].name, operation)};
    assert Named(parts[i].name, parts);
    forall k | 0 <= k < |parts| ensures KeptPart(gone, parts[k], operation) {
      assert KeptPart(files, parts[k], operation);
    }
  }

  /** Deletes every backup, first part first. */
  method RemoveBackups(m: Device, parts: seq<Fingerprint>, operation: string) returns (r: Outcome)
    requires CleanedTo(m.files, parts, operation, 0)
    modifies m`faults, m`files, m`free
    ensures m.faults <= old(m.faults)
    ensures SameOthers(old(m.files), m.files, parts, operation)
    ensures CleanedTo(m.files, parts, operation, if r.Ok? then |parts| else 0)
    ensures r.Thrown? ==> r.code == IoError && m.faults < old(m.faults)
    ensures m.Space() == old(m.Space())
    ensures r.Crashed? ==> m.crashes
    ensures old(m.faults) == 0 ==> !r.Thrown?
  {
    for i := 0 to |parts|
      invariant m.faults <= old(m.faults) && m.Space() == old(m.Space())
      invariant SameOthers(old(m.files), m.files, parts, operation)
      invariant CleanedTo(m.files, parts, operation, i)
    {
      CleanupStep(m.files, parts, operation, i);
      :- m.Remove(Backup(parts[i].name, operation));
    }
    r := Ok;
  }

  /** Cleanup after the commit. */
  method CleanUpAll(m: Device, id: JournalId, parts: seq<Fingerprint>, operation: string,
                    entry: Entry) returns (r: Outcome)
    requires id in m.journals && m.journals[id] == entry && entry.state == CleanupPending
    requires DistinctNames(parts) && Halfway(m.files, parts, operation, |parts|)
    modifies m`faults, m`files, m`free, m`journals
    ensures m.faults <= old(m.faults)
    ensures OnlyEntry(old(m.journals), m.journals, id)
    ensures m.journals[id] == entry || m.journals[id] == entry.(
              revision := entry.revision + 1, state := CleanupComplete)
    ensures SameOthers(old(m.files), m.files, parts, operation)
    ensures SoundSet(m.files, m.journals[id].state, parts, operation, None)
    ensures r.Ok? <==> m.journals[id].state == CleanupComplete
    ensures r.Thrown? ==> r.code == IoError && m.faults < old(m.faults)
    ensures m.Space() == old(m.Space())
    ensures r.Crashed? ==> m.crashes
    ensures old(m.faults) == 0 ==> !r.Thrown?
  {
    assert CleanedTo(m.files, parts, operation, 0) by {
      assert forall i :: 0 <= i < |parts| ==> InPlace(m.files, parts[i], operation);
    }
    :- RemoveBackups(m, parts, operation);
    var done :- Transition(m, id, entry.revision, CleanupComplete, NoPatch);
    r := Ok;
  }
}
