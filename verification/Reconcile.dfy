/** `reconcile`: what a start-up does with each unfinished journal of the store. */
module Reconciliation {
  import opened Storage
  import opened Journal
  import opened Repair
  import opened Recovery
  import opened Tracking

  /** States that `reconcile` acts on without being asked. */
  predicate Pending(s: State) {
    s in {CommitIntent, Promoting, ActiveValidating, RollbackRequired, RollingBack, Committed, CleanupPending}
  }

  /** `path` is a name a recovery of `entry` reads or changes. */
  ghost predicate Claimed(path: Path, entry: Entry) {
    || !Foreign(path, Parts(entry))
    || (entry.fingerprints != [] && (path == Located(entry).source || path == Located(entry).backup))
  }

  ghost predicate SameUnclaimed(before: Files, after: Files, entry: Entry) {
    forall p :: !Claimed(p, entry) ==> (p in before <==> p in after) && (p in before ==> before[p] == after[p])
  }

  lemma CleanupKeepsSound(before: Files, after: Files, entry: Entry, later: Entry)
    requires WellRecorded(entry) && CleanedUp(before, after, entry)
    requires later == entry.(revision := later.revision, state := later.state)
    requires later.state in {entry.state, CleanupPending, CleanupComplete, RecoveryPending}
    requires entry.state in {Committed, CleanupPending}
    requires later.state == CleanupComplete ==>
              entry.fingerprints != [] && Active(after, Located(entry)) && Located(entry).backup !in after
    ensures SameUnclaimed(before, after, entry)
    ensures RecoverableEntry(before, entry) ==> RecoverableEntry(after, later)
    ensures SoundEntry(before, entry) ==> SoundEntry(after, later)
  {
  }

  /** What the cleanup of a committed repair has to find. */
  ghost predicate CleanupProven(files: Files, entry: Entry, mounted: bool) {
    && mounted && entry.fingerprints != [] && Active(files, Located(entry))
    && (Located(entry).backup in files ==> BackedUp(files, Located(entry)))
  }

  /** The decision about a journal: a committed repair is complete, any other is restored, exactly if
      that is proven; otherwise it waits for the user. */
  ghost predicate RightlyEnded(files: Files, entry: Entry, later: Entry, mounted: bool) {
    if entry.state in {Committed, CleanupPending} then
      later.state == if CleanupProven(files, entry, mounted) then CleanupComplete else RecoveryPending
    else
      later.state == if mounted && Provable(files, entry) && Restorable(entry.state) then Restored else RecoveryPending
  }

  /** One journal of `reconcile`. */
  method ReconcileOne(m: Device, id: JournalId, entry: Entry, mounted: bool) returns (r: Outcome)
    requires id in m.journals && m.journals[id] == entry && WellRecorded(entry)
    modifies m`faults, m`files, m`ids, m`free, m`journals
    ensures m.faults <= old(m.faults)
    ensures OnlyEntry(old(m.journals), m.journals, id)
    ensures m.journals[id] == entry.(revision := m.journals[id].revision, state := m.journals[id].state)
    ensures SameUnclaimed(old(m.files), m.files, entry)
    ensures !Pending(entry.state) ==> m.files == old(m.files) && m.journals[id] == entry && r.Ok?
    ensures !PastCommit(entry.state) ==> KeepsAlive(old(m.files), m.files, Parts(entry))
    ensures RecoverableEntry(old(m.files), entry) ==> RecoverableEntry(m.files, m.journals[id])
    ensures SoundEntry(old(m.files), entry) ==> SoundEntry(m.files, m.journals[id])
    ensures KeepsTracked(old(m.files), m.files, entry, m.journals[id])
    ensures r.Ok? && Pending(entry.state) ==> m.journals[id].state in {Restored, CleanupComplete, RecoveryPending}
    ensures r.Ok? && Pending(entry.state) && old(m.faults) == 0 && mounted && SoundEntry(old(m.files), entry) ==>
              Settled(m.journals[id].state)
    ensures old(m.faults) == 0 && mounted && SoundEntry(old(m.files), entry) && entry.state != RecoveryPending ==>
              m.journals[id].state != RecoveryPending
    ensures r.Ok? && old(m.faults) == 0 && mounted && Pending(entry.state) && !PastCommit(entry.state)
              && Provable(old(m.files), entry) ==>
              m.journals[id].state == Restored
    ensures r.Ok? && Pending(entry.state) && old(m.faults) == 0 ==>
              RightlyEnded(old(m.files), entry, m.journals[id], mounted)
    ensures r.Crashed? ==> m.crashes
    ensures old(m.faults) == 0 ==> !r.Thrown?
  {
    hide OnlyEntry, Provable, Tracks, SafeSet, HomeIfRestored, KeepsTracked, Parts, SoundEntry, RecoverableEntry;
    OneWrite(m.journals, id, entry);
    SoundIsProvable(m.files, entry);
    if entry.state in {Committed, CleanupPending} {
      r := CleanupCommitted(m, id, entry, mounted);
      HasEntry(old(m.journals), m.journals, id);
      CleanupKeepsSound(old(m.files), m.files, entry, m.journals[id]);
      CleanupKeepsTracked(old(m.files), m.files, entry, m.journals[id]);
    } else if Pending(entry.state) {
      r := RestoreSafely(m, id, entry, false, mounted);
      HasEntry(old(m.journals), m.journals, id);
      RestoreKeepsTracked(old(m.files), m.files, entry, m.journals[id]);
    } else {
      r := Ok;
      SameKeepsTracked(m.files, entry);
    }
  }

  /** An unfinished sound repair can be restored or cleaned up. */
  lemma SoundIsProvable(files: Files, entry: Entry)
    ensures SoundEntry(files, entry) && Pending(entry.state) && !PastCommit(entry.state) ==> Provable(files, entry)
    ensures SoundEntry(files, entry) && PastCommit(entry.state) ==>
              && entry.fingerprints != [] && Active(files, Located(entry))
              && (Located(entry).backup in files ==> BackedUp(files, Located(entry)))
  {
    if Single(entry) { SingleParts(entry); }
  }

  /** Every tracked file stays safe, and where it is if the journal says `Restored`. */
  ghost predicate KeepsTracked(before: Files, after: Files, entry: Entry, later: Entry) {
    forall parts :: Tracks(entry, parts) && SafeSet(before, entry, parts) ==>
      && Tracks(later, parts) && SafeSet(after, later, parts)
      && (HomeIfRestored(before, entry, parts) ==> HomeIfRestored(after, later, parts))
  }

  lemma SameKeepsTracked(files: Files, entry: Entry)
    ensures KeepsTracked(files, files, entry, entry)
  {
  }

  lemma CleanupKeepsTracked(before: Files, after: Files, entry: Entry, later: Entry)
    requires CleanedUp(before, after, entry) && entry.state in {Committed, CleanupPending}
    requires later == entry.(revision := later.revision, state := later.state)
    requires later.state in {entry.state, CleanupPending, CleanupComplete, RecoveryPending}
    ensures KeepsTracked(before, after, entry, later)
  {
    hide Tracks, SafeSet, HomeIfRestored, CleanedUp;
    forall parts | Tracks(entry, parts) && SafeSet(before, entry, parts)
      ensures Tracks(later, parts) && SafeSet(after, later, parts) && HomeIfRestored(after, later, parts)
    {
      CleanupKeepsSafe(before, after, entry, later, parts);
    }
  }

  lemma RestoreKeepsTracked(before: Files, after: Files, entry: Entry, later: Entry)
    requires later == entry.(revision := later.revision, state := later.state)
    requires later.state in {entry.state, RollbackRequired, RollingBack, Restored, RecoveryPending}
    requires KeepsAlive(before, after, Parts(entry))
    requires |entry.fingerprints| > 1 && (AllActive(before, Parts(entry)) || !AllBackedUp(before, Parts(entry))) ==>
              after == before
    requires later.state == Restored && entry.state != Restored ==> AllActive(after, Parts(entry))
    ensures KeepsTracked(before, after, entry, later)
  {
    hide SafeSet, HomeIfRestored, KeepsAlive, AllActive, AllBackedUp, Parts;
    forall parts | Tracks(entry, parts) && SafeSet(before, entry, parts)
      ensures Tracks(later, parts) && SafeSet(after, later, parts)
      ensures HomeIfRestored(before, entry, parts) ==> HomeIfRestored(after, later, parts)
    {
      RestoreKeepsSafe(before, after, entry, later, parts);
      if HomeIfRestored(before, entry, parts) { RestoreKeepsHome(before, after, entry, later, parts); }
    }
  }

  ghost predicate SameClaimed(before: Files, after: Files, entry: Entry) {
    forall p :: Claimed(p, entry) ==> (p in before <==> p in after) && (p in before ==> before[p] == after[p])
  }

  /** No file is under the authority of two unfinished journals. */
  ghost predicate Separate(a: Entry, b: Entry) {
    forall p :: !(Claimed(p, a) && Claimed(p, b))
  }

  /** What reconciling one journal guarantees, whatever happened to the others. */
  ghost predicate Reconciled(before: Files, after: Files, entry: Entry, later: Entry) {
    && later == entry.(revision := later.revision, state := later.state)
    && (!PastCommit(entry.state) ==> KeepsAlive(before, after, Parts(entry)))
    && (RecoverableEntry(before, entry) ==> RecoverableEntry(after, later))
    && (SoundEntry(before, entry) ==> SoundEntry(after, later))
    && KeepsTracked(before, after, entry, later)
  }

  lemma ClaimsOfParts(entry: Entry, i: nat)
    requires i < |Parts(entry)|
    ensures Claimed(Parts(entry)[i].source, entry) && Claimed(Parts(entry)[i].backup, entry)
  {
  }

  lemma ReconciledIsLocal(before: Files, before': Files, after: Files, after': Files,
                          entry: Entry, later: Entry)
    requires Reconciled(before, after, entry, later)
    requires SameClaimed(before, before', entry) && SameClaimed(after, after', entry)
    ensures Reconciled(before', after', entry, later)
  {
    forall i | 0 <= i < |Parts(entry)| && !PastCommit(entry.state)
      ensures Alive(before', Parts(entry)[i]) ==> Alive(after', Parts(entry)[i])
    {
      ClaimsOfParts(entry, i);
    }
    if Single(entry) {
      ClaimsOfParts(entry, 0);
      assert Located(entry).backup == Backup(entry.fingerprints[0].name, entry.operation);
    }
    TrackedIsLocal(before, before', after, after', entry, later);
  }

  lemma TrackedIsLocal(before: Files, before': Files, after: Files, after': Files,
                       entry: Entry, later: Entry)
    requires KeepsTracked(before, after, entry, later)
    requires later == entry.(revision := later.revision, state := later.state)
    requires SameClaimed(before, before', entry) && SameClaimed(after, after', entry)
    ensures KeepsTracked(before', after', entry, later)
  {
    hide Tracks;
    forall parts | Tracks(entry, parts) && SafeSet(before', entry, parts)
      ensures Tracks(later, parts) && SafeSet(after', later, parts)
      ensures HomeIfRestored(before', entry, parts) ==> HomeIfRestored(after', later, parts)
    {
      SafeIsLocal(before, before', entry, entry, parts);
      SafeIsLocal(after, after', entry, later, parts);
    }
  }

  lemma PartIsLocal(files: Files, files': Files, entry: Entry, later: Entry, part: Part)
    requires SameClaimed(files, files', entry) && Claimed(part.source, entry) && Claimed(part.backup, entry)
    ensures SafePart(files, later, part) <==> SafePart(files', later, part)
    ensures Active(files, part) <==> Active(files', part)
  {
  }

  lemma SafeIsLocal(files: Files, files': Files, entry: Entry, later: Entry, parts: seq<Fingerprint>)
    requires Tracks(entry, parts) && SameClaimed(files, files', entry)
    requires later == entry.(revision := later.revision, state := later.state)
    ensures SafeSet(files, later, parts) <==> SafeSet(files', later, parts)
    ensures HomeIfRestored(files, later, parts) <==> HomeIfRestored(files', later, parts)
  {
    hide Tracks, Claimed, Parts, Target, SameClaimed, SafePart, Distinct, WellRecorded;
    TrackedParts(entry, parts);
    var ps := Parts(entry);
    forall i | 0 <= i < |parts|
      ensures var part := Target(parts[i], entry.operation);
              && (SafePart(files, later, part) <==> SafePart(files', later, part))
              && (Active(files, part) <==> Active(files', part))
    {
      var k :| 0 <= k < |ps| && ps[k] == Target(parts[i], entry.operation);
      ClaimsOfParts(entry, k);
      PartIsLocal(files, files', entry, later, ps[k]);
    }
  }

  predicate BothPending(a: Entry, b: Entry) { Pending(a.state) && Pending(b.state) }

  /** A listing that names each journal once, with no file under two unfinished ones. */
  ghost predicate Listing(journals: Entries, ids: seq<JournalId>) {
    && (forall k :: 0 <= k < |ids| ==> ids[k] in journals && WellRecorded(journals[ids[k]]))
    && (forall j, k :: 0 <= j < k < |ids| ==> ids[j] != ids[k])
    && forall j, k :: 0 <= j < |ids| && 0 <= k < |ids| && j != k ==>
         BothPending(journals[ids[j]], journals[ids[k]]) ==> Separate(journals[ids[j]], journals[ids[k]])
  }

  /** A journal the loop has passed, and one it has not reached. */
  ghost predicate Done(before: Files, after: Files, entry: Entry, later: Entry) {
    if Pending(entry.state) then Reconciled(before, after, entry, later) else later == entry
  }

  ghost predicate Untouched(before: Files, after: Files, entry: Entry, later: Entry) {
    later == entry && (Pending(entry.state) ==> SameClaimed(before, after, entry))
  }

  /** The first `i` journals of the listing are reconciled, the rest is untouched. */
  ghost predicate Upto(files0: Files, files: Files, journals0: Entries, journals: Entries, ids: seq<JournalId>, i: nat)
    requires forall k :: 0 <= k < |ids| ==> ids[k] in journals0
  {
    && (forall id :: id in journals0 ==> id in journals && (id !in ids ==> journals[id] == journals0[id]))
    && (forall k :: 0 <= k < |ids| ==>
          if k < i then Done(files0, files, journals0[ids[k]], journals[ids[k]])
          else Untouched(files0, files, journals0[ids[k]], journals[ids[k]]))
  }

  ghost predicate SoundPending(files: Files, entry: Entry) { Pending(entry.state) && SoundEntry(files, entry) }

  /** The first `i` sound repairs of the listing have ended. */
  ghost predicate SettledUpto(files0: Files, journals0: Entries, journals: Entries, ids: seq<JournalId>, i: nat) {
    forall k :: 0 <= k < i && k < |ids| && ids[k] in journals0 && SoundPending(files0, journals0[ids[k]]) ==>
      ids[k] in journals && Settled(journals[ids[k]].state)
  }

  /** The first `i` journals of the listing have been decided rightly. */
  ghost predicate RightlyUpto(files0: Files, journals0: Entries, journals: Entries, ids: seq<JournalId>, i: nat,
                              mounted: bool)
  {
    forall k :: 0 <= k < i && k < |ids| && ids[k] in journals0 && Pending(journals0[ids[k]].state) ==>
      ids[k] in journals && RightlyEnded(files0, journals0[ids[k]], journals[ids[k]], mounted)
  }

  /** A decision depends on the claimed names only. */
  lemma DecisionIsLocal(before: Files, after: Files, entry: Entry)
    requires SameClaimed(before, after, entry)
    ensures Provable(before, entry) <==> Provable(after, entry)
    ensures forall mounted :: CleanupProven(before, entry, mounted) <==> CleanupProven(after, entry, mounted)
  {
    forall i | 0 <= i < |Parts(entry)|
      ensures Active(before, Parts(entry)[i]) <==> Active(after, Parts(entry)[i])
      ensures BackedUp(before, Parts(entry)[i]) <==> BackedUp(after, Parts(entry)[i])
      ensures Parts(entry)[i].backup in before <==> Parts(entry)[i].backup in after
    {
      ClaimsOfParts(entry, i);
    }
    hide Parts, Located;
  }

  /** What one journal claims is not touched by another. */
  lemma OthersKeepClaims(files1: Files, files2: Files, journals: Entries, ids: seq<JournalId>, i: nat)
    requires Listing(journals, ids) && i < |ids| && SameUnclaimed(files1, files2, journals[ids[i]])
    requires !Pending(journals[ids[i]].state) ==> files2 == files1
    ensures forall k :: 0 <= k < |ids| && k != i && Pending(journals[ids[k]].state) ==>
              SameClaimed(files1, files2, journals[ids[k]])
    ensures forall k :: 0 <= k < |ids| ==> SameClaimed(files2, files2, journals[ids[k]])
    ensures forall k :: 0 <= k < |ids| ==> SameClaimed(files1, files1, journals[ids[k]])
  {
    hide Claimed, WellRecorded;
    forall k | 0 <= k < |ids| && k != i && Pending(journals[ids[k]].state)
      ensures SameClaimed(files1, files2, journals[ids[k]])
    {
      if Pending(journals[ids[i]].state) {
        assert Separate(journals[ids[k]], journals[ids[i]]);
      }
    }
  }

  /** One more journal reconciled; the others keep what they had. */
  lemma Progress(files0: Files, files1: Files, files2: Files,
                 journals0: Entries, journals1: Entries, journals2: Entries, ids: seq<JournalId>, i: nat)
    requires Listing(journals0, ids) && i < |ids|
    requires Upto(files0, files1, journals0, journals1, ids, i)
    requires OnlyEntry(journals1, journals2, ids[i]) && SameUnclaimed(files1, files2, journals0[ids[i]])
    requires !Pending(journals0[ids[i]].state) ==> files2 == files1 && journals2[ids[i]] == journals1[ids[i]]
    requires Pending(journals0[ids[i]].state) ==> Reconciled(files1, files2, journals0[ids[i]], journals2[ids[i]])
    ensures Upto(files0, files2, journals0, journals2, ids, i + 1)
  {
    hide Done, Untouched, Pending, SameClaimed, SameUnclaimed, Reconciled, OnlyEntry;
    hide WellRecorded, BothPending, Separate;
    OthersKeepClaims(files1, files2, journals0, ids, i);
    OthersStay(journals0, journals1, journals2, ids, i);
    forall k | 0 <= k < |ids|
      ensures if k < i + 1 then Done(files0, files2, journals0[ids[k]], journals2[ids[k]])
              else Untouched(files0, files2, journals0[ids[k]], journals2[ids[k]])
    {
      if k == i {
        OneDone(files0, files1, files2, journals0[ids[i]], journals1[ids[i]], journals2[ids[i]]);
      } else {
        OneStays(files0, files1, files2, journals0[ids[k]], journals1[ids[k]]);
      }
    }
  }

  lemma OthersStay(journals0: Entries, journals1: Entries, journals2: Entries, ids: seq<JournalId>, i: nat)
    requires Listing(journals0, ids) && i < |ids| && OnlyEntry(journals1, journals2, ids[i])
    requires forall id :: id in journals0 ==> id in journals1
    ensures forall id :: id in journals0 ==> id in journals2 && (id !in ids ==> journals2[id] == journals1[id])
    ensures forall k :: 0 <= k < |ids| && k != i ==> ids[k] in journals0 && journals2[ids[k]] == journals1[ids[k]]
  {
    hide Separate, WellRecorded, Pending;
  }

  lemma OneDone(files0: Files, files1: Files, files2: Files, entry: Entry, now: Entry, later: Entry)
    requires Untouched(files0, files1, entry, now)
    requires if Pending(entry.state) then Reconciled(files1, files2, entry, later) else later == now
    ensures Done(files0, files2, entry, later)
  {
    hide Reconciled, SameClaimed;
    if Pending(entry.state) {
      SameClaims(files0, files1, entry);
      SameClaims(files2, files2, entry);
      ReconciledIsLocal(files1, files0, files2, files2, entry, later);
    }
  }

  lemma SameClaims(a: Files, b: Files, entry: Entry)
    ensures a == b || SameClaimed(a, b, entry) ==> SameClaimed(b, a, entry)
  {
  }

  lemma OneStays(files0: Files, files1: Files, files2: Files, entry: Entry, later: Entry)
    requires Pending(entry.state) ==> SameClaimed(files1, files2, entry)
    ensures Done(files0, files1, entry, later) ==> Done(files0, files2, entry, later)
    ensures Untouched(files0, files1, entry, later) ==> Untouched(files0, files2, entry, later)
  {
    hide Reconciled;
    if Pending(entry.state) && Reconciled(files0, files1, entry, later) {
      SameClaims(files0, files0, entry);
      ReconciledIsLocal(files0, files0, files1, files2, entry, later);
    }
  }

  lemma SoundIsLocal(before: Files, after: Files, entry: Entry)
    requires SameClaimed(before, after, entry)
    ensures SoundEntry(before, entry) ==> SoundEntry(after, entry)
    ensures RecoverableEntry(before, entry) ==> RecoverableEntry(after, entry)
  {
    if Single(entry) {
      ClaimsOfParts(entry, 0);
      assert Located(entry).backup == Backup(entry.fingerprints[0].name, entry.operation);
    }
  }

  /** `reconcile`: every unfinished journal of the listing, in listing order.  Whatever
      happens, each keeps its guarantees and no other journal changes; an undisturbed
      run ends every sound repair. */
  method Reconcile(m: Device, ids: seq<JournalId>, mounted: bool) returns (r: Outcome)
    requires Listing(m.journals, ids)
    modifies m`faults, m`files, m`ids, m`free, m`journals
    ensures m.faults <= old(m.faults)
    ensures exists i: nat :: i <= |ids| && Upto(old(m.files), m.files, old(m.journals), m.journals, ids, i)
    ensures r.Ok? ==> Upto(old(m.files), m.files, old(m.journals), m.journals, ids, |ids|)
    ensures r.Ok? && old(m.faults) == 0 && mounted ==>
              SettledUpto(old(m.files), old(m.journals), m.journals, ids, |ids|)
    // every unfinished journal is decided rightly, of whatever kind it is
    ensures r.Ok? && old(m.faults) == 0 ==>
              RightlyUpto(old(m.files), old(m.journals), m.journals, ids, |ids|, mounted)
    ensures r.Crashed? ==> m.crashes
    ensures old(m.faults) == 0 ==> !r.Thrown?
  {
    hide RightlyUpto, RightlyEnded, SettledUpto, CleanupProven, Provable, SoundEntry, RecoverableEntry, SameClaimed;
    hide OnlyEntry, SameUnclaimed, WellRecorded, KeepsTracked, KeepsAlive;
    ghost var files0, journals0 := m.files, m.journals;
    NothingDecided(files0, journals0, ids, mounted);
    for i := 0 to |ids|
      invariant m.faults <= old(m.faults)
      invariant Upto(files0, m.files, journals0, m.journals, ids, i)
      invariant old(m.faults) == 0 && mounted ==> SettledUpto(files0, journals0, m.journals, ids, i)
      invariant old(m.faults) == 0 ==> RightlyUpto(files0, journals0, m.journals, ids, i, mounted)
    {
      var id := ids[i];
      var entry := m.journals[id];
      ghost var files1, journals1 := m.files, m.journals;
      if Pending(entry.state) {
        SoundIsLocal(files0, m.files, entry);
        DecisionIsLocal(files0, m.files, entry);
      }
      r := ReconcileOne(m, id, entry, mounted);
      Progress(files0, files1, m.files, journals0, journals1, m.journals, ids, i);
      if !r.Ok? { return; }
      OneMoreDecided(files0, files1, journals0, journals1, m.journals, ids, i, mounted);
    }
    r := Ok;
  }

  lemma NothingDecided(files: Files, journals: Entries, ids: seq<JournalId>, mounted: bool)
    requires Listing(journals, ids)
    ensures Upto(files, files, journals, journals, ids, 0)
    ensures SettledUpto(files, journals, journals, ids, 0) && RightlyUpto(files, journals, journals, ids, 0, mounted)
  {
    forall k | 0 <= k < |ids| ensures SameClaimed(files, files, journals[ids[k]]) { }
  }

  lemma OneMoreDecided(files0: Files, files1: Files, journals0: Entries, journals1: Entries, journals2: Entries,
                       ids: seq<JournalId>, i: nat, mounted: bool)
    requires Listing(journals0, ids) && i < |ids| && ids[i] in journals1 && journals1[ids[i]] == journals0[ids[i]]
    requires OnlyEntry(journals1, journals2, ids[i])
    requires Pending(journals0[ids[i]].state) ==> SameClaimed(files0, files1, journals0[ids[i]])
    ensures SettledUpto(files0, journals0, journals1, ids, i)
              && (Pending(journals0[ids[i]].state) && SoundEntry(files1, journals0[ids[i]]) ==>
                    Settled(journals2[ids[i]].state)) ==>
              SettledUpto(files0, journals0, journals2, ids, i + 1)
    ensures RightlyUpto(files0, journals0, journals1, ids, i, mounted)
              && (Pending(journals0[ids[i]].state) ==>
                    RightlyEnded(files1, journals0[ids[i]], journals2[ids[i]], mounted)) ==>
              RightlyUpto(files0, journals0, journals2, ids, i + 1, mounted)
  {
    var entry := journals0[ids[i]];
    if Pending(entry.state) {
      SoundIsLocal(files0, files1, entry);
      EndIsLocal(files0, files1, entry, journals2[ids[i]], mounted);
    }
    OnlyOne(journals0, journals1, journals2, ids, i);
    hide *;
    Decided(files0, journals0, journals1, journals2, ids, i, mounted);
  }

  lemma EndIsLocal(before: Files, after: Files, entry: Entry, later: Entry, mounted: bool)
    requires SameClaimed(before, after, entry)
    ensures RightlyEnded(before, entry, later, mounted) <==> RightlyEnded(after, entry, later, mounted)
  {
    DecisionIsLocal(before, after, entry);
    hide Provable, CleanupProven, SameClaimed;
  }

  lemma OnlyOne(journals0: Entries, journals1: Entries, journals2: Entries, ids: seq<JournalId>, i: nat)
    requires Listing(journals0, ids) && i < |ids| && OnlyEntry(journals1, journals2, ids[i])
    ensures ids[i] in journals2
    ensures forall k :: 0 <= k < i && ids[k] in journals1 ==>
              ids[k] in journals2 && journals2[ids[k]] == journals1[ids[k]]
  {
    hide Separate, WellRecorded, BothPending;
  }

  lemma Decided(files0: Files, journals0: Entries, journals1: Entries, journals2: Entries, ids: seq<JournalId>, i: nat,
                mounted: bool)
    requires i < |ids| && ids[i] in journals0 && ids[i] in journals2
    requires forall k :: 0 <= k < i && ids[k] in journals1 ==>
               ids[k] in journals2 && journals2[ids[k]] == journals1[ids[k]]
    ensures SettledUpto(files0, journals0, journals1, ids, i)
              && (SoundPending(files0, journals0[ids[i]]) ==> Settled(journals2[ids[i]].state)) ==>
              SettledUpto(files0, journals0, journals2, ids, i + 1)
    ensures RightlyUpto(files0, journals0, journals1, ids, i, mounted)
              && (Pending(journals0[ids[i]].state) ==>
                    RightlyEnded(files0, journals0[ids[i]], journals2[ids[i]], mounted)) ==>
              RightlyUpto(files0, journals0, journals2, ids, i + 1, mounted)
  {
    hide SoundPending, RightlyEnded, Settled, Pending;
  }
}
