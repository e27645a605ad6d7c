/** The whole life of a repair: a run that may die anywhere, then any number of
    recoveries that may die anywhere, in any order. */
module Lifecycle {
  import opened Storage
  import opened Journal
  import opened Repair
  import opened Multipart
  import opened MultipartRun
  import opened Execution
  import opened Recovery
  import opened Tracking
  import opened Reconciliation

  datatype Action = Reconcile | Recover | RestoreOriginal | DropResidue

  /** One later process: what it is asked to do and what may go wrong meanwhile. */
  datatype Attempt = Attempt(action: Action, faults: nat, crashes: bool, mounted: bool)

  /** `recover`: one journal at once, whatever its state. */
  method RecoverOne(m: Device, id: JournalId, mounted: bool) returns (r: Outcome)
    requires id in m.journals && WellRecorded(m.journals[id])
    modifies m`faults, m`files, m`ids, m`free, m`journals
    ensures m.faults <= old(m.faults)
    ensures OnlyEntry(old(m.journals), m.journals, id)
    ensures m.journals[id] == old(m.journals)[id].(revision := m.journals[id].revision, state := m.journals[id].state)
    ensures RecoverableEntry(old(m.files), old(m.journals)[id]) ==> RecoverableEntry(m.files, m.journals[id])
    ensures SoundEntry(old(m.files), old(m.journals)[id]) ==> SoundEntry(m.files, m.journals[id])
    ensures KeepsTracked(old(m.files), m.files, old(m.journals)[id], m.journals[id])
    ensures !PastCommit(old(m.journals)[id].state) ==> KeepsAlive(old(m.files), m.files, Parts(old(m.journals)[id]))
    // and the journal ends as `reconcile` would end it
    ensures r.Ok? ==> m.journals[id].state in {Restored, CleanupComplete, RecoveryPending}
    ensures r.Ok? && old(m.faults) == 0 ==> RightlyEnded(old(m.files), old(m.journals)[id], m.journals[id], mounted)
    ensures old(m.faults) == 0 ==> !r.Thrown?
  {
    hide KeepsTracked, RecoverableEntry, SoundEntry, OnlyEntry;
    var entry := m.journals[id];
    if entry.state in {Committed, CleanupPending} {
      r := CleanupCommitted(m, id, entry, mounted);
      HasEntry(old(m.journals), m.journals, id);
      CleanupKeepsSound(old(m.files), m.files, entry, m.journals[id]);
      CleanupKeepsTracked(old(m.files), m.files, entry, m.journals[id]);
    } else {
      r := RestoreSafely(m, id, entry, false, mounted);
      HasEntry(old(m.journals), m.journals, id);
      RestoreKeepsTracked(old(m.files), m.files, entry, m.journals[id]);
    }
  }

  /** The user has confirmed, and saw the journal as it is. */
  predicate AsAsked(journals: Entries, id: JournalId, revision: nat, confirmed: bool) {
    confirmed && id in journals && journals[id].revision == revision
  }

  /** `resolve`: what the user explicitly asked for, at the revision the user saw. */
  method Resolve(m: Device, id: JournalId, revision: nat, confirmed: bool, restore: bool,
                 mounted: bool) returns (r: Outcome)
    requires id in m.journals ==> WellRecorded(m.journals[id])
    requires id in m.journals && m.journals[id].fingerprints != [] ==>
              Located(m.journals[id]).source !in Residue(m.journals[id])
    modifies m`faults, m`files, m`ids, m`free, m`journals
    ensures m.faults <= old(m.faults)
    ensures !confirmed || id !in old(m.journals) || old(m.journals)[id].revision != revision ==>
              r.Thrown? && m.files == old(m.files) && m.journals == old(m.journals)
    ensures id in old(m.journals) ==>
              && OnlyEntry(old(m.journals), m.journals, id)
              && var now := m.journals[id]; now == old(m.journals)[id].(revision := now.revision, state := now.state)
    ensures id in old(m.journals) && RecoverableEntry(old(m.files), old(m.journals)[id]) ==>
              RecoverableEntry(m.files, m.journals[id])
    ensures id in old(m.journals) ==>
              if restore then KeepsTracked(old(m.files), m.files, old(m.journals)[id], m.journals[id])
              else KeepsTrackedApart(old(m.files), m.files, old(m.journals)[id], m.journals[id])
    ensures (&& id in old(m.journals) && confirmed && restore && mounted
              && revision == old(m.journals)[id].revision && old(m.Quiet())
             && Restorable(old(m.journals)[id].state) && Provable(old(m.files), old(m.journals)[id])) ==>
              r.Ok? && m.journals[id].state == Restored
    // a restore is the decision of `restoreSafely`, and puts back the backup itself
    ensures AsAsked(old(m.journals), id, revision, confirmed) && restore && r.Ok? && old(m.faults) == 0 ==>
              m.journals[id].state == if mounted && Provable(old(m.files), old(m.journals)[id])
                                         && Restorable(old(m.journals)[id].state) then Restored else RecoveryPending
    ensures AsAsked(old(m.journals), id, revision, confirmed) && restore && r.Ok? && m.journals[id].state == Restored
              && |old(m.journals)[id].fingerprints| == 1 ==>
              var part := Parts(old(m.journals)[id])[0];
              m.ids.Of(part.source) == RestoredFile(old(m.files), old(m.ids), part, true)
    // dropping residue needs the first file proven, and then removes all that is beside it
    ensures AsAsked(old(m.journals), id, revision, confirmed) && !restore ==>
              var entry := old(m.journals)[id];
              if mounted && entry.fingerprints != [] && Active(old(m.files), Located(entry)) then
                && (old(m.Quiet()) ==> r.Ok?)
                && (r.Ok? ==>
                      && m.files == old(m.files) - Residue(entry)
                      && m.journals[id].state == if entry.state == CleanupPending then CleanupComplete
                                                 else if Restorable(entry.state) then Restored else RecoveryPending)
              else
                !r.Ok? && m.files == old(m.files) && m.journals == old(m.journals)
  {
    hide KeepsTracked, KeepsTrackedApart, RecoverableEntry, OnlyEntry, Provable, WellRecorded, Residue, SameExcept;
    if id in m.journals {
      OneWrite(m.journals, id, m.journals[id]);
      SameKeepsTracked(m.files, m.journals[id]);
      SameKeepsTrackedApart(m.files, m.journals[id]);
    }
    if !confirmed { return Thrown(ConfirmationRequired); }
    if id !in m.journals { return Thrown(JournalNotFound); }
    var entry := m.journals[id];
    if entry.revision != revision { return Thrown(StaleRevision); }
    if restore {
      RecordedApart(entry);
      r := RestoreSafely(m, id, entry, true, mounted);
      HasEntry(old(m.journals), m.journals, id);
      RestoreKeepsTracked(old(m.files), m.files, entry, m.journals[id]);
    } else {
      r := CleanupVerifiedResidue(m, id, entry, mounted);
      HasEntry(old(m.journals), m.journals, id);
      ResidueKeepsTracked(old(m.files), m.files, entry, m.journals[id]);
    }
  }

  lemma RecordedApart(entry: Entry)
    requires WellRecorded(entry)
    ensures Distinct(Parts(entry))
  {
  }

  /** Every tracked file stays safe if the leftovers beside the first file are not another file's. */
  ghost predicate KeepsTrackedApart(before: Files, after: Files, entry: Entry, later: Entry) {
    forall parts :: Tracks(entry, parts) && SafeSet(before, entry, parts) && ResidueApart(entry.fingerprints, parts) ==>
      Tracks(later, parts) && SafeSet(after, later, parts)
  }

  lemma SameKeepsTrackedApart(files: Files, entry: Entry)
    ensures KeepsTrackedApart(files, files, entry, entry)
  {
  }

  /** What dropping residue may do to a device. */
  ghost predicate Dropped(before: Files, after: Files, entry: Entry) {
    || after == before
    || (&& entry.fingerprints != [] && Active(before, Located(entry)) && SameExcept(before, after, Residue(entry))
        && forall p :: p in after ==> p in before && after[p] == before[p])
  }

  lemma ResidueKeepsTracked(before: Files, after: Files, entry: Entry, later: Entry)
    requires Dropped(before, after, entry)
    requires later == entry.(revision := later.revision, state := later.state)
    requires later.state == entry.state
             || if entry.state == CleanupPending then later.state == CleanupComplete
                else later.state in {RollbackRequired, RollingBack, Restored, RecoveryPending}
    requires later.state == entry.state || (entry.fingerprints != [] && Located(entry).backup !in after)
    ensures KeepsTrackedApart(before, after, entry, later)
    ensures RecoverableEntry(before, entry) ==> RecoverableEntry(after, later)
  {
    hide Tracks, SafeSet, ResidueApart;
    forall parts | Tracks(entry, parts) && SafeSet(before, entry, parts) && ResidueApart(entry.fingerprints, parts)
      ensures Tracks(later, parts) && SafeSet(after, later, parts)
    {
      ResidueKeepsSafe(before, after, entry, later, parts);
    }
    if Single(entry) { SingleParts(entry); }
  }

  /** One later process under its own faults and crashes. */
  method Try(m: Device, id: JournalId, a: Attempt)
    requires id in m.journals && RecoverableEntry(m.files, m.journals[id])
    modifies m`faults, m`crashes, m`files, m`ids, m`free, m`journals
    ensures id in m.journals && RecoverableEntry(m.files, m.journals[id])
    ensures m.journals[id] == old(m.journals)[id].(revision := m.journals[id].revision, state := m.journals[id].state)
    ensures Unattended(a) && SoundEntry(old(m.files), old(m.journals)[id]) ==> SoundEntry(m.files, m.journals[id])
    ensures (&& Unattended(a) && a.faults == 0 && a.mounted && SoundEntry(old(m.files), old(m.journals)[id])
             && old(m.journals)[id].state != RecoveryPending) ==>
              m.journals[id].state != RecoveryPending
  {
    m.faults, m.crashes := a.faults, a.crashes;
    var entry := m.journals[id];
    var r;
    match a.action
    case Reconcile => r := ReconcileOne(m, id, entry, a.mounted);
    case Recover => r := RecoverOne(m, id, a.mounted);
    case RestoreOriginal => r := Resolve(m, id, entry.revision, true, true, a.mounted);
    case DropResidue => r := Resolve(m, id, entry.revision, true, false, a.mounted);
  }

  /** The automatic recovery of a start-up. */
  predicate Unattended(a: Attempt) { a.action == Reconcile }

  predicate CrashesOnly(attempts: seq<Attempt>) {
    forall a :: a in attempts ==> Unattended(a) && a.faults == 0 && a.mounted
  }

  /** The user never drops residue, or what lies beside the first file is no other file's. */
  ghost predicate ResidueSpares(attempts: seq<Attempt>, fingerprints: seq<Fingerprint>, parts: seq<Fingerprint>) {
    KeepsResidue(attempts) || ResidueApart(fingerprints, parts)
  }

  predicate KeepsResidue(attempts: seq<Attempt>) { forall a :: a in attempts ==> a.action != DropResidue }

  /** The later processes of a journal with several fingerprints, whatever its state: no
      tracked file is lost, and a journal that says `Restored` says so of files in place
      unless the user has dropped residue. */
  method LiveOn(m: Device, id: JournalId, attempts: seq<Attempt>, ghost parts: seq<Fingerprint>)
    requires id in m.journals && Tracks(m.journals[id], parts) && SafeSet(m.files, m.journals[id], parts)
    requires ResidueSpares(attempts, m.journals[id].fingerprints, parts)
    modifies m`faults, m`crashes, m`files, m`ids, m`free, m`journals
    ensures id in m.journals
    ensures m.journals[id] == old(m.journals)[id].(revision := m.journals[id].revision, state := m.journals[id].state)
    ensures Tracks(m.journals[id], parts) && SafeSet(m.files, m.journals[id], parts)
    ensures KeepsResidue(attempts) && HomeIfRestored(old(m.files), old(m.journals)[id], parts) ==>
              HomeIfRestored(m.files, m.journals[id], parts)
  {
    ghost var entry := m.journals[id];
    hide Tracks, SafeSet, HomeIfRestored, ResidueApart;
    for i := 0 to |attempts|
      invariant id in m.journals
      invariant m.journals[id] == entry.(revision := m.journals[id].revision, state := m.journals[id].state)
      invariant Tracks(m.journals[id], parts) && SafeSet(m.files, m.journals[id], parts)
      invariant KeepsResidue(attempts) && HomeIfRestored(old(m.files), entry, parts) ==>
                  HomeIfRestored(m.files, m.journals[id], parts)
    {
      assert attempts[i] in attempts;
      TryTracked(m, id, attempts[i], parts);
    }
  }

  method TryTracked(m: Device, id: JournalId, a: Attempt, ghost parts: seq<Fingerprint>)
    requires id in m.journals && Tracks(m.journals[id], parts) && SafeSet(m.files, m.journals[id], parts)
    requires a.action == DropResidue ==> ResidueApart(m.journals[id].fingerprints, parts)
    modifies m`faults, m`crashes, m`files, m`ids, m`free, m`journals
    ensures id in m.journals
    ensures m.journals[id] == old(m.journals)[id].(revision := m.journals[id].revision, state := m.journals[id].state)
    ensures Tracks(m.journals[id], parts) && SafeSet(m.files, m.journals[id], parts)
    ensures a.action != DropResidue && HomeIfRestored(old(m.files), old(m.journals)[id], parts) ==>
              HomeIfRestored(m.files, m.journals[id], parts)
  {
    hide Tracks, SafeSet, HomeIfRestored, ResidueApart, WellRecorded, Residue, OnlyEntry;
    m.faults, m.crashes := a.faults, a.crashes;
    var entry := m.journals[id];
    TrackedParts(entry, parts);
    TrackedResidue(entry, parts);
    var r;
    match a.action {
      case Reconcile => r := ReconcileOne(m, id, entry, a.mounted);
      case Recover => r := RecoverOne(m, id, a.mounted);
      case RestoreOriginal => r := Resolve(m, id, entry.revision, true, true, a.mounted);
      case DropResidue => r := Resolve(m, id, entry.revision, true, false, a.mounted);
    }
    HasEntry(old(m.journals), m.journals, id);
  }

  /** Residue consists of backups and candidates. */
  lemma TrackedResidue(entry: Entry, parts: seq<Fingerprint>)
    requires Tracks(entry, parts)
    ensures entry.fingerprints != [] ==> Located(entry).source !in Residue(entry)
  {
  }

  /** Before the run: the image that is to be rewritten, with the fingerprints of whatever
      else the diagnosis found, each file once. */
  ghost predicate Starts(m: Device, id: JournalId, operation: string, item: Item, attempts: seq<Attempt>,
                         t: Fingerprint)
    reads m
  {
    && Fresh(m.files, operation, item.files) && id !in m.journals
    && SingleTarget(item) == Some(t) && DistinctNames(item.fingerprints) && Holds(m.files, File(t.name), t.contents)
    && ResidueSpares(attempts, item.fingerprints, [t])
  }

  /** After any ending of `Execute` the journal tracks the image, or is that of one file. */
  lemma ExecutedIsTracked(before: Files, after: Files, journals: Entries, id: JournalId,
                          operation: string, item: Item, t: Fingerprint, orphan: Option<nat>)
    requires Accounted(before, after, journals, id, operation, item, [], orphan) && id in journals
    requires SingleTarget(item) == Some(t) && DistinctNames(item.fingerprints)
    requires Holds(before, File(t.name), t.contents)
    ensures t in item.fingerprints
    ensures |item.fingerprints| == 1 ==> item.fingerprints == [t] && SoundEntry(after, journals[id])
    ensures |item.fingerprints| > 1 ==>
              && Tracks(journals[id], [t]) && SafeSet(after, journals[id], [t])
              && HomeIfRestored(after, journals[id], [t])
  {
    FoundIsListed(item.fingerprints, item.files[0]);
    if |item.fingerprints| > 1 { OneAffected(item.fingerprints, t); }
  }

  lemma {:induction false} FoundIsListed(fingerprints: seq<Fingerprint>, name: string)
    ensures Find(fingerprints, name).Some? ==> Find(fingerprints, name).value in fingerprints
  {
    if fingerprints != [] { FoundIsListed(fingerprints[1..], name); }
  }

  /** Safety over whole runs.  A repair runs under any faults and crashes, then any
      sequence of recoveries does; since the sequence is arbitrary and each of its
      members may end anywhere, this is the state at every moment: the original
      bytes are under the source or the backup name. */
  method Live(m: Device, id: JournalId, operation: string, item: Item, leq: (string, string) -> bool,
              attempts: seq<Attempt>,
              ghost t: Fingerprint)
    requires Starts(m, id, operation, item, attempts, t)
    modifies m
    ensures Holds(m.files, File(t.name), t.contents) || Holds(m.files, Backup(t.name, operation), t.contents)
    ensures id !in m.journals ==> m.files == old(m.files)
    ensures id in m.journals ==>
              m.journals[id].operation == operation && m.journals[id].fingerprints == item.fingerprints
    ensures id in m.journals && |item.fingerprints| == 1 ==>
              && RecoverableEntry(m.files, m.journals[id])
              && (old(m.faults) == 0 && CrashesOnly(attempts) ==>
                    SoundEntry(m.files, m.journals[id]) && m.journals[id].state != RecoveryPending)
    ensures id in m.journals && |item.fingerprints| > 1 ==>
              && Tracks(m.journals[id], [t]) && SafeSet(m.files, m.journals[id], [t])
              && (KeepsResidue(attempts) ==> HomeIfRestored(m.files, m.journals[id], [t]))
  {
    hide Tracks, SafeSet, HomeIfRestored, Accounted, ResidueApart, DistinctNames, SoundEntry, RecoverableEntry, Fresh;
    ghost var before := m.files;
    var r, modified, parts, orphan := Execute(m, id, operation, item, leq);
    if id !in m.journals {
      NothingRan(before, m.files, m.journals, id, operation, item, parts, orphan);
      return;
    }
    SameEntry(before, m.files, m.journals, id, operation, item, parts, orphan);
    ExecutedIsTracked(before, m.files, m.journals, id, operation, item, t, orphan);
    if |item.fingerprints| == 1 {
      LiveOnSingle(m, id, attempts);
      OneFileAlive(m.files, m.journals[id]);
    } else {
      LiveOn(m, id, attempts, [t]);
      TargetAlive(m.files, m.journals[id], t);
    }
  }

  lemma NothingRan(before: Files, after: Files, journals: Entries, id: JournalId,
                   operation: string, item: Item, parts: seq<Fingerprint>, orphan: Option<nat>)
    requires Accounted(before, after, journals, id, operation, item, parts, orphan) && id !in journals
    ensures after == before
  {
  }

  /** A run over one image leaves a journal of its own; no set of parts plays a role. */
  lemma SameEntry(before: Files, after: Files, journals: Entries, id: JournalId,
                  operation: string, item: Item, parts: seq<Fingerprint>, orphan: Option<nat>)
    requires Accounted(before, after, journals, id, operation, item, parts, orphan) && id in journals
    requires SingleTarget(item).Some?
    ensures journals[id].operation == operation && journals[id].fingerprints == item.fingerprints
    ensures Accounted(before, after, journals, id, operation, item, [], orphan)
  {
  }

  lemma OneFileAlive(files: Files, entry: Entry)
    requires RecoverableEntry(files, entry)
    ensures var t := entry.fingerprints[0];
            Holds(files, File(t.name), t.contents) || Holds(files, Backup(t.name, entry.operation), t.contents)
  {
  }

  lemma TargetAlive(files: Files, entry: Entry, t: Fingerprint)
    requires SafeSet(files, entry, [t])
    ensures Holds(files, File(t.name), t.contents) || Holds(files, Backup(t.name, entry.operation), t.contents)
  {
    assert SafePart(files, entry, Target([t][0], entry.operation));
  }

  /** The later processes of a journal with one fingerprint. */
  method LiveOnSingle(m: Device, id: JournalId, attempts: seq<Attempt>)
    requires id in m.journals && SoundEntry(m.files, m.journals[id])
    modifies m`faults, m`crashes, m`files, m`ids, m`free, m`journals
    ensures id in m.journals && RecoverableEntry(m.files, m.journals[id])
    ensures m.journals[id] == old(m.journals)[id].(revision := m.journals[id].revision, state := m.journals[id].state)
    ensures CrashesOnly(attempts) && old(m.journals)[id].state != RecoveryPending ==>
              SoundEntry(m.files, m.journals[id]) && m.journals[id].state != RecoveryPending
  {
    ghost var entry := m.journals[id];
    for i := 0 to |attempts|
      invariant id in m.journals && RecoverableEntry(m.files, m.journals[id])
      invariant m.journals[id] == entry.(revision := m.journals[id].revision, state := m.journals[id].state)
      invariant CrashesOnly(attempts) && entry.state != RecoveryPending ==>
                  SoundEntry(m.files, m.journals[id]) && m.journals[id].state != RecoveryPending
    {
      assert attempts[i] in attempts;
      Try(m, id, attempts[i]);
    }
  }

  /** An undisturbed start-up, and the user where the journal then still waits. */
  method Conclude(m: Device, id: JournalId) returns (asked: bool)
    requires id in m.journals && RecoverableEntry(m.files, m.journals[id])
    modifies m`faults, m`crashes, m`files, m`ids, m`free, m`journals
    ensures id in m.journals && m.journals[id].fingerprints == old(m.journals)[id].fingerprints
    ensures m.journals[id].operation == old(m.journals)[id].operation && RecoverableEntry(m.files, m.journals[id])
    ensures Settled(m.journals[id].state) || Early(m.journals[id].state)
    ensures SoundEntry(old(m.files), old(m.journals)[id]) && old(m.journals)[id].state != RecoveryPending ==> !asked
  {
    asked := false;
    m.faults, m.crashes := 0, false;
    var r := ReconcileOne(m, id, m.journals[id], true);
    if m.journals[id].state == RecoveryPending {
      asked := true;
      r := Resolve(m, id, m.journals[id].revision, true, true, true);
    }
  }

  /** The same for a journal with several fingerprints. */
  method ConcludeTracked(m: Device, id: JournalId, ghost t: Fingerprint, ghost home: bool) returns (asked: bool)
    requires id in m.journals && Tracks(m.journals[id], [t]) && SafeSet(m.files, m.journals[id], [t])
    requires home ==> HomeIfRestored(m.files, m.journals[id], [t])
    modifies m`faults, m`crashes, m`files, m`ids, m`free, m`journals
    ensures home ==> Holds(m.files, File(t.name), t.contents)
  {
    hide Tracks, SafeSet, HomeIfRestored, WellRecorded, Residue, OnlyEntry, Provable;
    asked := false;
    m.faults, m.crashes := 0, false;
    ghost var entry := m.journals[id];
    TrackedParts(entry, [t]);
    if entry.intents != [] { OnePartIsProvable(m.files, entry, t); }
    var r := ReconcileOne(m, id, m.journals[id], true);
    HasEntry(old(m.journals), m.journals, id);
    if m.journals[id].state == RecoveryPending {
      asked := true;
      ghost var waiting := m.journals;
      TrackedParts(waiting[id], [t]);
      TrackedResidue(waiting[id], [t]);
      if entry.intents != [] { OnePartIsProvable(m.files, waiting[id], t); }
      r := Resolve(m, id, m.journals[id].revision, true, true, true);
      HasEntry(waiting, m.journals, id);
    }
    if home { HomeInTheEnd(m.files, m.journals[id], t); }
  }

  lemma HomeInTheEnd(files: Files, entry: Entry, t: Fingerprint)
    requires Tracks(entry, [t]) && SafeSet(files, entry, [t]) && HomeIfRestored(files, entry, [t])
    requires entry.intents == [] || entry.state == Restored || PastCommit(entry.state) || Early(entry.state)
    ensures Holds(files, File(t.name), t.contents)
  {
    assert SafePart(files, entry, Target([t][0], entry.operation));
    if entry.state == Restored { assert Active(files, Target([t][0], entry.operation)); }
  }

  /** Recovery converges.  After any such life an undisturbed start-up, and the user where
      a journal still waits, bring the original bytes back to their own name - unless the
      user had dropped residue of a journal that names other files first.  With a single
      fingerprint the repair has then ended and no backup is left; where only crashes
      happened the user is never needed. */
  method LiveAndRecover(m: Device, id: JournalId, operation: string, item: Item, leq: (string, string) -> bool,
                        attempts: seq<Attempt>,
                        ghost t: Fingerprint)
    returns (asked: bool)
    requires Starts(m, id, operation, item, attempts, t)
    modifies m
    ensures |item.fingerprints| == 1 || KeepsResidue(attempts) ==> Holds(m.files, File(t.name), t.contents)
    ensures |item.fingerprints| == 1 ==>
              && Backup(t.name, operation) !in m.files
              && (id in m.journals ==> Settled(m.journals[id].state) || Early(m.journals[id].state))
              && (old(m.faults) == 0 && CrashesOnly(attempts) ==> !asked)
  {
    asked := false;
    Live(m, id, operation, item, leq, attempts, t);
    if id !in m.journals { return; }
    if |item.fingerprints| == 1 {
      asked := Conclude(m, id);
    } else {
      asked := ConcludeTracked(m, id, t, KeepsResidue(attempts));
    }
  }
}
