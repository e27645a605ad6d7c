/** Journals with several fingerprints: a set of parts, or an image diagnosed together with
    its cover art and settings.  What recovery, cleanup and the user's requests keep of the
    rewritten files, whatever else the journal names. */
module Tracking {
  import opened Storage
  import opened Journal
  import opened Repair
  import opened Multipart
  import opened MultipartRun
  import opened Recovery

  /** A rewritten file under the names its own repair gave it. */
  function Target(part: Fingerprint, operation: string): Part {
    Part(File(part.name), Backup(part.name, operation), part.contents)
  }

  /** `entry` is the journal of a repair of `parts`: before any intent nothing is recorded,
      then the named fingerprints are the parts, in the order of their backups. */
  ghost predicate Tracks(entry: Entry, parts: seq<Fingerprint>) {
    && |entry.fingerprints| > 1 && DistinctNames(entry.fingerprints)
    && (forall i :: 0 <= i < |parts| ==> parts[i] in entry.fingerprints)
    && OnlyCandidates(entry.candidates) && (Early(entry.state) ==> entry.intents == [])
    && (entry.backups == [] || RecordsBackups(entry, parts))
    && (if entry.intents == [] then entry.backups == [] else Affected(entry.fingerprints, entry.intents) == parts)
  }

  ghost predicate RecordsBackups(entry: Entry, parts: seq<Fingerprint>) {
    |entry.backups| == |parts| && forall i :: 0 <= i < |parts| ==>
      entry.backups[i] == Backup(parts[i].name, entry.operation)
  }

  /** Every part has its original under its own or its backup name, and under its own once
      committed or as long as no intent was recorded. */
  ghost predicate SafeSet(files: Files, entry: Entry, parts: seq<Fingerprint>) {
    forall i :: 0 <= i < |parts| ==> SafePart(files, entry, Target(parts[i], entry.operation))
  }

  ghost predicate SafePart(files: Files, entry: Entry, part: Part) {
    && Alive(files, part)
    && (PastCommit(entry.state) ==> Active(files, part))
    && (entry.intents == [] ==> Active(files, part) && part.backup !in files)
  }

  /** A journal that says `Restored` says so of files that are in place. */
  ghost predicate HomeIfRestored(files: Files, entry: Entry, parts: seq<Fingerprint>) {
    entry.state == Restored ==> forall i :: 0 <= i < |parts| ==> Active(files, Target(parts[i], entry.operation))
  }

  /** The files recovery decides about are the tracked ones, under their own names. */
  lemma TrackedParts(entry: Entry, parts: seq<Fingerprint>)
    requires Tracks(entry, parts)
    ensures Distinct(Parts(entry)) && WellRecorded(entry)
    ensures entry.intents != [] ==>
              |Parts(entry)| == |parts| && forall i :: 0 <= i < |parts| ==>
                Parts(entry)[i] == Target(parts[i], entry.operation)
    ensures forall i :: 0 <= i < |parts| ==> Target(parts[i], entry.operation) in Parts(entry)
  {
    if entry.intents == [] {
      AllAffected(entry.fingerprints);
      forall i | 0 <= i < |parts| ensures Target(parts[i], entry.operation) in Parts(entry) {
        var k :| 0 <= k < |entry.fingerprints| && entry.fingerprints[k] == parts[i];
        assert Parts(entry)[k] == Target(parts[i], entry.operation);
      }
    } else {
      AffectedDistinct(entry.fingerprints, entry.intents);
      forall i | 0 <= i < |parts| ensures Parts(entry)[i] == Target(parts[i], entry.operation) { }
    }
  }

  lemma {:induction false} AllAffected(fingerprints: seq<Fingerprint>)
    ensures Affected(fingerprints, []) == fingerprints
  {
    if fingerprints != [] { AllAffected(fingerprints[1..]); }
  }

  lemma {:induction false} AffectedDistinct(fingerprints: seq<Fingerprint>, intents: seq<string>)
    requires DistinctNames(fingerprints)
    ensures DistinctNames(Affected(fingerprints, intents))
    ensures forall f :: f in Affected(fingerprints, intents) ==> f in fingerprints
  {
    if fingerprints != [] {
      var rest := fingerprints[1..];
      AffectedDistinct(rest, intents);
      forall f | f in Affected(rest, intents) ensures f.name != fingerprints[0].name {
        var k :| 0 <= k < |rest| && rest[k] == f;
        assert fingerprints[k + 1] == f;
      }
    }
  }

  /** Of fingerprints with distinct names an intent for one affects that one. */
  lemma {:induction false} OneAffected(fingerprints: seq<Fingerprint>, t: Fingerprint)
    requires DistinctNames(fingerprints) && t in fingerprints
    ensures Affected(fingerprints, [t.name]) == [t]
  {
    var first, rest := fingerprints[0], fingerprints[1..];
    if first == t {
      NoneAffected(rest, t.name);
    } else {
      var k :| 0 <= k < |fingerprints| && fingerprints[k] == t;
      assert rest[k - 1] == t && first.name != t.name;
      OneAffected(rest, t);
    }
  }

  lemma {:induction false} NoneAffected(fingerprints: seq<Fingerprint>, name: string)
    requires forall k :: 0 <= k < |fingerprints| ==> fingerprints[k].name != name
    ensures Affected(fingerprints, [name]) == []
  {
    if fingerprints != [] { NoneAffected(fingerprints[1..], name); }
  }

  // ---- What each action keeps.

  /** With nothing recorded no backup is proven; past the commit every part is in place. */
  lemma NothingToRestore(files: Files, entry: Entry, parts: seq<Fingerprint>)
    requires Tracks(entry, parts) && SafeSet(files, entry, parts) && parts != []
    ensures entry.intents == [] ==> !AllBackedUp(files, Parts(entry))
    ensures entry.intents != []
              && (forall i :: 0 <= i < |parts| ==> Active(files, Target(parts[i], entry.operation))) ==>
              AllActive(files, Parts(entry))
    ensures PastCommit(entry.state) ==> AllActive(files, Parts(entry)) || !AllBackedUp(files, Parts(entry))
  {
    TrackedParts(entry, parts);
    hide Tracks, Parts;
    var ps := Parts(entry);
    var k :| 0 <= k < |ps| && ps[k] == Target(parts[0], entry.operation);
    assert SafePart(files, entry, ps[k]);
    if PastCommit(entry.state) && entry.intents != [] {
      forall i | 0 <= i < |ps|
        ensures Active(files, ps[i])
      {
        assert SafePart(files, entry, Target(parts[i], entry.operation));
      }
    }
  }

  lemma TracksLater(entry: Entry, later: Entry, parts: seq<Fingerprint>)
    requires Tracks(entry, parts) && later == entry.(revision := later.revision, state := later.state)
    requires Early(later.state) ==> Early(entry.state)
    ensures Tracks(later, parts)
  {
  }

  lemma RestoreKeepsSafe(before: Files, after: Files, entry: Entry, later: Entry, parts: seq<Fingerprint>)
    requires Tracks(entry, parts) && SafeSet(before, entry, parts)
    requires later == entry.(revision := later.revision, state := later.state)
    requires later.state in {entry.state, RollbackRequired, RollingBack, Restored, RecoveryPending}
    requires KeepsAlive(before, after, Parts(entry))
    requires AllActive(before, Parts(entry)) || !AllBackedUp(before, Parts(entry)) ==> after == before
    ensures Tracks(later, parts) && SafeSet(after, later, parts)
  {
    hide Parts, AllActive, AllBackedUp, Tracks, SafePart, Alive, Active, WellRecorded, Distinct, Target;
    TrackedParts(entry, parts);
    if parts != [] { NothingToRestore(before, entry, parts); }
    TracksLater(entry, later, parts);
    var ps := Parts(entry);
    forall i | 0 <= i < |parts| ensures SafePart(after, later, Target(parts[i], entry.operation)) {
      assert SafePart(before, entry, Target(parts[i], entry.operation));
      var k :| 0 <= k < |ps| && ps[k] == Target(parts[i], entry.operation);
      assert Alive(before, ps[k]) ==> Alive(after, ps[k]);
      PartStaysSafe(before, after, entry, later, ps[k]);
    }
  }

  lemma PartStaysSafe(before: Files, after: Files, entry: Entry, later: Entry, part: Part)
    requires SafePart(before, entry, part) && (Alive(before, part) ==> Alive(after, part))
    requires PastCommit(entry.state) || entry.intents == [] ==> after == before
    requires later.intents == entry.intents && (PastCommit(later.state) ==> PastCommit(entry.state))
    ensures SafePart(after, later, part)
  {
  }

  lemma RestoreKeepsHome(before: Files, after: Files, entry: Entry, later: Entry, parts: seq<Fingerprint>)
    requires Tracks(entry, parts) && SafeSet(before, entry, parts) && HomeIfRestored(before, entry, parts)
    requires later == entry.(revision := later.revision, state := later.state)
    requires AllActive(before, Parts(entry)) || !AllBackedUp(before, Parts(entry)) ==> after == before
    requires later.state == Restored && entry.state != Restored ==> AllActive(after, Parts(entry))
    ensures HomeIfRestored(after, later, parts)
  {
    TrackedParts(entry, parts);
    if parts != [] { NothingToRestore(before, entry, parts); }
    hide Tracks, Parts, SafeSet;
    var ps := Parts(entry);
    forall i | 0 <= i < |parts| && later.state == Restored ensures Active(after, Target(parts[i], entry.operation)) {
      var k :| 0 <= k < |ps| && ps[k] == Target(parts[i], entry.operation);
    }
  }

  /** A single tracked file with a recorded intent can always be restored. */
  lemma OnePartIsProvable(files: Files, entry: Entry, t: Fingerprint)
    requires Tracks(entry, [t]) && SafeSet(files, entry, [t]) && entry.intents != []
    ensures Provable(files, entry)
  {
    TrackedParts(entry, [t]);
    assert SafePart(files, entry, Target([t][0], entry.operation));
  }

  lemma CleanupKeepsSafe(before: Files, after: Files, entry: Entry, later: Entry, parts: seq<Fingerprint>)
    requires Tracks(entry, parts) && SafeSet(before, entry, parts) && CleanedUp(before, after, entry)
    requires later == entry.(revision := later.revision, state := later.state) && PastCommit(entry.state)
    requires later.state in {entry.state, CleanupPending, CleanupComplete, RecoveryPending}
    ensures Tracks(later, parts) && SafeSet(after, later, parts) && HomeIfRestored(after, later, parts)
  {
    hide Tracks, SafePart, CleanedUp, Target;
    TracksLater(entry, later, parts);
    forall i | 0 <= i < |parts| ensures SafePart(after, later, Target(parts[i], entry.operation)) {
      assert SafePart(before, entry, Target(parts[i], entry.operation));
      CleanupKeepsPart(before, after, entry, later, parts, parts[i]);
    }
  }

  lemma CleanupKeepsPart(before: Files, after: Files, entry: Entry, later: Entry, parts: seq<Fingerprint>,
                         p: Fingerprint)
    requires Tracks(entry, parts) && SafePart(before, entry, Target(p, entry.operation))
    requires CleanedUp(before, after, entry)
    requires later.intents == entry.intents && PastCommit(entry.state)
    ensures SafePart(after, later, Target(p, entry.operation))
  {
    hide Affected;
  }

  /** The leftovers beside the first file are those of another file only if that file has
      the base name of the first part and lies in the same directory. */
  ghost predicate ResidueApart(fingerprints: seq<Fingerprint>, parts: seq<Fingerprint>) {
    fingerprints != [] ==>
      forall i :: 0 <= i < |parts| && parts[i].name == Beside(fingerprints[0].name, parts[0].name) ==>
        parts[i].name == fingerprints[0].name
  }

  /** Dropping residue costs a part exactly when the backup it removes is that part's
      and the part is not in place. */
  lemma ResidueLosesIff(files: Files, entry: Entry, parts: seq<Fingerprint>, i: nat)
    requires Tracks(entry, parts) && SafeSet(files, entry, parts) && i < |parts|
    ensures var part := Target(parts[i], entry.operation);
            && (Active(files - Residue(entry), part) <==> Active(files, part))
            && (Alive(files - Residue(entry), part) <==> Active(files, part) || part.backup != Located(entry).backup)
  {
    assert SafePart(files, entry, Target(parts[i], entry.operation));
  }

  lemma ResidueKeepsSafe(before: Files, after: Files, entry: Entry, later: Entry, parts: seq<Fingerprint>)
    requires Tracks(entry, parts) && SafeSet(before, entry, parts)
    requires later == entry.(revision := later.revision, state := later.state)
    requires (PastCommit(later.state) ==> PastCommit(entry.state)) && (Early(later.state) ==> Early(entry.state))
    requires SameExcept(before, after, Residue(entry))
    requires forall p :: p in after ==> p in before && after[p] == before[p]
    requires after == before || (Active(before, Located(entry)) && ResidueApart(entry.fingerprints, parts))
    ensures Tracks(later, parts) && SafeSet(after, later, parts)
  {
    forall i | 0 <= i < |parts| ensures SafePart(after, later, Target(parts[i], entry.operation)) {
      var part := Target(parts[i], entry.operation);
      assert SafePart(before, entry, part);
      assert part.source !in Residue(entry);
      if after != before && part.backup in Residue(entry) {
        assert part.backup == Located(entry).backup;
        assert parts[i].name == entry.fingerprints[0].name;
        assert parts[i] == entry.fingerprints[0];
      }
    }
  }
}
