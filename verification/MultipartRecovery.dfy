/** What a stopped multipart repair means for its rollback and its recovery. */
module MultipartRecovery {
  import opened Storage
  import opened Journal
  import opened Candidates
  import opened Repair
  import opened Multipart
  import opened MultipartRun
  import opened Execution
  import opened Recovery
  import opened Tracking
  import opened Lifecycle

  /** Until the commit the new `ul.cfg` is in place only when every part is. */
  lemma UlCfgMovesLast(files: Files, state: State, parts: seq<Fingerprint>, operation: string, orphan: Option<nat>,
                       j: nat)
    requires SoundSet(files, state, parts, operation, orphan) && !PastCommit(state)
    requires DistinctNames(parts) && UlCfgLast(NamesOf(parts))
    requires j < |parts| && parts[j].name == UL_CFG && InPlace(files, parts[j], operation)
    ensures forall i :: 0 <= i < |parts| ==> InPlace(files, parts[i], operation)
  {
    forall i | 0 <= i < |parts| ensures InPlace(files, parts[i], operation) {
      assert NamesOf(parts)[i] == parts[i].name && NamesOf(parts)[j] == parts[j].name;
    }
  }

  /** The fingerprints name the rewritten files in promotion order. */
  ghost predicate Aligned(entry: Entry, parts: seq<Fingerprint>) {
    Affected(entry.fingerprints, entry.intents) == parts
  }

  lemma AlignedParts(entry: Entry, parts: seq<Fingerprint>)
    requires |entry.fingerprints| > 1 && Aligned(entry, parts) && RecordsSet(entry, parts, entry.operation)
    ensures |Parts(entry)| == |parts|
    ensures forall i :: 0 <= i < |parts| ==>
              Parts(entry)[i] == Part(File(parts[i].name), Backup(parts[i].name, entry.operation), parts[i].contents)
    ensures DistinctNames(parts) ==> Distinct(Parts(entry))
  {
  }

  /** A stopped set that is recorded in promotion order is restorable exactly when no
      part or every part has been set aside; then recovery restores, otherwise it
      leaves every file alone. */
  lemma StoppedSetIsProvable(files: Files, entry: Entry, parts: seq<Fingerprint>, orphan: Option<nat>)
    requires |entry.fingerprints| > 1 && Aligned(entry, parts) && DistinctNames(parts)
    requires RecordsSet(entry, parts, entry.operation) && SoundSet(files, entry.state, parts, entry.operation, orphan)
    ensures Distinct(Parts(entry))
    ensures Provable(files, entry) <==>
              (forall i :: 0 <= i < |parts| ==> File(parts[i].name) in files)
              || (forall i :: 0 <= i < |parts| ==> Backup(parts[i].name, entry.operation) in files)
  {
    var ps := Parts(entry);
    AlignedParts(entry, parts);
    forall i | 0 <= i < |parts|
      ensures Active(files, ps[i]) <==> File(parts[i].name) in files
      ensures BackedUp(files, ps[i]) <==> Backup(parts[i].name, entry.operation) in files
    {
      assert KeptPart(files, parts[i], entry.operation);
    }
  }

  /** Backups are recorded in promotion order but paired in fingerprint order.  When
      every original is set aside under its recorded name and some file is missing,
      recovery restores if and only if the two orders agree on the contents.  (The files
      of a set all lie in one directory, the root of the device.) */
  lemma PairingDecides(files: Files, entry: Entry, parts: seq<Fingerprint>)
    requires |entry.fingerprints| > 1
    requires |entry.backups| == |parts| == |Affected(entry.fingerprints, entry.intents)|
    requires forall i :: 0 <= i < |parts| ==>
               && entry.backups[i] == Backup(parts[i].name, entry.operation)
               && Holds(files, entry.backups[i], parts[i].contents)
               && DirectoryOf(Affected(entry.fingerprints, entry.intents)[i].name) == DirectoryOf(parts[i].name)
    requires exists i :: 0 <= i < |parts| && Parts(entry)[i].source !in files
    ensures Provable(files, entry) <==>
              forall i :: 0 <= i < |parts| ==>
                Affected(entry.fingerprints, entry.intents)[i].contents == parts[i].contents
  {
    var affected, ps := Affected(entry.fingerprints, entry.intents), Parts(entry);
    var missing :| 0 <= missing < |parts| && ps[missing].source !in files;
    assert !Active(files, ps[missing]);
    forall i | 0 <= i < |parts| ensures BackedUp(files, ps[i]) <==> affected[i].contents == parts[i].contents {
      assert ps[i].backup == entry.backups[i];
    }
  }

  /** Two parts diagnosed as `b`, `a` and promoted as `a`, `b`. */
  function Misordered(a: Fingerprint, b: Fingerprint, operation: string): Entry {
    Entry(7, operation, RollingBack, [b, a], [], [Backup("a", operation), Backup("b", operation)], ["a", "b"])
  }

  /** With both originals set aside, no copy is lost but recovery gives up. */
  lemma MisorderedSetIsNotRestored(operation: string)
    ensures var a, b := Fingerprint("a", [1]), Fingerprint("b", [2]);
            var files := map[Backup("a", operation) := [1], Backup("b", operation) := [2]];
            var entry := Misordered(a, b, operation);
            && SoundSet(files, RollingBack, [a, b], operation, None)
            && RecordsSet(entry, [a, b], operation)
            && Holds(files, Backup("a", operation), a.contents) && Holds(files, Backup("b", operation), b.contents)
            && !Provable(files, entry)
  {
    var a, b := Fingerprint("a", [1]), Fingerprint("b", [2]);
    var files := map[Backup("a", operation) := [1], Backup("b", operation) := [2]];
    hide SoundSet, RecordsSet, Parts, Provable;
    assert "a" != "b" by { assert "a"[0] != "b"[0]; }
    BothSetAside(files, Misordered(a, b, operation), a, b, operation);
    FirstNotBackedUp(files, a, b, operation);
  }

  lemma FirstNotBackedUp(files: Files, a: Fingerprint, b: Fingerprint, operation: string)
    requires a.name == "a" && b.name == "b" && a.contents != b.contents && File("b") !in files
    requires Holds(files, Backup("a", operation), a.contents)
    ensures !Provable(files, Misordered(a, b, operation))
  {
    var entry := Misordered(a, b, operation);
    MisorderedParts(entry, a, b);
    hide Parts, Misordered;
    assert !BackedUp(files, Parts(entry)[0]) && !Active(files, Parts(entry)[0]);
  }

  lemma BothSetAside(files: Files, entry: Entry, a: Fingerprint, b: Fingerprint, operation: string)
    requires a.name == "a" && b.name == "b" && entry.intents == ["a", "b"] && entry.state == RollingBack
    requires entry.backups == [Backup("a", operation), Backup("b", operation)] && entry.candidates == []
    requires File("a") !in files && File("b") !in files
    requires Holds(files, Backup("a", operation), a.contents) && Holds(files, Backup("b", operation), b.contents)
    ensures SoundSet(files, RollingBack, [a, b], operation, None) && RecordsSet(entry, [a, b], operation)
  {
    assert KeptPart(files, a, operation) && KeptPart(files, b, operation);
    assert NamesOf([a, b]) == ["a", "b"];
  }

  lemma MisorderedParts(entry: Entry, a: Fingerprint, b: Fingerprint)
    requires a.name == "a" && b.name == "b" && entry.fingerprints == [b, a] && entry.intents == ["a", "b"]
    requires entry.backups == [Backup("a", entry.operation), Backup("b", entry.operation)]
    ensures |Parts(entry)| == 2 && Parts(entry)[0] == Part(File("b"), Backup("a", entry.operation), b.contents)
  {
    assert [b, a][1..] == [a] && [a][1..] == [];
    assert Affected([a], entry.intents) == [a] + Affected([], entry.intents);
    assert Affected(entry.fingerprints, entry.intents) == [b] + [a];
    assert "a"[..0] == "" && "b"[..0] == "";
    assert DirectoryOf("a") == "" && DirectoryOf("b") == "";
  }

  /** Whatever `Execute` left behind of a set whose fingerprints stand in promotion order
      is a journal that tracks its parts. */
  lemma ExecutedSetIsTracked(files: Files, entry: Entry, parts: seq<Fingerprint>, orphan: Option<nat>)
    requires |entry.fingerprints| > 1 && DistinctNames(entry.fingerprints)
    requires forall i :: 0 <= i < |parts| ==> parts[i] in entry.fingerprints
    requires RecordsSet(entry, parts, entry.operation) && SoundSet(files, entry.state, parts, entry.operation, orphan)
    requires entry.intents != [] ==> Aligned(entry, parts)
    ensures Tracks(entry, parts) && SafeSet(files, entry, parts)
  {
    forall i | 0 <= i < |parts| ensures SafePart(files, entry, Target(parts[i], entry.operation)) {
      assert KeptPart(files, parts[i], entry.operation);
      if Early(entry.state) { assert AtHome(files, parts[i], entry.operation); }
    }
  }

  /** Safety over whole runs of a set: after `Execute` stopped anywhere, through any sequence
      of reconcile, recover and resolve, each under its own faults and crashes, before and
      after the commit, every part has its original under its own or its backup name.  A set
      whose journal comes to say `Restored` is home, unless the user has dropped residue. */
  method RestoreSet(m: Device, id: JournalId, ghost parts: seq<Fingerprint>, ghost orphan: Option<nat>,
                    attempts: seq<Attempt>)
    requires id in m.journals && |m.journals[id].fingerprints| > 1
    requires DistinctNames(m.journals[id].fingerprints)
    requires forall i :: 0 <= i < |parts| ==> parts[i] in m.journals[id].fingerprints
    requires RecordsSet(m.journals[id], parts, m.journals[id].operation)
    requires SoundSet(m.files, m.journals[id].state, parts, m.journals[id].operation, orphan)
    requires m.journals[id].intents != [] ==> Aligned(m.journals[id], parts)
    requires ResidueSpares(attempts, m.journals[id].fingerprints, parts)
    modifies m`faults, m`crashes, m`files, m`ids, m`free, m`journals
    ensures id in m.journals
    ensures forall i :: 0 <= i < |parts| ==>
              Holds(m.files, File(parts[i].name), parts[i].contents)
              || Holds(m.files, Backup(parts[i].name, old(m.journals)[id].operation), parts[i].contents)
    ensures PastCommit(m.journals[id].state) ==>
              forall i :: 0 <= i < |parts| ==> Holds(m.files, File(parts[i].name), parts[i].contents)
    ensures m.journals[id] == old(m.journals)[id].(revision := m.journals[id].revision, state := m.journals[id].state)
    ensures KeepsResidue(attempts) && m.journals[id].state == Restored
              && (old(m.journals)[id].state == Restored ==> NoPartAway(old(m.files), parts)) ==>
              SetIsHome(m.files, parts)
  {
    hide Tracks, SafeSet, HomeIfRestored, ResidueApart, RecordsSet, SoundSet, NoPartAway, SetIsHome;
    ghost var entry := m.journals[id];
    ExecutedSetIsTracked(m.files, entry, parts, orphan);
    NotRestoredOrHome(m.files, entry, parts, orphan);
    LiveOn(m, id, attempts, parts);
    TrackedAlive(m.files, m.journals[id], parts);
    if HomeIfRestored(m.files, m.journals[id], parts) && m.journals[id].state == Restored {
      RestoredIsHome(m.files, m.journals[id], parts);
    }
  }

  /** No part is without a file of its own name. */
  ghost predicate NoPartAway(files: Files, parts: seq<Fingerprint>) {
    forall i :: 0 <= i < |parts| ==> File(parts[i].name) in files
  }

  /** Every part is whole under its own name. */
  ghost predicate SetIsHome(files: Files, parts: seq<Fingerprint>) {
    forall i :: 0 <= i < |parts| ==> Holds(files, File(parts[i].name), parts[i].contents)
  }

  lemma NotRestoredOrHome(files: Files, entry: Entry, parts: seq<Fingerprint>, orphan: Option<nat>)
    requires SoundSet(files, entry.state, parts, entry.operation, orphan)
    ensures entry.state != Restored || NoPartAway(files, parts) ==> HomeIfRestored(files, entry, parts)
  {
    forall i | 0 <= i < |parts| && entry.state == Restored && NoPartAway(files, parts)
      ensures Active(files, Target(parts[i], entry.operation))
    {
      assert KeptPart(files, parts[i], entry.operation) && File(parts[i].name) in files;
    }
  }

  lemma RestoredIsHome(files: Files, entry: Entry, parts: seq<Fingerprint>)
    requires HomeIfRestored(files, entry, parts) && entry.state == Restored
    ensures SetIsHome(files, parts)
  {
    forall i | 0 <= i < |parts| ensures Active(files, Target(parts[i], entry.operation)) { }
  }

  lemma TrackedAlive(files: Files, entry: Entry, parts: seq<Fingerprint>)
    requires SafeSet(files, entry, parts)
    ensures forall i :: 0 <= i < |parts| ==>
              Holds(files, File(parts[i].name), parts[i].contents)
              || Holds(files, Backup(parts[i].name, entry.operation), parts[i].contents)
    ensures PastCommit(entry.state) ==>
              forall i :: 0 <= i < |parts| ==> Holds(files, File(parts[i].name), parts[i].contents)
  {
    forall i | 0 <= i < |parts| ensures SafePart(files, entry, Target(parts[i], entry.operation)) { }
  }

  /** The selected files in promotion order are the affected fingerprints in theirs. */
  ghost predicate InPromotionOrder(item: Item, leq: (string, string) -> bool) {
    var names := Ordered(item.files, leq);
    NamesOf(Affected(item.fingerprints, names)) == names
  }

  /** The same from the start: a set is repaired, interrupted anywhere, and recovered.  `stopped`
      and `entry` are the files and the journal when the run ended.  A journal that in the end says
      `Restored` with recorded backups says so of a set that is home; one without does unless the
      run itself had ended so with a part away. */
  method LiveSet(m: Device, id: JournalId, operation: string, item: Item, leq: (string, string) -> bool,
                 attempts: seq<Attempt>)
    returns (ghost parts: seq<Fingerprint>, ghost stopped: Files, ghost entry: Option<Entry>)
    requires Fresh(m.files, operation, item.files) && id !in m.journals && item.format == USBExtreme
    requires |item.fingerprints| > 1 && DistinctNames(item.fingerprints) && InPromotionOrder(item, leq)
    requires KeepsResidue(attempts) || FirstIsApart(item, leq)
    modifies m
    ensures id !in m.journals ==> m.files == old(m.files)
    ensures InOrder(parts, item, leq)
    ensures id in m.journals ==> forall i :: 0 <= i < |parts| ==>
              Holds(m.files, File(parts[i].name), parts[i].contents)
              || Holds(m.files, Backup(parts[i].name, operation), parts[i].contents)
    ensures id in m.journals <==> entry.Some?
    ensures entry.Some? ==>
              var now := m.journals[id]; now == entry.value.(revision := now.revision, state := now.state)
    ensures entry.Some? && KeepsResidue(attempts) && m.journals[id].state == Restored
              && (m.journals[id].backups != [] || entry.value.state != Restored || NoPartAway(stopped, parts)) ==>
              SetIsHome(m.files, parts)
  {
    hide Accounted, RecordsSet, SoundSet, InOrder, InPromotionOrder, DistinctNames, Ordered, Fresh, ResidueApart;
    hide UlCfgLast, NoPartAway, SetIsHome;
    ghost var before := m.files;
    var r, modified;
    ghost var orphan;
    r, modified, parts, orphan := Execute(m, id, operation, item, leq);
    SetAccount(before, m.files, m.journals, id, operation, item, parts, orphan);
    stopped, entry := m.files, if id in m.journals then Some(m.journals[id]) else None;
    if id !in m.journals { return; }
    if orphan.None? { NoOrphanNoneAway(m.files, m.journals[id].state, parts, operation); }
    PartsAreListed(item, leq, parts);
    if m.journals[id].intents != [] { PartsAreAffected(item, leq, parts); }
    if FirstIsApart(item, leq) { PartsAreApart(item, leq, parts); }
    RestoreSet(m, id, parts, orphan, attempts);
  }

  lemma NoOrphanNoneAway(files: Files, state: State, parts: seq<Fingerprint>, operation: string)
    requires SoundSet(files, state, parts, operation, None)
    ensures state == Restored ==> NoPartAway(files, parts)
  {
    forall i | 0 <= i < |parts| && state == Restored ensures File(parts[i].name) in files {
      assert AtHome(files, parts[i], operation);
    }
  }

  lemma SetAccount(before: Files, after: Files, journals: Entries, id: JournalId,
                   operation: string, item: Item, parts: seq<Fingerprint>, orphan: Option<nat>)
    requires Accounted(before, after, journals, id, operation, item, parts, orphan) && item.format == USBExtreme
    ensures id !in journals ==> after == before
    ensures id in journals ==>
              && journals[id].operation == operation && journals[id].fingerprints == item.fingerprints
              && RecordsSet(journals[id], parts, operation)
              && SoundSet(after, journals[id].state, parts, operation, orphan)
              && (orphan.Some? ==> journals[id].backups == [])
              && (journals[id].intents != [] ==> !Early(journals[id].state) && journals[id].intents == NamesOf(parts))
  {
    hide SoundSet;
  }

  /** No selected file but the first fingerprint itself lies where the first backup would be
      looked for beside it. */
  ghost predicate FirstIsApart(item: Item, leq: (string, string) -> bool) {
    item.fingerprints != [] && Ordered(item.files, leq) != [] ==>
      forall n :: n in item.files && n == Beside(item.fingerprints[0].name, Ordered(item.files, leq)[0]) ==>
        n == item.fingerprints[0].name
  }

  lemma PartsAreApart(item: Item, leq: (string, string) -> bool, parts: seq<Fingerprint>)
    requires InOrder(parts, item, leq) && FirstIsApart(item, leq)
    ensures ResidueApart(item.fingerprints, parts)
  {
    InOrderIsSelected(parts, item, leq);
  }

  lemma PartsAreListed(item: Item, leq: (string, string) -> bool, parts: seq<Fingerprint>)
    requires InOrder(parts, item, leq)
    ensures forall i :: 0 <= i < |parts| ==> parts[i] in item.fingerprints
  {
    forall i | 0 <= i < |parts| ensures parts[i] in item.fingerprints {
      FoundIsListed(item.fingerprints, Ordered(item.files, leq)[i]);
    }
  }

  lemma PartsAreAffected(item: Item, leq: (string, string) -> bool, parts: seq<Fingerprint>)
    requires InOrder(parts, item, leq) && NamesOf(parts) == Ordered(item.files, leq)
    requires DistinctNames(item.fingerprints) && InPromotionOrder(item, leq)
    ensures Affected(item.fingerprints, NamesOf(parts)) == parts
  {
    var affected := Affected(item.fingerprints, NamesOf(parts));
    PartsAreListed(item, leq, parts);
    AffectedDistinct(item.fingerprints, NamesOf(parts));
    forall i | 0 <= i < |parts| ensures affected[i] == parts[i] {
      assert NamesOf(affected)[i] == NamesOf(parts)[i] && affected[i] in affected;
      var j :| 0 <= j < |item.fingerprints| && item.fingerprints[j] == affected[i];
      var k :| 0 <= k < |item.fingerprints| && item.fingerprints[k] == parts[i];
    }
  }
}
