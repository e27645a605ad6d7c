/** Recovery after a crash: what to do is decided from the journal and the files alone. */
module Recovery {
  import opened Storage
  import opened Journal
  import opened Repair

  /** A file under recovery: where it belongs, where its backup is, what it held. */
  datatype Part = Part(source: Path, backup: Path, contents: Bytes)

  /** The fingerprints a multipart recovery looks at: those named by an intent. */
  function Affected(fingerprints: seq<Fingerprint>, intents: seq<string>): seq<Fingerprint> {
    if fingerprints == [] then []
    else (if intents == [] || fingerprints[0].name in intents then [fingerprints[0]] else [])
         + Affected(fingerprints[1..], intents)
  }

  /** Backups are paired with affected files by position and looked for beside them; a
      missing record falls back to the name derived from the operation. */
  function PartsOf(affected: seq<Fingerprint>, entry: Entry): (parts: seq<Part>)
    ensures |parts| == |affected|
  {
    seq(|affected|, i requires 0 <= i < |affected| =>
      Part(File(affected[i].name),
           if i < |entry.backups| then PathBeside(affected[i].name, entry.backups[i])
           else Backup(affected[i].name, entry.operation),
           affected[i].contents))
  }

  /** The files a recovery of `entry` decides about. */
  function Parts(entry: Entry): seq<Part> {
    if |entry.fingerprints| > 1 then PartsOf(Affected(entry.fingerprints, entry.intents), entry)
    else PartsOf(entry.fingerprints, entry)
  }

  ghost predicate Distinct(parts: seq<Part>) {
    && (forall i, j :: 0 <= i < |parts| && 0 <= j < |parts| ==> parts[i].source != parts[j].backup)
    && (forall i, j :: 0 <= i < j < |parts| ==>
          parts[i].source != parts[j].source && parts[i].backup != parts[j].backup)
  }

  ghost predicate Active(files: Files, part: Part) { Holds(files, part.source, part.contents) }

  ghost predicate BackedUp(files: Files, part: Part) { Holds(files, part.backup, part.contents) }

  /** A verified copy of the original exists. */
  ghost predicate Alive(files: Files, part: Part) { Active(files, part) || BackedUp(files, part) }

  /** `path` names neither a source nor a backup of these parts. */
  ghost predicate Foreign(path: Path, parts: seq<Part>) {
    forall i :: 0 <= i < |parts| ==> path != parts[i].source && path != parts[i].backup
  }

  ghost predicate SameForeign(before: Files, after: Files, parts: seq<Part>) {
    forall p :: Foreign(p, parts) ==> (p in before <==> p in after) && (p in before ==> before[p] == after[p])
  }

  /** States from which the journal can be led to `Restored`. */
  predicate Restorable(s: State) {
    s in {CommitIntent, Promoting, ActiveValidating, RollbackRequired, RollingBack, RecoveryPending, Restored}
  }

  method ToRestored(m: Device, id: JournalId, entry: Entry) returns (r: Outcome)
    requires id in m.journals && m.journals[id] == entry
    modifies m`faults, m`journals
    ensures m.faults <= old(m.faults)
    ensures OnlyEntry(old(m.journals), m.journals, id)
    ensures m.journals[id] == entry.(revision := m.journals[id].revision, state := m.journals[id].state)
    ensures r.Ok? ==> m.journals[id].state == if Restorable(entry.state) then Restored else RecoveryPending
    ensures m.journals[id].state == entry.state
            || if Restorable(entry.state) then m.journals[id].state in {RollbackRequired, RollingBack, Restored}
               else m.journals[id].state == RecoveryPending
    ensures m.journals[id].state == Restored && entry.state != Restored ==> r.Ok?
    ensures r.Crashed? ==> m.crashes
    ensures old(m.faults) == 0 ==> !r.Thrown?
  {
    hide OnlyEntry;
    OneWrite(m.journals, id, entry);
    if entry.state == Restored { return Ok; }
    if !Restorable(entry.state) {
      r := SetPending(m, id, entry);
      HasEntry(old(m.journals), m.journals, id);
      return;
    }
    var current;
    r, current := EnterRollingBack(m, id, entry);
    ghost var rolling := m.journals;
    HasEntry(old(m.journals), rolling, id);
    if !r.Ok? { return; }
    var restored;
    r, restored := Transition(m, id, current.revision, Restored, NoPatch);
    OneWrite(rolling, id, restored);
    OnlyEntryBoth(old(m.journals), rolling, m.journals, id);
  }

  /** The transitions of `toRestored` before the last one. */
  method EnterRollingBack(m: Device, id: JournalId, entry: Entry) returns (r: Outcome, current: Entry)
    requires id in m.journals && m.journals[id] == entry && Restorable(entry.state) && entry.state != Restored
    modifies m`faults, m`journals
    ensures m.faults <= old(m.faults) && (r.Crashed? ==> m.crashes) && (old(m.faults) == 0 ==> !r.Thrown?)
    ensures OnlyEntry(old(m.journals), m.journals, id)
    ensures m.journals[id] == entry.(revision := m.journals[id].revision, state := m.journals[id].state)
    ensures m.journals[id].state in {entry.state, RollbackRequired, RollingBack}
    ensures r.Ok? ==> current == m.journals[id] && current.state == RollingBack
  {
    current := entry;
    if current.state in {CommitIntent, Promoting, ActiveValidating} {
      current :- Transition(m, id, current.revision, RollbackRequired, NoPatch);
    }
    if current.state in {RollbackRequired, RecoveryPending} {
      current :- Transition(m, id, current.revision, RollingBack, NoPatch);
    }
    r := Ok;
  }

  /** The device after the first write of a restore, if there is one. */
  ghost function FirstWrite(files: Files, part: Part, authorized: bool): Files {
    if !BackedUp(files, part) then files
    else if part.source !in files then PutBackOne(files, part)
    else if !authorized && Active(files, part) then files - {part.backup}
    else files - {part.source}
  }

  /** Which file is in place after a restore: the backup, unless it was not needed - a proven active
      file stays unless the user asked for the backup. */
  ghost function RestoredFile(files: Files, ids: Ids<Path>, part: Part, authorized: bool): nat {
    if BackedUp(files, part) && (authorized || !Active(files, part)) then ids.Of(part.backup) else ids.Of(part.source)
  }

  /** The decision for one file.  `proven` says that the source now is the original
      by proof; otherwise nothing was touched. */
  method PutBack(m: Device, part: Part, authorized: bool) returns (r: Outcome, proven: bool)
    requires part.source != part.backup
    modifies m`faults, m`files, m`ids, m`free
    ensures m.faults <= old(m.faults)
    ensures SameExcept(old(m.files), m.files, {part.source, part.backup})
    ensures Alive(old(m.files), part) ==> Alive(m.files, part)
    ensures m.files == old(m.files) || m.files == FirstWrite(old(m.files), part, authorized)
            || (BackedUp(old(m.files), part) && m.files == PutBackOne(old(m.files), part))
    ensures !BackedUp(old(m.files), part) ==> m.files == old(m.files)
    ensures !authorized && Active(old(m.files), part) ==> Active(m.files, part)
    ensures part.source in m.files ==>
              || Active(m.files, part)
              || (part.source in old(m.files) && m.files[part.source] == old(m.files)[part.source])
    ensures part.backup in m.files ==> part.backup in old(m.files) && m.files[part.backup] == old(m.files)[part.backup]
    ensures r.Ok? && proven ==> Active(m.files, part) && part.backup !in m.files
    ensures r.Ok? && proven ==> m.ids.Of(part.source) == RestoredFile(old(m.files), old(m.ids), part, authorized)
    ensures r.Ok? && !proven ==> m.files == old(m.files)
    ensures r.Ok? ==>
              (proven <==> BackedUp(old(m.files), part) || (part.backup !in old(m.files) && Active(old(m.files), part)))
    ensures r.Crashed? ==> m.crashes
    ensures old(m.faults) == 0 ==> !r.Thrown?
  {
    proven := false;
    if part.backup !in m.files {
      if part.source in m.files {
        var contents :- m.Read(part.source);
        proven := contents == part.contents;
      }
      return Ok, proven;
    }
    var contents :- m.Read(part.backup);
    if contents != part.contents { return Ok, false; }
    if part.source in m.files {
      if !authorized {
        var active :- m.Read(part.source);
        if active == part.contents {
          r := m.Remove(part.backup);
          if !r.Ok? { return; }
          return Ok, true;
        }
      }
      :- m.Remove(part.source);
    }
    :- m.Rename(part.backup, part.source);
    r, proven := Ok, true;
  }

  ghost predicate AllActive(files: Files, parts: seq<Part>) {
    forall i :: 0 <= i < |parts| ==> Active(files, parts[i])
  }

  ghost predicate AllBackedUp(files: Files, parts: seq<Part>) {
    forall i :: 0 <= i < |parts| ==> BackedUp(files, parts[i])
  }

  /** No step may lose the last verified copy of a part. */
  ghost predicate KeepsAlive(before: Files, after: Files, parts: seq<Part>) {
    forall i :: 0 <= i < |parts| ==> Alive(before, parts[i]) ==> Alive(after, parts[i])
  }

  /** Hashes the sources (or the backups) of all parts; a missing file does not match. */
  method CheckAll(m: Device, parts: seq<Part>, backups: bool) returns (r: Outcome, all: bool)
    modifies m`faults
    ensures m.faults <= old(m.faults)
    ensures r.Ok? ==> (all <==> if backups then AllBackedUp(m.files, parts) else AllActive(m.files, parts))
    ensures r.Crashed? ==> m.crashes
    ensures old(m.faults) == 0 ==> !r.Thrown?
  {
    all := true;
    for i := 0 to |parts|
      invariant m.faults <= old(m.faults)
      invariant all <==> if backups then AllBackedUp(m.files, parts[..i]) else AllActive(m.files, parts[..i])
    {
      assert parts[..i + 1] == parts[..i] + [parts[i]];
      var path := if backups then parts[i].backup else parts[i].source;
      if path in m.files {
        var contents :- m.Read(path);
        if contents != parts[i].contents { all := false; }
      } else {
        all := false;
      }
    }
    assert parts[..|parts|] == parts;
    r := Ok;
  }

  /** The device after one backup was put back. */
  ghost function PutBackOne(files: Files, part: Part): Files
    requires part.backup in files
  {
    (files - {part.source, part.backup})[part.source := files[part.backup]]
  }

  method ReplaceByBackup(m: Device, part: Part) returns (r: Outcome)
    requires part.backup in m.files && part.source != part.backup
    modifies m`faults, m`files, m`ids, m`free
    ensures m.faults <= old(m.faults)
    ensures r.Ok? ==> m.files == PutBackOne(old(m.files), part)
    ensures !r.Ok? ==> m.files == old(m.files) || m.files == old(m.files) - {part.source}
    ensures r.Crashed? ==> m.crashes
    ensures old(m.faults) == 0 ==> !r.Thrown?
  {
    r := m.Remove(part.source);
    if !r.Ok? { return; }
    :- m.Rename(part.backup, part.source);
    r := Ok;
  }

  /** Parts from `i` on are back, the ones before it still have their backups. */
  ghost predicate BackFrom(files: Files, parts: seq<Part>, i: nat) {
    && (forall k :: 0 <= k < i && k < |parts| ==> BackedUp(files, parts[k]))
    && (forall k :: i <= k < |parts| ==> Active(files, parts[k]) && parts[k].backup !in files)
  }

  lemma PutBackOneKeeps(files: Files, parts: seq<Part>, i: nat)
    requires Distinct(parts) && i < |parts| && BackFrom(files, parts, i + 1)
    ensures BackFrom(PutBackOne(files, parts[i]), parts, i)
    ensures SameForeign(files, PutBackOne(files, parts[i]), parts)
    ensures SameForeign(files, files - {parts[i].source}, parts)
    ensures forall k :: 0 <= k < |parts| ==> Alive(files, parts[k]) && Alive(files - {parts[i].source}, parts[k])
  {
    assert BackedUp(files, parts[i]);
  }

  /** Puts every backup back, last part first. */
  method PutAllBack(m: Device, parts: seq<Part>) returns (r: Outcome)
    requires Distinct(parts) && AllBackedUp(m.files, parts)
    modifies m`faults, m`files, m`ids, m`free
    ensures m.faults <= old(m.faults)
    ensures SameForeign(old(m.files), m.files, parts)
    ensures forall i :: 0 <= i < |parts| ==> Alive(m.files, parts[i])
    ensures r.Ok? ==> BackFrom(m.files, parts, 0)
    ensures r.Crashed? ==> m.crashes
    ensures old(m.faults) == 0 ==> !r.Thrown?
  {
    var i := |parts|;
    while i > 0
      invariant 0 <= i <= |parts| && m.faults <= old(m.faults)
      invariant SameForeign(old(m.files), m.files, parts)
      invariant BackFrom(m.files, parts, i)
    {
      i := i - 1;
      PutBackOneKeeps(m.files, parts, i);
      :- ReplaceByBackup(m, parts[i]);
    }
    r := Ok;
  }

  /** A journal of one file whose recorded backup is the one the repair made. */
  ghost predicate Single(entry: Entry) {
    && |entry.fingerprints| == 1
    && (entry.backups == [] || entry.backups == [Backup(entry.fingerprints[0].name, entry.operation)])
    && (entry.candidates == [] || entry.candidates == [Candidate(entry.fingerprints[0].name, entry.operation)])
  }

  ghost predicate RecoverableEntry(files: Files, entry: Entry) {
    && Single(entry)
    && Recoverable(files, entry.state, entry.fingerprints[0].name, entry.operation, entry.fingerprints[0].contents)
  }

  ghost predicate SoundEntry(files: Files, entry: Entry) {
    && Single(entry)
    && Sound(files, entry.state, entry.fingerprints[0].name, entry.operation, entry.fingerprints[0].contents)
  }

  /** Journal and files prove which bytes are the original: the condition under
      which recovery restores. */
  ghost predicate Provable(files: Files, entry: Entry) {
    var parts := Parts(entry);
    if |entry.fingerprints| > 1 then AllActive(files, parts) || AllBackedUp(files, parts)
    else |parts| == 1 && (BackedUp(files, parts[0]) || (parts[0].backup !in files && Active(files, parts[0])))
  }

  /** The guarded block of the multipart recovery. */
  method RestoreParts(m: Device, parts: seq<Part>) returns (r: Outcome, proven: bool)
    requires Distinct(parts)
    modifies m`faults, m`files, m`ids, m`free
    ensures m.faults <= old(m.faults)
    ensures SameForeign(old(m.files), m.files, parts)
    ensures KeepsAlive(old(m.files), m.files, parts)
    ensures !AllBackedUp(old(m.files), parts) || AllActive(old(m.files), parts) ==> m.files == old(m.files)
    ensures r.Ok? ==> (proven <==> AllActive(old(m.files), parts) || AllBackedUp(old(m.files), parts))
    ensures r.Ok? && proven ==> AllActive(m.files, parts)
    ensures r.Ok? && !proven ==> m.files == old(m.files)
    ensures r.Crashed? ==> m.crashes
    ensures old(m.faults) == 0 ==> !r.Thrown?
  {
    proven := false;
    var active :- CheckAll(m, parts, false);
    if active { return Ok, true; }
    var valid :- CheckAll(m, parts, true);
    if !valid { return Ok, false; }
    :- PutAllBack(m, parts);
    var restored :- CheckAll(m, parts, false);
    r, proven := Ok, restored;
  }

  /** What a restore of one file does to its two names, wherever it stops. */
  ghost predicate PutBackKeeps(before: Files, after: Files, part: Part, authorized: bool) {
    && (Alive(before, part) ==> Alive(after, part))
    && (!BackedUp(before, part) ==> after == before)
    && (!authorized && Active(before, part) ==> Active(after, part))
    && (part.source in after ==>
          Active(after, part) || (part.source in before && after[part.source] == before[part.source]))
    && (part.backup in after ==> part.backup in before && after[part.backup] == before[part.backup])
  }

  lemma SingleParts(entry: Entry)
    requires Single(entry)
    ensures var t := entry.fingerprints[0];
            && Parts(entry) == [Part(File(t.name), Backup(t.name, entry.operation), t.contents)]
            && Parts(entry)[0] == Located(entry)
  {
  }

  lemma OnlyOnePart(before: Files, after: Files, parts: seq<Part>)
    requires |parts| == 1 && SameExcept(before, after, {parts[0].source, parts[0].backup})
    requires Alive(before, parts[0]) ==> Alive(after, parts[0])
    ensures SameForeign(before, after, parts) && KeepsAlive(before, after, parts)
    ensures AllActive(after, parts) <==> Active(after, parts[0])
  {
  }

  /** Journal and device still agree after a restore of a single file. */
  lemma SingleKeepsSound(before: Files, after: Files, entry: Entry, later: Entry, authorized: bool)
    requires later == entry.(revision := later.revision, state := later.state)
    requires later.state in {entry.state, RollbackRequired, RollingBack, Restored, RecoveryPending}
    requires |entry.fingerprints| == 1 ==> PutBackKeeps(before, after, Parts(entry)[0], authorized)
    requires |entry.fingerprints| == 1 && later.state == Restored && entry.state != Restored ==>
               Active(after, Parts(entry)[0]) && Parts(entry)[0].backup !in after
    ensures RecoverableEntry(before, entry) ==> RecoverableEntry(after, later)
    ensures SoundEntry(before, entry) && !RemovesCommitted(before, entry, authorized) ==> SoundEntry(after, later)
  {
    if Single(entry) {
      SingleParts(entry);
    }
  }

  /** The exception is real and the only one: after the first write of a restore journal and
      device agree if and only if it is not the case. */
  lemma FirstWriteKeepsSound(files: Files, entry: Entry, authorized: bool)
    requires SoundEntry(files, entry)
    ensures var written := FirstWrite(files, Parts(entry)[0], authorized);
            SoundEntry(written, entry) <==> !RemovesCommitted(files, entry, authorized)
    ensures RecoverableEntry(FirstWrite(files, Parts(entry)[0], authorized), entry)
  {
    SingleParts(entry);
  }

  /** A committed repair whose backup is still there: the user asks for the original, and
      the process dies once the active file is removed. */
  lemma CommittedRestoreInterrupted(operation: string)
    ensures var files := map[File("g") := [1], Backup("g", operation) := [1]];
            var entry := Entry(9, operation, Committed, [Fingerprint("g", [1])], [], [], ["g"]);
            var died := FirstWrite(files, Parts(entry)[0], true);
            && SoundEntry(files, entry) && !SoundEntry(died, entry)
            && File("g") !in died && Holds(died, Backup("g", operation), [1])
  {
    var entry := Entry(9, operation, Committed, [Fingerprint("g", [1])], [], [], ["g"]);
    SingleParts(entry);
  }

  /** `restoreSafely`: for any state of the device.  `mounted` says whether the
      device can be reached; `authorized` comes from an explicit user request. */
  method RestoreSafely(m: Device, id: JournalId, entry: Entry, authorized: bool, mounted: bool) returns (r: Outcome)
    requires id in m.journals && m.journals[id] == entry && Distinct(Parts(entry))
    modifies m`faults, m`files, m`ids, m`free, m`journals
    ensures m.faults <= old(m.faults)
    ensures SameForeign(old(m.files), m.files, Parts(entry))
    ensures OnlyEntry(old(m.journals), m.journals, id)
    ensures m.journals[id] == entry.(revision := m.journals[id].revision, state := m.journals[id].state)
    // the last verified copy of a file survives every step
    ensures KeepsAlive(old(m.files), m.files, Parts(entry))
    // nothing is touched unless the original is proven
    ensures !(mounted && Provable(old(m.files), entry)) ==> m.files == old(m.files)
    // `Restored` is never claimed without proof, and with proof always reached
    ensures r.Ok? ==> m.journals[id].state in {Restored, RecoveryPending}
    ensures r.Ok? && m.journals[id].state == Restored ==>
              AllActive(m.files, Parts(entry)) && mounted && Provable(old(m.files), entry)
    ensures r.Ok? && old(m.faults) == 0 ==>
              (m.journals[id].state == Restored <==>
                 mounted && Provable(old(m.files), entry) && Restorable(entry.state))
    // crashes alone never make a provable restore need the user
    ensures old(m.faults) == 0 && mounted && Provable(old(m.files), entry) && Restorable(entry.state)
              && entry.state != RecoveryPending ==>
              m.journals[id].state != RecoveryPending
    // of a single file the one in place is then the backup itself, or the proven active file
    ensures r.Ok? && m.journals[id].state == Restored && |entry.fingerprints| == 1 ==>
              m.ids.Of(Parts(entry)[0].source) == RestoredFile(old(m.files), old(m.ids), Parts(entry)[0], authorized)
    ensures r.Crashed? ==> m.crashes
    ensures old(m.faults) == 0 ==> !r.Thrown?
    ensures m.journals[id].state in {entry.state, RollbackRequired, RollingBack, Restored, RecoveryPending}
    ensures m.journals[id].state == Restored && entry.state != Restored ==> AllActive(m.files, Parts(entry))
    // a set is touched only where some part is not in place and all backups are proven
    ensures |entry.fingerprints| > 1 && (AllActive(old(m.files), Parts(entry))
              || !AllBackedUp(old(m.files), Parts(entry))) ==>
              m.files == old(m.files)
    ensures RecoverableEntry(old(m.files), entry) ==> RecoverableEntry(m.files, m.journals[id])
    ensures SoundEntry(old(m.files), entry) && !RemovesCommitted(old(m.files), entry, authorized) ==>
              SoundEntry(m.files, m.journals[id])
  {
    hide SoundEntry, RecoverableEntry, OnlyEntry, SameExcept;
    OneWrite(m.journals, id, entry);
    if !mounted || entry.fingerprints == [] {
      r := SetPending(m, id, entry);
      HasEntry(old(m.journals), m.journals, id);
      SingleKeepsSound(m.files, m.files, entry, m.journals[id], authorized);
      return;
    }
    var proven;
    var parts := Parts(entry);
    if |entry.fingerprints| > 1 {
      r, proven := RestoreParts(m, parts);
    } else {
      r, proven := PutBack(m, parts[0], authorized);
      OnlyOnePart(old(m.files), m.files, parts);
    }
    if !r.Crashed? {
      if r.Ok? && proven {
        r := ToRestored(m, id, entry);
      } else {
        r := SetPending(m, id, entry);
      }
    }
    HasEntry(old(m.journals), m.journals, id);
    SingleKeepsSound(old(m.files), m.files, entry, m.journals[id], authorized);
  }

  /** `markRecoveryPending` of the current entry. */
  method SetPending(m: Device, id: JournalId, entry: Entry) returns (r: Outcome)
    requires id in m.journals && m.journals[id] == entry
    modifies m`faults, m`journals
    ensures m.faults <= old(m.faults) && (r.Crashed? ==> m.crashes) && (old(m.faults) == 0 ==> !r.Thrown?)
    ensures OnlyEntry(old(m.journals), m.journals, id)
    ensures m.journals[id] == entry.(revision := m.journals[id].revision, state := m.journals[id].state)
    ensures m.journals[id].state == if r.Ok? then RecoveryPending else entry.state
  {
    var pending :- MarkRecoveryPending(m, id, entry.revision);
    r := Ok;
  }

  /** The one case in which a restore may leave journal and device apart: the user asks for
      it after the commit while there still is a backup. */
  ghost predicate RemovesCommitted(files: Files, entry: Entry, authorized: bool) {
    authorized && PastCommit(entry.state) && Parts(entry) != [] && Parts(entry)[0].backup in files
  }

  /** The file and backup that `location` derives: always from the first records, and
      always in the directory of the first file. */
  function Located(entry: Entry): Part
    requires entry.fingerprints != []
  {
    var first := entry.fingerprints[0];
    Part(File(first.name),
         if entry.backups != [] then PathBeside(first.name, entry.backups[0]) else Backup(first.name, entry.operation),
         first.contents)
  }

  /** The names a residue cleanup removes: candidates and backup, all looked for beside
      the first file of the journal. */
  function Residue(entry: Entry): set<Path>
    requires entry.fingerprints != []
  {
    (set c | c in entry.candidates :: PathBeside(entry.fingerprints[0].name, c)) + {Located(entry).backup}
  }

  /** What a cleanup of a committed repair may do to the device. */
  ghost predicate CleanedUp(before: Files, after: Files, entry: Entry) {
    || after == before
    || (entry.fingerprints != [] && Active(before, Located(entry)) && after == before - {Located(entry).backup})
  }

  /** Whether the active file is proven, and the backup, if there is one. */
  method ProveResidue(m: Device, part: Part) returns (r: Outcome, proven: bool)
    modifies m`faults
    ensures m.faults <= old(m.faults) && (r.Crashed? ==> m.crashes) && (old(m.faults) == 0 ==> !r.Thrown?)
    ensures r.Ok? ==> (proven <==> Active(m.files, part) && (part.backup in m.files ==> BackedUp(m.files, part)))
  {
    proven := false;
    if part.source !in m.files { return Ok, false; }
    var active :- m.Read(part.source);
    proven := active == part.contents;
    if proven && part.backup in m.files {
      var residue :- m.Read(part.backup);
      proven := residue == part.contents;
    }
    r := Ok;
  }

  method FinishCleanup(m: Device, id: JournalId, entry: Entry) returns (r: Outcome)
    requires id in m.journals && m.journals[id] == entry && entry.state in {Committed, CleanupPending}
    modifies m`faults, m`journals
    ensures m.faults <= old(m.faults) && (r.Crashed? ==> m.crashes) && (old(m.faults) == 0 ==> !r.Thrown?)
    ensures OnlyEntry(old(m.journals), m.journals, id)
    ensures m.journals[id] == entry.(revision := m.journals[id].revision, state := m.journals[id].state)
    ensures m.journals[id].state in {entry.state, CleanupPending, CleanupComplete}
    ensures r.Ok? ==> m.journals[id].state == CleanupComplete
  {
    var journal := entry;
    if journal.state == Committed {
      journal :- Transition(m, id, journal.revision, CleanupPending, NoPatch);
    }
    journal :- Transition(m, id, journal.revision, CleanupComplete, NoPatch);
    r := Ok;
  }

  /** Cleanup of a committed repair: the backup goes only after the active file is
      proven, and only if it is what the repair put there. */
  method CleanupCommitted(m: Device, id: JournalId, entry: Entry, mounted: bool) returns (r: Outcome)
    requires id in m.journals && m.journals[id] == entry && entry.state in {Committed, CleanupPending}
    requires entry.fingerprints != [] ==> Located(entry).source != Located(entry).backup
    modifies m`faults, m`files, m`free, m`journals
    ensures m.faults <= old(m.faults)
    ensures OnlyEntry(old(m.journals), m.journals, id)
    ensures m.journals[id] == entry.(revision := m.journals[id].revision, state := m.journals[id].state)
    ensures CleanedUp(old(m.files), m.files, entry)
    ensures m.files != old(m.files) ==>
              && mounted && entry.fingerprints != []
              && (Located(entry).backup in old(m.files) ==> BackedUp(old(m.files), Located(entry)))
    ensures m.journals[id].state in {entry.state, CleanupPending, CleanupComplete, RecoveryPending}
    ensures m.journals[id].state == RecoveryPending ==> m.files == old(m.files)
    ensures m.journals[id].state == CleanupComplete ==>
              entry.fingerprints != [] && Active(m.files, Located(entry)) && Located(entry).backup !in m.files
    ensures r.Ok? ==> m.journals[id].state in {CleanupComplete, RecoveryPending}
    ensures old(m.faults) == 0 ==>
              var proven := mounted && entry.fingerprints != [] && Active(old(m.files), Located(entry))
                            && (Located(entry).backup in old(m.files) ==> BackedUp(old(m.files), Located(entry)));
              && (r.Ok? ==> (m.journals[id].state == CleanupComplete <==> proven))
              && (proven ==> m.journals[id].state != RecoveryPending)
    ensures r.Crashed? ==> m.crashes
    ensures old(m.faults) == 0 ==> !r.Thrown?
  {
    var proven := false;
    if mounted && entry.fingerprints != [] {
      r, proven := ProveResidue(m, Located(entry));
      if !r.Ok? { return; }
    }
    if !proven {
      var pending :- MarkRecoveryPending(m, id, entry.revision);
      return Ok;
    }
    :- m.Remove(Located(entry).backup);
    r := FinishCleanup(m, id, entry);
  }

  method RemoveCandidates(m: Device, candidates: seq<Path>, first: string) returns (r: Outcome)
    modifies m`faults, m`files, m`free
    ensures m.faults <= old(m.faults) && (r.Crashed? ==> m.crashes) && (old(m.faults) == 0 ==> !r.Thrown?)
    ensures SameExcept(old(m.files), m.files, set c | c in candidates :: PathBeside(first, c))
    ensures forall p :: p in m.files ==> p in old(m.files) && m.files[p] == old(m.files)[p]
    ensures r.Ok? ==> m.files == old(m.files) - set c | c in candidates :: PathBeside(first, c)
  {
    ghost var removed := set c | c in candidates :: PathBeside(first, c);
    r := Ok;
    for i := 0 to |candidates|
      invariant m.faults <= old(m.faults) && r.Ok?
      invariant forall p :: p in m.files ==> p in old(m.files) && m.files[p] == old(m.files)[p]
      invariant SameExcept(old(m.files), m.files, removed)
      invariant forall k :: 0 <= k < i ==> PathBeside(first, candidates[k]) !in m.files
    {
      assert candidates[i] in candidates;
      r := m.Remove(PathBeside(first, candidates[i]));
      if !r.Ok? { return; }
    }
    forall p | p in removed ensures p !in m.files {
      var c :| c in candidates && PathBeside(first, c) == p;
      var k :| 0 <= k < |candidates| && candidates[k] == c;
    }
    assert m.files == old(m.files) - removed;
  }

  /** The user's request to drop the leftovers of a repair: only the first file is proven,
      and only beside it are leftovers looked for. */
  method CleanupVerifiedResidue(m: Device, id: JournalId, entry: Entry, mounted: bool) returns (r: Outcome)
    requires id in m.journals && m.journals[id] == entry
    requires entry.fingerprints != [] ==> Located(entry).source !in Residue(entry)
    modifies m`faults, m`files, m`free, m`journals
    ensures m.faults <= old(m.faults)
    ensures OnlyEntry(old(m.journals), m.journals, id)
    ensures m.journals[id] == entry.(revision := m.journals[id].revision, state := m.journals[id].state)
    ensures !(mounted && entry.fingerprints != [] && Active(old(m.files), Located(entry))) ==>
              m.files == old(m.files) && m.journals == old(m.journals) && !r.Ok?
    ensures entry.fingerprints != [] ==> SameExcept(old(m.files), m.files, Residue(entry))
    ensures forall p :: p in m.files ==> p in old(m.files) && m.files[p] == old(m.files)[p]
    ensures r.Ok? ==> entry.fingerprints != [] && m.files == old(m.files) - Residue(entry)
    ensures r.Ok? ==> m.journals[id].state == if entry.state == CleanupPending then CleanupComplete
                                              else if Restorable(entry.state) then Restored else RecoveryPending
    ensures m.journals[id].state == entry.state || Located(entry).backup !in m.files
    ensures m.journals[id].state == entry.state
            || if entry.state == CleanupPending then m.journals[id].state == CleanupComplete
               else m.journals[id].state in {RollbackRequired, RollingBack, Restored, RecoveryPending}
    ensures r.Crashed? ==> m.crashes
    ensures old(m.Quiet()) && mounted && entry.fingerprints != [] && Active(old(m.files), Located(entry)) ==> r.Ok?
  {
    hide OnlyEntry, SameExcept, Residue;
    OneWrite(m.journals, id, entry);
    NothingDropped(m.files, entry);
    if !mounted || entry.fingerprints == [] { return Thrown(DeviceInaccessible); }
    var part := Located(entry);
    if part.source !in m.files { return Thrown(ManualRecoveryRequired); }
    var active :- m.Read(part.source);
    if active != part.contents { return Thrown(ManualRecoveryRequired); }
    r := RemoveResidue(m, entry);
    if !r.Ok? { return; }
    if entry.state == CleanupPending {
      var done;
      r, done := Transition(m, id, entry.revision, CleanupComplete, NoPatch);
      OneWrite(old(m.journals), id, done);
    } else {
      r := ToRestored(m, id, entry);
    }
    HasEntry(old(m.journals), m.journals, id);
  }

  lemma NothingDropped(files: Files, entry: Entry)
    ensures entry.fingerprints != [] ==> SameExcept(files, files, Residue(entry))
  {
  }

  /** Candidates and backup beside the first file. */
  method RemoveResidue(m: Device, entry: Entry) returns (r: Outcome)
    requires entry.fingerprints != []
    modifies m`faults, m`files, m`free
    ensures m.faults <= old(m.faults) && (r.Crashed? ==> m.crashes) && (old(m.faults) == 0 ==> !r.Thrown?)
    ensures SameExcept(old(m.files), m.files, Residue(entry))
    ensures forall p :: p in m.files ==> p in old(m.files) && m.files[p] == old(m.files)[p]
    ensures r.Ok? ==> m.files == old(m.files) - Residue(entry) && Located(entry).backup !in m.files
  {
    r := RemoveCandidates(m, entry.candidates, entry.fingerprints[0].name);
    if !r.Ok? { return; }
    :- m.Remove(Located(entry).backup);
    r := Ok;
    assert m.files == old(m.files) - Residue(entry);
  }

  ghost predicate WellRecorded(entry: Entry) {
    && Distinct(Parts(entry))
    && (entry.fingerprints != [] ==> Located(entry).source != Located(entry).backup)
  }
}
