/** Replacement of one fragmented file by a byte-identical candidate. */
module Repair {
  import opened Storage
  import opened Journal
  import opened Candidates

  datatype Item = Item(
    format: Format,
    relativePaths: seq<string>,
    fingerprints: seq<Fingerprint>,
    files: seq<string>,
    temporaryBytes: int)

  /** The first fingerprint recorded for `name`. */
  function Find(fingerprints: seq<Fingerprint>, name: string): (found: Option<Fingerprint>)
    ensures found.Some? ==> found.value in fingerprints && found.value.name == name
    ensures found.None? ==> forall f :: f in fingerprints ==> f.name != name
  {
    if fingerprints == [] then None
    else if fingerprints[0].name == name then Some(fingerprints[0])
    else Find(fingerprints[1..], name)
  }

  ghost predicate Holds(files: Files, path: Path, contents: Bytes) {
    path in files && files[path] == contents
  }

  /** `after` differs from `before` at most on `touched`. */
  ghost predicate SameExcept(before: Files, after: Files, touched: set<Path>) {
    forall p :: p !in touched ==> (p in before <==> p in after) && (p in before ==> before[p] == after[p])
  }

  lemma SameAsBefore(files: Files, touched: set<Path>)
    ensures SameExcept(files, files, touched)
  {
  }

  lemma SameIdsAsBefore(ids: Ids<Path>, touched: set<Path>)
    ensures SameIds(ids, ids, touched)
  {
  }

  lemma SameIdsBoth(a: Ids<Path>, b: Ids<Path>, c: Ids<Path>, touched: set<Path>, later: set<Path>)
    requires SameIds(a, b, touched) && SameIds(b, c, later) && later <= touched
    ensures SameIds(a, c, touched)
  {
  }

  lemma SameExceptBoth(a: Files, b: Files, c: Files, touched: set<Path>, later: set<Path>)
    requires SameExcept(a, b, touched) && SameExcept(b, c, later) && later <= touched
    ensures SameExcept(a, c, touched)
  {
  }

  /** The names one repair of `name` may touch. */
  function Touched(name: string, operation: string): set<Path> {
    {File(name), Backup(name, operation), Candidate(name, operation)}
  }

  /** States in which nothing has been renamed yet. */
  predicate BeforePromotion(s: State) {
    s in {Planned, PreflightValidated, Staging, CandidateVerified, AbortedUnchanged, CommitIntent}
  }

  predicate Settled(s: State) { s in {Restored, CleanupComplete} }

  /** The original bytes are under the source or the backup name, and neither name
      holds anything else. */
  ghost predicate Kept(files: Files, name: string, operation: string, original: Bytes) {
    var source, backup := File(name), Backup(name, operation);
    && (source in files || backup in files)
    && (source in files ==> files[source] == original)
    && (backup in files ==> files[backup] == original)
  }

  /** No backup is left behind a journal that has not started or has ended. */
  ghost predicate Recoverable(files: Files, state: State, name: string, operation: string, original: Bytes) {
    && Kept(files, name, operation, original)
    && (BeforePromotion(state) || Settled(state) ==> Backup(name, operation) !in files)
  }

  /** What the device looks like for each journal state of a repair of `name`,
      wherever the process stopped. */
  ghost predicate Sound(files: Files, state: State, name: string, operation: string, original: Bytes) {
    && Recoverable(files, state, name, operation, original)
    && (PastCommit(state) ==> File(name) in files)
  }

  /** Source, candidate verified, no backup: the device when promotion starts. */
  ghost predicate Ready(files: Files, name: string, operation: string, original: Bytes) {
    && File(name) in files && files[File(name)] == original
    && Candidate(name, operation) in files && files[Candidate(name, operation)] == original
    && Backup(name, operation) !in files
  }

  /** After the first rename. */
  ghost function SetAside(files: Files, name: string, operation: string): Files
    requires File(name) in files
  {
    (files - {File(name)})[Backup(name, operation) := files[File(name)]]
  }

  /** After the second rename. */
  ghost function Swapped(files: Files, name: string, operation: string): Files
    requires File(name) in files && Candidate(name, operation) in files
  {
    (SetAside(files, name, operation) - {Candidate(name, operation)})[File(name) := files[Candidate(name, operation)]]
  }

  /** Neither rename loses the original, and deleting the backup after both leaves
      the device as it was, without the candidate. */
  lemma SwapKeeps(files: Files, name: string, operation: string, original: Bytes)
    requires Ready(files, name, operation, original)
    ensures var aside, swapped := SetAside(files, name, operation), Swapped(files, name, operation);
            && Kept(files, name, operation, original)
            && Kept(aside, name, operation, original) && File(name) !in aside
            && SameExcept(files, aside, Touched(name, operation))
            && Kept(swapped, name, operation, original) && File(name) in swapped && Backup(name, operation) in swapped
            && SameExcept(files, swapped, Touched(name, operation))
            && swapped - {Backup(name, operation)} == files - {Candidate(name, operation)}
            && Kept(files - {Candidate(name, operation)}, name, operation, original)
            && SameExcept(files, files - {Candidate(name, operation)}, Touched(name, operation))
  {
  }

  /** Device and journal agree at every stop of the promotion. */
  lemma SwapIsSound(files: Files, name: string, operation: string, original: Bytes)
    requires Ready(files, name, operation, original)
    ensures Sound(files, CommitIntent, name, operation, original) && Sound(files, Promoting, name, operation, original)
    ensures var aside, swapped := SetAside(files, name, operation), Swapped(files, name, operation);
            && Sound(aside, Promoting, name, operation, original)
            && (forall s :: s in {Promoting, ActiveValidating, Committed, CleanupPending} ==>
                  Sound(swapped, s, name, operation, original))
            && (forall s :: s in {Committed, CleanupPending, CleanupComplete} ==>
                  Sound(swapped - {Backup(name, operation)}, s, name, operation, original))
  {
    SwapKeeps(files, name, operation, original);
  }

  lemma ReadyIsSound(files: Files, name: string, operation: string, original: Bytes)
    requires Ready(files, name, operation, original)
    ensures Sound(files, CandidateVerified, name, operation, original)
    ensures Sound(files, CommitIntent, name, operation, original)
  {
  }

  lemma RestoredExactly(before: Files, after: Files, name: string, operation: string, original: Bytes)
    requires Ready(before, name, operation, original)
    requires SameExcept(Swapped(before, name, operation), after, {File(name), Backup(name, operation)})
    requires Sound(after, Restored, name, operation, original)
    ensures after == before - {Candidate(name, operation)}
  {
  }

  /** `later` records the same repair as `entry`, perhaps with its backup. */
  ghost predicate SameRepair(entry: Entry, later: Entry, backup: Path) {
    && later.operation == entry.operation && later.fingerprints == entry.fingerprints
    && later.intents == entry.intents && later.candidates == entry.candidates
    && (later.backups == entry.backups || later.backups == [backup])
  }

  type Answers = seq<Answer<Path>>

  /** Nobody had cancelled. */
  ghost function Wanted(): Answer<Path> { Answer(NotCancelled, 0, true) }

  /** The file number `file` under `path` was found contiguous. */
  ghost function FoundWhole(path: Path, file: nat): Answer<Path> { Answer(Contiguous(path), file, true) }

  /** What was heard: that the work is still wanted, and that the file under `path` is contiguous. */
  ghost predicate Validated(before: Answers, after: Answers, path: Path, ids: Ids<Path>) {
    after == before + [Wanted(), FoundWhole(path, ids.Of(path))]
  }

  /** All new answers were `yes`, and these were the last ones. */
  ghost predicate EndsWith(before: Answers, after: Answers, heard: Answers) {
    Heard(before, after, None) && |before| + |heard| <= |after| && after[|after| - |heard|..] == heard
  }

  lemma EndsLater(a: Answers, b: Answers, c: Answers, heard: Answers)
    requires Heard(a, b, None) && EndsWith(b, c, heard)
    ensures EndsWith(a, c, heard)
  {
    HeardBoth(a, b, c, None);
  }

  lemma ExtendsSelf(answers: Answers)
    ensures Extends(answers, answers)
  {
  }

  /** The original is the file number `file`: the backup is that file, and while there is no
      backup the source is. */
  ghost predicate Original(files: Files, ids: Ids<Path>, name: string, operation: string, file: nat) {
    if Backup(name, operation) in files then ids.Of(Backup(name, operation)) == file
    else File(name) in files && ids.Of(File(name)) == file
  }

  /** No other names were given to files. */
  ghost predicate SameIds(before: Ids<Path>, after: Ids<Path>, touched: set<Path>) {
    forall p :: p !in touched ==> after.Of(p) == before.Of(p)
  }

  /** Why the promotion of `name` is given up, as far as it was asked. */
  ghost predicate PromotionRefused(before: Answers, after: Answers, name: string, code: Code) {
    match code
    case Cancelled => Heard(before, after, Some(NotCancelled))
    case StillFragmented => Heard(before, after, Some(Contiguous(File(name))))
    case _ => false
  }

  method SyncDirectory(m: Device) returns (r: Outcome)
    modifies m`faults
    ensures Stepped(r, old(m.faults), m.faults, m.crashes, true, IoError)
  {
    r := m.Next();
  }

  /** The two renames.  A flag is set only after the rename and the directory sync
      behind it have both succeeded. */
  method Swap(m: Device, name: string, operation: string)
    returns (r: Outcome, originalRenamed: bool, candidatePromoted: bool)
    requires File(name) in m.files && Candidate(name, operation) in m.files && Backup(name, operation) !in m.files
    modifies m`faults, m`files, m`ids, m`free
    ensures m.faults <= old(m.faults)
    ensures m.Space() == old(m.Space())
    ensures r.Ok? <==> candidatePromoted
    ensures candidatePromoted ==> originalRenamed && m.files == Swapped(old(m.files), name, operation)
    ensures originalRenamed && !candidatePromoted ==>
              m.files in {SetAside(old(m.files), name, operation), Swapped(old(m.files), name, operation)}
    ensures !originalRenamed ==> m.files in {old(m.files), SetAside(old(m.files), name, operation)}
    // the original is set aside and the candidate takes its place, as files
    ensures SameIds(old(m.ids), m.ids, Touched(name, operation))
    ensures Original(m.files, m.ids, name, operation, old(m.ids).Of(File(name)))
    ensures candidatePromoted ==> m.ids.Of(File(name)) == old(m.ids).Of(Candidate(name, operation))
    ensures r.Thrown? ==> r.code == IoError && m.faults < old(m.faults)
    ensures old(m.faults) == 0 ==> !r.Thrown?
    ensures r.Crashed? ==> m.crashes
  {
    originalRenamed, candidatePromoted := false, false;
    :- m.Rename(File(name), Backup(name, operation));
    :- SyncDirectory(m);
    originalRenamed := true;
    :- m.Rename(Candidate(name, operation), File(name));
    :- SyncDirectory(m);
    r, candidatePromoted := Ok, true;
  }

  /** The commit: the one transition after which the new file stands. */
  method Commit(m: Device, id: JournalId, entry: Entry) returns (r: Outcome, journal: Entry)
    requires id in m.journals && m.journals[id] == entry && entry.state == ActiveValidating
    modifies m`faults, m`journals
    ensures m.faults <= old(m.faults)
    ensures OnlyEntry(old(m.journals), m.journals, id)
    ensures !r.Crashed? ==> journal == m.journals[id]
    ensures m.journals[id] == entry.(revision := m.journals[id].revision, state := m.journals[id].state)
    ensures m.journals[id].state in {ActiveValidating, Committed, CleanupPending}
    ensures r.Ok? ==> journal.state == CleanupPending
    ensures r.Thrown? ==> r.code == IoError && m.faults < old(m.faults)
    ensures r.Crashed? ==> m.crashes
    ensures old(m.faults) == 0 ==> !r.Thrown?
  {
    journal := entry;
    var next :- Transition(m, id, journal.revision, Committed, NoPatch);
    journal := next;
    next :- Transition(m, id, journal.revision, CleanupPending, NoPatch);
    journal := next;
    r := Ok;
  }

  /** The last look at the promoted file. */
  method CheckActive(m: Device, name: string, expected: Fingerprint) returns (r: Outcome)
    modifies m`faults, m`answers
    ensures m.faults <= old(m.faults) && (r.Crashed? ==> m.crashes)
    ensures Extends(old(m.answers), m.answers)
    ensures r.Ok? ==>
              Holds(m.files, File(name), expected.contents) && Validated(old(m.answers), m.answers, File(name), m.ids)
    ensures r.Thrown? && Holds(m.files, File(name), expected.contents) ==>
              || (r.code == IoError && m.faults < old(m.faults))
              || PromotionRefused(old(m.answers), m.answers, name, r.code)
  {
    var proceed := m.Ask(NotCancelled);
    if !proceed { return Thrown(Cancelled); }
    var active :- m.Read(File(name));
    var contiguous :- m.Inspect(File(name));
    if active != expected.contents { return Thrown(HashMismatch); }
    if !contiguous { return Thrown(StillFragmented); }
    r := Ok;
  }

  /** Re-verification of the promoted file and the commit. */
  method ValidateAndCommit(m: Device, id: JournalId, name: string, expected: Fingerprint, backup: Path, entry: Entry)
    returns (r: Outcome, journal: Entry)
    requires id in m.journals && m.journals[id] == entry && entry.state == Promoting
    modifies m`faults, m`journals, m`answers
    ensures m.faults <= old(m.faults)
    ensures OnlyEntry(old(m.journals), m.journals, id)
    ensures r.Ok? || r.Thrown? ==> journal == m.journals[id]
    ensures SameRepair(entry, m.journals[id], backup)
    ensures m.journals[id].state in {Promoting, ActiveValidating, Committed, CleanupPending}
    ensures r.Ok? ==> journal.state == CleanupPending
    ensures PastCommit(m.journals[id].state) ==> Holds(m.files, File(name), expected.contents)
    // the commit follows the verdict on the promoted file, and a refusal is on record
    ensures r.Thrown? && PastCommit(m.journals[id].state) ==> m.faults < old(m.faults)
    ensures Extends(old(m.answers), m.answers)
    ensures PastCommit(m.journals[id].state) ==> Validated(old(m.answers), m.answers, File(name), m.ids)
    ensures r.Thrown? && Holds(old(m.files), File(name), expected.contents) ==>
              || (r.code == IoError && m.faults < old(m.faults))
              || PromotionRefused(old(m.answers), m.answers, name, r.code)
    ensures r.Crashed? ==> m.crashes
    ensures old(m.faults) == 0 && Holds(m.files, File(name), expected.contents) && r.Thrown? ==>
              r.code in {Cancelled, StillFragmented} && journal.state == ActiveValidating
  {
    hide Heard, Validated;
    journal := entry;
    var next :- Transition(m, id, journal.revision, ActiveValidating, SetBackups([backup]));
    journal := next;
    r := CheckActive(m, name, expected);
    if !r.Ok? { return; }
    ghost var journals := m.journals;
    r, journal := Commit(m, id, journal);
    hide OnlyEntry;
    OnlyEntryBoth(old(m.journals), journals, m.journals, id);
  }

  /** Deletion of the backup after the commit. */
  method CleanUp(m: Device, id: JournalId, backup: Path, entry: Entry) returns (r: Outcome)
    requires id in m.journals && m.journals[id] == entry && entry.state == CleanupPending
    modifies m`faults, m`files, m`free, m`journals
    ensures m.faults <= old(m.faults)
    ensures OnlyEntry(old(m.journals), m.journals, id)
    ensures m.journals[id] in {entry, entry.(revision := entry.revision + 1, state := CleanupComplete)}
    ensures m.files in {old(m.files), old(m.files) - {backup}}
    ensures r.Ok? <==> m.journals[id].state == CleanupComplete
    ensures r.Ok? ==> m.files == old(m.files) - {backup}
    ensures r.Thrown? ==> r.code == IoError && m.faults < old(m.faults)
    ensures m.Space() == old(m.Space())
    ensures old(m.faults) == 0 ==> !r.Thrown?
    ensures r.Crashed? ==> m.crashes
  {
    r := m.Remove(backup);
    if !r.Ok? { return; }
    :- SyncDirectory(m);
    var done :- Transition(m, id, entry.revision, CleanupComplete, NoPatch);
    r := Ok;
  }

  /** What follows the two renames: the last check, the commit, the deletion of the backup. */
  method ValidateAndCleanUp(m: Device, id: JournalId, name: string, expected: Fingerprint, backup: Path, entry: Entry)
    returns (r: Outcome, journal: Entry)
    requires id in m.journals && m.journals[id] == entry && entry.state == Promoting
    modifies m`faults, m`files, m`free, m`journals, m`answers
    ensures m.faults <= old(m.faults)
    ensures OnlyEntry(old(m.journals), m.journals, id) && SameRepair(entry, m.journals[id], backup)
    ensures m.journals[id].state in {Promoting, ActiveValidating, Committed, CleanupPending, CleanupComplete}
    ensures r.Thrown? ==> journal == m.journals[id]
    ensures PastCommit(m.journals[id].state) ==> Holds(old(m.files), File(name), expected.contents)
    ensures m.files == old(m.files) || (PastCommit(m.journals[id].state) && m.files == old(m.files) - {backup})
    ensures r.Ok? <==> m.journals[id].state == CleanupComplete
    ensures r.Ok? ==> m.files == old(m.files) - {backup}
    ensures r.Thrown? && PastCommit(m.journals[id].state) ==> m.faults < old(m.faults)
    ensures Extends(old(m.answers), m.answers)
    ensures PastCommit(m.journals[id].state) ==> Validated(old(m.answers), m.answers, File(name), m.ids)
    ensures r.Thrown? && Holds(old(m.files), File(name), expected.contents) ==>
              || (r.code == IoError && m.faults < old(m.faults))
              || PromotionRefused(old(m.answers), m.answers, name, r.code)
    ensures m.Space() == old(m.Space())
    ensures r.Crashed? ==> m.crashes
    ensures old(m.faults) == 0 && Holds(old(m.files), File(name), expected.contents) && r.Thrown? ==>
              r.code in {Cancelled, StillFragmented} && journal.state == ActiveValidating
  {
    r, journal := ValidateAndCommit(m, id, name, expected, backup, entry);
    if !r.Ok? { return; }
    r := CleanUp(m, id, backup, journal);
    journal := m.journals[id];
  }

  /** From the commit intent to the deleted backup: the guarded block of `execute`. */
  method Promote(m: Device, id: JournalId, name: string, operation: string, expected: Fingerprint, entry: Entry)
    returns (r: Outcome, journal: Entry, originalRenamed: bool, candidatePromoted: bool)
    requires id in m.journals && m.journals[id] == entry && entry.state == CommitIntent
    requires Ready(m.files, name, operation, expected.contents)
    modifies m`faults, m`files, m`ids, m`free, m`journals, m`answers
    ensures m.faults <= old(m.faults)
    ensures SameExcept(old(m.files), m.files, Touched(name, operation))
    ensures OnlyEntry(old(m.journals), m.journals, id) && SameRepair(entry, m.journals[id], Backup(name, operation))
    ensures Sound(m.files, m.journals[id].state, name, operation, expected.contents)
    ensures m.journals[id].state in
              {CommitIntent, Promoting, ActiveValidating, Committed, CleanupPending, CleanupComplete}
    ensures r.Ok? <==> m.journals[id].state == CleanupComplete
    ensures r.Ok? ==> m.files == old(m.files) - {Candidate(name, operation)}
    ensures r.Thrown? && PastCommit(m.journals[id].state) ==> m.faults < old(m.faults)
    ensures Extends(old(m.answers), m.answers) && SameIds(old(m.ids), m.ids, Touched(name, operation))
    ensures PastCommit(m.journals[id].state) ==>
              && Validated(old(m.answers), m.answers, File(name), m.ids)
              && m.ids.Of(File(name)) == old(m.ids).Of(Candidate(name, operation))
    ensures !PastCommit(m.journals[id].state) ==>
              Original(m.files, m.ids, name, operation, old(m.ids).Of(File(name)))
    ensures r.Thrown? ==>
              || (r.code == IoError && m.faults < old(m.faults))
              || PromotionRefused(old(m.answers), m.answers, name, r.code)
    ensures m.Space() == old(m.Space())
    ensures r.Thrown? ==> journal == m.journals[id]
    ensures r.Thrown? && !PastCommit(journal.state) ==>
              && (candidatePromoted ==> originalRenamed && m.files == Swapped(old(m.files), name, operation))
              && (originalRenamed ==>
                    m.files in {SetAside(old(m.files), name, operation), Swapped(old(m.files), name, operation)})
              && (!originalRenamed ==> m.files in {old(m.files), SetAside(old(m.files), name, operation)})
    ensures r.Crashed? ==> m.crashes
    ensures old(m.faults) == 0 && r.Thrown? ==>
              r.code in {Cancelled, StillFragmented} && journal.state == ActiveValidating && candidatePromoted
  {
    hide SameExcept, OnlyEntry, Sound, Heard, Validated, PromotionRefused, Extends, SameIds, Kept, Touched;
    ExtendsSelf(m.answers);
    SameIdsAsBefore(m.ids, Touched(name, operation));
    SameAsBefore(m.files, Touched(name, operation));
    SwapKeeps(m.files, name, operation, expected.contents);
    SwapIsSound(m.files, name, operation, expected.contents);
    journal, originalRenamed, candidatePromoted := entry, false, false;
    var next;
    r, next := Transition(m, id, journal.revision, Promoting, NoPatch);
    ghost var promoting := m.journals;
    OneWrite(old(m.journals), id, next);
    if !r.Ok? { return; }
    journal := next;
    r, originalRenamed, candidatePromoted := Swap(m, name, operation);
    if !r.Ok? { return; }
    r, journal := ValidateAndCleanUp(m, id, name, expected, Backup(name, operation), journal);
    OnlyEntryBoth(old(m.journals), promoting, m.journals, id);
  }

  /** The undo inside the rollback: puts the backup back and checks what it restored. */
  method Undo(m: Device, name: string, operation: string, expected: Fingerprint, originalRenamed: bool,
              candidatePromoted: bool)
    returns (r: Outcome)
    requires Kept(m.files, name, operation, expected.contents)
    requires originalRenamed ==> Backup(name, operation) in m.files
    requires !originalRenamed && Backup(name, operation) in m.files ==> File(name) !in m.files
    requires candidatePromoted ==> originalRenamed
    modifies m`faults, m`files, m`ids, m`free
    ensures m.faults <= old(m.faults)
    ensures SameExcept(old(m.files), m.files, {File(name), Backup(name, operation)})
    ensures Kept(m.files, name, operation, expected.contents)
    ensures r.Ok? ==> Backup(name, operation) !in m.files
    ensures SameIds(old(m.ids), m.ids, {File(name), Backup(name, operation)})
    ensures forall file :: Original(old(m.files), old(m.ids), name, operation, file) ==>
              Original(m.files, m.ids, name, operation, file)
    ensures m.Space() == old(m.Space())
    ensures old(m.faults) == 0 && (originalRenamed || File(name) in old(m.files)) ==> !r.Thrown?
    ensures r.Crashed? ==> m.crashes
  {
    if originalRenamed {
      if candidatePromoted {
        r := m.Remove(File(name));
        if !r.Ok? { return; }
      }
      :- m.Rename(Backup(name, operation), File(name));
      :- SyncDirectory(m);
    }
    var restored :- m.Read(File(name));
    if restored != expected.contents { return Thrown(RestoredHashMismatch); }
    r := Ok;
  }

  /** Records that a rollback is due and under way; refused past the commit. */
  method BeginRollback(m: Device, id: JournalId, entry: Entry) returns (r: Outcome, journal: Entry)
    requires id in m.journals && m.journals[id] == entry
    requires entry.state in {CommitIntent, Promoting, ActiveValidating, Committed, CleanupPending}
    modifies m`faults, m`journals
    ensures m.faults <= old(m.faults)
    ensures OnlyEntry(old(m.journals), m.journals, id)
    ensures m.journals[id] == entry.(revision := m.journals[id].revision, state := m.journals[id].state)
    ensures PastCommit(entry.state) ==> r.Thrown? && m.journals[id] == entry
    ensures r.Thrown? ==>
              if PastCommit(entry.state) then r.code == InvalidJournalTransition
              else r.code == IoError && m.faults < old(m.faults)
    ensures m.journals[id].state in {entry.state, RollbackRequired, RollingBack}
    ensures r.Ok? ==> m.journals[id].state == RollingBack && journal == m.journals[id]
    ensures old(m.faults) == 0 && !PastCommit(entry.state) ==> !r.Thrown?
    ensures r.Crashed? ==> m.crashes
  {
    journal :- Transition(m, id, entry.revision, RollbackRequired, NoPatch);
    journal :- Transition(m, id, journal.revision, RollingBack, NoPatch);
    r := Ok;
  }

  /** The rollback proper, recorded as `Restored` or `RecoveryPending`. */
  method UndoAndRecord(m: Device, id: JournalId, name: string, operation: string, expected: Fingerprint,
                       originalRenamed: bool, candidatePromoted: bool, entry: Entry)
    returns (r: Outcome)
    requires id in m.journals && m.journals[id] == entry && entry.state == RollingBack
    requires Kept(m.files, name, operation, expected.contents)
    requires originalRenamed ==> Backup(name, operation) in m.files
    requires !originalRenamed && Backup(name, operation) in m.files ==> File(name) !in m.files
    requires candidatePromoted ==> originalRenamed
    modifies m`faults, m`files, m`ids, m`free, m`journals
    ensures m.faults <= old(m.faults)
    ensures SameExcept(old(m.files), m.files, {File(name), Backup(name, operation)})
    ensures OnlyEntry(old(m.journals), m.journals, id)
    ensures m.journals[id] == entry.(revision := m.journals[id].revision, state := m.journals[id].state)
    ensures m.journals[id].state in {RollingBack, Restored, RecoveryPending}
    ensures Recoverable(m.files, m.journals[id].state, name, operation, expected.contents)
    ensures SameIds(old(m.ids), m.ids, {File(name), Backup(name, operation)})
    ensures forall file :: Original(old(m.files), old(m.ids), name, operation, file) ==>
              Original(m.files, m.ids, name, operation, file)
    ensures r.Thrown? ==> r.code == IoError && m.faults < old(m.faults)
    ensures m.Space() == old(m.Space())
    ensures r.Crashed? ==> m.crashes
    ensures old(m.faults) == 0 && (originalRenamed || File(name) in old(m.files)) ==>
              !r.Thrown? && m.journals[id].state != RecoveryPending && (r.Ok? ==> m.journals[id].state == Restored)
  {
    hide SameExcept, OnlyEntry, SameIds, Original;
    OneWrite(m.journals, id, entry);
    r := Undo(m, name, operation, expected, originalRenamed, candidatePromoted);
    if r.Ok? {
      var restored;
      r, restored := Transition(m, id, entry.revision, Restored, NoPatch);
      OneWrite(old(m.journals), id, restored);
    }
    if r.Thrown? {
      var pending;
      r, pending := Transition(m, id, entry.revision, RecoveryPending, NoPatch);
      OneWrite(old(m.journals), id, pending);
    }
  }

  /** The handler of a failed promotion.  Past the commit the table refuses
      `RollbackRequired`, so nothing on the device is touched. */
  method RollBack(m: Device, id: JournalId, name: string, operation: string, expected: Fingerprint,
                  originalRenamed: bool, candidatePromoted: bool, cause: Code, entry: Entry)
    returns (r: Outcome)
    requires id in m.journals && m.journals[id] == entry
    requires entry.state in {CommitIntent, Promoting, ActiveValidating, Committed, CleanupPending}
    requires Sound(m.files, entry.state, name, operation, expected.contents)
    requires !PastCommit(entry.state) ==>
               && (originalRenamed ==> Backup(name, operation) in m.files)
               && (!originalRenamed && Backup(name, operation) in m.files ==> File(name) !in m.files)
               && (candidatePromoted ==> originalRenamed)
    modifies m`faults, m`files, m`ids, m`free, m`journals
    ensures m.faults <= old(m.faults)
    ensures !r.Ok?
    ensures SameExcept(old(m.files), m.files, {File(name), Backup(name, operation)})
    ensures OnlyEntry(old(m.journals), m.journals, id)
    ensures m.journals[id] == entry.(revision := m.journals[id].revision, state := m.journals[id].state)
    ensures Sound(m.files, m.journals[id].state, name, operation, expected.contents)
    ensures PastCommit(entry.state) ==> m.files == old(m.files) && m.journals[id] == entry
    ensures m.journals[id].state in {entry.state, RollbackRequired, RollingBack, Restored, RecoveryPending}
    ensures r.Crashed? ==> m.crashes
    ensures old(m.faults) == 0 && !PastCommit(entry.state) && (originalRenamed || File(name) in old(m.files)) ==>
              && m.journals[id].state != RecoveryPending
              && (r.Thrown? ==> r.code == cause && m.journals[id].state == Restored)
    ensures SameIds(old(m.ids), m.ids, {File(name), Backup(name, operation)})
    ensures PastCommit(entry.state) ==> m.ids == old(m.ids)
    ensures forall file :: Original(old(m.files), old(m.ids), name, operation, file) ==>
              Original(m.files, m.ids, name, operation, file)
    ensures r.Thrown? ==>
              || (!PastCommit(entry.state) && r.code == cause)
              || (r.code == IoError && m.faults < old(m.faults))
              || (PastCommit(entry.state) && r.code == InvalidJournalTransition)
    ensures m.Space() == old(m.Space())
  {
    hide SameExcept, OnlyEntry, SameIds, Original;
    SameAsBefore(m.files, {File(name), Backup(name, operation)});
    SameIdsAsBefore(m.ids, {File(name), Backup(name, operation)});
    var journal;
    r, journal := BeginRollback(m, id, entry);
    ghost var begun := m.journals;
    HasEntry(old(m.journals), begun, id);
    if !r.Ok? { return; }
    r := UndoAndRecord(m, id, name, operation, expected, originalRenamed, candidatePromoted, journal);
    OnlyEntryBoth(old(m.journals), begun, m.journals, id);
    if r.Ok? { r := Thrown(cause); }
  }

  /** No backup or candidate name of this operation is in use for `names`.  The
      operation's identifier is random, so this holds when it starts. */
  ghost predicate Fresh(files: Files, operation: string, names: seq<string>) {
    forall n :: n in names ==> Backup(n, operation) !in files && Candidate(n, operation) !in files
  }

  /** Checks that precede the candidate: the source is what was diagnosed and there
      is room for a copy plus the margin. */
  method Preflight(m: Device, name: string, expected: Fingerprint, temporaryBytes: int) returns (r: Outcome)
    modifies m`faults, m`answers
    ensures m.faults <= old(m.faults)
    ensures r.Ok? ==> Holds(m.files, File(name), expected.contents) && temporaryBytes <= m.free
    ensures r.Crashed? ==> m.crashes
    ensures r.Thrown? ==>
              match r.code
              case IoError => m.faults < old(m.faults)
              case NotFound => File(name) !in m.files
              case SourceChanged => !Holds(m.files, File(name), expected.contents)
                                    || Heard(old(m.answers), m.answers, Some(Unmodified(File(name))))
              case InsufficientSpace => m.free < temporaryBytes
              case _ => false
    ensures Extends(old(m.answers), m.answers)
    ensures r.Ok? ==> m.answers == old(m.answers) + [Answer(Unmodified(File(name)), m.ids.Of(File(name)), true)]
  {
    r := m.Open(File(name));
    if !r.Ok? { return; }
    :- m.Open(File(name));
    var unmodified := m.Ask(Unmodified(File(name)));  // since the recorded time
    if !unmodified { return Thrown(SourceChanged); }
    var contents :- m.Read(File(name));
    if contents != expected.contents { return Thrown(SourceChanged); }
    :- m.Next();
    if m.free < temporaryBytes { return Thrown(InsufficientSpace); }
    r := Ok;
  }

  /** Records the validated preflight and the start of staging, unless cancelled. */
  method StartStaging(m: Device, id: JournalId, entry: Entry) returns (r: Outcome, journal: Entry, proceed: bool)
    requires id in m.journals && m.journals[id] == entry && entry.state == Planned
    modifies m`faults, m`journals, m`answers
    ensures m.faults <= old(m.faults)
    ensures OnlyEntry(old(m.journals), m.journals, id)
    ensures m.journals[id] == entry.(revision := m.journals[id].revision, state := m.journals[id].state)
    ensures m.journals[id].state in {Planned, PreflightValidated, Staging, AbortedUnchanged}
    ensures r.Ok? ==> journal == m.journals[id] && journal.state == if proceed then Staging else AbortedUnchanged
    ensures Extends(old(m.answers), m.answers) && (r.Thrown? ==> r.code == IoError && m.faults < old(m.faults))
    ensures r.Ok? ==> Heard(old(m.answers), m.answers, if proceed then None else Some(NotCancelled))
    ensures r.Ok? && proceed ==> m.answers == old(m.answers) + [Wanted()]
    ensures old(m.faults) == 0 ==> !r.Thrown?
    ensures r.Crashed? ==> m.crashes
  {
    proceed := false;
    journal :- Transition(m, id, entry.revision, PreflightValidated, NoPatch);
    var wanted := m.Ask(NotCancelled);
    journal :- Transition(m, id, journal.revision, if wanted then Staging else AbortedUnchanged, NoPatch);
    r, proceed := Ok, wanted;
  }

  lemma HeardIsMore(before: Answers, after: Answers, refused: Option<Question<Path>>)
    ensures Heard(before, after, refused) || before == after ==> Extends(before, after)
  {
  }

  lemma HeardWanted(before: Answers, after: Answers, wanted: bool)
    requires after == before + [Answer(NotCancelled, 0, wanted)]
    ensures Extends(before, after) && Heard(before, after, if wanted then None else Some(NotCancelled))
    ensures wanted ==> after == before + [Wanted()]
  {
  }

  /** Drops a verified candidate. */
  method Withdraw(m: Device, id: JournalId, candidate: Path, entry: Entry) returns (r: Outcome, journal: Entry)
    requires id in m.journals && m.journals[id] == entry && entry.state == CandidateVerified
    modifies m`faults, m`files, m`free, m`journals
    ensures m.faults <= old(m.faults) && (r.Crashed? ==> m.crashes) && m.Space() == old(m.Space())
    ensures r.Thrown? ==> r.code == IoError && m.faults < old(m.faults)
    ensures OnlyEntry(old(m.journals), m.journals, id)
    ensures m.journals[id] == entry.(revision := m.journals[id].revision, state := m.journals[id].state)
    ensures m.journals[id].state in {CandidateVerified, AbortedUnchanged}
    ensures m.files == old(m.files) || m.files == old(m.files) - {candidate}
    ensures r.Ok? ==> journal == m.journals[id] && journal.state == AbortedUnchanged
    ensures r.Ok? ==> m.files == old(m.files) - {candidate}
  {
    journal := entry;
    r := m.Remove(candidate);
    if !r.Ok? { return; }
    r, journal := Transition(m, id, entry.revision, AbortedUnchanged, NoPatch);
  }

  /** Records the verified candidate, or drops it when the caller cancelled. */
  method FinishStaging(m: Device, id: JournalId, candidate: Path, entry: Entry)
    returns (r: Outcome, journal: Entry, proceed: bool)
    requires id in m.journals && m.journals[id] == entry && entry.state == Staging && candidate in m.files
    modifies m`faults, m`files, m`free, m`journals, m`answers
    ensures m.faults <= old(m.faults)
    ensures OnlyEntry(old(m.journals), m.journals, id)
    ensures var now := m.journals[id];
            now == entry.(revision := now.revision, state := now.state, candidates := now.candidates)
    ensures m.journals[id].state in {Staging, CandidateVerified, AbortedUnchanged}
    ensures m.journals[id].candidates == entry.candidates || m.journals[id].candidates == [candidate]
    ensures m.files == old(m.files) || m.files == old(m.files) - {candidate}
    ensures r.Ok? ==>
              journal == m.journals[id] && journal.state == if proceed then CandidateVerified else AbortedUnchanged
    ensures r.Ok? && proceed ==> m.files == old(m.files)
    ensures r.Ok? && !proceed ==> m.files == old(m.files) - {candidate}
    ensures m.Space() == old(m.Space())
    ensures Extends(old(m.answers), m.answers) && (r.Thrown? ==> r.code == IoError && m.faults < old(m.faults))
    ensures r.Ok? ==> Heard(old(m.answers), m.answers, if proceed then None else Some(NotCancelled))
    ensures r.Ok? && proceed ==> m.answers == old(m.answers) + [Wanted()]
    ensures old(m.faults) == 0 ==> !r.Thrown?
    ensures r.Crashed? ==> m.crashes
  {
    proceed := false;
    HeardIsMore(m.answers, m.answers, None);
    OneWrite(m.journals, id, entry);
    hide Extends, Heard, OnlyEntry, Wanted;
    ghost var journals := m.journals;
    r, journal := Transition(m, id, entry.revision, CandidateVerified, SetCandidates([candidate]));
    if !r.Ok? { return; }
    ghost var verified := m.journals;
    OneWrite(journals, id, journal);
    var wanted := m.Ask(NotCancelled);
    HeardWanted(old(m.answers), m.answers, wanted);
    if !wanted {
      r, journal := Withdraw(m, id, candidate, journal);
      OnlyEntryBoth(journals, verified, m.journals, id);
      if !r.Ok? { return; }
    }
    r, proceed := Ok, wanted;
  }

  /** Why there is no candidate. */
  ghost predicate StagingRefused(before: Answers, after: Answers, free: int, name: string, operation: string,
                                 expected: Fingerprint, format: Format, code: Code) {
    match code
    case NoSpaceOnDevice => free < |expected.contents|
    case StillFragmented => Heard(before, after, Some(Contiguous(Candidate(name, operation))))
    case _ => Flaw(expected.contents, format) == Some(code)
  }

  /** The candidate made, or the reason why not. */
  lemma RefusedCandidate(before: Answers, start: Answers, after: Answers, files: Files, free: int, name: string,
                         operation: string, expected: Fingerprint, format: Format, file: nat, code: Code)
    requires Heard(before, start, None) && Recorded(start, after, Candidate(name, operation), file, Thrown(code))
    requires Holds(files, File(name), expected.contents) && Candidate(name, operation) !in files
    requires Explains(files, free, File(name), Candidate(name, operation), expected, format, code)
    ensures StagingRefused(before, after, free, name, operation, expected, format, code)
  {
    if code == StillFragmented { HeardBoth(before, start, after, Some(Contiguous(Candidate(name, operation)))); }
  }

  lemma HeardThrough(a: Answers, b: Answers, c: Answers, path: Path, file: nat, proceed: bool)
    requires b == a + [FoundWhole(path, file)] && Heard(b, c, if proceed then None else Some(NotCancelled))
    ensures Heard(a, c, if proceed then None else Some(NotCancelled))
    ensures c == b + [Wanted()] ==> c == a + [FoundWhole(path, file), Wanted()]
  {
    assert Heard(a, b, None);
    HeardBoth(a, b, c, if proceed then None else Some(NotCancelled));
  }

  /** The candidate and its record, or the withdrawal. */
  method StageCandidate(m: Device, id: JournalId, name: string, operation: string, expected: Fingerprint,
                        format: Format, entry: Entry)
    returns (r: Outcome, journal: Entry, proceed: bool)
    requires id in m.journals && m.journals[id] == entry && entry.state == Staging
    requires Holds(m.files, File(name), expected.contents)
    requires Candidate(name, operation) !in m.files && Backup(name, operation) !in m.files
    modifies m`faults, m`files, m`ids, m`free, m`lowest, m`journals, m`answers
    ensures m.faults <= old(m.faults)
    ensures OnlyEntry(old(m.journals), m.journals, id)
    ensures Early(m.journals[id].state)
    ensures m.journals[id].operation == entry.operation && m.journals[id].fingerprints == entry.fingerprints
    ensures m.journals[id].intents == entry.intents
    ensures m.journals[id].backups == entry.backups
    ensures m.journals[id].candidates in {entry.candidates, [Candidate(name, operation)]}
    ensures Adds(old(m.files), m.files, Candidate(name, operation))
    ensures r.Ok? ==> journal == m.journals[id]
    ensures r.Ok? && proceed ==> journal.state == CandidateVerified
    ensures r.Ok? && proceed ==> m.files == old(m.files)[Candidate(name, operation) := expected.contents]
    ensures r.Ok? && !proceed ==> journal.state == AbortedUnchanged && m.files == old(m.files)
    ensures m.Space() == old(m.Space())
    ensures r.Crashed? ==> m.crashes
    ensures old(m.Quiet()) && r.Thrown? ==>
              m.files == old(m.files) && m.journals[id].state == AbortedUnchanged
    // the candidate is a new file of good structure that was found contiguous; a refusal is on record
    ensures Extends(old(m.answers), m.answers)
    ensures m.ids == old(m.ids) || m.ids == old(m.ids).Added(Candidate(name, operation))
    ensures r.Ok? ==> Heard(old(m.answers), m.answers, if proceed then None else Some(NotCancelled))
    ensures r.Ok? && proceed ==>
              && m.ids == old(m.ids).Added(Candidate(name, operation)) && Flaw(expected.contents, format) == None
              && m.answers == old(m.answers) + [FoundWhole(Candidate(name, operation), old(m.ids).made), Wanted()]
    ensures r.Thrown? ==>
              || (r.code == IoError && m.faults < old(m.faults))
              || StagingRefused(old(m.answers), m.answers, old(m.free), name, operation, expected, format, r.code)
    ensures m.lowest >=
              var least := old(m.free) - |expected.contents|; if least < old(m.lowest) then least else old(m.lowest)
  {
    hide Heard, Flaw, Explains, StagingRefused, Recorded, OnlyEntry;
    journal, proceed := entry, false;
    ghost var start, files, staging := m.answers, m.files, m.journals;
    OneWrite(staging, id, entry);
    NothingHeard(start);
    r := CreateCandidate(m, name, operation, expected, format);
    RecordedExtends(start, m.answers, Candidate(name, operation), old(m.ids).made, r);
    if r.Crashed? { return; }
    if r.Thrown? {
      if Explains(files, old(m.free), File(name), Candidate(name, operation), expected, format, r.code) {
        RefusedCandidate(start, start, m.answers, files, old(m.free), name, operation, expected, format,
                         old(m.ids).made, r.code);
      }
      var aborted :- Transition(m, id, journal.revision, AbortedUnchanged, NoPatch);
      OneWrite(staging, id, aborted);
      return;
    }
    ghost var made := m.answers;
    r, journal, proceed := FinishStaging(m, id, Candidate(name, operation), journal);
    HasEntry(staging, m.journals, id);
    if r.Ok? { HeardThrough(start, made, m.answers, Candidate(name, operation), old(m.ids).made, proceed); }
  }

  /** What is heard while a copy, the file number `copy`, is staged. */
  ghost function Staged(name: string, operation: string, copy: nat): Answers {
    [Wanted(), FoundWhole(Candidate(name, operation), copy), Wanted()]
  }

  /** From the validated preflight to the verified candidate.  `proceed` is false
      when the caller cancelled; the journal is then `AbortedUnchanged`. */
  method Stage(m: Device, id: JournalId, name: string, operation: string, expected: Fingerprint, format: Format,
               entry: Entry)
    returns (r: Outcome, journal: Entry, proceed: bool)
    requires id in m.journals && m.journals[id] == entry && entry.state == Planned
    requires Holds(m.files, File(name), expected.contents)
    requires Candidate(name, operation) !in m.files && Backup(name, operation) !in m.files
    modifies m`faults, m`files, m`ids, m`free, m`lowest, m`journals, m`answers
    ensures m.faults <= old(m.faults)
    ensures OnlyEntry(old(m.journals), m.journals, id)
    ensures Early(m.journals[id].state)
    ensures m.journals[id].operation == entry.operation && m.journals[id].fingerprints == entry.fingerprints
    ensures m.journals[id].intents == entry.intents
    ensures m.journals[id].backups == entry.backups
    ensures m.journals[id].candidates in {entry.candidates, [Candidate(name, operation)]}
    ensures Adds(old(m.files), m.files, Candidate(name, operation))
    ensures r.Ok? ==> journal == m.journals[id]
    ensures r.Ok? && proceed ==> journal.state == CandidateVerified
    ensures r.Ok? && proceed ==> m.files == old(m.files)[Candidate(name, operation) := expected.contents]
    ensures r.Ok? && !proceed ==> journal.state == AbortedUnchanged && m.files == old(m.files)
    ensures m.Space() == old(m.Space())
    ensures r.Crashed? ==> m.crashes
    ensures old(m.Quiet()) && r.Thrown? ==>
              m.files == old(m.files) && m.journals[id].state == AbortedUnchanged
    // the candidate is a new file of good structure that was found contiguous; a refusal is on record
    ensures Extends(old(m.answers), m.answers)
    ensures m.ids == old(m.ids) || m.ids == old(m.ids).Added(Candidate(name, operation))
    ensures r.Ok? ==> Heard(old(m.answers), m.answers, if proceed then None else Some(NotCancelled))
    ensures r.Ok? && proceed ==>
              && m.ids == old(m.ids).Added(Candidate(name, operation)) && Flaw(expected.contents, format) == None
              && m.answers == old(m.answers) + Staged(name, operation, old(m.ids).made)
    ensures r.Thrown? ==>
              || (r.code == IoError && m.faults < old(m.faults))
              || StagingRefused(old(m.answers), m.answers, old(m.free), name, operation, expected, format, r.code)
    ensures m.lowest >=
              var least := old(m.free) - |expected.contents|; if least < old(m.lowest) then least else old(m.lowest)
  {
    hide Heard, Flaw, StagingRefused, OnlyEntry;
    ghost var planned := m.journals;
    r, journal, proceed := StartStaging(m, id, entry);
    HasEntry(planned, m.journals, id);
    if !r.Ok? || !proceed { return; }
    ghost var start, staging := m.answers, m.journals;
    r, journal, proceed := StageCandidate(m, id, name, operation, expected, format, journal);
    OnlyEntryBoth(planned, staging, m.journals, id);
    StagedAfter(old(m.answers), start, m.answers, old(m.free), name, operation, expected, format);
  }

  lemma NothingHeard(answers: Answers)
    ensures Heard(answers, answers, None)
  {
  }

  /** Earlier answers do not matter to the verdicts of staging. */
  lemma StagedAfter(a: Answers, b: Answers, c: Answers, free: int, name: string, operation: string,
                    expected: Fingerprint, format: Format)
    requires Heard(a, b, None) && Extends(b, c)
    ensures Heard(b, c, None) ==> Heard(a, c, None)
    ensures Heard(b, c, Some(NotCancelled)) ==> Heard(a, c, Some(NotCancelled))
    ensures forall code :: StagingRefused(b, c, free, name, operation, expected, format, code) ==>
              StagingRefused(a, c, free, name, operation, expected, format, code)
    ensures a <= c
  {
    hide Flaw;
    if Heard(b, c, None) { HeardBoth(a, b, c, None); }
    if Heard(b, c, Some(NotCancelled)) { HeardBoth(a, b, c, Some(NotCancelled)); }
    var q: Question<Path> := Contiguous(Candidate(name, operation));
    if Heard(b, c, Some(q)) { HeardBoth(a, b, c, Some(q)); }
    assert a <= b;
  }

  lemma RecordedExtends(before: Answers, after: Answers, candidate: Path, file: nat, r: Outcome)
    requires Recorded(before, after, candidate, file, r)
    ensures before <= after
  {
  }

  /** The promotion, and its handler when it fails. */
  method PromoteOrUndo(m: Device, id: JournalId, name: string, operation: string, expected: Fingerprint, entry: Entry)
    returns (r: Outcome)
    requires id in m.journals && m.journals[id] == entry && entry.state == CommitIntent && entry.backups == []
    requires entry.intents == [name] && Ready(m.files, name, operation, expected.contents)
    modifies m`faults, m`files, m`ids, m`free, m`journals, m`answers
    ensures m.faults <= old(m.faults)
    ensures OnlyEntry(old(m.journals), m.journals, id)
    ensures SameExcept(old(m.files), m.files, Touched(name, operation))
    ensures m.journals[id].operation == entry.operation && m.journals[id].fingerprints == entry.fingerprints
    ensures Announces(m.journals[id], [name])
    ensures m.journals[id].backups == [] || m.journals[id].backups == [Backup(name, operation)]
    ensures m.journals[id].candidates == entry.candidates
    ensures Sound(m.files, m.journals[id].state, name, operation, expected.contents)
    ensures r.Ok? ==> m.journals[id].state == CleanupComplete
    ensures r.Ok? ==> m.files == old(m.files) - {Candidate(name, operation)}
    ensures Extends(old(m.answers), m.answers) && SameIds(old(m.ids), m.ids, Touched(name, operation))
    ensures PastCommit(m.journals[id].state) ==>
              && Validated(old(m.answers), m.answers, File(name), m.ids)
              && m.ids.Of(File(name)) == old(m.ids).Of(Candidate(name, operation))
    ensures !PastCommit(m.journals[id].state) ==>
              Original(m.files, m.ids, name, operation, old(m.ids).Of(File(name)))
    ensures r.Thrown? ==>
              || (r.code in {IoError, InvalidJournalTransition} && m.faults < old(m.faults))
              || PromotionRefused(old(m.answers), m.answers, name, r.code)
    ensures m.Space() == old(m.Space())
    ensures r.Crashed? ==> m.crashes
    ensures old(m.faults) == 0 ==> m.journals[id].state != RecoveryPending
    ensures old(m.faults) == 0 && r.Thrown? ==>
              && m.journals[id].state == Restored && r.code in {StillFragmented, Cancelled}
              && m.files == old(m.files) - {Candidate(name, operation)}
  {
    hide OnlyEntry, SameExcept, Sound;
    var journal, originalRenamed, candidatePromoted;
    r, journal, originalRenamed, candidatePromoted := Promote(m, id, name, operation, expected, entry);
    HasEntry(old(m.journals), m.journals, id);
    if r.Thrown? {
      ghost var journals, files := m.journals, m.files;
      SwapKeeps(old(m.files), name, operation, expected.contents);
      r := RollBack(m, id, name, operation, expected, originalRenamed, candidatePromoted, r.code, journal);
      OnlyEntryBoth(old(m.journals), journals, m.journals, id);
      SameExceptBoth(old(m.files), files, m.files, Touched(name, operation), {File(name), Backup(name, operation)});
      if m.journals[id].state == Restored && candidatePromoted && !PastCommit(journal.state) {
        RestoredExactly(old(m.files), m.files, name, operation, expected.contents);
      }
    }
  }

  /** The part of `execute` that can move the original: from the recorded intent to
      the completed cleanup, or through the handler. */
  method CommitOrUndo(m: Device, id: JournalId, name: string, operation: string, expected: Fingerprint, entry: Entry)
    returns (r: Outcome)
    requires id in m.journals && m.journals[id] == entry && entry.state == CandidateVerified && entry.backups == []
    requires entry.intents == [] && Ready(m.files, name, operation, expected.contents)
    modifies m`faults, m`files, m`ids, m`free, m`journals, m`answers
    ensures m.faults <= old(m.faults)
    ensures OnlyEntry(old(m.journals), m.journals, id)
    ensures SameExcept(old(m.files), m.files, Touched(name, operation))
    ensures m.journals[id].operation == entry.operation && m.journals[id].fingerprints == entry.fingerprints
    ensures Announces(m.journals[id], [name])
    ensures m.journals[id].backups == [] || m.journals[id].backups == [Backup(name, operation)]
    ensures m.journals[id].candidates == entry.candidates
    ensures Sound(m.files, m.journals[id].state, name, operation, expected.contents)
    ensures r.Ok? ==> m.journals[id].state == CleanupComplete
    ensures r.Ok? ==> m.files == old(m.files) - {Candidate(name, operation)}
    ensures Extends(old(m.answers), m.answers) && SameIds(old(m.ids), m.ids, Touched(name, operation))
    ensures PastCommit(m.journals[id].state) ==>
              && Validated(old(m.answers), m.answers, File(name), m.ids)
              && m.ids.Of(File(name)) == old(m.ids).Of(Candidate(name, operation))
    ensures !PastCommit(m.journals[id].state) ==>
              Original(m.files, m.ids, name, operation, old(m.ids).Of(File(name)))
    ensures r.Thrown? ==>
              || (r.code in {IoError, InvalidJournalTransition} && m.faults < old(m.faults))
              || PromotionRefused(old(m.answers), m.answers, name, r.code)
    ensures m.Space() == old(m.Space())
    ensures r.Crashed? ==> m.crashes
    ensures old(m.faults) == 0 ==> m.journals[id].state != RecoveryPending
    ensures old(m.faults) == 0 && r.Thrown? ==>
              && m.journals[id].state == Restored && r.code in {StillFragmented, Cancelled}
              && m.files == old(m.files) - {Candidate(name, operation)}
  {
    ReadyIsSound(m.files, name, operation, expected.contents);
    SameAsBefore(m.files, Touched(name, operation));
    hide SameExcept, Sound, Ready;
    var next :- Transition(m, id, entry.revision, CommitIntent, SetIntents([name]));
    ghost var intent := m.journals;
    r := PromoteOrUndo(m, id, name, operation, expected, next);
    OnlyEntryBoth(old(m.journals), intent, m.journals, id);
  }

  /** `execute` for one ISO or ZSO image whose fingerprint is `expected`. */
  method ExecuteSingle(m: Device, id: JournalId, name: string, operation: string, expected: Fingerprint, item: Item,
                       entry: Entry)
    returns (r: Outcome, modified: seq<string>)
    requires id in m.journals && m.journals[id] == entry && entry.state == Planned && entry.backups == []
    requires entry.candidates == []
    requires entry.intents == [] && Candidate(name, operation) !in m.files && Backup(name, operation) !in m.files
    modifies m`faults, m`files, m`ids, m`free, m`lowest, m`journals, m`answers
    ensures m.faults <= old(m.faults)
    ensures OnlyEntry(old(m.journals), m.journals, id)
    ensures SameExcept(old(m.files), m.files, Touched(name, operation))
    ensures m.journals[id].operation == entry.operation && m.journals[id].fingerprints == entry.fingerprints
    ensures Announces(m.journals[id], [name])
    ensures m.journals[id].backups == [] || m.journals[id].backups == [Backup(name, operation)]
    ensures m.journals[id].candidates == [] || m.journals[id].candidates == [Candidate(name, operation)]
    // a source that is not what was diagnosed is never touched
    ensures !Holds(old(m.files), File(name), expected.contents) ==>
              m.files == old(m.files) && m.journals[id].state == Planned
    // wherever the run stopped, the original survives in the place the journal says
    ensures Holds(old(m.files), File(name), expected.contents) ==>
              Sound(m.files, m.journals[id].state, name, operation, expected.contents)
    // a completed run replaced the file by an identical one and left nothing behind
    ensures r.Ok? ==> m.files == old(m.files)
    ensures m.Space() == old(m.Space())
    ensures r.Ok? ==> if modified == [name] then m.journals[id].state == CleanupComplete
                      else modified == [] && m.journals[id].state == AbortedUnchanged
    ensures r.Crashed? ==> m.crashes
    ensures old(m.faults) == 0 ==> m.journals[id].state != RecoveryPending
    // without faults or crashes a failed run leaves the device as it was
    ensures old(m.Quiet()) && r.Thrown? ==>
              m.files == old(m.files) && m.journals[id].state in {Planned, AbortedUnchanged, Restored}
    // past the commit the file is the candidate of this run, found contiguous before and after the
    // renames; before it the original file itself is where it was or under the backup name
    ensures Heeded(old(m.answers), m.answers, old(m.ids), m.ids, m.journals[id].state, name, operation, expected,
                   item.format)
    ensures Holds(old(m.files), File(name), expected.contents) && !PastCommit(m.journals[id].state) ==>
              Original(m.files, m.ids, name, operation, old(m.ids).Of(File(name)))
    ensures SameIds(old(m.ids), m.ids, Touched(name, operation))
    ensures m.journals[id].state != Planned ==> item.temporaryBytes <= old(m.free)
    // every refusal has its reason
    ensures r.Ok? && modified == [] ==> Heard(old(m.answers), m.answers, Some(NotCancelled))
    ensures r.Thrown? ==>
              || (r.code in {IoError, InvalidJournalTransition} && m.faults < old(m.faults))
              || SingleRefused(old(m.answers), m.answers, old(m.files), old(m.free), name, operation, expected, item,
                               r.code)
    // and without one an undisturbed run rewrites the file
    ensures old(m.Quiet()) && Holds(old(m.files), File(name), expected.contents)
              && |expected.contents| <= old(m.free) && item.temporaryBytes <= old(m.free)
              && Flaw(expected.contents, item.format) == None && Heard(old(m.answers), m.answers, None) ==>
              r.Ok? && modified == [name]
    ensures m.lowest >=
              var least := old(m.free) - |expected.contents|; if least < old(m.lowest) then least else old(m.lowest)
  {
    hide SameExcept, OnlyEntry, Sound, Adds, Heard, Flaw, StagingRefused, PromotionRefused, Validated, SameIds;
    hide Original, Touched, Staged, Hearing, EndsWith, Ready;
    modified := [];
    ghost var start, before, asked, ids := m.journals, m.files, m.answers, m.ids;
    OneWrite(start, id, entry);
    StagedIsSound(before, before, name, operation, expected.contents);
    SameIdsOnceStaged(before, before, ids, ids, name, operation);
    r := Preflight(m, name, expected, item.temporaryBytes);
    Unrefused(asked, m.answers, before, old(m.free), name, operation, expected, item);
    if !r.Ok? { return; }
    ghost var checked := m.answers;
    var journal, proceed;
    r, journal, proceed := Stage(m, id, name, operation, expected, item.format, entry);
    HasEntry(start, m.journals, id);
    StagedIsSound(before, m.files, name, operation, expected.contents);
    HeardUnmodified(asked, checked, m.answers, name, operation, ids.Of(File(name)), ids.made);
    StagedAfter(asked, checked, m.answers, old(m.free), name, operation, expected, item.format);
    StagingRefuses(asked, m.answers, before, old(m.free), name, operation, expected, item);
    SameIdsOnceStaged(before, m.files, ids, m.ids, name, operation);
    Unrefused(asked, m.answers, before, old(m.free), name, operation, expected, item);
    if !r.Ok? || !proceed { return r, []; }
    ghost var staged, files, verified := m.journals, m.files, m.answers;
    ReadyOnceStaged(before, name, operation, expected.contents);
    r := CommitOrUndo(m, id, name, operation, expected, journal);
    OnlyEntryBoth(start, staged, m.journals, id);
    SameExceptBoth(before, files, m.files, Touched(name, operation), Touched(name, operation));
    SameIdsBoth(ids, ids.Added(Candidate(name, operation)), m.ids, Touched(name, operation), Touched(name, operation));
    PromotedAfter(asked, verified, m.answers, before, old(m.free), name, operation, expected, item, m.ids,
                  ids.Of(File(name)), ids.made);
    Unrefused(asked, m.answers, before, old(m.free), name, operation, expected, item);
    if r.Ok? { modified := [name]; }
  }

  /** Past the commit the file in place is a new one, and all that had to be asked was answered `yes`. */
  ghost predicate Heeded(before: Answers, after: Answers, ids: Ids<Path>, now: Ids<Path>, state: State, name: string,
                         operation: string, expected: Fingerprint, format: Format) {
    && Extends(before, after)
    && (PastCommit(state) ==>
          && EndsWith(before, after, Hearing(name, operation, ids.Of(File(name)), now.Of(File(name))))
          && ids.made <= now.Of(File(name)) && Flaw(expected.contents, format) == None)
  }

  /** Every answer on the way to the commit of one image, in order: about the original, number
      `source`, while the copy is staged, and about the copy in its place. */
  ghost function Hearing(name: string, operation: string, source: nat, copy: nat): Answers {
    [Answer(Unmodified(File(name)), source, true)] + Staged(name, operation, copy)
    + [Wanted(), FoundWhole(File(name), copy)]
  }

  lemma HeardUnmodified(a: Answers, b: Answers, c: Answers, name: string, operation: string, source: nat, copy: nat)
    requires b == a + [Answer(Unmodified(File(name)), source, true)]
    ensures Heard(a, b, None)
    ensures c == b + Staged(name, operation, copy) ==>
              c == a + ([Answer(Unmodified(File(name)), source, true)] + Staged(name, operation, copy))
  {
  }

  /** Why one image is not rewritten, other than for a failing step. */
  ghost predicate SingleRefused(before: Answers, after: Answers, files: Files, free: int, name: string,
                                operation: string, expected: Fingerprint, item: Item, code: Code) {
    match code
    case NotFound => File(name) !in files
    case SourceChanged =>
      !Holds(files, File(name), expected.contents) || Heard(before, after, Some(Unmodified(File(name))))
    case InsufficientSpace => free < item.temporaryBytes
    case NoSpaceOnDevice => free < |expected.contents|
    case Cancelled => Heard(before, after, Some(NotCancelled))
    case StillFragmented =>
      || Heard(before, after, Some(Contiguous(Candidate(name, operation))))
      || Heard(before, after, Some(Contiguous(File(name))))
    case _ => Flaw(expected.contents, item.format) == Some(code)
  }

  lemma StagingRefuses(before: Answers, after: Answers, files: Files, free: int, name: string, operation: string,
                       expected: Fingerprint, item: Item)
    ensures forall code :: StagingRefused(before, after, free, name, operation, expected, item.format, code) ==>
              SingleRefused(before, after, files, free, name, operation, expected, item, code)
  {
    hide Heard, Flaw;
  }

  lemma SameIdsOnceStaged(before: Files, after: Files, ids: Ids<Path>, now: Ids<Path>, name: string, operation: string)
    requires now == ids || now == ids.Added(Candidate(name, operation))
    requires Backup(name, operation) !in before && (Adds(before, after, Candidate(name, operation)) || after == before)
    ensures SameIds(ids, now, Touched(name, operation)) && now.Of(File(name)) == ids.Of(File(name))
    ensures File(name) in before ==> Original(after, now, name, operation, ids.Of(File(name)))
  {
  }

  /** With the source as diagnosed, room and a good structure, only an answer refuses. */
  lemma Unrefused(before: Answers, after: Answers, files: Files, free: int, name: string, operation: string,
                  expected: Fingerprint, item: Item)
    ensures Holds(files, File(name), expected.contents) && |expected.contents| <= free && item.temporaryBytes <= free
              && Flaw(expected.contents, item.format) == None && Heard(before, after, None) ==>
              forall code :: !SingleRefused(before, after, files, free, name, operation, expected, item, code)
    ensures Heard(before, after, None) ==> !Heard(before, after, Some(NotCancelled))
  {
    hide Flaw;
  }

  /** The verdicts of the promotion, after those of the staging. */
  lemma PromotedAfter(a: Answers, b: Answers, c: Answers, files: Files, free: int, name: string, operation: string,
                      expected: Fingerprint, item: Item, ids: Ids<Path>, source: nat, copy: nat)
    requires b == a + ([Answer(Unmodified(File(name)), source, true)] + Staged(name, operation, copy)) && Extends(b, c)
    ensures a <= c
    ensures Validated(b, c, File(name), ids) && ids.Of(File(name)) == copy ==>
              EndsWith(a, c, Hearing(name, operation, source, copy))
    ensures forall code :: PromotionRefused(b, c, name, code) ==>
              SingleRefused(a, c, files, free, name, operation, expected, item, code)
  {
    hide Flaw;
    assert Heard(a, b, None);
    var cancel: Question<Path>, extents: Question<Path> := NotCancelled, Contiguous(File(name));
    if Heard(b, c, Some(cancel)) { HeardBoth(a, b, c, Some(cancel)); }
    if Heard(b, c, Some(extents)) { HeardBoth(a, b, c, Some(extents)); }
    if Validated(b, c, File(name), ids) && ids.Of(File(name)) == copy {
      assert c == a + Hearing(name, operation, source, copy);
    }
  }

  /** Staging adds the candidate at most, which no verdict depends on. */
  lemma StagedIsSound(before: Files, after: Files, name: string, operation: string, original: Bytes)
    requires Backup(name, operation) !in before && (Adds(before, after, Candidate(name, operation)) || after == before)
    ensures SameExcept(before, after, Touched(name, operation))
    ensures Holds(before, File(name), original) ==> forall s :: Early(s) ==> Sound(after, s, name, operation, original)
  {
  }

  lemma ReadyOnceStaged(files: Files, name: string, operation: string, original: Bytes)
    requires Holds(files, File(name), original) && Candidate(name, operation) !in files
    requires Backup(name, operation) !in files
    ensures Ready(files[Candidate(name, operation) := original], name, operation, original)
    ensures files[Candidate(name, operation) := original] - {Candidate(name, operation)} == files
  {
  }
}
