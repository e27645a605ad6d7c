# OPL Forge: model and proofs

OPL Forge manages PlayStation 2 games on USB and network devices. This project models the
parts of it that may not lose data, and the byte-level readers they rest on, and proves what
each of them promises:

- repair of fragmented files: candidate, journal, transaction for one image and for a set of
  parts, crash recovery, planning and batches
  (`Journal`, `Candidate`, `Repair`, `Multipart`, `MultipartRun`, `Execute`, `Recovery`,
  `Tracked`, `Reconcile`, `Lifecycle`, `Residue`, `MultipartRecovery`, `Plan`, `Batch`);
- renaming to canonical names: audit, plan, two-hop rename transaction, crash recovery
  (`NamingPlan`, `Renames`, `Naming`, `NamingRecovery`);
- ZSO images: the LZ4 decoder, the cached random-access reader, and on top of it ISO9660
  directories and the search for SYSTEM.CNF (`Layout`, `Lz4`, `Zso`, `ZsoFile`, `Iso9660`, `SystemCnf`);
- the download scheduler (`Scheduler`), game installation (`Installation`) and the verdict on
  extent tables (`Extents`).

`dafny verify dfyconfig.toml` checks everything.

## The world of the services

`Storage.Machine` is one device and one journal store. Every rename, removal, write, hash,
directory sync and journal write is one step. Before a step takes effect it may throw (a fault)
or the process may die (a crash); which happens is arbitrary, limited only by a budget of faults
and a flag that allows crashes. A property that holds whenever a method returns therefore holds
at every point at which the process can die, and a theorem about "any faults and crashes" covers
every schedule of them. With a budget of zero and no crashes the run is undisturbed.

A hash stands for the contents it was taken of. Generated names (backups, candidates, temporary
names, staging) are constructors of their own, because they carry random identifiers; a repair's
names contain the path of the file they belong to, and `Journal.PathBeside` gives the name that
recovery looks for when it joins the directory of one file with the base name of another.
Questions to the outside world - is this file contiguous, has it been modified, was the operation
cancelled, is this the same device, is this still the file that was renamed - get arbitrary
answers, and the machine keeps a record of them: what was asked, which file was under the name at
that moment, and whether the answer lets the service go on. The machine also knows which file is
under which name: a rename takes a file along, a new file is a new one. So the contracts can say
that a repair was committed because this copy was found contiguous, that a failure has a refusal
on record, that the file in place is the copy or the original itself and not one of equal bytes,
and that an undisturbed run that is refused nothing does its work.
`localeCompare` is an arbitrary relation.

Methods are proved against functions and predicates over file maps; the lemmas about these say
what the services promise.

## Where the code does less than it promises

The model keeps the code as it is. Each item is stated with the exact condition under which the
code does keep the promise and names a lemma at an input where it does not.

- A directory sync that fails between the two renames of a part of a set
  (transaction.service.ts:342-344) leaves that part under its backup name while the journal ends
  restored. It happens before the backups are recorded: `MultipartRun.AllOrNothing` says that a
  restored journal with recorded backups has all parts home, and one without if and only if no
  file is missing. Instance: `MultipartRun.SyncFailureLeavesOneAway`.
- Recorded backups are paired with fingerprints by position although one list is in promotion
  order and the other in diagnosis order (recovery.service.ts:153-162).
  `MultipartRecovery.PairingDecides`: a set with all originals set aside is restored if and only
  if the two orders agree on the contents. Instance: `MultipartRecovery.MisorderedSetIsNotRestored`.
  Plans made by the planner are not of that kind: the diagnosis lists parts by ascending number
  (diagnostic.service.ts:678), the promotion sorts the same names, and
  `Planning.PlannedSetIsInOrder` proves that then the two orders agree.
- Cleanup looks at the first fingerprint alone and for its backup only beside that file
  (recovery.service.ts:297-316), and the diagnosis lists cover art and settings before an image.
  No rewritten file is lost by recovery (`Lifecycle.Live`), but a request to drop residue can end
  with the journal restored and the image only under its backup name: undisturbed, if and only if
  the first file was in place and the image was not (`ResidueCases.DropUndisturbed`; instance
  `ResidueCases.ArtFirstSaysRestored`). A committed journal of that kind ends with the backup
  still there (`ResidueCases.ArtFirstKeepsBackup`). Dropping residue costs a file if and only if
  the backup it removes is that of a file not in place (`Tracking.ResidueLosesIff`), which takes
  another file of the same directory listed first, such as a first part that was not rewritten
  (instance `ResidueCases.FirstPartHidesLoss`).
- A restore asked for by the user on a committed journal removes the active file before it puts
  the backup back (recovery.service.ts:118-126). A crash in between keeps the backup, but the
  journal still says committed, so only another request of the user ends it.
  `Recovery.RestoreSafely` keeps journal and device in agreement in every other case, and
  `Recovery.FirstWriteKeepsSound` shows that a committed journal whose backup still exists is
  exactly the exception. Instance: `Recovery.CommittedRestoreInterrupted`.
- A rename that is found wrong only after it was made (naming-transaction.service.ts:113-123), at a
  step whose destination is the old name of an earlier file, is overwritten by the rollback.
  `Renames.NothingLostIff` and `NamingTransaction.OneFailureIsExact` give the exact condition,
  `NamingTransaction.ReuseLosesAFile` an instance.
- The journal of a rename plan is truncated before it is written (naming-transaction.service.ts:58-66),
  and recovery does nothing about a torn one. In a plan that reuses no name every file is at rest
  after recovery, torn journal or not, if and only if it is not the case that the run stopped
  between the two renames of a file and its journal is torn (`NamingRecovery.ExecuteAndRecover`).
  Crashes alone never lead there. Instance: `NamingRecovery.TornBetweenRenames`.
- A step none of whose three names exists, or whose old and new names both do, is ambiguous
  (naming-recovery.service.ts:38-45). So the journal of a plan one of whose files was deleted, or
  one of whose destinations was taken, between audit and run is never concluded. For plans that
  reuse no name that is the only reason, whatever was interrupted: a journal that is not torn is
  concluded if and only if of each step exactly one of the two names was in use before the run
  (`NamingRecovery.ConcludedIffResolvable`). Instances:
  `NamingRecovery.MissingSourceIsNeverConcluded`, `NamingRecovery.TakenDestinationIsNeverConcluded`.
- The journal of a plan that ran to the end is concluded if and only if of the two names of each
  step exactly one is taken for good (`NamingRecovery.ConcludedIff`); where all files were there
  before, if and only if no destination is the old name of a step
  (`NamingRecovery.ConcludedIffNoReuse`). Instance: `NamingRecovery.ReusedNameIsAmbiguous`.
- The search for SYSTEM.CNF keys visited directories by extent alone and stops after 1025 of them
  (iso9660.service.ts:72-76). `SystemCnf.SearchIsExact` says exactly when it finds one: if one of
  the first 1025 extents in breadth-first order lists it in the first entry that names it.
  Instance: `SystemCnf.SmallerSizeHidesCnf`.
- The LZ4 decoder takes what follows the final literals of a block for another match
  (zso.service.ts:64-68), so a block padded to the alignment of the file is refused. It is decoded
  if and only if there is no padding or the block ends with a match (`Lz4.PaddedBlock`, which also
  names the error); blocks stored raw may be padded (`ZsoFiles.BuiltFileStandsForImage`).
- A failure while the staging directory of a finished installation is being removed starts a
  rollback although backups may already be gone (game-installation.service.ts:153-166). Everything
  is as it was if and only if no recorded backup had been removed
  (`Installation.RestoredIffNothingGone`), so always where no destination existed
  (`Installation.Install`). Instance: `Installation.DiscardLosesPrevious`.
- A backup that cannot be renamed back is removed with the staging directory
  (game-installation.service.ts:163-166, 266-270), so a second failure during the rollback costs a
  replaced file. `Installation.Install`: at most one file for each such failure, and everything is
  as it was if and only if none is missing. Instance: `Installation.StuckBackupLosesPrevious`.

## Model

| member | source | states |
|---|---|---|
| `Journal.OneCommitPoint` | electron/services/fragmentation-repair/journal.store.ts:4-17 | over every history the table allows: once committed a journal never rolls back, once rolling back it never commits, and the only way into the committed states is from the validation of the active file |
| `Journal.OneWayToCommit` | electron/services/fragmentation-repair/journal.store.ts:4-17 | every history that reaches one of the eight states up to committed went through all those before it, in their order |
| `Journal.HowItEnds` | electron/services/fragmentation-repair/journal.store.ts:4-17 | nothing is left to do exactly after an abort, a restore or a complete cleanup; which state comes before each of those and before each step of a rollback |
| `Journal.Create` | electron/services/fragmentation-repair/journal.store.ts:25-36 | the new entry has revision 1 and state planned, and is the only one written; a fault or crash writes nothing |
| `Journal.Transition` | electron/services/fragmentation-repair/journal.store.ts:113-138 | succeeds only from the current revision and only along the table; otherwise the three refusals, in order, and no write |
| `Journal.MarkRecoveryPending` | electron/services/fragmentation-repair/journal.store.ts:93-111 | from any state, but only at the current revision; otherwise refused with no write |
| `Candidates.CopyChunks` | electron/services/fragmentation-repair/candidate.service.ts:33-43 | the chunk loop ends with a copy equal to the source; wherever it stops, the copy is no longer than what was taken from the free space |
| `Candidates.InspectCandidate` | electron/services/fragmentation-repair/candidate.service.ts:64-78 | a candidate passes if and only if its structure has no flaw and the look at it found it contiguous; the look is on record with the file it was at |
| `Candidates.CreateCandidate` | electron/services/fragmentation-repair/candidate.service.ts:17-89 | success: the candidate is a new file, it, the source and the fingerprint are equal, its structure has no flaw, and the one look at it found it contiguous; nothing else changed. A throw has its reason: a fault, too little room, other contents, the flaw itself, or an answer of "fragmented" on record. An undisturbed failure leaves no candidate; free space never dips by more than the source |
| `Repair.SwapKeeps` | electron/services/fragmentation-repair/transaction.service.ts:155-160 | after each of the two renames the original is still under its own or its backup name, and swapping then deleting the backup is the same as deleting the candidate |
| `Repair.Swap` | electron/services/fragmentation-repair/transaction.service.ts:155-160 | the two renames with their syncs: the flags say exactly which of the three devices was reached |
| `Repair.CheckActive` | electron/services/fragmentation-repair/transaction.service.ts:175-186 | the promoted file passes only if it is equal to the fingerprint, the work was still wanted when asked, and then the file under its name was found contiguous; a refusal is on record |
| `Repair.ValidateAndCommit` | electron/services/fragmentation-repair/transaction.service.ts:161-193 | the journal passes the commit only if the active file was found equal to the fingerprint and the two answers just heard were that the work is still wanted and that this very file is contiguous; undisturbed, a refusal is what makes it throw |
| `Repair.Promote` | electron/services/fragmentation-repair/transaction.service.ts:153-201 | wherever it stops, journal state and files agree, and the flags say what the handler has to undo |
| `Repair.Undo` | electron/services/fragmentation-repair/transaction.service.ts:211-217 | puts the original back whether or not the candidate had been promoted; at no step is the last copy removed |
| `Repair.RollBack` | electron/services/fragmentation-repair/transaction.service.ts:202-229 | past the commit the device and the journal stay as they are; before it, without further faults, the journal ends restored with the original in place |
| `Repair.PromoteOrUndo` | electron/services/fragmentation-repair/transaction.service.ts:151-229 | without faults a refused promotion leaves the device as before the candidate, journal restored; always, the original survives where the journal says |
| `Repair.ExecuteSingle` | electron/services/fragmentation-repair/transaction.service.ts:71-233 | one image. Past the commit the file at the source is the copy this run made, and the six answers on the way to it, in their order, were all yes: the original unmodified, the work wanted, the copy contiguous, the work wanted twice more, the copy contiguous in its place; there was the room asked for. Before the commit the original file itself is at its own or its backup name. Success replaces the file by an identical one and leaves no backup or candidate; every throw has a fault or a refusal as its reason, and undisturbed with no refusal the image is rewritten; a source that is not what was diagnosed is never touched |
| `Execution.FreshTarget` | electron/services/fragmentation-repair/transaction.service.ts:75-97 | the room asked for one image is its length, and its backup and candidate names are free |
| `Execution.TotalWithinSelection` | electron/services/fragmentation-repair/transaction.service.ts:253-278 | the candidates of the checked parts take no more room than the whole selection |
| `Execution.Execute` | electron/services/fragmentation-repair/transaction.service.ts:40-233 | every ending of `execute`, image or set: nothing is done before the device was found to be that of the plan, and nothing but the journal written without the room asked for; past the commit the files are new copies found contiguous, after every question of the source was asked in its order; before it the original files are kept; the originals survive where the journal says; success and undisturbed failure leave the device as it was; every throw has its reason; an undisturbed run of a repairable item that is refused nothing rewrites all its files; space is conserved, only this journal changes |
| `Execution.RefusedWithRoom` | electron/services/fragmentation-repair/transaction.service.ts:71-97 | with the room that was planned free, no refusal of a run is one for lack of space |
| `Multipart.PromotionSteps` | electron/services/fragmentation-repair/transaction.service.ts:338-349 | after every single rename of the loop the device is one the handler can undo |
| `Multipart.PromoteAll` | electron/services/fragmentation-repair/transaction.service.ts:337-349 | wherever the loop stops: the recorded parts are set aside, the later ones untouched, except at most one part set aside but not recorded |
| `Multipart.RollbackSteps` | electron/services/fragmentation-repair/transaction.service.ts:396-400 | each undo step, last part first, brings one more part home and disturbs no other |
| `Multipart.UndoAll` | electron/services/fragmentation-repair/transaction.service.ts:395-404 | success brings every recorded part home; wherever it stops each original is at its source or backup |
| `Multipart.RollBackAll` | electron/services/fragmentation-repair/transaction.service.ts:388-410 | the handler of a set: nothing is touched past the commit, no original is lost whatever fails, and what comes back under its own name is the original file itself |
| `Multipart.ValidateAll` | electron/services/fragmentation-repair/transaction.service.ts:350-380 | the set passes the commit only if every part but `ul.cfg` was found equal to its fingerprint and the answers just heard were that the work is still wanted and, part by part, that the file in its place is contiguous; a part found fragmented is what makes it throw so |
| `Multipart.CleanUpAll` | electron/services/fragmentation-repair/transaction.service.ts:381-386 | deleting the backups one by one keeps every original at its source; complete only when all backups are gone |
| `MultipartRun.OrderedPutsUlCfgLast` | electron/services/fragmentation-repair/transaction.service.ts:250-252 | the promotion order holds the same files, with `ul.cfg` after everything else |
| `MultipartRun.OrderedSorts` | electron/services/fragmentation-repair/transaction.service.ts:250-252 | for a collation that is a total order the parts but `ul.cfg` come out ascending |
| `MultipartRun.CollectSources` | electron/services/fragmentation-repair/transaction.service.ts:258-273 | the checked sources are exactly those found equal to their fingerprints, in order |
| `MultipartRun.Gather` | electron/services/fragmentation-repair/transaction.service.ts:241-278 | selection, order, source and space checks; success means all selected files are checked and there is room |
| `MultipartRun.CreateAllOrNone` | electron/services/fragmentation-repair/transaction.service.ts:290-305 | either every part has a verified candidate, or what was created is dropped again |
| `MultipartRun.StageSet` | electron/services/fragmentation-repair/transaction.service.ts:279-322 | staging keeps every file but the candidates, which are new files; it goes on only after each of them was found contiguous and the work still wanted; a cancelled or failed staging leaves none |
| `MultipartRun.PromoteSet` | electron/services/fragmentation-repair/transaction.service.ts:323-410 | the guarded part of a set: promotion, check, commit, cleanup or handler, every original kept |
| `MultipartRun.RunSet` | electron/services/fragmentation-repair/transaction.service.ts:279-415 | a set run: past the commit every part is the copy this run made, and the answers on the way, in their order, were all yes: every candidate contiguous, the work wanted twice, every part but `ul.cfg` contiguous in its place; success gives back the same contents; every ending keeps every original; a throw has its reason; the dip of free space is at most the sum of the parts |
| `MultipartRun.ExecuteMultipart` | electron/services/fragmentation-repair/transaction.service.ts:235-415 | `executeMultipart`, every ending, for any number of parts and any faults and crashes: every original survives where the journal says; a journal that says restored and has recorded backups has every part home, and without recorded backups exactly if no file is missing; past the commit all parts are new files found contiguous; every throw has a fault or a refusal as its reason, and undisturbed without a refusal the whole ordered selection is rewritten |
| `MultipartRun.AllOrNothing` | electron/services/fragmentation-repair/transaction.service.ts:337-410 | a rollback is all or nothing over the stored journal: restored with recorded backups means every part is home; restored without them means it if and only if no file is missing, and a missing one is whole under its backup name with all others home |
| `MultipartRun.SyncFailureLeavesOneAway` | electron/services/fragmentation-repair/transaction.service.ts:341-345 | the part that stays away exists: a failed sync after the first rename leaves it under its backup name with the journal restored |
| `MultipartRecovery.UlCfgMovesLast` | electron/services/fragmentation-repair/transaction.service.ts:250-252 | before the commit the new `ul.cfg` is in place only if every part is |
| `MultipartRecovery.StoppedSetIsProvable` | electron/services/fragmentation-repair/recovery.service.ts:145-180 | a stopped set recorded in promotion order is restorable if and only if no part or every part was set aside |
| `MultipartRecovery.PairingDecides` | electron/services/fragmentation-repair/recovery.service.ts:153-180 | with all originals set aside, recovery restores if and only if fingerprint order and promotion order agree on the contents |
| `MultipartRecovery.MisorderedSetIsNotRestored` | electron/services/fragmentation-repair/recovery.service.ts:153-180 | two parts diagnosed in the other order: nothing is lost, and recovery gives up |
| `Planning.PlannedSetIsInOrder` | electron/services/fragmentation-repair/diagnostic.service.ts:509-568 | the planner never makes such a set: a set listed as the diagnosis lists it gets fingerprints in promotion order, each file once |
| `Planning.PlannedPrintsAreDistinct` | electron/services/fragmentation-repair/plan.service.ts:51-99 | a planned item of any format names each file once |
| `MultipartRecovery.ExecutedSetIsTracked` | electron/services/fragmentation-repair/transaction.service.ts:330-410 | whatever a stopped run of a set left behind is a journal that recovery and cleanup treat as one of these parts |
| `MultipartRecovery.RestoreSet` | electron/services/fragmentation-repair/recovery.service.ts:32-257 | after any stop, before or after the commit, and any sequence of interrupted reconcile, recover and resolve with either action, every part has its original at its source or backup, and at its source once committed; a set whose journal comes to say restored is home unless residue was dropped |
| `MultipartRecovery.LiveSet` | electron/services/fragmentation-repair/recovery.service.ts:32-257 | the same from the start: `execute` of a set stopped anywhere, then any such sequence; restored in the end with recorded backups means home, and without them too unless the run itself had ended so with a part away |
| `Recovery.ToRestored` | electron/services/fragmentation-repair/recovery.service.ts:259-295 | leads every restorable journal to restored along the table, any other to recovery-pending |
| `Recovery.PutBack` | electron/services/fragmentation-repair/recovery.service.ts:103-131 | the decision for one file from an arbitrary device: acts if and only if the backup is the original, or there is none and the source is; a live original stays alive at every step; which file ends in place: the backup, unless the active one was proven and the user did not ask for the backup |
| `Recovery.RestoreParts` | electron/services/fragmentation-repair/recovery.service.ts:143-194 | from an arbitrary device: restores if and only if all active files or all backups match, otherwise changes nothing |
| `Recovery.RestoreSafely` | electron/services/fragmentation-repair/recovery.service.ts:90-200 | the last verified copy survives every step; without proof no file changes; restored if and only if proven (undisturbed, restorable state), and then with which file in place; journal and device stay in agreement unless a committed file with a backup is restored on request |
| `Recovery.FirstWriteKeepsSound` | electron/services/fragmentation-repair/recovery.service.ts:118-126 | that exception is exact: after the first write of a restore journal and device agree if and only if it is not a requested restore of a committed file that still has a backup |
| `Recovery.CommittedRestoreInterrupted` | electron/services/fragmentation-repair/recovery.service.ts:118-126 | the exception happens: a committed repair, a requested restore, and the process dies after the active file is removed |
| `Recovery.CleanupCommitted` | electron/services/fragmentation-repair/recovery.service.ts:202-233 | active file and backup are those of the first fingerprint, the backup looked for beside it; the backup goes only after that file is proven and only if it is what the repair put there; complete if and only if proven |
| `Recovery.CleanupVerifiedResidue` | electron/services/fragmentation-repair/recovery.service.ts:235-257 | candidates and backup are looked for beside the first file and go only while that file is proven; refused without effect otherwise; the state each journal then has |
| `Reconciliation.CleanupKeepsSound` | electron/services/fragmentation-repair/recovery.service.ts:202-233 | what a cleanup does keeps journal and device in agreement |
| `Reconciliation.ReconcileOne` | electron/services/fragmentation-repair/recovery.service.ts:40-53 | one journal of `reconcile`: undisturbed, a committed repair is complete and any other restored if and only if that is proven, and waits for the user otherwise; a single file and any set of tracked files stay safe wherever it stops; nothing it does not claim is touched |
| `Reconciliation.DecisionIsLocal` | electron/services/fragmentation-repair/recovery.service.ts:40-53 | that decision depends only on the names the journal claims |
| `Tracking.TrackedParts` | electron/services/fragmentation-repair/recovery.service.ts:143-163 | for a journal with several fingerprints the files recovery decides about are the rewritten ones, each with its own backup |
| `Tracking.RestoreKeepsSafe` | electron/services/fragmentation-repair/recovery.service.ts:134-200 | a restore stopped anywhere keeps the original of every rewritten file at its source or backup, and at its source past the commit |
| `Tracking.RestoreKeepsHome` | electron/services/fragmentation-repair/recovery.service.ts:170-194 | a journal that comes to say restored says so of files in place |
| `Tracking.CleanupKeepsSafe` | electron/services/fragmentation-repair/recovery.service.ts:202-233 | a committed cleanup keeps every rewritten file in place, also when it proves another file |
| `Tracking.ResidueLosesIff` | electron/services/fragmentation-repair/recovery.service.ts:248-253 | dropping residue costs a rewritten file if and only if the backup removed is its own and it is not in place |
| `Tracking.ResidueKeepsSafe` | electron/services/fragmentation-repair/recovery.service.ts:235-257 | it costs none if no other rewritten file would have its backup looked for beside the first file |
| `ResidueCases.DropUndisturbed` | electron/services/fragmentation-repair/recovery.service.ts:235-257 | undisturbed, the journal says restored of a file that is not in place if and only if the first file was in place and that file was not |
| `ResidueCases.ArtFirstSaysRestored` | electron/services/fragmentation-repair/recovery.service.ts:239-256 | an image diagnosed with its cover art first: the journal says restored while the image exists only under its backup name |
| `ResidueCases.ArtFirstKeepsBackup` | electron/services/fragmentation-repair/recovery.service.ts:211-232 | the same image once committed: the cleanup proves the cover art and leaves the backup of the image |
| `ResidueCases.FirstPartHidesLoss` | electron/services/fragmentation-repair/recovery.service.ts:239-253 | a set whose first part was not rewritten: proving that part removes the only copy of the second |
| `ResidueCases.ApartIffElsewhere` | electron/services/fragmentation-repair/recovery.service.ts:305-311 | for one rewritten file the condition is that the first file is that file or lies in another directory |
| `Reconciliation.ReconciledIsLocal` | electron/services/fragmentation-repair/recovery.service.ts:40-53 | the guarantee of one reconciled journal depends only on the names it claims |
| `Reconciliation.Reconcile` | electron/services/fragmentation-repair/recovery.service.ts:32-57 | any number of journals over separate files: each keeps its guarantee wherever the loop stops, no other journal changes, and an undisturbed run gives each the decision it would have had alone |
| `Lifecycle.Resolve` | electron/services/fragmentation-repair/recovery.service.ts:72-88 | refused without effect unless confirmed at the current revision; a confirmed undisturbed restore ends restored if and only if the repair is provable; every tracked file stays safe |
| `Lifecycle.LiveOn` | electron/services/fragmentation-repair/recovery.service.ts:32-132 | any sequence of later processes over a journal with several fingerprints keeps every rewritten file safe, and restored true unless the user drops residue |
| `Lifecycle.Live` | electron/services/fragmentation-repair/recovery.service.ts:32-257 | crash safety over whole runs, with any fingerprints beside that of the image: after `execute` stopped anywhere and any sequence of reconcile, recover and resolve stopped anywhere, the original bytes are at source or backup |
| `Lifecycle.LiveAndRecover` | electron/services/fragmentation-repair/recovery.service.ts:32-132 | recovery converges: then one undisturbed start-up, and the user where a journal waits, end with the original at its own name (with several fingerprints: unless the user had dropped residue); with one fingerprint also without a backup, the user being asked only if a fault had left the journal waiting |
| `Planning.OperationalMargin` | electron/services/fragmentation-repair/plan.service.ts:12-16 | the least margin that is at least 64 MiB and at least two per cent |
| `Planning.FragmentedFiles` | electron/services/fragmentation-repair/plan.service.ts:51-53 | exactly the fragmented files that are not `ul.cfg` |
| `Planning.EligibleIff` | electron/services/fragmentation-repair/plan.service.ts:46-79 | which games are repaired: those found fragmented, with something to rewrite whose sizes are known and with digest and date of every measured file; each reason for exclusion holds of the game it is given to |
| `Planning.PlannedNeed` | electron/services/fragmentation-repair/plan.service.ts:80-108 | a planned item asks for exactly what its candidates will take plus its margin, and each file it rewrites has a fingerprint |
| `Planning.PlanNumbersItems` | electron/services/fragmentation-repair/plan.service.ts:157-163 | every selected game is planned or excluded once, and items are numbered 0, 1, ... in selection order |
| `Planning.PlanPicks` | electron/services/fragmentation-repair/plan.service.ts:157-176 | the plan holds the eligible games of the selection, in its order and each once, and the others are its exclusions |
| `Planning.PeakIsLargestNeed` | electron/services/fragmentation-repair/plan.service.ts:180 | the peak is at least every item's need and is one of them |
| `Planning.CreatePlan` | electron/services/fragmentation-repair/plan.service.ts:157-189 | the loop builds that plan, and none when no game is eligible |
| `Batches.LeavesOthersFresh` | electron/services/fragmentation-repair/batch.service.ts:72-99 | a run leaves the backup and candidate names of files it does not rewrite free |
| `Batches.RunItem` | electron/services/fragmentation-repair/batch.service.ts:60-99 | one item: its result is that of its own run. Corrected: its journal is complete and its files are the new copies found contiguous; cancelled: its journal is aborted; failed for exactly the five codes after which a batch goes on, in need of recovery for every other; a result other than corrected has a fault or a refusal as its reason. Undisturbed it leaves the device as it was, never fails for lack of space with its room free, and corrects a repairable item that is refused nothing; without the room asked for it fails so and touches nothing |
| `Batches.ExecuteBatch` | electron/services/fragmentation-repair/batch.service.ts:35-103 | for each index the result is that of the item's own run, or cancelled on a request that is on record, or skipped after an earlier result that needs recovery; nothing runs after one. Every item that is not withdrawn was asked about at its own turn and still wanted, and after a request to stop all later ones are withdrawn. With each need free and nothing going wrong: no item fails for lack of space, everything is free again after each, no item dips into its margin, and without refusals every item is corrected |
| `Batches.PlanFits` | electron/services/fragmentation-repair/plan.service.ts:157-189 | the plan of well-diagnosed games asks for what each item takes plus its margin, and for no more than the peak |
| `Batches.ExecutePlan` | electron/services/fragmentation-repair/batch.service.ts:35-103 | a plan of well-diagnosed games with its peak free at the start: all that a batch promises for every index, with no assumption on the numbers, and without refusals every game corrected |
| `Lz4.CopyRepeats` | electron/services/images/zso.service.ts:77-79 | a match repeats the output `offset` places back, also where it overlaps itself |
| `Lz4.PaddedBlock` | electron/services/images/zso.service.ts:47-84 | what the decoder returns for an encoded block followed by any number of zeros and any expected size from its own on: the expansion if and only if the sizes agree and there is no padding or the block ends with a match; otherwise which error |
| `Lz4.BadOffsetIsRefused` | electron/services/images/zso.service.ts:65-68 | a match of offset zero, or from before the start of the output, is refused wherever it stands |
| `Lz4.RoundTrip` | electron/services/images/zso.service.ts:47-84 | for every well-formed block the decoder returns exactly its expansion |
| `Lz4.ExtendLength` | electron/services/images/zso.service.ts:53-60 | a nibble of 15 is followed by extension bytes up to the first that is not 255; running out of input is told apart |
| `Lz4.CopyMatch` | electron/services/images/zso.service.ts:78-79 | the in-place byte-by-byte copy is the match copy, stopped at the end of the buffer |
| `Lz4.DecodeLz4` | electron/services/images/zso.service.ts:47-84 | the in-place decoder with its two cursors equals the decoding function on every input, errors included |
| `Zso.BlocksCoverImage` | electron/services/images/zso.service.ts:35-37 | the block count is the least that covers the image |
| `Zso.IndexIsComplete` | electron/services/images/zso.service.ts:39-41 | in an accepted file every block of the image has both its index entries inside the file |
| `Zso.StoredBlockDecodes` | electron/services/images/zso.service.ts:172-174 | a block stored raw or as an encoded LZ4 block, with padding where the decoder bears it, is read back as itself |
| `Zso.StoredImageIsRepresented` | electron/services/images/zso.service.ts:153-178 | a file all of whose blocks are stored in either way stands for its image |
| `ZsoFiles.HeaderVerdict` | electron/services/images/zso.service.ts:18-41 | for all values of the header fields: accepted if and only if the header and block sizes are in bounds and the file holds the whole index; which error otherwise |
| `ZsoFiles.ForeignFile` | electron/services/images/zso.service.ts:18-34 | a short file, one without the magic bytes and one of an empty image are refused |
| `ZsoFiles.BlockVerdict` | electron/services/images/zso.service.ts:156-171 | what two neighbouring index entries mean at any alignment: the stored bytes and raw flag, or which error |
| `ZsoFiles.BuiltHeader` | electron/services/images/zso.service.ts:15-41 | the header of a file built from header, index and blocks, at any alignment, is accepted with its geometry |
| `ZsoFiles.BuiltBlock` | electron/services/images/zso.service.ts:156-171 | each stored block of a built file is found through the index, with its raw flag |
| `ZsoFiles.BuiltFileStandsForImage` | electron/services/images/zso.service.ts:126-178 | round trip of a whole file: whatever mixture of raw and LZ4 blocks it is built of, at whatever alignment, it is accepted and stands for its image |
| `Zso.LoadBlock` | electron/services/images/zso.service.ts:156-174 | index, bounds and length checks in order, then the raw bytes or the decoding |
| `Zso.ZsoReader.FetchBlock` | electron/services/images/zso.service.ts:153-178 | the same answer from the cache or from the file; each cached block equals its decoding, at most eight stay, the oldest goes when a ninth comes |
| `Zso.ZsoReader.ReadWithinBlock` | electron/services/images/zso.service.ts:135-140 | the part of one block agrees with every image the file stands for; an error only if there is none |
| `Zso.ZsoReader.Read` | electron/services/images/zso.service.ts:126-146 | on a file that stands for an image: exactly `image[offset .. min(size, offset + length)]`, whatever the cache holds; on any file a returned buffer has exactly that length |
| `Zso.OpenReader` | electron/services/images/zso.service.ts:115-124 | opens exactly the accepted headers with a safely addressable size, with an empty cache |
| `Iso9660.VersionGoes` | electron/services/images/iso9660.service.ts:58 | a version suffix is dropped from a name, all of it and nothing else |
| `Iso9660.NameMeans` | electron/services/images/iso9660.service.ts:58 | the name of an entry: the bytes in upper case up to the first `;` that only digits follow, all of them without one |
| `Iso9660.EntryMeans` | electron/services/images/iso9660.service.ts:57-62 | what is kept of one record: name, extent, size and the directory bit; nothing of `.` and `..` |
| `Iso9660.ParsesRecord` | electron/services/images/iso9660.service.ts:46-63 | one well-formed record is one step of the parser and gives its entry |
| `Iso9660.SkipsZeros` | electron/services/images/iso9660.service.ts:48-51 | zeros up to the end of a sector are skipped |
| `Iso9660.ParsingUndoesPacking` | electron/services/images/iso9660.service.ts:43-66 | for any records packed in any way into 2048-byte sectors the parser returns exactly those other than `.` and `..`, in order |
| `Iso9660.ParseDirectory` | electron/services/images/iso9660.service.ts:43-66 | the loop terminates on every buffer and returns what the parsing function does |
| `SystemCnf.FirstCnf` | electron/services/images/iso9660.service.ts:83-84 | the first file named SYSTEM.CNF, if any |
| `SystemCnf.DirectoriesMean` | electron/services/images/iso9660.service.ts:85 | the directories that are queued: those of the listing, all of them, in its order |
| `SystemCnf.ListingOfPacked` | electron/services/images/iso9660.service.ts:78-82 | what is read of a directory: the records packed from 2048 times its extent on, for any size up to 16 MiB |
| `SystemCnf.ListingIsClipped` | electron/services/images/iso9660.service.ts:80 | of a longer one the first 16 MiB |
| `SystemCnf.FindSystemCnf` | electron/services/images/iso9660.service.ts:68-89 | terminates on every image; found if and only if one of the first 1025 vertices lists a SYSTEM.CNF, and then the bytes are those of the image from 2048 times the extent of that entry, its size clipped to 65536 and to the image; the directory is reachable, and it and the entry are the first by breadth-first order and order of listing |
| `SystemCnf.EachExtentOnce` | electron/services/images/iso9660.service.ts:75-77 | cycles included, no extent is expanded twice and at most 1025 are |
| `SystemCnf.SearchIsExact` | electron/services/images/iso9660.service.ts:68-89 | on every image: found if and only if one of the first 1025 extents in breadth-first order lists a SYSTEM.CNF in the first entry that names it |
| `SystemCnf.FirstsMean` | electron/services/images/iso9660.service.ts:75-87 | that order: level by level, each extent once, each within as many steps as its level, and all that a vertex lists is in the next level |
| `SystemCnf.FoundWithinSteps` | electron/services/images/iso9660.service.ts:72-88 | however large the image: with at most 1025 extents within k steps whose entries agree, a SYSTEM.CNF listed within k steps is found |
| `SystemCnf.FoundIsReachable` | electron/services/images/iso9660.service.ts:83-88 | what is found is listed by a reachable directory |
| `SystemCnf.SearchIsComplete` | electron/services/images/iso9660.service.ts:72-88 | on an image within the visit limit where entries for one extent list the same, a SYSTEM.CNF is found if and only if some reachable directory lists one |
| `SystemCnf.SmallerSizeHidesCnf` | electron/services/images/iso9660.service.ts:76 | the instance: a smaller second size for an extent hides a reachable SYSTEM.CNF |
| `NamingPlans.GroupDecides` | electron/services/naming/naming-audit.service.ts:70-77 | a group has more than one member exactly when its members would share a name |
| `NamingPlans.Classify` | electron/services/naming/naming-audit.service.ts:21-92 | each item by itself, except that all items of a shared name become collisions |
| `NamingPlans.ProvisionalMeans` | electron/services/naming/naming-audit.service.ts:25-69 | an image with an id is to get its canonical name in its own directory and is canonical if it has it; any other file is left alone, and why |
| `NamingPlans.DirectoryMeans` | electron/services/naming/naming-audit.service.ts:54-58 | the directory of a path is all before its last separator, of either kind, written with slashes |
| `NamingPlans.DestinationIsUnique` | electron/services/naming/naming-audit.service.ts:70-84 | the new name of a file to rename differs, whatever the case of the letters, from every other canonical name |
| `NamingPlans.CreatePlan` | electron/services/naming/naming-plan.service.ts:16-59 | each selected item is renamed or excluded, in audit order; a stale revision is refused |
| `NamingPlans.PlanIsProper` | electron/services/naming/naming-plan.service.ts:23-44 | a plan made from an audit of distinct files has distinct sources, distinct destinations and fresh temporaries |
| `Renames.RollbackIsInverse` | electron/services/naming/naming-transaction.service.ts:151-161 | undoing completed steps in reverse order is an exact inverse, even when destinations reuse vacated names |
| `Renames.RollbackAfterFault` | electron/services/naming/naming-transaction.service.ts:145-166 | where every file is after a fault at any step and place and the rollback of the steps before it, also where a later source has vanished |
| `Renames.NothingLostIff` | electron/services/naming/naming-transaction.service.ts:113-161 | content is conserved if and only if the fault is not one found after the second rename of a step that reuses an earlier name |
| `NamingTransaction.WriteJournal` | electron/services/naming/naming-transaction.service.ts:58-66 | a journal write that fails or dies leaves the old journal or a torn one |
| `NamingTransaction.RunStep` | electron/services/naming/naming-transaction.service.ts:75-123 | where the file of a step is however the step ends, and why it may end so; an existing destination is never overwritten |
| `NamingTransaction.RunSteps` | electron/services/naming/naming-transaction.service.ts:74-135 | the completed steps found their sources and free destinations; the device is exactly theirs plus the one unfinished step |
| `NamingTransaction.RollBack` | electron/services/naming/naming-transaction.service.ts:151-161 | without a fault of its own, exactly the reverse undo; with any faults and crashes no file is lost if no name is reused |
| `NamingTransaction.Execute` | electron/services/naming/naming-transaction.service.ts:32-167 | success renames every file, each found as expected with its destination free, and then asked about and found the same, step by step; a failure has its reason, and a plan that fits, undisturbed and with no identity refused, succeeds; one failure is undone exactly as far as stated; whatever fails or crashes, a plan that reuses no name keeps each file once, under one of its three names, and uses a temporary name exactly if the run stopped between the two renames of that file; what the journal then is |
| `NamingTransaction.OneFailureIsExact` | electron/services/naming/naming-transaction.service.ts:145-166 | for any proper plan, with or without vanished sources: after one failure every completed file is back and the failing one is where it was left, nothing lost or doubled - if and only if the failure is not the one exception |
| `NamingTransaction.ReuseLosesAFile` | electron/services/naming/naming-transaction.service.ts:113-153 | the exception happens: a proper two-step plan on which a failed identity check costs a file |
| `NamingTransaction.HaltedConserves` | electron/services/naming/naming-transaction.service.ts:74-123 | up to a crash in the forward run nothing is overwritten, reused names included |
| `NamingRecovery.ReconcileStep` | electron/services/naming/naming-recovery.service.ts:25-46 | the decision by which of the three names exist; `RecoveryPlaces` says where the file ends |
| `NamingRecovery.ReconcileJournal` | electron/services/naming/naming-recovery.service.ts:13-54 | one journal: the steps decided from the last on; it goes if and only if (undisturbed) nothing was ambiguous; a torn one changes nothing |
| `NamingRecovery.RecoveryConserves` | electron/services/naming/naming-recovery.service.ts:21-47 | from any device and with any journal no content is lost, doubled or changed |
| `NamingRecovery.RecoveryDecides` | electron/services/naming/naming-recovery.service.ts:21-47 | for a plan that reuses no name, or a part of one: each file that could be renamed ends at its old name or, unless it is to be undone, its new one; a step is ambiguous exactly if before the run both its names were in use or none; no other step is disturbed |
| `NamingRecovery.RecoveryPlaces` | electron/services/naming/naming-recovery.service.ts:25-46 | for such a plan, from the files before recovery: the file of each step that could run ends whole at its new name if and only if it was there and is not to be undone, otherwise whole at its old name - so also one found at its temporary name |
| `NamingRecovery.ConcludedIffResolvable` | electron/services/naming/naming-recovery.service.ts:20-51 | the journal of such a plan is concluded if and only if of each step exactly one of the two names was in use before the run |
| `NamingRecovery.MissingSourceIsNeverConcluded` | electron/services/naming/naming-recovery.service.ts:25-51 | an instance: a file deleted between audit and run, whose journal asks for recovery for good |
| `NamingRecovery.TakenDestinationIsNeverConcluded` | electron/services/naming/naming-recovery.service.ts:25-51 | an instance: another file has taken the destination between audit and run |
| `NamingRecovery.FailedPlanGoesHome` | electron/services/naming/naming-recovery.service.ts:33-36 | after a failure that was recorded, every step recorded as completed is undone and its file is back under its old name, whatever made the next step fail |
| `NamingRecovery.RecordedIsUndoable` | electron/services/naming/naming-transaction.service.ts:124-164 | the journal a run leaves lists as completed only steps that found their file and a free destination before the run |
| `NamingRecovery.RecoveryIsIdempotent` | electron/services/naming/naming-recovery.service.ts:21-47 | running recovery again changes nothing, vanished files and taken destinations included |
| `NamingRecovery.Reconcile` | electron/services/naming/naming-recovery.service.ts:6-57 | all journals in any order: contents conserved, no journal changed, the count is the number removed; for journals of separate parts of a plan that reuses no name each file stays at one of its names, a journal that goes leaves its files at rest, and undisturbed each one not torn does so and goes if and only if before the run exactly one name of each of its steps was in use |
| `NamingRecovery.ExecuteAndRecover` | electron/services/naming/naming-recovery.service.ts:6-57 | a run interrupted anywhere, then any number of recoveries each under its own faults and crashes, then an undisturbed one: each file is exactly once at its old or new name if and only if it is not the case that the run stopped between two renames and its journal is torn; crashes alone never lead there; the journal stays if and only if it is torn or before the run both names of a step were in use or none; with a whole journal each file ends where `RecoveryPlaces` says, so the file of a run that stopped between two renames is back at its old name |
| `NamingRecovery.TornBetweenRenames` | electron/services/naming/naming-transaction.service.ts:58-66 | the instance: the second rename fails, the rollback has nothing to undo, the recovery-pending write tears the journal, and the file stays at its temporary name |
| `NamingRecovery.ConcludedIff` | electron/services/naming/naming-recovery.service.ts:21-51 | the journal of a plan that ran to the end, names reused or not, is concluded if and only if of the two names of each step exactly one is taken for good |
| `NamingRecovery.ConcludedIffNoReuse` | electron/services/naming/naming-recovery.service.ts:21-51 | where every file was there before the run, that is if and only if no destination is the old name of a step of the plan |
| `NamingRecovery.ReusedNameIsAmbiguous` | electron/services/naming/naming-recovery.service.ts:38-45 | the instance: two steps, the second into the name the first has left |
| `NetworkScheduling.InsertSorted` | electron/services/downloads/download-scheduler.service.ts:38-40 | the sort after a push: same jobs, each of a higher priority than any after it, or of the same and submitted earlier |
| `NetworkScheduling.NetworkPool.DrainNetwork` | electron/services/downloads/download-scheduler.service.ts:60-72 | starts exactly the first jobs of the ordered queue that fit; each started job has a higher priority than every job still queued, or the same and was submitted earlier; afterwards a job waits only while the pool is full |
| `NetworkScheduling.NetworkPool.ScheduleNetwork` | electron/services/downloads/download-scheduler.service.ts:29-43 | a job starts at once if there is room, otherwise nothing starts |
| `NetworkScheduling.NetworkPool.Settle` | electron/services/downloads/download-scheduler.service.ts:67-70 | however a job settles, one queued job starts at once: one of highest priority, and of those the first submitted |
| `NetworkScheduling.NetworkPool.RunOut` | electron/services/downloads/download-scheduler.service.ts:60-72 | once no more jobs come every job has started and settled, jobs of one priority in the order of their submission |
| `NetworkScheduling.FirstInTurn` | electron/services/downloads/download-scheduler.service.ts:38-40 | taking the first of the queue keeps jobs of one priority in order |
| `WriteScheduling.WriteChains.ScheduleWrite` | electron/services/downloads/download-scheduler.service.ts:45-57 | the new write waits behind the tail of its canonical device and becomes the tail |
| `WriteScheduling.WriteChains.Step` | electron/services/downloads/download-scheduler.service.ts:48-56 | every event of the chain keeps the invariants; a write starts only when all earlier ones of its device are over; cleaning up removes only its own tail; the work of a write is called when it starts |
| `WriteScheduling.AllOverWithoutTail` | electron/services/downloads/download-scheduler.service.ts:47 | a device without a tail in the map has no unfinished write |
| `WriteScheduling.OneAtATime` | electron/services/downloads/download-scheduler.service.ts:45-58 | never two writes of one device at once, and they start in order |
| `WriteScheduling.SomeCanStep` | electron/services/downloads/download-scheduler.service.ts:45-58 | in every reachable state with an unfinished write some event can happen |
| `WriteScheduling.RunOut` | electron/services/downloads/download-scheduler.service.ts:45-58 | however the events interleave and whichever writes fail, the work of every write is called, once, in the order of scheduling on each device, and the map ends empty |
| `Installation.PromoteOne` | electron/services/installation/game-installation.service.ts:228-244 | one file: previous destination aside, staged file in place; each file outside staging is in its place or in its backup wherever it stops |
| `Installation.Promote` | electron/services/installation/game-installation.service.ts:222-261 | all parts and then `ul.cfg`: each staged file in its place, and the record says which destinations were promoted and backed up |
| `Installation.RollBack` | electron/services/installation/game-installation.service.ts:263-272 | without a fault of its own every file outside staging is as it was; while staging exists nothing is lost even if it fails; a rollback that ran through leaves at most as many backed-up files away as renames failed |
| `Installation.Discard` | electron/services/installation/game-installation.service.ts:153 | removes the staging directory and nothing else |
| `Installation.PiecesMakeSource` | electron/services/installation/game-installation.service.ts:184-194 | the parts a source is cut into are the source when put together |
| `Installation.CheckStaged` | electron/services/installation/game-installation.service.ts:104-127 | the staged parts pass only if together they are the game, none was found fragmented and the installation is still wanted; a refusal says which failed |
| `Installation.Install` | electron/services/installation/game-installation.service.ts:79-169 | success: the verified game in place and nothing else changed. A single failure before staging is discarded: every file outside is as it was; each further one costs at most one replaced file. Failure while staging is discarded: as it was if and only if no destination is missing, so where none existed before. Dying there: the verified game is in place. Rollback cut short: each file in its place or its backup, or replaced with its backup gone; a finished installation was wanted at the start and before promotion, and no part was found fragmented, staged or in place, and every throw has its reason; undisturbed, with staging empty, room enough, the right contents and no refusal, it succeeds |
| `Installation.DiscardedUnderway` | electron/services/installation/game-installation.service.ts:153 | a removal of staging stopped anywhere: files whose backup is gone cannot come back, all others still can |
| `Installation.RestoredIffNothingGone` | electron/services/installation/game-installation.service.ts:153-168 | after the rollback that follows a failed removal everything is as it was if and only if no recorded backup had been removed |
| `Installation.DiscardLosesPrevious` | electron/services/installation/game-installation.service.ts:153-166 | the loss happens: the backup of a replaced file is removed, then the new file |
| `Installation.RestoredIffNoneMissing` | electron/services/installation/game-installation.service.ts:263-272 | after a rollback that ran through everything is as it was if and only if no file is missing |
| `Installation.StuckBackupLosesPrevious` | electron/services/installation/game-installation.service.ts:163-272 | a second failure costs a file: its backup cannot be renamed back and goes with the staging directory |
| `Extents.FollowsIffTiles` | electron/services/fragmentation/linux.adapter.ts:48-63 | among tables in ascending order the check between neighbours accepts exactly the tilings |
| `Extents.AdjacencyDecides` | electron/services/fragmentation/linux.adapter.ts:66-68 | neighbours are physically adjacent if and only if one base gives physical(l) = base + l for every block l |
| `Extents.ParseFilefrag` | electron/services/fragmentation/linux.adapter.ts:30-82 | accepted exactly for complete tables; then the ranges tile the file and contiguous means one run |
| `Extents.ParseFsutil` | electron/services/fragmentation/windows.adapter.ts:31-78 | accepted exactly for safe, complete tables; then the ranges tile the file and contiguous means one run |
| `Extents.BothAdapters` | electron/services/fragmentation/windows.adapter.ts:56-65 | both adapters give one verdict for the same extents |

## Left out

- Lifecycle.LiveAndRecover: with several fingerprints it is claimed that the image is back at its own name, not that its backup is gone; recovery looks for backups beside the first file only, as `ResidueCases.ArtFirstKeepsBackup` shows.
- MultipartRecovery.RestoreSet: does not claim that a half-promoted set is restored automatically; `restoreMultipart` stops at recovery-pending there, as `StoppedSetIsProvable` says. A request to drop residue is covered where no other part has its backup looked for beside the first file; `FirstPartHidesLoss` shows why.
- Reconciliation.Reconcile: the listing is given, with no file claimed by two unfinished journals; reading and parsing journals, schema migration and the fallback to an empty list are not modelled.
- Recovery.RestoreSafely: whether a path exists is asked without faults; a mount path is found or not.
- Repair.Swap: a sync is a step that may fail and does nothing else; what a power cut takes of unsynced files and renames is not modelled, the death of the process is.
- Execution.Execute: modification times, path resolution and symbolic links are not modelled; a changed file is one with other contents.
- Candidates.CreateCandidate: of an ISO the primary volume descriptor is checked, of a ZSO the header, as in the program; the rest of what `inspectIso` reads decides nothing here. Whether a file is contiguous is an answer; the extent tables behind it are modelled in `Extents`. A directory entry replaced during the copy is not modelled.
- Planning.CreatePlan: lookups, revision and selection checks before the loop, risks and texts of a plan are left out; the two per cent of the margin are taken exactly, without floating point.
- Planning.PlannedSetIsInOrder: that names sort as their two-digit part numbers is part of how a set is listed; the directory scan and the correlation of part names are left out.
- Batches.ExecuteBatch: items are given in the order of the plan; items of one disturbed batch rewrite different files. Notifications and the list of modified files by installation are left out.
- Batches.PlanFits: a diagnosed game lists each file once, with its path and size.
- Lz4.DecodeLz4: which truncated or damaged blocks are refused is stated for padding and for bad offsets; on any other input the loop is tied to the decoding function alone.
- Zso.ZsoReader.Read: reads of the underlying file do not fail; `readZsoBlock` is left out.
- ZsoFiles.BuiltFileStandsForImage: built files have their blocks one after another; `Zso.ZsoReader.Read` covers files laid out in any other way.
- Iso9660.ParsingUndoesPacking: multi-extent files, extended attribute records and non-ASCII names get no meaning beyond their bytes.
- SystemCnf.FindSystemCnf: the image is read without faults, as a slice of a flat file; the root record, the boot line of SYSTEM.CNF and the probe of the first four megabytes are left out.
- NamingPlans.Classify: normalising game ids and titles is not modelled, a candidate brings its canonical file name; lower case is that of ASCII.
- NamingTransaction.Execute: path resolution inside the device and creation of the staging directory are left out; the file map is case sensitive and asking whether a destination exists does not fail.
- NamingRecovery.ReconcileJournal: fewer than all steps may be decided when a rename fails; the rest is left to the next run, as in the program.
- NamingRecovery.ExecuteAndRecover: for plans that reuse no name; with a reused name the rollback may overwrite a file and the journal may stay, as said above.
- NetworkScheduling.NetworkPool.DrainNetwork: a work function that throws before it returns a promise, and one that schedules more work while it is being started, are left out.
- Installation.Install: crash recovery of an installation is left out, since its journal is written after the renames. The contents of `ul.cfg` are given; the digest and verification level in the result, confirmation and locks are left out. Files inspected concurrently are asked about in the order of the list.
- Extents.ParseFilefrag: rows and the number in the summary line are given; the regular expressions over tool output are left out. Numbers are exact.
- Concurrent writers of one journal, device locks, path safety, the journal files themselves, user interface, transfer protocols, art and version services are left out.
