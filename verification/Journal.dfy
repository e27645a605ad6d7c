/** The journal of one repair transaction and the store that guards its states. */
module Journal {
  import opened Storage

  /** Names on the device.  Backups and candidates carry the operation's random
      identifier, so they never coincide with a listed file or with each other. */
  datatype Path =
    | File(name: string)
    | Backup(of: string, operation: string)
    | Candidate(of: string, operation: string)

  /** The directory part of a name, up to and including the last separator. */
  function DirectoryOf(name: string): (directory: string)
    ensures |directory| <= |name| && directory == name[..|directory|]
  {
    if name == [] || name[|name| - 1] == '/' then name else DirectoryOf(name[..|name| - 1])
  }

  function BaseOf(name: string): string { name[|DirectoryOf(name)|..] }

  /** `other`, looked for in the directory of `name`. */
  function Beside(name: string, other: string): (beside: string)
    ensures beside == other <==> DirectoryOf(name) == DirectoryOf(other)
  {
    assert other == DirectoryOf(other) + BaseOf(other);
    assert DirectoryOf(name) + BaseOf(other) == other ==> DirectoryOf(name) == other[..|DirectoryOf(name)|];
    DirectoryOf(name) + BaseOf(other)
  }

  /** Journals record the last component of a path; recovery looks for it beside `name`. */
  function PathBeside(name: string, recorded: Path): (path: Path)
    ensures recorded.File? ==> path == File(Beside(name, recorded.name))
    ensures recorded.Backup? ==> path == Backup(Beside(name, recorded.of), recorded.operation)
    ensures recorded.Candidate? ==> path == Candidate(Beside(name, recorded.of), recorded.operation)
  {
    match recorded
    case File(n) => File(Beside(name, n))
    case Backup(n, operation) => Backup(Beside(name, n), operation)
    case Candidate(n, operation) => Candidate(Beside(name, n), operation)
  }

  /** A file as the diagnosis recorded it; its digest stands for its contents. */
  datatype Fingerprint = Fingerprint(name: string, contents: Bytes)

  datatype State =
    | Planned | PreflightValidated | Staging | CandidateVerified
    | CommitIntent | Promoting | ActiveValidating
    | Committed | CleanupPending | CleanupComplete
    | RollbackRequired | RollingBack | Restored | RecoveryPending | AbortedUnchanged

  datatype Entry = Entry(
    revision: nat,
    operation: string,
    state: State,
    fingerprints: seq<Fingerprint>,
    candidates: seq<Path>,
    backups: seq<Path>,
    intents: seq<string>)

  datatype Patch =
    | NoPatch | SetCandidates(paths: seq<Path>) | SetBackups(paths: seq<Path>) | SetIntents(names: seq<string>)

  type Device = Machine<Path, Entry>

  type Files = map<Path, Bytes>

  type Entries = map<JournalId, Entry>

  /** The transition table. */
  function Next(s: State): set<State> {
    match s
    case Planned => {PreflightValidated, AbortedUnchanged}
    case PreflightValidated => {Staging, AbortedUnchanged}
    case Staging => {CandidateVerified, AbortedUnchanged}
    case CandidateVerified => {CommitIntent, AbortedUnchanged}
    case CommitIntent => {Promoting, RollbackRequired}
    case Promoting => {ActiveValidating, RollbackRequired}
    case ActiveValidating => {Committed, RollbackRequired}
    case Committed => {CleanupPending}
    case CleanupPending => {CleanupComplete}
    case RollbackRequired => {RollingBack}
    case RollingBack => {Restored, RecoveryPending}
    case RecoveryPending => {RollingBack}
    case CleanupComplete => {}
    case Restored => {}
    case AbortedUnchanged => {}
  }

  function Patched(e: Entry, patch: Patch): Entry {
    match patch
    case NoPatch => e
    case SetCandidates(paths) => e.(candidates := paths)
    case SetBackups(paths) => e.(backups := paths)
    case SetIntents(names) => e.(intents := names)
  }

  /** `current` may move to `state` for a caller that read revision `revision`. */
  predicate MayTransition(entries: Entries, id: JournalId, revision: nat, state: State) {
    id in entries && entries[id].revision == revision && state in Next(entries[id].state)
  }

  /** Why a write is refused. */
  function Refusal(entries: Entries, id: JournalId, revision: nat): Code {
    if id !in entries then JournalNotFound
    else if entries[id].revision != revision then StaleRevision
    else InvalidJournalTransition
  }

  /** Entry `id` is stored and no other entry changed. */
  ghost predicate OnlyEntry(before: Entries, after: Entries, id: JournalId) {
    id in after && forall k :: k != id ==> (k in before <==> k in after) && (k in before ==> before[k] == after[k])
  }

  lemma OneWrite(journals: Entries, id: JournalId, entry: Entry)
    requires id in journals
    ensures OnlyEntry(journals, journals, id) && OnlyEntry(journals, journals[id := entry], id)
  {
  }

  lemma HasEntry(before: Entries, after: Entries, id: JournalId)
    requires OnlyEntry(before, after, id)
    ensures id in after
  {
  }

  lemma OnlyEntryBoth(a: Entries, b: Entries, c: Entries, id: JournalId)
    requires OnlyEntry(a, b, id) && OnlyEntry(b, c, id)
    ensures OnlyEntry(a, c, id) && id in b && id in c
  {
  }

  method Create(m: Device, id: JournalId, operation: string, fingerprints: seq<Fingerprint>)
    returns (r: Outcome, journal: Entry)
    modifies m`faults, m`journals
    ensures Stepped(r, old(m.faults), m.faults, m.crashes, true, IoError)
    ensures journal == Entry(1, operation, Planned, fingerprints, [], [], [])
    ensures m.journals == if r.Ok? then old(m.journals)[id := journal] else old(m.journals)
  {
    journal := Entry(1, operation, Planned, fingerprints, [], [], []);
    r := m.Put(id, journal);
  }

  method Transition(m: Device, id: JournalId, revision: nat, state: State, patch: Patch)
    returns (r: Outcome, journal: Entry)
    modifies m`faults, m`journals
    ensures m.faults <= old(m.faults)
    ensures if MayTransition(old(m.journals), id, revision, state)
            then Stepped(r, old(m.faults), m.faults, m.crashes, true, IoError)
            else r == Thrown(Refusal(old(m.journals), id, revision)) && m.faults == old(m.faults)
    ensures r.Ok? ==> journal == Patched(old(m.journals)[id], patch).(revision := revision + 1, state := state)
    ensures m.journals == if r.Ok? then old(m.journals)[id := journal] else old(m.journals)
  {
    journal := Entry(0, "", state, [], [], [], []);
    if id !in m.journals { return Thrown(JournalNotFound), journal; }
    var current := m.journals[id];
    if current.revision != revision { return Thrown(StaleRevision), journal; }
    if state !in Next(current.state) { return Thrown(InvalidJournalTransition), journal; }
    journal := Patched(current, patch).(revision := revision + 1, state := state);
    :- m.Put(id, journal);
    r := Ok;
  }

  /** The one write that ignores the transition table. */
  method MarkRecoveryPending(m: Device, id: JournalId, revision: nat) returns (r: Outcome, journal: Entry)
    modifies m`faults, m`journals
    ensures m.faults <= old(m.faults)
    ensures if id in old(m.journals) && old(m.journals)[id].revision == revision
            then Stepped(r, old(m.faults), m.faults, m.crashes, true, IoError)
            else r == Thrown(Refusal(old(m.journals), id, revision)) && m.faults == old(m.faults)
    ensures r.Ok? ==> journal == old(m.journals)[id].(revision := revision + 1, state := RecoveryPending)
    ensures m.journals == if r.Ok? then old(m.journals)[id := journal] else old(m.journals)
  {
    journal := Entry(0, "", RecoveryPending, [], [], [], []);
    if id !in m.journals { return Thrown(JournalNotFound), journal; }
    var current := m.journals[id];
    if current.revision != revision { return Thrown(StaleRevision), journal; }
    journal := current.(revision := revision + 1, state := RecoveryPending);
    :- m.Put(id, journal);
    r := Ok;
  }

  /** A history of states the table allows. */
  ghost predicate Legal(history: seq<State>) {
    forall i :: 0 < i < |history| ==> history[i] in Next(history[i - 1])
  }

  /** Before any intent is recorded. */
  predicate Early(s: State) { s in {Planned, PreflightValidated, Staging, CandidateVerified, AbortedUnchanged} }

  /** From the commit intent on the journal names what is to be promoted; before it, it
      records neither intents nor backups. */
  predicate Announces(entry: Entry, names: seq<string>) {
    if Early(entry.state) then entry.intents == [] && entry.backups == [] else entry.intents == names
  }

  predicate PastCommit(s: State) { s in {Committed, CleanupPending, CleanupComplete} }

  predicate RollsBack(s: State) { s in {RollbackRequired, RollingBack, Restored, RecoveryPending} }

  /** One commit point: a legal history never both commits and rolls back, in
      either order, and it commits only out of the validation of the active file. */
  lemma {:induction false} OneCommitPoint(history: seq<State>, i: nat, j: nat)
    requires Legal(history) && i <= j < |history|
    ensures PastCommit(history[i]) ==> PastCommit(history[j])
    ensures RollsBack(history[i]) ==> RollsBack(history[j])
    ensures i < j && !PastCommit(history[i]) && PastCommit(history[j]) ==>
              exists k :: i <= k < j && history[k] == ActiveValidating && history[k + 1] == Committed
    decreases j - i
  {
    if i < j {
      OneCommitPoint(history, i, j - 1);
      assert history[j] in Next(history[j - 1]);
      if !PastCommit(history[i]) && PastCommit(history[j]) {
        if !PastCommit(history[j - 1]) {
          assert history[j - 1] == ActiveValidating && history[j - 1 + 1] == Committed;
        }
      }
    }
  }

  /** The states of a repair that commits, in order. */
  const WAY_TO_COMMIT: seq<State> :=
    [Planned, PreflightValidated, Staging, CandidateVerified, CommitIntent, Promoting, ActiveValidating, Committed]

  /** There is one way to the commit: every history from the start that gets there went through all
      these states, in this order. */
  lemma {:induction false} OneWayToCommit(history: seq<State>, j: nat)
    requires Legal(history) && j < |history| && history[0] == Planned
    ensures forall i :: 0 <= i < 8 && history[j] == WAY_TO_COMMIT[i] ==>
              j == i && forall k :: 0 <= k <= j ==> history[k] == WAY_TO_COMMIT[k]
    decreases j
  {
    if j > 0 {
      OneWayToCommit(history, j - 1);
      assert history[j] in Next(history[j - 1]);
      forall i | 0 <= i < 8 && history[j] == WAY_TO_COMMIT[i]
        ensures j == i && forall k :: 0 <= k <= j ==> history[k] == WAY_TO_COMMIT[k]
      {
        OnePredecessor(history[j - 1], i);
        assert history[j - 1] == WAY_TO_COMMIT[i - 1];
      }
    } else {
      forall i | 0 <= i < 8 && Planned == WAY_TO_COMMIT[i] ensures i == 0 { }
    }
  }

  lemma OnePredecessor(before: State, i: nat)
    requires i < 8 && WAY_TO_COMMIT[i] in Next(before)
    ensures i > 0 && before == WAY_TO_COMMIT[i - 1]
  {
    assert i == 0 || i == 1 || i == 2 || i == 3 || i == 4 || i == 5 || i == 6 || i == 7;
  }

  /** Nothing is left to do exactly after an abort before the intent, a restore or a cleanup; and a
      repair is restored only out of a rollback that began after the intent. */
  lemma HowItEnds(history: seq<State>)
    requires Legal(history) && |history| > 1 && history[0] == Planned
    ensures var last, before := history[|history| - 1], history[|history| - 2];
            && (Next(last) == {} <==> last in {AbortedUnchanged, Restored, CleanupComplete})
            && (last == AbortedUnchanged ==> before in {Planned, PreflightValidated, Staging, CandidateVerified})
            && (last == CleanupComplete ==> before == CleanupPending)
            && (last == Restored ==> before == RollingBack)
            && (last == RollingBack ==> before in {RollbackRequired, RecoveryPending})
            && (last == RecoveryPending ==> before == RollingBack)
            && (last == RollbackRequired ==> before in {CommitIntent, Promoting, ActiveValidating})
  {
    assert history[|history| - 1] in Next(history[|history| - 2]);
  }
}
