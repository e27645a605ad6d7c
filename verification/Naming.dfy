/** The rename transaction: two renames a file, a journal, undo in reverse order. */
module NamingTransaction {
  import opened Storage
  import opened Renames

  datatype State = Running | Finished | RecoveryPending

  /** The journal file: opening it for writing empties it first. */
  datatype Journal = Torn | Whole(state: State, steps: seq<Step>, completed: seq<nat>)

  type Device = Machine<Name, Journal>

  // ---- Plans none of whose names serves two steps.

  function Names(s: Step): set<Name> { {s.from, s.temporary, s.to} }

  ghost predicate Apart(files: Files, steps: seq<Step>) {
    && (forall i :: 0 <= i < |steps| ==> Spread(files, steps[i]))
    && (forall i, j :: 0 <= i < j < |steps| ==> Names(steps[i]) !! Names(steps[j]))
  }

  ghost predicate Spread(files: Files, s: Step) {
    s.from != s.to && s.from != s.temporary && s.to != s.temporary && s.temporary !in files
  }

  ghost predicate SameAt(before: Files, files: Files, p: Name) {
    (p in files <==> p in before) && (p in before ==> files[p] == before[p])
  }

  /** The file of a step exists once, under one of its three names.  A step whose file was missing,
      or whose destination was taken, cannot have run: there all is as before. */
  ghost predicate Once(before: Files, files: Files, s: Step) {
    if CanStep(before, s) then
      || (s.from in files && s.temporary !in files && s.to !in files && files[s.from] == before[s.from])
      || (s.from !in files && s.temporary in files && s.to !in files && files[s.temporary] == before[s.from])
      || (s.from !in files && s.temporary !in files && s.to in files && files[s.to] == before[s.from])
    else SameAt(before, files, s.from) && SameAt(before, files, s.to) && s.temporary !in files
  }

  ghost predicate Planned(steps: seq<Step>, p: Name) { exists i :: 0 <= i < |steps| && p in Names(steps[i]) }

  /** No file lost, doubled or changed, whatever was interrupted. */
  ghost predicate Scattered(before: Files, steps: seq<Step>, files: Files) {
    && (forall i :: 0 <= i < |steps| ==> Once(before, files, steps[i]))
    && (forall p :: !Planned(steps, p) ==> SameAt(before, files, p))
  }

  lemma UntouchedIsScattered(files: Files, steps: seq<Step>)
    requires Apart(files, steps)
    ensures Scattered(files, steps, files)
  {
    forall i | 0 <= i < |steps| ensures Once(files, files, steps[i]) { assert Spread(files, steps[i]); }
  }

  /** Any rename among the names of one step that can run. */
  lemma MoveKeeps(before: Files, steps: seq<Step>, files: Files, i: nat, a: Name, b: Name)
    requires Apart(before, steps) && Scattered(before, steps, files)
    requires i < |steps| && CanStep(before, steps[i]) && a in Names(steps[i]) && b in Names(steps[i]) && a != b
    ensures Scattered(before, steps, Move(files, a, b))
  {
    var moved := Move(files, a, b);
    assert Once(before, files, steps[i]) && Spread(before, steps[i]);
    forall j | 0 <= j < |steps| ensures Once(before, moved, steps[j]) {
      assert Once(before, files, steps[j]) && Spread(before, steps[j]);
      if j != i { assert Names(steps[j]) !! Names(steps[i]); ElsewhereKeeps(before, files, steps[j], a, b); }
    }
  }

  lemma ElsewhereKeeps(before: Files, files: Files, s: Step, a: Name, b: Name)
    requires Once(before, files, s) && a !in Names(s) && b !in Names(s)
    ensures Once(before, Move(files, a, b), s)
  {
  }

  /** A step that finds its file and a free destination could run from the start. */
  lemma CouldStep(before: Files, steps: seq<Step>, files: Files, i: nat)
    requires Scattered(before, steps, files) && i < |steps| && CanStep(files, steps[i])
    ensures CanStep(before, steps[i])
  {
    assert Once(before, files, steps[i]);
  }

  lemma {:induction false} RenamedIsScattered(files: Files, steps: seq<Step>, k: nat)
    requires Apart(files, steps) && k <= |steps| && Ran(files, steps, k)
    ensures Scattered(files, steps, Renamed(files, steps, k))
    ensures forall i :: 0 <= i < k ==> CanStep(files, steps[i])
  {
    if k == 0 {
      UntouchedIsScattered(files, steps);
    } else {
      hide Scattered, Move, CanStep;
      RenamedIsScattered(files, steps, k - 1);
      assert Spread(files, steps[k - 1]);
      CouldStep(files, steps, Renamed(files, steps, k - 1), k - 1);
      MoveKeeps(files, steps, Renamed(files, steps, k - 1), k - 1, steps[k - 1].from, steps[k - 1].to);
    }
  }

  lemma HaltedIsScattered(files: Files, steps: seq<Step>, halt: Halt)
    requires Apart(files, steps) && halt.Within(steps)
    requires halt.Of(files, steps, Halted(files, steps, halt.done, halt.place))
    ensures Scattered(files, steps, Halted(files, steps, halt.done, halt.place))
    ensures forall i :: 0 <= i < halt.done ==> CanStep(files, steps[i])
  {
    hide Scattered, Move, CanStep;
    var k := halt.done;
    RenamedIsScattered(files, steps, k);
    if halt.place.AtDestination? { RenamedIsScattered(files, steps, k + 1); }
    if halt.place.AtTemporary? {
      assert Spread(files, steps[k]);
      CouldStep(files, steps, Renamed(files, steps, k), k);
      MoveKeeps(files, steps, Renamed(files, steps, k), k, steps[k].from, steps[k].temporary);
    }
  }

  /** The only temporary name in use is that of the step which stopped between its renames. */
  ghost predicate AwayOnly(files: Files, steps: seq<Step>, halt: Halt) {
    forall i :: 0 <= i < |steps| ==> (steps[i].temporary in files <==> halt.place.AtTemporary? && i == halt.done)
  }

  lemma HaltedIsAway(files: Files, steps: seq<Step>, halt: Halt)
    requires Proper(files, steps) && Apart(files, steps) && halt.Within(steps)
    requires halt.Of(files, steps, Halted(files, steps, halt.done, halt.place))
    ensures AwayOnly(Halted(files, steps, halt.done, halt.place), steps, halt)
  {
    var now := Renamed(files, steps, halt.done);
    forall i | 0 <= i < |steps|
      ensures steps[i].temporary in Halted(files, steps, halt.done, halt.place)
              <==> halt.place.AtTemporary? && i == halt.done
    {
      TemporariesFree(files, steps, halt.done, i);
      if halt.place.AtDestination? { TemporariesFree(files, steps, halt.done + 1, i); }
      if halt.place.AtTemporary? && i != halt.done {
        assert steps[i].temporary in Names(steps[i]) && Names(steps[i]) !! Names(steps[halt.done]);
        MoveElsewhere(now, steps[halt.done].from, steps[halt.done].temporary, steps[i].temporary);
      }
    }
  }

  /** Undoing a completed step neither uses nor frees a temporary name. */
  lemma UndoKeepsAway(before: Files, steps: seq<Step>, files: Files, k: nat, files': Files, halt: Halt)
    requires Apart(before, steps) && k < halt.done <= |steps| && AwayOnly(files, steps, halt)
    requires files' == files || files' == Move(files, steps[k].to, steps[k].from)
             || files' == Move(files, steps[k].temporary, steps[k].from)
    ensures AwayOnly(files', steps, halt)
  {
    assert Spread(before, steps[k]) && steps[k].temporary !in files;
    forall i | 0 <= i < |steps| ensures steps[i].temporary in files' <==> steps[i].temporary in files {
      if i != k { assert steps[i].temporary in Names(steps[i]) && Names(steps[i]) !! Names(steps[k]); }
      MoveElsewhere(files, steps[k].to, steps[k].from, steps[i].temporary);
    }
  }

  // ---- Carrying a plan out.

  /** Truncates, then writes: a failure in between leaves a torn journal. */
  method WriteJournal(m: Device, op: JournalId, journal: Journal) returns (r: Outcome)
    modifies m`faults, m`journals
    ensures Charged(r, old(m.faults), m.faults, m.crashes)
    ensures m.journals == old(m.journals) || m.journals == old(m.journals)[op := Torn]
              || m.journals == old(m.journals)[op := journal]
    ensures r.Ok? ==> m.journals == old(m.journals)[op := journal]
    ensures m.journals - {op} == old(m.journals) - {op}
    ensures r.Thrown? ==> r.code == IoError
  {
    r := m.Put(op, Torn);
    if !r.Ok? { return; }
    r := m.Put(op, journal);
    assert old(m.journals)[op := Torn][op := journal] == old(m.journals)[op := journal];
  }

  /** Why a step may fail, and how far it has got then. */
  ghost predicate MayFail(files: Files, s: Step, code: Code, place: Place) {
    match code
    case IoError => true
    case NotFound => s.from !in files && place.AtSource?
    case StaleFingerprint =>
      s.expected.Some? && s.from in files && files[s.from] != s.expected.value && place.AtSource?
    case DestinationExists => s.to in files && place.AtSource?
    case FileIdentityMismatch => place.AtDestination?
    case _ => false
  }

  /** What precedes the renames: the source as expected and a free destination. */
  method CheckStep(m: Device, s: Step) returns (r: Outcome)
    modifies m`faults
    ensures Charged(r, old(m.faults), m.faults, m.crashes)
    ensures r.Ok? ==> CanStep(m.files, s) && (s.expected.Some? ==> m.files[s.from] == s.expected.value)
    ensures r.Thrown? ==> MayFail(m.files, s, r.code, AtSource) && r.code != FileIdentityMismatch
  {
    r := m.Open(s.from);
    if !r.Ok? { return; }
    if s.expected.Some? {
      var contents;
      r, contents := m.Read(s.from);
      if !r.Ok? { return; }
      if contents != s.expected.value { return Thrown(StaleFingerprint); }
    }
    if s.to in m.files { r := Thrown(DestinationExists); }
  }

  /** Away and to the destination. */
  method TwoRenames(m: Device, s: Step) returns (r: Outcome, place: Place)
    requires CanStep(m.files, s) && s.temporary !in m.files && s.temporary != s.from && s.temporary != s.to
    modifies m`faults, m`files, m`ids, m`free
    ensures Charged(r, old(m.faults), m.faults, m.crashes) && (r.Thrown? ==> r.code == IoError)
    ensures m.files == Aborted(old(m.files), s, place) && (r.Ok? <==> place.AtDestination?)
    ensures r.Ok? ==> m.ids.Of(s.to) == old(m.ids).Of(s.from) && s.to in m.files
  {
    place := AtSource;
    ghost var files := m.files;
    r := m.Rename(s.from, s.temporary);
    if !r.Ok? { return; }
    place := AtTemporary;
    r := m.Rename(s.temporary, s.to);
    if !r.Ok? { return; }
    place := AtDestination;
    assert m.files == Move(files, s.from, s.to);
  }

  /** One step.  `place` says where its file is when the step ends. */
  method RunStep(m: Device, s: Step) returns (r: Outcome, place: Place)
    requires s.temporary !in m.files && s.temporary != s.from && s.temporary != s.to
    modifies m`faults, m`files, m`ids, m`free, m`answers
    ensures Charged(r, old(m.faults), m.faults, m.crashes)
    ensures m.files == Aborted(old(m.files), s, place)
    ensures !place.AtSource? ==>
              CanStep(old(m.files), s) && (s.expected.Some? ==> old(m.files)[s.from] == s.expected.value)
    ensures r.Ok? ==> place.AtDestination?
    ensures r.Thrown? ==> MayFail(old(m.files), s, r.code, place)
    // done means found to be the same file; a refusal is on record
    ensures m.answers == if r.Ok? || r == Thrown(FileIdentityMismatch)
                         then old(m.answers) + [Answer(SameIdentity(s.to), m.ids.Of(s.to), r.Ok?)]
                         else old(m.answers)
    ensures r.Ok? ==> m.ids.Of(s.to) == old(m.ids).Of(s.from)
  {
    place := AtSource;
    r := CheckStep(m, s);
    if !r.Ok? { return; }
    r, place := TwoRenames(m, s);
    if !r.Ok? { return; }
    hide Move;
    r := m.Open(s.to);
    if !r.Ok? { return; }
    var same := m.Ask(SameIdentity(s.to));
    if !same { r := Thrown(FileIdentityMismatch); }
  }

  function Items(steps: seq<Step>): seq<nat> { seq(|steps|, i requires 0 <= i < |steps| => steps[i].item) }

  /** How far the steps got: `done` complete, the file of the next one at `place`. */
  datatype Halt = Halt(done: nat, place: Place) {
    predicate Within(steps: seq<Step>) { if place.AtSource? then done <= |steps| else done < |steps| }

    ghost predicate Of(before: Files, steps: seq<Step>, files: Files) {
      && Within(steps)
      && Ran(before, steps, done) && (place.AtDestination? ==> Ran(before, steps, done + 1))
      && (place.AtTemporary? ==> CanStep(Renamed(before, steps, done), steps[done]))
      && files == Halted(before, steps, done, place)
    }
  }

  /** The journal of `op` is torn or names these steps; other journals are unchanged. */
  ghost predicate Logged(before: map<JournalId, Journal>, after: map<JournalId, Journal>, op: JournalId,
                         steps: seq<Step>) {
    && before - {op} == after - {op}
    && (op in after ==> after[op].Torn? || after[op].steps == steps)
  }

  /** What a journal that is not torn says once `done` steps are complete: it may be one
      step behind, but not when it asks for recovery. */
  ghost predicate Recorded(journals: map<JournalId, Journal>, op: JournalId, steps: seq<Step>, done: nat)
    requires done <= |steps|
  {
    op in journals && journals[op].Whole? ==>
      && journals[op].steps == steps
      && match journals[op].state
         case Running => journals[op].completed == Items(steps[..done])
                         || (done > 0 && journals[op].completed == Items(steps[..done - 1]))
         case Finished => done == |steps| && journals[op].completed == Items(steps)
         case RecoveryPending => journals[op].completed == Items(steps[..done])
  }

  type Answers = seq<Answer<Name>>

  /** Why the run stopped at `halt`: a failing step of the device, or what the next step found. */
  ghost predicate Refuses(before: Answers, after: Answers, files: Files, steps: seq<Step>, halt: Halt, code: Code)
    requires halt.Within(steps)
  {
    if code == IoError then Heard(before, after, None)
    else
      && halt.done < |steps| && MayFail(Renamed(files, steps, halt.done), steps[halt.done], code, halt.place)
      && Heard(before, after, if code == FileIdentityMismatch then Some(SameIdentity(steps[halt.done].to)) else None)
  }

  /** Every step finds its file as expected and its destination free. */
  ghost predicate Fits(files: Files, steps: seq<Step>) {
    && Ran(files, steps, |steps|)
    && forall k :: 0 <= k < |steps| ==> FitsStep(Renamed(files, steps, k), steps[k])
  }

  ghost predicate FitsStep(files: Files, s: Step) {
    CanStep(files, s) && (s.expected.Some? ==> files[s.from] == s.expected.value)
  }

  /** Such a plan is stopped by an answer or a failing step of the device only. */
  lemma FittingIsNotRefused(before: Answers, after: Answers, files: Files, steps: seq<Step>, halt: Halt, code: Code)
    requires Fits(files, steps) && halt.Within(steps) && Heard(before, after, None) && code != IoError
    ensures !Refuses(before, after, files, steps, halt, code)
  {
    hide Renamed, Ran;
    if halt.done < |steps| { assert FitsStep(Renamed(files, steps, halt.done), steps[halt.done]); }
  }

  lemma HeardOneMore(a: Answers, b: Answers, c: Answers, s: Step, file: nat, yes: bool)
    requires Heard(a, b, None) && c == b + [Answer(SameIdentity(s.to), file, yes)]
    ensures Heard(a, c, if yes then None else Some(SameIdentity(s.to))) && Extends(a, c)
  {
  }

  /** Each of the first `k` steps found its file as expected and its destination free, and after it
      the file was asked about and found to be the same. */
  ghost predicate Accepted(before: Files, steps: seq<Step>, asked: Answers, answers: Answers, k: nat) {
    && k <= |steps| && (forall i :: 0 <= i < k ==> FitsStep(Renamed(before, steps, i), steps[i]))
    && FoundSame(steps, asked, answers, k)
  }

  ghost predicate FoundSame(steps: seq<Step>, asked: Answers, answers: Answers, k: nat) {
    && |answers| == |asked| + k && k <= |steps|
    && forall i :: 0 <= i < k ==>
         answers[|asked| + i].question == SameIdentity(steps[i].to) && answers[|asked| + i].yes
  }

  lemma OneMoreSame(steps: seq<Step>, asked: Answers, heard: Answers, k: nat, file: nat)
    requires k < |steps| && FoundSame(steps, asked, heard, k)
    ensures FoundSame(steps, asked, heard + [Answer(SameIdentity(steps[k].to), file, true)], k + 1)
  {
  }

  lemma OneMoreAccepted(before: Files, steps: seq<Step>, asked: Answers, heard: Answers, k: nat, file: nat)
    requires k < |steps| && Accepted(before, steps, asked, heard, k) && FitsStep(Renamed(before, steps, k), steps[k])
    ensures Accepted(before, steps, asked, heard + [Answer(SameIdentity(steps[k].to), file, true)], k + 1)
  {
    hide Renamed, FitsStep, FoundSame;
    OneMoreSame(steps, asked, heard, k, file);
  }

  /** The first `k` steps are complete, and journalled. */
  ghost predicate Underway(before: Files, files: Files, journals: map<JournalId, Journal>,
                           now: map<JournalId, Journal>, op: JournalId, steps: seq<Step>, asked: Answers,
                           answers: Answers, k: nat) {
    && k <= |steps| && files == Renamed(before, steps, k) && Ran(before, steps, k)
    && Logged(journals, now, op, steps) && (op in journals ==> op in now)
    && (op in now ==> now[op] == Whole(Running, steps, Items(steps[..k])))
    && Heard(asked, answers, None) && Extends(asked, answers) && Accepted(before, steps, asked, answers, k)
  }

  /** How a step that did not complete leaves things. */
  ghost predicate Stopped(before: Files, files: Files, journals: map<JournalId, Journal>,
                          now: map<JournalId, Journal>, op: JournalId, steps: seq<Step>, asked: Answers,
                          answers: Answers, halt: Halt, r: Outcome) {
    && halt.Of(before, steps, files) && Logged(journals, now, op, steps) && Recorded(now, op, steps, halt.done)
    && (op in journals ==> op in now)
    && (halt.place.AtTemporary? ==> (r.Thrown? ==> r.code == IoError) && (op in now ==> now[op].Whole?))
    && (r.Thrown? ==> Refuses(asked, answers, before, steps, halt, r.code)) && Extends(asked, answers)
  }

  /** One more step, journalled once complete. */
  method RunNext(m: Device, op: JournalId, steps: seq<Step>, k: nat, ghost before: Files,
                 ghost journals: map<JournalId, Journal>, ghost asked: Answers)
    returns (r: Outcome, halt: Halt)
    requires Proper(before, steps) && k < |steps|
    requires Underway(before, m.files, journals, m.journals, op, steps, asked, m.answers, k)
    modifies m`faults, m`files, m`ids, m`free, m`journals, m`answers
    ensures Charged(r, old(m.faults), m.faults, m.crashes)
    ensures r.Ok? ==> Underway(before, m.files, journals, m.journals, op, steps, asked, m.answers, k + 1)
    ensures r.Ok? ==> op in m.journals
    ensures !r.Ok? ==> Stopped(before, m.files, journals, m.journals, op, steps, asked, m.answers, halt, r)
  {
    hide Move, Proper, Heard, Extends, Accepted;
    ghost var heard := m.answers;
    ProperStep(before, steps, k);
    var place;
    r, place := RunStep(m, steps[k]);
    halt := Halt(k, place);
    if m.answers != heard { HeardOneMore(asked, heard, m.answers, steps[k], m.ids.Of(steps[k].to), r.Ok?); }
    if !r.Ok? { return; }
    OneMoreAccepted(before, steps, asked, heard, k, m.ids.Of(steps[k].to));
    halt := Halt(k + 1, AtSource);
    r := WriteJournal(m, op, Whole(Running, steps, Items(steps[..k + 1])));
  }

  /** The steps in order, each one journalled once complete. */
  method RunSteps(m: Device, op: JournalId, steps: seq<Step>) returns (r: Outcome, halt: Halt)
    requires Proper(m.files, steps) && Logged(m.journals, m.journals, op, steps)
    requires op in m.journals ==> m.journals[op] == Whole(Running, steps, [])
    modifies m`faults, m`files, m`ids, m`free, m`journals, m`answers
    ensures Charged(r, old(m.faults), m.faults, m.crashes)
    ensures halt.Of(old(m.files), steps, m.files) && Logged(old(m.journals), m.journals, op, steps)
    ensures Recorded(m.journals, op, steps, halt.done)
    ensures op in old(m.journals) && !r.Ok? ==> op in m.journals
    ensures halt.place.AtTemporary? ==>
              && (r.Thrown? ==> r.code == IoError)
              && (op in m.journals ==> m.journals[op].Whole?)
    ensures if r.Thrown? then Refuses(old(m.answers), m.answers, old(m.files), steps, halt, r.code)
            else r.Ok? ==>
                   && Heard(old(m.answers), m.answers, None)
                   && Accepted(old(m.files), steps, old(m.answers), m.answers, |steps|)
    ensures Extends(old(m.answers), m.answers)
    ensures r.Ok? ==> halt == Halt(|steps|, AtSource) && (op in old(m.journals) ==> op in m.journals)
  {
    assert Items(steps[..0]) == [];
    ghost var before, journals, asked := m.files, m.journals, m.answers;
    r, halt := Ok, Halt(0, AtSource);
    var k := 0;
    while k < |steps|
      invariant k <= |steps| && r.Ok? && m.faults == old(m.faults)
      invariant Underway(before, m.files, journals, m.journals, op, steps, asked, m.answers, k)
    {
      hide Underway, Proper;
      r, halt := RunNext(m, op, steps, k, before, journals, asked);
      if !r.Ok? { return; }
      k := k + 1;
    }
    halt := Halt(k, AtSource);
  }

  lemma ProperStep(files: Files, steps: seq<Step>, k: nat)
    requires Proper(files, steps) && k < |steps|
    ensures steps[k].temporary !in Renamed(files, steps, k)
    ensures steps[k].temporary != steps[k].from && steps[k].temporary != steps[k].to
  {
    TemporariesFree(files, steps, k, k);
  }

  // ---- Undoing it.

  /** One file back to its old name; a second failure is swallowed. */
  method UndoStep(m: Device, s: Step) returns (r: Outcome)
    modifies m`faults, m`files, m`ids, m`free
    ensures m.faults <= old(m.faults)
    ensures r.Ok? || (r.Crashed? && m.crashes)
    ensures m.files == old(m.files) || m.files == Move(old(m.files), s.to, s.from)
              || m.files == Move(old(m.files), s.temporary, s.from)
    ensures r.Ok? && m.faults == old(m.faults) ==> m.files == UndoOne(old(m.files), s)
  {
    r := m.Rename(s.to, s.from);
    if r.Thrown? {
      r := m.Rename(s.temporary, s.from);
      if r.Thrown? { r := Ok; }
    }
  }

  lemma UndoKeeps(before: Files, steps: seq<Step>, files: Files, i: nat, files': Files)
    requires Apart(before, steps) && Scattered(before, steps, files) && i < |steps| && CanStep(before, steps[i])
    requires files' == files || files' == Move(files, steps[i].to, steps[i].from)
             || files' == Move(files, steps[i].temporary, steps[i].from)
    ensures Scattered(before, steps, files')
  {
    hide Scattered, Move;
    assert Spread(before, steps[i]);
    if files' == Move(files, steps[i].to, steps[i].from) {
      MoveKeeps(before, steps, files, i, steps[i].to, steps[i].from);
    } else if files' != files {
      MoveKeeps(before, steps, files, i, steps[i].temporary, steps[i].from);
    }
  }

  /** The completed steps undone, last first. */
  method RollBack(m: Device, steps: seq<Step>, done: nat, ghost before: Files, ghost place: Place)
    returns (r: Outcome)
    requires done <= |steps|
    requires Apart(before, steps) ==>
               Scattered(before, steps, m.files) && forall i :: 0 <= i < done ==> CanStep(before, steps[i])
    modifies m`faults, m`files, m`ids, m`free
    ensures r.Ok? || (r.Crashed? && m.crashes)
    ensures m.faults <= old(m.faults)
    ensures r.Ok? && m.faults == old(m.faults) ==> m.files == Undone(old(m.files), steps, done)
    ensures Apart(before, steps) ==> Scattered(before, steps, m.files)
    ensures Apart(before, steps) && AwayOnly(old(m.files), steps, Halt(done, place)) ==>
              AwayOnly(m.files, steps, Halt(done, place))
  {
    hide Apart, Scattered, Move, UndoOne, AwayOnly;
    r := Ok;
    var k := done;
    while k > 0
      invariant 0 <= k <= done && r.Ok? && m.faults <= old(m.faults)
      invariant m.faults == old(m.faults) ==> Undone(m.files, steps, k) == Undone(old(m.files), steps, done)
      invariant Apart(before, steps) ==> Scattered(before, steps, m.files)
      invariant Apart(before, steps) && AwayOnly(old(m.files), steps, Halt(done, place)) ==>
                  AwayOnly(m.files, steps, Halt(done, place))
    {
      ghost var files := m.files;
      r := UndoStep(m, steps[k - 1]);
      if Apart(before, steps) {
        UndoKeeps(before, steps, files, k - 1, m.files);
        if AwayOnly(files, steps, Halt(done, place)) {
          UndoKeepsAway(before, steps, files, k - 1, m.files, Halt(done, place));
        }
      }
      if !r.Ok? { return; }
      k := k - 1;
    }
  }

  /** What is left after rollback from `halt`. */
  function RolledBack(before: Files, steps: seq<Step>, halt: Halt): Files
    requires halt.Within(steps)
  {
    Undone(Halted(before, steps, halt.done, halt.place), steps, halt.done)
  }

  /** The steps, then the end of the journal: all of it inside the `try`. */
  method TryAll(m: Device, op: JournalId, steps: seq<Step>) returns (r: Outcome, halt: Halt)
    requires Proper(m.files, steps) && Logged(m.journals, m.journals, op, steps)
    requires op in m.journals ==> m.journals[op] == Whole(Running, steps, [])
    modifies m`faults, m`files, m`ids, m`free, m`journals, m`answers
    ensures Charged(r, old(m.faults), m.faults, m.crashes)
    ensures halt.Of(old(m.files), steps, m.files) && Logged(old(m.journals), m.journals, op, steps)
    ensures Recorded(m.journals, op, steps, halt.done)
    ensures op in old(m.journals) && !r.Ok? ==> op in m.journals
    ensures halt.place.AtTemporary? ==>
              && (r.Thrown? ==> r.code == IoError)
              && (op in m.journals ==> m.journals[op].Whole?)
    ensures if r.Thrown? then Refuses(old(m.answers), m.answers, old(m.files), steps, halt, r.code)
            else r.Ok? ==>
                   && Heard(old(m.answers), m.answers, None)
                   && Accepted(old(m.files), steps, old(m.answers), m.answers, |steps|)
    ensures Extends(old(m.answers), m.answers)
    ensures r.Ok? ==> halt == Halt(|steps|, AtSource) && op !in m.journals
  {
    hide Accepted, Heard;
    r, halt := RunSteps(m, op, steps);
    if !r.Ok? { return; }
    hide Halt.Of, Proper;
    assert steps[..|steps|] == steps;
    r := WriteJournal(m, op, Whole(Finished, steps, Items(steps)));
    if !r.Ok? { return; }
    r := m.Drop(op);
  }

  /** The `catch`: the completed steps undone, and the request for recovery written. */
  method Handle(m: Device, op: JournalId, steps: seq<Step>, halt: Halt, ghost before: Files,
                ghost journals: map<JournalId, Journal>)
    returns (r: Outcome)
    requires halt.Within(steps) && Logged(journals, m.journals, op, steps) && Recorded(m.journals, op, steps, halt.done)
    requires Apart(before, steps) ==>
               && Scattered(before, steps, m.files) && AwayOnly(m.files, steps, halt)
               && forall i :: 0 <= i < halt.done ==> CanStep(before, steps[i])
    modifies m`faults, m`files, m`ids, m`free, m`journals
    ensures m.faults <= old(m.faults) && (r.Crashed? ==> m.crashes) && (r.Thrown? ==> m.faults < old(m.faults))
    ensures r.Ok? && m.faults == old(m.faults) ==> m.files == Undone(old(m.files), steps, halt.done)
    ensures Apart(before, steps) ==> Scattered(before, steps, m.files) && AwayOnly(m.files, steps, halt)
    ensures Logged(journals, m.journals, op, steps) && Recorded(m.journals, op, steps, halt.done)
    ensures op in old(m.journals) || r.Ok? ==> op in m.journals
    ensures r.Thrown? ==> m.faults + 1 == old(m.faults) ==> m.files == Undone(old(m.files), steps, halt.done)
  {
    hide Apart, Scattered, Undone, AwayOnly;
    r := RollBack(m, steps, halt.done, before, halt.place);
    if r.Crashed? { return; }
    ghost var now := m.journals;
    r := WriteJournal(m, op, Whole(RecoveryPending, steps, Items(steps[..halt.done])));
    StillLogged(journals, now, m.journals, op, steps);
  }

  /** `execute`.  On success every file has its new name.  Any one failure is undone up to
      `RolledBack`, whatever names are reused; and whatever fails or crashes, a plan that
      reuses no name keeps every file exactly once, under one of its three names. */
  method Execute(m: Device, op: JournalId, steps: seq<Step>) returns (r: Outcome, halt: Halt)
    requires Proper(m.files, steps) && op !in m.journals
    modifies m`faults, m`files, m`ids, m`free, m`journals, m`answers
    ensures r.Ok? ==>
              m.files == Renamed(old(m.files), steps, |steps|) && Ran(old(m.files), steps, |steps|) && op !in m.journals
    ensures exists files :: halt.Of(old(m.files), steps, files)
    // every file was asked about and is the same; a failure has its reason, and a plan that fits has none
    ensures r.Ok? ==>
              && Heard(old(m.answers), m.answers, None)
              && Accepted(old(m.files), steps, old(m.answers), m.answers, |steps|)
    ensures r.Thrown? && m.faults == old(m.faults) ==>
              Refuses(old(m.answers), m.answers, old(m.files), steps, halt, r.code)
    ensures old(m.Quiet()) && Fits(old(m.files), steps) && Heard(old(m.answers), m.answers, None) ==> r.Ok?
    ensures OneFailure(r, old(m.faults)) ==> m.files == RolledBack(old(m.files), steps, halt)
    ensures Apart(old(m.files), steps) ==> Scattered(old(m.files), steps, m.files)
    // such a plan leaves a file at a temporary name only if it stopped between the two renames; and
    // then, unless something else than a crash went wrong, the journal is whole
    ensures Apart(old(m.files), steps) ==> AwayOnly(m.files, steps, halt)
    ensures old(m.faults) == 0 && op in m.journals && m.journals[op].Torn? ==> !halt.place.AtTemporary?
    ensures Logged(old(m.journals), m.journals, op, steps) && Recorded(m.journals, op, steps, halt.done)
    ensures op in m.journals || r.Ok? || m.files == old(m.files)
  {
    ghost var before := m.files;
    halt := Halt(0, AtSource);
    assert halt.Of(before, steps, before);
    hide Heard, Extends, Refuses, Fits, Move, Scattered, AwayOnly, Proper, Apart, Accepted;
    r := WriteJournal(m, op, Whole(Running, steps, []));
    ScatteredIfApart(before, steps, halt);
    if !r.Ok? {
      return;
    }
    r, halt := TryAll(m, op, steps);
    ScatteredIfApart(before, steps, halt);
    if !r.Thrown? { return; }
    if Fits(before, steps) && Heard(old(m.answers), m.answers, None) && r.code != IoError {
      FittingIsNotRefused(old(m.answers), m.answers, before, steps, halt, r.code);
    }
    hide Halted, Undone, Ran, Renamed, Logged, Recorded;
    var undone := Handle(m, op, steps, halt, before, old(m.journals));
    if !undone.Ok? { r := undone; }
  }

  lemma ScatteredIfApart(before: Files, steps: seq<Step>, halt: Halt)
    requires Proper(before, steps) && exists files :: halt.Of(before, steps, files)
    ensures Apart(before, steps) ==>
              var files := Halted(before, steps, halt.done, halt.place);
              && Scattered(before, steps, files) && AwayOnly(files, steps, halt)
              && forall i :: 0 <= i < halt.done ==> CanStep(before, steps[i])
  {
    if Apart(before, steps) {
      HaltedIsScattered(before, steps, halt);
      HaltedIsAway(before, steps, halt);
    }
  }

  lemma StillLogged(
    before: map<JournalId, Journal>, now: map<JournalId, Journal>, after: map<JournalId, Journal>, op: JournalId,
    steps: seq<Step>)
    requires Logged(before, now, op, steps) && after - {op} == now - {op}
    requires after == now || (op in after && (after[op].Torn? || after[op].steps == steps))
    ensures Logged(before, after, op, steps)
  {
  }

  // ---- What one failure leaves behind.

  ghost predicate SourcesExist(files: Files, steps: seq<Step>) {
    forall i :: 0 <= i < |steps| ==> steps[i].from in files
  }

  /** The step fails after its second rename, and its destination is the old name of another file. */
  ghost predicate Overwrites(steps: seq<Step>, halt: Halt) {
    halt.done < |steps| && Loses(steps, halt.done, halt.place)
  }

  /** Every completed file is back under its old name and the failing one is where it was
      left; no content is lost or doubled - except exactly in the case `Overwrites`. */
  lemma OneFailureIsExact(before: Files, steps: seq<Step>, halt: Halt)
    requires Proper(before, steps) && halt.Within(steps)
    requires halt.Of(before, steps, Halted(before, steps, halt.done, halt.place))
    ensures var left := RolledBack(before, steps, halt);
            && (Conserved(before, left) <==> !Overwrites(steps, halt))
            && (!Overwrites(steps, halt) ==>
                  left == if halt.done < |steps| then Aborted(before, FromOrigin(steps, halt.done), halt.place)
                          else before)
  {
    hide Undone, Halted, Ran, Conserved, Proper, Loses;
    if halt.done == |steps| {
      RollbackOfAll(before, steps);
    } else {
      StoppedInStep(before, steps, halt);
      RollbackAfterFault(before, steps, halt.done, halt.place);
      NothingLostIff(before, steps, halt.done, halt.place);
    }
  }

  lemma StoppedInStep(before: Files, steps: seq<Step>, halt: Halt)
    requires halt.Within(steps) && halt.Of(before, steps, Halted(before, steps, halt.done, halt.place))
    ensures !halt.place.AtSource? ==> CanStep(Renamed(before, steps, halt.done), steps[halt.done])
  {
  }

  lemma RollbackOfAll(before: Files, steps: seq<Step>)
    requires Ran(before, steps, |steps|)
    ensures RolledBack(before, steps, Halt(|steps|, AtSource)) == before && Conserved(before, before)
  {
    RollbackIsInverse(before, steps, |steps|);
  }

  /** Two steps, the second one reusing the name the first has left. */
  function Chain(): seq<Step> {
    [Step(0, At("b"), Temporary(0), At("c"), None), Step(1, At("a"), Temporary(1), At("b"), None)]
  }

  /** A proper plan on which a failed identity check costs a file. */
  lemma ReuseLosesAFile()
    ensures var before: Files, halt := map[At("a") := [1], At("b") := [2]], Halt(1, AtDestination);
            && Proper(before, Chain()) && SourcesExist(before, Chain())
            && halt.Of(before, Chain(), Halted(before, Chain(), 1, AtDestination))
            && !Conserved(before, RolledBack(before, Chain(), halt))
  {
    var before: Files, steps := map[At("a") := [1], At("b") := [2]], Chain();
    assert Renamed(before, steps, 1) == map[At("a") := [1], At("c") := [2]];
    assert Ran(before, steps, 1) && Ran(before, steps, 2);
    assert steps[0].from == steps[1].to;
    NothingLostIff(before, steps, 1, AtDestination);
  }

  /** Up to a crash nothing is overwritten either, whatever names are reused. */
  lemma {:induction false} RenamedConserves(before: Files, steps: seq<Step>, k: nat)
    requires k <= |steps| && Ran(before, steps, k)
    ensures Conserved(before, Renamed(before, steps, k))
  {
    if k > 0 {
      hide Conserved, Move;
      RenamedConserves(before, steps, k - 1);
      assert CanStep(Renamed(before, steps, k - 1), steps[k - 1]);
      MoveConserves(Renamed(before, steps, k - 1), steps[k - 1].from, steps[k - 1].to);
      ConservedBoth(before, Renamed(before, steps, k - 1), Renamed(before, steps, k));
    } else {
      assert Conserved(before, before);
    }
  }

  lemma HaltedConserves(before: Files, steps: seq<Step>, halt: Halt)
    requires Proper(before, steps) && halt.Within(steps)
    requires halt.Of(before, steps, Halted(before, steps, halt.done, halt.place))
    ensures Conserved(before, Halted(before, steps, halt.done, halt.place))
  {
    hide Conserved, Move, Ran;
    RenamedConserves(before, steps, halt.done);
    match halt.place
    case AtSource =>
    case AtDestination => RenamedConserves(before, steps, halt.done + 1);
    case AtTemporary =>
      var now, s := Renamed(before, steps, halt.done), steps[halt.done];
      TemporariesFree(before, steps, halt.done, halt.done);
      MoveConserves(now, s.from, s.temporary);
      ConservedBoth(before, now, Move(now, s.from, s.temporary));
  }
}
