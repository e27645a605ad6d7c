/** Recovery of interrupted renames, from the journal and from which names exist. */
module NamingRecovery {
  import opened Storage
  import opened Renames
  import opened NamingTransaction

  type Entries = map<JournalId, Journal>

  /** The step is to be undone: the transaction failed after completing it. */
  predicate ToUndo(journal: Journal, s: Step)
    requires journal.Whole?
  {
    journal.state.RecoveryPending? && s.item in journal.completed
  }

  predicate Only(files: Files, name: Name, other: Name, another: Name) {
    name in files && other !in files && another !in files
  }

  /** The decision for one step: what moves, and whether the evidence is ambiguous. */
  function RecoverStep(files: Files, undo: bool, s: Step): (Files, bool) {
    if Only(files, s.temporary, s.from, s.to) then (Move(files, s.temporary, s.from), false)
    else if undo && Only(files, s.to, s.from, s.temporary) then (Move(files, s.to, s.from), false)
    else (files, !(Only(files, s.from, s.to, s.temporary) || (!undo && Only(files, s.to, s.from, s.temporary))))
  }

  /** Steps from the last down to `k` decided. */
  function Recovered(files: Files, journal: Journal, k: nat): Files
    requires journal.Whole? && k <= |journal.steps|
    decreases |journal.steps| - k
  {
    if k == |journal.steps| then files
    else RecoverStep(Recovered(files, journal, k + 1), ToUndo(journal, journal.steps[k]), journal.steps[k]).0
  }

  /** None of them ambiguous. */
  ghost predicate Clear(files: Files, journal: Journal, k: nat)
    requires journal.Whole? && k <= |journal.steps|
    decreases |journal.steps| - k
  {
    k < |journal.steps| ==>
      && Clear(files, journal, k + 1)
      && !RecoverStep(Recovered(files, journal, k + 1), ToUndo(journal, journal.steps[k]), journal.steps[k]).1
  }

  /** One step of the recovery loop. */
  method ReconcileStep(m: Device, undo: bool, s: Step) returns (r: Outcome, ambiguous: bool)
    modifies m`faults, m`files, m`ids, m`free
    ensures m.faults <= old(m.faults) && (r.Crashed? ==> m.crashes)
    ensures r.Ok? ==> (m.files, ambiguous) == RecoverStep(old(m.files), undo, s)
    ensures !r.Ok? ==> m.files == old(m.files)
    ensures old(m.Quiet()) ==> r.Ok?
  {
    var hasFrom, hasTo, hasTemporary := s.from in m.files, s.to in m.files, s.temporary in m.files;
    r, ambiguous := Ok, false;
    if undo {
      if hasTo && !hasFrom && !hasTemporary {
        r := m.Rename(s.to, s.from);
      } else if hasTemporary && !hasFrom && !hasTo {
        r := m.Rename(s.temporary, s.from);
      } else if !(hasFrom && !hasTo && !hasTemporary) {
        ambiguous := true;
      }
    } else if hasTemporary && !hasFrom && !hasTo {
      r := m.Rename(s.temporary, s.from);
    } else if !((hasFrom && !hasTo && !hasTemporary) || (hasTo && !hasFrom && !hasTemporary)) {
      ambiguous := true;
    }
  }

  /** One journal.  `left` steps were not reached; errors leave the journal for later. */
  method ReconcileJournal(m: Device, op: JournalId) returns (r: Outcome, recovered: bool, left: nat)
    requires op in m.journals
    modifies m`faults, m`files, m`ids, m`free, m`journals
    ensures (r.Ok? || (r.Crashed? && m.crashes)) && m.faults <= old(m.faults)
    ensures m.journals == if recovered then old(m.journals) - {op} else old(m.journals)
    ensures old(m.journals)[op].Torn? ==> !recovered && m.files == old(m.files)
    ensures old(m.journals)[op].Whole? ==>
              && left <= |old(m.journals)[op].steps| && m.files == Recovered(old(m.files), old(m.journals)[op], left)
              && (recovered ==> left == 0 && Clear(old(m.files), old(m.journals)[op], 0))
              && (old(m.Quiet()) ==> left == 0 && (recovered <==> Clear(old(m.files), old(m.journals)[op], 0)))
  {
    hide RecoverStep;
    recovered := false;
    var journal := m.journals[op];
    left := if journal.Whole? then |journal.steps| else 0;
    r := m.Next();
    if !r.Ok? || journal.Torn? { return Swallow(r), false, left; }
    ghost var before := m.files;
    var clear := true;
    while left > 0
      invariant left <= |journal.steps| && r.Ok? && m.faults <= old(m.faults)
      invariant m.files == Recovered(before, journal, left)
      invariant clear <==> Clear(before, journal, left)
      invariant m.journals == old(m.journals)
    {
      var ambiguous;
      r, ambiguous := ReconcileStep(m, ToUndo(journal, journal.steps[left - 1]), journal.steps[left - 1]);
      if !r.Ok? { return Swallow(r), false, left; }
      left := left - 1;
      if ambiguous { clear := false; }
      if !clear { StaysUnclear(before, journal, left); }
    }
    if clear {
      r := m.Drop(op);
      recovered := r.Ok?;
      r := Swallow(r);
    }
  }

  /** The `catch` around one journal. */
  function Swallow(r: Outcome): (caught: Outcome)
    ensures caught.Crashed? <==> r.Crashed?
    ensures !caught.Thrown?
  {
    if r.Thrown? then Ok else r
  }

  lemma {:induction false} StaysUnclear(files: Files, journal: Journal, k: nat)
    requires journal.Whole? && k <= |journal.steps| && !Clear(files, journal, k)
    ensures !Clear(files, journal, 0)
    decreases k
  {
    if k > 0 { StaysUnclear(files, journal, k - 1); }
  }

  // ---- From any state at all, with any journal: nothing is overwritten.

  lemma {:induction false} RecoveryConserves(files: Files, journal: Journal, k: nat)
    requires journal.Whole? && k <= |journal.steps|
    ensures Conserved(files, Recovered(files, journal, k))
    decreases |journal.steps| - k
  {
    hide Conserved, Move;
    if k < |journal.steps| {
      RecoveryConserves(files, journal, k + 1);
      var now, s := Recovered(files, journal, k + 1), journal.steps[k];
      StepConserves(now, ToUndo(journal, s), s);
      ConservedBoth(files, now, Recovered(files, journal, k));
    } else {
      assert Conserved(files, files) by { Reflexive(files); }
    }
  }

  lemma Reflexive(files: Files)
    ensures Conserved(files, files)
  {
  }

  lemma StepConserves(files: Files, undo: bool, s: Step)
    ensures Conserved(files, RecoverStep(files, undo, s).0)
  {
    hide Conserved, Move;
    Reflexive(files);
    if s.from !in files {
      MoveConserves(files, s.to, s.from);
      MoveConserves(files, s.temporary, s.from);
    }
  }

  // ---- Plans that reuse no name.

  /** The step needs nothing more: its file is at its old name or, unless it is to be undone, at its new one. */
  ghost predicate Decided(files: Files, undo: bool, s: Step) {
    Only(files, s.from, s.to, s.temporary) || (!undo && Only(files, s.to, s.from, s.temporary))
  }

  ghost predicate SameNames(files: Files, files': Files, s: Step) {
    forall p :: p in Names(s) ==> (p in files' <==> p in files)
  }

  /** `steps` are some of those in `plan`, each once. */
  ghost predicate PartOf(steps: seq<Step>, plan: seq<Step>) {
    && (forall i :: 0 <= i < |steps| ==> steps[i] in plan)
    && (forall i, j :: 0 <= i < j < |steps| ==> steps[i] != steps[j])
  }

  lemma WholePlan(before: Files, plan: seq<Step>)
    requires Apart(before, plan)
    ensures PartOf(plan, plan)
  {
    forall i, j | 0 <= i < j < |plan| ensures plan[i] != plan[j] {
      assert plan[i].from in Names(plan[i]) && Names(plan[i]) !! Names(plan[j]);
    }
  }

  /** Only steps that could run are to be undone, as in every journal the transaction writes. */
  ghost predicate Undoable(before: Files, journal: Journal) {
    journal.Whole? ==> forall i :: 0 <= i < |journal.steps| && ToUndo(journal, journal.steps[i]) ==>
      CanStep(before, journal.steps[i])
  }

  /** Steps from `k` on are decided, those that could run. */
  ghost predicate DecidedFrom(before: Files, files: Files, journal: Journal, k: nat)
    requires journal.Whole? && k <= |journal.steps|
  {
    forall i :: k <= i < |journal.steps| && CanStep(before, journal.steps[i]) ==>
      Decided(files, ToUndo(journal, journal.steps[i]), journal.steps[i])
  }

  /** Exactly one of the names of a step was in use before the run. */
  predicate OneNameUsed(before: Files, s: Step) { s.from in before <==> s.to !in before }

  /** That is so of the steps from `k` on. */
  ghost predicate ResolvableFrom(before: Files, steps: seq<Step>, k: nat) {
    forall i :: k <= i < |steps| ==> OneNameUsed(before, steps[i])
  }

  /** Of no step of the plan both names were in use, or none. */
  ghost predicate Resolvable(before: Files, steps: seq<Step>) { ResolvableFrom(before, steps, 0) }

  /** One step decided: ambiguous exactly when before the run its file was missing and its destination
      free, or its file there and its destination taken; a step that could not run is left alone. */
  lemma StepDecides(before: Files, plan: seq<Step>, files: Files, undo: bool, s: Step)
    requires Apart(before, plan) && Scattered(before, plan, files) && s in plan && (undo ==> CanStep(before, s))
    ensures Scattered(before, plan, RecoverStep(files, undo, s).0)
    ensures RecoverStep(files, undo, s).1 <==> !OneNameUsed(before, s)
    ensures CanStep(before, s) ==> Decided(RecoverStep(files, undo, s).0, undo, s)
    ensures !CanStep(before, s) ==> RecoverStep(files, undo, s).0 == files
    ensures forall t :: t in plan && t != s ==> SameNames(files, RecoverStep(files, undo, s).0, t)
  {
    var i :| 0 <= i < |plan| && plan[i] == s;
    assert Once(before, files, s) && Spread(before, s);
    hide Scattered, Once;
    if CanStep(before, s) {
      MoveKeeps(before, plan, files, i, s.temporary, s.from);
      MoveKeeps(before, plan, files, i, s.to, s.from);
    }
    forall t | t in plan && t != s ensures Names(t) !! Names(s) {
      var j :| 0 <= j < |plan| && plan[j] == t;
    }
  }

  /** Recovery loses nothing, decides every step that could run, and is ambiguous exactly about
      those of which both names were in use or none.  Steps of other journals are not disturbed. */
  lemma {:induction false} RecoveryDecides(before: Files, plan: seq<Step>, journal: Journal, files: Files, k: nat)
    requires journal.Whole? && k <= |journal.steps| && PartOf(journal.steps, plan)
    requires Apart(before, plan) && Scattered(before, plan, files) && Undoable(before, journal)
    ensures Scattered(before, plan, Recovered(files, journal, k))
    ensures DecidedFrom(before, Recovered(files, journal, k), journal, k)
    ensures Clear(files, journal, k) <==> ResolvableFrom(before, journal.steps, k)
    ensures forall s :: s in plan && s !in journal.steps[k..] ==> SameNames(files, Recovered(files, journal, k), s)
    decreases |journal.steps| - k
  {
    hide *;
    if k < |journal.steps| {
      var now, s := Recovered(files, journal, k + 1), journal.steps[k];
      RecoveryDecides(before, plan, journal, files, k + 1);
      StepOf(journal.steps, plan, k);
      MayUndo(before, journal, k);
      StepDecides(before, plan, now, ToUndo(journal, s), s);
      RecoveredNext(files, journal, k);
      OneMoreDecided(before, plan, journal, now, RecoverStep(now, ToUndo(journal, s), s).0, k);
      OneMoreSame(plan, journal, files, now, RecoverStep(now, ToUndo(journal, s), s).0, k);
    } else {
      NothingToDecide(before, plan, files, journal);
    }
  }

  /** Where a step leaves its file: at the new name exactly if it was there and is not to be undone. */
  lemma StepPlaces(before: Files, plan: seq<Step>, files: Files, undo: bool, s: Step)
    requires Apart(before, plan) && Scattered(before, plan, files) && s in plan && CanStep(before, s)
    ensures s.to in RecoverStep(files, undo, s).0 <==> s.to in files && !undo
  {
    var i :| 0 <= i < |plan| && plan[i] == s;
    assert Once(before, files, s) && Spread(before, s);
  }

  /** The file of a step is whole under its new name, or else under its old one, and nowhere else. */
  ghost predicate Ends(before: Files, files: Files, s: Step, moved: bool)
    requires s.from in before
  {
    && s.temporary !in files
    && (if moved then s.to in files && files[s.to] == before[s.from] && s.from !in files
        else s.from in files && files[s.from] == before[s.from] && s.to !in files)
  }

  /** Which of the steps from `k` on have their files at the new names once those are decided. */
  lemma {:induction false} RecoveryMoves(before: Files, plan: seq<Step>, journal: Journal, files: Files, k: nat)
    requires journal.Whole? && k <= |journal.steps| && PartOf(journal.steps, plan)
    requires Apart(before, plan) && Scattered(before, plan, files) && Undoable(before, journal)
    ensures forall i :: k <= i < |journal.steps| && CanStep(before, journal.steps[i]) ==>
              (journal.steps[i].to in Recovered(files, journal, k)
               <==> journal.steps[i].to in files && !ToUndo(journal, journal.steps[i]))
    ensures forall i :: 0 <= i < k ==>
              (journal.steps[i].to in Recovered(files, journal, k) <==> journal.steps[i].to in files)
    decreases |journal.steps| - k
  {
    hide *;
    if k < |journal.steps| {
      var now, s := Recovered(files, journal, k + 1), journal.steps[k];
      RecoveryMoves(before, plan, journal, files, k + 1);
      RecoveryDecides(before, plan, journal, files, k + 1);
      StepOf(journal.steps, plan, k);
      MayUndo(before, journal, k);
      StepDecides(before, plan, now, ToUndo(journal, s), s);
      if CanStep(before, s) { StepPlaces(before, plan, now, ToUndo(journal, s), s); }
      RecoveredNext(files, journal, k);
      OthersStayPut(plan, journal, now, RecoverStep(now, ToUndo(journal, s), s).0, k);
    } else {
      NothingToDecide(before, plan, files, journal);
    }
  }

  lemma OthersStayPut(plan: seq<Step>, journal: Journal, now: Files, files': Files, k: nat)
    requires journal.Whole? && k < |journal.steps| && PartOf(journal.steps, plan)
    requires forall t :: t in plan && t != journal.steps[k] ==> SameNames(now, files', t)
    ensures forall i :: 0 <= i < |journal.steps| && i != k ==>
              (journal.steps[i].to in files' <==> journal.steps[i].to in now)
  {
    forall i | 0 <= i < |journal.steps| && i != k
      ensures journal.steps[i].to in files' <==> journal.steps[i].to in now
    {
      assert journal.steps[i] in plan && journal.steps[i] != journal.steps[k];
      assert SameNames(now, files', journal.steps[i]) && journal.steps[i].to in Names(journal.steps[i]);
    }
  }

  /** Where each file of a plan that reuses no name is after recovery: at its new name if it was there
      when recovery began and the step is not to be undone, otherwise at its old name. */
  lemma RecoveryPlaces(before: Files, plan: seq<Step>, journal: Journal, files: Files)
    requires journal.Whole? && PartOf(journal.steps, plan) && Undoable(before, journal)
    requires Apart(before, plan) && Scattered(before, plan, files)
    ensures forall i :: 0 <= i < |journal.steps| && CanStep(before, journal.steps[i]) ==>
              Ends(before, Recovered(files, journal, 0), journal.steps[i],
                   journal.steps[i].to in files && !ToUndo(journal, journal.steps[i]))
  {
    var now := Recovered(files, journal, 0);
    RecoveryMoves(before, plan, journal, files, 0);
    RecoveryDecides(before, plan, journal, files, 0);
    hide Recovered, Apart, Clear;
    forall i | 0 <= i < |journal.steps| && CanStep(before, journal.steps[i])
      ensures Ends(before, now, journal.steps[i], journal.steps[i].to in files && !ToUndo(journal, journal.steps[i]))
    {
      var s := journal.steps[i];
      StepOf(journal.steps, plan, i);
      var j :| 0 <= j < |plan| && plan[j] == s;
      assert Once(before, now, plan[j]) && Decided(now, ToUndo(journal, s), s);
    }
  }

  lemma StepOf(steps: seq<Step>, plan: seq<Step>, k: nat)
    requires PartOf(steps, plan) && k < |steps|
    ensures steps[k] in plan
  {
  }

  lemma MayUndo(before: Files, journal: Journal, k: nat)
    requires journal.Whole? && k < |journal.steps| && Undoable(before, journal)
    ensures ToUndo(journal, journal.steps[k]) ==> CanStep(before, journal.steps[k])
  {
  }

  lemma NothingToDecide(before: Files, plan: seq<Step>, files: Files, journal: Journal)
    requires journal.Whole?
    ensures var n := |journal.steps|;
            && Recovered(files, journal, n) == files && Clear(files, journal, n)
            && DecidedFrom(before, files, journal, n) && ResolvableFrom(before, journal.steps, n)
            && forall s :: s in plan ==> SameNames(files, files, s)
  {
  }

  lemma RecoveredNext(files: Files, journal: Journal, k: nat)
    requires journal.Whole? && k < |journal.steps|
    ensures var now, s := Recovered(files, journal, k + 1), journal.steps[k];
            && Recovered(files, journal, k) == RecoverStep(now, ToUndo(journal, s), s).0
            && (Clear(files, journal, k)
              <==> Clear(files, journal, k + 1) && !RecoverStep(now, ToUndo(journal, s), s).1)
  {
    hide RecoverStep;
  }

  lemma OneMoreDecided(before: Files, plan: seq<Step>, journal: Journal, files: Files, files': Files, k: nat)
    requires journal.Whole? && k < |journal.steps| && DecidedFrom(before, files, journal, k + 1)
    requires PartOf(journal.steps, plan)
    requires var s := journal.steps[k]; CanStep(before, s) ==> Decided(files', ToUndo(journal, s), s)
    requires forall t :: t in plan && t != journal.steps[k] ==> SameNames(files, files', t)
    ensures DecidedFrom(before, files', journal, k)
    ensures ResolvableFrom(before, journal.steps, k) <==>
              ResolvableFrom(before, journal.steps, k + 1) && OneNameUsed(before, journal.steps[k])
  {
    hide Decided, SameNames, OneNameUsed;
    forall i | k < i < |journal.steps| && CanStep(before, journal.steps[i])
      ensures Decided(files', ToUndo(journal, journal.steps[i]), journal.steps[i])
    {
      assert SameNames(files, files', journal.steps[i]);
      DecidedElsewhere(files, files', ToUndo(journal, journal.steps[i]), journal.steps[i]);
    }
  }

  lemma OneMoreSame(plan: seq<Step>, journal: Journal, files: Files, now: Files, files': Files, k: nat)
    requires journal.Whole? && k < |journal.steps|
    requires forall s :: s in plan && s !in journal.steps[k + 1..] ==> SameNames(files, now, s)
    requires forall s :: s in plan && s != journal.steps[k] ==> SameNames(now, files', s)
    ensures forall s :: s in plan && s !in journal.steps[k..] ==> SameNames(files, files', s)
  {
    hide SameNames;
    var rest := journal.steps[k..];
    assert rest == [journal.steps[k]] + journal.steps[k + 1..];
    forall s | s in plan && s !in rest ensures SameNames(files, files', s) {
      SameBoth(files, now, files', s);
    }
  }

  lemma SameBoth(files: Files, now: Files, files': Files, s: Step)
    requires SameNames(files, now, s) && SameNames(now, files', s)
    ensures SameNames(files, files', s)
  {
  }

  lemma DecidedElsewhere(files: Files, files': Files, undo: bool, s: Step)
    requires Decided(files, undo, s) && SameNames(files, files', s)
    ensures Decided(files', undo, s)
  {
    assert s.from in Names(s) && s.to in Names(s) && s.temporary in Names(s);
  }

  /** The journal of a plan that reuses no name is concluded if and only if of each step exactly one
      of its two names was in use before the run. */
  lemma ConcludedIffResolvable(before: Files, journal: Journal, files: Files)
    requires journal.Whole? && Apart(before, journal.steps) && Undoable(before, journal)
    requires Scattered(before, journal.steps, files)
    ensures Clear(files, journal, 0) <==> Resolvable(before, journal.steps)
  {
    hide Clear, Apart, Scattered, Undoable;
    WholePlan(before, journal.steps);
    RecoveryDecides(before, journal.steps, journal, files, 0);
  }

  function OneRename(): seq<Step> { [Step(0, At("a"), Temporary(0), At("b"), None)] }

  /** A file deleted between audit and run: the run refuses it and asks for recovery, which
      finds none of its names and keeps the journal for good. */
  lemma MissingSourceIsNeverConcluded()
    ensures var before: Files := map[];
            && Proper(before, OneRename()) && Apart(before, OneRename()) && Scattered(before, OneRename(), before)
            && MayFail(before, OneRename()[0], NotFound, AtSource)
            && RolledBack(before, OneRename(), Halt(0, AtSource)) == before
            && !Clear(before, Whole(RecoveryPending, OneRename(), []), 0)
  {
    var before: Files := map[];
    UntouchedIsScattered(before, OneRename());
    ConcludedIffResolvable(before, Whole(RecoveryPending, OneRename(), []), before);
    assert !OneNameUsed(before, OneRename()[0]);
  }

  /** The same where another file has taken the destination meanwhile. */
  lemma TakenDestinationIsNeverConcluded()
    ensures var before: Files := map[At("a") := [1], At("b") := [2]];
            && Proper(before, OneRename()) && Apart(before, OneRename()) && Scattered(before, OneRename(), before)
            && MayFail(before, OneRename()[0], DestinationExists, AtSource)
            && RolledBack(before, OneRename(), Halt(0, AtSource)) == before
            && !Clear(before, Whole(RecoveryPending, OneRename(), []), 0)
  {
    var before: Files := map[At("a") := [1], At("b") := [2]];
    UntouchedIsScattered(before, OneRename());
    ConcludedIffResolvable(before, Whole(RecoveryPending, OneRename(), []), before);
    assert !OneNameUsed(before, OneRename()[0]);
  }

  lemma {:induction false} DecidedStays(before: Files, journal: Journal, files: Files, k: nat)
    requires journal.Whole? && k <= |journal.steps| && Undoable(before, journal)
    requires DecidedFrom(before, files, journal, 0) && Scattered(before, journal.steps, files)
    ensures Recovered(files, journal, k) == files
    decreases |journal.steps| - k
  {
    if k < |journal.steps| {
      hide Once;
      DecidedStays(before, journal, files, k + 1);
      if !CanStep(before, journal.steps[k]) { StaysWhereItWas(before, files, journal.steps[k]); }
    }
  }

  lemma StaysWhereItWas(before: Files, files: Files, s: Step)
    requires Once(before, files, s) && !CanStep(before, s)
    ensures RecoverStep(files, false, s).0 == files
  {
  }

  /** After a failure that was recorded, recovery brings every completed file home. */
  lemma FailedPlanGoesHome(before: Files, journal: Journal, files: Files, done: nat)
    requires journal.Whole? && done <= |journal.steps| && Undoable(before, journal)
    requires journal.state.RecoveryPending? && journal.completed == Items(journal.steps[..done])
    requires Apart(before, journal.steps) && Scattered(before, journal.steps, files)
    ensures forall i :: 0 <= i < done ==>
              var s, now := journal.steps[i], Recovered(files, journal, 0);
              && s.from in before && s.from in now && now[s.from] == before[s.from]
              && s.to !in now && s.temporary !in now
  {
    WholePlan(before, journal.steps);
    RecoveryDecides(before, journal.steps, journal, files, 0);
    var now := Recovered(files, journal, 0);
    hide Recovered, Apart;
    forall i | 0 <= i < done
      ensures var s := journal.steps[i];
              && s.from in before && s.from in now && now[s.from] == before[s.from]
              && s.to !in now && s.temporary !in now
    {
      assert Items(journal.steps[..done])[i] == journal.steps[i].item;
      assert ToUndo(journal, journal.steps[i]);
      assert Decided(now, ToUndo(journal, journal.steps[i]), journal.steps[i]);
      assert Once(before, now, journal.steps[i]);
    }
  }

  /** A journal as the transaction leaves it lists only steps that could run. */
  lemma RecordedIsUndoable(before: Files, journals: Entries, op: JournalId, steps: seq<Step>, halt: Halt)
    requires Proper(before, steps) && Apart(before, steps) && op in journals
    requires exists files :: halt.Of(before, steps, files)
    requires Recorded(journals, op, steps, halt.done)
    ensures Undoable(before, journals[op])
  {
    HaltedIsScattered(before, steps, halt);
    if journals[op].Whole? && journals[op].state.RecoveryPending? {
      forall i | 0 <= i < |steps| && ToUndo(journals[op], steps[i]) ensures CanStep(before, steps[i]) {
        var k :| 0 <= k < halt.done && Items(steps[..halt.done])[k] == steps[i].item;
        assert steps[k].item == steps[i].item;
      }
    }
  }

  /** Running recovery again changes nothing. */
  lemma RecoveryIsIdempotent(before: Files, journal: Journal, files: Files)
    requires journal.Whole? && Apart(before, journal.steps) && Undoable(before, journal)
    requires Scattered(before, journal.steps, files)
    ensures Recovered(Recovered(files, journal, 0), journal, 0) == Recovered(files, journal, 0)
  {
    hide Apart, Scattered, Recovered, DecidedFrom, Undoable;
    WholePlan(before, journal.steps);
    RecoveryDecides(before, journal.steps, journal, files, 0);
    DecidedStays(before, journal, Recovered(files, journal, 0), 0);
  }

  // ---- Whole runs.

  /** No file is under a temporary name. */
  ghost predicate Resting(files: Files, steps: seq<Step>) {
    forall i :: 0 <= i < |steps| ==> steps[i].temporary !in files
  }

  /** Every file exactly once, under its old or its new name; nothing else changed. */
  ghost predicate AtRest(before: Files, steps: seq<Step>, files: Files) {
    Scattered(before, steps, files) && Resting(files, steps)
  }

  lemma DecidedIsResting(before: Files, plan: seq<Step>, journal: Journal, files: Files)
    requires journal.Whole? && PartOf(journal.steps, plan)
    requires DecidedFrom(before, files, journal, 0) && Scattered(before, plan, files)
    ensures Resting(files, journal.steps)
  {
    forall i | 0 <= i < |journal.steps| ensures journal.steps[i].temporary !in files {
      var s := journal.steps[i];
      var j :| 0 <= j < |plan| && plan[j] == s;
      assert Once(before, files, plan[j]);
      if CanStep(before, s) { assert Decided(files, ToUndo(journal, s), s); }
    }
  }

  lemma RestingStart(files: Files, steps: seq<Step>)
    requires Apart(files, steps)
    ensures AtRest(files, steps, files)
  {
    UntouchedIsScattered(files, steps);
    forall i | 0 <= i < |steps| ensures steps[i].temporary !in files { assert Spread(files, steps[i]); }
  }

  /** Recovery takes files away from new names only where the step is to be undone, and once it is
      `done` from all of those; it brings none there. */
  ghost predicate Moves(before: Files, journal: Journal, files: Files, after: Files, done: bool)
    requires journal.Whole?
  {
    forall i :: 0 <= i < |journal.steps| && CanStep(before, journal.steps[i]) ==>
      var s := journal.steps[i];
      if ToUndo(journal, s) then (s.to in after ==> s.to in files && !done) else (s.to in after <==> s.to in files)
  }

  lemma AttemptMoves(before: Files, journal: Journal, files: Files, left: nat)
    requires journal.Whole? && left <= |journal.steps| && Undoable(before, journal)
    requires Apart(before, journal.steps) && Scattered(before, journal.steps, files)
    ensures Moves(before, journal, files, Recovered(files, journal, left), left == 0)
  {
    WholePlan(before, journal.steps);
    RecoveryMoves(before, journal.steps, journal, files, left);
    hide Recovered, Apart, Scattered;
  }

  lemma MovesOn(before: Files, journal: Journal, a: Files, b: Files, c: Files, done: bool, later: bool)
    requires journal.Whole? && Moves(before, journal, a, b, done)
    requires Moves(before, journal, b, c, later) || Moves(before, journal, b, c, true)
    ensures Moves(before, journal, a, c, done || later)
  {
  }

  lemma MovesNothing(before: Files, journal: Journal, files: Files)
    requires journal.Whole?
    ensures Moves(before, journal, files, files, false)
  {
  }

  /** A file at rest is where it was moved, or where it came from. */
  lemma RestingEnds(before: Files, journal: Journal, files: Files, after: Files)
    requires journal.Whole? && Scattered(before, journal.steps, after) && Resting(after, journal.steps)
    requires Moves(before, journal, files, after, true)
    ensures AllEnd(before, journal, files, after)
  {
    forall i | 0 <= i < |journal.steps| && CanStep(before, journal.steps[i])
      ensures Ends(before, after, journal.steps[i], journal.steps[i].to in files && !ToUndo(journal, journal.steps[i]))
    {
      assert Once(before, after, journal.steps[i]);
    }
  }

  /** Every file that could be renamed ends at its new name exactly if it was there in `files` and
      the step is not to be undone, and otherwise at its old name. */
  ghost predicate AllEnd(before: Files, journal: Journal, files: Files, after: Files)
    requires journal.Whole?
  {
    forall i :: 0 <= i < |journal.steps| && CanStep(before, journal.steps[i]) ==>
      Ends(before, after, journal.steps[i], journal.steps[i].to in files && !ToUndo(journal, journal.steps[i]))
  }

  /** One attempt at recovery, if there is still a journal. */
  method Attempt(m: Device, op: JournalId, ghost before: Files, ghost steps: seq<Step>) returns (r: Outcome)
    requires Apart(before, steps)
    requires Scattered(before, steps, m.files) && Logged(m.journals, m.journals, op, steps)
    requires op in m.journals ==> Undoable(before, m.journals[op])
    requires op !in m.journals ==> Resting(m.files, steps)
    modifies m`faults, m`files, m`ids, m`free, m`journals
    ensures m.faults <= old(m.faults)
    ensures Scattered(before, steps, m.files)
    ensures op !in m.journals ==> Resting(m.files, steps)
    ensures op !in m.journals && op in old(m.journals) ==> Resolvable(before, steps)
    ensures op in m.journals ==> op in old(m.journals) && m.journals[op] == old(m.journals)[op]
    ensures op in old(m.journals) && old(m.journals)[op].Torn? ==>
              m.files == old(m.files) && m.journals == old(m.journals)
    ensures op !in old(m.journals) ==> m.files == old(m.files) && m.journals == old(m.journals)
    ensures old(m.Quiet()) && op in old(m.journals) && old(m.journals)[op].Whole? ==>
              Resting(m.files, steps) && (op in m.journals <==> !Resolvable(before, steps))
    ensures op in old(m.journals) && old(m.journals)[op].Whole? ==>
              Moves(before, old(m.journals)[op], old(m.files), m.files, old(m.Quiet()) || op !in m.journals)
  {
    hide Apart, Resolvable, Scattered, Resting, Clear, DecidedFrom, Undoable;
    r := Ok;
    if op !in m.journals { return; }
    ghost var files, journal := m.files, m.journals[op];
    var recovered, left;
    r, recovered, left := ReconcileJournal(m, op);
    if journal.Whole? {
      WholePlan(before, steps);
      RecoveryDecides(before, steps, journal, files, 0);
      RecoveryDecides(before, steps, journal, files, left);
      DecidedIsResting(before, steps, journal, Recovered(files, journal, 0));
      AttemptMoves(before, journal, files, left);
      ConcludedIffResolvable(before, journal, files);
    }
  }

  /** What may go wrong during one attempt at recovery. */
  datatype Trial = Trial(faults: nat, crashes: bool)

  /** Any number of recoveries, each under its own faults and crashes, and one undisturbed. */
  method RecoverRepeatedly(m: Device, op: JournalId, attempts: seq<Trial>, ghost before: Files, ghost steps: seq<Step>)
    requires Apart(before, steps) && Scattered(before, steps, m.files)
    requires Logged(m.journals, m.journals, op, steps)
    requires op in m.journals ==> Undoable(before, m.journals[op])
    requires op !in m.journals ==> Resting(m.files, steps)
    modifies m`faults, m`files, m`ids, m`free, m`journals, m`crashes
    ensures Scattered(before, steps, m.files)
    ensures op in m.journals ==> op in old(m.journals) && m.journals[op] == old(m.journals)[op]
    ensures op in old(m.journals) ==>
              (op in m.journals <==> old(m.journals)[op].Torn? || !Resolvable(before, steps))
    ensures if op in old(m.journals) && old(m.journals)[op].Whole?
            then Resting(m.files, steps) && AllEnd(before, old(m.journals)[op], old(m.files), m.files)
            else m.files == old(m.files)
  {
    hide Apart, Resolvable, Scattered, Resting, Undoable, Moves, AllEnd;
    ghost var stopped, left := m.journals, m.files;
    ghost var whole := op in stopped && stopped[op].Whole?;
    if whole { MovesNothing(before, stopped[op], left); }
    var r;
    for n := 0 to |attempts|
      invariant Scattered(before, steps, m.files)
      invariant op !in m.journals ==> Resting(m.files, steps) && (op in stopped ==> Resolvable(before, steps))
      invariant op in m.journals ==> op in stopped && m.journals[op] == stopped[op]
      invariant op in stopped && stopped[op].Torn? ==> op in m.journals
      invariant !whole ==> m.files == left
      invariant whole ==> Moves(before, stopped[op], left, m.files, op !in m.journals)
    {
      ghost var was, journals := m.files, m.journals;
      m.faults, m.crashes := attempts[n].faults, attempts[n].crashes;
      r := Attempt(m, op, before, steps);
      if whole && op in journals { MovesOn(before, stopped[op], left, was, m.files, false, op !in m.journals); }
    }
    ghost var was, journals := m.files, m.journals;
    m.faults, m.crashes := 0, false;
    r := Attempt(m, op, before, steps);
    if whole {
      if op in journals { MovesOn(before, stopped[op], left, was, m.files, false, true); }
      RestingEnds(before, stopped[op], left, m.files);
    }
  }

  /** The plan is carried out and interrupted anywhere (at `halt`); recovery then runs any number
      of times, each under its own faults and crashes, and once undisturbed.  Then every file has
      its old or its new name, except exactly if the run stopped between the two renames of a
      file and tore its own journal; crashes alone never do that.  The journal is gone unless it
      is torn, or before the run both names of a step were in use or none. */
  method ExecuteAndRecover(m: Device, op: JournalId, steps: seq<Step>, attempts: seq<Trial>)
    returns (halt: Halt, ghost stopped: Entries, ghost left: Files)
    requires Proper(m.files, steps) && Apart(m.files, steps) && op !in m.journals
    modifies m`faults, m`files, m`ids, m`free, m`journals, m`crashes, m`answers
    ensures exists files :: halt.Of(old(m.files), steps, files)
    ensures Scattered(old(m.files), steps, m.files)
    ensures AtRest(old(m.files), steps, m.files) <==>
              !(op in m.journals && m.journals[op].Torn? && halt.place.AtTemporary?)
    ensures old(m.faults) == 0 ==> AtRest(old(m.files), steps, m.files)
    // `stopped` and `left`: the journals and the files when the run ended
    ensures op in stopped && stopped[op].Whole? ==>
              stopped[op].steps == steps && AllEnd(old(m.files), stopped[op], left, m.files)
    ensures !(op in stopped && stopped[op].Whole?) ==> m.files == left
    ensures op in stopped && stopped[op].Whole? && halt.place.AtTemporary? ==>
              CanStep(old(m.files), steps[halt.done]) && Ends(old(m.files), m.files, steps[halt.done], false)
    ensures op in m.journals <==>
              op in stopped && (stopped[op].Torn? || !Resolvable(old(m.files), steps))
    ensures op in m.journals ==> m.journals[op] == stopped[op]
  {
    ghost var before := m.files;
    var r;
    r, halt := Execute(m, op, steps);
    RestingUnlessBetween(before, m.files, steps, halt);
    RestingStart(before, steps);
    if r.Ok? { SuccessIsAtRest(before, steps); }
    if op in m.journals { RecordedIsUndoable(before, m.journals, op, steps, halt); }
    hide Proper, Apart, Resolvable, Scattered, Resting, AwayOnly, Halt.Of, Undoable, Recorded;
    hide AllEnd, Ends;
    stopped, left := m.journals, m.files;
    RecoverRepeatedly(m, op, attempts, before, steps);
    if op in stopped && stopped[op].Whole? && halt.place.AtTemporary? {
      StaysHome(before, left, m.files, stopped[op], steps, halt);
    }
  }

  /** A run stopped between the two renames of a file: recovery brings it home. */
  lemma StaysHome(before: Files, left: Files, after: Files, journal: Journal, steps: seq<Step>, halt: Halt)
    requires journal.Whole? && journal.steps == steps && halt.place.AtTemporary? && halt.done < |steps|
    requires Apart(before, steps) && Scattered(before, steps, left) && AwayOnly(left, steps, halt)
    requires AllEnd(before, journal, left, after)
    ensures CanStep(before, steps[halt.done]) && Ends(before, after, steps[halt.done], false)
  {
    assert Once(before, left, steps[halt.done]) && steps[halt.done].temporary in left;
  }

  lemma RestingUnlessBetween(before: Files, files: Files, steps: seq<Step>, halt: Halt)
    requires Apart(before, steps) && AwayOnly(files, steps, halt) && halt.Within(steps)
    ensures Resting(files, steps) <==> !halt.place.AtTemporary?
  {
    if halt.place.AtTemporary? { assert steps[halt.done].temporary in files; }
  }

  lemma SuccessIsAtRest(files: Files, steps: seq<Step>)
    requires Proper(files, steps) && Apart(files, steps) && Ran(files, steps, |steps|)
    ensures AtRest(files, steps, Renamed(files, steps, |steps|))
  {
    RenamedIsScattered(files, steps, |steps|);
    forall i | 0 <= i < |steps| ensures steps[i].temporary !in Renamed(files, steps, |steps|) {
      TemporariesFree(files, steps, |steps|, i);
    }
  }

  /** The exception happens: the second rename fails, and then the write that asks for recovery
      stops after it has emptied the journal.  The rollback has nothing to undo, and recovery
      never touches the file again. */
  lemma TornBetweenRenames()
    ensures var before: Files, steps := map[At("a") := [1]], OneRename();
            var halt := Halt(0, AtTemporary);
            var left := RolledBack(before, steps, halt);
            && Proper(before, steps) && Apart(before, steps)
            && halt.Of(before, steps, Halted(before, steps, 0, AtTemporary))
            && left == map[Temporary(0) := [1]] && Scattered(before, steps, left) && !AtRest(before, steps, left)
  {
    var before: Files, steps := map[At("a") := [1]], OneRename();
    HaltedIsScattered(before, steps, Halt(0, AtTemporary));
    var left := RolledBack(before, steps, Halt(0, AtTemporary));
    assert steps[0].temporary in left;
  }

  // ---- All journals.

  /** The journals are of separate parts of one plan. */
  ghost predicate Shared(journals: Entries, before: Files, plan: seq<Step>) {
    && Apart(before, plan)
    && (forall op :: op in journals && journals[op].Whole? ==>
          PartOf(journals[op].steps, plan) && Undoable(before, journals[op]))
    && (forall op, op' :: op in journals && op' in journals && op != op' ==>
          journals[op].Whole? && journals[op'].Whole? ==> SharesNone(journals[op].steps, journals[op'].steps))
  }

  ghost predicate SharesNone(a: seq<Step>, b: seq<Step>) { forall s :: s in a ==> s !in b }

  /** A journal that is gone could be concluded, and leaves no temporary name. */
  ghost predicate WellGone(before: Files, journals: Entries, now: Entries, files: Files) {
    forall op :: op in journals && op !in now && journals[op].Whole? ==>
      Resolvable(before, journals[op].steps) && Resting(files, journals[op].steps)
  }

  /** The first `i` journals of the list have been decided. */
  ghost predicate DecidedUpto(before: Files, journals: Entries, now: Entries, files: Files, ops: seq<JournalId>,
                              i: nat)
  {
    forall k :: 0 <= k < i && k < |ops| && ops[k] in journals && journals[ops[k]].Whole? ==>
      && Resting(files, journals[ops[k]].steps)
      && (ops[k] in now <==> !Resolvable(before, journals[ops[k]].steps))
  }

  /** What one journal's recovery does to the files of another. */
  lemma OthersRest(before: Files, plan: seq<Step>, journals: Entries, op: JournalId, op': JournalId,
                   files: Files, left: nat)
    requires Shared(journals, before, plan) && Scattered(before, plan, files)
    requires op in journals && op' in journals && op != op' && journals[op].Whole? && journals[op'].Whole?
    requires left <= |journals[op].steps| && Resting(files, journals[op'].steps)
    ensures Resting(Recovered(files, journals[op], left), journals[op'].steps)
  {
    var journal, steps := journals[op], journals[op'].steps;
    RecoveryDecides(before, plan, journal, files, left);
    assert SharesNone(steps, journal.steps);
    hide Recovered, Scattered, Apart, Clear, DecidedFrom;
    forall i | 0 <= i < |steps| ensures steps[i].temporary !in Recovered(files, journal, left) {
      StepOf(steps, plan, i);
      assert steps[i] in steps && steps[i] !in journal.steps[left..];
      assert SameNames(files, Recovered(files, journal, left), steps[i]) && steps[i].temporary in Names(steps[i]);
    }
  }

  lemma OneMoreGone(before: Files, plan: seq<Step>, journals: Entries, now: Entries, now': Entries,
                    op: JournalId, files: Files, left: nat)
    requires Shared(journals, before, plan) && Scattered(before, plan, files) && WellGone(before, journals, now, files)
    requires op in journals && op in now && journals[op].Whole? && left <= |journals[op].steps|
    requires now' == now || (now' == now - {op} && left == 0 && Clear(files, journals[op], 0))
    ensures Scattered(before, plan, Recovered(files, journals[op], left))
    ensures WellGone(before, journals, now', Recovered(files, journals[op], left))
    ensures left == 0 ==> Resting(Recovered(files, journals[op], 0), journals[op].steps)
    ensures Clear(files, journals[op], 0) <==> Resolvable(before, journals[op].steps)
  {
    hide Scattered, Apart, Clear, Recovered, DecidedFrom, Resting, SharesNone;
    var journal := journals[op];
    var files' := Recovered(files, journal, left);
    RecoveryDecides(before, plan, journal, files, 0);
    RecoveryDecides(before, plan, journal, files, left);
    if left == 0 { DecidedIsResting(before, plan, journal, files'); }
    forall op' | op' in journals && op' !in now' && journals[op'].Whole?
      ensures Resolvable(before, journals[op'].steps) && Resting(files', journals[op'].steps)
    {
      if op' != op { OthersRest(before, plan, journals, op, op', files, left); }
    }
  }

  lemma OneMoreDecidedOf(before: Files, plan: seq<Step>, journals: Entries, now: Entries, now': Entries,
                         files: Files, ops: seq<JournalId>, i: nat)
    requires Shared(journals, before, plan) && Scattered(before, plan, files) && i < |ops|
    requires DecidedUpto(before, journals, now, files, ops, i)
    requires ops[i] in journals && ops[i] in now && journals[ops[i]].Whole?
    requires now' == if Clear(files, journals[ops[i]], 0) then now - {ops[i]} else now
    requires Resting(Recovered(files, journals[ops[i]], 0), journals[ops[i]].steps)
    requires Clear(files, journals[ops[i]], 0) <==> Resolvable(before, journals[ops[i]].steps)
    ensures DecidedUpto(before, journals, now', Recovered(files, journals[ops[i]], 0), ops, i + 1)
  {
    hide Scattered, Apart, Clear, Recovered, Resting, SharesNone, Resolvable;
    forall k | 0 <= k < i && ops[k] in journals && journals[ops[k]].Whole? && ops[k] != ops[i]
      ensures Resting(Recovered(files, journals[ops[i]], 0), journals[ops[k]].steps)
    {
      OthersRest(before, plan, journals, ops[i], ops[k], files, 0);
    }
  }

  /** What holds once the first `i` journals of the list have had their turn. */
  ghost predicate Reconciled(before: Files, plan: seq<Step>, journals: Entries, now: Entries, files: Files,
                             ops: seq<JournalId>, i: nat, quiet: bool) {
    && Scattered(before, plan, files) && WellGone(before, journals, now, files)
    && (quiet ==> DecidedUpto(before, journals, now, files, ops, i))
  }

  lemma OneMoreReconciled(before: Files, plan: seq<Step>, journals: Entries, now: Entries, now': Entries,
                          files: Files, files': Files, ops: seq<JournalId>, i: nat, left: nat, quiet: bool)
    requires Shared(journals, before, plan) && i < |ops|
    requires Reconciled(before, plan, journals, now, files, ops, i, quiet)
    requires forall op :: op in now ==> op in journals && now[op] == journals[op]
    requires if ops[i] in now && now[ops[i]].Whole? then
               && left <= |now[ops[i]].steps| && files' == Recovered(files, now[ops[i]], left)
               && (now' == now || (now' == now - {ops[i]} && left == 0 && Clear(files, now[ops[i]], 0)))
               && (quiet ==> left == 0 && (now' == now ==> !Clear(files, now[ops[i]], 0)))
             else now' == now && files' == files
    ensures Reconciled(before, plan, journals, now', files', ops, i + 1, quiet)
  {
    hide Scattered, Shared, Clear, Recovered, Resting, Resolvable;
    if ops[i] in now && now[ops[i]].Whole? {
      OneMoreGone(before, plan, journals, now, now', ops[i], files, left);
      if quiet { OneMoreDecidedOf(before, plan, journals, now, now', files, ops, i); }
    }
  }

  /** `reconcile` over every journal found, in any order: whatever the files and the journals say,
      no content is lost, doubled or changed.  Where the journals are of separate parts of one plan
      that reuses no name, each file stays at one of its names; a journal that goes leaves its files
      at rest; and undisturbed every journal of the list that is not torn leaves them so, and goes
      if and only if before the run exactly one of the names of each of its steps was in use. */
  method Reconcile(m: Device, ops: seq<JournalId>, ghost before: Files, ghost plan: seq<Step>)
    returns (r: Outcome, recovered: nat)
    modifies m`faults, m`files, m`ids, m`free, m`journals
    ensures r.Ok? || (r.Crashed? && m.crashes)
    ensures Conserved(old(m.files), m.files)
    ensures forall op :: op in m.journals ==> op in old(m.journals) && m.journals[op] == old(m.journals)[op]
    ensures |m.journals| + recovered == |old(m.journals)|
    ensures Shared(old(m.journals), before, plan) && Scattered(before, plan, old(m.files)) ==>
              && Scattered(before, plan, m.files) && WellGone(before, old(m.journals), m.journals, m.files)
              && (old(m.Quiet()) ==> DecidedUpto(before, old(m.journals), m.journals, m.files, ops, |ops|))
  {
    hide Conserved, Recovered, Shared, Scattered, Clear, Reconciled;
    Reflexive(m.files);
    ghost var shared, quiet := Shared(m.journals, before, plan) && Scattered(before, plan, m.files), m.Quiet();
    NothingReconciled(before, plan, m.journals, m.files, ops, quiet);
    r, recovered := Ok, 0;
    for i := 0 to |ops|
      invariant r.Ok? && Conserved(old(m.files), m.files) && m.faults <= old(m.faults)
      invariant forall op :: op in m.journals ==> op in old(m.journals) && m.journals[op] == old(m.journals)[op]
      invariant |m.journals| + recovered == |old(m.journals)|
      invariant shared ==> Reconciled(before, plan, old(m.journals), m.journals, m.files, ops, i, quiet)
    {
      ghost var files, journals := m.files, m.journals;
      ghost var unreached: nat := 0;
      if ops[i] in m.journals {
        var done, left;
        r, done, left := ReconcileJournal(m, ops[i]);
        unreached := left;
        if journals[ops[i]].Whole? { RecoveryConserves(files, journals[ops[i]], left); }
        ConservedBoth(old(m.files), files, m.files);
        if done {
          assert m.journals.Keys == journals.Keys - {ops[i]};
          recovered := recovered + 1;
        }
      }
      if shared {
        OneMoreReconciled(before, plan, old(m.journals), journals, m.journals, files, m.files, ops, i, unreached,
                          quiet);
      }
      if !r.Ok? {
        if shared { ReconciledMeans(before, plan, old(m.journals), m.journals, m.files, ops, i + 1, quiet); }
        return;
      }
    }
    if shared { ReconciledMeans(before, plan, old(m.journals), m.journals, m.files, ops, |ops|, quiet); }
  }

  lemma NothingReconciled(before: Files, plan: seq<Step>, journals: Entries, files: Files, ops: seq<JournalId>,
                          quiet: bool)
    ensures Scattered(before, plan, files) ==> Reconciled(before, plan, journals, journals, files, ops, 0, quiet)
  {
  }

  lemma ReconciledMeans(before: Files, plan: seq<Step>, journals: Entries, now: Entries, files: Files,
                        ops: seq<JournalId>, i: nat, quiet: bool)
    requires Reconciled(before, plan, journals, now, files, ops, i, quiet)
    ensures Scattered(before, plan, files) && WellGone(before, journals, now, files)
    ensures quiet ==> DecidedUpto(before, journals, now, files, ops, i)
  {
  }

  // ---- Plans that reuse a name.

  /** No destination is the old name of a file of the plan. */
  ghost predicate ReusesNoName(steps: seq<Step>) {
    forall i, j :: 0 <= i < |steps| && 0 <= j < |steps| ==> steps[i].from != steps[j].to
  }

  lemma {:induction false} RanBefore(files: Files, steps: seq<Step>, k: nat, i: nat)
    requires i < k <= |steps| && Ran(files, steps, k)
    ensures Ran(files, steps, i) && CanStep(Renamed(files, steps, i), steps[i])
    decreases k
  {
    if i < k - 1 { RanBefore(files, steps, k - 1, i); }
  }

  /** A file that has its new name keeps it until a step starts from there. */
  lemma {:induction false} StaysAtDestination(files: Files, steps: seq<Step>, k: nat, i: nat)
    requires Proper(files, steps) && i < k <= |steps| && Ran(files, steps, k)
    requires forall l :: i < l < k ==> steps[l].from != steps[i].to
    ensures steps[i].to in Renamed(files, steps, k)
    decreases k
  {
    hide Move;
    var before, last := Renamed(files, steps, k - 1), steps[k - 1];
    RanBefore(files, steps, k, k - 1);
    if i < k - 1 {
      StaysAtDestination(files, steps, k - 1, i);
      MoveElsewhere(before, last.from, last.to, steps[i].to);
    } else {
      Arrives(before, last);
    }
  }

  lemma Arrives(files: Files, s: Step)
    requires CanStep(files, s)
    ensures s.to in Move(files, s.from, s.to)
  {
  }

  /** Some step takes the name, and no step leaves it later. */
  ghost predicate Taken(steps: seq<Step>, name: Name) {
    exists j :: 0 <= j < |steps| && steps[j].to == name && NotLeft(steps, name, j)
  }

  ghost predicate NotLeft(steps: seq<Step>, name: Name, j: nat) {
    forall i :: j <= i < |steps| ==> steps[i].from != name
  }

  /** Which names of a step are in use once the whole plan has run. */
  lemma InUseIffTaken(files: Files, steps: seq<Step>, i: nat)
    requires Proper(files, steps) && i < |steps| && Ran(files, steps, |steps|)
    ensures steps[i].from in Renamed(files, steps, |steps|) <==> Taken(steps, steps[i].from)
    ensures steps[i].to in Renamed(files, steps, |steps|) <==> Taken(steps, steps[i].to)
  {
    hide Renamed, Ran;
    var n, from, to := |steps|, steps[i].from, steps[i].to;
    if j :| 0 <= j < n && steps[j].to == from && NotLeft(steps, from, j) {
      StaysAtDestination(files, steps, n, j);
    } else {
      forall j | i < j < n ensures steps[j].to != from { assert NotLeft(steps, from, j); }
      StaysFree(files, steps, i, n, from);
    }
    if l :| i < l < n && steps[l].from == to {
      StaysFree(files, steps, l, n, to);
    } else {
      assert NotLeft(steps, to, i);
      StaysAtDestination(files, steps, n, i);
    }
  }

  /** A fully renamed plan leaves recovery nothing to move. */
  lemma {:induction false} RenamedPlanIsLeft(before: Files, journal: Journal, k: nat)
    requires journal.Whole? && !journal.state.RecoveryPending? && k <= |journal.steps|
    requires Proper(before, journal.steps)
    ensures var files := Renamed(before, journal.steps, |journal.steps|);
            && Recovered(files, journal, k) == files
            && (Clear(files, journal, k) <==> forall i :: k <= i < |journal.steps| ==>
                  (journal.steps[i].from in files) != (journal.steps[i].to in files))
    decreases |journal.steps| - k
  {
    if k < |journal.steps| {
      hide Renamed, Ran, Proper;
      RenamedPlanIsLeft(before, journal, k + 1);
      TemporariesFree(before, journal.steps, |journal.steps|, k);
    }
  }

  /** When the whole plan has run, recovery concludes the journal if and only if of the two names of
      each step one is taken for good and the other is not. */
  lemma ConcludedIff(before: Files, journal: Journal)
    requires journal.Whole? && !journal.state.RecoveryPending?
    requires Proper(before, journal.steps) && Ran(before, journal.steps, |journal.steps|)
    ensures Clear(Renamed(before, journal.steps, |journal.steps|), journal, 0) <==>
              forall i :: 0 <= i < |journal.steps| ==>
                Taken(journal.steps, journal.steps[i].from) != Taken(journal.steps, journal.steps[i].to)
  {
    RenamedPlanIsLeft(before, journal, 0);
    hide Clear, Renamed, Ran, Taken;
    forall i | 0 <= i < |journal.steps|
      ensures journal.steps[i].from in Renamed(before, journal.steps, |journal.steps|)
              <==> Taken(journal.steps, journal.steps[i].from)
      ensures journal.steps[i].to in Renamed(before, journal.steps, |journal.steps|)
              <==> Taken(journal.steps, journal.steps[i].to)
    {
      InUseIffTaken(before, journal.steps, i);
    }
  }

  /** Where every file was there before the run, that is if and only if the plan reuses no name. */
  lemma ConcludedIffNoReuse(before: Files, journal: Journal)
    requires journal.Whole? && !journal.state.RecoveryPending?
    requires Proper(before, journal.steps) && SourcesExist(before, journal.steps)
    requires Ran(before, journal.steps, |journal.steps|)
    ensures Clear(Renamed(before, journal.steps, |journal.steps|), journal, 0) <==> ReusesNoName(journal.steps)
  {
    ConcludedIff(before, journal);
    hide Clear, Renamed, Ran;
    var steps := journal.steps;
    forall i, j | 0 <= i < |steps| && 0 <= j < |steps| && steps[i].from == steps[j].to ensures i < j {
      if j < i {
        RanBefore(before, steps, |steps|, j);
        NotYetMoved(before, steps, j, i);
      }
    }
    forall i | 0 <= i < |steps|
      ensures Taken(steps, steps[i].to)
      ensures Taken(steps, steps[i].from) <==> exists j :: 0 <= j < |steps| && steps[j].to == steps[i].from
    {
      assert NotLeft(steps, steps[i].to, i);
      if j :| 0 <= j < |steps| && steps[j].to == steps[i].from { assert NotLeft(steps, steps[i].from, j); }
    }
  }

  /** With a reused name the files may all be where they belong and the journal still stays:
      the name is the old one of a step and the new one of another. */
  lemma ReusedNameIsAmbiguous()
    ensures var before: Files := map[At("a") := [1], At("b") := [2]];
            Ran(before, Chain(), 2) && !Clear(Renamed(before, Chain(), 2), Whole(Running, Chain(), [0, 1]), 0)
  {
    var before: Files := map[At("a") := [1], At("b") := [2]];
    var steps, journal := Chain(), Whole(Running, Chain(), [0, 1]);
    assert Renamed(before, steps, 1) == map[At("a") := [1], At("c") := [2]];
    var files := Renamed(before, steps, 2);
    assert files == map[At("b") := [1], At("c") := [2]];
    assert Recovered(files, journal, 2) == files;
    assert Recovered(files, journal, 1) == files;
    assert RecoverStep(files, false, steps[0]).1;
  }
}
