/** Many planned items, one after the other, under one space budget. */
module Batches {
  import opened Storage
  import opened Journal
  import opened Repair
  import opened Candidates
  import opened Multipart
  import opened Execution
  import opened Planning

  datatype Result = Corrected | CancelledItem | Failed(code: Code) | RecoveryNeeded(code: Code) | Skipped

  /** Errors after which the batch may go on with the next item. */
  predicate SafeToContinue(code: Code) {
    code in {SourceChanged, InsufficientSpace, StillFragmented, HashMismatch, StructureInvalid}
  }

  /** Nothing runs after a result that needs recovery. */
  ghost predicate StopsWhenUnsafe(results: seq<Result>) {
    forall i, j :: 0 <= i < j < |results| && results[i].RecoveryNeeded? ==> results[j] in {Skipped, CancelledItem}
  }

  /** The two items may run in one operation: neither rewrites a file of the other. */
  ghost predicate Apart(a: Item, b: Item) {
    forall n :: !(n in a.files && n in b.files)
  }

  /** Every item has what a plan gives it. */
  ghost predicate WellPlanned(items: seq<PlannedItem>) {
    forall p :: p in items ==> Need(p.item) == p.candidateBytes && p.item.temporaryBytes == p.candidateBytes + p.margin
  }

  /** A run touches no name of a file it does not rewrite. */
  lemma LeavesOthersFresh(before: Files, after: Files, journals: Entries, id: JournalId,
                          operation: string, item: Item, parts: seq<Fingerprint>, orphan: Option<nat>,
                          names: seq<string>)
    requires Accounted(before, after, journals, id, operation, item, parts, orphan)
    requires Fresh(before, operation, names) && forall n :: !(n in item.files && n in names)
    ensures Fresh(after, operation, names)
  {
    if SingleTarget(item).Some? {
      assert SingleTarget(item).value.name == item.files[0];
    }
    forall n | n in names
      ensures Backup(n, operation) !in after && Candidate(n, operation) !in after
    {
      if SingleTarget(item).None? && item.format == USBExtreme && id in journals {
        assert !Own(Backup(n, operation), parts, operation) && !Own(Candidate(n, operation), parts, operation);
      }
    }
  }

  ghost predicate NoneIn(names: seq<string>, files: seq<string>) { forall n :: !(n in files && n in names) }

  /** What a result says of the item's own journal. */
  predicate Told(journals: Entries, id: JournalId, result: Result) {
    match result
    case Corrected => id in journals && journals[id].state == CleanupComplete
    case CancelledItem => id in journals ==> journals[id].state == AbortedUnchanged
    case Failed(code) => code in {SourceChanged, InsufficientSpace, StillFragmented, HashMismatch, StructureInvalid}
    case RecoveryNeeded(code) =>
      code !in {SourceChanged, InsufficientSpace, StillFragmented, HashMismatch, StructureInvalid}
    case Skipped => id !in journals
  }

  /** Why an item was not corrected, other than for a failing step. */
  ghost predicate ItemRefused(before: Answers, after: Answers, files: Files, free: int, item: Item,
                              parts: seq<Fingerprint>, operation: string, result: Result) {
    match result
    case Corrected => false
    case CancelledItem => Heard(before, after, Some(NotCancelled))
    case Failed(code) =>
      || (code == InsufficientSpace && free < item.temporaryBytes)
      || RunRefused(before, after, files, free, item, parts, operation, code)
    case RecoveryNeeded(code) => RunRefused(before, after, files, free, item, parts, operation, code)
    case Skipped => false
  }

  /** Space check, run and verdict for one item. */
  method RunItem(m: Device, id: JournalId, operation: string, p: PlannedItem, leq: (string, string) -> bool)
    returns (r: Outcome, result: Result, ghost parts: seq<Fingerprint>)
    requires id !in m.journals && Fresh(m.files, operation, p.item.files)
    modifies m`faults, m`files, m`ids, m`free, m`lowest, m`journals, m`answers
    ensures m.faults <= old(m.faults) && (r.Ok? || r.Crashed? || m.faults < old(m.faults))
    ensures OthersStay(old(m.journals), m.journals, id)
    ensures forall names :: Fresh(old(m.files), operation, names) && NoneIn(names, p.item.files) ==>
              Fresh(m.files, operation, names)
    ensures m.Space() == old(m.Space())
    ensures old(m.Quiet()) ==> r.Ok? && m.files == old(m.files)
    // the result is that of the item's own run, whose verdicts it gives
    ensures Extends(old(m.answers), m.answers)
    ensures r.Ok? ==>
              Told(m.journals, id, result) && result != Skipped && (result == CancelledItem ==> id in m.journals)
    ensures result == Corrected && r.Ok? ==>
              && RunHeeded(old(m.answers), m.answers, old(m.ids), m.ids, CleanupComplete, p.item, parts, operation)
              && OnDevice(old(m.answers), m.answers)
    ensures r.Ok? && old(m.free) < p.item.temporaryBytes ==>
              result == Failed(InsufficientSpace) && m.journals == old(m.journals) && m.files == old(m.files)
    ensures r.Ok? && result != Corrected && m.faults == old(m.faults) ==>
              ItemRefused(old(m.answers), m.answers, old(m.files), old(m.free), p.item, parts, operation, result)
    ensures old(m.Quiet()) && Runnable(old(m.files), old(m.free), p.item) && Heard(old(m.answers), m.answers, None) ==>
              result == Corrected
    ensures old(m.Quiet()) && Need(p.item) <= p.item.temporaryBytes <= old(m.free) ==> HadRoom(result)
    ensures m.lowest >= var least := old(m.free) - Need(p.item); if least < old(m.lowest) then least else old(m.lowest)
  {
    hide Heard, RunHeeded, RunRefused, Runnable, Extends, Accounted, Fresh, KeepsOriginals, OthersStay, OnDevice;
    result, parts := Corrected, [];
    ghost var asked := m.answers;
    NobodyAsked(asked, m.journals, id);
    r := m.Next();
    if !r.Ok? { return; }
    if m.free < p.item.temporaryBytes {
      result := Failed(InsufficientSpace);
      NoRoomToRun(m.files, m.free, p.item);
      return;
    }
    var outcome, modified;
    ghost var orphan;
    outcome, modified, parts, orphan := Execute(m, id, operation, p.item, leq);
    RunExtends(asked, m.answers, old(m.ids), m.ids, if id in m.journals then m.journals[id].state else Planned, p.item,
               parts, operation);
    forall names | Fresh(old(m.files), operation, names) && NoneIn(names, p.item.files)
      ensures Fresh(m.files, operation, names)
    {
      LeavesOthersFresh(old(m.files), m.files, m.journals, id, operation, p.item, parts, orphan, names);
    }
    if outcome.Thrown?
       && RunRefused(asked, m.answers, old(m.files), old(m.free), p.item, parts, operation, outcome.code)
       && Need(p.item) <= p.item.temporaryBytes <= old(m.free) {
      RefusedWithRoom(asked, m.answers, old(m.files), old(m.free), p.item, parts, operation, outcome.code);
    }
    match outcome
    case Crashed => r := Crashed;
    case Ok =>
      r, result := Ok, if m.journals[id].state == AbortedUnchanged then CancelledItem else Corrected;
      NoneRefused(asked, m.answers);
    case Thrown(code) => r, result := Ok, if SafeToContinue(code) then Failed(code) else RecoveryNeeded(code);
  }

  lemma NobodyAsked(answers: Answers, journals: Entries, id: JournalId)
    ensures Extends(answers, answers) && OthersStay(journals, journals, id)
  {
  }

  lemma NoRoomToRun(files: Files, free: int, item: Item)
    requires free < item.temporaryBytes
    ensures !Runnable(files, free, item)
  {
  }

  lemma NoneRefused(before: Answers, after: Answers)
    ensures Heard(before, after, Some(NotCancelled)) ==> !Heard(before, after, None)
  {
  }

  /** The item did not fail for lack of space. */
  predicate HadRoom(result: Result) {
    match result
    case Failed(code) => code in VALIDATION_FAILURES
    case RecoveryNeeded(code) => code in VALIDATION_FAILURES
    case _ => true
  }

  /** The item was not run because of a request to stop. */
  ghost predicate Withdrawn(journals: Entries, id: JournalId, result: Result) {
    result == CancelledItem && id !in journals
  }

  /** At its turn, when there were `turn` answers, an item was still wanted; or the batch had been
      told to stop by then. */
  ghost predicate HadTurn(before: Answers, after: Answers, withdrawn: bool, turn: nat) {
    if withdrawn then exists k :: |before| <= k <= turn && ToldToStop(after, k)
    else |before| <= turn < |after| && after[turn] == Wanted()
  }

  ghost predicate ToldToStop(answers: Answers, k: nat) {
    k < |answers| && answers[k].question == NotCancelled && !answers[k].yes
  }

  /** Every item had its turn, one after another, until the batch was told to stop. */
  ghost predicate InTurn(before: Answers, after: Answers, journals: Entries, ids: seq<JournalId>,
                         results: seq<Result>, turns: seq<nat>) {
    && |turns| == |results| <= |ids|
    && (forall i :: 0 <= i < |results| ==>
          HadTurn(before, after, Withdrawn(journals, ids[i], results[i]), turns[i]))
    && (forall i, j :: 0 <= i < j < |results| && !Withdrawn(journals, ids[j], results[j]) ==>
          turns[i] < turns[j] && !Withdrawn(journals, ids[i], results[i]))
  }

  /** No item has been withdrawn, and the last turn is over. */
  ghost predicate AllWanted(journals: Entries, ids: seq<JournalId>, results: seq<Result>, turns: seq<nat>, now: nat) {
    |turns| == |results| <= |ids| && forall i :: 0 <= i < |results| ==>
      turns[i] < now && !Withdrawn(journals, ids[i], results[i])
  }

  /** The turns so far, and whether the batch is to go on. */
  ghost predicate HeardSoFar(before: Answers, now: Answers, journals: Entries, ids: seq<JournalId>,
                             results: seq<Result>, turns: seq<nat>, wanted: bool) {
    && InTurn(before, now, journals, ids, results, turns)
    && if wanted then AllWanted(journals, ids, results, turns, |now|)
       else exists k :: |before| <= k < |now| && ToldToStop(now, k)
  }

  lemma OneMoreTurn(before: Answers, was: Answers, now: Answers, journals: Entries, journals': Entries,
                    ids: seq<JournalId>, results: seq<Result>, turns: seq<nat>, result: Result, wanted: bool,
                    wanted': bool)
    requires HeardSoFar(before, was, journals, ids, results, turns, wanted) && |results| < |ids|
    requires Extends(before, was) && Extends(was, now) && forall i, j :: 0 <= i < j < |ids| ==> ids[i] != ids[j]
    requires OthersStay(journals, journals', ids[|results|]) && (wanted' ==> wanted)
    requires wanted ==> |was| < |now| && now[|was|] == Answer(NotCancelled, 0, wanted')
    requires Withdrawn(journals', ids[|results|], result) <==> !wanted'
    ensures HeardSoFar(before, now, journals', ids, results + [result], turns + [|was|], wanted')
  {
    var all, n := results + [result], |results|;
    forall i | 0 <= i < n
      ensures Withdrawn(journals', ids[i], results[i]) <==> Withdrawn(journals, ids[i], results[i])
    {
      assert ids[i] != ids[n];
    }
    if !wanted' {
      if wanted {
        assert ToldToStop(now, |was|);
      } else {
        var k :| |before| <= k < |was| && ToldToStop(was, k);
        assert ToldToStop(now, k);
      }
    }
    forall i | 0 <= i < n ensures HadTurn(before, now, Withdrawn(journals', ids[i], all[i]), turns[i]) {
      assert HadTurn(before, was, Withdrawn(journals, ids[i], results[i]), turns[i]);
      if Withdrawn(journals, ids[i], results[i]) {
        var k :| |before| <= k <= turns[i] && ToldToStop(was, k);
        assert ToldToStop(now, k);
      }
    }
  }

  /** Each result so far is that of its own item: a run, a refusal to run for an earlier result that
      needs recovery, or a request to stop. */
  ghost predicate AllTold(journals: Entries, ids: seq<JournalId>, results: seq<Result>) {
    |results| <= |ids| && forall i :: 0 <= i < |results| ==>
      && Told(journals, ids[i], results[i])
      && (results[i] == Skipped ==> exists k :: 0 <= k < i && results[k].RecoveryNeeded?)
  }

  lemma OneMoreTold(journals: Entries, journals': Entries, ids: seq<JournalId>, results: seq<Result>, result: Result)
    requires AllTold(journals, ids, results) && |results| < |ids|
    requires forall i, j :: 0 <= i < j < |ids| ==> ids[i] != ids[j]
    requires OthersStay(journals, journals', ids[|results|]) && Told(journals', ids[|results|], result)
    requires result == Skipped ==> exists k :: 0 <= k < |results| && results[k].RecoveryNeeded?
    ensures AllTold(journals', ids, results + [result])
  {
    var all := results + [result];
    forall i | 0 <= i < |all|
      ensures Told(journals', ids[i], all[i])
      ensures all[i] == Skipped ==> exists k :: 0 <= k < i && all[k].RecoveryNeeded?
    {
      if i < |results| {
        assert all[i] == results[i] && (ids[i] in journals' <==> ids[i] in journals);
        if all[i] == Skipped {
          var k :| 0 <= k < i && results[k].RecoveryNeeded?;
          assert all[k].RecoveryNeeded?;
        }
      } else if all[i] == Skipped {
        var k :| 0 <= k < |results| && results[k].RecoveryNeeded?;
        assert all[k].RecoveryNeeded?;
      }
    }
  }

  /** The items after the `i`-th have not started. */
  ghost predicate Waiting(journals: Entries, files: Files, ids: seq<JournalId>, operation: string,
                          items: seq<PlannedItem>, i: nat)
    requires |ids| == |items|
  {
    forall k :: i <= k < |ids| ==> ids[k] !in journals && Fresh(files, operation, items[k].item.files)
  }

  ghost predicate AllApart(items: seq<PlannedItem>) {
    forall i, j :: 0 <= i < j < |items| ==> Apart(items[i].item, items[j].item)
  }

  /** One item of the batch: withdrawn, skipped or run. */
  method BatchStep(m: Device, ids: seq<JournalId>, operation: string, items: seq<PlannedItem>, i: nat,
                   leq: (string, string) -> bool, wanted: bool, unsafe: bool)
    returns (r: Outcome, result: Result, wanted': bool)
    requires i < |ids| == |items| && forall i, j :: 0 <= i < j < |ids| ==> ids[i] != ids[j]
    requires Waiting(m.journals, m.files, ids, operation, items, i)
    requires m.Quiet() || AllApart(items)
    modifies m`faults, m`files, m`ids, m`free, m`lowest, m`journals, m`answers
    ensures m.faults <= old(m.faults) && m.Space() == old(m.Space()) && Extends(old(m.answers), m.answers)
    ensures OthersStay(old(m.journals), m.journals, ids[i])
    ensures r.Ok? ==>
              && Told(m.journals, ids[i], result) && Waiting(m.journals, m.files, ids, operation, items, i + 1)
              && (wanted' ==> wanted) && (unsafe ==> result in {Skipped, CancelledItem})
              && (result == Skipped ==> unsafe)
              && (Withdrawn(m.journals, ids[i], result) <==> !wanted')
    // asked at the start of its turn whether it is still wanted
    ensures wanted && r.Ok? ==>
              |old(m.answers)| < |m.answers| && m.answers[|old(m.answers)|] == Answer(NotCancelled, 0, wanted')
    ensures old(m.Quiet()) ==> r.Ok? && m.files == old(m.files) && m.free == old(m.free)
    ensures old(m.Quiet()) && wanted && !unsafe && Heard(old(m.answers), m.answers, None)
              && Runnable(old(m.files), old(m.free), items[i].item) ==>
              result == Corrected && wanted'
    ensures old(m.Quiet()) && Need(items[i].item) <= items[i].item.temporaryBytes <= old(m.free) ==>
              HadRoom(result) && m.lowest >= old(m.free) - Need(items[i].item)
  {
    hide Heard, Extends, Runnable, Fresh, Told, Need;
    r, wanted', result := Ok, wanted, CancelledItem;
    m.lowest := m.free;
    ghost var start := m.answers;
    NobodyAsked(start, m.journals, ids[i]);
    NotRun(m.journals, ids[i]);
    if wanted {
      wanted' := m.Ask(NotCancelled);
      AskedOnce(start, m.answers, wanted');
    }
    if !wanted' { return; }
    if unsafe { return Ok, Skipped, wanted'; }
    ghost var asked, before := m.answers, m.files;
    ghost var parts;
    r, result, parts := RunItem(m, ids[i], operation, items[i], leq);
    AskedBefore(start, asked, m.answers);
    if !r.Ok? { return; }
    forall k | i + 1 <= k < |ids|
      ensures ids[k] !in m.journals && Fresh(m.files, operation, items[k].item.files)
    {
      if !old(m.Quiet()) { assert Apart(items[i].item, items[k].item); }
    }
  }

  lemma NotRun(journals: Entries, id: JournalId)
    ensures id !in journals ==> Told(journals, id, CancelledItem) && Told(journals, id, Skipped)
  {
  }

  lemma AskedOnce(before: Answers, after: Answers, yes: bool)
    requires Heard(before, after, if yes then None else Some(NotCancelled))
    ensures Extends(before, after) && (!yes ==> !Heard(before, after, None))
  {
  }

  lemma AskedBefore(a: Answers, b: Answers, c: Answers)
    requires Extends(a, b) && Extends(b, c)
    ensures Extends(a, c) && (Heard(a, c, None) ==> Heard(b, c, None))
    ensures |b| <= |c| && (|a| < |b| ==> c[|a|] == b[|a|])
  {
  }

  /** Results and free space are as promised so far. */
  ghost predicate AllHadRoom(items: seq<PlannedItem>, results: seq<Result>, lows: seq<int>) {
    |lows| == |results| <= |items| && forall k :: 0 <= k < |results| ==>
      lows[k] >= items[k].margin && HadRoom(results[k])
  }

  ghost predicate AllCorrected(results: seq<Result>) { forall k :: 0 <= k < |results| ==> results[k] == Corrected }

  ghost predicate AllRunnable(files: Files, free: int, items: seq<PlannedItem>) {
    forall p :: p in items ==> Runnable(files, free, p.item)
  }

  /** `lows` and `frees`: the least free space while each item had its turn, and the free
      space after it.  `turns`: how many answers there were when it began. */
  method ExecuteBatch(m: Device, ids: seq<JournalId>, operation: string, items: seq<PlannedItem>,
                      leq: (string, string) -> bool)
    returns (r: Outcome, results: seq<Result>, ghost lows: seq<int>, ghost frees: seq<int>, ghost turns: seq<nat>)
    requires |ids| == |items| && forall i, j :: 0 <= i < j < |ids| ==> ids[i] != ids[j]
    requires Waiting(m.journals, m.files, ids, operation, items, 0)
    requires m.Quiet() || AllApart(items)
    modifies m`faults, m`files, m`ids, m`free, m`lowest, m`journals, m`answers
    ensures |results| <= |items| && (r.Ok? ==> |results| == |items|)
    // every result is that of the item's own run, or says why there was none
    ensures r.Ok? ==>
              && AllTold(m.journals, ids, results)
              && InTurn(old(m.answers), m.answers, m.journals, ids, results, turns)
    ensures StopsWhenUnsafe(results)
    ensures m.Space() == old(m.Space())
    // undisturbed, and with the peak free at the start: no item fails for lack of space,
    // everything is free again after each item and no item dips into its margin
    ensures old(m.Quiet()) ==> r.Ok? && m.files == old(m.files) && m.free == old(m.free)
    ensures old(m.Quiet()) ==> |frees| == |results| && forall i :: 0 <= i < |results| ==> frees[i] == old(m.free)
    ensures old(m.Quiet()) && WellPlanned(items)
              && (forall p :: p in items ==> p.item.temporaryBytes <= old(m.free)) ==>
              AllHadRoom(items, results, lows)
    // and where each item is as diagnosed and no answer refuses, every item is corrected
    ensures old(m.Quiet()) && AllRunnable(old(m.files), old(m.free), items)
              && Heard(old(m.answers), m.answers, None) ==>
              AllCorrected(results)
  {
    hide Waiting, AllTold, Told, Extends, Heard, AllApart, Runnable, Need, InTurn, AllWanted, Withdrawn, HeardSoFar;
    results, lows, frees, turns := [], [], [], [];
    var wanted, unsafe := true, false;
    ghost var start := m.answers;
    NoneTold(start, m.journals, ids);
    for i := 0 to |items|
      invariant |results| == |lows| == |frees| == i && m.faults <= old(m.faults) && m.Space() == old(m.Space())
      invariant StopsWhenUnsafe(results) && Extends(start, m.answers)
      invariant unsafe <==> exists k :: 0 <= k < i && results[k].RecoveryNeeded?
      invariant Waiting(m.journals, m.files, ids, operation, items, i)
      invariant AllTold(m.journals, ids, results)
      invariant HeardSoFar(start, m.answers, m.journals, ids, results, turns, wanted)
      invariant old(m.Quiet()) ==>
                  m.files == old(m.files) && m.free == old(m.free) && forall k :: 0 <= k < i ==> frees[k] == old(m.free)
      invariant old(m.Quiet()) && WellPlanned(items)
                && (forall p :: p in items ==> p.item.temporaryBytes <= old(m.free)) ==>
                  AllHadRoom(items, results, lows)
      invariant old(m.Quiet()) && AllRunnable(old(m.files), old(m.free), items) && Heard(start, m.answers, None) ==>
                  AllCorrected(results) && wanted && !unsafe
    {
      assert items[i] in items;
      ghost var asked, journals, were := m.answers, m.journals, results;
      var result, wanted';
      r, result, wanted' := BatchStep(m, ids, operation, items, i, leq, wanted, unsafe);
      if !r.Ok? { return; }
      AskedOnward(start, asked, m.answers);
      OneMoreTold(journals, m.journals, ids, results, result);
      OneMoreTurn(start, asked, m.answers, journals, m.journals, ids, results, turns, result, wanted, wanted');
      results, lows, frees, turns := results + [result], lows + [m.lowest], frees + [m.free], turns + [|asked|];
      NeedRecovery(were, result);
      wanted, unsafe := wanted', unsafe || result.RecoveryNeeded?;
    }
    TurnsHeard(start, m.answers, m.journals, ids, results, turns, wanted);
    r := Ok;
  }

  lemma TurnsHeard(before: Answers, now: Answers, journals: Entries, ids: seq<JournalId>, results: seq<Result>,
                   turns: seq<nat>, wanted: bool)
    requires HeardSoFar(before, now, journals, ids, results, turns, wanted)
    ensures InTurn(before, now, journals, ids, results, turns)
  {
  }

  lemma NoneTold(answers: Answers, journals: Entries, ids: seq<JournalId>)
    ensures AllTold(journals, ids, []) && Extends(answers, answers)
    ensures HeardSoFar(answers, answers, journals, ids, [], [], true)
  {
  }

  lemma NeedRecovery(results: seq<Result>, result: Result)
    ensures (exists k :: 0 <= k < |results| + 1 && (results + [result])[k].RecoveryNeeded?)
            <==> (exists k :: 0 <= k < |results| && results[k].RecoveryNeeded?) || result.RecoveryNeeded?
  {
    var all := results + [result];
    if k :| 0 <= k < |results| && results[k].RecoveryNeeded? { assert all[k].RecoveryNeeded?; }
    if result.RecoveryNeeded? { assert all[|results|].RecoveryNeeded?; }
    if k :| 0 <= k < |all| && all[k].RecoveryNeeded? && k < |results| { assert results[k].RecoveryNeeded?; }
  }

  lemma AskedOnward(a: Answers, b: Answers, c: Answers)
    requires Extends(a, b) && Extends(b, c)
    ensures Extends(a, c) && (Heard(a, c, None) ==> Heard(a, b, None) && Heard(b, c, None))
  {
    if Heard(a, c, None) {
      forall k | |a| <= k < |b| ensures b[k].yes { assert c[k] == b[k]; }
    }
  }

  /** What an eligible game adds to a plan asks for what it takes plus its margin. */
  lemma OneMoreFits(before: Plan, game: Game)
    requires WellPlanned(before.items) && WellDiagnosed(game)
    ensures WellPlanned(before.With(Numbered(Assess(game, 0), |before.items|)).items)
  {
    hide WellDiagnosed, Need;
    if Assess(game, 0).Eligible? {
      AssessNumbered(game, |before.items|);
      PlannedNeed(game, |before.items|);
    }
  }

  lemma {:induction false} PlanIsWell(selected: seq<Game>, n: nat)
    requires n <= |selected| && forall g :: g in selected ==> WellDiagnosed(g)
    ensures WellPlanned(PlanUpTo(Verdicts(selected), n).items)
  {
    hide WellPlanned, WellDiagnosed, Numbered, Assess, Plan.With;
    if n > 0 {
      PlanIsWell(selected, n - 1);
      assert selected[n - 1] in selected;
      OneMoreFits(PlanUpTo(Verdicts(selected), n - 1), selected[n - 1]);
    } else {
      NoItems();
    }
  }

  lemma NoItems()
    ensures WellPlanned([])
  {
  }

  /** The plan made from well-diagnosed games: each item asks for what it takes plus its
      margin, and none for more than the peak. */
  lemma PlanFits(selected: seq<Game>)
    requires forall g :: g in selected ==> WellDiagnosed(g)
    ensures var plan := PlanUpTo(Verdicts(selected), |selected|);
            WellPlanned(plan.items) && forall p :: p in plan.items ==> p.item.temporaryBytes <= plan.peak
  {
    hide WellPlanned, WellDiagnosed, PlanUpTo;
    PlanIsWell(selected, |selected|);
    PeakIsLargestNeed(Verdicts(selected), |selected|);
  }

  /** A plan carried out: with its peak free at the start and nothing else going wrong no item
      fails for lack of space, all is free again after each item, none dips into its margin. */
  method ExecutePlan(m: Device, ids: seq<JournalId>, operation: string, selected: seq<Game>, plan: Plan,
                     leq: (string, string) -> bool)
    returns (results: seq<Result>, ghost lows: seq<int>, ghost frees: seq<int>, ghost turns: seq<nat>)
    requires plan == PlanUpTo(Verdicts(selected), |selected|) && forall g :: g in selected ==> WellDiagnosed(g)
    requires |ids| == |plan.items| && forall i, j :: 0 <= i < j < |ids| ==> ids[i] != ids[j]
    requires Waiting(m.journals, m.files, ids, operation, plan.items, 0)
    requires m.Quiet() && plan.peak <= m.free
    modifies m`faults, m`files, m`ids, m`free, m`lowest, m`journals, m`answers
    ensures |results| == |lows| == |frees| == |plan.items| && m.files == old(m.files)
    ensures AllTold(m.journals, ids, results)
    ensures InTurn(old(m.answers), m.answers, m.journals, ids, results, turns)
    ensures AllRunnable(old(m.files), old(m.free), plan.items) && Heard(old(m.answers), m.answers, None) ==>
              AllCorrected(results)
    ensures forall i :: 0 <= i < |results| ==>
              HadRoom(results[i]) && frees[i] == old(m.free) && lows[i] >= plan.items[i].margin
  {
    PlanFits(selected);
    var r;
    r, results, lows, frees, turns := ExecuteBatch(m, ids, operation, plan.items, leq);
  }
}
