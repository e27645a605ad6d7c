/** `execute`: one planned item, single file or set, from the new journal on. */
module Execution {
  import opened Storage
  import opened Journal
  import opened Candidates
  import opened Repair
  import opened Multipart
  import opened MultipartRun

  /** Bytes of the files in `names` according to the fingerprints. */
  function SizeOf(fingerprints: seq<Fingerprint>, names: seq<string>): nat {
    if names == [] then 0
    else
      var size := match Find(fingerprints, names[0]) case Some(f) => |f.contents| case None => 0;
      size + SizeOf(fingerprints, names[1..])
  }

  lemma {:induction false} SizeOfInsert(fingerprints: seq<Fingerprint>, x: string, names: seq<string>,
                                        leq: (string, string) -> bool)
    ensures SizeOf(fingerprints, Insert(x, names, leq)) == SizeOf(fingerprints, [x] + names)
  {
    assert ([x] + names)[1..] == names;
    if names == [] || GoesBefore(x, names[0], leq) {
    } else {
      SizeOfInsert(fingerprints, x, names[1..], leq);
      assert ([x] + names[1..])[1..] == names[1..];
      assert Insert(x, names, leq)[1..] == Insert(x, names[1..], leq);
    }
  }

  lemma {:induction false} SizeOfOrdered(fingerprints: seq<Fingerprint>, names: seq<string>,
                                         leq: (string, string) -> bool)
    ensures SizeOf(fingerprints, Ordered(names, leq)) == SizeOf(fingerprints, names)
  {
    if names != [] {
      SizeOfOrdered(fingerprints, names[1..], leq);
      SizeOfInsert(fingerprints, names[0], Ordered(names[1..], leq), leq);
      assert ([names[0]] + Ordered(names[1..], leq))[1..] == Ordered(names[1..], leq);
    }
  }

  lemma {:induction false} SizeOfAppend(fingerprints: seq<Fingerprint>, names: seq<string>, more: seq<string>)
    ensures SizeOf(fingerprints, names + more) == SizeOf(fingerprints, names) + SizeOf(fingerprints, more)
  {
    if names == [] {
      assert names + more == more;
    } else {
      SizeOfAppend(fingerprints, names[1..], more);
      assert (names + more)[1..] == names[1..] + more;
    }
  }

  /** The checked sources take up no more than the whole selection. */
  lemma {:induction false} TotalWithinSelection(fingerprints: seq<Fingerprint>, names: seq<string>,
                                                parts: seq<Fingerprint>, k: nat)
    requires k <= |parts| <= |names|
    requires forall i :: 0 <= i < |parts| ==> Find(fingerprints, names[i]) == Some(parts[i])
    ensures Total(parts, k) == SizeOf(fingerprints, names[..k]) <= SizeOf(fingerprints, names)
  {
    SizeOfAppend(fingerprints, names[..k], names[k..]);
    assert names[..k] + names[k..] == names;
    if k > 0 {
      TotalWithinSelection(fingerprints, names, parts, k - 1);
      SizeOfAppend(fingerprints, names[..k - 1], [names[k - 1]]);
      assert names[..k] == names[..k - 1] + [names[k - 1]];
      assert [names[k - 1]][1..] == [];
    }
  }

  /** Bytes that the candidates of an item need. */
  function Need(item: Item): nat { SizeOf(item.fingerprints, item.files) }

  /** The file that a single-image item rewrites. */
  function SingleTarget(item: Item): Option<Fingerprint> {
    if (item.format == ISO
      || item.format == ZSO) && |item.files| == 1 then Find(item.fingerprints, item.files[0]) else None
  }

  /** Ways an undisturbed run with enough room may end in an error. */
  const VALIDATION_FAILURES: set<Code> :=
    {DeviceChanged, InvalidSelection, SourceChanged, NotFound, AlreadyExists, StructureInvalid, ZsoInvalid,
     ZsoIncomplete, StillFragmented, Cancelled}

  /** What the answers have decided by the end of a run: past the commit the files are new ones that
      were found contiguous, and nothing was refused. */
  ghost predicate RunHeeded(before: Answers, after: Answers, first: Ids<Path>, ids: Ids<Path>, state: State, item: Item,
                            parts: seq<Fingerprint>, operation: string) {
    match SingleTarget(item)
    case Some(t) => Heeded(before, after, first, ids, state, t.name, operation, t, item.format)
    case None =>
      if item.format == USBExtreme then SetHeeded(before, after, first, ids, state, parts, operation)
      else Extends(before, after)
  }

  /** Before the commit the original files are kept. */
  ghost predicate KeepsOriginals(before: Files, files: Files, first: Ids<Path>, ids: Ids<Path>, item: Item,
                                 parts: seq<Fingerprint>, operation: string) {
    match SingleTarget(item)
    case Some(t) =>
      Holds(before, File(t.name), t.contents) ==> Original(files, ids, t.name, operation, first.Of(File(t.name)))
    case None =>
      if item.format == USBExtreme then Originals(files, ids, parts, operation, first) else ids == first
  }

  /** Why a run rewrites nothing, other than for a failing step. */
  ghost predicate RunRefused(before: Answers, after: Answers, files: Files, free: int, item: Item,
                             parts: seq<Fingerprint>, operation: string, code: Code) {
    || (code == DeviceChanged && Heard(before, after, Some(SameDevice)))
    || match SingleTarget(item)
       case Some(t) => SingleRefused(before, after, files, free, t.name, operation, t, item, code)
       case None =>
         if item.format == USBExtreme then SetRefused(before, after, files, free, item, parts, operation, code)
         else code == if item.format in {ISO, ZSO} && |item.files| == 1 then SourceChanged else InvalidSelection
  }

  /** The files are as diagnosed and there is room for their candidates. */
  ghost predicate Runnable(files: Files, free: int, item: Item) {
    && item.temporaryBytes <= free && Need(item) <= free
    && match SingleTarget(item)
       case Some(t) => Holds(files, File(t.name), t.contents) && Flaw(t.contents, item.format) == None
       case None => item.format == USBExtreme && Replaceable(files, item)
  }

  /** With room and no failing step a run fails only for what it was told or found. */
  lemma RefusedWithRoom(before: Answers, after: Answers, files: Files, free: int, item: Item, parts: seq<Fingerprint>,
                        operation: string, code: Code)
    requires RunRefused(before, after, files, free, item, parts, operation, code)
    requires Need(item) <= item.temporaryBytes <= free
    requires SingleTarget(item).None? && item.format == USBExtreme ==> Total(parts, |parts|) <= Need(item)
    ensures code in VALIDATION_FAILURES
  {
    hide Heard, Flaw, PartRefused, RefusesCandidate, Diagnosed, SizeOf, Total;
    if SingleTarget(item).Some? { NeedOfOne(item); }
  }

  lemma NeedOfOne(item: Item)
    requires SingleTarget(item).Some?
    ensures Need(item) == |SingleTarget(item).value.contents|
  {
    assert item.files[1..] == [];
    assert SizeOf(item.fingerprints, item.files[1..]) == 0;
  }

  /** The first question was whether this still is the device of the plan, and it is. */
  ghost predicate OnDevice(before: Answers, after: Answers) {
    |before| < |after| && after[|before|] == Answer(SameDevice, 0, true)
  }

  /** The question about the device comes first and does not matter to the verdicts after it. */
  lemma OnceOnDevice(a: Answers, b: Answers, c: Answers, first: Ids<Path>, ids: Ids<Path>, state: State, files: Files,
                     free: int, item: Item, parts: seq<Fingerprint>, operation: string)
    requires b == a + [Answer(SameDevice, 0, true)] && Extends(b, c)
    ensures OnDevice(a, c)
    ensures RunHeeded(b, c, first, ids, state, item, parts, operation) ==>
              RunHeeded(a, c, first, ids, state, item, parts, operation)
    ensures forall code :: RunRefused(b, c, files, free, item, parts, operation, code) && code != DeviceChanged ==>
              RunRefused(a, c, files, free, item, parts, operation, code)
    ensures Heard(b, c, Some(NotCancelled)) ==> Heard(a, c, Some(NotCancelled))
    ensures Heard(a, c, None) ==> Heard(b, c, None)
    ensures Extends(a, c)
  {
    assert Heard(a, b, None);
    ExtendsBoth(a, b, c);
    HeardAfter(a, b, c, NotCancelled);
    HeardTail(a, b, c);
    match SingleTarget(item)
    case Some(t) => SingleAfter(a, b, c, first, ids, state, files, free, t, item, operation);
    case None => SetAfter(a, b, c, first, ids, state, files, free, item, parts, operation);
  }

  lemma ExtendsBoth(a: Answers, b: Answers, c: Answers)
    requires Heard(a, b, None) && Extends(b, c)
    ensures Extends(a, c)
  {
    HeardExtends(a, b, None);
  }

  lemma HeardAfter(a: Answers, b: Answers, c: Answers, q: Question<Path>)
    requires Heard(a, b, None)
    ensures Heard(b, c, Some(q)) ==> Heard(a, c, Some(q))
    ensures Heard(b, c, None) ==> Heard(a, c, None)
  {
    if Heard(b, c, Some(q)) { HeardBoth(a, b, c, Some(q)); }
    if Heard(b, c, None) { HeardBoth(a, b, c, None); }
  }

  lemma HeardTail(a: Answers, b: Answers, c: Answers)
    requires Heard(a, b, None) && Extends(b, c)
    ensures Heard(a, c, None) ==> Heard(b, c, None)
  {
  }

  lemma SingleAfter(a: Answers, b: Answers, c: Answers, first: Ids<Path>, ids: Ids<Path>, state: State, files: Files,
                    free: int, t: Fingerprint, item: Item, operation: string)
    requires Heard(a, b, None) && Extends(b, c) && Extends(a, c)
    ensures Heeded(b, c, first, ids, state, t.name, operation, t, item.format) ==>
              Heeded(a, c, first, ids, state, t.name, operation, t, item.format)
    ensures forall code :: SingleRefused(b, c, files, free, t.name, operation, t, item, code) ==>
              SingleRefused(a, c, files, free, t.name, operation, t, item, code)
  {
    var heard := Hearing(t.name, operation, first.Of(File(t.name)), ids.Of(File(t.name)));
    if EndsWith(b, c, heard) { EndsLater(a, b, c, heard); }
    HeardAfter(a, b, c, NotCancelled);
    HeardAfter(a, b, c, Unmodified(File(t.name)));
    HeardAfter(a, b, c, Contiguous(File(t.name)));
    HeardAfter(a, b, c, Contiguous(Candidate(t.name, operation)));
    hide Heard, EndsWith, Hearing, Flaw, Extends;
  }

  lemma SetAfter(a: Answers, b: Answers, c: Answers, first: Ids<Path>, ids: Ids<Path>, state: State, files: Files,
                 free: int, item: Item, parts: seq<Fingerprint>, operation: string)
    requires Heard(a, b, None) && Extends(b, c) && Extends(a, c)
    ensures SetHeeded(b, c, first, ids, state, parts, operation) ==>
              SetHeeded(a, c, first, ids, state, parts, operation)
    ensures forall code :: SetRefused(b, c, files, free, item, parts, operation, code) ==>
              SetRefused(a, c, files, free, item, parts, operation, code)
  {
    PartsAfter(a, b, c, parts);
    var heard := SetHearing(parts, operation, ids);
    if EndsWith(b, c, heard) { EndsLater(a, b, c, heard); }
    forall i | 0 <= i < |parts| && RefusesCandidate(b, c, parts[i], operation)
      ensures RefusesCandidate(a, c, parts[i], operation)
    {
      HeardAfter(a, b, c, Contiguous(Candidate(parts[i].name, operation)));
    }
    hide Heard, EndsWith, SetHearing, PartRefused, Extends, SelectionRefusal;
  }

  /** What the journal and the device say about each other after a run. */
  ghost predicate Accounted(before: Files, after: Files, journals: Entries, id: JournalId,
                            operation: string, item: Item, parts: seq<Fingerprint>, orphan: Option<nat>) {
    if id !in journals then after == before
    else
      && journals[id].operation == operation && journals[id].fingerprints == item.fingerprints
      && match SingleTarget(item)
         case Some(t) =>
           && Announces(journals[id], [t.name])
           && (journals[id].backups == [] || journals[id].backups == [Backup(t.name, operation)])
           && (journals[id].candidates == [] || journals[id].candidates == [Candidate(t.name, operation)])
           && SameExcept(before, after, Touched(t.name, operation))
           && (Holds(before, File(t.name), t.contents) ==>
             Sound(after, journals[id].state, t.name, operation, t.contents))
           && (!Holds(before, File(t.name), t.contents) ==> after == before && journals[id].state == Planned)
         case None =>
           if item.format == USBExtreme
           then (forall i :: 0 <= i < |parts| ==> parts[i].name in item.files)
                && SameOthers(before, after, parts, operation) && RecordsSet(journals[id], parts, operation)
                && SoundSet(after, journals[id].state, parts, operation, orphan)
                && (orphan.Some? ==> journals[id].backups == [])
           else after == before && journals[id].state == Planned
  }

  /** Before a single-image repair: its names are free, and its original is safe. */
  lemma FreshTarget(files: Files, operation: string, item: Item)
    requires Fresh(files, operation, item.files) && SingleTarget(item).Some?
    ensures var t := SingleTarget(item).value;
            && Candidate(t.name, operation) !in files && Backup(t.name, operation) !in files
            && Need(item) == |t.contents|
  {
    assert item.files[0] in item.files && item.files[1..] == [];
    assert SizeOf(item.fingerprints, item.files[1..]) == 0;
  }

  lemma StartIsAccounted(files: Files, journals: Entries, id: JournalId, operation: string, item: Item)
    requires Fresh(files, operation, item.files)
    requires id in journals ==>
               && journals[id].operation == operation && journals[id].fingerprints == item.fingerprints
               && journals[id].state == Planned && journals[id].backups == [] && journals[id].candidates == []
               && journals[id].intents == []
    ensures Accounted(files, files, journals, id, operation, item, [], None)
  {
    HomeIsSound(files, [], operation, Planned, None);
    if SingleTarget(item).Some? { FreshTarget(files, operation, item); }
  }

  lemma SetIsAccounted(
    before: Files, after: Files, journals: Entries, id: JournalId, operation: string,
    item: Item, parts: seq<Fingerprint>, orphan: Option<nat>, leq: (string, string) -> bool)
    requires item.format == USBExtreme && InOrder(parts, item, leq) && id in journals
    requires journals[id].operation == operation && journals[id].fingerprints == item.fingerprints
    requires SameOthers(before, after, parts, operation) && RecordsSet(journals[id], parts, operation)
    requires SoundSet(after, journals[id].state, parts, operation, orphan)
    requires orphan.Some? ==> journals[id].backups == []
    ensures Accounted(before, after, journals, id, operation, item, parts, orphan)
    ensures Total(parts, |parts|) <= Need(item)
  {
    hide SoundSet, RecordsSet, SameOthers, Find;
    SizeOfOrdered(item.fingerprints, item.files, leq);
    InOrderIsSelected(parts, item, leq);
    TotalWithinSelection(item.fingerprints, Ordered(item.files, leq), parts, |parts|);
  }

  /** Before anything is asked. */
  lemma NothingToldYet(answers: Answers, ids: Ids<Path>, files: Files, item: Item, parts: seq<Fingerprint>,
                       operation: string)
    requires Fresh(files, operation, item.files)
    ensures Extends(answers, answers)
    ensures RunHeeded(answers, answers, ids, ids, Planned, item, parts, operation)
    ensures parts == [] ==> KeepsOriginals(files, files, ids, ids, item, parts, operation)
  {
  }

  lemma NoDeviceRefusal(item: Item, operation: string)
    ensures forall before, after, files, free, name, t ::
              !SingleRefused(before, after, files, free, name, operation, t, item, DeviceChanged)
  {
  }

  /** A run over anything but a set: one image, or a refusal. */
  method ExecuteImage(m: Device, id: JournalId, operation: string, item: Item, entry: Entry)
    returns (r: Outcome, modified: seq<string>)
    requires id in m.journals && m.journals[id] == entry && entry.state == Planned && entry.backups == []
    requires entry.candidates == []
    requires entry.intents == []
    requires entry.operation == operation && entry.fingerprints == item.fingerprints
    requires item.format != USBExtreme && Fresh(m.files, operation, item.files)
    modifies m`faults, m`files, m`ids, m`free, m`lowest, m`journals, m`answers
    ensures m.faults <= old(m.faults)
    ensures OnlyEntry(old(m.journals), m.journals, id)
    ensures Accounted(old(m.files), m.files, m.journals, id, operation, item, [], None)
    ensures r.Ok? || (r.Thrown? && old(m.Quiet())) ==> m.files == old(m.files)
    ensures r.Ok? ==> m.journals[id].state == if modified == [] then AbortedUnchanged else CleanupComplete
    ensures r.Ok? ==> modified == [] || modified == item.files
    ensures m.Space() == old(m.Space())
    ensures m.lowest >= var least := old(m.free) - Need(item); if least < old(m.lowest) then least else old(m.lowest)
    // what the answers decide: past the commit the files are new ones found contiguous, before it
    // the original files are kept; a refusal has its reason, and without one the item is rewritten
    ensures RunHeeded(old(m.answers), m.answers, old(m.ids), m.ids, m.journals[id].state, item, [], operation)
    ensures !PastCommit(m.journals[id].state) ==>
              KeepsOriginals(old(m.files), m.files, old(m.ids), m.ids, item, [], operation)
    ensures m.journals[id].state != Planned ==> item.temporaryBytes <= old(m.free)
    ensures r.Ok? && modified == [] ==> Heard(old(m.answers), m.answers, Some(NotCancelled))
    ensures r.Thrown? ==>
              || (r.code in {IoError, InvalidJournalTransition} && m.faults < old(m.faults))
              || RunRefused(old(m.answers), m.answers, old(m.files), old(m.free), item, [], operation, r.code)
    ensures old(m.Quiet()) && Runnable(old(m.files), old(m.free), item) && Heard(old(m.answers), m.answers, None) ==>
              r.Ok? && modified == item.files
    ensures r != Thrown(DeviceChanged)
    ensures r.Crashed? ==> m.crashes
    ensures old(m.faults) == 0 && SingleTarget(item).Some? ==> m.journals[id].state != RecoveryPending
  {
    hide Sound, SoundSet, SameOthers, RecordsSet, SizeOf, Fresh, Find, OnlyEntry, Heard, Heeded, Original, Flaw;
    hide Extends, SameIds, SingleRefused;
    modified := [];
    NoOtherEntry(m.journals, id);
    NothingToldYet(m.answers, m.ids, m.files, item, [], operation);
    NoDeviceRefusal(item, operation);
    if !(item.format == ISO || item.format == ZSO) || |item.files| != 1 { return Thrown(InvalidSelection), []; }
    var expected := Find(item.fingerprints, item.files[0]);
    if expected.None? { return Thrown(SourceChanged), []; }
    FreshTarget(m.files, operation, item);
    assert item.files == [item.files[0]];
    r, modified := ExecuteSingle(m, id, expected.value.name, operation, expected.value, item, entry);
    HasEntry(old(m.journals), m.journals, id);
  }

  /** The repair of a set, in the words of `execute`. */
  method ExecuteSet(m: Device, id: JournalId, operation: string, item: Item, leq: (string, string) -> bool,
                    entry: Entry)
    returns (r: Outcome, modified: seq<string>, ghost parts: seq<Fingerprint>, ghost orphan: Option<nat>)
    requires id in m.journals && m.journals[id] == entry && entry.state == Planned && entry.backups == []
    requires entry.candidates == [] && entry.intents == []
    requires entry.operation == operation && entry.fingerprints == item.fingerprints
    requires item.format == USBExtreme && Fresh(m.files, operation, item.files)
    modifies m`faults, m`files, m`ids, m`free, m`lowest, m`journals, m`answers
    ensures m.faults <= old(m.faults)
    ensures OnlyEntry(old(m.journals), m.journals, id)
    ensures Accounted(old(m.files), m.files, m.journals, id, operation, item, parts, orphan)
    ensures UlCfgLast(NamesOf(parts)) && InOrder(parts, item, leq) && Total(parts, |parts|) <= Need(item)
    ensures !Early(m.journals[id].state) ==> NamesOf(parts) == Ordered(item.files, leq)
    ensures r.Ok? || (r.Thrown? && old(m.Quiet())) ==> m.files == old(m.files)
    ensures r.Ok? ==> m.journals[id].state == if modified == [] then AbortedUnchanged else CleanupComplete
    ensures r.Ok? ==> modified == [] || multiset(modified) == multiset(item.files)
    ensures m.Space() == old(m.Space())
    ensures m.lowest >= var least := old(m.free) - Need(item); if least < old(m.lowest) then least else old(m.lowest)
    ensures RunHeeded(old(m.answers), m.answers, old(m.ids), m.ids, m.journals[id].state, item, parts, operation)
    ensures !PastCommit(m.journals[id].state) ==>
              KeepsOriginals(old(m.files), m.files, old(m.ids), m.ids, item, parts, operation)
    ensures m.journals[id].state != Planned ==> item.temporaryBytes <= old(m.free)
    ensures r.Ok? && modified == [] ==> Heard(old(m.answers), m.answers, Some(NotCancelled))
    ensures r.Thrown? ==>
              || (r.code in {IoError, InvalidJournalTransition} && m.faults < old(m.faults))
              || (r.code != DeviceChanged
                  && RunRefused(old(m.answers), m.answers, old(m.files), old(m.free), item, parts, operation, r.code))
    ensures old(m.Quiet()) && Runnable(old(m.files), old(m.free), item) && Heard(old(m.answers), m.answers, None) ==>
              r.Ok? && modified == Ordered(item.files, leq)
    ensures r.Crashed? ==> m.crashes
  {
    hide Ordered, SizeOf, Fresh, Accounted, SoundSet, RecordsSet, SameOthers, InOrder, Need, OnlyEntry, Extends;
    hide RunHeeded, KeepsOriginals, RunRefused, Runnable, Heard, SetHeeded, SetRefused, Originals, Replaceable;
    hide SameOtherIds, UlCfgLast, Total, NamesOf;
    r, modified, parts, orphan := ExecuteMultipart(m, id, operation, item, leq, entry);
    HasEntry(old(m.journals), m.journals, id);
    SetIsAccounted(old(m.files), m.files, m.journals, id, operation, item, parts, orphan, leq);
    SetIsRun(old(m.answers), m.answers, old(m.files), m.files, old(m.free), old(m.ids), m.ids, m.journals[id].state,
             item, parts, operation);
  }

  lemma NoOtherEntry(journals: Entries, id: JournalId)
    requires id in journals
    ensures OnlyEntry(journals, journals, id)
  {
  }

  /** No journal but `id` has changed. */
  ghost predicate OthersStay(before: Entries, after: Entries, id: JournalId) {
    forall k :: k != id ==> (k in after <==> k in before) && (k in after ==> after[k] == before[k])
  }

  /** `execute`: the new journal, the device check, and the repair of an image or of a set. */
  method Execute(m: Device, id: JournalId, operation: string, item: Item, leq: (string, string) -> bool)
    returns (r: Outcome, modified: seq<string>, ghost parts: seq<Fingerprint>, ghost orphan: Option<nat>)
    requires Fresh(m.files, operation, item.files) && id !in m.journals
    modifies m`faults, m`files, m`ids, m`free, m`lowest, m`journals, m`answers
    ensures m.faults <= old(m.faults)
    ensures OthersStay(old(m.journals), m.journals, id)
    // wherever the run stopped, every original survives in the place the journal says
    ensures Accounted(old(m.files), m.files, m.journals, id, operation, item, parts, orphan)
    ensures item.format == USBExtreme ==> UlCfgLast(NamesOf(parts)) && InOrder(parts, item, leq)
    ensures item.format == USBExtreme && id in m.journals && !Early(m.journals[id].state) ==>
              NamesOf(parts) == Ordered(item.files, leq)
    // a run that succeeds, and an undisturbed run that fails, leave the device as it was
    ensures r.Ok? || (r.Thrown? && old(m.Quiet())) ==> m.files == old(m.files)
    ensures r.Ok? ==>
              id in m.journals && m.journals[id].state == if modified == [] then AbortedUnchanged else CleanupComplete
    ensures r.Ok? ==> modified == [] || multiset(modified) == multiset(item.files)
    // what is free and what is used always add up; the dip is never more than the candidates
    ensures m.Space() == old(m.Space())
    ensures m.lowest >= var least := old(m.free) - Need(item); if least < old(m.lowest) then least else old(m.lowest)
    // what the answers decide: past the commit the files are new ones found contiguous, before it
    // the original files are kept; a refusal has its reason, and without one the item is rewritten
    ensures RunHeeded(old(m.answers), m.answers, old(m.ids), m.ids,
                      if id in m.journals then m.journals[id].state else Planned, item, parts, operation)
    ensures !(id in m.journals && PastCommit(m.journals[id].state)) ==>
              KeepsOriginals(old(m.files), m.files, old(m.ids), m.ids, item, parts, operation)
    ensures id in m.journals && m.journals[id].state != Planned ==> OnDevice(old(m.answers), m.answers)
    ensures id in m.journals && m.journals[id].state != Planned ==> item.temporaryBytes <= old(m.free)
    ensures r.Ok? && modified == [] ==> Heard(old(m.answers), m.answers, Some(NotCancelled))
    ensures r.Thrown? ==>
              || (r.code in {IoError, InvalidJournalTransition} && m.faults < old(m.faults))
              || RunRefused(old(m.answers), m.answers, old(m.files), old(m.free), item, parts, operation, r.code)
    ensures old(m.Quiet()) && Runnable(old(m.files), old(m.free), item) && Heard(old(m.answers), m.answers, None) ==>
              r.Ok? && modified == if item.format == USBExtreme then Ordered(item.files, leq) else item.files
    ensures item.format == USBExtreme ==> Total(parts, |parts|) <= Need(item)
    ensures r.Crashed? ==> m.crashes
    ensures old(m.faults) == 0 && id in m.journals && SingleTarget(item).Some? ==>
              m.journals[id].state != RecoveryPending
  {
    hide Ordered, SizeOf, Fresh, Accounted, SoundSet, RecordsSet, SameOthers, InOrder, Need, OnlyEntry, OthersStay;
    hide RunHeeded, KeepsOriginals, RunRefused, Runnable, Heard, Extends, SetHeeded, SetRefused, Originals, Replaceable;
    hide SameOtherIds, UlCfgLast, Total, NamesOf, PastCommit, OnDevice;
    modified, parts, orphan := [], [], None;
    ghost var start, ids := m.answers, m.ids;
    NoPartsInOrder(item, leq);
    StartIsAccounted(m.files, m.journals, id, operation, item);
    NothingToldYet(start, ids, m.files, item, [], operation);
    var entry;
    r, entry := Create(m, id, operation, item.fingerprints);
    ghost var created := m.journals;
    NoOtherChange(old(m.journals), id, entry);
    if !r.Ok? { return; }
    StartIsAccounted(m.files, created, id, operation, item);
    r := m.Next();
    if !r.Ok? { return; }
    var sameDevice := m.Ask(SameDevice);
    DeviceDecides(start, m.answers, m.files, old(m.free), ids, item, operation, sameDevice);
    if !sameDevice { return Thrown(DeviceChanged), [], [], None; }
    ghost var asked := m.answers;
    if item.format == USBExtreme {
      r, modified, parts, orphan := ExecuteSet(m, id, operation, item, leq, entry);
      HasEntry(created, m.journals, id);
      OthersStillStay(old(m.journals), created, m.journals, id);
    } else {
      r, modified := ExecuteImage(m, id, operation, item, entry);
      HasEntry(created, m.journals, id);
      OthersStillStay(old(m.journals), created, m.journals, id);
    }
    RunExtends(asked, m.answers, ids, m.ids, m.journals[id].state, item, parts, operation);
    OnceOnDevice(start, asked, m.answers, ids, m.ids, m.journals[id].state, old(m.files), old(m.free), item, parts,
                 operation);
  }

  lemma DeviceDecides(before: Answers, after: Answers, files: Files, free: int, ids: Ids<Path>, item: Item,
                      operation: string, yes: bool)
    requires Heard(before, after, if yes then None else Some(SameDevice)) && Fresh(files, operation, item.files)
    ensures Extends(before, after)
    ensures !yes ==>
              && RunHeeded(before, after, ids, ids, Planned, item, [], operation) && !Heard(before, after, None)
              && RunRefused(before, after, files, free, item, [], operation, DeviceChanged)
  {
    hide Flaw;
  }

  /** The verdicts of a set as those of the run. */
  lemma SetIsRun(before: Answers, after: Answers, base: Files, files: Files, free: int, first: Ids<Path>,
                 ids: Ids<Path>, state: State, item: Item, parts: seq<Fingerprint>, operation: string)
    requires item.format == USBExtreme
    ensures SetHeeded(before, after, first, ids, state, parts, operation) ==>
              RunHeeded(before, after, first, ids, state, item, parts, operation) && Extends(before, after)
    ensures Originals(files, ids, parts, operation, first) ==>
              KeepsOriginals(base, files, first, ids, item, parts, operation)
    ensures forall code :: SetRefused(before, after, base, free, item, parts, operation, code) ==>
              RunRefused(before, after, base, free, item, parts, operation, code) && code != DeviceChanged
    ensures Runnable(base, free, item) ==>
              Replaceable(base, item) && item.temporaryBytes <= free && Need(item) <= free
  {
    hide Heard, EndsWith, SetHearing, Extends, Originals;
  }

  lemma RunExtends(before: Answers, after: Answers, first: Ids<Path>, ids: Ids<Path>, state: State, item: Item,
                   parts: seq<Fingerprint>, operation: string)
    ensures RunHeeded(before, after, first, ids, state, item, parts, operation) ==> Extends(before, after)
  {
    hide EndsWith, Hearing, SetHearing, Flaw, Heard, Extends;
  }

  lemma NoPartsInOrder(item: Item, leq: (string, string) -> bool)
    ensures InOrder([], item, leq) && UlCfgLast(NamesOf([])) && Total([], 0) == 0
  {
  }

  lemma NoOtherChange(journals: Entries, id: JournalId, entry: Entry)
    ensures OthersStay(journals, journals, id) && OthersStay(journals, journals[id := entry], id)
  {
  }

  lemma OthersStillStay(before: Entries, created: Entries, after: Entries, id: JournalId)
    requires OthersStay(before, created, id) && OnlyEntry(created, after, id)
    ensures OthersStay(before, after, id) && id in after
  {
  }
}
