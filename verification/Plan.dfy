/** Which games a plan repairs, in which order, and how much room it needs. */
module Planning {
  import opened Storage
  import opened Journal
  import opened Candidates
  import opened Repair
  import opened MultipartRun
  import opened Execution
  import opened Multipart
  import opened Recovery
  import opened Tracking
  import opened MultipartRecovery

  const MINIMUM_OPERATIONAL_MARGIN_BYTES: nat := 64 * 1024 * 1024

  /** Two per cent of the candidates, rounded up, but never less than the minimum. */
  function OperationalMargin(candidateBytes: nat): (margin: nat)
    ensures margin >= 67108864 && 50 * margin >= candidateBytes
    ensures margin == 67108864 || 50 * (margin - 1) < candidateBytes
  {
    var twoPerCent := (candidateBytes + 49) / 50;
    if twoPerCent < MINIMUM_OPERATIONAL_MARGIN_BYTES then MINIMUM_OPERATIONAL_MARGIN_BYTES else twoPerCent
  }

  /** A diagnosed file; size, digest and date are absent when they could not be read. */
  datatype GameFile = GameFile(
    name: string, ulCfg: bool, fragmented: bool, rewriteRequired: bool,
    size: Option<nat>, digest: Option<Bytes>, dated: bool)

  datatype GameState = Fragmented | PartiallyFragmented | OtherState

  datatype Game = Game(installation: string, format: Format, state: GameState, paths: seq<string>, files: seq<GameFile>)

  datatype Reason = IneligibleState | NoFragmentedFiles | SourceFingerprintMissing | SourceSizeMissing

  datatype PlannedItem = PlannedItem(installation: string, item: Item, candidateBytes: nat, margin: nat, order: nat)

  datatype Assessment = Eligible(planned: PlannedItem) | Excluded(installation: string, reason: Reason)

  function FragmentedFiles(files: seq<GameFile>): (chosen: seq<GameFile>)
    ensures forall f :: f in chosen <==> f in files && !f.ulCfg && f.fragmented
  {
    if files == [] then []
    else (if !files[0].ulCfg && files[0].fragmented then [files[0]] else []) + FragmentedFiles(files[1..])
  }

  function FirstUlCfg(files: seq<GameFile>): (found: Option<GameFile>)
    ensures found.Some? ==> found.value in files && found.value.ulCfg
  {
    if files == [] then None else if files[0].ulCfg then Some(files[0]) else FirstUlCfg(files[1..])
  }

  function Sized(files: seq<GameFile>): (chosen: seq<GameFile>)
    ensures forall f :: f in chosen <==> f in files && f.size.Some?
  {
    if files == [] then [] else (if files[0].size.Some? then [files[0]] else []) + Sized(files[1..])
  }

  function SizeSum(files: seq<GameFile>): nat {
    if files == [] then 0 else files[0].size.GetOr(0) + SizeSum(files[1..])
  }

  function FileNames(files: seq<GameFile>): (names: seq<string>)
    ensures |names| == |files| && forall i :: 0 <= i < |files| ==> names[i] == files[i].name
  {
    seq(|files|, i requires 0 <= i < |files| => files[i].name)
  }

  function Prints(files: seq<GameFile>): (prints: seq<Fingerprint>)
    requires forall f :: f in files ==> f.digest.Some?
    ensures |prints| == |files|
    ensures forall i :: 0 <= i < |files| ==> prints[i] == Fingerprint(files[i].name, files[i].digest.value)
  {
    seq(|files|, i requires 0 <= i < |files| =>
      assert files[i] in files; Fingerprint(files[i].name, files[i].digest.value))
  }

  /** Files a repair of `game` rewrites: the fragmented ones, and `ul.cfg` when asked. */
  function ToRewrite(game: Game): seq<GameFile> {
    var cfg := FirstUlCfg(game.files);
    FragmentedFiles(game.files)
    + if game.format == USBExtreme && cfg.Some? && cfg.value.rewriteRequired then [cfg.value] else []
  }

  /** Why `game` cannot be repaired, in the order of the checks. */
  function Obstacle(game: Game): Option<Reason> {
    var rewrite, sized := ToRewrite(game), Sized(game.files);
    if game.state == OtherState then Some(IneligibleState)
    else if rewrite == [] then Some(NoFragmentedFiles)
    else if exists f :: f in sized && (f.digest.None? || !f.dated) then Some(SourceFingerprintMissing)
    else if exists f :: f in rewrite && f.size.None? then Some(SourceSizeMissing)
    else None
  }

  /** The first `ul.cfg` of a set asks to be rewritten. */
  ghost predicate CfgAsks(game: Game, cfg: GameFile) {
    && game.format == USBExtreme && cfg.rewriteRequired
    && exists k :: 0 <= k < |game.files| && game.files[k] == cfg && cfg.ulCfg
                   && forall j :: 0 <= j < k ==> !game.files[j].ulCfg
  }

  /** The file has to be rewritten. */
  ghost predicate Needed(game: Game, f: GameFile) {
    f in game.files && ((!f.ulCfg && f.fragmented) || CfgAsks(game, f))
  }

  lemma {:induction false} FirstUlCfgIsFirst(files: seq<GameFile>)
    ensures FirstUlCfg(files).Some? <==> exists f :: f in files && f.ulCfg
    ensures FirstUlCfg(files).Some? ==>
              exists k :: 0 <= k < |files| && files[k] == FirstUlCfg(files).value && files[k].ulCfg
                          && forall j :: 0 <= j < k ==> !files[j].ulCfg
  {
    if files != [] && !files[0].ulCfg {
      FirstUlCfgIsFirst(files[1..]);
      if FirstUlCfg(files).Some? {
        var k :| 0 <= k < |files[1..]| && files[1..][k] == FirstUlCfg(files).value && files[1..][k].ulCfg
          && forall j :: 0 <= j < k ==> !files[1..][j].ulCfg;
        assert files[k + 1] == FirstUlCfg(files).value;
      }
    }
  }

  lemma RewriteIsNeeded(game: Game)
    ensures forall f :: f in ToRewrite(game) <==> Needed(game, f)
  {
    FirstUlCfgIsFirst(game.files);
    forall f ensures f in ToRewrite(game) <==> Needed(game, f) {
      if CfgAsks(game, f) {
        var k :| 0 <= k < |game.files| && game.files[k] == f && f.ulCfg
                 && forall j :: 0 <= j < k ==> !game.files[j].ulCfg;
        var found := FirstUlCfg(game.files);
        assert found.Some?;
        var n :| 0 <= n < |game.files| && game.files[n] == found.value && game.files[n].ulCfg
          && forall j :: 0 <= j < n ==> !game.files[j].ulCfg;
        assert n == k;
      }
    }
  }

  /** Which games are repaired: those found fragmented, with something to rewrite whose sizes are
      known, and every measured file with digest and date. */
  lemma EligibleIff(game: Game, order: nat)
    ensures Assess(game, order).Eligible? <==>
              && game.state in {Fragmented, PartiallyFragmented}
              && (exists f :: Needed(game, f))
              && (forall f :: Needed(game, f) ==> f.size.Some?)
              && (forall f :: f in game.files && f.size.Some? ==> f.digest.Some? && f.dated)
    ensures Assess(game, order).Excluded? ==>
              match Assess(game, order).reason
              case IneligibleState => game.state !in {Fragmented, PartiallyFragmented}
              case NoFragmentedFiles => forall f :: !Needed(game, f)
              case SourceFingerprintMissing =>
                exists f :: f in game.files && f.size.Some? && !(f.digest.Some? && f.dated)
              case SourceSizeMissing => exists f :: Needed(game, f) && f.size.None?
  {
    RewriteIsNeeded(game);
    hide Needed, FragmentedFiles, FirstUlCfg;
    var rewrite := ToRewrite(game);
    if rewrite != [] { assert rewrite[0] in rewrite; }
  }

  function Planned(game: Game, order: nat): PlannedItem
    requires Obstacle(game) == None
  {
    var rewrite, sized := ToRewrite(game), Sized(game.files);
    var bytes := SizeSum(rewrite);
    var margin := OperationalMargin(bytes);
    PlannedItem(game.installation,
                Item(game.format, game.paths, Prints(sized), FileNames(rewrite), bytes + margin),
                bytes, margin, order)
  }

  function Assess(game: Game, order: nat): Assessment {
    match Obstacle(game)
    case Some(reason) => Excluded(game.installation, reason)
    case None => Eligible(Planned(game, order))
  }

  /** A diagnosis that names each file once and measured what it hashed. */
  ghost predicate WellDiagnosed(game: Game) {
    && (forall i, j :: 0 <= i < j < |game.files| ==> game.files[i].name != game.files[j].name)
    && (forall f :: f in game.files && f.size.Some? && f.digest.Some? ==> f.size.value == |f.digest.value|)
  }

  lemma {:induction false} FindsPrint(files: seq<GameFile>, f: GameFile)
    requires f in files && (forall g :: g in files ==> g.digest.Some?)
    requires forall g :: g in files && g.name == f.name ==> g == f
    ensures Find(Prints(files), f.name) == Some(Fingerprint(f.name, f.digest.value))
  {
    assert Prints(files)[0].name == files[0].name;
    if files[0].name == f.name {
      assert files[0] in files;
    } else {
      assert Prints(files)[1..] == Prints(files[1..]);
      FindsPrint(files[1..], f);
    }
  }

  lemma {:induction false} SizeOfRewrite(prints: seq<Fingerprint>, rewrite: seq<GameFile>)
    requires forall f :: f in rewrite ==> f.size.Some? && f.digest.Some? && f.size.value == |f.digest.value|
    requires forall f :: f in rewrite ==> Find(prints, f.name) == Some(Fingerprint(f.name, f.digest.value))
    ensures SizeOf(prints, FileNames(rewrite)) == SizeSum(rewrite)
  {
    if rewrite != [] {
      assert rewrite[0] in rewrite;
      assert FileNames(rewrite)[1..] == FileNames(rewrite[1..]);
      SizeOfRewrite(prints, rewrite[1..]);
    }
  }

  /** The room a planned item asks for is exactly what its candidates will take, plus
      its margin; every file it rewrites has a fingerprint. */
  lemma PlannedNeed(game: Game, order: nat)
    requires WellDiagnosed(game) && Assess(game, order).Eligible?
    ensures var p := Assess(game, order).planned;
            && Need(p.item) == p.candidateBytes && p.item.temporaryBytes == p.candidateBytes + p.margin
            && p.margin == OperationalMargin(p.candidateBytes)
            && p.item.files != [] && forall n :: n in p.item.files ==> Find(p.item.fingerprints, n).Some?
  {
    var p := Assess(game, order).planned;
    var rewrite, sized := ToRewrite(game), Sized(game.files);
    forall f | f in rewrite
      ensures f.size.Some? && f.digest.Some? && Find(Prints(sized), f.name) == Some(Fingerprint(f.name, f.digest.value))
    {
      assert f in game.files && f in sized;
      forall g | g in sized && g.name == f.name ensures g == f {
        var i, j :| 0 <= i < |game.files| && 0 <= j < |game.files| && game.files[i] == f && game.files[j] == g;
      }
      FindsPrint(sized, f);
    }
    SizeOfRewrite(Prints(sized), rewrite);
    forall n | n in p.item.files ensures Find(p.item.fingerprints, n).Some? {
      var i :| 0 <= i < |rewrite| && FileNames(rewrite)[i] == n;
      assert rewrite[i] in rewrite;
    }
  }

  datatype Plan = Plan(items: seq<PlannedItem>, exclusions: seq<Assessment>, peak: int) {
    function With(a: Assessment): Plan {
      match a
      case Excluded(_, _) => this.(exclusions := exclusions + [a])
      case Eligible(p) =>
        this.(items := items + [p], peak := if peak < p.item.temporaryBytes then p.item.temporaryBytes else peak)
    }
  }

  /** The same assessment at position `order` of the plan. */
  function Numbered(a: Assessment, order: nat): Assessment {
    match a
    case Excluded(_, _) => a
    case Eligible(p) => Eligible(p.(order := order))
  }

  lemma AssessNumbered(game: Game, order: nat)
    ensures Assess(game, order) == Numbered(Assess(game, 0), order)
  {
  }

  function Verdicts(selected: seq<Game>): (verdicts: seq<Assessment>)
    ensures |verdicts| == |selected| && forall i :: 0 <= i < |selected| ==> verdicts[i] == Assess(selected[i], 0)
  {
    seq(|selected|, i requires 0 <= i < |selected| => Assess(selected[i], 0))
  }

  /** The plan after the first `n` verdicts. */
  function PlanUpTo(verdicts: seq<Assessment>, n: nat): Plan
    requires n <= |verdicts|
  {
    if n == 0 then Plan([], [], 0)
    else
      var before := PlanUpTo(verdicts, n - 1);
      before.With(Numbered(verdicts[n - 1], |before.items|))
  }

  /** `p` is the verdict on one of the first `n` selected games. */
  ghost predicate FromSelection(verdicts: seq<Assessment>, n: nat, p: PlannedItem) {
    exists i :: 0 <= i < n && i < |verdicts| && Numbered(verdicts[i], p.order) == Eligible(p)
  }

  /** Every selected game is decided exactly once, and items are numbered in the order
      they will run. */
  lemma {:induction false} PlanNumbersItems(verdicts: seq<Assessment>, n: nat)
    requires n <= |verdicts|
    ensures var plan := PlanUpTo(verdicts, n);
            && |plan.items| + |plan.exclusions| == n
            && (forall k :: 0 <= k < |plan.items| ==>
              plan.items[k].order == k && FromSelection(verdicts, n, plan.items[k]))
  {
    if n > 0 {
      PlanNumbersItems(verdicts, n - 1);
      var before, plan := PlanUpTo(verdicts, n - 1), PlanUpTo(verdicts, n);
      forall k | 0 <= k < |plan.items| ensures plan.items[k].order == k && FromSelection(verdicts, n, plan.items[k]) {
        if k < |before.items| {
          var i :| 0 <= i < n - 1 && Numbered(verdicts[i], before.items[k].order) == Eligible(before.items[k]);
        } else {
          assert Numbered(verdicts[n - 1], k) == Eligible(plan.items[k]);
        }
      }
    }
  }

  /** Which games are planned and which are left out, both in the order of the selection. */
  lemma {:induction false} PlanPicks(verdicts: seq<Assessment>, n: nat) returns (picked: seq<nat>, others: seq<nat>)
    requires n <= |verdicts|
    ensures Climbs(picked, n) && Climbs(others, n)
    ensures forall i :: 0 <= i < n ==>
              (i in picked <==> verdicts[i].Eligible?) && (i in others <==> verdicts[i].Excluded?)
    ensures Picked(verdicts, PlanUpTo(verdicts, n), picked, others)
  {
    hide Assess, Numbered;
    picked, others := [], [];
    if n > 0 {
      PlanNext(verdicts, n);
      hide PlanUpTo;
      var before := PlanUpTo(verdicts, n - 1);
      picked, others := PlanPicks(verdicts, n - 1);
      hide Picked;
      PickedNext(verdicts, n, picked, others);
      if verdicts[n - 1].Eligible? { picked := picked + [n - 1]; } else { others := others + [n - 1]; }
    }
  }

  /** The plan consists of these verdicts, the planned ones numbered from zero on. */
  ghost predicate Picked(verdicts: seq<Assessment>, plan: Plan, picked: seq<nat>, others: seq<nat>) {
    && |plan.items| == |picked| && |plan.exclusions| == |others|
    && (forall k :: 0 <= k < |picked| ==>
          picked[k] < |verdicts| && Eligible(plan.items[k]) == Numbered(verdicts[picked[k]], k))
    && (forall k :: 0 <= k < |others| ==> others[k] < |verdicts| && plan.exclusions[k] == verdicts[others[k]])
  }

  lemma PickedNext(verdicts: seq<Assessment>, n: nat, picked: seq<nat>, others: seq<nat>)
    requires 0 < n <= |verdicts| && Picked(verdicts, PlanUpTo(verdicts, n - 1), picked, others)
    ensures if verdicts[n - 1].Eligible? then Picked(verdicts, PlanUpTo(verdicts, n), picked + [n - 1], others)
            else Picked(verdicts, PlanUpTo(verdicts, n), picked, others + [n - 1])
  {
    PlanNext(verdicts, n);
    hide PlanUpTo, Numbered, Assess;
    var before, plan := PlanUpTo(verdicts, n - 1), PlanUpTo(verdicts, n);
    if verdicts[n - 1].Eligible? {
      forall k | 0 <= k < |picked| ensures plan.items[k] == before.items[k] {
        assert plan.items[..|before.items|][k] == before.items[k];
      }
    }
  }

  lemma PlanNext(verdicts: seq<Assessment>, n: nat)
    requires 0 < n <= |verdicts|
    ensures var before, plan := PlanUpTo(verdicts, n - 1), PlanUpTo(verdicts, n);
            if verdicts[n - 1].Eligible?
            then |plan.items| == |before.items| + 1 && plan.items[..|before.items|] == before.items
                 && Eligible(plan.items[|before.items|]) == Numbered(verdicts[n - 1], |before.items|)
                 && plan.exclusions == before.exclusions
            else plan.items == before.items && plan.exclusions == before.exclusions + [verdicts[n - 1]]
  {
  }

  /** Increasing numbers below `n`. */
  ghost predicate Climbs(numbers: seq<nat>, n: nat) {
    && (forall i :: 0 <= i < |numbers| ==> numbers[i] < n)
    && (forall i, j :: 0 <= i < j < |numbers| ==> numbers[i] < numbers[j])
  }

  /** The peak is the largest need of any one item. */
  lemma {:induction false} PeakIsLargestNeed(verdicts: seq<Assessment>, n: nat)
    requires n <= |verdicts|
    ensures var plan := PlanUpTo(verdicts, n);
            && (forall k :: 0 <= k < |plan.items| ==> plan.items[k].item.temporaryBytes <= plan.peak)
            && (plan.peak != 0 ==> exists k :: 0 <= k < |plan.items| && plan.items[k].item.temporaryBytes == plan.peak)
  {
    if n > 0 {
      PeakIsLargestNeed(verdicts, n - 1);
      var before, plan := PlanUpTo(verdicts, n - 1), PlanUpTo(verdicts, n);
      if before.peak == plan.peak {
        if plan.peak != 0 {
          var k :| 0 <= k < |before.items| && before.items[k].item.temporaryBytes == before.peak;
          assert plan.items[k] == before.items[k];
        }
      } else {
        assert plan.items[|before.items|].item.temporaryBytes == plan.peak;
      }
    }
  }

  /** The planning loop over the selected games; no plan when none is eligible. */
  method CreatePlan(selected: seq<Game>) returns (result: Option<Plan>)
    ensures var plan := PlanUpTo(Verdicts(selected), |selected|);
            result == if plan.items == [] then None else Some(plan)
  {
    hide Assess, Numbered, Plan.With, Verdicts;
    var plan := Plan([], [], 0);
    ghost var verdicts := Verdicts(selected);
    for i := 0 to |selected|
      invariant plan == PlanUpTo(verdicts, i)
    {
      var assessed := Assess(selected[i], |plan.items|);
      AssessNumbered(selected[i], |plan.items|);
      plan := plan.With(assessed);
    }
    result := if plan.items == [] then None else Some(plan);
  }

  // ---- The order of a diagnosed set.

  /** A USBExtreme game as the diagnosis lists it: parts by ascending number, which is also
      their order by name, then `ul.cfg`, then files that are never rewritten. */
  ghost predicate ListsSet(game: Game, parts: seq<GameFile>, cfg: GameFile, others: seq<GameFile>,
                           leq: (string, string) -> bool) {
    && game.format == USBExtreme && game.files == parts + [cfg] + others && cfg.ulCfg && cfg.name == UL_CFG
    && (forall f :: f in parts ==> !f.ulCfg && f.name != UL_CFG)
    && (forall f :: f in others ==> !f.ulCfg && !f.fragmented)
    && (forall i, j :: 0 <= i < j < |parts| ==> leq(parts[i].name, parts[j].name))
  }

  /** The files with one of the names, in their order. */
  function WithNames(files: seq<GameFile>, names: seq<string>): (chosen: seq<GameFile>)
    ensures forall f :: f in chosen <==> f in files && f.name in names
  {
    if files == [] then [] else (if files[0].name in names then [files[0]] else []) + WithNames(files[1..], names)
  }

  lemma {:induction false} FragmentedOfBoth(a: seq<GameFile>, b: seq<GameFile>)
    ensures FragmentedFiles(a + b) == FragmentedFiles(a) + FragmentedFiles(b)
    decreases |a|
  {
    if a == [] { assert a + b == b; } else { assert (a + b)[1..] == a[1..] + b; FragmentedOfBoth(a[1..], b); }
  }

  lemma {:induction false} SizedOfBoth(a: seq<GameFile>, b: seq<GameFile>)
    ensures Sized(a + b) == Sized(a) + Sized(b)
    decreases |a|
  {
    if a == [] { assert a + b == b; } else { assert (a + b)[1..] == a[1..] + b; SizedOfBoth(a[1..], b); }
  }

  lemma {:induction false} WithNamesOfBoth(a: seq<GameFile>, b: seq<GameFile>, names: seq<string>)
    ensures WithNames(a + b, names) == WithNames(a, names) + WithNames(b, names)
    decreases |a|
  {
    if a == [] { assert a + b == b; } else { assert (a + b)[1..] == a[1..] + b; WithNamesOfBoth(a[1..], b, names); }
  }

  lemma {:induction false} CfgIsFound(parts: seq<GameFile>, cfg: GameFile, others: seq<GameFile>)
    requires cfg.ulCfg && forall f :: f in parts ==> !f.ulCfg
    ensures FirstUlCfg(parts + [cfg] + others) == Some(cfg)
    decreases |parts|
  {
    var all := parts + [cfg] + others;
    if parts != [] {
      assert all[1..] == parts[1..] + [cfg] + others && parts[0] in parts;
      CfgIsFound(parts[1..], cfg, others);
    }
  }

  lemma {:induction false} NoneFragmented(files: seq<GameFile>)
    requires forall f :: f in files ==> !f.fragmented
    ensures FragmentedFiles(files) == []
  {
    if files != [] {
      assert files[0] in files;
      NoneFragmented(files[1..]);
    }
  }

  /** What is rewritten of such a game: fragmented parts in order, `ul.cfg` last. */
  lemma RewriteOfSet(game: Game, parts: seq<GameFile>, cfg: GameFile, others: seq<GameFile>,
                     leq: (string, string) -> bool)
    requires ListsSet(game, parts, cfg, others, leq)
    ensures ToRewrite(game) == FragmentedFiles(parts) + if cfg.rewriteRequired then [cfg] else []
  {
    FragmentedOfBoth(parts + [cfg], others);
    FragmentedOfBoth(parts, [cfg]);
    assert [cfg][1..] == [];
    NoneFragmented(others);
    CfgIsFound(parts, cfg, others);
  }

  lemma {:induction false} SortedStays(names: seq<string>, leq: (string, string) -> bool)
    requires forall i, j :: 0 <= i < j < |names| ==> GoesBefore(names[i], names[j], leq)
    ensures Ordered(names, leq) == names
  {
    if names != [] { SortedStays(names[1..], leq); }
  }

  /** Each file is related by name to each later one. */
  ghost predicate Related(files: seq<GameFile>, rel: (string, string) -> bool) {
    forall i, j :: 0 <= i < j < |files| ==> rel(files[i].name, files[j].name)
  }

  lemma RelatedTail(files: seq<GameFile>, rel: (string, string) -> bool)
    requires Related(files, rel) && files != []
    ensures Related(files[1..], rel) && forall f :: f in files[1..] ==> rel(files[0].name, f.name)
  {
  }

  lemma RelatedPrepend(f: GameFile, files: seq<GameFile>, rel: (string, string) -> bool)
    requires Related(files, rel) && forall k :: 0 <= k < |files| ==> rel(f.name, files[k].name)
    ensures Related([f] + files, rel)
  {
    var all := [f] + files;
    assert forall k :: 1 <= k < |all| ==> all[k] == files[k - 1];
    assert Related(all, rel);
  }

  lemma {:induction false} FragmentedRelated(files: seq<GameFile>, rel: (string, string) -> bool)
    requires Related(files, rel)
    ensures Related(FragmentedFiles(files), rel)
  {
    if files != [] {
      RelatedTail(files, rel);
      hide Related;
      FragmentedRelated(files[1..], rel);
      RelatedPrepend(files[0], FragmentedFiles(files[1..]), rel);
      assert [] + FragmentedFiles(files[1..]) == FragmentedFiles(files[1..]);
    }
  }

  lemma {:induction false} SizedRelated(files: seq<GameFile>, rel: (string, string) -> bool)
    requires Related(files, rel)
    ensures Related(Sized(files), rel)
  {
    if files != [] {
      RelatedTail(files, rel);
      hide Related;
      SizedRelated(files[1..], rel);
      RelatedPrepend(files[0], Sized(files[1..]), rel);
      assert [] + Sized(files[1..]) == Sized(files[1..]);
    }
  }

  lemma {:induction false} NamedAreFragmented(files: seq<GameFile>, names: seq<string>)
    requires forall f :: f in files ==> (f.name in names <==> !f.ulCfg && f.fragmented)
    requires forall f :: f in files && f.name in names ==> f.size.Some?
    ensures WithNames(Sized(files), names) == FragmentedFiles(files)
  {
    if files != [] {
      assert files[0] in files;
      NamedAreFragmented(files[1..], names);
      WithNamesOfBoth(if files[0].size.Some? then [files[0]] else [], Sized(files[1..]), names);
      assert [files[0]][1..] == [];
    }
  }

  lemma {:induction false} AffectedAreNamed(files: seq<GameFile>, names: seq<string>)
    requires names != [] && forall f :: f in files ==> f.digest.Some?
    ensures NamesOf(Affected(Prints(files), names)) == FileNames(WithNames(files, names))
  {
    if files != [] {
      hide NamesOf, FileNames;
      var prints, rest := Prints(files), files[1..];
      assert files[0] in files && prints[0].name == files[0].name;
      assert prints[1..] == Prints(rest);
      AffectedAreNamed(rest, names);
      var chosen, named := Affected(prints[1..], names), WithNames(rest, names);
      SameNamesPrepend(prints[0], files[0], prints[0].name in names, chosen, named);
    }
  }

  lemma SameNamesPrepend(p: Fingerprint, f: GameFile, chosen: bool, prints: seq<Fingerprint>, files: seq<GameFile>)
    requires p.name == f.name && NamesOf(prints) == FileNames(files)
    ensures NamesOf((if chosen then [p] else []) + prints) == FileNames((if chosen then [f] else []) + files)
  {
    if !chosen { assert [] + prints == prints && [] + files == files; }
  }

  /** The plan of such a game lists its fingerprints in the order of promotion. */
  lemma PlannedSetIsInOrder(game: Game, order: nat, parts: seq<GameFile>, cfg: GameFile, others: seq<GameFile>,
                            leq: (string, string) -> bool)
    requires WellDiagnosed(game) && Assess(game, order).Eligible? && ListsSet(game, parts, cfg, others, leq)
    ensures var item := Assess(game, order).planned.item;
            DistinctNames(item.fingerprints) && InPromotionOrder(item, leq)
  {
    var rewrite, sized, item := ToRewrite(game), Sized(game.files), Assess(game, order).planned.item;
    var names := FileNames(rewrite);
    RewriteOfSet(game, parts, cfg, others, leq);
    FragmentedRelated(parts, leq);
    SortedStays(names, leq);
    AffectedAreNamed(sized, names);
    NamedAreRewritten(game, parts, cfg, others, leq);
    SizedDistinct(game);
  }

  /** A planned item of any format names each file once. */
  lemma PlannedPrintsAreDistinct(game: Game, order: nat)
    requires WellDiagnosed(game) && Assess(game, order).Eligible?
    ensures DistinctNames(Assess(game, order).planned.item.fingerprints)
  {
    SizedDistinct(game);
  }

  lemma SizedDistinct(game: Game)
    requires WellDiagnosed(game) && Obstacle(game) == None
    ensures DistinctNames(Prints(Sized(game.files)))
  {
    var differ := (a: string, b: string) => a != b;
    assert Related(game.files, differ);
    SizedRelated(game.files, differ);
  }

  lemma NamedAreRewritten(game: Game, parts: seq<GameFile>, cfg: GameFile, others: seq<GameFile>,
                          leq: (string, string) -> bool)
    requires WellDiagnosed(game) && Obstacle(game) == None && ListsSet(game, parts, cfg, others, leq)
    ensures WithNames(Sized(game.files), FileNames(ToRewrite(game))) == ToRewrite(game)
  {
    hide FragmentedFiles, Sized, WithNames, Obstacle, FirstUlCfg;
    var rewrite, names := ToRewrite(game), FileNames(ToRewrite(game));
    RewriteOfSet(game, parts, cfg, others, leq);
    RewriteIsListed(game);
    forall f | f in game.files ensures f.name in names <==> f in rewrite { NamedIsListed(game, rewrite, f); }
    PiecesListed(game, parts, cfg, others, leq);
    SizedOfBoth(parts + [cfg], others);
    SizedOfBoth(parts, [cfg]);
    WithNamesOfBoth(Sized(parts) + Sized([cfg]), Sized(others), names);
    WithNamesOfBoth(Sized(parts), Sized([cfg]), names);
    NamedAreFragmented(parts, names);
    CfgNamed(cfg, names);
    NotNamed(others, names);
  }

  lemma RewriteIsListed(game: Game)
    requires Obstacle(game) == None
    ensures forall f :: f in ToRewrite(game) ==> f in game.files && f.size.Some?
  {
  }

  /** Of a listed set the fragmented parts are rewritten, `ul.cfg` if asked, nothing else. */
  lemma PiecesListed(game: Game, parts: seq<GameFile>, cfg: GameFile, others: seq<GameFile>,
                     leq: (string, string) -> bool)
    requires WellDiagnosed(game) && ListsSet(game, parts, cfg, others, leq)
    ensures cfg in game.files && (cfg in ToRewrite(game) <==> cfg.rewriteRequired)
    ensures forall f :: f in parts ==> f in game.files && (f in ToRewrite(game) <==> f.fragmented)
    ensures forall f :: f in others ==> f in game.files && f !in ToRewrite(game)
  {
    RewriteOfSet(game, parts, cfg, others, leq);
    var n := |parts|;
    assert game.files[n] == cfg;
    forall j, k | 0 <= j < n && 0 <= k < |others| ensures parts[j] != others[k] {
      assert game.files[j] == parts[j] && game.files[n + 1 + k] == others[k];
    }
  }

  lemma CfgNamed(cfg: GameFile, names: seq<string>)
    requires cfg.name in names ==> cfg.size.Some?
    ensures WithNames(Sized([cfg]), names) == if cfg.name in names then [cfg] else []
  {
    assert [cfg][1..] == [];
  }

  lemma {:induction false} NotNamed(files: seq<GameFile>, names: seq<string>)
    requires forall f :: f in files ==> f.name !in names
    ensures WithNames(Sized(files), names) == []
  {
    if files != [] {
      assert files[0] in files;
      NotNamed(files[1..], names);
      WithNamesOfBoth(if files[0].size.Some? then [files[0]] else [], Sized(files[1..]), names);
      assert [files[0]][1..] == [];
    }
  }

  lemma NamedIsListed(game: Game, rewrite: seq<GameFile>, f: GameFile)
    requires WellDiagnosed(game) && f in game.files && forall g :: g in rewrite ==> g in game.files
    ensures f.name in FileNames(rewrite) <==> f in rewrite
  {
    if f.name in FileNames(rewrite) {
      var i :| 0 <= i < |rewrite| && FileNames(rewrite)[i] == f.name;
      assert rewrite[i] in rewrite;
      var j, k :| 0 <= j < |game.files| && 0 <= k < |game.files| && game.files[j] == rewrite[i] && game.files[k] == f;
    }
    if f in rewrite {
      var i :| 0 <= i < |rewrite| && rewrite[i] == f;
      assert FileNames(rewrite)[i] == f.name;
    }
  }
}
