/** Which files get a new name: the audit's classification, with its collision groups,
    and the plan made from it. */
module NamingPlans {
  import opened Storage
  import opened Renames

  /** A file as the audit meets it.  `canonical` is the name its game id and title give it,
      when it has a game id. */
  datatype Candidate = Candidate(path: string, extension: string, canonical: Option<string>)

  datatype Classification = Unsupported | MissingId | Canonical | Correctable | Collision

  datatype Item = Item(path: string, target: Option<string>, classification: Classification)

  function Lower(c: char): char { if 'A' <= c <= 'Z' then ((c as int) + 32) as char else c }

  function LowerCase(s: string): string { seq(|s|, i requires 0 <= i < |s| => Lower(s[i])) }

  /** Everything before the last separator. */
  function Directory(path: string): string {
    if path == [] then []
    else if path[|path| - 1] == '/' || path[|path| - 1] == '\\' then Slashes(path[..|path| - 1])
    else Directory(path[..|path| - 1])
  }

  function Slashes(path: string): string {
    seq(|path|, i requires 0 <= i < |path| => if path[i] == '\\' then '/' else path[i])
  }

  /** The directory of a file: what stands before the last separator, with slashes only. */
  lemma DirectoryMeans(directory: string, separator: char, base: string)
    requires separator in {'/', '\\'} && '/' !in base && '\\' !in base
    ensures Directory(base) == ""
    ensures var found := Directory(directory + [separator] + base);
            |found| == |directory| && forall i :: 0 <= i < |directory| ==>
              found[i] == if directory[i] == '\\' then '/' else directory[i]
  {
    NoSeparator(base);
    LastSeparator(directory, separator, base);
  }

  lemma {:induction false} NoSeparator(base: string)
    requires '/' !in base && '\\' !in base
    ensures Directory(base) == ""
  {
    if base != [] {
      assert base[|base| - 1] in base;
      NoSeparator(base[..|base| - 1]);
    }
  }

  lemma {:induction false} LastSeparator(directory: string, separator: char, base: string)
    requires separator in {'/', '\\'} && '/' !in base && '\\' !in base
    ensures Directory(directory + [separator] + base) == Slashes(directory)
    decreases |base|
  {
    var path := directory + [separator] + base;
    if base == [] {
      assert path[..|path| - 1] == directory;
    } else {
      var shorter := base[..|base| - 1];
      assert base[|base| - 1] in base && path[|path| - 1] == base[|base| - 1];
      assert path[..|path| - 1] == directory + [separator] + shorter;
      LastSeparator(directory, separator, shorter);
    }
  }

  /** The same letters, whatever their case; `small` has small letters only. */
  ghost predicate SameLetters(s: string, small: string) {
    |s| == |small| && forall i :: 0 <= i < |s| ==>
      s[i] == small[i] || ('A' <= s[i] <= 'Z' && s[i] as int + 32 == small[i] as int)
  }

  /** What an item by itself is: an image or not, identified or not, and then under the canonical
      name in its own directory. */
  lemma ProvisionalMeans(c: Candidate)
    ensures var item, image := Provisional(c), SameLetters(c.extension, "iso") || SameLetters(c.extension, "zso");
            && item.path == c.path
            && (item.classification == Unsupported <==> !image)
            && (item.classification == MissingId <==> image && c.canonical.None?)
            && item.target == (if image && c.canonical.Some? then Some(Directory(c.path) + "/" + c.canonical.value)
                               else None)
            && (item.classification == Canonical <==> item.target == Some(c.path))
            && item.classification != Collision
  {
    LowerMeans(c.extension, "iso");
    LowerMeans(c.extension, "zso");
  }

  lemma LowerMeans(s: string, small: string)
    requires forall c :: c in small ==> 'a' <= c <= 'z'
    ensures LowerCase(s) == small <==> SameLetters(s, small)
  {
    if SameLetters(s, small) {
      forall i | 0 <= i < |s| ensures Lower(s[i]) == small[i] { assert small[i] in small; }
    }
    if LowerCase(s) == small {
      forall i | 0 <= i < |s| ensures s[i] == small[i] || ('A' <= s[i] <= 'Z' && s[i] as int + 32 == small[i] as int) {
        assert LowerCase(s)[i] == small[i];
      }
    }
  }

  /** Each item by itself. */
  function Provisional(c: Candidate): Item {
    if LowerCase(c.extension) != "iso" && LowerCase(c.extension) != "zso" then Item(c.path, None, Unsupported)
    else
      match c.canonical
      case None => Item(c.path, None, MissingId)
      case Some(name) =>
        var target := Directory(c.path) + "/" + name;
        Item(c.path, Some(target), if target == c.path then Canonical else Correctable)
  }

  /** Two items that would share a name on a file system that ignores case. */
  predicate SameKey(a: Item, b: Item) {
    a.target.Some? && b.target.Some? && LowerCase(a.target.value) == LowerCase(b.target.value)
  }

  ghost predicate Collides(items: seq<Item>, i: nat)
    requires i < |items|
  {
    exists j :: 0 <= j < |items| && j != i && SameKey(items[i], items[j])
  }

  /** What the audit is to say of item `i`. */
  ghost predicate Classified(provisional: seq<Item>, item: Item, i: nat)
    requires i < |provisional|
  {
    item == if Collides(provisional, i) then provisional[i].(classification := Collision) else provisional[i]
  }

  /** The groups: for each key the items that have it, in order. */
  ghost predicate Grouped(items: seq<Item>, n: nat, groups: map<string, seq<nat>>)
    requires n <= |items|
  {
    && (forall key :: key in groups ==>
          Ascending(groups[key], n) && forall i :: i in groups[key] ==> i < n && HasKey(items[i], key))
    && (forall i :: 0 <= i < n && items[i].target.Some? ==>
          LowerCase(items[i].target.value) in groups && i in groups[LowerCase(items[i].target.value)])
  }

  predicate HasKey(item: Item, key: string) { item.target.Some? && LowerCase(item.target.value) == key }

  ghost predicate Ascending(group: seq<nat>, n: nat) {
    (forall i :: i in group ==> i < n) && forall a, b :: 0 <= a < b < |group| ==> group[a] < group[b]
  }

  method GroupItems(items: seq<Item>) returns (groups: map<string, seq<nat>>)
    ensures Grouped(items, |items|, groups)
  {
    groups := map[];
    for n := 0 to |items|
      invariant Grouped(items, n, groups)
    {
      if items[n].target.Some? {
        AddToGroup(items, n, groups);
        var key := LowerCase(items[n].target.value);
        groups := groups[key := GroupOf(groups, key) + [n]];
      }
    }
  }

  function GroupOf(groups: map<string, seq<nat>>, key: string): seq<nat> { if key in groups then groups[key] else [] }

  lemma AddToGroup(items: seq<Item>, n: nat, groups: map<string, seq<nat>>)
    requires n < |items| && Grouped(items, n, groups) && items[n].target.Some?
    ensures var key := LowerCase(items[n].target.value);
            Grouped(items, n + 1, groups[key := GroupOf(groups, key) + [n]])
  {
    var key := LowerCase(items[n].target.value);
    var group := GroupOf(groups, key);
    var after := groups[key := group + [n]];
    assert Ascending(group, n);
    forall i | 0 <= i < n + 1 && items[i].target.Some?
      ensures LowerCase(items[i].target.value) in after && i in after[LowerCase(items[i].target.value)]
    {
      if i == n { assert (group + [n])[|group|] == n; }
    }
    AppendAscends(group, n);
    forall k | k in after
      ensures Ascending(after[k], n + 1) && forall i :: i in after[k] ==> i < n + 1 && HasKey(items[i], k)
    {
      if k != key { assert Ascending(groups[k], n); }
    }
  }

  lemma AppendAscends(group: seq<nat>, n: nat)
    requires Ascending(group, n)
    ensures Ascending(group + [n], n + 1)
  {
    forall a | 0 <= a < |group| ensures group[a] < n { assert group[a] in group; }
  }

  /** A group has more than one member exactly when its members collide. */
  lemma GroupDecides(items: seq<Item>, groups: map<string, seq<nat>>, i: nat)
    requires Grouped(items, |items|, groups) && i < |items| && items[i].target.Some?
    ensures Collides(items, i) <==> |groups[LowerCase(items[i].target.value)]| > 1
  {
    var group := groups[LowerCase(items[i].target.value)];
    if Collides(items, i) {
      var j :| 0 <= j < |items| && j != i && SameKey(items[i], items[j]);
      assert i in group && j in group;
      var a :| 0 <= a < |group| && group[a] == i;
      var b :| 0 <= b < |group| && group[b] == j;
    }
    if |group| > 1 {
      var j := if group[0] == i then group[1] else group[0];
      assert j in group && SameKey(items[i], items[j]);
    }
  }

  function ProvisionalItems(candidates: seq<Candidate>): seq<Item> {
    seq(|candidates|, i requires 0 <= i < |candidates| => Provisional(candidates[i]))
  }

  /** `items` is the audit of `candidates`. */
  ghost predicate Audited(candidates: seq<Candidate>, items: seq<Item>) {
    && |items| == |candidates|
    && forall i :: 0 <= i < |items| ==> Classified(ProvisionalItems(candidates), items[i], i)
  }

  /** `classifyNamingCandidates` */
  method Classify(candidates: seq<Candidate>) returns (items: seq<Item>)
    ensures Audited(candidates, items)
  {
    var provisional := ProvisionalItems(candidates);
    var groups := GroupItems(provisional);
    items := provisional;
    var keys := groups.Keys;
    while keys != {}
      invariant keys <= groups.Keys && |items| == |provisional|
      invariant forall i :: 0 <= i < |items| ==> items[i] == MarkedUnless(provisional[i], groups, keys)
      decreases |keys|
    {
      var key :| key in keys;
      if |groups[key]| > 1 { items := MarkGroup(items, groups[key]); }
      keys := keys - {key};
    }
    forall i | 0 <= i < |items| ensures Classified(provisional, items[i], i) {
      if provisional[i].target.Some? { GroupDecides(provisional, groups, i); }
    }
  }

  /** The item once every group outside `keys` has been dealt with. */
  ghost function MarkedUnless(item: Item, groups: map<string, seq<nat>>, keys: set<string>): Item {
    if item.target.Some?
       && LowerCase(item.target.value) in groups && LowerCase(item.target.value) !in keys
       && |groups[LowerCase(item.target.value)]| > 1
    then item.(classification := Collision)
    else item
  }

  method MarkGroup(items: seq<Item>, group: seq<nat>) returns (marked: seq<Item>)
    requires forall i :: i in group ==> i < |items|
    ensures |marked| == |items|
    ensures forall i :: 0 <= i < |items| ==>
              marked[i] == if i in group then items[i].(classification := Collision) else items[i]
  {
    marked := items;
    for n := 0 to |group|
      invariant |marked| == |items|
      invariant forall i :: 0 <= i < |items| ==>
                  marked[i] == if i in group[..n] then items[i].(classification := Collision) else items[i]
    {
      assert group[n] in group && group[..n + 1] == group[..n] + [group[n]];
      marked := marked[group[n] := items[group[n]].(classification := Collision)];
    }
    assert group[..|group|] == group;
  }

  // ---- What the plan may rely on.

  /** A file to rename shares its new name, whatever the case of the letters, with no
      other file's canonical name - neither one to be renamed nor one already named so. */
  lemma DestinationIsUnique(candidates: seq<Candidate>, items: seq<Item>, i: nat, j: nat)
    requires Audited(candidates, items) && i < |items| && j < |items| && i != j
    requires items[i].classification.Correctable? && items[j].target.Some?
    ensures items[i].target.Some? && LowerCase(items[i].target.value) != LowerCase(items[j].target.value)
  {
    var provisional := ProvisionalItems(candidates);
    assert Classified(provisional, items[i], i) && Classified(provisional, items[j], j);
    assert !Collides(provisional, i);
    assert !SameKey(provisional[i], provisional[j]);
  }

  lemma CorrectableHasTarget(candidates: seq<Candidate>, items: seq<Item>, i: nat)
    requires Audited(candidates, items) && i < |items|
    ensures |items| == |candidates| && items[i].path == candidates[i].path
    ensures items[i].classification.Correctable? ==> items[i].target.Some? && items[i].target.value != items[i].path
    ensures items[i].classification.Canonical? ==> items[i].target == Some(items[i].path)
  {
    assert Classified(ProvisionalItems(candidates), items[i], i);
  }

  datatype Plan = Plan(itemIds: seq<nat>, exclusions: seq<nat>, steps: seq<Step>)

  datatype PlanResult = Planned(plan: Plan) | Refused(code: Code)

  predicate Selected(selection: Option<set<nat>>, i: nat) { selection.None? || i in selection.value }

  predicate ToRename(item: Item) { item.classification.Correctable? && item.target.Some? }

  function StepFor(item: Item, i: nat, token: nat): Step
    requires item.target.Some?
  {
    Step(i, At(item.path), Temporary(token + i), At(item.target.value), None)
  }

  lemma StepRenames(item: Item, i: nat, token: nat)
    requires item.target.Some?
    ensures RenamesItem(StepFor(item, i, token), item, i, token)
  {
  }

  /** The step takes the item from its present to its canonical name, by a name of its own. */
  ghost predicate RenamesItem(s: Step, item: Item, i: nat, token: nat) {
    && s.item == i && s.from == At(item.path) && item.target.Some? && s.to == At(item.target.value)
    && s.temporary == Temporary(token + i) && s.expected == None
  }

  /** The plan over the first `n` items: each selected one is renamed or excluded, in order. */
  ghost predicate PlanOf(items: seq<Item>, selection: Option<set<nat>>, token: nat, n: nat, plan: Plan)
    requires n <= |items|
  {
    && Ascending(plan.itemIds, n) && Ascending(plan.exclusions, n)
    && (forall i :: 0 <= i < n ==> (i in plan.itemIds <==> Selected(selection, i) && ToRename(items[i])))
    && (forall i :: 0 <= i < n ==> (i in plan.exclusions <==> Selected(selection, i) && !ToRename(items[i])))
    && |plan.steps| == |plan.itemIds|
    && (forall k :: 0 <= k < |plan.steps| ==>
          plan.itemIds[k] < n && ToRename(items[plan.itemIds[k]])
          && RenamesItem(plan.steps[k], items[plan.itemIds[k]], plan.itemIds[k], token))
  }

  /** `NamingPlanService.create`.  Generated names are numbered from `token` on. */
  method CreatePlan(items: seq<Item>, revision: nat, expected: nat, selection: Option<set<nat>>, token: nat)
    returns (r: PlanResult)
    ensures r.Refused? <==> revision != expected
    ensures r.Refused? ==> r.code == StaleRevision
    ensures r.Planned? ==> PlanOf(items, selection, token, |items|, r.plan)
  {
    if revision != expected { return Refused(StaleRevision); }
    var plan := Plan([], [], []);
    for i := 0 to |items|
      invariant PlanOf(items, selection, token, i, plan)
    {
      plan := PlanItem(items, i, selection, token, plan);
    }
    r := Planned(plan);
  }

  /** One round of the loop. */
  method PlanItem(items: seq<Item>, i: nat, selection: Option<set<nat>>, token: nat, plan: Plan) returns (next: Plan)
    requires i < |items| && PlanOf(items, selection, token, i, plan)
    ensures PlanOf(items, selection, token, i + 1, next)
  {
    hide Selected, RenamesItem, StepFor;
    AppendAscends(plan.itemIds, i);
    AppendAscends(plan.exclusions, i);
    forall n | n in plan.itemIds || n in plan.exclusions ensures n < i { }
    if !Selected(selection, i) { return plan; }
    if !ToRename(items[i]) { return plan.(exclusions := plan.exclusions + [i]); }
    StepRenames(items[i], i, token);
    next := plan.(itemIds := plan.itemIds + [i], steps := plan.steps + [StepFor(items[i], i, token)]);
  }

  /** A plan made from an audit of distinct files is one the transaction can undo. */
  lemma PlanIsProper(
    files: Files, candidates: seq<Candidate>, items: seq<Item>, selection: Option<set<nat>>, token: nat, plan: Plan)
    requires forall i, j :: 0 <= i < j < |candidates| ==> candidates[i].path != candidates[j].path
    requires forall t: nat :: token <= t ==> Temporary(t) !in files
    requires Audited(candidates, items) && PlanOf(items, selection, token, |items|, plan)
    ensures Proper(files, plan.steps)
  {
    hide Audited;
    forall k | 0 <= k < |plan.steps|
      ensures plan.steps[k].from != plan.steps[k].to && plan.steps[k].temporary !in files
    {
      CorrectableHasTarget(candidates, items, plan.itemIds[k]);
    }
    forall k, l | 0 <= k < l < |plan.steps|
      ensures plan.steps[k].from != plan.steps[l].from && plan.steps[k].to != plan.steps[l].to
      ensures plan.steps[k].temporary != plan.steps[l].temporary && plan.steps[k].item != plan.steps[l].item
    {
      var i, j := plan.itemIds[k], plan.itemIds[l];
      CorrectableHasTarget(candidates, items, i);
      CorrectableHasTarget(candidates, items, j);
      assert candidates[i].path != candidates[j].path;
      DestinationIsUnique(candidates, items, i, j);
    }
  }
}
