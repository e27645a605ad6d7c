/** Renames as functions on a file map: a plan carried out step by step, halted half-way,
    and undone in reverse order. */
module Renames {
  import opened Storage

  /** A name inside the device, or a generated temporary name. */
  datatype Name = At(path: string) | Temporary(token: nat)

  datatype Step = Step(item: nat, from: Name, temporary: Name, to: Name, expected: Option<Bytes>)

  type Files = map<Name, Bytes>

  function Move(files: Files, a: Name, b: Name): Files {
    if a in files then (files - {a})[b := files[a]] else files
  }

  /** The first `k` steps carried out. */
  function Renamed(files: Files, steps: seq<Step>, k: nat): Files
    requires k <= |steps|
  {
    if k == 0 then files else Move(Renamed(files, steps, k - 1), steps[k - 1].from, steps[k - 1].to)
  }

  /** Where the file of an unfinished step is. */
  datatype Place = AtSource | AtTemporary | AtDestination

  /** `k` steps complete, the file of the next one at `place`. */
  function Halted(files: Files, steps: seq<Step>, k: nat, place: Place): Files
    requires if place.AtSource? then k <= |steps| else k < |steps|
  {
    match place
    case AtSource => Renamed(files, steps, k)
    case AtTemporary => Move(Renamed(files, steps, k), steps[k].from, steps[k].temporary)
    case AtDestination => Renamed(files, steps, k + 1)
  }

  /** One undo: from the destination, or else from the temporary name. */
  function UndoOne(files: Files, s: Step): Files {
    if s.to in files then Move(files, s.to, s.from) else Move(files, s.temporary, s.from)
  }

  /** Steps `k - 1` down to 0 undone. */
  function Undone(files: Files, steps: seq<Step>, k: nat): Files
    requires k <= |steps|
    decreases k
  {
    if k == 0 then files else Undone(UndoOne(files, steps[k - 1]), steps, k - 1)
  }

  /** Each of the first `k` steps found its source, and its other names free. */
  ghost predicate Ran(files: Files, steps: seq<Step>, k: nat)
    requires k <= |steps|
  {
    k > 0 ==> Ran(files, steps, k - 1) && CanStep(Renamed(files, steps, k - 1), steps[k - 1])
  }

  ghost predicate CanStep(files: Files, s: Step) { s.from in files && s.to !in files }

  /** What the audit and the plan give: each name serves one step, but a destination
      may be the source of another step. */
  ghost predicate Proper(files: Files, steps: seq<Step>) {
    && (forall i :: 0 <= i < |steps| ==>
          && steps[i].from.At? && steps[i].to.At? && steps[i].temporary.Temporary?
          && steps[i].from != steps[i].to && steps[i].temporary !in files)
    && (forall i, j :: 0 <= i < j < |steps| ==>
          && steps[i].from != steps[j].from && steps[i].to != steps[j].to
          && steps[i].temporary != steps[j].temporary && steps[i].item != steps[j].item)
  }

  // ---- Nothing is overwritten.

  /** How many files hold `contents`. */
  ghost function Copies(files: Files, contents: Bytes): nat { |set p | p in files && files[p] == contents| }

  /** The same files under other names: every content as often as before. */
  ghost predicate Conserved(before: Files, after: Files) {
    |before| == |after| && forall contents :: Copies(before, contents) == Copies(after, contents)
  }

  lemma MoveConserves(files: Files, a: Name, b: Name)
    requires b !in files
    ensures Conserved(files, Move(files, a, b))
  {
    var moved := Move(files, a, b);
    if a in files {
      assert moved.Keys == files.Keys - {a} + {b};
    }
    forall contents
      ensures Copies(files, contents) == Copies(moved, contents)
    {
      MoveKeepsCopies(files, a, b, contents);
    }
  }

  lemma MoveKeepsCopies(files: Files, a: Name, b: Name, contents: Bytes)
    requires b !in files
    ensures Copies(files, contents) == Copies(Move(files, a, b), contents)
  {
    var moved := Move(files, a, b);
    var before := set p | p in files && files[p] == contents;
    var after := set p | p in moved && moved[p] == contents;
    if a in files && files[a] == contents {
      assert after == before - {a} + {b};
    } else {
      assert after == before;
    }
  }

  lemma ConservedBoth(a: Files, b: Files, c: Files)
    requires Conserved(a, b) && Conserved(b, c)
    ensures Conserved(a, c)
  {
  }

  // ---- Undo in reverse order is an exact inverse, reused names included.

  lemma UndoesStep(files: Files, s: Step)
    requires CanStep(files, s)
    ensures UndoOne(Move(files, s.from, s.to), s) == files
  {
  }

  lemma {:induction false} RollbackIsInverse(files: Files, steps: seq<Step>, k: nat)
    requires k <= |steps| && Ran(files, steps, k)
    ensures Undone(Renamed(files, steps, k), steps, k) == files
  {
    if k > 0 {
      hide UndoOne, CanStep, Move;
      UndoesStep(Renamed(files, steps, k - 1), steps[k - 1]);
      RollbackIsInverse(files, steps, k - 1);
    }
  }

  lemma MoveElsewhere(files: Files, a: Name, b: Name, p: Name)
    requires p != a && p != b
    ensures p in Move(files, a, b) <==> p in files
    ensures p in files ==> Move(files, a, b)[p] == files[p]
  {
  }

  /** A source not moved yet is still there. */
  lemma {:induction false} NotYetMoved(files: Files, steps: seq<Step>, k: nat, i: nat)
    requires Proper(files, steps) && k <= i < |steps| && Ran(files, steps, k) && steps[i].from in files
    ensures steps[i].from in Renamed(files, steps, k)
  {
    if k > 0 {
      hide Move;
      NotYetMoved(files, steps, k - 1, i);
      assert CanStep(Renamed(files, steps, k - 1), steps[k - 1]);
      MoveElsewhere(Renamed(files, steps, k - 1), steps[k - 1].from, steps[k - 1].to, steps[i].from);
    }
  }

  /** Temporary names stay free. */
  lemma {:induction false} TemporariesFree(files: Files, steps: seq<Step>, k: nat, i: nat)
    requires Proper(files, steps) && k <= |steps| && i < |steps|
    ensures steps[i].temporary !in Renamed(files, steps, k)
  {
    if k > 0 { TemporariesFree(files, steps, k - 1, i); }
  }

  /** Moving another file out of the way does not disturb an undo. */
  lemma UndoAround(files: Files, s: Step, a: Name, b: Name)
    requires CanStep(files, s) && s.from != s.to && a in files && b !in files && a != s.from && b != s.from && b != s.to
    ensures UndoOne(Move(Move(files, s.from, s.to), a, b), s) == Move(files, a, b)
  {
    var left, right := UndoOne(Move(Move(files, s.from, s.to), a, b), s), Move(files, a, b);
    assert a != s.to;
    assert left.Keys == right.Keys;
  }

  /** The name the file now called `a` had before the first `k` steps. */
  function Origin(steps: seq<Step>, k: nat, a: Name): Name
    requires k <= |steps|
    decreases k
  {
    if k == 0 then a
    else if steps[k - 1].to == a then Origin(steps, k - 1, steps[k - 1].from)
    else Origin(steps, k - 1, a)
  }

  /** A file that is still under its first name. */
  lemma {:induction false} OriginIsSource(files: Files, steps: seq<Step>, k: nat, i: nat)
    requires Proper(files, steps) && k <= i < |steps| && Ran(files, steps, k) && steps[i].from in files
    ensures Origin(steps, k, steps[i].from) == steps[i].from
    decreases k
  {
    if k > 0 {
      NotYetMoved(files, steps, k - 1, i);
      assert CanStep(Renamed(files, steps, k - 1), steps[k - 1]);
      OriginIsSource(files, steps, k - 1, i);
    }
  }

  lemma {:induction false} OriginIsNot(steps: seq<Step>, k: nat, a: Name, b: Name)
    requires k <= |steps| && a != b && forall j :: 0 <= j < k ==> steps[j].from != b
    ensures Origin(steps, k, a) != b
    decreases k
  {
    if k > 0 { OriginIsNot(steps, k - 1, if steps[k - 1].to == a then steps[k - 1].from else a, b); }
  }

  lemma {:induction false} OriginOfFirst(steps: seq<Step>, k: nat, a: Name)
    requires k <= |steps| && forall j :: 0 <= j < k ==> steps[j].to != a
    ensures Origin(steps, k, a) == a
    decreases k
  {
    if k > 0 { OriginOfFirst(steps, k - 1, a); }
  }

  /** No step before `k` starts from `a` or touches `b`. */
  ghost predicate Untouched(steps: seq<Step>, k: nat, a: Name, b: Name)
    requires k <= |steps|
  {
    a != b && forall j :: 0 <= j < k ==>
      steps[j].from != a && b != steps[j].from && b != steps[j].to && b != steps[j].temporary
  }

  /** The file of a step was moved on: its undo finds neither destination nor temporary. */
  lemma UndoMissed(files: Files, s: Step, b: Name)
    requires CanStep(files, s) && s.from != s.to && b !in files && b != s.from && b != s.to
    requires s.temporary !in files && s.temporary != s.to && s.temporary != b
    ensures UndoOne(Move(Move(files, s.from, s.to), s.to, b), s) == Move(files, s.from, b)
  {
  }

  lemma BeforeLast(files: Files, steps: seq<Step>, k: nat, a: Name)
    requires Proper(files, steps) && 0 < k <= |steps| && Ran(files, steps, k) && a in Renamed(files, steps, k)
    requires a != steps[k - 1].from
    ensures CanStep(Renamed(files, steps, k - 1), steps[k - 1]) && steps[k - 1].from != steps[k - 1].to
    ensures a != steps[k - 1].to ==> a in Renamed(files, steps, k - 1)
    ensures steps[k - 1].temporary !in Renamed(files, steps, k - 1) && steps[k - 1].temporary != steps[k - 1].to
  {
    TemporariesFree(files, steps, k - 1, k - 1);
  }

  /** The file called `a` moved out of the way to `b`: the other files go home, this one
      keeps the name `b`. */
  lemma {:induction false} RollbackAround(files: Files, steps: seq<Step>, k: nat, a: Name, b: Name)
    requires Proper(files, steps) && k <= |steps| && Ran(files, steps, k) && a in Renamed(files, steps, k)
    requires b !in files && Untouched(steps, k, a, b)
    ensures b !in Renamed(files, steps, k) && Origin(steps, k, a) in files
    ensures Undone(Move(Renamed(files, steps, k), a, b), steps, k) == Move(files, Origin(steps, k, a), b)
    decreases k
  {
    if k > 0 {
      hide Move, UndoOne;
      var before, s := Renamed(files, steps, k - 1), steps[k - 1];
      BeforeLast(files, steps, k, a);
      var a' := if s.to == a then s.from else a;
      RollbackAround(files, steps, k - 1, a', b);
      MoveElsewhere(before, s.from, s.to, b);
      if s.to == a { UndoMissed(before, s, b); } else { UndoAround(before, s, a, b); }
    }
  }

  /** Taking another file away does not disturb an undo. */
  lemma UndoWithout(files: Files, s: Step, a: Name)
    requires CanStep(files, s) && s.from != s.to && a in files && a != s.from
    ensures UndoOne(Move(files, s.from, s.to) - {a}, s) == files - {a}
  {
    assert a != s.to;
  }

  lemma UndoMissing(files: Files, s: Step)
    requires CanStep(files, s) && s.from != s.to && s.temporary !in files && s.temporary != s.to
    ensures UndoOne(Move(files, s.from, s.to) - {s.to}, s) == files - {s.from}
  {
  }

  lemma {:induction false} RollbackWithout(files: Files, steps: seq<Step>, k: nat, a: Name)
    requires Proper(files, steps) && k <= |steps| && Ran(files, steps, k) && a in Renamed(files, steps, k)
    requires forall j :: 0 <= j < k ==> steps[j].from != a
    ensures Undone(Renamed(files, steps, k) - {a}, steps, k) == files - {Origin(steps, k, a)}
    ensures Origin(steps, k, a) in files
    decreases k
  {
    if k > 0 {
      hide Move, UndoOne;
      var before, s := Renamed(files, steps, k - 1), steps[k - 1];
      BeforeLast(files, steps, k, a);
      if s.to == a { UndoMissing(before, s); } else { UndoWithout(before, s, a); }
      RollbackWithout(files, steps, k - 1, if s.to == a then s.from else a);
    }
  }

  /** An undo onto a name that has been taken again overwrites the file there. */
  lemma UndoOnto(files: Files, s: Step, a: Name)
    requires CanStep(files, s) && s.from != s.to && a in files && a != s.from
    ensures UndoOne(Move(Move(files, s.from, s.to), a, s.from), s) == files - {a}
  {
    assert a != s.to;
  }

  lemma ComesBack(files: Files, s: Step)
    requires CanStep(files, s) && s.from != s.to && s.temporary !in files
    ensures UndoOne(Move(Move(files, s.from, s.to), s.to, s.from), s) == files
  {
  }

  /** A vacated name stays free until a step takes it. */
  lemma {:induction false} StaysFree(files: Files, steps: seq<Step>, j: nat, k: nat, b: Name)
    requires Proper(files, steps) && j < k <= |steps| && steps[j].from == b
    requires forall i :: j < i < k ==> steps[i].to != b
    ensures b !in Renamed(files, steps, k)
    decreases k
  {
    if k > j + 1 {
      hide Move;
      StaysFree(files, steps, j, k - 1, b);
      MoveElsewhere(Renamed(files, steps, k - 1), steps[k - 1].from, steps[k - 1].to, b);
    }
  }

  /** The file called `a` stands where step `j` will put its own file back: it is overwritten,
      unless it is that file. */
  lemma {:induction false} RollbackOnto(files: Files, steps: seq<Step>, k: nat, a: Name, j: nat)
    requires Proper(files, steps) && j < k <= |steps| && Ran(files, steps, k) && a in Renamed(files, steps, k)
    requires forall i :: 0 <= i < k ==> steps[i].from != a && steps[i].to != steps[j].from
    ensures var origin := Origin(steps, k, a);
            Undone(Move(Renamed(files, steps, k), a, steps[j].from), steps, k)
            == if origin == steps[j].from then files else files - {origin}
    ensures Origin(steps, k, a) in files
    decreases k
  {
    hide Move, UndoOne;
    var before, s, b := Renamed(files, steps, k - 1), steps[k - 1], steps[j].from;
    BeforeLast(files, steps, k, a);
    if k - 1 == j {
      if s.to == a {
        ComesBack(before, s);
        RollbackIsInverse(files, steps, j);
        OriginOfFirst(steps, j, b);
        RollbackWithout(files, steps, j, b);
      } else {
        UndoOnto(before, s, a);
        OriginIsNot(steps, j, a, b);
        RollbackWithout(files, steps, j, a);
      }
    } else {
      StaysFree(files, steps, j, k - 1, b);
      if s.to == a { UndoMissed(before, s, b); } else { UndoAround(before, s, a, b); }
      RollbackOnto(files, steps, k - 1, if s.to == a then s.from else a, j);
    }
  }

  /** The destination of the step is the old name of an earlier file. */
  ghost predicate Reuses(steps: seq<Step>, k: nat)
    requires k < |steps|
  {
    exists j :: 0 <= j < k && steps[j].from == steps[k].to
  }

  lemma {:induction false} NeverTouched(files: Files, steps: seq<Step>, k: nat, b: Name)
    requires k <= |steps| && forall j :: 0 <= j < k ==> steps[j].from != b && steps[j].to != b
    ensures b in Renamed(files, steps, k) <==> b in files
  {
    if k > 0 {
      hide Move;
      NeverTouched(files, steps, k - 1, b);
      MoveElsewhere(Renamed(files, steps, k - 1), steps[k - 1].from, steps[k - 1].to, b);
    }
  }

  /** What one fault at step `k` leaves behind once the earlier steps are undone. */
  function Aborted(files: Files, s: Step, place: Place): Files {
    match place
    case AtSource => files
    case AtTemporary => Move(files, s.from, s.temporary)
    case AtDestination => Move(files, s.from, s.to)
  }

  /** The step as the failing file saw it: from the name it had at the start. */
  function FromOrigin(steps: seq<Step>, k: nat): Step
    requires k < |steps|
  {
    steps[k].(from := Origin(steps, k, steps[k].from))
  }

  /** The fault comes after the second rename, of a step whose destination is the old name of
      another file. */
  ghost predicate Loses(steps: seq<Step>, k: nat, place: Place)
    requires k < |steps|
  {
    place.AtDestination? && Reuses(steps, k) && FromOrigin(steps, k).from != steps[k].to
  }

  /** Rollback after a fault is exact: every completed file is back under its old name and
      the faulting file is where it was.  The one exception is a fault found only after
      the second rename, at a step that reuses another file's name: its file is overwritten. */
  lemma RollbackAfterFault(files: Files, steps: seq<Step>, k: nat, place: Place)
    requires Proper(files, steps) && k < |steps| && Ran(files, steps, k)
    requires !place.AtSource? ==> CanStep(Renamed(files, steps, k), steps[k])
    ensures !place.AtSource? ==> FromOrigin(steps, k).from in files
    ensures Undone(Halted(files, steps, k, place), steps, k)
            == if Loses(steps, k, place) then files - {FromOrigin(steps, k).from}
               else Aborted(files, FromOrigin(steps, k), place)
  {
    hide Undone, Move;
    var s := steps[k];
    match place
    case AtSource => RollbackIsInverse(files, steps, k);
    case AtTemporary => RollbackAround(files, steps, k, s.from, s.temporary);
    case AtDestination =>
      if Reuses(steps, k) {
        var j :| 0 <= j < k && steps[j].from == s.to;
        RollbackOnto(files, steps, k, s.from, j);
        MoveToItself(files, s.to);
      } else {
        NeverTouched(files, steps, k, s.to);
        RollbackAround(files, steps, k, s.from, s.to);
      }
  }

  lemma MoveToItself(files: Files, a: Name)
    ensures Move(files, a, a) == files
  {
  }

  lemma MoveHome(files: Files, a: Name)
    requires a in files
    ensures |files - {a}| == |files| - 1
  {
    assert (files - {a}).Keys == files.Keys - {a};
  }

  /** Exactly when nothing is lost. */
  lemma NothingLostIff(files: Files, steps: seq<Step>, k: nat, place: Place)
    requires Proper(files, steps) && k < |steps| && Ran(files, steps, k)
    requires !place.AtSource? ==> CanStep(Renamed(files, steps, k), steps[k])
    ensures Conserved(files, Undone(Halted(files, steps, k, place), steps, k)) <==> !Loses(steps, k, place)
  {
    RollbackAfterFault(files, steps, k, place);
    hide Undone, Halted, Reuses, Copies, Origin;
    var origin := FromOrigin(steps, k).from;
    match place
    case AtSource =>
    case AtTemporary => MoveConserves(files, origin, steps[k].temporary);
    case AtDestination =>
      if Loses(steps, k, place) {
        MoveHome(files, origin);
      } else if Reuses(steps, k) {
        MoveToItself(files, origin);
      } else {
        DestinationFree(files, steps, k);
        MoveConserves(files, origin, steps[k].to);
      }
  }

  lemma DestinationFree(files: Files, steps: seq<Step>, k: nat)
    requires Proper(files, steps) && k < |steps| && Ran(files, steps, k) && !Reuses(steps, k)
    requires CanStep(Renamed(files, steps, k), steps[k])
    ensures steps[k].to !in files
  {
    hide Move;
    NeverTouched(files, steps, k, steps[k].to);
  }
}
