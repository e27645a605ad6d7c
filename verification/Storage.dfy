/** The world outside a service: one device, one journal store, and everything
    that can go wrong between two steps.

    Every effect of the services (rename, remove, write, hash, directory sync,
    journal write) is one step.  Before a step takes effect the world may let it
    throw with no effect (a fault) or end the process with no effect (a crash).
    Which of the three happens is an arbitrary choice, limited only by the budget
    of faults and by whether crashes are possible.  A crash right after a step is
    a crash before the next one, so a property that holds whenever a method
    returns holds at every point at which the process can die. */
module Storage {
  newtype byte = x: int | 0 <= x < 256
  type Bytes = seq<byte>

  datatype Option<+T> = None | Some(value: T) {
    function GetOr(default: T): T {
      match this case Some(v) => v case None => default
    }
  }

  /** Journal identifiers; only compared. */
  type JournalId = nat

  /** Error codes thrown by the services. */
  datatype Code =
    | IoError | NotFound | AlreadyExists | NoSpaceOnDevice
    | JournalNotFound | StaleRevision | InvalidJournalTransition
    | ConfirmationRequired | DeviceChanged | DeviceInaccessible | InvalidSelection | SourceChanged
    | InsufficientSpace | HashMismatch | StructureInvalid | StillFragmented
    | Cancelled | RestoredHashMismatch | ManualRecoveryRequired
    | StaleFingerprint | DestinationExists | FileIdentityMismatch
    | ZsoInvalid | ZsoIncomplete

  /** How a step or a whole call ended. */
  datatype Outcome = Ok | Thrown(code: Code) | Crashed {
    predicate IsFailure() { !Ok? }

    function PropagateFailure(): Outcome { this }
  }

  /** What a step with precondition `guard` may answer, given the fault budget
      before and after it. */
  ghost predicate Stepped(r: Outcome, before: nat, after: nat, crashes: bool, guard: bool, refusal: Code) {
    match r
    case Ok => guard && after == before
    case Thrown(code) => (code == IoError && after + 1 == before) || (!guard && code == refusal && after == before)
    case Crashed => crashes && after == before
  }

  /** Only an I/O error uses up a fault; only a machine that can crash does. */
  ghost predicate Charged(r: Outcome, before: nat, after: nat, crashes: bool) {
    && before == after + (if r == Thrown(IoError) then 1 else 0)
    && (r.Crashed? ==> crashes)
  }

  /** Only one thing went wrong: a fault, or a check that failed. */
  ghost predicate OneFailure(r: Outcome, faults: nat) {
    r.Thrown? && faults == if r.code == IoError then 1 else 0
  }

  /** The bytes of `image` from `offset` on, at most `length` of them. */
  function Slice(image: Bytes, offset: nat, length: nat): (s: Bytes)
    ensures |s| == if offset >= |image| then 0 else if offset + length <= |image| then length else |image| - offset
    ensures forall k :: 0 <= k < |s| ==> s[k] == image[offset + k]
  {
    if offset >= |image| then []
    else if offset + length <= |image| then image[offset..offset + length]
    else image[offset..]
  }

  /** The bytes that a set of files takes up. */
  ghost function Used<P>(files: map<P, Bytes>): nat {
    if files == map[] then 0
    else
      var p :| p in files;
      |files[p]| + Used(files - {p})
  }

  /** Any file may be counted first. */
  lemma {:induction false} UsedByOne<P>(files: map<P, Bytes>, p: P)
    requires p in files
    ensures Used(files) == |files[p]| + Used(files - {p})
    decreases |files|
  {
    var q :| q in files && Used(files) == |files[q]| + Used(files - {q});
    if p != q {
      UsedByOne(files - {q}, p);
      UsedByOne(files - {p}, q);
      assert files - {q} - {p} == files - {p} - {q};
    }
  }

  /** Writing `contents` under `p` replaces what `p` held. */
  lemma UsedByUpdate<P>(files: map<P, Bytes>, p: P, contents: Bytes)
    ensures Used(files[p := contents]) == Used(files - {p}) + |contents|
    ensures Used(files) == Used(files - {p}) + if p in files then |files[p]| else 0
  {
    UsedByOne(files[p := contents], p);
    assert files[p := contents] - {p} == files - {p};
    if p in files { UsedByOne(files, p); } else { assert files - {p} == files; }
  }

  /** What a service asks the outside world; with `yes` it may go on. */
  datatype Question<P> =
    | Contiguous(name: P) | NotFragmented(name: P) | Unmodified(name: P) | SameIdentity(name: P)
    | SameDevice | NotCancelled

  /** An answer, and which file was under the name in question. */
  datatype Answer<P> = Answer(question: Question<P>, file: nat, yes: bool)

  /** `later` are the answers `before` and new ones, all of them `yes`, except that the last
      one refuses `refused` if that is given. */
  ghost predicate Heard<P>(before: seq<Answer<P>>, later: seq<Answer<P>>, refused: Option<Question<P>>) {
    && |before| <= |later| && later[..|before|] == before
    && (refused.Some? ==>
          |before| < |later| && later[|later| - 1].question == refused.value && !later[|later| - 1].yes)
    && forall k :: |before| <= k < |later| && (refused.None? || k < |later| - 1) ==> later[k].yes
  }

  /** `later` are the answers `before` and perhaps more. */
  ghost predicate Extends<P>(before: seq<Answer<P>>, later: seq<Answer<P>>) { before <= later }

  lemma HeardBoth<P>(a: seq<Answer<P>>, b: seq<Answer<P>>, c: seq<Answer<P>>, refused: Option<Question<P>>)
    requires Heard(a, b, None) && Heard(b, c, refused)
    ensures Heard(a, c, refused)
  {
    assert c[..|a|] == c[..|b|][..|a|];
    forall k | |a| <= k < |c| && (refused.None? || k < |c| - 1) ensures c[k].yes {
      if k < |b| { assert c[k] == c[..|b|][k]; }
    }
  }

  /** The file under each name.  A rename takes the file along; a new file is one more. */
  datatype Ids<P(!new)> = Ids(under: map<P, nat>, made: nat) {
    ghost function Of(p: P): nat { if p in under then under[p] else 0 }

    ghost function Moved(a: P, b: P): (moved: Ids<P>)
      ensures moved.made == made && moved.Of(b) == Of(a) && forall p :: p != b ==> moved.Of(p) == Of(p)
    {
      Ids(under[b := Of(a)], made)
    }

    ghost function Added(a: P): (more: Ids<P>)
      ensures more.made == made + 1 && more.Of(a) == made && forall p :: p != a ==> more.Of(p) == Of(p)
    {
      Ids(under[a := made], made + 1)
    }
  }

  /** The file that a question is about. */
  ghost function Subject<P(!new)>(question: Question<P>, ids: Ids<P>): nat {
    match question
    case Contiguous(p) => ids.Of(p)
    case NotFragmented(p) => ids.Of(p)
    case Unmodified(p) => ids.Of(p)
    case SameIdentity(p) => ids.Of(p)
    case SameDevice => 0
    case NotCancelled => 0
  }

  /** A file system over names `P`, and a store of journals `J` by identifier. */
  class Machine<P(==,!new), J> {
    var files: map<P, Bytes>
    ghost var ids: Ids<P>
    ghost var answers: seq<Answer<P>>
    var journals: map<JournalId, J>
    var free: int          // bytes the device still has
    ghost var lowest: int  // least value `free` has had
    var faults: nat        // steps that may still fail
    var crashes: bool      // whether the process may die

    constructor (files: map<P, Bytes>, free: int, faults: nat, crashes: bool)
      ensures this.files == files && this.journals == map[] && this.free == free == this.lowest
      ensures this.faults == faults && this.crashes == crashes
    {
      this.files, this.journals, this.free, this.lowest := files, map[], free, free;
      ids, answers := Ids(map[], 1), [];
      this.faults, this.crashes := faults, crashes;
    }

    /** Nothing goes wrong from here on. */
    ghost predicate Quiet()
      reads this`faults, this`crashes
    {
      faults == 0 && !crashes
    }

    /** What is free plus what is taken: the capacity of the device. */
    ghost function Space(): int
      reads this`files, this`free
    {
      free + Used(files)
    }

    /** The arbitrary choice before each step. */
    method Next() returns (r: Outcome)
      modifies this`faults
      ensures Stepped(r, old(faults), faults, crashes, true, IoError)
    {
      if
      case true => r := Ok;
      case crashes => r := Crashed;
      case 0 < faults =>
        faults := faults - 1;
        r := Thrown(IoError);
    }

    /** A question to the outside world (an extent verdict, a request to cancel):
        any answer, no effect, no failure.  The answer is on record. */
    method Ask(question: Question<P>) returns (yes: bool)
      modifies this`answers
      ensures answers == old(answers) + [Answer(question, Subject(question, ids), yes)]
      ensures Heard(old(answers), answers, if yes then None else Some(question))
    {
      if {
        case true => yes := true;
        case true => yes := false;
      }
      answers := answers + [Answer(question, Subject(question, ids), yes)];
    }

    /** Looks at the extents of a file: is it whole and contiguous? */
    method Inspect(name: P) returns (r: Outcome, contiguous: bool)
      modifies this`faults, this`answers
      ensures Stepped(r, old(faults), faults, crashes, true, IoError)
      ensures answers == if r.Ok? then old(answers) + [Answer(Contiguous(name), ids.Of(name), contiguous)]
                         else old(answers)
      ensures r.Ok? ==> Heard(old(answers), answers, if contiguous then None else Some(Contiguous(name)))
    {
      contiguous := false;
      r := Next();
      if r.Ok? { contiguous := Ask(Contiguous(name)); }
    }

    /** `rename`: replaces an existing target, as POSIX does. */
    method Rename(from: P, to: P) returns (r: Outcome)
      modifies this`faults, this`files, this`ids, this`free
      ensures Stepped(r, old(faults), faults, crashes, from in old(files), NotFound)
      ensures r.Ok? ==> files == (old(files) - {from})[to := old(files)[from]] && ids == old(ids).Moved(from, to)
      ensures !r.Ok? ==> files == old(files) && ids == old(ids) && free == old(free)
      ensures Space() == old(Space()) && old(free) <= free
    {
      r := Next();
      if !r.Ok? { return; }
      if from !in files { return Thrown(NotFound); }
      UsedByOne(files, from);
      UsedByUpdate(files - {from}, to, files[from]);
      if to in files && to != from { free := free + |files[to]|; }
      files := (files - {from})[to := files[from]];
      ids := ids.Moved(from, to);
      r := Ok;
    }

    /** `rm` with `force`: a missing file is not an error. */
    method Remove(name: P) returns (r: Outcome)
      modifies this`faults, this`files, this`free
      ensures Stepped(r, old(faults), faults, crashes, true, IoError)
      ensures r.Ok? ==> files == old(files) - {name}
      ensures !r.Ok? ==> files == old(files) && free == old(free)
      ensures Space() == old(Space()) && old(free) <= free
    {
      r := Next();
      if !r.Ok? { return; }
      UsedByUpdate(files, name, []);
      if name in files { free := free + |files[name]|; }
      files := files - {name};
      r := Ok;
    }

    /** Opens an existing file for reading. */
    method Open(name: P) returns (r: Outcome)
      modifies this`faults
      ensures Stepped(r, old(faults), faults, crashes, name in files, NotFound)
    {
      r := Next();
      if !r.Ok? { return; }
      r := if name in files then Ok else Thrown(NotFound);
    }

    /** Reads a whole file (what hashing it does). */
    method Read(name: P) returns (r: Outcome, contents: Bytes)
      modifies this`faults
      ensures Stepped(r, old(faults), faults, crashes, name in files, NotFound)
      ensures r.Ok? ==> contents == files[name]
    {
      contents := [];
      :- Next();
      if name !in files { return Thrown(NotFound), []; }
      r, contents := Ok, files[name];
    }

    /** Reads up to `length` bytes from `offset`; fewer only at the end of the file. */
    method ReadAt(name: P, offset: nat, length: nat) returns (r: Outcome, chunk: Bytes)
      modifies this`faults
      ensures Stepped(r, old(faults), faults, crashes, name in files, NotFound)
      ensures r.Ok? ==> chunk == Slice(files[name], offset, length)
    {
      chunk := [];
      :- Next();
      if name !in files { return Thrown(NotFound), []; }
      r, chunk := Ok, Slice(files[name], offset, length);
    }

    /** `open` with flag `wx`. */
    method CreateExclusive(name: P) returns (r: Outcome)
      modifies this`faults, this`files, this`ids
      ensures Stepped(r, old(faults), faults, crashes, name !in old(files), AlreadyExists)
      ensures r.Ok? ==> files == old(files)[name := []] && ids == old(ids).Added(name)
      ensures !r.Ok? ==> files == old(files) && ids == old(ids)
      ensures Space() == old(Space())
    {
      r := Next();
      if !r.Ok? { return; }
      if name in files { return Thrown(AlreadyExists); }
      UsedByUpdate(files, name, []);
      files := files[name := []];
      ids := ids.Added(name);
      r := Ok;
    }

    /** Writes a chunk at the end of an open file. */
    method Append(name: P, chunk: Bytes) returns (r: Outcome)
      requires name in files
      modifies this`faults, this`files, this`free, this`lowest
      ensures Stepped(r, old(faults), faults, crashes, |chunk| <= old(free), NoSpaceOnDevice)
      ensures r.Ok? ==> files == old(files)[name := old(files)[name] + chunk]
      ensures r.Ok? ==> free == old(free) - |chunk| && lowest == if free < old(lowest) then free else old(lowest)
      ensures !r.Ok? ==> files == old(files) && free == old(free) && lowest == old(lowest)
      ensures Space() == old(Space())
    {
      r := Next();
      if !r.Ok? { return; }
      if free < |chunk| { return Thrown(NoSpaceOnDevice); }
      UsedByUpdate(files, name, files[name] + chunk);
      files := files[name := files[name] + chunk];
      free := free - |chunk|;
      if free < lowest { lowest := free; }
      r := Ok;
    }

    /** Replaces one journal entry atomically. */
    method Put(id: JournalId, value: J) returns (r: Outcome)
      modifies this`faults, this`journals
      ensures Stepped(r, old(faults), faults, crashes, true, IoError)
      ensures journals == if r.Ok? then old(journals)[id := value] else old(journals)
    {
      r := Next();
      if !r.Ok? { return; }
      journals := journals[id := value];
      r := Ok;
    }

    /** Removes one journal entry; a missing one is not an error. */
    method Drop(id: JournalId) returns (r: Outcome)
      modifies this`faults, this`journals
      ensures Stepped(r, old(faults), faults, crashes, true, IoError)
      ensures journals == if r.Ok? then old(journals) - {id} else old(journals)
    {
      r := Next();
      if !r.Ok? { return; }
      journals := journals - {id};
      r := Ok;
    }
  }
}
