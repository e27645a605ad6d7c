/** Creation of the candidate file: a chunked, re-checked copy of the source. */
module Candidates {
  import opened Storage
  import opened Journal
  import Iso9660
  import Lz4
  import Zso

  const CHUNK_BYTES: nat := 1024 * 1024

  datatype Format = ISO | ZSO | USBExtreme | Other

  /** `after` is `before`, perhaps with the new file `name`. */
  ghost predicate Adds(before: Files, after: Files, name: Path) {
    after == before || (name !in before && name in after && after == before[name := after[name]])
  }

  /** The copy loop and the final sync (the guarded part of the copy). */
  method CopyChunks(m: Device, source: Path, candidate: Path) returns (r: Outcome)
    requires source in m.files && candidate in m.files && m.files[candidate] == [] && source != candidate
    modifies m`faults, m`files, m`free, m`lowest
    ensures m.faults <= old(m.faults)
    ensures r.Thrown? ==>
              || (r.code == IoError && m.faults < old(m.faults))
              || (r.code == NoSpaceOnDevice && old(m.free) < |old(m.files)[source]|)
    ensures old(m.faults) == 0 && |old(m.files)[source]| <= old(m.free) ==> !r.Thrown?
    ensures r.Crashed? ==> m.crashes
    ensures candidate in m.files && m.files[candidate] <= old(m.files)[source]
    ensures m.files == old(m.files)[candidate := m.files[candidate]]
    ensures m.free == old(m.free) - |m.files[candidate]|
    ensures m.Space() == old(m.Space())
    ensures m.lowest >= if m.free < old(m.lowest) then m.free else old(m.lowest)
    ensures r.Ok? ==> m.files[candidate] == old(m.files)[source]
  {
    ghost var contents := m.files[source];
    var bytes := 0;
    while true
      invariant m.faults == old(m.faults) && bytes <= |contents|
      invariant m.files == old(m.files)[candidate := contents[..bytes]]
      invariant m.free == old(m.free) - bytes && m.Space() == old(m.Space())
      invariant m.lowest >= if m.free < old(m.lowest) then m.free else old(m.lowest)
      decreases |contents| - bytes
    {
      var chunk :- m.ReadAt(source, bytes, CHUNK_BYTES);
      if |chunk| == 0 { break; }
      assert contents[..bytes] + chunk == contents[..bytes + |chunk|];
      :- m.Append(candidate, chunk);
      bytes := bytes + |chunk|;
    }
    assert contents[..bytes] == contents;
    :- m.Next();
    r := Ok;
  }

  /** What is wrong with the structure of an image, if anything. */
  function Flaw(contents: Bytes, format: Format): (flaw: Option<Code>)
    ensures flaw.Some? ==> flaw.value in {StructureInvalid, ZsoInvalid, ZsoIncomplete}
  {
    match format
    case ISO => if Iso9660.ValidIso(contents) then None else Some(StructureInvalid)
    case ZSO =>
      (match Zso.ReadHeader(contents)
       case Failure(error) => Some(if error.IncompleteZso? then ZsoIncomplete else ZsoInvalid)
       case Success(_) => None)
    case _ => None
  }

  /** Structure and extent checks of a finished copy. */
  method InspectCandidate(m: Device, candidate: Path, format: Format) returns (r: Outcome)
    requires candidate in m.files
    modifies m`faults, m`answers
    ensures m.faults <= old(m.faults)
    ensures r.Crashed? ==> m.crashes
    ensures r.Ok? || r == Thrown(StillFragmented) ==> Flaw(m.files[candidate], format) == None
    ensures m.answers == if r.Ok? || r == Thrown(StillFragmented)
                         then old(m.answers) + [Answer(Contiguous(candidate), m.ids.Of(candidate), r.Ok?)]
                         else old(m.answers)
    ensures r.Thrown? && m.faults == old(m.faults) ==>
              r.code == StillFragmented || Flaw(m.files[candidate], format) == Some(r.code)
    ensures r.Thrown? && m.faults < old(m.faults) ==> r.code == IoError
  {
    if format == ISO || format == ZSO {
      var contents :- m.Read(candidate);
      var flaw := Flaw(contents, format);
      if flaw.Some? { return Thrown(flaw.value); }
    }
    var contiguous :- m.Inspect(candidate);
    if !contiguous { return Thrown(StillFragmented); }
    r := Ok;
  }

  /** Why a candidate is refused, apart from I/O errors. */
  ghost predicate Refuses(source: Bytes, free: int, expected: Fingerprint, format: Format, code: Code) {
    match code
    case NoSpaceOnDevice => free < |source|
    case HashMismatch => source != expected.contents
    case StillFragmented => source == expected.contents && Flaw(source, format) == None
    case _ => source == expected.contents && Flaw(source, format) == Some(code)
  }

  /** Copy, comparison with the fingerprint and inspection: everything that a failure
      of which makes `CreateCandidate` unlink the copy. */
  method CopyAndCheck(m: Device, source: Path, candidate: Path, expected: Fingerprint, format: Format)
    returns (r: Outcome)
    requires source in m.files && candidate in m.files && m.files[candidate] == [] && source != candidate
    modifies m`faults, m`files, m`free, m`lowest, m`answers
    ensures m.faults <= old(m.faults)
    ensures r.Crashed? ==> m.crashes
    ensures r.Thrown? ==>
              || (r.code == IoError && m.faults < old(m.faults))
              || Refuses(old(m.files)[source], old(m.free), expected, format, r.code)
    ensures candidate in m.files && m.files == old(m.files)[candidate := m.files[candidate]]
    ensures r.Thrown? && |old(m.files)[source]| <= old(m.free) ==>
              m.faults < old(m.faults) || m.files[candidate] == old(m.files)[source]
    ensures m.free == old(m.free) - |m.files[candidate]|
    ensures |m.files[candidate]| <= |old(m.files)[source]|
    ensures m.Space() == old(m.Space())
    ensures m.lowest >= if m.free < old(m.lowest) then m.free else old(m.lowest)
    ensures r.Ok? ==> m.files[candidate] == old(m.files)[source] == expected.contents
    ensures r.Ok? ==> Flaw(expected.contents, format) == None
    ensures m.answers == if r.Ok? || r == Thrown(StillFragmented)
                         then old(m.answers) + [Answer(Contiguous(candidate), m.ids.Of(candidate), r.Ok?)]
                         else old(m.answers)
  {
    hide Flaw;
    r := CopyChunks(m, source, candidate);
    if !r.Ok? { return; }
    if m.files[candidate] != expected.contents { return Thrown(HashMismatch); }
    r := InspectCandidate(m, candidate, format);
  }

  /** The new file filled and checked, or unlinked again. */
  method FillCandidate(m: Device, source: Path, candidate: Path, expected: Fingerprint, format: Format)
    returns (r: Outcome)
    requires source in m.files && candidate in m.files && m.files[candidate] == [] && source != candidate
    modifies m`faults, m`files, m`free, m`lowest, m`answers
    ensures m.faults <= old(m.faults)
    ensures r.Crashed? ==> m.crashes
    ensures r.Ok? ==>
              && old(m.files)[source] == expected.contents && Flaw(expected.contents, format) == None
              && m.files == old(m.files)[candidate := expected.contents]
              && m.free == old(m.free) - |expected.contents|
              && m.answers == old(m.answers) + [Answer(Contiguous(candidate), m.ids.Of(candidate), true)]
    ensures m.files == old(m.files) - {candidate}
            || (candidate in m.files && m.files == old(m.files)[candidate := m.files[candidate]])
    ensures r.Thrown? ==>
              || (r.code == IoError && m.faults < old(m.faults))
              || Refuses(old(m.files)[source], old(m.free), expected, format, r.code)
    ensures r.Thrown? && old(m.faults) <= 1 && candidate in m.files && |old(m.files)[source]| <= old(m.free) ==>
              m.files[candidate] == old(m.files)[source]
    ensures old(m.Quiet()) && r.Thrown? ==> m.files == old(m.files) - {candidate}
    ensures Recorded(old(m.answers), m.answers, candidate, m.ids.Of(candidate), r)
    ensures m.Space() == old(m.Space())
    ensures m.lowest >= var least := old(m.free) - |old(m.files)[source]|;
                        if least < old(m.lowest) then least else old(m.lowest)
  {
    hide Flaw, Refuses;
    r := CopyAndCheck(m, source, candidate, expected, format);
    if r.Crashed? { return; }
    if r.Thrown? {
      var unlinked := m.Remove(candidate);
      if unlinked.Crashed? { r := Crashed; }
      return;
    }
    :- m.Next();
    r := Ok;
  }

  /** The new answers: none or the verdict on the candidate, which a throw for its extents refuses. */
  ghost predicate Recorded(before: seq<Answer<Path>>, after: seq<Answer<Path>>, candidate: Path, file: nat,
                           r: Outcome) {
    && (after == before || exists yes :: after == before + [Answer(Contiguous(candidate), file, yes)])
    && (r.Thrown? ==> Heard(before, after, if r.code == StillFragmented then Some(Contiguous(candidate)) else None))
  }

  /** Why `CreateCandidate` throws. */
  ghost predicate Explains(files: Files, free: int, source: Path, candidate: Path, expected: Fingerprint,
                           format: Format, code: Code) {
    match code
    case IoError => false
    case NotFound => source !in files
    case AlreadyExists => candidate in files
    case _ => source in files && Refuses(files[source], free, expected, format, code)
  }

  lemma RefusalExplains(files: Files, free: int, source: Path, candidate: Path, expected: Fingerprint,
                        format: Format, code: Code)
    requires source in files && Refuses(files[source], free, expected, format, code)
    ensures Explains(files, free, source, candidate, expected, format, code)
  {
  }

  /** Copies the source, compares copy and source with the fingerprint, inspects the
      copy.  Ends with a candidate equal to the fingerprint, or throws. */
  method CreateCandidate(m: Device, name: string, operation: string, expected: Fingerprint, format: Format)
    returns (r: Outcome)
    modifies m`faults, m`files, m`ids, m`free, m`lowest, m`answers
    ensures m.faults <= old(m.faults)
    ensures Adds(old(m.files), m.files, Candidate(name, operation))
    ensures r.Ok? ==> var c := Candidate(name, operation);
                      c !in old(m.files) && File(name) in old(m.files)
                      && old(m.files)[File(name)] == expected.contents
                      && m.files == old(m.files)[c := expected.contents]
                      && m.free == old(m.free) - |expected.contents|
    // the candidate is a new file, of good structure, and was found contiguous
    ensures r.Ok? ==> var c := Candidate(name, operation);
                      && m.ids == old(m.ids).Added(c) && Flaw(expected.contents, format) == None
                      && m.answers == old(m.answers) + [Answer(Contiguous(c), old(m.ids).made, true)]
    ensures m.ids == old(m.ids) || m.ids == old(m.ids).Added(Candidate(name, operation))
    ensures Recorded(old(m.answers), m.answers, Candidate(name, operation), old(m.ids).made, r)
    // every refusal has its reason
    ensures r.Thrown? ==>
              || (r.code == IoError && m.faults < old(m.faults))
              || Explains(old(m.files), old(m.free), File(name), Candidate(name, operation), expected, format, r.code)
    // with room for the copy, whatever single step fails, no partial copy survives a throw
    ensures var c := Candidate(name, operation);
            old(m.faults) <= 1 && r.Thrown? && c !in old(m.files) && c in m.files ==>
              File(name) in old(m.files)
              && (|old(m.files)[File(name)]| <= old(m.free) ==> m.files[c] == old(m.files)[File(name)])
    ensures r.Crashed? ==> m.crashes
    ensures old(m.Quiet()) && r.Thrown? ==> m.files == old(m.files)
    ensures m.Space() == old(m.Space())
    ensures m.lowest >= var least := old(m.free) - if File(name) in old(m.files) then |old(m.files)[File(name)]| else 0;
                        if least < old(m.lowest) then least else old(m.lowest)
  {
    hide Flaw, Refuses;
    var source, candidate := File(name), Candidate(name, operation);
    :- m.Open(source);
    :- m.CreateExclusive(candidate);
    hide Explains;
    r := FillCandidate(m, source, candidate, expected, format);
    if r.Thrown? && Refuses(old(m.files)[source], old(m.free), expected, format, r.code) {
      RefusalExplains(old(m.files), old(m.free), source, candidate, expected, format, r.code);
    }
  }
}
