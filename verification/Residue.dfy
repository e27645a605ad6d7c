/** What the user's request to drop leftovers proves and what it does not, for journals
    that name other files before the rewritten one. */
module ResidueCases {
  import opened Storage
  import opened Journal
  import opened Repair
  import opened Multipart
  import opened MultipartRun
  import opened Recovery
  import opened Tracking

  /** Residue dropped undisturbed: the journal says `Restored` of a file that is not in place
      if and only if the first file was in place and that file was not. */
  method DropUndisturbed(m: Device, id: JournalId, ghost parts: seq<Fingerprint>, ghost i: nat) returns (r: Outcome)
    requires id in m.journals && Tracks(m.journals[id], parts) && SafeSet(m.files, m.journals[id], parts) && i < |parts|
    requires Restorable(m.journals[id].state) && m.journals[id].state != Restored && m.Quiet()
    modifies m`faults, m`files, m`ids, m`free, m`journals
    ensures id in m.journals
    ensures var entry, part := old(m.journals)[id], Target(parts[i], old(m.journals)[id].operation);
            && (m.journals[id].state == Restored && !Active(m.files, part)
                <==> Active(old(m.files), Located(entry)) && !Active(old(m.files), part))
            && (m.journals[id].state == Restored ==>
                  (Alive(m.files, part) <==> Active(old(m.files), part) || part.backup != Located(entry).backup))
  {
    hide Tracks, SafeSet, Residue;
    ghost var entry := m.journals[id];
    Untouched(m.files, entry, parts, i);
    ResidueLosesIff(m.files, entry, parts, i);
    r := CleanupVerifiedResidue(m, id, m.journals[id], true);
  }

  lemma Untouched(files: Files, entry: Entry, parts: seq<Fingerprint>, i: nat)
    requires Tracks(entry, parts) && SafeSet(files, entry, parts) && i < |parts|
    ensures entry.fingerprints != [] && Located(entry).source !in Residue(entry)
  {
  }

  lemma Directories()
    ensures DirectoryOf("A/x") == "A/" && DirectoryOf("D/g") == "D/"
    ensures BaseOf("A/x") == "x" && BaseOf("D/g") == "g" && Beside("A/x", "D/g") == "A/g"
    ensures DirectoryOf("p") == "" && DirectoryOf("q") == "" && Beside("p", "q") == "q"
  {
    assert "A/x"[..2] == "A/" && "D/g"[..2] == "D/";
    assert "p"[..0] == "" && "q"[..0] == "";
  }

  /** A game diagnosed with its cover art first, stopped after the original was set aside. */
  lemma ArtFirstSaysRestored(operation: string)
    ensures var art, game := Fingerprint("A/x", [7]), Fingerprint("D/g", [1]);
            var entry := Entry(6, operation, Promoting, [art, game], [Candidate("D/g", operation)], [], ["D/g"]);
            var files := map[File("A/x") := [7], Backup("D/g", operation) := [1], Candidate("D/g", operation) := [1]];
            && Tracks(entry, [game]) && SafeSet(files, entry, [game]) && Sound(files, Promoting, "D/g", operation, [1])
            && Active(files, Located(entry)) && Restorable(entry.state)
            && var after := files - Residue(entry);
               && File("D/g") !in after && Holds(after, Backup("D/g", operation), [1])
               && Candidate("D/g", operation) in after
  {
    Directories();
    var art, game := Fingerprint("A/x", [7]), Fingerprint("D/g", [1]);
    assert "A/x"[0] == 'A' && "D/g"[0] == 'D';
    OneAffected([art, game], game);
    assert [art, game][1] == game;
  }

  /** The same game once committed: the cleanup at start-up proves the cover art, finds no
      backup beside it, ends the journal and leaves the backup of the game. */
  lemma ArtFirstKeepsBackup(operation: string)
    ensures var art, game := Fingerprint("A/x", [7]), Fingerprint("D/g", [1]);
            var entry := Entry(9, operation, Committed, [art, game], [], [Backup("D/g", operation)], ["D/g"]);
            var files := map[File("A/x") := [7], File("D/g") := [1], Backup("D/g", operation) := [1]];
            && Tracks(entry, [game]) && SafeSet(files, entry, [game])
            && Active(files, Located(entry)) && Located(entry).backup !in files
            && files - {Located(entry).backup} == files
  {
    Directories();
    var art, game := Fingerprint("A/x", [7]), Fingerprint("D/g", [1]);
    assert "A/x"[0] == 'A' && "D/g"[0] == 'D' && "A/g"[0] == 'A';
    OneAffected([art, game], game);
    assert [art, game][1] == game;
  }

  /** A set whose first part was not rewritten, stopped in the middle of its rollback:
      dropping residue proves the first part and removes the last copy of the second. */
  lemma FirstPartHidesLoss(operation: string)
    ensures var p, q := Fingerprint("p", [1]), Fingerprint("q", [2]);
            var entry := Entry(9, operation, RollingBack, [p, q], [], [Backup("q", operation)], ["q"]);
            var files := map[File("p") := [1], Backup("q", operation) := [2]];
            && Tracks(entry, [q]) && SafeSet(files, entry, [q]) && SoundSet(files, RollingBack, [q], operation, None)
            && Active(files, Located(entry)) && !ResidueApart(entry.fingerprints, [q])
            && !Alive(files - Residue(entry), Target(q, operation))
  {
    Directories();
    var p, q := Fingerprint("p", [1]), Fingerprint("q", [2]);
    assert "p"[0] == 'p' && "q"[0] == 'q';
    OneAffected([p, q], q);
    assert [p, q][1] == q && [q][0] == q;
  }

  /** For a single rewritten file the condition is about directories: the first file is that
      file or lies elsewhere. */
  lemma ApartIffElsewhere(fingerprints: seq<Fingerprint>, t: Fingerprint)
    requires fingerprints != []
    ensures ResidueApart(fingerprints, [t]) <==>
              fingerprints[0].name == t.name || DirectoryOf(fingerprints[0].name) != DirectoryOf(t.name)
  {
    assert [t][0] == t;
  }
}
