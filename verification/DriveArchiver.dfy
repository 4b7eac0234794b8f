/**
 * Moving a verified source file in Drive (src/document_fetchers/drive_archiver.py), and one archive
 * run around it (src/operations/drive_wave_delivery.py). Every call to the provider may fail, before
 * or after it took effect.
 */
module DriveArchiver {
  import opened Text
  import opened Bytes

  /** SHA-256 as an injection; a stored checksum may also be no digest at all. */
  datatype Digest = Sha256(content: Bytes) | NoDigest(text: string)

  /** What the provider reports about a file; a checksum that is not reported is empty. */
  datatype Details = Details(name: string, mimeType: string, md5: string, size: Option<int>)

  datatype FileState = FileState(parents: set<string>, content: Bytes, details: Details, trashed: bool)

  datatype Folders = Folders(source: string, archive: string)

  /** Which half of an update takes effect, adding or removing a parent, and does the call raise? */
  datatype Reply = Reply(adds: bool, removes: bool, raises: bool)

  const WORKS := Reply(true, true, false)

  const NOTHING := Reply(false, false, false)

  datatype MoveFaults = MoveFaults(inspectRaises: bool, update: Reply, reinspectRaises: bool, rollback: Reply)

  datatype MoveStatus = Archived | AlreadyArchived | MoveRaised

  datatype RestoreStatus = Restored | AlreadyRestored | RestoreRaised

  // ------------------------------------------------------------------------------------------
  // What the calls do to the parents
  // ------------------------------------------------------------------------------------------

  function Updated(parents: set<string>, add: string, remove: string, reply: Reply): set<string> {
    (if reply.adds then parents + {add} else parents) - (if reply.removes then {remove} else {})
  }

  predicate InArchive(parents: set<string>, f: Folders) {
    f.archive in parents && f.source !in parents
  }

  predicate InIntake(parents: set<string>, f: Folders) {
    f.source in parents && f.archive !in parents
  }

  function Move(parents: set<string>, f: Folders, faults: MoveFaults): (MoveStatus, set<string>) {
    if f.source == f.archive || faults.inspectRaises then (MoveRaised, parents)
    else if InArchive(parents, f) then (AlreadyArchived, parents)
    else if f.source !in parents then (MoveRaised, parents)
    else
      var moved := Updated(parents, f.archive, f.source, faults.update);
      if faults.update.raises || faults.reinspectRaises then (MoveRaised, moved)
      else if InArchive(moved, f) then (Archived, moved)
      else (MoveRaised, Updated(moved, f.source, f.archive, faults.rollback))
  }

  function Restore(parents: set<string>, f: Folders, faults: MoveFaults): (RestoreStatus, set<string>) {
    if f.source == f.archive || faults.inspectRaises then (RestoreRaised, parents)
    else if InIntake(parents, f) then (AlreadyRestored, parents)
    else if f.archive !in parents then (RestoreRaised, parents)
    else
      var restored := Updated(parents, f.source, f.archive, faults.update);
      if faults.update.raises || faults.reinspectRaises || !InIntake(restored, f) then (RestoreRaised, restored)
      else (Restored, restored)
  }

  const FLAWLESS := MoveFaults(false, WORKS, false, WORKS)

  // ------------------------------------------------------------------------------------------
  // The archive client
  // ------------------------------------------------------------------------------------------

  class DriveFile {
    var parents: set<string>
    const content: Bytes
    const details: Details
    var trashed: bool

    constructor (state: FileState)
      ensures View() == state
    {
      parents, content, details, trashed := state.parents, state.content, state.details, state.trashed;
    }

    function View(): FileState
      reads this
    {
      FileState(parents, content, details, trashed)
    }

    method Update(add: string, remove: string, reply: Reply) returns (ok: bool)
      modifies this`parents
      ensures ok == !reply.raises && parents == Updated(old(parents), add, remove, reply)
    {
      if reply.adds {
        parents := parents + {add};
      }
      if reply.removes {
        parents := parents - {remove};
      }
      ok := !reply.raises;
    }

    /** Only the parents can change: the file itself is never replaced or deleted. */
    method MoveFile(f: Folders, faults: MoveFaults) returns (status: MoveStatus)
      modifies this`parents
      ensures (status, parents) == Move(old(parents), f, faults)
    {
      if f.source == f.archive || faults.inspectRaises {
        return MoveRaised;
      }
      if f.archive in parents && f.source !in parents {
        return AlreadyArchived;
      }
      if f.source !in parents {
        return MoveRaised;
      }
      var ok := Update(f.archive, f.source, faults.update);
      if !ok || faults.reinspectRaises {
        return MoveRaised;
      }
      if f.archive !in parents || f.source in parents {
        var _ := Update(f.source, f.archive, faults.rollback);
        return MoveRaised;
      }
      status := Archived;
    }

    method RestoreFile(f: Folders, faults: MoveFaults) returns (status: RestoreStatus)
      modifies this`parents
      ensures (status, parents) == Restore(old(parents), f, faults)
    {
      if f.source == f.archive || faults.inspectRaises {
        return RestoreRaised;
      }
      if f.source in parents && f.archive !in parents {
        return AlreadyRestored;
      }
      if f.archive !in parents {
        return RestoreRaised;
      }
      var ok := Update(f.source, f.archive, faults.update);
      if !ok || faults.reinspectRaises || f.source !in parents || f.archive in parents {
        return RestoreRaised;
      }
      status := Restored;
    }
  }

  // ------------------------------------------------------------------------------------------
  // Moves and restores
  // ------------------------------------------------------------------------------------------

  /** A move that reports success leaves the file in the archive and out of the intake, all else equal. */
  lemma MoveSucceeds(parents: set<string>, f: Folders, faults: MoveFaults)
    requires Move(parents, f, faults).0 != MoveRaised
    ensures var after := Move(parents, f, faults).1;
            InArchive(after, f) && after - {f.source, f.archive} == parents - {f.source, f.archive}
  {
  }

  /** Without failures a move succeeds exactly when the file is in the intake or already archived. */
  lemma MoveSucceedsIff(parents: set<string>, f: Folders)
    requires f.source != f.archive
    ensures Move(parents, f, FLAWLESS).0 != MoveRaised <==> f.source in parents || f.archive in parents
  {
  }

  /** A second move or restore finds nothing to do. */
  lemma Idempotent(parents: set<string>, f: Folders, faults: MoveFaults, again: MoveFaults)
    requires !again.inspectRaises
    ensures var (status, after) := Move(parents, f, faults);
            status != MoveRaised ==> Move(after, f, again) == (AlreadyArchived, after)
    ensures var (status, after) := Restore(parents, f, faults);
            status != RestoreRaised ==> Restore(after, f, again) == (AlreadyRestored, after)
  {
  }

  /**
   * Restoring after a successful move gives back the exact parents if and only if the file was in the
   * intake and not in the archive folder before: a file in both folders loses the archive folder, and
   * one that was archived already is pulled into the intake.
   */
  lemma RestoreUndoesMoveIff(parents: set<string>, f: Folders, faults: MoveFaults)
    requires Move(parents, f, faults).0 != MoveRaised
    ensures var (status, after) := Restore(Move(parents, f, faults).1, f, FLAWLESS);
            status == Restored && (after == parents <==> InIntake(parents, f))
  {
    MoveSucceeds(parents, f, faults);
    var after := Restore(Move(parents, f, faults).1, f, FLAWLESS).1;
    assert f.source in after && f.archive !in after;
    if InIntake(parents, f) {
      assert after == parents;
    }
  }

  /** For a file of the intake: an update towards the archive, and what then happened the other way, cancel out. */
  predicate CancelsOut(parents: set<string>, f: Folders, update: Reply, reverse: Reply) {
    && (update.removes ==> reverse.adds)
    && (if f.archive in parents then !reverse.removes else update.adds ==> reverse.removes)
  }

  lemma CancelsOutIff(parents: set<string>, f: Folders, update: Reply, reverse: Reply)
    requires f.source != f.archive && f.source in parents
    ensures Updated(Updated(parents, f.archive, f.source, update), f.source, f.archive, reverse) == parents
       <==> CancelsOut(parents, f, update, reverse)
  {
    var end := Updated(Updated(parents, f.archive, f.source, update), f.source, f.archive, reverse);
    assert f.source in end <==> (update.removes ==> reverse.adds);
    assert f.archive in end <==> (f.archive in parents || update.adds) && !reverse.removes;
    assert end - {f.source, f.archive} == parents - {f.source, f.archive};
    if CancelsOut(parents, f, update, reverse) {
      assert end == parents;
    }
  }

  /** The update raised, or its effect could not be inspected: the move does not know what it did. */
  predicate LosesTrack(faults: MoveFaults) {
    faults.update.raises || faults.reinspectRaises
  }

  /** A move that raises leaves a file of the intake where it was exactly if its rollback made up for its update. */
  lemma RaisedMoveKeepsIntakeIff(parents: set<string>, f: Folders, faults: MoveFaults)
    requires f.source != f.archive && InIntake(parents, f) && Move(parents, f, faults).0 == MoveRaised
    ensures Move(parents, f, faults).1 == parents <==>
              || faults.inspectRaises
              || CancelsOut(parents, f, faults.update, if LosesTrack(faults) then NOTHING else faults.rollback)
  {
    CancelsOutIff(parents, f, faults.update, if LosesTrack(faults) then NOTHING else faults.rollback);
  }

  // ------------------------------------------------------------------------------------------
  // One archive run, under the lease
  // ------------------------------------------------------------------------------------------

  /** What intake recorded about the source file. */
  datatype Source = Source(sha256: Digest, details: Details)

  /** Name and type up to case; checksum and size where both are known. */
  predicate SameIdentity(source: Source, file: FileState) {
    && SameName(source.details.name, file.details.name)
    && SameName(Strip(source.details.mimeType), Strip(file.details.mimeType))
    && (source.details.md5 != "" && file.details.md5 != "" ==> source.details.md5 == file.details.md5)
    && (source.details.size.Some? && file.details.size.Some? ==> source.details.size == file.details.size)
    && !file.trashed
  }

  predicate SameName(expected: string, current: string) {
    current != "" && Lower(expected) == Lower(current)
  }

  datatype RunFaults = RunFaults(inspectRaises: bool, downloadRaises: bool, planChanged: bool, move: MoveFaults,
                                 postInspectRaises: bool, postDownloadRaises: bool, trashedMeanwhile: bool,
                                 restore: MoveFaults)

  /** Was the lifecycle written as archived, or a review opened? */
  datatype RunEnd = RunEnd(marked: bool, reviewed: bool, file: FileState)

  predicate ReadyToMove(source: Source, file: FileState, faults: RunFaults) {
    && !faults.inspectRaises && !faults.downloadRaises && Sha256(file.content) == source.sha256
    && SameIdentity(source, file) && !faults.planChanged
  }

  /** The checks after the move. */
  predicate PostChecksPass(source: Source, f: Folders, file: FileState, faults: RunFaults) {
    !faults.postInspectRaises && !faults.postDownloadRaises && SameIdentity(source, file)
    && InArchive(file.parents, f) && Sha256(file.content) == source.sha256
  }

  function ArchiveRun(source: Source, f: Folders, file: FileState, faults: RunFaults): RunEnd {
    if !ReadyToMove(source, file, faults) then RunEnd(false, true, file)
    else
      var (status, parents) := Move(file.parents, f, faults.move);
      if status == MoveRaised then RunEnd(false, true, file.(parents := parents))
      else
        var seen := AfterMove(f, file, faults);
        if PostChecksPass(source, f, seen, faults) then RunEnd(true, false, seen)
        else RunEnd(false, true, seen.(parents := Restore(parents, f, faults.restore).1))
  }

  /** The file as the checks after the move see it. */
  function AfterMove(f: Folders, file: FileState, faults: RunFaults): FileState {
    file.(parents := Move(file.parents, f, faults.move).1, trashed := file.trashed || faults.trashedMeanwhile)
  }

  /** One run of `_archive_document_with_lease` after its plan was found ready. */
  method ArchiveWithLease(source: Source, f: Folders, file: DriveFile, faults: RunFaults)
    returns (marked: bool, reviewed: bool)
    modifies file
    ensures RunEnd(marked, reviewed, file.View()) == ArchiveRun(source, f, old(file.View()), faults)
  {
    if faults.inspectRaises || faults.downloadRaises {
      return false, true;
    }
    if Sha256(file.content) != source.sha256 || !SameIdentity(source, file.View()) {
      return false, true;
    }
    if faults.planChanged {
      return false, true;
    }
    var status := file.MoveFile(f, faults.move);
    if status == MoveRaised {
      return false, true;
    }
    if faults.trashedMeanwhile {
      file.trashed := true;
    }
    var ok := !faults.postInspectRaises && !faults.postDownloadRaises;
    if ok {
      ok := SameIdentity(source, file.View()) && InArchive(file.parents, f) && Sha256(file.content) == source.sha256;
    }
    if !ok {
      var _ := file.RestoreFile(f, faults.restore);
      return false, true;
    }
    marked, reviewed := true, false;
  }

  /** Either archived and in the archive folder, or not marked and still where it was. */
  predicate AllOrNothing(f: Folders, before: set<string>, end: RunEnd) {
    if end.marked then InArchive(end.file.parents, f) else end.file.parents == before
  }

  /** The run reaches the move, and the move gets past its inspection. */
  predicate Moves(source: Source, f: Folders, file: FileState, faults: RunFaults) {
    ReadyToMove(source, file, faults) && f.source != f.archive && !faults.move.inspectRaises
  }

  /** After a move that reported success a check fails. */
  predicate FailsAfterMove(source: Source, f: Folders, file: FileState, faults: RunFaults) {
    Move(file.parents, f, faults.move).0 != MoveRaised && !PostChecksPass(source, f, AfterMove(f, file, faults), faults)
  }

  /** What the provider makes of the restore. */
  function RestoreReply(faults: RunFaults): Reply {
    if faults.restore.inspectRaises then NOTHING else faults.restore.update
  }

  /** What happens after the update of a move that does not end in a mark: nothing, the rollback, or the restore. */
  function ReverseReply(f: Folders, file: FileState, faults: RunFaults): Reply {
    if LosesTrack(faults.move) then NOTHING
    else if Move(file.parents, f, faults.move).0 == MoveRaised then faults.move.rollback
    else RestoreReply(faults)
  }

  /** The move raises, or a check after it fails. */
  predicate EndsUnmarked(source: Source, f: Folders, file: FileState, faults: RunFaults) {
    Move(file.parents, f, faults.move).0 == MoveRaised || FailsAfterMove(source, f, file, faults)
  }

  lemma RunFromIntake(source: Source, f: Folders, file: FileState, faults: RunFaults)
    requires Moves(source, f, file, faults) && f.source in file.parents
    ensures AllOrNothing(f, file.parents, ArchiveRun(source, f, file, faults)) <==>
              (EndsUnmarked(source, f, file, faults) ==>
                 CancelsOut(file.parents, f, faults.move.update, ReverseReply(f, file, faults)))
  {
    CancelsOutIff(file.parents, f, faults.move.update, ReverseReply(f, file, faults));
  }

  lemma RunFromElsewhere(source: Source, f: Folders, file: FileState, faults: RunFaults)
    requires Moves(source, f, file, faults) && f.source !in file.parents
    ensures AllOrNothing(f, file.parents, ArchiveRun(source, f, file, faults)) <==>
              (FailsAfterMove(source, f, file, faults) ==> !RestoreReply(faults).adds && !RestoreReply(faults).removes)
  {
    if FailsAfterMove(source, f, file, faults) {
      var restored := Updated(file.parents, f.source, f.archive, RestoreReply(faults));
      assert f.source in restored <==> RestoreReply(faults).adds;
      assert f.archive in restored <==> !RestoreReply(faults).removes;
    }
  }

  /**
   * Wherever the file lies, a run is all or nothing exactly under these conditions. From the intake:
   * if the run ends without a mark, the rollback or the restore makes up for what the update did, half
   * of it or all. For a file that is archived already: a failed check does not restore any of it. The
   * content never changes, and the run ends with the mark or with an open review.
   */
  lemma ArchiveRunAllOrNothingIff(source: Source, f: Folders, file: FileState, faults: RunFaults)
    ensures var end := ArchiveRun(source, f, file, faults);
            && end.file.content == file.content && end.reviewed == !end.marked
            && (AllOrNothing(f, file.parents, end) <==> (Moves(source, f, file, faults) ==>
                  if f.source in file.parents then
                    EndsUnmarked(source, f, file, faults) ==>
                      CancelsOut(file.parents, f, faults.move.update, ReverseReply(f, file, faults))
                  else FailsAfterMove(source, f, file, faults) ==>
                         !RestoreReply(faults).adds && !RestoreReply(faults).removes))
  {
    if Moves(source, f, file, faults) {
      if f.source in file.parents {
        RunFromIntake(source, f, file, faults);
      } else {
        RunFromElsewhere(source, f, file, faults);
      }
    }
  }

  /** A file archived already whose download fails in a later run is pulled into the intake, unmarked. */
  lemma ArchivedFileIsPulledBack(f: Folders, content: Bytes)
    requires f.source != f.archive
    ensures var details := Details("a.pdf", "application/pdf", "", None);
            var file := FileState({f.archive}, content, details, false);
            var faults := RunFaults(false, false, false, FLAWLESS, false, true, false, FLAWLESS);
            ArchiveRun(Source(Sha256(content), details), f, file, faults)
            == RunEnd(false, true, file.(parents := {f.source}))
  {
    assert Strip("application/pdf") == "application/pdf";
    assert {f.archive} + {f.source} - {f.archive} == {f.source};
  }
}
