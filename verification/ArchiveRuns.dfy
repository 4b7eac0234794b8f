/**
 * Whole runs of the archive protocol (src/operations/drive_wave_delivery.py): a worker that nothing
 * stops, a readback that is accepted, and what metadata read before them and written after do to the mark.
 */
module ArchiveRuns {
  import opened Text
  import opened Bytes
  import opened DriveArchiver
  import opened WaveEvidence
  import opened ArchiveProtocol
  import opened ArchiveLocation

  lemma {:induction false} RunJoins(s: World, first: seq<Action>, rest: seq<Action>)
    ensures Run(s, first + rest) == Run(Run(s, first), rest)
  {
    var n := |rest| - 1;
    if rest == [] {
      assert first + rest == first;
    } else {
      assert (first + rest)[..|first| + n] == first + rest[..n];
      RunJoins(s, first, rest[..n]);
    }
  }

  // ------------------------------------------------------------------------------------------
  // A readback
  // ------------------------------------------------------------------------------------------

  /** Nothing speaks against the document, and these are its bytes. */
  predicate IsReadable(s: World, id: string, content: Bytes) {
    && DocumentReasons(s.config, s.doc) == {} && AllExpected(s.doc) && s.config.maxAge >= 0
    && Strip(id) != "" && 0 < |content| <= MAX_BYTES && s.doc.sha256 == Sha256(content) && s.doc.size == Some(|content|)
  }

  /** An honest readback of the source bytes, up to its last write. */
  function HonestReadback(s: World, u: nat, id: string, content: Bytes): seq<Action> {
    [SubmitBytes(u, HonestEvidence(s.config, s.doc, id, s.now), content, s.doc.filename, s.doc.mimeType),
     RecordEvidence(u), WriteVerified(u)]
  }

  function AfterReadback(s: World, id: string, content: Bytes): World {
    s.(submitted := s.submitted + {content},
       accepted := s.accepted + [Accepted(HonestEvidence(s.config, s.doc, id, s.now), s.now)],
       doc := s.doc.(lifecycle := AttachmentVerified, reviews := ResolveReviews(s.doc.reviews)))
  }

  lemma HonestIsAccepted(config: Config, doc: Document, id: string, content: Bytes, now: int)
    requires DocumentReasons(config, doc) == {} && AllExpected(doc) && config.maxAge >= 0 && Strip(id) != ""
    requires doc.sha256 == Sha256(content) && doc.size == Some(|content|)
    ensures var e := HonestEvidence(config, doc, id, now);
            && doc.fromDrive && doc.inSourceFolder && FromBytes(e, content, doc.filename, doc.mimeType) == e
            && Normalize(doc, e, true) == e && Accepts(config, doc, e, true, now)
  {
    NamedDocument(config, doc);
    assert Strip("") == "";
    HonestHasNoReasons(config, doc, id, now);
    InConfiguredFolder(config, doc);
  }

  /** The submission of evidence that the server leaves as it is. */
  lemma SubmissionEnds(s: World, u: nat, e: Evidence, content: Bytes)
    requires u !in s.users && 0 < |content| <= MAX_BYTES && s.doc.fromDrive && s.doc.inSourceFolder
    requires FromBytes(e, content, s.doc.filename, s.doc.mimeType) == e && Normalize(s.doc, e, true) == e
    requires Accepts(s.config, s.doc, e, true, s.now)
    ensures Step(s, SubmitBytes(u, e, content, s.doc.filename, s.doc.mimeType))
         == s.(submitted := s.submitted + {content}, users := s.users[u := Verified(e)])
  {
    assert FromBytes(e, content, s.doc.filename, s.doc.mimeType) == e;
    CheckedEnds(s.(submitted := s.submitted + {content}), u, e);
  }

  lemma CheckedEnds(s: World, u: nat, e: Evidence)
    requires s.doc.fromDrive && s.doc.inSourceFolder && Normalize(s.doc, e, true) == e
    requires Accepts(s.config, s.doc, e, true, s.now)
    ensures Check(s, u, e, true) == s.(users := s.users[u := Verified(e)])
  {
  }

  lemma WritesEnd(s: World, u: nat, e: Evidence)
    requires u !in s.users
    ensures Step(Step(s.(users := s.users[u := Verified(e)]), RecordEvidence(u)), WriteVerified(u))
         == s.(accepted := s.accepted + [Accepted(e, s.now)],
               doc := s.doc.(lifecycle := AttachmentVerified, reviews := ResolveReviews(s.doc.reviews)))
  {
    var basis := Accepted(e, s.now);
    var recorded := s.(accepted := s.accepted + [basis], users := s.users[u := Verified(e)][u := Recorded(basis)]);
    assert Step(s.(users := s.users[u := Verified(e)]), RecordEvidence(u)) == recorded;
    assert recorded.users - {u} == s.users;
  }

  lemma ReadbackEnds(s: World, u: nat, id: string, content: Bytes)
    requires IsReadable(s, id, content) && u !in s.users
    ensures Run(s, HonestReadback(s, u, id, content)) == AfterReadback(s, id, content)
  {
    var e := HonestEvidence(s.config, s.doc, id, s.now);
    HonestIsAccepted(s.config, s.doc, id, content, s.now);
    SubmissionEnds(s, u, e, content);
    WritesEnd(s.(submitted := s.submitted + {content}), u, e);
    RunThree(s, SubmitBytes(u, e, content, s.doc.filename, s.doc.mimeType), RecordEvidence(u), WriteVerified(u));
  }

  lemma RunThree(s: World, a: Action, b: Action, c: Action)
    ensures Run(s, [a, b, c]) == Step(Step(Step(s, a), b), c)
  {
    RunTwo(s, a, b);
    assert [a, b, c][..2] == [a, b];
  }

  /** It takes a mark away whenever nothing speaks against the document. */
  lemma HonestReadbackUnmarks(s: World, u: nat, id: string, content: Bytes)
    requires IsMarked(s) && IsReadable(s, id, content) && u !in s.users
    ensures !IsMarked(Run(s, HonestReadback(s, u, id, content)))
  {
    ReadbackEnds(s, u, id, content);
  }

  /** And it makes the plan ready, if no export speaks against it. */
  lemma ReadbackMakesReady(s: World, id: string, content: Bytes)
    requires s.planner == PlanArchive && s.exports == [] && IsReadable(s, id, content)
    ensures CurrentPlan(AfterReadback(s, id, content)).Ready?
  {
    var doc := AfterReadback(s, id, content).doc;
    StillReadable(s, AttachmentVerified);
    assert HonestEvidence(s.config, doc, id, s.now) == HonestEvidence(s.config, s.doc, id, s.now);
    HonestIsReady(s.config, doc, id, s.now);
  }

  /** Neither the mark nor closed reviews speak against a document. */
  lemma StillReadable(s: World, lifecycle: Lifecycle)
    requires DocumentReasons(s.config, s.doc) == {} && AllExpected(s.doc)
    ensures var doc := s.doc.(lifecycle := lifecycle, reviews := ResolveReviews(s.doc.reviews));
            DocumentReasons(s.config, doc) == {} && AllExpected(doc)
  {
    var doc := s.doc.(lifecycle := lifecycle, reviews := ResolveReviews(s.doc.reviews));
    assert ExpectedFields(doc) == ExpectedFields(s.doc);
    NoReasonsIff(s.config, s.doc);
    assert forall r :: r in ResolveReviews(s.doc.reviews) ==> !r.open;
    NoReasonsIff(s.config, doc);
  }

  // ------------------------------------------------------------------------------------------
  // A worker that nothing stops
  // ------------------------------------------------------------------------------------------

  /** A ready plan, a free lease, and the file as intake recorded it, in the intake or archived already. */
  predicate CanArchive(s: World, w: nat) {
    && w !in s.workers && s.lease.None? && CurrentPlan(s).Ready? && s.accepted != []
    && Sha256(s.file.content) == s.doc.sha256 && SameIdentity(SourceOf(s.doc), s.file)
    && s.config.folders.source != s.config.folders.archive
    && (InIntake(s.file.parents, s.config.folders) || IsArchived(s))
  }

  /** Up to the final plan. */
  function PlanRun(w: nat): seq<Action> {
    [Begin(w), Acquire(w)] + [Replan(w), Load(w), Inspect(w)] + [Download(w), FinalPlan(w)]
  }

  function ArchiveRun(w: nat): seq<Action> {
    PlanRun(w) + [MoveFile(w, FLAWLESS), PostInspect(w), PostDownload(w, FLAWLESS)] + [Commit(w)]
  }

  /** The worker has the lease and is at `state`. */
  function Holding(s: World, w: nat, state: Worker): World {
    s.(workers := s.workers[w := state], lease := Some(w))
  }

  function InArchiveFolder(s: World): World {
    s.(file := s.file.(parents := Move(s.file.parents, s.config.folders, FLAWLESS).1))
  }

  lemma HoldingAgain(s: World, w: nat, state: Worker, to: Worker)
    ensures Advance(Holding(s, w, state), w, to) == Holding(s, w, to)
  {
    assert s.workers[w := state][w := to] == s.workers[w := to];
  }

  lemma LeaseEnds(s: World, w: nat)
    requires CanArchive(s, w)
    ensures Step(s, Begin(w)) == Advance(s, w, Planned)
    ensures Step(Advance(s, w, Planned), Acquire(w)) == Holding(s, w, Leased)
  {
    assert s.workers[w := Planned][w := Leased] == s.workers[w := Leased];
  }

  lemma ReplanEnds(s: World, w: nat)
    requires CanArchive(s, w)
    ensures Step(Holding(s, w, Leased), Replan(w)) == Holding(s, w, Replanned)
  {
    HoldingAgain(s, w, Leased, Replanned);
  }

  lemma LoadEnds(s: World, w: nat)
    ensures Step(Holding(s, w, Replanned), Load(w)) == Holding(s, w, Loaded(s.doc))
    ensures Step(Holding(s, w, Loaded(s.doc)), Inspect(w)) == Holding(s, w, Inspected(s.doc, s.file))
  {
    HoldingAgain(s, w, Replanned, Loaded(s.doc));
    HoldingAgain(s, w, Loaded(s.doc), Inspected(s.doc, s.file));
  }

  lemma DownloadEnds(s: World, w: nat)
    requires CanArchive(s, w)
    ensures Step(Holding(s, w, Inspected(s.doc, s.file)), Download(w)) == Holding(s, w, Checked(s.doc))
  {
    HoldingAgain(s, w, Inspected(s.doc, s.file), Checked(s.doc));
  }

  lemma FinalPlanEnds(s: World, w: nat)
    requires CanArchive(s, w)
    ensures Step(Holding(s, w, Checked(s.doc)), FinalPlan(w)) == Holding(s, w, Cleared(s.doc, Latest(s.accepted).value))
  {
    HoldingAgain(s, w, Checked(s.doc), Cleared(s.doc, Latest(s.accepted).value));
  }

  lemma PlanEnds(s: World, w: nat)
    requires CanArchive(s, w)
    ensures Run(s, PlanRun(w)) == Holding(s, w, Cleared(s.doc, Latest(s.accepted).value))
  {
    LeaseEnds(s, w);
    RunTwo(s, Begin(w), Acquire(w));
    ReplanEnds(s, w);
    LoadEnds(s, w);
    RunThree(Holding(s, w, Leased), Replan(w), Load(w), Inspect(w));
    DownloadEnds(s, w);
    FinalPlanEnds(s, w);
    RunTwo(Holding(s, w, Inspected(s.doc, s.file)), Download(w), FinalPlan(w));
    RunJoins(s, [Begin(w), Acquire(w)], [Replan(w), Load(w), Inspect(w)]);
    RunJoins(s, [Begin(w), Acquire(w)] + [Replan(w), Load(w), Inspect(w)], [Download(w), FinalPlan(w)]);
  }

  lemma MoveEnds(s: World, w: nat, doc: Document, basis: Accepted)
    requires s.config.folders.source != s.config.folders.archive
    requires InIntake(s.file.parents, s.config.folders) || IsArchived(s)
    ensures Step(Holding(s, w, Cleared(doc, basis)), MoveFile(w, FLAWLESS))
         == Holding(InArchiveFolder(s), w, Moved(doc, basis))
    ensures IsArchived(InArchiveFolder(s))
  {
  }

  lemma InspectEnds(s: World, w: nat, doc: Document, basis: Accepted)
    ensures Step(Holding(s, w, Moved(doc, basis)), PostInspect(w)) == Holding(s, w, PostInspected(doc, basis, s.file))
  {
    HoldingAgain(s, w, Moved(doc, basis), PostInspected(doc, basis, s.file));
  }

  lemma ChecksEnd(s: World, w: nat, doc: Document, basis: Accepted)
    requires IsArchived(s) && SameIdentity(SourceOf(doc), s.file) && Sha256(s.file.content) == doc.sha256
    ensures Step(Holding(s, w, PostInspected(doc, basis, s.file)), PostDownload(w, FLAWLESS))
         == Holding(s, w, PostChecked(doc, basis, s.file, s.file.content))
  {
    HoldingAgain(s, w, PostInspected(doc, basis, s.file), PostChecked(doc, basis, s.file, s.file.content));
  }

  function Marked(s: World, mark: Mark): World {
    s.(doc := s.doc.(lifecycle := ArchivedMark), marks := s.marks + [mark])
  }

  lemma CommitEnds(s: World, mark: Mark, doc: Document)
    requires mark.worker !in s.workers && s.lease.None?
    ensures Step(Holding(s, mark.worker, PostChecked(doc, mark.basis, mark.file, mark.content)), Commit(mark.worker))
         == Marked(s, mark)
  {
    var w := mark.worker;
    assert s.workers[w := PostChecked(doc, mark.basis, mark.file, mark.content)] - {w} == s.workers;
  }

  function AfterArchive(s: World, w: nat): World
    requires s.accepted != []
  {
    var t := InArchiveFolder(s);
    Marked(t, Mark(w, Latest(s.accepted).value, t.file, t.file.content))
  }

  /** A worker that nothing stops marks the document, with its file archived; nothing else is left behind. */
  lemma UnhinderedRunMarks(s: World, w: nat)
    requires CanArchive(s, w)
    ensures Run(s, ArchiveRun(w)) == AfterArchive(s, w)
    ensures IsMarked(AfterArchive(s, w)) && IsArchived(AfterArchive(s, w))
  {
    var t, basis := InArchiveFolder(s), Latest(s.accepted).value;
    var mark := Mark(w, basis, t.file, t.file.content);
    PlanEnds(s, w);
    MoveEnds(s, w, s.doc, basis);
    InspectEnds(t, w, s.doc, basis);
    ChecksEnd(t, w, s.doc, basis);
    RunThree(Holding(s, w, Cleared(s.doc, basis)), MoveFile(w, FLAWLESS), PostInspect(w), PostDownload(w, FLAWLESS));
    CommitEnds(t, mark, s.doc);
    RunOne(Holding(t, w, PostChecked(s.doc, basis, t.file, t.file.content)), Commit(w));
    RunJoins(s, PlanRun(w), [MoveFile(w, FLAWLESS), PostInspect(w), PostDownload(w, FLAWLESS)]);
    RunJoins(s, PlanRun(w) + [MoveFile(w, FLAWLESS), PostInspect(w), PostDownload(w, FLAWLESS)], [Commit(w)]);
  }

  // ------------------------------------------------------------------------------------------
  // Metadata read before and written after
  // ------------------------------------------------------------------------------------------

  function Opened(s: World, u: nat): World {
    s.(users := s.users[u := Editing(s.doc.lifecycle)])
  }

  lemma OpenEnds(s: World, u: nat)
    requires u !in s.users
    ensures Run(s, [OpenDocument(u)]) == Opened(s, u)
  {
    RunOne(s, OpenDocument(u));
  }

  lemma OpenedCanArchive(s: World, u: nat, w: nat)
    requires CanArchive(s, w)
    ensures CanArchive(Opened(s, u), w)
  {
  }

  lemma SaveEnds(s: World, u: nat, edited: Document)
    requires u in s.users && s.users[u].Editing?
    ensures var t := Run(s, [WriteBack(u, edited)]);
            t.doc.lifecycle == s.users[u].lifecycle && t.file == s.file && t.config == s.config
  {
    RunOne(s, WriteBack(u, edited));
  }

  /** An editor opens the document, a worker archives it, the editor saves: the mark is gone, without any readback. */
  lemma StaleEditUnmarks(s: World, u: nat, w: nat, edited: Document)
    requires CanArchive(s, w) && u !in s.users && !IsMarked(s)
    ensures IsMarked(Run(s, [OpenDocument(u)] + ArchiveRun(w)))
    ensures var t := Run(s, [OpenDocument(u)] + ArchiveRun(w) + [WriteBack(u, edited)]);
            !IsMarked(t) && IsArchived(t)
  {
    OpenEnds(s, u);
    OpenedCanArchive(s, u, w);
    UnhinderedRunMarks(Opened(s, u), w);
    SaveEnds(AfterArchive(Opened(s, u), w), u, edited);
    RunJoins(s, [OpenDocument(u)], ArchiveRun(w));
    RunJoins(s, [OpenDocument(u)] + ArchiveRun(w), [WriteBack(u, edited)]);
  }

  /** A second worker finds the file archived, stops after its move, and restores it. */
  function RestoringRun(w: nat): seq<Action> {
    PlanRun(w) + [MoveFile(w, FLAWLESS), Raise(w, FLAWLESS)]
  }

  lemma RestoreEnds(s: World, w: nat, doc: Document, basis: Accepted)
    requires w !in s.workers && s.lease.None? && IsArchived(s) && s.config.folders.source != s.config.folders.archive
    ensures var t := Step(Holding(s, w, Moved(doc, basis)), Raise(w, FLAWLESS));
            t.users == s.users && t.config == s.config && InIntake(t.file.parents, s.config.folders)
  {
    var f := s.config.folders;
    assert Restore(s.file.parents, f, FLAWLESS).1 == s.file.parents + {f.source} - {f.archive};
  }

  lemma RestoringRunEnds(s: World, w: nat)
    requires CanArchive(s, w) && IsArchived(s)
    ensures var t := Run(s, RestoringRun(w));
            t.users == s.users && t.config == s.config && InIntake(t.file.parents, s.config.folders)
  {
    var basis := Latest(s.accepted).value;
    PlanEnds(s, w);
    MoveEnds(s, w, s.doc, basis);
    RestoreEnds(InArchiveFolder(s), w, s.doc, basis);
    RunTwo(Holding(s, w, Cleared(s.doc, basis)), MoveFile(w, FLAWLESS), Raise(w, FLAWLESS));
    RunJoins(s, PlanRun(w), [MoveFile(w, FLAWLESS), Raise(w, FLAWLESS)]);
  }

  lemma ReadBackAgain(s: World, v: nat, w: nat, id: string, content: Bytes)
    requires s.planner == PlanArchive && s.exports == [] && IsReadable(s, id, content) && v !in s.users
    requires w !in s.workers && s.lease.None? && IsArchived(s)
    requires Sha256(s.file.content) == s.doc.sha256 && SameIdentity(SourceOf(s.doc), s.file)
    ensures Run(s, HonestReadback(s, v, id, content)) == AfterReadback(s, id, content)
    ensures CanArchive(AfterReadback(s, id, content), w) && IsArchived(AfterReadback(s, id, content))
  {
    ReadbackEnds(s, v, id, content);
    ReadbackMakesReady(s, id, content);
    NoReasonsIff(s.config, s.doc);
  }

  lemma ArchivedIsReadable(s: World, u: nat, w: nat, id: string, content: Bytes)
    requires s.accepted != [] && IsReadable(s, id, content)
    ensures IsReadable(Opened(AfterArchive(s, w), u), id, content)
  {
    var doc := s.doc.(lifecycle := ArchivedMark);
    assert ExpectedFields(doc) == ExpectedFields(s.doc);
    NoReasonsIff(s.config, s.doc);
    NoReasonsIff(s.config, doc);
  }

  /** Read back, archive again up to a failure, save. */
  function RemarkingRun(s: World, u: nat, v: nat, w: nat, id: string, content: Bytes, edited: Document): seq<Action> {
    HonestReadback(s, v, id, content) + RestoringRun(w) + [WriteBack(u, edited)]
  }

  lemma RemarkingRunEnds(s: World, u: nat, v: nat, w: nat, id: string, content: Bytes, edited: Document)
    requires s.planner == PlanArchive && s.exports == [] && IsReadable(s, id, content)
    requires u in s.users && s.users[u] == Editing(ArchivedMark) && v !in s.users
    requires w !in s.workers && s.lease.None? && IsArchived(s)
    requires Sha256(s.file.content) == s.doc.sha256 && SameIdentity(SourceOf(s.doc), s.file)
    ensures var t := Run(s, RemarkingRun(s, u, v, w, id, content, edited));
            IsMarked(t) && InIntake(t.file.parents, t.config.folders)
  {
    ReadBackAgain(s, v, w, id, content);
    RestoringRunEnds(AfterReadback(s, id, content), w);
    SaveEnds(Run(AfterReadback(s, id, content), RestoringRun(w)), u, edited);
    RunJoins(s, HonestReadback(s, v, id, content), RestoringRun(w));
    RunJoins(s, HonestReadback(s, v, id, content) + RestoringRun(w), [WriteBack(u, edited)]);
  }

  /** Archive, open, and then that run. */
  function StaleRun(s: World, u: nat, v: nat, w: nat, id: string, content: Bytes, edited: Document): seq<Action>
    requires s.accepted != []
  {
    ArchiveRun(w) + [OpenDocument(u)] + RemarkingRun(Opened(AfterArchive(s, w), u), u, v, w, id, content, edited)
  }

  lemma ArchivedIsThere(s: World, u: nat, w: nat)
    requires CanArchive(s, w) && u !in s.users
    ensures var t := Opened(AfterArchive(s, w), u);
            && Run(s, ArchiveRun(w) + [OpenDocument(u)]) == t && IsArchived(t)
            && Sha256(t.file.content) == t.doc.sha256 && SameIdentity(SourceOf(t.doc), t.file)
  {
    UnhinderedRunMarks(s, w);
    OpenEnds(AfterArchive(s, w), u);
    RunJoins(s, ArchiveRun(w), [OpenDocument(u)]);
  }

  /** Nobody moves the file from outside. */
  predicate Untampered(actions: seq<Action>) {
    forall i :: 0 <= i < |actions| ==> !actions[i].Tamper?
  }

  lemma StaleRunIsUntampered(s: World, u: nat, v: nat, w: nat, id: string, content: Bytes, edited: Document)
    requires s.accepted != []
    ensures Untampered(StaleRun(s, u, v, w, id, content, edited))
  {
    var reading := Opened(AfterArchive(s, w), u);
    assert Untampered(ArchiveRun(w)) && Untampered(RestoringRun(w));
    assert Untampered(HonestReadback(reading, v, id, content));
  }

  /**
   * Wherever a document can be archived and read back, a stale edit can leave it marked with its file in
   * the intake, although nobody moves the file from outside.
   */
  lemma StaleEditMisplacesMark(s: World, u: nat, v: nat, w: nat, id: string, content: Bytes, edited: Document)
    requires s.planner == PlanArchive && s.exports == [] && CanArchive(s, w) && IsReadable(s, id, content)
    requires u != v && u !in s.users && v !in s.users
    ensures var t := Run(s, StaleRun(s, u, v, w, id, content, edited));
            IsMarked(t) && InIntake(t.file.parents, t.config.folders)
    ensures Untampered(StaleRun(s, u, v, w, id, content, edited))
  {
    StaleRunIsUntampered(s, u, v, w, id, content, edited);
    var reading := Opened(AfterArchive(s, w), u);
    ArchivedIsThere(s, u, w);
    ArchivedIsReadable(s, u, w, id, content);
    MarkIsRead(s, u, w);
    RemarkingRunEnds(reading, u, v, w, id, content, edited);
    RunJoins(s, ArchiveRun(w) + [OpenDocument(u)], RemarkingRun(reading, u, v, w, id, content, edited));
  }

  lemma MarkIsRead(s: World, u: nat, w: nat)
    requires s.accepted != []
    ensures var t := Opened(AfterArchive(s, w), u);
            && t.users == s.users[u := Editing(ArchivedMark)] && t.workers == s.workers && t.lease == s.lease
            && t.planner == s.planner && t.exports == s.exports
  {
  }

  // ------------------------------------------------------------------------------------------
  // From the beginning
  // ------------------------------------------------------------------------------------------

  /** Nothing has happened yet, nothing speaks against the document, and its file is in the intake. */
  ghost predicate CanStart(s: World, id: string, content: Bytes) {
    && Initial(s) && s.exports == [] && IsReadable(s, id, content)
    && Sha256(s.file.content) == s.doc.sha256 && SameIdentity(SourceOf(s.doc), s.file)
    && s.config.folders.source != s.config.folders.archive && InIntake(s.file.parents, s.config.folders)
  }

  /** Read back once, with nobody else around. */
  predicate IsProceeding(s: World, id: string, content: Bytes) {
    && s.users == map[] && s.exports == [] && CanArchive(s, 0) && IsReadable(s, id, content)
  }

  ghost predicate IsReadingBack(start: World, actions: seq<Action>, id: string, content: Bytes) {
    var t := Run(start, actions);
    Untampered(actions) && t.planner == PlanArchive && IsProceeding(t, id, content)
  }

  lemma ProceedsAfterReadback(s: World, id: string, content: Bytes)
    requires CanStart(s, id, content)
    ensures IsProceeding(AfterReadback(s, id, content), id, content)
  {
    ReadbackMakesReady(s, id, content);
    StillReadable(s, AttachmentVerified);
  }

  lemma FirstReadback(s: World, id: string, content: Bytes)
    requires CanStart(s, id, content)
    ensures IsReadingBack(s, HonestReadback(s, 0, id, content), id, content)
  {
    ReadbackEnds(s, 0, id, content);
    ProceedsAfterReadback(s, id, content);
    UntamperedRuns(s, 0, 0, id, content);
  }

  predicate IsArchiving(start: World, actions: seq<Action>) {
    var t := Run(start, actions);
    Untampered(actions) && IsMarked(t) && IsArchived(t)
  }

  /** A mark whose file is in the intake, although nobody moved it from outside. */
  predicate IsMisplacing(start: World, actions: seq<Action>) {
    var t := Run(start, actions);
    Untampered(actions) && IsMarked(t) && InIntake(t.file.parents, t.config.folders)
  }

  lemma UntamperedJoins(first: seq<Action>, rest: seq<Action>)
    requires Untampered(first) && Untampered(rest)
    ensures Untampered(first + rest)
  {
  }

  lemma UntamperedRuns(s: World, v: nat, w: nat, id: string, content: Bytes)
    ensures Untampered(ArchiveRun(w)) && Untampered(HonestReadback(s, v, id, content))
  {
  }

  lemma RunsToMark(start: World, first: seq<Action>, id: string, content: Bytes)
    requires IsReadingBack(start, first, id, content)
    ensures IsArchiving(start, first + ArchiveRun(0))
  {
    var s := Run(start, first);
    UnhinderedRunMarks(s, 0);
    UntamperedRuns(s, 0, 0, id, content);
    UntamperedJoins(first, ArchiveRun(0));
    RunJoins(start, first, ArchiveRun(0));
  }

  lemma RunsToMisplacedMark(start: World, first: seq<Action>, id: string, content: Bytes)
    requires IsReadingBack(start, first, id, content)
    ensures IsMisplacing(start, first + StaleRun(Run(start, first), 0, 1, 0, id, content, start.doc))
  {
    var s := Run(start, first);
    var rest := StaleRun(s, 0, 1, 0, id, content, start.doc);
    StaleEditMisplacesMark(s, 0, 1, 0, id, content, start.doc);
    UntamperedJoins(first, rest);
    RunJoins(start, first, rest);
  }

  ghost predicate CanBeMarked(start: World) {
    exists actions :: IsArchiving(start, actions)
  }

  ghost predicate CanBeMisplaced(start: World) {
    exists actions :: IsMisplacing(start, actions)
  }

  lemma ReadBackRuns(start: World, first: seq<Action>, id: string, content: Bytes)
    requires IsReadingBack(start, first, id, content)
    ensures CanBeMarked(start) && CanBeMisplaced(start)
  {
    RunsToMark(start, first, id, content);
    RunsToMisplacedMark(start, first, id, content);
  }

  /** Every such beginning has a run to a mark, and a run to a misplaced mark. */
  lemma MarksFromTheBeginning(s: World, id: string, content: Bytes)
    requires CanStart(s, id, content)
    ensures CanBeMarked(s) && CanBeMisplaced(s)
  {
    FirstReadback(s, id, content);
    ReadBackRuns(s, HonestReadback(s, 0, id, content), id, content);
  }

  /** A document of one byte, with its file in the intake. */
  function SampleWorld(): World {
    World(PlanArchive, SAMPLE_CONFIG, SampleDocument([7]), [], [], {}, None,
          FileState({"intake"}, [7], Details("a.pdf", "application/pdf", "", Some(1)), false), map[], map[], 0, [])
  }

  lemma SampleIsReadable()
    ensures Initial(SampleWorld()) && IsReadable(SampleWorld(), "1", [7])
  {
    SampleIsEligible(SampleDocument([7]), [7]);
    assert Strip("1") == "1";
  }

  lemma SampleFileMatches()
    ensures SameIdentity(SourceOf(SampleWorld().doc), SampleWorld().file)
  {
    assert Strip("application/pdf") == "application/pdf";
  }

  lemma SampleCanStart()
    ensures CanStart(SampleWorld(), "1", [7])
  {
    SampleIsReadable();
    SampleFileMatches();
    assert |"intake"| != |"archive"|;
  }
}
