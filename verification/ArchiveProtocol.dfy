/**
 * Archiving one document while everything else goes on: workers, evidence submissions, edits,
 * reviews, the clock and other users of the Drive interleave step by step
 * (src/operations/drive_wave_delivery.py). Whoever writes the metadata of the document writes all of
 * it, the lifecycle included, as read earlier (src/operations/local_review.py,
 * src/operations/local_processing.py). The lease is held until it is released.
 */
module ArchiveProtocol {
  import opened Text
  import opened Bytes
  import opened DriveArchiver
  import opened WaveEvidence

  /** Where a worker is, and what it remembers from earlier steps. */
  datatype Worker =
    | Planned
    | Leased
    | Replanned
    | Loaded(doc: Document)
    | Inspected(doc: Document, file: FileState)
    | Checked(doc: Document)
    | Cleared(doc: Document, basis: Accepted)
    | Moved(doc: Document, basis: Accepted)
    | PostInspected(doc: Document, basis: Accepted, file: FileState)
    | PostChecked(doc: Document, basis: Accepted, file: FileState, content: Bytes)

  /** A lifecycle written as archived: the evidence of the final plan and what was seen after the move. */
  datatype Mark = Mark(worker: nat, basis: Accepted, file: FileState, content: Bytes)

  /** Someone who has read the document and still has something to write. */
  datatype User =
    | Editing(lifecycle: Lifecycle)     // an edit that will write the metadata back as read
    | Verified(evidence: Evidence)      // evidence found acceptable, to be recorded
    | Recorded(basis: Accepted)         // recorded evidence, whose lifecycle is to be written

  /** How the plan is made, as a value so that proofs about steps need not look into it. */
  type Planner = (Config, Document, seq<Export>, Option<Accepted>, int) -> Plan

  datatype World = World(
    planner: Planner, config: Config, doc: Document, exports: seq<Export>, accepted: seq<Accepted>,
    submitted: set<Bytes>, lease: Option<nat>, file: FileState, workers: map<nat, Worker>, users: map<nat, User>,
    now: int, marks: seq<Mark>)

  datatype Action =
    | Tick(seconds: nat)
    | SubmitMetadata(user: nat, evidence: Evidence)
    | SubmitBytes(user: nat, evidence: Evidence, content: Bytes, filename: string, mimeType: string)
    | RecordEvidence(user: nat)
    | WriteVerified(user: nat)
    | OpenDocument(user: nat)
    | WriteBack(user: nat, edited: Document)
    | Abandon(user: nat)
    | EditFields(edited: Document, exports: seq<Export>)
    | Tamper(file: FileState)
    | Begin(worker: nat)
    | Acquire(worker: nat)
    | Replan(worker: nat)
    | Load(worker: nat)
    | Inspect(worker: nat)
    | Download(worker: nat)
    | FinalPlan(worker: nat)
    | MoveFile(worker: nat, faults: MoveFaults)
    | PostInspect(worker: nat)
    | PostDownload(worker: nat, faults: MoveFaults)
    | Commit(worker: nat)
    | Raise(worker: nat, faults: MoveFaults)

  // ------------------------------------------------------------------------------------------
  // Steps
  // ------------------------------------------------------------------------------------------

  function Latest(accepted: seq<Accepted>): Option<Accepted> {
    if accepted == [] then None else Some(accepted[|accepted| - 1])
  }

  function CurrentPlan(s: World): Plan {
    s.planner(s.config, s.doc, s.exports, Latest(s.accepted), s.now)
  }

  function SourceOf(doc: Document): Source {
    Source(doc.sha256, Details(doc.filename, doc.mimeType, doc.md5,
                               if doc.size.Some? then Some(doc.size.value) else None))
  }

  function ResolveReviews(reviews: seq<Review>): seq<Review> {
    seq(|reviews|, i requires 0 <= i < |reviews| =>
      if reviews[i].aboutArchive then reviews[i].(open := false) else reviews[i])
  }

  /** The first part of `record_attachment_evidence`: accepted evidence is on its way to the audit log. */
  function Check(s: World, u: nat, e: Evidence, readback: bool): World {
    if !s.doc.fromDrive || !s.doc.inSourceFolder || !Accepts(s.config, s.doc, e, readback, s.now) then s
    else s.(users := s.users[u := Verified(Normalize(s.doc, e, readback))])
  }

  /** An edit cannot change the checksum; the lifecycle is the one that is given. */
  function Edited(s: World, edited: Document, lifecycle: Lifecycle): Document {
    edited.(sha256 := s.doc.sha256, lifecycle := lifecycle)
  }

  function LeaveUser(s: World, u: nat): World {
    s.(users := s.users - {u})
  }

  predicate IsSubmission(a: Action) {
    a.SubmitMetadata? || a.SubmitBytes?
  }

  /** Submitting evidence and opening a document are for users with nothing to write yet. */
  function NewUserStep(s: World, a: Action): World
    requires IsSubmission(a) || a.OpenDocument?
  {
    match a
    case SubmitMetadata(u, e) => Check(s, u, e, false)
    case SubmitBytes(u, e, content, filename, mimeType) =>
      if content == [] then Check(s, u, e, false)
      else if |content| > MAX_BYTES then s
      else Check(s.(submitted := s.submitted + {content}), u, FromBytes(e, content, filename, mimeType), true)
    case OpenDocument(u) => s.(users := s.users[u := Editing(s.doc.lifecycle)])
  }

  predicate IsWrite(a: Action) {
    a.RecordEvidence? || a.WriteVerified? || a.WriteBack? || a.Abandon?
  }

  /** The writes do not look at the document again. */
  function WriteStep(s: World, a: Action): World
    requires IsWrite(a) && a.user in s.users
  {
    var u := a.user;
    match (a, s.users[u])
    case (RecordEvidence(_), Verified(e)) =>
      s.(accepted := s.accepted + [Accepted(e, s.now)], users := s.users[u := Recorded(Accepted(e, s.now))])
    case (WriteVerified(_), Recorded(_)) =>
      LeaveUser(s.(doc := s.doc.(lifecycle := AttachmentVerified, reviews := ResolveReviews(s.doc.reviews))), u)
    case (WriteBack(_, edited), Editing(lifecycle)) => LeaveUser(s.(doc := Edited(s, edited, lifecycle)), u)
    case (Abandon(_), _) => LeaveUser(s, u)
    case _ => s
  }

  /** A blocked run leaves an open review about the archive. */
  function EnsureReview(doc: Document): Document {
    if exists r :: r in doc.reviews && r.aboutArchive && r.open then doc
    else doc.(reviews := doc.reviews + [Review(true, true)])
  }

  /** The worker is done; `finally` releases its lease. */
  function Leave(s: World, w: nat): World {
    s.(workers := s.workers - {w}, lease := if s.lease == Some(w) then None else s.lease)
  }

  function Give(s: World, w: nat): World {
    Leave(s.(doc := EnsureReview(s.doc)), w)
  }

  function Advance(s: World, w: nat, to: Worker): World {
    s.(workers := s.workers[w := to])
  }

  /** Something raised inside the guarded part: a file that was moved is restored, as far as the provider lets it. */
  function Fail(s: World, w: nat, faults: MoveFaults): World
    requires w in s.workers
  {
    var rolledBack :=
      if s.workers[w].Moved? || s.workers[w].PostInspected?
      then s.(file := s.file.(parents := Restore(s.file.parents, s.config.folders, faults).1)) else s;
    Give(rolledBack, w)
  }

  function MoveStep(s: World, w: nat, faults: MoveFaults): World
    requires w in s.workers && s.workers[w].Cleared?
  {
    var (status, parents) := Move(s.file.parents, s.config.folders, faults);
    var after := s.(file := s.file.(parents := parents));
    if status == MoveRaised then Give(after, w)
    else Advance(after, w, Moved(s.workers[w].doc, s.workers[w].basis))
  }

  function ReplanStep(s: World, w: nat, plan: Plan): World {
    if plan.Ready? then Advance(s, w, Replanned)
    else if plan.AlreadyArchivedPlan? then Leave(s, w)
    else Give(s, w)
  }

  /** The evidence of a ready plan. */
  function ReadyBasis(s: World): Option<Accepted> {
    if CurrentPlan(s).Ready? then Latest(s.accepted) else None
  }

  function FinalPlanStep(s: World, w: nat, doc: Document, basis: Option<Accepted>): World {
    if basis.Some? then Advance(s, w, Cleared(doc, basis.value)) else Give(s, w)
  }

  function BeginStep(s: World, w: nat, plan: Plan): World {
    if w in s.workers then s
    else if plan.Ready? then Advance(s, w, Planned)
    else if plan.AlreadyArchivedPlan? then s
    else s.(doc := EnsureReview(s.doc))
  }

  /** Up to the final plan nothing outside the ledger changes. */
  function PlanStep(s: World, a: Action): World
    requires IsPlanAction(a) && a.worker in s.workers
  {
    var w := a.worker;
    match (a, s.workers[w])
    case (Acquire(_), Planned) =>
      if s.lease.None? then Advance(s.(lease := Some(w)), w, Leased) else s.(workers := s.workers - {w})
    case (Replan(_), Leased) => ReplanStep(s, w, CurrentPlan(s))
    case (Load(_), Replanned) => Advance(s, w, Loaded(s.doc))
    case (Inspect(_), Loaded(doc)) => Advance(s, w, Inspected(doc, s.file))
    case (Download(_), Inspected(doc, seen)) =>
      if Sha256(s.file.content) == doc.sha256 && SameIdentity(SourceOf(doc), seen) then Advance(s, w, Checked(doc))
      else Give(s, w)
    case (FinalPlan(_), Checked(doc)) => FinalPlanStep(s, w, doc, ReadyBasis(s))
    case _ => s
  }

  /** The checks on what was seen after the move. */
  predicate PassesChecks(s: World, worker: Worker) {
    && worker.PostInspected? && SameIdentity(SourceOf(worker.doc), worker.file)
    && InArchive(worker.file.parents, s.config.folders) && Sha256(s.file.content) == worker.doc.sha256
  }

  function ArchiveStep(s: World, a: Action): World
    requires IsArchiveAction(a) && a.worker in s.workers
  {
    var w := a.worker;
    match (a, s.workers[w])
    case (MoveFile(_, faults), Cleared(_, _)) => MoveStep(s, w, faults)
    case (PostInspect(_), Moved(doc, basis)) => Advance(s, w, PostInspected(doc, basis, s.file))
    case (PostDownload(_, faults), PostInspected(doc, basis, seen)) =>
      if PassesChecks(s, s.workers[w]) then Advance(s, w, PostChecked(doc, basis, seen, s.file.content))
      else Fail(s, w, faults)
    case (Commit(_), PostChecked(doc, basis, seen, content)) =>
      Leave(s.(doc := s.doc.(lifecycle := ArchivedMark), marks := s.marks + [Mark(w, basis, seen, content)]), w)
    case (Raise(_, faults), state) =>
      if state.Planned? || state.Leased? || state.Replanned? || state.PostChecked? then Leave(s, w)
      else Fail(s, w, faults)
    case _ => s
  }

  predicate IsPlanAction(a: Action) {
    a.Acquire? || a.Replan? || a.Load? || a.Inspect? || a.Download? || a.FinalPlan?
  }

  predicate IsArchiveAction(a: Action) {
    a.MoveFile? || a.PostInspect? || a.PostDownload? || a.Commit? || a.Raise?
  }

  predicate IsWorkerAction(a: Action) {
    IsPlanAction(a) || IsArchiveAction(a)
  }

  function WorkerStep(s: World, a: Action): World
    requires IsWorkerAction(a) && a.worker in s.workers
  {
    if IsPlanAction(a) then PlanStep(s, a) else ArchiveStep(s, a)
  }

  function OutsideStep(s: World, a: Action): World {
    match a
    case Tick(seconds) => s.(now := s.now + seconds)
    case EditFields(edited, exports) => s.(doc := Edited(s, edited, s.doc.lifecycle), exports := exports)
    case Tamper(file) => s.(file := file)
    case Begin(w) => BeginStep(s, w, CurrentPlan(s))
    case _ => s
  }

  function Step(s: World, a: Action): World {
    if IsWorkerAction(a) then (if a.worker in s.workers then WorkerStep(s, a) else s)
    else if IsWrite(a) then (if a.user in s.users then WriteStep(s, a) else s)
    else if IsSubmission(a) || a.OpenDocument? then (if a.user in s.users then s else NewUserStep(s, a))
    else OutsideStep(s, a)
  }

  function Run(s: World, actions: seq<Action>): World {
    if actions == [] then s else Step(Run(s, actions[..|actions| - 1]), actions[|actions| - 1])
  }

  predicate IsMarked(s: World) {
    s.doc.lifecycle == ArchivedMark
  }

  /** Nothing submitted, accepted, leased or archived yet. */
  ghost predicate Initial(s: World) {
    && s.planner == PlanArchive && s.accepted == [] && s.submitted == {} && s.lease == None
    && s.workers == map[] && s.users == map[] && s.marks == [] && s.doc.lifecycle == Unset
  }

  // ------------------------------------------------------------------------------------------
  // What every interleaving keeps
  // ------------------------------------------------------------------------------------------

  /** Evidence on bytes that were submitted and are those of the source. */
  ghost predicate Backed(s: World, e: Evidence) {
    && e.readbackVerified && e.attachmentSha == s.doc.sha256
    && exists c :: c in s.submitted && Sha256(c) == s.doc.sha256
  }

  ghost predicate Proven(s: World, a: Accepted) {
    a in s.accepted && Backed(s, a.evidence)
  }

  /** What was seen of the file after the move. */
  predicate SeenArchived(s: World, file: FileState, content: Bytes) {
    InArchive(file.parents, s.config.folders) && !file.trashed && Sha256(content) == s.doc.sha256
  }

  ghost predicate WorkerInv(s: World, w: nat)
    requires w in s.workers
  {
    && (!s.workers[w].Planned? ==> s.lease == Some(w))
    && match s.workers[w]
       case Planned => true
       case Leased => true
       case Replanned => true
       case Loaded(doc) => doc.sha256 == s.doc.sha256
       case Inspected(doc, _) => doc.sha256 == s.doc.sha256
       case Checked(doc) => doc.sha256 == s.doc.sha256
       case Cleared(doc, basis) => doc.sha256 == s.doc.sha256 && Proven(s, basis)
       case Moved(doc, basis) => doc.sha256 == s.doc.sha256 && Proven(s, basis)
       case PostInspected(doc, basis, _) => doc.sha256 == s.doc.sha256 && Proven(s, basis)
       case PostChecked(doc, basis, file, content) => Proven(s, basis) && SeenArchived(s, file, content)
  }

  ghost predicate UserInv(s: World, u: nat)
    requires u in s.users
  {
    match s.users[u]
    case Editing(lifecycle) => lifecycle == ArchivedMark ==> s.marks != []
    case Verified(e) => Backed(s, e)
    case Recorded(basis) => Proven(s, basis)
  }

  ghost predicate MarkInv(s: World, m: Mark) {
    Proven(s, m.basis) && SeenArchived(s, m.file, m.content)
  }

  /** A ready plan is for an unmarked document, on evidence whose bytes are those of the source. */
  ghost predicate Sound(planner: Planner) {
    forall config, doc, exports, accepted, now :: planner(config, doc, exports, accepted, now).Ready? ==>
      && accepted.Some? && accepted.value.evidence.readbackVerified
      && accepted.value.evidence.attachmentSha == doc.sha256 && doc.lifecycle != ArchivedMark
  }

  lemma PlannerIsSound()
    ensures Sound(PlanArchive)
  {
    forall config, doc, exports, accepted, now | PlanArchive(config, doc, exports, accepted, now).Ready?
      ensures && accepted.Some? && accepted.value.evidence.readbackVerified
              && accepted.value.evidence.attachmentSha == doc.sha256 && doc.lifecycle != ArchivedMark
    {
      ReadyRestsOnReadback(config, doc, exports, accepted, now);
    }
  }

  ghost predicate Inv(s: World) {
    && Sound(s.planner)
    && (forall a :: a in s.accepted ==> Proven(s, a))
    && (forall w :: w in s.workers ==> WorkerInv(s, w))
    && (forall u :: u in s.users ==> UserInv(s, u))
    && (forall m :: m in s.marks ==> MarkInv(s, m))
    && (s.doc.lifecycle == ArchivedMark ==> s.marks != [])
  }

  /** Nothing that proofs rest on is lost. */
  ghost predicate Extends(s: World, t: World) {
    && t.planner == s.planner && t.doc.sha256 == s.doc.sha256 && t.config == s.config
    && s.accepted <= t.accepted && s.submitted <= t.submitted && s.marks <= t.marks
  }

  lemma ProvenExtends(s: World, t: World, a: Accepted)
    requires Extends(s, t) && Proven(s, a)
    ensures Proven(t, a)
  {
  }

  /** What is in `t` is as in `s`, or satisfies the invariant anew. */
  ghost predicate WorkersOk(s: World, t: World) {
    forall w :: w in t.workers ==> WorkerOk(s, t, w)
  }

  ghost predicate WorkerOk(s: World, t: World, w: nat)
    requires w in t.workers
  {
    || (w in s.workers && t.workers[w] == s.workers[w] && (s.lease == Some(w) ==> t.lease == Some(w)))
    || WorkerInv(t, w)
  }

  ghost predicate UsersOk(s: World, t: World) {
    forall u :: u in t.users ==> (u in s.users && t.users[u] == s.users[u]) || UserInv(t, u)
  }

  lemma WorkerInvExtends(s: World, t: World, w: nat)
    requires Extends(s, t) && w in s.workers && w in t.workers && WorkerInv(s, w) && WorkerOk(s, t, w)
    ensures WorkerInv(t, w)
  {
  }

  lemma InvExtends(s: World, t: World)
    requires Inv(s) && Extends(s, t) && WorkersOk(s, t) && UsersOk(s, t)
    requires forall a :: a in t.accepted ==> a in s.accepted || Proven(t, a)
    requires forall m :: m in t.marks ==> m in s.marks || MarkInv(t, m)
    requires t.doc.lifecycle == ArchivedMark ==> t.marks != []
    ensures Inv(t)
  {
    forall w | w in t.workers ensures WorkerInv(t, w) {
      if !WorkerInv(t, w) {
        WorkerInvExtends(s, t, w);
      }
    }
    forall u | u in t.users ensures UserInv(t, u) {
      assert u in s.users && t.users[u] == s.users[u] ==> UserInv(s, u);
    }
    forall m | m in t.marks ensures MarkInv(t, m) {
      if m in s.marks {
        ProvenExtends(s, t, m.basis);
      }
    }
  }

  /** The other workers do not notice. */
  ghost predicate OthersUndisturbed(s: World, t: World, w: nat) {
    && t.workers.Keys - {w} <= s.workers.Keys
    && (forall v :: v in t.workers && v != w ==> t.workers[v] == s.workers[v])
    && (forall v :: v != w && s.lease == Some(v) ==> t.lease == Some(v))
  }

  /** The ledger as far as the invariant reads it, and the users. */
  ghost predicate SameLedger(s: World, t: World) {
    && Extends(s, t) && t.accepted == s.accepted && t.marks == s.marks && t.users == s.users
    && t.doc.lifecycle == s.doc.lifecycle
  }

  /** What a worker's step keeps, apart from the commit. */
  ghost predicate WorkerKeeps(s: World, t: World, w: nat) {
    && SameLedger(s, t) && OthersUndisturbed(s, t, w)
    && (w in t.workers ==> t == s || WorkerInv(t, w))
  }

  lemma AdvanceKeeps(s: World, w: nat, to: Worker)
    requires Inv(s) && w in s.workers && WorkerInv(Advance(s, w, to), w)
    ensures WorkerKeeps(s, Advance(s, w, to), w)
  {
  }

  lemma LeaveKeeps(s: World, w: nat)
    requires Inv(s)
    ensures WorkerKeeps(s, Leave(s, w), w) && WorkerKeeps(s, Give(s, w), w)
    ensures WorkerKeeps(s, s.(workers := s.workers - {w}), w)
  {
  }

  lemma FailKeeps(s: World, w: nat, faults: MoveFaults)
    requires Inv(s) && w in s.workers
    ensures WorkerKeeps(s, Fail(s, w, faults), w)
  {
  }

  lemma MoveKeeps(s: World, w: nat, faults: MoveFaults)
    requires Inv(s) && w in s.workers && s.workers[w].Cleared?
    ensures WorkerKeeps(s, MoveStep(s, w, faults), w)
  {
    assert WorkerInv(s, w);
  }

  lemma AcquireKeeps(s: World, w: nat)
    requires Inv(s) && w in s.workers && s.workers[w].Planned? && s.lease.None?
    ensures WorkerKeeps(s, Advance(s.(lease := Some(w)), w, Leased), w)
  {
  }

  lemma ReplanKeeps(s: World, w: nat, plan: Plan)
    requires Inv(s) && w in s.workers && s.workers[w].Leased?
    ensures WorkerKeeps(s, ReplanStep(s, w, plan), w)
  {
    assert WorkerInv(s, w);
    AdvanceKeeps(s, w, Replanned);
    LeaveKeeps(s, w);
  }

  lemma BasisIsProven(s: World)
    requires Inv(s)
    ensures ReadyBasis(s).Some? ==> Proven(s, ReadyBasis(s).value) && !IsMarked(s)
  {
  }

  lemma FinalPlanKeeps(s: World, w: nat, basis: Option<Accepted>)
    requires Inv(s) && w in s.workers && s.workers[w].Checked? && (basis.Some? ==> Proven(s, basis.value))
    ensures WorkerKeeps(s, FinalPlanStep(s, w, s.workers[w].doc, basis), w)
  {
    assert WorkerInv(s, w);
    LeaveKeeps(s, w);
    if basis.Some? {
      AdvanceKeeps(s, w, Cleared(s.workers[w].doc, basis.value));
    }
  }

  lemma LoadKeeps(s: World, a: Action)
    requires Inv(s) && (a.Acquire? || a.Load? || a.Inspect? || a.Download?) && a.worker in s.workers
    ensures WorkerKeeps(s, PlanStep(s, a), a.worker)
  {
    var w := a.worker;
    assert WorkerInv(s, w);
    LeaveKeeps(s, w);
    match (a, s.workers[w]) {
      case (Acquire(_), Planned) => if s.lease.None? { AcquireKeeps(s, w); }
      case (Load(_), Replanned) => AdvanceKeeps(s, w, Loaded(s.doc));
      case (Inspect(_), Loaded(doc)) => AdvanceKeeps(s, w, Inspected(doc, s.file));
      case (Download(_), Inspected(doc, _)) => AdvanceKeeps(s, w, Checked(doc));
      case _ =>
    }
  }

  lemma ReplanStepKeeps(s: World, w: nat)
    requires Inv(s) && w in s.workers
    ensures WorkerKeeps(s, PlanStep(s, Replan(w)), w)
  {
    if s.workers[w].Leased? {
      ReplanKeeps(s, w, CurrentPlan(s));
    }
  }

  lemma FinalPlanStepKeeps(s: World, w: nat)
    requires Inv(s) && w in s.workers
    ensures WorkerKeeps(s, PlanStep(s, FinalPlan(w)), w)
  {
    if s.workers[w].Checked? {
      BasisIsProven(s);
      FinalPlanKeeps(s, w, ReadyBasis(s));
    }
  }

  lemma PlanStepKeeps(s: World, a: Action)
    requires Inv(s) && IsPlanAction(a) && a.worker in s.workers
    ensures WorkerKeeps(s, PlanStep(s, a), a.worker)
  {
    if a.Replan? {
      ReplanStepKeeps(s, a.worker);
    } else if a.FinalPlan? {
      FinalPlanStepKeeps(s, a.worker);
    } else {
      LoadKeeps(s, a);
    }
  }

  lemma PostDownloadKeeps(s: World, w: nat)
    requires Inv(s) && w in s.workers && PassesChecks(s, s.workers[w])
    ensures var x := s.workers[w]; WorkerKeeps(s, Advance(s, w, PostChecked(x.doc, x.basis, x.file, s.file.content)), w)
  {
    assert WorkerInv(s, w);
  }

  lemma ArchiveStepKeeps(s: World, a: Action)
    requires Inv(s) && IsArchiveAction(a) && a.worker in s.workers && !a.Commit?
    ensures WorkerKeeps(s, ArchiveStep(s, a), a.worker)
  {
    var w := a.worker;
    assert WorkerInv(s, w);
    match (a, s.workers[w]) {
      case (MoveFile(_, faults), Cleared(_, _)) => MoveKeeps(s, w, faults);
      case (PostInspect(_), Moved(doc, basis)) => AdvanceKeeps(s, w, PostInspected(doc, basis, s.file));
      case (PostDownload(_, faults), PostInspected(_, _, _)) =>
        if PassesChecks(s, s.workers[w]) {
          PostDownloadKeeps(s, w);
        } else {
          FailKeeps(s, w, faults);
        }
      case (Raise(_, faults), _) =>
        LeaveKeeps(s, w);
        FailKeeps(s, w, faults);
      case _ =>
    }
  }

  lemma WorkerStepKeeps(s: World, a: Action)
    requires Inv(s) && IsWorkerAction(a) && a.worker in s.workers && !a.Commit?
    ensures WorkerKeeps(s, WorkerStep(s, a), a.worker)
  {
    if IsPlanAction(a) {
      PlanStepKeeps(s, a);
    } else {
      ArchiveStepKeeps(s, a);
    }
  }

  lemma CommitKeepsInv(s: World, w: nat)
    requires Inv(s) && w in s.workers && s.workers[w].PostChecked?
    ensures Inv(WorkerStep(s, Commit(w)))
  {
    var t := WorkerStep(s, Commit(w));
    assert WorkerInv(s, w);
    var mark := t.marks[|s.marks|];
    ProvenExtends(s, t, mark.basis);
    assert MarkInv(t, mark);
    InvExtends(s, t);
  }

  lemma WorkerStepKeepsInv(s: World, a: Action)
    requires Inv(s) && IsWorkerAction(a) && a.worker in s.workers
    ensures Inv(WorkerStep(s, a))
  {
    if a.Commit? {
      if s.workers[a.worker].PostChecked? {
        CommitKeepsInv(s, a.worker);
      }
    } else {
      WorkerStepKeeps(s, a);
      KeptInv(s, WorkerStep(s, a), a.worker);
    }
  }

  lemma KeptInv(s: World, t: World, w: nat)
    requires Inv(s) && WorkerKeeps(s, t, w)
    ensures Inv(t)
  {
    if t != s {
      InvExtends(s, t);
    }
  }

  lemma AcceptedIsBacked(s: World, e: Evidence)
    requires Accepts(s.config, s.doc, e, true, s.now)
    requires e.attachmentSha.Sha256? && e.attachmentSha.content in s.submitted
    ensures Backed(s, Normalize(s.doc, e, true))
  {
    var n := Normalize(s.doc, e, true);
    assert n.attachmentSha != s.doc.sha256 ==> AttachmentHashMismatch in EvidenceReasons(s.config, s.doc, n, s.now);
  }

  lemma CheckKeepsInv(s: World, u: nat, e: Evidence, readback: bool)
    requires Inv(s)
    requires readback ==> e.attachmentSha.Sha256? && e.attachmentSha.content in s.submitted
    ensures Inv(Check(s, u, e, readback))
  {
    var t := Check(s, u, e, readback);
    if t != s {
      if readback {
        AcceptedIsBacked(s, e);
        assert UserInv(t, u);
        InvExtends(s, t);
      } else {
        MetadataNeverAccepted(s.config, s.doc, e, s.now);
      }
    }
  }

  lemma NewUserKeepsInv(s: World, a: Action)
    requires Inv(s) && (IsSubmission(a) || a.OpenDocument?)
    ensures Inv(NewUserStep(s, a))
  {
    if a.OpenDocument? {
      assert UserInv(NewUserStep(s, a), a.user);
      InvExtends(s, NewUserStep(s, a));
    } else if a.SubmitMetadata? || a.content == [] {
      CheckKeepsInv(s, a.user, a.evidence, false);
    } else if |a.content| <= MAX_BYTES {
      var given := s.(submitted := s.submitted + {a.content});
      InvExtends(s, given);
      CheckKeepsInv(given, a.user, FromBytes(a.evidence, a.content, a.filename, a.mimeType), true);
    }
  }

  lemma WriteKeepsInv(s: World, a: Action)
    requires Inv(s) && IsWrite(a) && a.user in s.users
    ensures Inv(WriteStep(s, a))
  {
    var t := WriteStep(s, a);
    assert UserInv(s, a.user);
    if a.RecordEvidence? && s.users[a.user].Verified? {
      var basis := t.accepted[|s.accepted|];
      assert Proven(t, basis) && UserInv(t, a.user);
      assert forall x :: x in t.accepted ==> x in s.accepted || x == basis;
    }
    InvExtends(s, t);
  }

  lemma StepKeepsInv(s: World, a: Action)
    requires Inv(s)
    ensures Inv(Step(s, a))
  {
    if IsWorkerAction(a) {
      if a.worker in s.workers {
        WorkerStepKeepsInv(s, a);
      }
    } else if IsWrite(a) {
      if a.user in s.users {
        WriteKeepsInv(s, a);
      }
    } else if IsSubmission(a) || a.OpenDocument? {
      NewUserKeepsInv(s, a);
    } else {
      OutsideKeepsInv(s, a);
    }
  }

  lemma BeginCases(s: World, w: nat, plan: Plan)
    ensures var t := BeginStep(s, w, plan);
            && SameLedger(s, t) && t.lease == s.lease && t.file == s.file
            && (t.workers == s.workers || (w !in s.workers && t == Advance(s, w, Planned)))
  {
  }

  /** The rest changes no more than the clock, the file, a worker's plan, or the document but its lifecycle. */
  lemma OutsideCases(s: World, a: Action)
    ensures var t := OutsideStep(s, a);
            && SameLedger(s, t) && t.lease == s.lease
            && (t.workers == s.workers || (a.Begin? && a.worker !in s.workers && t == Advance(s, a.worker, Planned)))
            && (!a.Tamper? ==> t.file == s.file)
  {
    if a.Begin? {
      BeginCases(s, a.worker, CurrentPlan(s));
    }
  }

  lemma OutsideKeepsInv(s: World, a: Action)
    requires Inv(s)
    ensures Inv(OutsideStep(s, a))
  {
    OutsideCases(s, a);
    SameInv(s, OutsideStep(s, a));
  }

  lemma SameInv(s: World, t: World)
    requires Inv(s) && SameLedger(s, t) && t.lease == s.lease
    requires forall w :: w in t.workers ==> (w in s.workers && t.workers[w] == s.workers[w]) || t.workers[w].Planned?
    ensures Inv(t)
  {
    InvExtends(s, t);
  }

  lemma {:induction false} RunKeepsInv(s: World, actions: seq<Action>)
    requires Initial(s)
    ensures Inv(Run(s, actions))
  {
    PlannerIsSound();
    if actions != [] {
      RunKeepsInv(s, actions[..|actions| - 1]);
      StepKeepsInv(Run(s, actions[..|actions| - 1]), actions[|actions| - 1]);
    }
  }

  // ------------------------------------------------------------------------------------------
  // The theorems
  // ------------------------------------------------------------------------------------------

  /**
   * In every interleaving a document is marked archived only on evidence that was accepted before,
   * over bytes that were really read back and are those of the source, and only after the same
   * worker saw the file with that content in the archive folder, outside the intake and not in trash.
   */
  lemma ArchivedIsProven(s: World, actions: seq<Action>)
    requires Initial(s)
    ensures var t := Run(s, actions);
            && (t.doc.lifecycle == ArchivedMark ==> t.marks != [])
            && forall m :: m in t.marks ==> MarkInv(t, m)
  {
    RunKeepsInv(s, actions);
  }

  /** Evidence in the audit log always rests on submitted bytes, never on metadata alone. */
  lemma AcceptedIsProven(s: World, actions: seq<Action>, a: Accepted)
    requires Initial(s) && a in Run(s, actions).accepted
    ensures Proven(Run(s, actions), a)
  {
    RunKeepsInv(s, actions);
  }

  /** Between taking and releasing the lease a worker is alone. */
  lemma OneWorkerUnderLease(s: World, actions: seq<Action>, v: nat, w: nat)
    requires Initial(s)
    requires v in Run(s, actions).workers && w in Run(s, actions).workers
    requires !Run(s, actions).workers[v].Planned? && !Run(s, actions).workers[w].Planned?
    ensures v == w
  {
    RunKeepsInv(s, actions);
    assert WorkerInv(Run(s, actions), v) && WorkerInv(Run(s, actions), w);
  }

  // ------------------------------------------------------------------------------------------
  // How a mark is lost, and how it appears
  // ------------------------------------------------------------------------------------------

  /** The user's write of a lifecycle that was read earlier. */
  predicate WritesBack(s: World, a: Action, lifecycle: Lifecycle) {
    a.WriteBack? && a.user in s.users && s.users[a.user] == Editing(lifecycle)
  }

  /** The write that ends the submission of accepted evidence. */
  predicate EndsSubmission(s: World, a: Action) {
    a.WriteVerified? && a.user in s.users && s.users[a.user].Recorded?
  }

  predicate Commits(s: World, a: Action) {
    a.Commit? && a.worker in s.workers && s.workers[a.worker].PostChecked?
  }

  lemma WorkerLifecycle(s: World, a: Action)
    requires Inv(s) && IsWorkerAction(a) && a.worker in s.workers
    ensures WorkerStep(s, a).doc.lifecycle == if Commits(s, a) then ArchivedMark else s.doc.lifecycle
  {
    if !a.Commit? {
      WorkerStepKeeps(s, a);
    }
  }

  /** The lifecycle after a user's write. */
  function WrittenLifecycle(s: World, a: Action): Lifecycle {
    if EndsSubmission(s, a) then AttachmentVerified
    else if a.WriteBack? && a.user in s.users && s.users[a.user].Editing? then s.users[a.user].lifecycle
    else s.doc.lifecycle
  }

  lemma UserLifecycle(s: World, a: Action)
    ensures IsWrite(a) && a.user in s.users ==> WriteStep(s, a).doc.lifecycle == WrittenLifecycle(s, a)
    ensures IsSubmission(a) || a.OpenDocument? ==> NewUserStep(s, a).doc == s.doc
  {
  }

  /** Only these steps write a lifecycle. */
  lemma LifecycleWrites(s: World, a: Action)
    requires Inv(s)
    ensures Step(s, a).doc.lifecycle == if Commits(s, a) then ArchivedMark else WrittenLifecycle(s, a)
  {
    if IsWorkerAction(a) {
      if a.worker in s.workers {
        WorkerLifecycle(s, a);
      }
    } else if IsWrite(a) || IsSubmission(a) || a.OpenDocument? {
      UserLifecycle(s, a);
    } else {
      OutsideCases(s, a);
    }
  }

  /**
   * Marking is not final: a mark is lost in a step if and only if the step ends a submission, whose
   * evidence is proven, or writes back metadata that were read when there was no mark.
   */
  lemma MarkLostIff(s: World, a: Action)
    requires Inv(s) && IsMarked(s)
    ensures !IsMarked(Step(s, a)) <==>
              EndsSubmission(s, a) || WritesBack(s, a, Unset) || WritesBack(s, a, AttachmentVerified)
    ensures EndsSubmission(s, a) ==> Proven(s, s.users[a.user].basis)
  {
    LifecycleWrites(s, a);
    assert EndsSubmission(s, a) ==> UserInv(s, a.user);
  }

  /** It appears if and only if a worker commits, or metadata are written back that had it when read. */
  lemma MarkAppearsIff(s: World, a: Action)
    requires Inv(s) && !IsMarked(s)
    ensures IsMarked(Step(s, a)) <==> Commits(s, a) || WritesBack(s, a, ArchivedMark)
  {
    LifecycleWrites(s, a);
  }
}
