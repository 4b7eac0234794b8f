/**
 * Where the file of a marked document is (src/operations/drive_wave_delivery.py), as long as nobody
 * else moves it: what interleaved workers and stale writes of the metadata can do.
 */
module ArchiveLocation {
  import opened Text
  import opened DriveArchiver
  import opened WaveEvidence
  import opened ArchiveProtocol

  predicate IsArchived(s: World) {
    InArchive(s.file.parents, s.config.folders)
  }

  /** The worker may still restore the file: from the final plan to the end of the checks. */
  predicate Exposes(worker: Worker) {
    worker.Cleared? || worker.Moved? || worker.PostInspected?
  }

  /** Without anything else happening, the worker will write the mark. */
  predicate WillMark(s: World, worker: Worker) {
    worker.PostChecked? || PassesChecks(s, worker)
  }

  /**
   * A marked document's file is archived and no worker may restore it; without a mark, a worker that
   * will write it has the file archived.
   */
  ghost predicate Located(s: World) {
    && (IsMarked(s) ==> IsArchived(s))
    && forall w :: w in s.workers ==> WorkerLocated(s, s.workers[w])
  }

  predicate WorkerLocated(s: World, worker: Worker) {
    if IsMarked(s) then !Exposes(worker) else WillMark(s, worker) ==> IsArchived(s)
  }

  /** A write of metadata with the mark in it, after the mark was lost. */
  predicate Remarks(s: World, a: Action) {
    WritesBack(s, a, ArchivedMark) && !IsMarked(s)
  }

  /** It is harmless if the file is archived and no worker may restore it. */
  ghost predicate IsHarmless(s: World) {
    IsArchived(s) && forall w :: w in s.workers ==> !Exposes(s.workers[w])
  }

  ghost predicate Disturbs(s: World, a: Action) {
    a.Tamper? || (Remarks(s, a) && !IsHarmless(s))
  }

  // ------------------------------------------------------------------------------------------
  // What the other steps keep
  // ------------------------------------------------------------------------------------------

  lemma AloneUnderLease(s: World, v: nat, w: nat)
    requires Inv(s) && v in s.workers && w in s.workers && v != w && !s.workers[w].Planned?
    ensures s.workers[v].Planned?
  {
    assert WorkerInv(s, v) && WorkerInv(s, w);
  }

  /** A worker's step concerns only the worker, and a planned worker only takes the lease. */
  lemma OthersLocated(s: World, t: World, w: nat)
    requires Inv(s) && Located(s) && w in s.workers && OthersUndisturbed(s, t, w)
    requires s.workers[w].Planned? ==> t.file == s.file && t.doc == s.doc && t.config == s.config
    ensures forall v :: v in t.workers && v != w ==> WorkerLocated(t, t.workers[v])
  {
    forall v | v in t.workers && v != w ensures WorkerLocated(t, t.workers[v]) {
      if !s.workers[w].Planned? {
        AloneUnderLease(s, v, w);
      } else {
        assert WorkerLocated(s, s.workers[v]);
      }
    }
  }

  /** What a worker's step leaves of the location. */
  ghost predicate LocatesSelf(s: World, t: World, w: nat) {
    && (IsMarked(t) ==> IsArchived(t))
    && (w in t.workers ==> WorkerLocated(t, t.workers[w]))
    && OthersUndisturbed(s, t, w)
    && (w in s.workers && s.workers[w].Planned? ==> t.file == s.file && t.doc == s.doc && t.config == s.config)
  }

  lemma SelfIsAll(s: World, t: World, w: nat)
    requires Inv(s) && Located(s) && w in s.workers && LocatesSelf(s, t, w)
    ensures Located(t)
  {
    OthersLocated(s, t, w);
  }

  lemma LeaveLocates(s: World, w: nat)
    requires Inv(s) && Located(s) && w in s.workers && !s.workers[w].Planned?
    ensures LocatesSelf(s, Leave(s, w), w) && LocatesSelf(s, Give(s, w), w)
  {
  }

  lemma ReplanLocates(s: World, w: nat, plan: Plan)
    requires Inv(s) && Located(s) && w in s.workers && s.workers[w].Leased?
    ensures LocatesSelf(s, ReplanStep(s, w, plan), w)
  {
    LeaveLocates(s, w);
  }

  lemma FinalPlanLocates(s: World, w: nat, basis: Option<Accepted>)
    requires Inv(s) && Located(s) && w in s.workers && s.workers[w].Checked? && (basis.Some? ==> !IsMarked(s))
    ensures LocatesSelf(s, FinalPlanStep(s, w, s.workers[w].doc, basis), w)
  {
    LeaveLocates(s, w);
  }

  lemma ReplanStepLocates(s: World, w: nat)
    requires Inv(s) && Located(s) && w in s.workers
    ensures Located(PlanStep(s, Replan(w)))
  {
    if s.workers[w].Leased? {
      ReplanLocates(s, w, CurrentPlan(s));
      SelfIsAll(s, ReplanStep(s, w, CurrentPlan(s)), w);
    }
  }

  lemma FinalPlanStepLocates(s: World, w: nat)
    requires Inv(s) && Located(s) && w in s.workers
    ensures Located(PlanStep(s, FinalPlan(w)))
  {
    if s.workers[w].Checked? {
      BasisIsProven(s);
      FinalPlanLocates(s, w, ReadyBasis(s));
      SelfIsAll(s, FinalPlanStep(s, w, s.workers[w].doc, ReadyBasis(s)), w);
    }
  }

  lemma LoadLocates(s: World, a: Action)
    requires Inv(s) && Located(s) && (a.Acquire? || a.Load? || a.Inspect? || a.Download?) && a.worker in s.workers
    ensures Located(PlanStep(s, a))
  {
    var w, t := a.worker, PlanStep(s, a);
    if !s.workers[w].Planned? {
      LeaveLocates(s, w);
    }
    if t != s {
      assert LocatesSelf(s, t, w);
      SelfIsAll(s, t, w);
    }
  }

  lemma PlanStepLocates(s: World, a: Action)
    requires Inv(s) && Located(s) && IsPlanAction(a) && a.worker in s.workers
    ensures Located(PlanStep(s, a))
  {
    if a.Replan? {
      ReplanStepLocates(s, a.worker);
    } else if a.FinalPlan? {
      FinalPlanStepLocates(s, a.worker);
    } else {
      LoadLocates(s, a);
    }
  }

  /** A worker that exposes the file is under the lease of an unmarked document. */
  lemma ExposedIsUnmarked(s: World, w: nat)
    requires Located(s) && w in s.workers && Exposes(s.workers[w])
    ensures !IsMarked(s)
  {
    assert WorkerLocated(s, s.workers[w]);
  }

  lemma FailLocates(s: World, w: nat, faults: MoveFaults)
    requires Inv(s) && Located(s) && w in s.workers && !s.workers[w].Planned?
    ensures LocatesSelf(s, Fail(s, w, faults), w)
  {
    LeaveLocates(s, w);
    if Exposes(s.workers[w]) {
      ExposedIsUnmarked(s, w);
      UnmarkedLocates(s, s.file.(parents := Restore(s.file.parents, s.config.folders, faults).1), w);
    }
  }

  lemma UnmarkedLocates(s: World, file: FileState, w: nat)
    requires Inv(s) && w in s.workers && !s.workers[w].Planned? && !IsMarked(s)
    ensures LocatesSelf(s, Give(s.(file := file), w), w)
  {
  }

  lemma MoveLocates(s: World, w: nat, faults: MoveFaults)
    requires Inv(s) && Located(s) && w in s.workers && s.workers[w].Cleared?
    ensures LocatesSelf(s, MoveStep(s, w, faults), w)
  {
    ExposedIsUnmarked(s, w);
  }

  lemma MoveFileLocates(s: World, a: Action)
    requires Inv(s) && Located(s) && (a.MoveFile? || a.PostInspect?) && a.worker in s.workers
    ensures ArchiveStep(s, a) == s || LocatesSelf(s, ArchiveStep(s, a), a.worker)
  {
    var worker := s.workers[a.worker];
    assert WorkerLocated(s, worker);
    if a.MoveFile? && worker.Cleared? {
      MoveLocates(s, a.worker, a.faults);
    }
  }

  lemma CheckLocates(s: World, a: Action)
    requires Inv(s) && Located(s) && (a.PostDownload? || a.Commit?) && a.worker in s.workers
    ensures ArchiveStep(s, a) == s || LocatesSelf(s, ArchiveStep(s, a), a.worker)
  {
    var worker := s.workers[a.worker];
    assert WorkerLocated(s, worker);
    if a.PostDownload? && worker.PostInspected? {
      FailLocates(s, a.worker, a.faults);
    }
  }

  lemma RaiseLocates(s: World, a: Action)
    requires Inv(s) && Located(s) && a.Raise? && a.worker in s.workers
    ensures LocatesSelf(s, ArchiveStep(s, a), a.worker)
  {
    var w := a.worker;
    if !s.workers[w].Planned? {
      LeaveLocates(s, w);
      FailLocates(s, w, a.faults);
    }
  }

  lemma ArchiveStepLocates(s: World, a: Action)
    requires Inv(s) && Located(s) && IsArchiveAction(a) && a.worker in s.workers
    ensures Located(ArchiveStep(s, a))
  {
    if a.Raise? {
      RaiseLocates(s, a);
    } else if a.PostDownload? || a.Commit? {
      CheckLocates(s, a);
    } else {
      MoveFileLocates(s, a);
    }
    if ArchiveStep(s, a) != s {
      SelfIsAll(s, ArchiveStep(s, a), a.worker);
    }
  }

  /** The file and the workers stay, and the mark does not appear, or harmlessly. */
  lemma UnmovedStaysLocated(s: World, t: World)
    requires Located(s) && t.file == s.file && t.config == s.config
    requires IsMarked(t) ==> IsMarked(s) || IsHarmless(s)
    requires forall w :: w in t.workers ==> (w in s.workers && t.workers[w] == s.workers[w]) || t.workers[w].Planned?
    ensures Located(t)
  {
    forall w | w in t.workers ensures WorkerLocated(t, t.workers[w]) {
      assert w in s.workers && t.workers[w] == s.workers[w] ==> WorkerLocated(s, s.workers[w]);
    }
  }

  predicate SameFile(s: World, t: World) {
    t.file == s.file && t.config == s.config && t.workers == s.workers
  }

  lemma UsersTouchNoFile(s: World, a: Action)
    ensures IsWrite(a) && a.user in s.users ==> SameFile(s, WriteStep(s, a))
    ensures IsSubmission(a) || a.OpenDocument? ==> SameFile(s, NewUserStep(s, a))
  {
  }

  lemma UserStepLocates(s: World, a: Action)
    requires Inv(s) && Located(s) && !Disturbs(s, a) && (IsWrite(a) || IsSubmission(a) || a.OpenDocument?)
    ensures Located(Step(s, a))
  {
    if a.user in s.users || !IsWrite(a) {
      UsersTouchNoFile(s, a);
      LifecycleWrites(s, a);
      UnmovedStaysLocated(s, Step(s, a));
    }
  }

  lemma StepLocates(s: World, a: Action)
    requires Inv(s) && Located(s) && !Disturbs(s, a)
    ensures Located(Step(s, a))
  {
    if IsPlanAction(a) {
      if a.worker in s.workers {
        PlanStepLocates(s, a);
      }
    } else if IsArchiveAction(a) {
      if a.worker in s.workers {
        ArchiveStepLocates(s, a);
      }
    } else if IsWrite(a) || IsSubmission(a) || a.OpenDocument? {
      UserStepLocates(s, a);
    } else {
      OutsideCases(s, a);
      UnmovedStaysLocated(s, OutsideStep(s, a));
    }
  }

  ghost predicate Undisturbed(s: World, actions: seq<Action>) {
    forall i :: 0 <= i < |actions| ==> !Disturbs(Run(s, actions[..i]), actions[i])
  }

  lemma {:induction false} RunLocates(s: World, actions: seq<Action>)
    requires Inv(s) && Located(s) && Undisturbed(s, actions)
    ensures Inv(Run(s, actions)) && Located(Run(s, actions))
  {
    if actions != [] {
      var n := |actions| - 1;
      assert forall i :: 0 <= i < n ==> actions[..n][..i] == actions[..i];
      RunLocates(s, actions[..n]);
      StepKeepsInv(Run(s, actions[..n]), actions[n]);
      StepLocates(Run(s, actions[..n]), actions[n]);
    }
  }

  /**
   * If nobody else moves the file, and no metadata with a lost mark are written back while the file is
   * not archived or a worker may restore it, a document marked archived is in the archive folder and
   * out of the intake, whatever failed, was submitted or was edited in between.
   */
  lemma MarkedFileIsArchived(s: World, actions: seq<Action>)
    requires Initial(s) && Undisturbed(s, actions)
    ensures IsMarked(Run(s, actions)) ==> IsArchived(Run(s, actions))
  {
    RunLocates(s, actions);
  }

  // ------------------------------------------------------------------------------------------
  // The condition is exact
  // ------------------------------------------------------------------------------------------

  /** A continuation in which nobody moves the file from outside and no mark is written back. */
  ghost predicate Plain(s: World, actions: seq<Action>) {
    forall i :: 0 <= i < |actions| ==> !actions[i].Tamper? && !Remarks(Run(s, actions[..i]), actions[i])
  }

  ghost predicate GoesAstray(s: World, actions: seq<Action>) {
    Plain(s, actions) && IsMarked(Run(s, actions)) && !IsArchived(Run(s, actions))
  }

  ghost predicate CanGoAstray(s: World) {
    exists actions :: GoesAstray(s, actions)
  }

  lemma RunOne(s: World, a: Action)
    ensures Run(s, [a]) == Step(s, a)
  {
    assert [a][..0] == [];
  }

  lemma RunTwo(s: World, a: Action, b: Action)
    ensures Run(s, [a, b]) == Step(Step(s, a), b)
  {
    RunOne(s, a);
    assert [a, b][..1] == [a];
  }

  lemma WorkersArePlain(s: World, actions: seq<Action>)
    requires forall i :: 0 <= i < |actions| ==> IsWorkerAction(actions[i])
    ensures Plain(s, actions)
  {
  }

  lemma RestoreExposed(s: World, w: nat)
    requires w in s.workers && (s.workers[w].Moved? || s.workers[w].PostInspected?) && IsMarked(s) && IsArchived(s)
    ensures GoesAstray(s, [Raise(w, FLAWLESS)])
  {
    RunOne(s, Raise(w, FLAWLESS));
    WorkersArePlain(s, [Raise(w, FLAWLESS)]);
  }

  lemma MoveAndRestore(s: World, w: nat)
    requires w in s.workers && s.workers[w].Cleared? && IsMarked(s) && IsArchived(s)
    ensures GoesAstray(s, [MoveFile(w, FLAWLESS), Raise(w, FLAWLESS)])
  {
    RunTwo(s, MoveFile(w, FLAWLESS), Raise(w, FLAWLESS));
    WorkersArePlain(s, [MoveFile(w, FLAWLESS), Raise(w, FLAWLESS)]);
    var t := Step(s, MoveFile(w, FLAWLESS));
    assert w in t.workers && t.workers[w].Moved? && t.file == s.file;
  }

  lemma CommitAstray(s: World, w: nat)
    requires w in s.workers && s.workers[w].PostChecked? && !IsArchived(s)
    ensures GoesAstray(s, [Commit(w)])
  {
    RunOne(s, Commit(w));
    WorkersArePlain(s, [Commit(w)]);
  }

  lemma CheckAndCommitAstray(s: World, w: nat)
    requires w in s.workers && PassesChecks(s, s.workers[w]) && !IsArchived(s)
    ensures GoesAstray(s, [PostDownload(w, FLAWLESS), Commit(w)])
  {
    var t, x := Step(s, PostDownload(w, FLAWLESS)), s.workers[w];
    assert t == Advance(s, w, PostChecked(x.doc, x.basis, x.file, s.file.content));
    CommitAstray(t, w);
    RunOne(t, Commit(w));
    RunTwo(s, PostDownload(w, FLAWLESS), Commit(w));
    WorkersArePlain(s, [PostDownload(w, FLAWLESS), Commit(w)]);
  }

  lemma UnlocatedGoesAstray(s: World)
    requires !Located(s)
    ensures CanGoAstray(s)
  {
    if IsMarked(s) && !IsArchived(s) {
      assert GoesAstray(s, []);
    } else {
      var w :| w in s.workers && !WorkerLocated(s, s.workers[w]);
      if s.workers[w].Cleared? {
        MoveAndRestore(s, w);
      } else if IsMarked(s) {
        RestoreExposed(s, w);
      } else if s.workers[w].PostChecked? {
        CommitAstray(s, w);
      } else {
        CheckAndCommitAstray(s, w);
      }
    }
  }

  /**
   * From any state, however it came about: the document can end up marked with its file outside the
   * archive, without anybody else moving the file or writing a mark back, if and only if it is not
   * located.
   */
  lemma AstrayIff(s: World)
    requires Inv(s)
    ensures CanGoAstray(s) <==> !Located(s)
  {
    if !Located(s) {
      UnlocatedGoesAstray(s);
    } else if actions :| GoesAstray(s, actions) {
      RunLocates(s, actions);
    }
  }

  /** So writing a lost mark back does harm exactly if the file is not archived or a worker may restore it. */
  lemma RemarkIsHarmfulIff(s: World, a: Action)
    requires Inv(s) && Remarks(s, a)
    ensures CanGoAstray(Step(s, a)) <==> !IsHarmless(s)
  {
    var t := Step(s, a);
    StepKeepsInv(s, a);
    UsersTouchNoFile(s, a);
    LifecycleWrites(s, a);
    AstrayIff(t);
  }
}
