/** When a handler can still be called: after a rejection, after a posting, and from any state. */
module PostingCalls {
  import opened PostingAttempts
  import opened PostingInterleaving

  // ------------------------------------------------------------------------------------------
  // When a handler can still be called
  // ------------------------------------------------------------------------------------------

  /** Claims by force only where they are allowed. */
  predicate ForcedOnlyIf(moves: seq<Move>, force: bool) {
    forall i :: 0 <= i < |moves| && moves[i].Take? && moves[i].force ==> force
  }

  /** The worker is about to call a handler, or its result will let a forced retry call one. */
  predicate MayCall(worker: Worker, id: nat, force: bool) {
    worker.id == id && (worker.Holding? || (force && !worker.result.Success?))
  }

  ghost predicate SomeoneMayCall(s: System, id: nat, force: bool) {
    exists w :: w in s.workers && MayCall(s.workers[w], id, force)
  }

  /** No worker and no status leads to a call. */
  ghost predicate Quiet(s: System, id: nat, force: bool) {
    !SomeoneMayCall(s, id, force) && (id in s.statuses ==> !Claimable(s.statuses[id], force))
  }

  function CallsOf(s: System, id: nat): nat {
    Count(s.trace, Called(id))
  }

  function WithdrawalsOf(s: System, id: nat): nat {
    Count(s.trace, Withdrawn(id))
  }

  /** What a move adds to the trace. */
  lemma TraceGrows(s: System, move: Move, e: Trace)
    ensures Count(s.trace, e) <= Count(Next(s, move).trace, e)
    ensures !move.Invoke? && e.Called? ==> Count(s.trace, e) == Count(Next(s, move).trace, e)
    ensures Grants(s, move) && e == Granted(s.users[move.user].id) ==> Count(s.trace, e) < Count(Next(s, move).trace, e)
    ensures move.Withdraw? && e == Withdrawn(move.id) && move.id in s.statuses ==>
              Count(s.trace, e) < Count(Next(s, move).trace, e)
  {
    match move
    case Propose(_) =>
    case ReadApprovable(_, _) =>
    case Grant(u) => if Grants(s, move) { CountAppend(s.trace, Granted(s.users[u].id), e); }
    case Withdraw(id) => CountAppend(s.trace, Withdrawn(id), e);
    case Take(_, _, _) =>
    case Invoke(w, result) =>
      if w in s.workers && s.workers[w].Holding? {
        InvokeCounts(s.trace, s.workers[w].id, result.Success?, e);
      }
    case Finish(_) =>
    case ReadCompletable(_, _) =>
    case Complete(u) => if Completes(s, move) { CountAppend(s.trace, Submitted(s.users[u].id), e); }
  }

  lemma {:induction false} PlayGrows(s: System, moves: seq<Move>, e: Trace)
    ensures Count(s.trace, e) <= Count(Play(s, moves).trace, e)
  {
    if moves != [] {
      PlayGrows(s, moves[..|moves| - 1], e);
      TraceGrows(Play(s, moves[..|moves| - 1]), moves[|moves| - 1], e);
    }
  }

  lemma GrantsStay(s: System, moves: seq<Move>, move: Move, e: Trace)
    requires Count(Play(s, moves + [move]).trace, e) == Count(s.trace, e)
    ensures Count(Play(s, moves).trace, e) == Count(s.trace, e) == Count(Next(Play(s, moves), move).trace, e)
  {
    PlayNext(s, moves, move);
    PlayGrows(s, moves, e);
    TraceGrows(Play(s, moves), move, e);
  }

  lemma WorkersStayQuiet(s: System, move: Move, id: nat, force: bool)
    requires !SomeoneMayCall(s, id, force) && !(Takes(s, move) && move.id == id)
    ensures !SomeoneMayCall(Next(s, move), id, force)
  {
  }

  lemma StatusStaysQuiet(s: System, move: Move, id: nat, force: bool)
    requires Quiet(s, id, force) && !(Takes(s, move) && move.id == id)
    requires !(Grants(s, move) && s.users[move.user].id == id)
    ensures id in Next(s, move).statuses ==> !Claimable(Next(s, move).statuses[id], force)
  {
    if move.Finish? && move.worker in s.workers {
      assert !MayCall(s.workers[move.worker], id, force);
    }
  }

  lemma NobodyCalls(s: System, move: Move, id: nat, force: bool)
    requires !SomeoneMayCall(s, id, force)
    ensures CallsOf(Next(s, move), id) == CallsOf(s, id)
  {
    TraceGrows(s, move, Called(id));
    if move.Invoke? && move.worker in s.workers && s.workers[move.worker].Holding? {
      InvokeElsewhere(s, move.worker, move.result, id);
    }
  }

  lemma QuietStays(s: System, move: Move, id: nat, force: bool)
    requires Quiet(s, id, force) && (move.Take? && move.force ==> force)
    requires GrantsOf(Next(s, move), id) == GrantsOf(s, id)
    ensures Quiet(Next(s, move), id, force) && CallsOf(Next(s, move), id) == CallsOf(s, id)
  {
    TraceGrows(s, move, Granted(id));
    WorkersStayQuiet(s, move, id, force);
    StatusStaysQuiet(s, move, id, force);
    NobodyCalls(s, move, id, force);
  }

  lemma InvokeElsewhere(s: System, w: nat, result: HandlerResult, id: nat)
    requires w in s.workers && s.workers[w].Holding?
    ensures CallsOf(Next(s, Invoke(w, result)), id) == CallsOf(s, id) + if s.workers[w].id == id then 1 else 0
  {
    InvokeCounts(s.trace, s.workers[w].id, result.Success?, Called(id));
  }

  lemma {:induction false} QuietRemains(s: System, moves: seq<Move>, id: nat, force: bool)
    requires Quiet(s, id, force) && ForcedOnlyIf(moves, force) && GrantsOf(Play(s, moves), id) == GrantsOf(s, id)
    ensures Quiet(Play(s, moves), id, force) && CallsOf(Play(s, moves), id) == CallsOf(s, id)
  {
    if moves != [] {
      var init, last := moves[..|moves| - 1], moves[|moves| - 1];
      assert moves == init + [last];
      GrantsStay(s, init, last, Granted(id));
      QuietRemains(s, init, id, force);
      QuietStays(Play(s, init), last, id, force);
    }
  }

  /** A continuation that calls a handler for the attempt, although it is granted no further approval. */
  ghost predicate CallsUnapproved(s: System, moves: seq<Move>, id: nat, force: bool) {
    && ForcedOnlyIf(moves, force) && GrantsOf(Play(s, moves), id) == GrantsOf(s, id)
    && CallsOf(Play(s, moves), id) > CallsOf(s, id)
  }

  /** It is neither granted nor withdrawn. */
  ghost predicate CallsOnly(s: System, moves: seq<Move>, id: nat, force: bool) {
    CallsUnapproved(s, moves, id, force) && WithdrawalsOf(Play(s, moves), id) == WithdrawalsOf(s, id)
  }

  lemma CallsConcat(s: System, move: Move, rest: seq<Move>, id: nat, force: bool)
    requires CallsOnly(Next(s, move), rest, id, force) && (move.Take? && move.force ==> force)
    requires GrantsOf(Next(s, move), id) == GrantsOf(s, id) && WithdrawalsOf(Next(s, move), id) == WithdrawalsOf(s, id)
    ensures CallsOnly(s, [move] + rest, id, force)
  {
    OneMove(s, move);
    PlayConcat(s, [move], rest);
    TraceGrows(s, move, Called(id));
  }

  lemma HolderCalls(s: System, w: nat, id: nat, force: bool)
    requires w in s.workers && s.workers[w] == Holding(id)
    ensures CallsOnly(s, [Invoke(w, Failure)], id, force)
  {
    OneMove(s, Invoke(w, Failure));
    InvokeElsewhere(s, w, Failure, id);
    InvokePays(s, w, Failure, id);
    InvokeCounts(s.trace, id, false, Withdrawn(id));
  }

  lemma ClaimCalls(s: System, id: nat, force: bool) returns (moves: seq<Move>)
    requires id in s.statuses && Claimable(s.statuses[id], force)
    ensures CallsOnly(s, moves, id, force)
  {
    var w := FreshWorker(s.workers);
    HolderCalls(Next(s, Take(w, id, force)), w, id, force);
    CallsConcat(s, Take(w, id, force), [Invoke(w, Failure)], id, force);
    moves := [Take(w, id, force)] + [Invoke(w, Failure)];
  }

  lemma WorkerCalls(s: System, w: nat, id: nat, force: bool) returns (moves: seq<Move>)
    requires w in s.workers && MayCall(s.workers[w], id, force)
    ensures CallsOnly(s, moves, id, force)
  {
    if s.workers[w].Holding? {
      HolderCalls(s, w, id, force);
      moves := [Invoke(w, Failure)];
    } else {
      var rest := ClaimCalls(Next(s, Finish(w)), id, force);
      CallsConcat(s, Finish(w), rest, id, force);
      moves := [Finish(w)] + rest;
    }
  }

  ghost predicate CanBeCalled(s: System, id: nat, force: bool) {
    exists moves :: CallsUnapproved(s, moves, id, force)
  }

  /**
   * From any state: a handler can be called without another approval if and only if a worker or the
   * status leads to it.
   */
  lemma CalledIff(s: System, id: nat, force: bool)
    ensures CanBeCalled(s, id, force) <==> !Quiet(s, id, force)
  {
    if moves :| CallsUnapproved(s, moves, id, force) {
      if Quiet(s, id, force) {
        QuietRemains(s, moves, id, force);
      }
    }
    if SomeoneMayCall(s, id, force) {
      var w :| w in s.workers && MayCall(s.workers[w], id, force);
      var moves := WorkerCalls(s, w, id, force);
      assert CallsUnapproved(s, moves, id, force);
    } else if id in s.statuses && Claimable(s.statuses[id], force) {
      var moves := ClaimCalls(s, id, force);
      assert CallsUnapproved(s, moves, id, force);
    }
  }

  // ------------------------------------------------------------------------------------------
  // Rejections
  // ------------------------------------------------------------------------------------------

  /**
   * After a rejection a handler is still called, without another approval, if and only if at the
   * rejection a worker held the attempt, or had a result that lets a forced retry claim it.
   */
  lemma RejectionOverrunIff(s: System, id: nat, force: bool)
    requires id in s.statuses
    ensures CanBeCalled(Next(s, Withdraw(id)), id, force) <==> SomeoneMayCall(s, id, force)
  {
    CalledIff(Next(s, Withdraw(id)), id, force);
  }

  /** Somebody still has an update of the attempt to make. */
  ghost predicate UpdatePending(s: System, id: nat) {
    (exists w :: w in s.workers && s.workers[w].id == id) || Completers(s.users, id) != {}
  }

  predicate IsRejected(s: System, id: nat) {
    id in s.statuses && s.statuses[id].Rejected?
  }

  ghost predicate Overwrites(s: System, moves: seq<Move>, id: nat) {
    GrantsOf(Play(s, moves), id) == GrantsOf(s, id) && !IsRejected(Play(s, moves), id)
  }

  ghost predicate CanBeOverwritten(s: System, id: nat) {
    exists moves :: Overwrites(s, moves, id)
  }

  lemma RejectionStays(s: System, move: Move, id: nat)
    requires IsRejected(s, id) && !UpdatePending(s, id) && GrantsOf(Next(s, move), id) == GrantsOf(s, id)
    ensures IsRejected(Next(s, move), id) && !UpdatePending(Next(s, move), id)
  {
    if move.Grant? {
      TraceGrows(s, move, Granted(id));
      if Grants(s, move) {
        CompletersRemove(s.users, move.user, id);
      }
    } else if Completes(s, move) {
      assert s.users[move.user].id == id ==> move.user in Completers(s.users, id);
      CompletersRemove(s.users, move.user, id);
    } else if Reads(s, move) {
      CompletersAdd(s.users, move.user, if move.ReadApprovable? then Approving(move.id) else Completing(move.id), id);
    }
  }

  lemma {:induction false} RejectionRemains(s: System, moves: seq<Move>, id: nat)
    requires IsRejected(s, id) && !UpdatePending(s, id) && GrantsOf(Play(s, moves), id) == GrantsOf(s, id)
    ensures IsRejected(Play(s, moves), id) && !UpdatePending(Play(s, moves), id)
  {
    if moves != [] {
      var init, last := moves[..|moves| - 1], moves[|moves| - 1];
      assert moves == init + [last];
      GrantsStay(s, init, last, Granted(id));
      RejectionRemains(s, init, id);
      RejectionStays(Play(s, init), last, id);
    }
  }

  lemma WorkerOverwrites(s: System, w: nat, id: nat) returns (moves: seq<Move>)
    requires w in s.workers && s.workers[w].id == id
    ensures Overwrites(s, moves, id)
  {
    if s.workers[w].Returned? {
      moves := [Finish(w)];
    } else {
      OneMove(s, Invoke(w, Failure));
      InvokePays(s, w, Failure, id);
      PlayConcat(s, [Invoke(w, Failure)], [Finish(w)]);
      moves := [Invoke(w, Failure)] + [Finish(w)];
    }
  }

  lemma CompleterOverwrites(s: System, u: nat, id: nat)
    requires u in Completers(s.users, id)
    ensures Overwrites(s, [Complete(u)], id)
  {
    OneMove(s, Complete(u));
    CountAppend(s.trace, Submitted(id), Granted(id));
  }

  /**
   * A rejection can be overwritten without another approval if and only if a worker or a completing
   * user was still about to update the attempt.
   */
  lemma RejectionOverwrittenIff(s: System, id: nat)
    requires id in s.statuses
    ensures CanBeOverwritten(Next(s, Withdraw(id)), id) <==> UpdatePending(s, id)
  {
    var t := Next(s, Withdraw(id));
    if moves :| Overwrites(t, moves, id) {
      if !UpdatePending(t, id) {
        RejectionRemains(t, moves, id);
      }
    }
    if w :| w in t.workers && t.workers[w].id == id {
      var moves := WorkerOverwrites(t, w, id);
      assert Overwrites(t, moves, id);
    }
    if u :| u in Completers(t.users, id) {
      CompleterOverwrites(t, u, id);
    }
  }

  // ------------------------------------------------------------------------------------------
  // Posted attempts
  // ------------------------------------------------------------------------------------------

  /** The check of an approval went through, whatever the status is now. */
  ghost predicate ApprovalPending(s: System, id: nat) {
    exists u :: u in s.users && s.users[u] == Approving(id)
  }

  /** Only a rejection can make the attempt approvable again. */
  ghost predicate Closed(s: System, id: nat, force: bool) {
    id in s.statuses && !Approvable(s.statuses[id]) && !ApprovalPending(s, id) && Quiet(s, id, force)
  }

  ghost predicate CallsUnrejected(s: System, moves: seq<Move>, id: nat, force: bool) {
    && ForcedOnlyIf(moves, force) && WithdrawalsOf(Play(s, moves), id) == WithdrawalsOf(s, id)
    && CallsOf(Play(s, moves), id) > CallsOf(s, id)
  }

  lemma StatusStaysClosed(s: System, move: Move, id: nat)
    requires id in s.statuses && !Approvable(s.statuses[id]) && !ApprovalPending(s, id)
    requires !(move.Withdraw? && move.id == id)
    ensures id in Next(s, move).statuses && !Approvable(Next(s, move).statuses[id])
  {
    if Grants(s, move) {
      assert s.users[move.user] != Approving(id);
    }
  }

  lemma NobodyStartsToApprove(s: System, move: Move, id: nat)
    requires id in s.statuses && !Approvable(s.statuses[id]) && !ApprovalPending(s, id)
    ensures !ApprovalPending(Next(s, move), id)
    ensures GrantsOf(Next(s, move), id) == GrantsOf(s, id)
  {
    GrantsOnlyByUsers(s, move, id);
    if Grants(s, move) {
      assert s.users[move.user] != Approving(id);
    }
    if u :| u in Next(s, move).users && Next(s, move).users[u] == Approving(id) {
      assert u in s.users ==> s.users[u] != Approving(id);
    }
  }

  lemma ClosedStays(s: System, move: Move, id: nat, force: bool)
    requires Closed(s, id, force) && (move.Take? && move.force ==> force)
    requires WithdrawalsOf(Next(s, move), id) == WithdrawalsOf(s, id)
    ensures Closed(Next(s, move), id, force) && CallsOf(Next(s, move), id) == CallsOf(s, id)
  {
    if move.Withdraw? {
      TraceGrows(s, move, Withdrawn(id));
    }
    StatusStaysClosed(s, move, id);
    NobodyStartsToApprove(s, move, id);
    QuietStays(s, move, id, force);
  }

  lemma GrantsOnlyByUsers(s: System, move: Move, id: nat)
    ensures GrantsOf(Next(s, move), id) == GrantsOf(s, id) || (Grants(s, move) && s.users[move.user].id == id)
  {
    match move
    case Grant(u) => if Grants(s, move) { CountAppend(s.trace, Granted(s.users[u].id), Granted(id)); }
    case Withdraw(i) => CountAppend(s.trace, Withdrawn(i), Granted(id));
    case Invoke(w, result) => if w in s.workers && s.workers[w].Holding? { InvokePays(s, w, result, id); }
    case Complete(u) => if Completes(s, move) { CountAppend(s.trace, Submitted(s.users[u].id), Granted(id)); }
    case _ =>
  }

  lemma {:induction false} ClosedRemains(s: System, moves: seq<Move>, id: nat, force: bool)
    requires Closed(s, id, force) && ForcedOnlyIf(moves, force)
    requires WithdrawalsOf(Play(s, moves), id) == WithdrawalsOf(s, id)
    ensures Closed(Play(s, moves), id, force) && CallsOf(Play(s, moves), id) == CallsOf(s, id)
  {
    if moves != [] {
      var init, last := moves[..|moves| - 1], moves[|moves| - 1];
      assert moves == init + [last];
      GrantsStay(s, init, last, Withdrawn(id));
      ClosedRemains(s, init, id, force);
      ClosedStays(Play(s, init), last, id, force);
    }
  }

  lemma GrantOnly(s: System, u: nat, id: nat)
    requires u in s.users && s.users[u] == Approving(id)
    ensures var t := Next(s, Grant(u));
            && id in t.statuses && t.statuses[id].Approved?
            && CallsOf(t, id) == CallsOf(s, id) && WithdrawalsOf(t, id) == WithdrawalsOf(s, id)
  {
    CountAppend(s.trace, Granted(id), Withdrawn(id));
    CountAppend(s.trace, Granted(id), Called(id));
  }

  lemma ApproverCalls(s: System, u: nat, id: nat, force: bool) returns (moves: seq<Move>)
    requires u in s.users && s.users[u] == Approving(id)
    ensures CallsUnrejected(s, moves, id, force)
  {
    var t := Next(s, Grant(u));
    GrantOnly(s, u, id);
    var rest := ClaimCalls(t, id, force);
    moves := [Grant(u)] + rest;
    PlayCons(s, Grant(u), rest);
    assert ForcedOnlyIf(moves, force);
  }

  ghost predicate CanBeReopened(s: System, id: nat, force: bool) {
    exists moves :: CallsUnrejected(s, moves, id, force)
  }

  /**
   * A posted attempt reaches a handler again without a rejection if and only if a worker still leads to
   * a call, or an approval whose check went through before is still to be written.
   */
  lemma PostedReopensIff(s: System, id: nat, force: bool)
    requires id in s.statuses && s.statuses[id].Posted?
    ensures CanBeReopened(s, id, force) <==> SomeoneMayCall(s, id, force) || ApprovalPending(s, id)
  {
    if moves :| CallsUnrejected(s, moves, id, force) {
      if Closed(s, id, force) {
        ClosedRemains(s, moves, id, force);
      }
    }
    if SomeoneMayCall(s, id, force) {
      var w :| w in s.workers && MayCall(s.workers[w], id, force);
      var moves := WorkerCalls(s, w, id, force);
      assert CallsUnrejected(s, moves, id, force);
    } else if ApprovalPending(s, id) {
      var u :| u in s.users && s.users[u] == Approving(id);
      var moves := ApproverCalls(s, u, id, force);
      assert CallsUnrejected(s, moves, id, force);
    }
  }
}
