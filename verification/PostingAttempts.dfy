/**
 * Posting attempts: dry run, human approval, execution with retries, supervised completion
 * (src/data_entry/safe_posting.py, posting_approval.py, posting_executor.py over
 * src/queue/retry_manager.py).
 *
 * `State` is the content of the tables together with the history of what happened, and `Step` is one
 * operation that runs without interference. `PostingDatabase` performs the operations on its tables.
 */
module PostingAttempts {

  datatype Status =
    | DryRunCreated | ApprovalRequired | Approved | Rejected
    | InProgress | Posted | Failed | Deferred | SupervisionRequired

  datatype Attempt = Attempt(key: string, documentId: string, targetSystem: string, status: Status)

  datatype RetryStatus = Pending | Completed | DeadLetter

  datatype Retry = Retry(status: RetryStatus, attemptCount: nat, nextRetryAt: int)

  datatype Event =
    | Created(id: nat)
    | ApprovedByUser(id: nat)
    | RejectedByUser(id: nat)
    | HandlerCalled(id: nat)
    | Succeeded(id: nat)
    | CompletedByUser(id: nat)
    | RetryScheduled(id: nat)
    | DeadLettered(id: nat)

  datatype State = State(attempts: map<nat, Attempt>, nextId: nat, retries: map<nat, Retry>, history: seq<Event>)

  const EMPTY := State(map[], 1, map[], [])

  datatype HandlerResult = Success | RateLimited(retryAfter: int) | Supervised | Failure

  /** What the executor meets: no handler for the target system, or one that returns (or raises). */
  datatype Call = NoHandler | Returns(result: HandlerResult)

  datatype Config = Config(executeApproved: bool, maxAttempts: int, baseDelay: nat)

  datatype Op =
    | CreateDryRun(key: string, documentId: string, targetSystem: string)
    | Approve(id: nat)
    | Reject(id: nat)
    | Execute(id: nat, force: bool, call: Call, now: int)
    | CompleteSupervised(id: nat, confirmed: bool)

  // ------------------------------------------------------------------------------------------
  // One operation
  // ------------------------------------------------------------------------------------------

  predicate KeyTaken(attempts: map<nat, Attempt>, key: string) {
    exists id :: id in attempts && attempts[id].key == key
  }

  predicate Approvable(status: Status) {
    status.DryRunCreated? || status.ApprovalRequired? || status.Rejected?
  }

  predicate Claimable(status: Status, force: bool) {
    || status.Approved?
    || (force && (status.Failed? || status.InProgress? || status.Deferred? || status.SupervisionRequired?))
  }

  function SetStatus(s: State, id: nat, status: Status, event: seq<Event>): State
    requires id in s.attempts
  {
    s.(attempts := s.attempts[id := s.attempts[id].(status := status)], history := s.history + event)
  }

  function Create(s: State, key: string, documentId: string, targetSystem: string): State {
    if KeyTaken(s.attempts, key) then s
    else s.(attempts := s.attempts[s.nextId := Attempt(key, documentId, targetSystem, DryRunCreated)],
            nextId := s.nextId + 1, history := s.history + [Created(s.nextId)])
  }

  function Pow2(n: nat): nat {
    if n == 0 then 1 else 2 * Pow2(n - 1)
  }

  function AttemptCount(retries: map<nat, Retry>, id: nat): nat {
    if id in retries then retries[id].attemptCount else 0
  }

  /** `schedule_retry`: the last failure that the limit allows goes to the dead letters. */
  function ScheduleRetry(config: Config, s: State, id: nat, now: int): State {
    var count := AttemptCount(s.retries, id) + 1;
    if count >= config.maxAttempts then
      s.(retries := if id in s.retries then s.retries[id := s.retries[id].(status := DeadLetter)] else s.retries,
         history := s.history + [DeadLettered(id)])
    else
      s.(retries := s.retries[id := Retry(Pending, count, now + config.baseDelay * Pow2(count - 1))],
         history := s.history + [RetryScheduled(id)])
  }

  /** `defer_retry`: a pause that spends no attempt. */
  function DeferRetry(s: State, id: nat, delay: int, now: int): State {
    s.(retries := s.retries[id := Retry(Pending, AttemptCount(s.retries, id), now + if delay < 1 then 1 else delay)])
  }

  function MarkComplete(s: State, id: nat): State {
    if id in s.retries then s.(retries := s.retries[id := s.retries[id].(status := Completed)]) else s
  }

  function Fail(config: Config, s: State, id: nat, now: int): State
    requires id in s.attempts
  {
    ScheduleRetry(config, SetStatus(s, id, Failed, []), id, now)
  }

  /** What the executor does with the answer of the handler. */
  function HandleResult(config: Config, called: State, id: nat, result: HandlerResult, now: int): State
    requires id in called.attempts
  {
    match result
    case Success => MarkComplete(SetStatus(called, id, Posted, [Succeeded(id)]), id)
    case RateLimited(delay) => DeferRetry(SetStatus(called, id, Deferred, []), id, delay, now)
    case Supervised => SetStatus(called, id, SupervisionRequired, [])
    case Failure => Fail(config, called, id, now)
  }

  function ExecuteAttempt(config: Config, s: State, id: nat, force: bool, call: Call, now: int): State {
    if !config.executeApproved && !force then s
    else if id !in s.attempts || !Claimable(s.attempts[id].status, force) then s
    else
      match call
      case NoHandler => Fail(config, SetStatus(s, id, InProgress, []), id, now)
      case Returns(result) =>
        HandleResult(config, SetStatus(s, id, InProgress, [HandlerCalled(id)]), id, result, now)
  }

  function Step(config: Config, s: State, op: Op): State {
    match op
    case CreateDryRun(key, documentId, targetSystem) => Create(s, key, documentId, targetSystem)
    case Approve(id) =>
      if id in s.attempts && Approvable(s.attempts[id].status) then SetStatus(s, id, Approved, [ApprovedByUser(id)])
      else s
    case Reject(id) =>
      if id in s.attempts then SetStatus(s, id, Rejected, [RejectedByUser(id)]) else s
    case Execute(id, force, call, now) => ExecuteAttempt(config, s, id, force, call, now)
    case CompleteSupervised(id, confirmed) =>
      if confirmed && id in s.attempts && s.attempts[id].status.SupervisionRequired?
      then SetStatus(s, id, Posted, [CompletedByUser(id)]) else s
  }

  function Run(config: Config, s: State, ops: seq<Op>): State {
    if ops == [] then s else Step(config, Run(config, s, ops[..|ops| - 1]), ops[|ops| - 1])
  }

  // ------------------------------------------------------------------------------------------
  // The tables
  // ------------------------------------------------------------------------------------------

  datatype Claim = Claimed | NotFound | NotApproved | Skipped

  class PostingDatabase {
    const config: Config
    var attempts: map<nat, Attempt>
    var nextId: nat
    var retries: map<nat, Retry>
    ghost var history: seq<Event>

    constructor (config: Config)
      ensures this.config == config && View() == EMPTY
    {
      this.config := config;
      attempts, nextId, retries, history := map[], 1, map[], [];
    }

    ghost function View(): State
      reads this
    {
      State(attempts, nextId, retries, history)
    }

    method Create(key: string, documentId: string, targetSystem: string) returns (created: bool)
      modifies this
      ensures View() == Step(config, old(View()), CreateDryRun(key, documentId, targetSystem))
      ensures created <==> !old(KeyTaken(attempts, key))
    {
      if exists id | id in attempts :: attempts[id].key == key {
        return false;
      }
      attempts := attempts[nextId := Attempt(key, documentId, targetSystem, DryRunCreated)];
      history := history + [Created(nextId)];
      nextId := nextId + 1;
      created := true;
    }

    method ApproveAttempt(id: nat) returns (approved: bool)
      modifies this
      ensures View() == Step(config, old(View()), Approve(id))
      ensures approved <==> id in old(attempts) && Approvable(old(attempts)[id].status)
    {
      if id !in attempts || !Approvable(attempts[id].status) {
        return false;
      }
      attempts := attempts[id := attempts[id].(status := Approved)];
      history := history + [ApprovedByUser(id)];
      approved := true;
    }

    /** No guard on the status: whatever the attempt was, it is rejected now. */
    method RejectAttempt(id: nat) returns (found: bool)
      modifies this
      ensures View() == Step(config, old(View()), Reject(id))
      ensures found <==> id in old(attempts)
    {
      found := id in attempts;
      if found {
        attempts := attempts[id := attempts[id].(status := Rejected)];
        history := history + [RejectedByUser(id)];
      }
    }

    method CompleteSupervisedAttempt(id: nat, confirmed: bool) returns (completed: bool)
      modifies this
      ensures View() == Step(config, old(View()), CompleteSupervised(id, confirmed))
      ensures completed ==> id in old(attempts) && old(attempts)[id].status == SupervisionRequired
    {
      if !confirmed || id !in attempts || !attempts[id].status.SupervisionRequired? {
        return false;
      }
      attempts := attempts[id := attempts[id].(status := Posted)];
      history := history + [CompletedByUser(id)];
      completed := true;
    }

    /** The claim: one update guarded by the status just read. */
    method ClaimAttempt(id: nat, force: bool) returns (claim: Claim)
      modifies this`attempts
      ensures claim == if id !in old(attempts) then NotFound
                       else if Claimable(old(attempts)[id].status, force) then Claimed else NotApproved
      ensures attempts == if claim == Claimed then old(attempts)[id := old(attempts)[id].(status := InProgress)]
                          else old(attempts)
    {
      if id !in attempts {
        return NotFound;
      }
      if !Claimable(attempts[id].status, force) {
        return NotApproved;
      }
      attempts := attempts[id := attempts[id].(status := InProgress)];
      claim := Claimed;
    }

    method HandleFailure(id: nat, now: int)
      requires id in attempts
      modifies this
      ensures View() == Fail(config, old(View()), id, now)
    {
      attempts := attempts[id := attempts[id].(status := Failed)];
      var count := (if id in retries then retries[id].attemptCount else 0) + 1;
      if count >= config.maxAttempts {
        if id in retries {
          retries := retries[id := retries[id].(status := DeadLetter)];
        }
        history := history + [DeadLettered(id)];
      } else {
        var delay := config.baseDelay;
        for i := 0 to count - 1
          invariant delay == config.baseDelay * Pow2(i)
        {
          delay := delay * 2;
        }
        retries := retries[id := Retry(Pending, count, now + delay)];
        history := history + [RetryScheduled(id)];
      }
      assert old(View()).history + [] == old(View()).history;
    }

    method ExecuteAttempt(id: nat, force: bool, call: Call, now: int) returns (claim: Claim)
      modifies this
      ensures View() == Step(config, old(View()), Execute(id, force, call, now))
      ensures claim == Claimed <==> (config.executeApproved || force) && id in old(attempts)
                                    && Claimable(old(attempts)[id].status, force)
    {
      if !config.executeApproved && !force {
        return Skipped;
      }
      claim := ClaimAttempt(id, force);
      if claim != Claimed {
        return;
      }
      assert history + [] == history;
      if call.NoHandler? {
        HandleFailure(id, now);
        return;
      }
      history := history + [HandlerCalled(id)];
      match call.result
      case Success =>
        attempts := attempts[id := attempts[id].(status := Posted)];
        history := history + [Succeeded(id)];
        if id in retries {
          retries := retries[id := retries[id].(status := Completed)];
        }
      case RateLimited(delay) =>
        attempts := attempts[id := attempts[id].(status := Deferred)];
        assert history + [] == history;
        var count := if id in retries then retries[id].attemptCount else 0;
        retries := retries[id := Retry(Pending, count, now + if delay < 1 then 1 else delay)];
      case Supervised =>
        attempts := attempts[id := attempts[id].(status := SupervisionRequired)];
        assert history + [] == history;
      case Failure =>
        HandleFailure(id, now);
    }

    /** Execute, by force, the given attempts in order; `calls` are the handler outcomes. */
    method ExecuteAll(ids: seq<nat>, calls: seq<Call>, now: int)
      requires |calls| == |ids|
      modifies this
      ensures View() == Run(config, old(View()), Executions(ids, calls, now))
    {
      assert Executions(ids, calls, now)[..0] == [];
      for i := 0 to |ids|
        invariant View() == Run(config, old(View()), Executions(ids, calls, now)[..i])
      {
        var _ := ExecuteAttempt(ids[i], true, calls[i], now);
        assert Executions(ids, calls, now)[..i + 1][..i] == Executions(ids, calls, now)[..i];
      }
      assert Executions(ids, calls, now)[..|ids|] == Executions(ids, calls, now);
    }
  }

  function Executions(ids: seq<nat>, calls: seq<Call>, now: int): (ops: seq<Op>)
    requires |calls| == |ids|
    ensures |ops| == |ids|
  {
    seq(|ids|, i requires 0 <= i < |ids| => Execute(ids[i], true, calls[i], now))
  }
}
