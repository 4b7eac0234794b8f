/** What holds of every run of the posting operations, each executed without interference. */
module PostingRuns {
  import opened PostingAttempts

  /** Where an attempt stands, read off the history alone. */
  datatype Phase = Unknown | Undecided | Granted | Refused | Spent

  function After(phase: Phase, e: Event): Phase {
    match e
    case Created(_) => Undecided
    case ApprovedByUser(_) => Granted
    case RejectedByUser(_) => Refused
    case Succeeded(_) => Spent
    case CompletedByUser(_) => Spent
    case _ => phase
  }

  function PhaseOf(history: seq<Event>, id: nat): Phase {
    if history == [] then Unknown
    else
      var e, before := history[|history| - 1], PhaseOf(history[..|history| - 1], id);
      if e.id == id then After(before, e) else before
  }

  /** The events that an attempt in this phase can see. */
  predicate Allowed(phase: Phase, e: Event) {
    match e
    case Created(_) => phase == Unknown
    case ApprovedByUser(_) => phase == Undecided || phase == Refused
    case RejectedByUser(_) => phase != Unknown
    case HandlerCalled(_) => phase == Granted
    case Succeeded(_) => phase == Granted
    case CompletedByUser(_) => phase == Granted
    case _ => phase == Granted
  }

  ghost predicate Legal(history: seq<Event>) {
    forall i :: 0 <= i < |history| ==> Allowed(PhaseOf(history[..i], history[i].id), history[i])
  }

  function PhaseOfStatus(status: Status): Phase {
    match status
    case DryRunCreated => Undecided
    case ApprovalRequired => Undecided
    case Rejected => Refused
    case Posted => Spent
    case _ => Granted
  }

  /** How often a retry of the attempt was scheduled. */
  function Scheduled(history: seq<Event>, id: nat): nat {
    if history == [] then 0
    else Scheduled(history[..|history| - 1], id) + if history[|history| - 1] == RetryScheduled(id) then 1 else 0
  }

  // ------------------------------------------------------------------------------------------
  // The invariant of every run
  // ------------------------------------------------------------------------------------------

  ghost predicate StatusesAgree(s: State) {
    && (forall id :: id in s.attempts ==> id < s.nextId)
    && (forall id :: PhaseOf(s.history, id) ==
          if id in s.attempts then PhaseOfStatus(s.attempts[id].status) else Unknown)
  }

  ghost predicate KeysDistinct(attempts: map<nat, Attempt>) {
    forall a, b :: a in attempts && b in attempts && attempts[a].key == attempts[b].key ==> a == b
  }

  ghost predicate RetriesCounted(config: Config, s: State) {
    forall id :: RetryCounted(config, s, id)
  }

  predicate RetryCounted(config: Config, s: State, id: nat) {
    AttemptCount(s.retries, id) == Scheduled(s.history, id)
    && (Scheduled(s.history, id) == 0 || Scheduled(s.history, id) < config.maxAttempts)
  }

  ghost predicate Inv(config: Config, s: State) {
    Legal(s.history) && StatusesAgree(s) && KeysDistinct(s.attempts) && RetriesCounted(config, s)
  }

  lemma LegalAppend(history: seq<Event>, e: Event)
    requires Legal(history) && Allowed(PhaseOf(history, e.id), e)
    ensures Legal(history + [e])
    ensures forall id :: PhaseOf(history + [e], id)
                      == if e.id == id then After(PhaseOf(history, id), e) else PhaseOf(history, id)
    ensures forall id :: Scheduled(history + [e], id)
                         == Scheduled(history, id) + if e == RetryScheduled(id) then 1 else 0
  {
    var h := history + [e];
    assert h[..|history|] == history;
    forall i | 0 <= i < |h| ensures Allowed(PhaseOf(h[..i], h[i].id), h[i]) {
      if i < |history| {
        assert h[..i] == history[..i];
      }
    }
  }

  lemma SetStatusKeepsInv(config: Config, s: State, id: nat, status: Status, e: Event)
    requires Inv(config, s) && id in s.attempts && e.id == id && !e.RetryScheduled?
    requires Allowed(PhaseOfStatus(s.attempts[id].status), e)
    requires After(PhaseOfStatus(s.attempts[id].status), e) == PhaseOfStatus(status)
    ensures Inv(config, SetStatus(s, id, status, [e]))
  {
    LegalAppend(s.history, e);
    var after := SetStatus(s, id, status, [e]);
    forall i ensures RetryCounted(config, after, i) {
      assert RetryCounted(config, s, i);
    }
  }

  lemma SilentStatusKeepsInv(config: Config, s: State, id: nat, status: Status)
    requires Inv(config, s) && id in s.attempts
    requires PhaseOfStatus(s.attempts[id].status) == PhaseOfStatus(status)
    ensures Inv(config, SetStatus(s, id, status, []))
  {
    assert s.history + [] == s.history;
    var after := SetStatus(s, id, status, []);
    forall i ensures RetryCounted(config, after, i) {
      assert RetryCounted(config, s, i);
    }
  }

  lemma SameCountsKeepInv(config: Config, s: State, retries: map<nat, Retry>)
    requires Inv(config, s) && forall id :: AttemptCount(retries, id) == AttemptCount(s.retries, id)
    ensures Inv(config, s.(retries := retries))
  {
    forall i ensures RetryCounted(config, s.(retries := retries), i) {
      assert RetryCounted(config, s, i);
    }
  }

  lemma FailKeepsInv(config: Config, s: State, id: nat, now: int)
    requires Inv(config, s) && id in s.attempts && PhaseOfStatus(s.attempts[id].status) == Granted
    ensures Inv(config, Fail(config, s, id, now))
  {
    SilentStatusKeepsInv(config, s, id, Failed);
    ScheduleKeepsInv(config, SetStatus(s, id, Failed, []), id, now);
  }

  lemma ScheduleKeepsInv(config: Config, s: State, id: nat, now: int)
    requires Inv(config, s) && PhaseOf(s.history, id) == Granted
    ensures Inv(config, ScheduleRetry(config, s, id, now))
  {
    var after := ScheduleRetry(config, s, id, now);
    assert RetryCounted(config, s, id);
    LegalAppend(s.history, after.history[|s.history|]);
    forall i ensures RetryCounted(config, after, i) {
      assert RetryCounted(config, s, i);
    }
  }

  lemma ExecuteKeepsInv(config: Config, s: State, id: nat, force: bool, call: Call, now: int)
    requires Inv(config, s)
    ensures Inv(config, ExecuteAttempt(config, s, id, force, call, now))
  {
    if (config.executeApproved || force) && id in s.attempts && Claimable(s.attempts[id].status, force) {
      match call
      case NoHandler =>
        SilentStatusKeepsInv(config, s, id, InProgress);
        FailKeepsInv(config, SetStatus(s, id, InProgress, []), id, now);
      case Returns(result) =>
        SetStatusKeepsInv(config, s, id, InProgress, HandlerCalled(id));
        ResultKeepsInv(config, SetStatus(s, id, InProgress, [HandlerCalled(id)]), id, result, now);
    }
  }

  lemma ResultKeepsInv(config: Config, called: State, id: nat, result: HandlerResult, now: int)
    requires Inv(config, called) && id in called.attempts && called.attempts[id].status == InProgress
    ensures Inv(config, HandleResult(config, called, id, result, now))
  {
    match result
    case Success =>
      SetStatusKeepsInv(config, called, id, Posted, Succeeded(id));
      var posted := SetStatus(called, id, Posted, [Succeeded(id)]);
      SameCountsKeepInv(config, posted, MarkComplete(posted, id).retries);
    case RateLimited(delay) =>
      SilentStatusKeepsInv(config, called, id, Deferred);
      var deferred := SetStatus(called, id, Deferred, []);
      assert RetryCounted(config, deferred, id);
      SameCountsKeepInv(config, deferred, DeferRetry(deferred, id, delay, now).retries);
    case Supervised => SilentStatusKeepsInv(config, called, id, SupervisionRequired);
    case Failure => FailKeepsInv(config, called, id, now);
  }

  lemma CreateKeepsInv(config: Config, s: State, key: string, documentId: string, targetSystem: string)
    requires Inv(config, s)
    ensures Inv(config, Create(s, key, documentId, targetSystem))
  {
    if !KeyTaken(s.attempts, key) {
      var after := Create(s, key, documentId, targetSystem);
      assert PhaseOf(s.history, s.nextId) == Unknown;
      LegalAppend(s.history, Created(s.nextId));
      forall i ensures RetryCounted(config, after, i) {
        assert RetryCounted(config, s, i);
      }
    }
  }

  lemma StepKeepsInv(config: Config, s: State, op: Op)
    requires Inv(config, s)
    ensures Inv(config, Step(config, s, op))
  {
    match op
    case CreateDryRun(key, documentId, targetSystem) => CreateKeepsInv(config, s, key, documentId, targetSystem);
    case Approve(id) =>
      if id in s.attempts && Approvable(s.attempts[id].status) {
        SetStatusKeepsInv(config, s, id, Approved, ApprovedByUser(id));
      }
    case Reject(id) =>
      if id in s.attempts {
        SetStatusKeepsInv(config, s, id, Rejected, RejectedByUser(id));
      }
    case Execute(id, force, call, now) => ExecuteKeepsInv(config, s, id, force, call, now);
    case CompleteSupervised(id, confirmed) =>
      if confirmed && id in s.attempts && s.attempts[id].status.SupervisionRequired? {
        SetStatusKeepsInv(config, s, id, Posted, CompletedByUser(id));
      }
  }

  lemma {:induction false} RunKeepsInv(config: Config, ops: seq<Op>)
    ensures Inv(config, Run(config, EMPTY, ops))
  {
    if ops != [] {
      RunKeepsInv(config, ops[..|ops| - 1]);
      StepKeepsInv(config, Run(config, EMPTY, ops[..|ops| - 1]), ops[|ops| - 1]);
    }
  }

  // ------------------------------------------------------------------------------------------
  // What it means for the history
  // ------------------------------------------------------------------------------------------

  /** The latest decision a person took on the attempt. */
  datatype Decision = NoDecision | Yes | No

  function LatestDecision(history: seq<Event>, id: nat): Decision {
    if history == [] then NoDecision
    else
      match history[|history| - 1]
      case ApprovedByUser(a) => if a == id then Yes else LatestDecision(history[..|history| - 1], id)
      case RejectedByUser(r) => if r == id then No else LatestDecision(history[..|history| - 1], id)
      case _ => LatestDecision(history[..|history| - 1], id)
  }

  lemma {:induction false} GrantedIsApproved(history: seq<Event>, id: nat)
    requires Legal(history)
    ensures PhaseOf(history, id) == Granted || PhaseOf(history, id) == Spent ==> LatestDecision(history, id) == Yes
    ensures PhaseOf(history, id) == Unknown ==> LatestDecision(history, id) == NoDecision
  {
    if history != [] {
      var n := |history| - 1;
      LegalPrefix(history, n);
      GrantedIsApproved(history[..n], id);
      assert Allowed(PhaseOf(history[..n], history[n].id), history[n]);
    }
  }

  lemma LegalPrefix(history: seq<Event>, n: nat)
    requires Legal(history) && n <= |history|
    ensures Legal(history[..n])
  {
    forall i | 0 <= i < n ensures Allowed(PhaseOf(history[..n][..i], history[..n][i].id), history[..n][i]) {
      assert history[..n][..i] == history[..i];
    }
  }

  /** A handler only ever gets an attempt whose latest human decision is an approval. */
  lemma HandlerNeedsApproval(config: Config, ops: seq<Op>, i: nat)
    requires i < |Run(config, EMPTY, ops).history| && Run(config, EMPTY, ops).history[i].HandlerCalled?
    ensures var history := Run(config, EMPTY, ops).history; LatestDecision(history[..i], history[i].id) == Yes
  {
    var history := Run(config, EMPTY, ops).history;
    RunKeepsInv(config, ops);
    LegalPrefix(history, i);
    GrantedIsApproved(history[..i], history[i].id);
  }

  ghost predicate RejectedThenApproved(history: seq<Event>, id: nat, from: nat, to: nat) {
    exists r, a ::
      from < r < a < to <= |history| && history[r] == RejectedByUser(id) && history[a] == ApprovedByUser(id)
  }

  ghost predicate RejectedSince(history: seq<Event>, id: nat, from: nat, to: nat) {
    exists r :: from < r < to <= |history| && history[r] == RejectedByUser(id)
  }

  lemma {:induction false} SpentStaysSpent(history: seq<Event>, id: nat, from: nat, to: nat)
    requires Legal(history) && from < to <= |history|
    requires history[from] == Succeeded(id) || history[from] == CompletedByUser(id)
    ensures RejectedThenApproved(history, id, from, to) || PhaseOf(history[..to], id) == Spent
         || (RejectedSince(history, id, from, to) && PhaseOf(history[..to], id) == Refused)
  {
    var n := to - 1;
    assert history[..to][..n] == history[..n];
    if from < n {
      SpentStaysSpent(history, id, from, n);
      assert Allowed(PhaseOf(history[..n], history[n].id), history[n]);
      if RejectedSince(history, id, from, n) && history[n] == ApprovedByUser(id) {
        var r :| from < r < n && history[r] == RejectedByUser(id);
        assert RejectedThenApproved(history, id, from, to);
      }
    }
  }

  /** After a posting the same attempt reaches a handler again only past a rejection and a new approval. */
  lemma PostedOnlyOnce(config: Config, ops: seq<Op>, i: nat, j: nat)
    requires i < j < |Run(config, EMPTY, ops).history|
    requires var history := Run(config, EMPTY, ops).history;
             && (history[i].Succeeded? || history[i].CompletedByUser?)
             && history[j] == HandlerCalled(history[i].id)
    ensures var history := Run(config, EMPTY, ops).history; RejectedThenApproved(history, history[i].id, i, j)
  {
    var history := Run(config, EMPTY, ops).history;
    RunKeepsInv(config, ops);
    SpentStaysSpent(history, history[i].id, i, j);
  }

  /** No two attempts share an idempotency key, whatever was created how often. */
  lemma OneAttemptPerKey(config: Config, ops: seq<Op>)
    ensures KeysDistinct(Run(config, EMPTY, ops).attempts)
  {
    RunKeepsInv(config, ops);
  }

  /** Over its whole life an attempt is scheduled for a retry fewer times than the limit, deferrals aside. */
  lemma RetriesBounded(config: Config, ops: seq<Op>, id: nat)
    ensures Scheduled(Run(config, EMPTY, ops).history, id) == 0
         || Scheduled(Run(config, EMPTY, ops).history, id) < config.maxAttempts
  {
    RunKeepsInv(config, ops);
    assert RetryCounted(config, Run(config, EMPTY, ops), id);
  }
}
