/**
 * The same protocol with workers and users that interleave: an execution is a guarded claim, a
 * handler call and an unguarded status update; an approval and a supervised completion are a read
 * that checks the status and an unguarded update. Anything may happen in between
 * (src/data_entry/posting_executor.py, src/data_entry/posting_approval.py).
 */
module PostingInterleaving {
  import opened PostingAttempts

  datatype Worker = Holding(id: nat) | Returned(id: nat, result: HandlerResult)

  /** A user whose check of the status went through and whose update is still to come. */
  datatype User = Approving(id: nat) | Completing(id: nat)

  datatype Trace =
    | Granted(id: nat)
    | Withdrawn(id: nat)
    | Called(id: nat)
    | Submitted(id: nat)    // a handler or a supervised user put the posting into the books

  datatype System = System(
    statuses: map<nat, Status>, workers: map<nat, Worker>, users: map<nat, User>, trace: seq<Trace>)

  datatype Move =
    | Propose(id: nat)
    | ReadApprovable(user: nat, id: nat)
    | Grant(user: nat)
    | Withdraw(id: nat)
    | Take(worker: nat, id: nat, force: bool)
    | Invoke(worker: nat, result: HandlerResult)
    | Finish(worker: nat)
    | ReadCompletable(user: nat, id: nat)
    | Complete(user: nat)

  const START := System(map[], map[], map[], [])

  function FinalStatus(result: HandlerResult): Status {
    match result
    case Success => Posted
    case RateLimited(_) => Deferred
    case Supervised => SupervisionRequired
    case Failure => Failed
  }

  predicate Takes(s: System, move: Move) {
    move.Take? && move.id in s.statuses && Claimable(s.statuses[move.id], move.force) && move.worker !in s.workers
  }

  /** The move is a read that finds the status it asks for. */
  predicate Reads(s: System, move: Move) {
    && (move.ReadApprovable? || move.ReadCompletable?) && move.user !in s.users && move.id in s.statuses
    && if move.ReadApprovable? then Approvable(s.statuses[move.id]) else s.statuses[move.id].SupervisionRequired?
  }

  predicate Grants(s: System, move: Move) {
    move.Grant? && move.user in s.users && s.users[move.user].Approving?
  }

  predicate Completes(s: System, move: Move) {
    move.Complete? && move.user in s.users && s.users[move.user].Completing?
  }

  function Next(s: System, move: Move): System {
    match move
    case Propose(id) => if id in s.statuses then s else s.(statuses := s.statuses[id := DryRunCreated])
    case ReadApprovable(u, id) => if Reads(s, move) then s.(users := s.users[u := Approving(id)]) else s
    case Grant(u) => if Grants(s, move) then Write(s, u, Approved, Granted(s.users[u].id)) else s
    case Withdraw(id) =>
      if id in s.statuses then s.(statuses := s.statuses[id := Rejected], trace := s.trace + [Withdrawn(id)]) else s
    case Take(w, id, force) =>
      if Takes(s, move) then s.(statuses := s.statuses[id := InProgress], workers := s.workers[w := Holding(id)]) else s
    case Invoke(w, result) =>
      if w in s.workers && s.workers[w].Holding? then
        var id := s.workers[w].id;
        s.(workers := s.workers[w := Returned(id, result)],
           trace := s.trace + [Called(id)] + if result.Success? then [Submitted(id)] else [])
      else s
    case Finish(w) =>
      if w in s.workers && s.workers[w].Returned? then
        s.(statuses := s.statuses[s.workers[w].id := FinalStatus(s.workers[w].result)], workers := s.workers - {w})
      else s
    case ReadCompletable(u, id) => if Reads(s, move) then s.(users := s.users[u := Completing(id)]) else s
    case Complete(u) => if Completes(s, move) then Write(s, u, Posted, Submitted(s.users[u].id)) else s
  }

  /** The update of a user, whatever the status is by now. */
  function Write(s: System, u: nat, status: Status, e: Trace): System
    requires u in s.users
  {
    s.(statuses := s.statuses[s.users[u].id := status], users := s.users - {u}, trace := s.trace + [e])
  }

  function Play(s: System, moves: seq<Move>): System {
    if moves == [] then s else Next(Play(s, moves[..|moves| - 1]), moves[|moves| - 1])
  }

  function Count(trace: seq<Trace>, e: Trace): nat {
    if trace == [] then 0 else Count(trace[..|trace| - 1], e) + if trace[|trace| - 1] == e then 1 else 0
  }

  function GrantsOf(s: System, id: nat): nat {
    Count(s.trace, Granted(id))
  }

  function PostingsOf(s: System, id: nat): nat {
    Count(s.trace, Submitted(id))
  }

  lemma CountAppend(trace: seq<Trace>, e: Trace, x: Trace)
    ensures Count(trace + [e], x) == Count(trace, x) + if e == x then 1 else 0
  {
    assert (trace + [e])[..|trace|] == trace;
  }

  lemma PlayNext(s: System, moves: seq<Move>, move: Move)
    ensures Play(s, moves + [move]) == Next(Play(s, moves), move)
  {
    assert (moves + [move])[..|moves|] == moves;
  }

  lemma {:induction false} PlayConcat(s: System, a: seq<Move>, b: seq<Move>)
    ensures Play(s, a + b) == Play(Play(s, a), b)
  {
    if b == [] {
      assert a + b == a;
    } else {
      var n := |b| - 1;
      assert (a + b)[..|a| + n] == a + b[..n];
      PlayConcat(s, a, b[..n]);
    }
  }

  // ------------------------------------------------------------------------------------------
  // What may still be posted on the approvals so far
  // ------------------------------------------------------------------------------------------

  /** The workers that may still post the attempt. */
  function Holders(workers: map<nat, Worker>, id: nat): set<nat> {
    set w | w in workers && workers[w].id == id && !(workers[w].Returned? && workers[w].result.Success?)
  }

  /** The users that are about to record a supervised posting of the attempt. */
  function Completers(users: map<nat, User>, id: nat): set<nat> {
    set u | u in users && users[u] == Completing(id)
  }

  /** A status from which a posting can start: for supervision only as long as nobody is completing it. */
  function Token(s: System, id: nat): nat {
    if id in s.statuses
       && (s.statuses[id].Approved? || s.statuses[id].Failed? || s.statuses[id].Deferred?
           || (s.statuses[id].SupervisionRequired? && Completers(s.users, id) == {}))
    then 1 else 0
  }

  /** What is posted and what can still be posted without another approval or a race. */
  function Potential(s: System, id: nat): nat {
    PostingsOf(s, id) + |Holders(s.workers, id)| + |Completers(s.users, id)| + Token(s, id)
  }

  predicate Paid(s: System, id: nat) {
    Potential(s, id) <= GrantsOf(s, id)
  }

  /**
   * A race for the attempt: taking over an attempt in progress, or claiming or completing a supervised
   * one that a user is about to complete.
   */
  predicate Races(s: System, move: Move) {
    || (Takes(s, move) && s.statuses[move.id].InProgress?)
    || (Takes(s, move) && s.statuses[move.id].SupervisionRequired? && Completers(s.users, move.id) != {})
    || (move.ReadCompletable? && Reads(s, move) && Completers(s.users, move.id) != {})
  }

  ghost predicate RaceFree(s: System, moves: seq<Move>) {
    forall i :: 0 <= i < |moves| ==> !Races(Play(s, moves[..i]), moves[i])
  }

  lemma HoldersAdd(workers: map<nat, Worker>, w: nat, id: nat, i: nat)
    requires w !in workers
    ensures |Holders(workers[w := Holding(id)], i)| == |Holders(workers, i)| + if i == id then 1 else 0
  {
    assert Holders(workers[w := Holding(id)], i) == Holders(workers, i) + if i == id then {w} else {};
  }

  lemma HoldersInvoke(workers: map<nat, Worker>, w: nat, result: HandlerResult, i: nat)
    requires w in workers && workers[w].Holding?
    ensures |Holders(workers[w := Returned(workers[w].id, result)], i)|
         == |Holders(workers, i)| - if i == workers[w].id && result.Success? then 1 else 0
  {
    var after := workers[w := Returned(workers[w].id, result)];
    if i == workers[w].id && result.Success? {
      assert w in Holders(workers, i) && Holders(after, i) == Holders(workers, i) - {w};
    } else {
      assert Holders(after, i) == Holders(workers, i);
    }
  }

  lemma HoldersFinish(workers: map<nat, Worker>, w: nat, i: nat)
    requires w in workers && workers[w].Returned?
    ensures |Holders(workers - {w}, i)|
         == |Holders(workers, i)| - if i == workers[w].id && !workers[w].result.Success? then 1 else 0
  {
    if i == workers[w].id && !workers[w].result.Success? {
      assert w in Holders(workers, i) && Holders(workers - {w}, i) == Holders(workers, i) - {w};
    } else {
      assert Holders(workers - {w}, i) == Holders(workers, i);
    }
  }

  lemma CompletersAdd(users: map<nat, User>, u: nat, user: User, i: nat)
    requires u !in users
    ensures Completers(users[u := user], i) == Completers(users, i) + if user == Completing(i) then {u} else {}
    ensures |Completers(users[u := user], i)| == |Completers(users, i)| + if user == Completing(i) then 1 else 0
  {
    assert Completers(users[u := user], i) == Completers(users, i) + if user == Completing(i) then {u} else {};
  }

  lemma CompletersRemove(users: map<nat, User>, u: nat, i: nat)
    requires u in users
    ensures Completers(users - {u}, i) == Completers(users, i) - {u}
    ensures |Completers(users - {u}, i)| == |Completers(users, i)| - if users[u] == Completing(i) then 1 else 0
  {
    assert Completers(users - {u}, i) == Completers(users, i) - {u};
    assert u in Completers(users, i) <==> users[u] == Completing(i);
  }

  // ------------------------------------------------------------------------------------------
  // How a move changes it
  // ------------------------------------------------------------------------------------------

  /** A move that is no race adds no more potential than approvals. */
  ghost predicate Pays(s: System, t: System, i: nat) {
    Potential(t, i) - GrantsOf(t, i) <= Potential(s, i) - GrantsOf(s, i)
  }

  lemma TakePays(s: System, move: Move, i: nat)
    requires Takes(s, move)
    ensures GrantsOf(Next(s, move), i) == GrantsOf(s, i)
    ensures Potential(Next(s, move), i) == Potential(s, i) + if Races(s, move) && move.id == i then 1 else 0
  {
    HoldersAdd(s.workers, move.worker, move.id, i);
  }

  lemma InvokeCounts(trace: seq<Trace>, id: nat, posted: bool, e: Trace)
    ensures Count(trace + [Called(id)] + if posted then [Submitted(id)] else [], e)
         == Count(trace, e) + (if e == Called(id) then 1 else 0) + if posted && e == Submitted(id) then 1 else 0
  {
    CountAppend(trace, Called(id), e);
    CountAppend(trace + [Called(id)], Submitted(id), e);
    assert trace + [Called(id)] + [] == trace + [Called(id)];
  }

  lemma InvokeTrace(s: System, w: nat, result: HandlerResult, i: nat)
    requires w in s.workers && s.workers[w].Holding?
    ensures var t := Next(s, Invoke(w, result));
            && GrantsOf(t, i) == GrantsOf(s, i)
            && PostingsOf(t, i) == PostingsOf(s, i) + if result.Success? && s.workers[w].id == i then 1 else 0
  {
    InvokeCounts(s.trace, s.workers[w].id, result.Success?, Submitted(i));
    InvokeCounts(s.trace, s.workers[w].id, result.Success?, Granted(i));
  }

  lemma InvokeWorkers(s: System, w: nat, result: HandlerResult, i: nat)
    requires w in s.workers && s.workers[w].Holding?
    ensures var t := Next(s, Invoke(w, result));
            && t.users == s.users && Token(t, i) == Token(s, i)
            && |Holders(t.workers, i)|
               == |Holders(s.workers, i)| - if i == s.workers[w].id && result.Success? then 1 else 0
  {
    HoldersInvoke(s.workers, w, result, i);
  }

  lemma InvokePays(s: System, w: nat, result: HandlerResult, i: nat)
    requires w in s.workers && s.workers[w].Holding?
    ensures var t := Next(s, Invoke(w, result));
            && GrantsOf(t, i) == GrantsOf(s, i) && Potential(t, i) == Potential(s, i)
            && PostingsOf(t, i) == PostingsOf(s, i) + if result.Success? && s.workers[w].id == i then 1 else 0
  {
    InvokeTrace(s, w, result, i);
    InvokeWorkers(s, w, result, i);
  }

  lemma FinishPays(s: System, w: nat, i: nat)
    requires w in s.workers && s.workers[w].Returned?
    ensures Pays(s, Next(s, Finish(w)), i)
  {
    HoldersFinish(s.workers, w, i);
  }

  lemma ReadPays(s: System, move: Move, i: nat)
    requires Reads(s, move)
    ensures GrantsOf(Next(s, move), i) == GrantsOf(s, i)
    ensures Potential(Next(s, move), i) == Potential(s, i) + if Races(s, move) && move.id == i then 1 else 0
  {
    CompletersAdd(s.users, move.user, if move.ReadApprovable? then Approving(move.id) else Completing(move.id), i);
  }

  lemma GrantPays(s: System, u: nat, i: nat)
    requires Grants(s, Grant(u))
    ensures Pays(s, Next(s, Grant(u)), i)
  {
    CompletersRemove(s.users, u, i);
    CountAppend(s.trace, Granted(s.users[u].id), Granted(i));
    CountAppend(s.trace, Granted(s.users[u].id), Submitted(i));
  }

  lemma CompletePays(s: System, u: nat, i: nat)
    requires Completes(s, Complete(u))
    ensures Pays(s, Next(s, Complete(u)), i)
  {
    CompletersRemove(s.users, u, i);
    CountAppend(s.trace, Submitted(s.users[u].id), Granted(i));
    CountAppend(s.trace, Submitted(s.users[u].id), Submitted(i));
  }

  lemma WithdrawPays(s: System, id: nat, i: nat)
    ensures Pays(s, Next(s, Withdraw(id)), i)
  {
    CountAppend(s.trace, Withdrawn(id), Granted(i));
    CountAppend(s.trace, Withdrawn(id), Submitted(i));
  }

  lemma NextPays(s: System, move: Move, i: nat)
    requires !Races(s, move)
    ensures Pays(s, Next(s, move), i)
  {
    if Next(s, move) != s {
      match move
      case Propose(_) =>
      case ReadApprovable(_, _) => ReadPays(s, move, i);
      case Grant(u) => GrantPays(s, u, i);
      case Withdraw(id) => WithdrawPays(s, id, i);
      case Take(_, _, _) => TakePays(s, move, i);
      case Invoke(w, result) => InvokePays(s, w, result, i);
      case Finish(w) => FinishPays(s, w, i);
      case ReadCompletable(_, _) => ReadPays(s, move, i);
      case Complete(u) => CompletePays(s, u, i);
    }
  }

  /** A race leaves its attempt paid for exactly when an approval was to spare. */
  lemma RaceBreaksIff(s: System, move: Move)
    ensures Races(s, move) ==>
              (Paid(Next(s, move), move.id) <==> Potential(s, move.id) < GrantsOf(s, move.id))
  {
    if Races(s, move) {
      if Takes(s, move) {
        TakePays(s, move, move.id);
      } else {
        ReadPays(s, move, move.id);
      }
    }
  }

  lemma {:induction false} PlayPays(s: System, moves: seq<Move>, i: nat)
    requires RaceFree(s, moves)
    ensures Pays(s, Play(s, moves), i)
  {
    if moves != [] {
      var n := |moves| - 1;
      assert forall j :: 0 <= j < n ==> moves[..n][..j] == moves[..j];
      PlayPays(s, moves[..n], i);
      NextPays(Play(s, moves[..n]), moves[n], i);
    }
  }

  // ------------------------------------------------------------------------------------------
  // Each approval pays for one posting
  // ------------------------------------------------------------------------------------------

  lemma StartIsPaid(id: nat)
    ensures Potential(START, id) == 0 && Paid(START, id)
  {
    assert Holders(START.workers, id) == {} && Completers(START.users, id) == {};
  }

  /** Without races every interleaving of workers and users posts an attempt at most once per approval. */
  lemma OnePostingPerApproval(moves: seq<Move>, id: nat)
    requires RaceFree(START, moves)
    ensures PostingsOf(Play(START, moves), id) <= GrantsOf(Play(START, moves), id)
  {
    StartIsPaid(id);
    PlayPays(START, moves, id);
  }

  /** No user starts to complete an attempt that another one is completing. */
  ghost predicate CompletionsDoNotOverlap(s: System, moves: seq<Move>) {
    forall i :: 0 <= i < |moves| && moves[i].ReadCompletable? && Reads(Play(s, moves[..i]), moves[i]) ==>
      Completers(Play(s, moves[..i]).users, moves[i].id) == {}
  }

  /** With claims that are not forced, it is enough that completions do not overlap. */
  lemma UnforcedPostsOncePerApproval(moves: seq<Move>, id: nat)
    requires (forall m :: m in moves && m.Take? ==> !m.force) && CompletionsDoNotOverlap(START, moves)
    ensures PostingsOf(Play(START, moves), id) <= GrantsOf(Play(START, moves), id)
  {
    forall i | 0 <= i < |moves| ensures !Races(Play(START, moves[..i]), moves[i]) {
      assert moves[i] in moves;
    }
    OnePostingPerApproval(moves, id);
  }

  // ------------------------------------------------------------------------------------------
  // The condition is exact
  // ------------------------------------------------------------------------------------------

  /** A continuation without a race that grants the attempt no further approval. */
  ghost predicate Spends(s: System, moves: seq<Move>, id: nat) {
    RaceFree(s, moves) && GrantsOf(Play(s, moves), id) == GrantsOf(s, id)
  }

  lemma OneMove(s: System, move: Move)
    ensures Play(s, [move]) == Next(s, move)
    ensures RaceFree(s, [move]) <==> !Races(s, move)
  {
    PlayNext(s, [], move);
    assert [] + [move] == [move];
    assert [move][..0] == [];
  }

  lemma PlayCons(s: System, move: Move, rest: seq<Move>)
    ensures Play(s, [move] + rest) == Play(Next(s, move), rest)
  {
    OneMove(s, move);
    PlayConcat(s, [move], rest);
  }

  lemma SpendsConcat(s: System, a: seq<Move>, b: seq<Move>, id: nat)
    requires Spends(s, a, id) && Spends(Play(s, a), b, id)
    ensures Spends(s, a + b, id) && Play(s, a + b) == Play(Play(s, a), b)
  {
    PlayConcat(s, a, b);
    forall i | 0 <= i < |a + b| ensures !Races(Play(s, (a + b)[..i]), (a + b)[i]) {
      if i < |a| {
        assert (a + b)[..i] == a[..i];
      } else {
        assert (a + b)[..i] == a + b[..i - |a|];
        PlayConcat(s, a, b[..i - |a|]);
      }
    }
  }

  lemma FreshWorker(workers: map<nat, Worker>) returns (w: nat)
    ensures w !in workers
  {
    w := Beyond(workers.Keys);
  }

  lemma Beyond(keys: set<nat>) returns (w: nat)
    ensures forall k :: k in keys ==> k < w
    decreases keys
  {
    if keys == {} {
      w := 0;
    } else {
      var k :| k in keys;
      w := Beyond(keys - {k});
      w := if w <= k then k + 1 else w;
      assert keys == keys - {k} + {k};
    }
  }

  /** A status with a token leads to a posting: a forced claim and a call that succeeds. */
  lemma SpendToken(s: System, id: nat) returns (moves: seq<Move>)
    requires Token(s, id) == 1
    ensures Spends(s, moves, id) && Potential(Play(s, moves), id) == Potential(s, id)
    ensures PostingsOf(Play(s, moves), id) == PostingsOf(s, id) + 1
  {
    var w := FreshWorker(s.workers);
    var take, invoke := Take(w, id, true), Invoke(w, Success);
    var t := Next(s, take);
    OneMove(s, take);
    TakePays(s, take, id);
    OneMove(t, invoke);
    InvokePays(t, w, Success, id);
    SpendsConcat(s, [take], [invoke], id);
    moves := [take] + [invoke];
  }

  lemma SpendCompleter(s: System, id: nat, u: nat) returns (moves: seq<Move>)
    requires Token(s, id) == 0 && u in Completers(s.users, id)
    ensures Spends(s, moves, id) && Potential(Play(s, moves), id) == Potential(s, id)
    ensures PostingsOf(Play(s, moves), id) == PostingsOf(s, id) + 1
  {
    OneMove(s, Complete(u));
    CompletersRemove(s.users, u, id);
    CountAppend(s.trace, Submitted(id), Granted(id));
    CountAppend(s.trace, Submitted(id), Submitted(id));
    moves := [Complete(u)];
  }

  lemma SpendHolder(s: System, id: nat, w: nat) returns (moves: seq<Move>)
    requires Token(s, id) == 0 && Completers(s.users, id) == {} && w in Holders(s.workers, id)
    ensures Spends(s, moves, id) && Potential(Play(s, moves), id) == Potential(s, id)
    ensures PostingsOf(Play(s, moves), id) == PostingsOf(s, id) + 1
  {
    if s.workers[w].Holding? {
      OneMove(s, Invoke(w, Success));
      InvokePays(s, w, Success, id);
      moves := [Invoke(w, Success)];
    } else {
      OneMove(s, Finish(w));
      HoldersFinish(s.workers, w, id);
      var t := Next(s, Finish(w));
      var rest := SpendToken(t, id);
      SpendsConcat(s, [Finish(w)], rest, id);
      moves := [Finish(w)] + rest;
    }
  }

  /** All of the potential can be posted: the token first, then the completions, then the workers. */
  lemma {:induction false} SpendAll(s: System, id: nat, left: nat) returns (moves: seq<Move>)
    requires Potential(s, id) == PostingsOf(s, id) + left
    ensures Spends(s, moves, id) && PostingsOf(Play(s, moves), id) == Potential(s, id)
    decreases left
  {
    if left == 0 {
      moves := [];
    } else {
      var first: seq<Move>;
      if Token(s, id) == 1 {
        first := SpendToken(s, id);
      } else if Completers(s.users, id) != {} {
        var u :| u in Completers(s.users, id);
        first := SpendCompleter(s, id, u);
      } else {
        assert Holders(s.workers, id) != {};
        var w :| w in Holders(s.workers, id);
        first := SpendHolder(s, id, w);
      }
      var rest := SpendAll(Play(s, first), id, left - 1);
      SpendsConcat(s, first, rest, id);
      moves := first + rest;
    }
  }

  ghost predicate CanOverspend(s: System, id: nat) {
    exists moves :: Spends(s, moves, id) && PostingsOf(Play(s, moves), id) > GrantsOf(s, id)
  }

  /**
   * From any state, however it came about: the attempt can be posted more often than it was approved,
   * without another approval and without a race from here on, if and only if it is not paid for.
   */
  lemma OverspendIff(s: System, id: nat)
    ensures CanOverspend(s, id) <==> !Paid(s, id)
  {
    if moves :| Spends(s, moves, id) && PostingsOf(Play(s, moves), id) > GrantsOf(s, id) {
      PlayPays(s, moves, id);
    }
    if !Paid(s, id) {
      var moves := SpendAll(s, id, Potential(s, id) - PostingsOf(s, id));
      assert Spends(s, moves, id) && PostingsOf(Play(s, moves), id) > GrantsOf(s, id);
    }
  }

  /** So a race makes a posting without approval possible exactly when no approval was to spare. */
  lemma RaceOverspendsIff(s: System, move: Move)
    ensures Races(s, move) ==>
              (CanOverspend(Next(s, move), move.id) <==> Potential(s, move.id) >= GrantsOf(s, move.id))
  {
    if Races(s, move) {
      RaceBreaksIff(s, move);
      OverspendIff(Next(s, move), move.id);
    }
  }
}
