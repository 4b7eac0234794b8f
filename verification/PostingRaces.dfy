/** Runs in which one approval is posted twice, a rejection is overrun or a posting reopened. */
module PostingRaces {
  import opened PostingAttempts
  import opened PostingInterleaving

  lemma PlayThree(s: System, a: Move, b: Move, c: Move)
    ensures Play(s, [a, b, c]) == Next(Next(Next(s, a), b), c)
  {
    PlayCons(s, a, [b, c]);
    PlayCons(Next(s, a), b, [c]);
    OneMove(Next(Next(s, a), b), c);
    assert [a, b, c] == [a] + [b, c] && [b, c] == [b] + [c];
  }

  lemma PlayFour(s: System, a: Move, b: Move, c: Move, d: Move)
    ensures Play(s, [a, b, c, d]) == Next(Next(Next(Next(s, a), b), c), d)
  {
    PlayCons(s, a, [b, c, d]);
    PlayThree(Next(s, a), b, c, d);
    assert [a, b, c, d] == [a] + [b, c, d];
  }

  const APPROVE := [Propose(1), ReadApprovable(1, 1), Grant(1)]

  const SUPERVISE := [Take(1, 1, false), Invoke(1, Supervised), Finish(1)]

  lemma ApprovedOnce()
    ensures Play(START, APPROVE) == System(map[1 := Approved], map[], map[], [Granted(1)])
  {
    PlayThree(START, Propose(1), ReadApprovable(1, 1), Grant(1));
    assert [Granted(1)] == [] + [Granted(1)];
    assert Next(Next(Next(START, Propose(1)), ReadApprovable(1, 1)), Grant(1)).users == map[];
  }

  lemma SupervisedOnce()
    ensures Play(START, APPROVE + SUPERVISE)
         == System(map[1 := SupervisionRequired], map[], map[], [Granted(1), Called(1)])
  {
    ApprovedOnce();
    PlayConcat(START, APPROVE, SUPERVISE);
    var s := Play(START, APPROVE);
    PlayThree(s, Take(1, 1, false), Invoke(1, Supervised), Finish(1));
    assert s.trace + [Called(1)] + [] == [Granted(1), Called(1)];
    assert Play(s, SUPERVISE).workers == map[];
  }

  /**
   * The batch runs claim by force, and then a claim can take over an attempt in progress: two workers
   * post the same attempt on one approval.
   */
  lemma ForcedClaimPostsTwice()
    ensures Play(START, APPROVE + [Take(1, 1, true), Take(2, 1, true), Invoke(1, Success), Invoke(2, Success)]).trace
         == [Granted(1), Called(1), Submitted(1), Called(1), Submitted(1)]
  {
    ApprovedOnce();
    PlayConcat(START, APPROVE, [Take(1, 1, true), Take(2, 1, true), Invoke(1, Success), Invoke(2, Success)]);
    var s := System(map[1 := Approved], map[], map[], [Granted(1)]);
    var taken := System(map[1 := InProgress], map[1 := Holding(1)], map[], [Granted(1)]);
    var again := taken.(workers := map[1 := Holding(1), 2 := Holding(1)]);
    var posted := again.(workers := map[1 := Returned(1, Success), 2 := Holding(1)],
                         trace := [Granted(1), Called(1), Submitted(1)]);
    assert Next(s, Take(1, 1, true)) == taken;
    assert Next(taken, Take(2, 1, true)) == again;
    assert Next(again, Invoke(1, Success)) == posted;
    PlayFour(s, Take(1, 1, true), Take(2, 1, true), Invoke(1, Success), Invoke(2, Success));
  }

  /** Two users complete the same supervised attempt; no claim is forced. */
  lemma TwoCompletionsPostTwice()
    ensures var moves := [ReadCompletable(1, 1), ReadCompletable(2, 1), Complete(1), Complete(2)];
            Play(START, APPROVE + SUPERVISE + moves).trace == [Granted(1), Called(1), Submitted(1), Submitted(1)]
  {
    var moves := [ReadCompletable(1, 1), ReadCompletable(2, 1), Complete(1), Complete(2)];
    SupervisedOnce();
    PlayConcat(START, APPROVE + SUPERVISE, moves);
    PlayFour(Play(START, APPROVE + SUPERVISE), ReadCompletable(1, 1), ReadCompletable(2, 1), Complete(1), Complete(2));
  }

  /** A retry posts the attempt while a user completes it; no attempt in progress is taken over. */
  lemma RetryRacesCompletion()
    ensures var moves := [ReadCompletable(1, 1), Take(2, 1, true), Invoke(2, Success), Complete(1)];
            Play(START, APPROVE + SUPERVISE + moves).trace
            == [Granted(1), Called(1), Called(1), Submitted(1), Submitted(1)]
  {
    var moves := [ReadCompletable(1, 1), Take(2, 1, true), Invoke(2, Success), Complete(1)];
    SupervisedOnce();
    var s := Play(START, APPROVE + SUPERVISE);
    PlayConcat(START, APPROVE + SUPERVISE, moves);
    PlayFour(s, ReadCompletable(1, 1), Take(2, 1, true), Invoke(2, Success), Complete(1));
  }

  /** A rejection between claim and call neither stops the handler nor survives the final update. */
  lemma RejectionIsOverrun()
    ensures var s := Play(START, APPROVE + [Take(1, 1, false), Withdraw(1), Invoke(1, Success), Finish(1)]);
            s.trace == [Granted(1), Withdrawn(1), Called(1), Submitted(1)] && s.statuses == map[1 := Posted]
  {
    ApprovedOnce();
    PlayConcat(START, APPROVE, [Take(1, 1, false), Withdraw(1), Invoke(1, Success), Finish(1)]);
    PlayFour(Play(START, APPROVE), Take(1, 1, false), Withdraw(1), Invoke(1, Success), Finish(1));
  }

  const CHECK_TWICE := [Propose(1), ReadApprovable(1, 1), ReadApprovable(2, 1), Grant(1)]

  const POST := [Take(1, 1, false), Invoke(1, Success), Finish(1)]

  lemma CheckedTwice()
    ensures Play(START, CHECK_TWICE) == System(map[1 := Approved], map[], map[2 := Approving(1)], [Granted(1)])
  {
    PlayFour(START, Propose(1), ReadApprovable(1, 1), ReadApprovable(2, 1), Grant(1));
    assert Play(START, CHECK_TWICE).users == map[2 := Approving(1)];
  }

  lemma PostedOnce(s: System)
    requires s.statuses == map[1 := Approved] && s.workers == map[]
    ensures Play(s, POST) == System(map[1 := Posted], map[], s.users, s.trace + [Called(1), Submitted(1)])
  {
    PlayThree(s, Take(1, 1, false), Invoke(1, Success), Finish(1));
    assert s.trace + [Called(1)] + [Submitted(1)] == s.trace + [Called(1), Submitted(1)];
    assert Play(s, POST).workers == map[];
  }

  /** Two users approve the same dry run, one of them after the posting: it is posted again, never rejected. */
  lemma LateApprovalReopens()
    ensures Play(START, CHECK_TWICE + POST + [Grant(2)] + POST).trace
         == [Granted(1), Called(1), Submitted(1), Granted(1), Called(1), Submitted(1)]
  {
    PlayConcat(START, CHECK_TWICE + POST + [Grant(2)], POST);
    PlayConcat(START, CHECK_TWICE + POST, [Grant(2)]);
    PlayConcat(START, CHECK_TWICE, POST);
    CheckedTwice();
    PostedOnce(Play(START, CHECK_TWICE));
    var posted := Play(START, CHECK_TWICE + POST);
    OneMove(posted, Grant(2));
    PostedOnce(Next(posted, Grant(2)));
  }
}
