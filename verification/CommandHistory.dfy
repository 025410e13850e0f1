/**
 * What one transaction may change of a Command's rows, and what therefore holds between any
 * two moments of any history: evidence never regresses, a terminal Command is final, the
 * status walks the transition table and an Attempt completes once.
 */
module CommandHistory {
  import opened Prelude
  import opened Lifecycle
  import opened CommandRows
  import opened CommandGuards
  import opened CommandTransactions
  import opened CommandInvariant

  /** The order on (confirmation rank, evidence is verified) that evidence may only climb. */
  predicate EvidenceAtMost(level: Confirmation, evidence: Evidence, level': Confirmation, evidence': Evidence)
  {
    || ConfirmationRank(level) < ConfirmationRank(level')
    || (level == level' && (evidence.Verified? ==> evidence'.Verified?))
  }

  /** What creation fixes for good. */
  predicate SameOrigin(k: Command, k': Command)
  {
    && k'.project == k.project && k'.idempotencyKey == k.idempotencyKey && k'.request == k.request
    && k'.provider == k.provider && k'.policy == k.policy
    && k'.queuedAt == k.queuedAt && k'.dispatchDeadlineAt == k.dispatchDeadlineAt
  }

  ghost predicate CommandAdvances(k: Command, k': Command)
  {
    && SameOrigin(k, k')
    && EvidenceAtMost(k.confirmation, k.evidence, k'.confirmation, k'.evidence)
    && Depth(k.status) <= Depth(k'.status)
    && (IsTerminal(k.status) ==> k'.status == k.status && k'.reason == k.reason && k'.finishedAt == k.finishedAt)
    && (k.sentAt.Some? ==> k'.sentAt == k.sentAt && k'.resultDeadlineAt == k.resultDeadlineAt)
    && (!k.status.Queued? && k.sentAt.None? ==> k'.sentAt.None?)
  }

  ghost predicate AttemptAdvances(a: Attempt, a': Attempt)
  {
    && a'.attemptNo == a.attemptNo && a'.provider == a.provider && a'.requestKey == a.requestKey
    && a'.claimedAt == a.claimedAt
    && EvidenceAtMost(a.confirmation, a.evidence, a'.confirmation, a'.evidence)
    && (a.phase == a'.phase || CanTransitionAttempt(a.phase, a'.phase))
    && (!a.phase.Claimed? ==> a'.leaseToken == a.leaseToken && a'.leaseExpiresAt == a.leaseExpiresAt)
    && (a.dispatchingAt.Some? ==> a'.dispatchingAt == a.dispatchingAt)
    && (a.phase.Completed? ==>
          && a'.outcome == a.outcome && a'.reason == a.reason && a'.completedAt == a.completedAt
          && a'.dispatchingAt == a.dispatchingAt && a'.confirmation == a.confirmation)
  }

  ghost predicate Advances(c: Cell, c': Cell)
  {
    && CommandAdvances(c.command, c'.command)
    && |c.attempts| <= |c'.attempts|
    && (forall i :: 0 <= i < |c.attempts| ==> AttemptAdvances(c.attempts[i], c'.attempts[i]))
    && c.results <= c'.results
    && c.events <= c'.events
  }

  /** One transaction: the rows advance, and the status stays or takes one declared transition. */
  ghost predicate StepsTo(c: Cell, c': Cell)
  {
    && Advances(c, c')
    && (c'.command.status == c.command.status || CanTransitionCommand(c.command.status, c'.command.status))
  }

  lemma StaysPut(c: Cell)
    ensures StepsTo(c, c)
  {
  }

  lemma ClaimAdvances(c: Cell, provider: Provider, token: Token, requestKey: nat, lease: int, now: int)
    requires RowsOk(c)
    ensures StepsTo(c, ClaimNext(c, provider, token, requestKey, lease, now).0)
  {
  }

  lemma FailClaimedAdvances(c: Cell, i: nat, token: Token, outcome: AttemptOutcome, reason: Reason, now: int)
    requires RowsOk(c)
    requires BeforeDispatch(outcome)
    ensures var r := FailClaimed(c, i, token, outcome, reason, now); r.Commit? ==> StepsTo(c, r.cell)
  {
    if CompleteAttempt(c, i, token, Completion(outcome, Unconfirmed, NoEvidence, Some(reason)), now).1 {
      FailClaimedClosedForm(c, i, token, outcome, reason, now);
    }
  }

  lemma CommitDispatchAdvances(c: Cell, i: nat, token: Token, deviceOnline: bool, lease: int, now: int)
    requires RowsOk(c)
    ensures var r := CommitDispatch(c, i, token, deviceOnline, lease, now); r.Commit? ==> StepsTo(c, r.cell)
  {
    if c.command.policy.onlineOnly && !deviceOnline {
      FailClaimedAdvances(c, i, token, NotDispatched, DeviceNotOnline, now);
    }
  }

  lemma PersistAdvances(c: Cell, i: nat, token: Token, result: DispatchResult, now: int)
    requires RowsOk(c)
    ensures var r := PersistResult(c, i, token, result, now); r.Commit? ==> StepsTo(c, r.cell)
  {
    if ResultTransition(result).Some? && CompleteAttempt(c, i, token, CompletionOf(result), now).1 {
      CompletionOfSent(c, i, token, CompletionOf(result), now);
      PersistClosedForm(c, i, token, result, now);
    }
  }

  lemma RecoverAdvances(c: Cell, now: int)
    requires RowsOk(c)
    ensures var r := RecoverNext(c, now); r.Commit? ==> StepsTo(c, r.cell)
  {
  }

  lemma FinishQueuedAdvances(c: Cell, status: CommandStatus, reason: Reason, requireExpired: bool, now: int)
    requires RowsOk(c)
    requires status.Timeout? || status.Cancelled?
    ensures StepsTo(c, FinishQueued(c, status, reason, requireExpired, now).0)
  {
  }

  lemma RecordAdvances(c: Cell, report: ResultReport, clock: int)
    requires RowsOk(c)
    ensures var r := RecordNew(c, report, clock); r.Commit? ==> StepsTo(c, r.cell)
  {
  }

  lemma VerifyAcceptanceAdvances(c: Cell, i: nat, request: VerifiedUpdate, now: int)
    requires RowsOk(c)
    ensures StepsTo(c, UpdateProviderAcceptance(c, i, request, now).0)
  {
  }

  lemma ReclaimAdvances(c: Cell, i: nat, expired: Token, token: Token, lease: int, now: int)
    requires RowsOk(c)
    ensures StepsTo(c, ReclaimAttempt(c, i, expired, token, lease, now).0)
  {
  }

  lemma ExpireObservationAdvances(c: Cell, now: int)
    requires RowsOk(c)
    ensures var r := ExpireNextResultObservation(c, now); r.Commit? ==> StepsTo(c, r.cell)
  {
  }

  /** Every transaction of the protocol, read at any clock, is such a step. */
  lemma StepAdvances(c: Cell, op: CellOp)
    requires RowsOk(c)
    ensures StepsTo(c, Step(c, op))
  {
    StaysPut(c);
    match op
    case DoClaim(provider, token, requestKey, lease, now) => ClaimAdvances(c, provider, token, requestKey, lease, now);
    case DoReclaim(attempt, expired, token, lease, now) => ReclaimAdvances(c, attempt, expired, token, lease, now);
    case DoFailBefore(attempt, token, reason, now) =>
      FailClaimedAdvances(c, attempt, token, InvalidRequest, reason, now);
    case DoCommitDispatch(attempt, token, online, lease, now) =>
      CommitDispatchAdvances(c, attempt, token, online, lease, now);
    case DoPersist(attempt, token, result, now) => PersistAdvances(c, attempt, token, result, now);
    case DoRecover(now) => RecoverAdvances(c, now);
    case DoExpireQueued(now) => FinishQueuedAdvances(c, Timeout, DispatchDeadlineExceeded, true, now);
    case DoExpireObservation(now) => ExpireObservationAdvances(c, now);
    case DoCancel(now) => FinishQueuedAdvances(c, Cancelled, CancelledByRequest, false, now);
    case DoVerifyAcceptance(attempt, request, now) => VerifyAcceptanceAdvances(c, attempt, request, now);
    case DoRecord(report, now) => RecordAdvances(c, report, now);
  }

  lemma AdvancesTransitive(c: Cell, d: Cell, e: Cell)
    requires Advances(c, d) && Advances(d, e)
    ensures Advances(c, e)
  {
    forall i | 0 <= i < |c.attempts|
      ensures AttemptAdvances(c.attempts[i], e.attempts[i])
    {
      assert AttemptAdvances(c.attempts[i], d.attempts[i]);
      assert AttemptAdvances(d.attempts[i], e.attempts[i]);
    }
  }

  // ------------------------------------------------------------------- histories

  lemma {:induction false} RunKeepsRows(c: Cell, ops: seq<CellOp>)
    requires RowsOk(c)
    ensures RowsOk(Run(c, ops))
    decreases |ops|
  {
    if ops == [] {
    } else {
      RunKeepsRows(c, ops[..|ops| - 1]);
      StepKeepsRows(Run(c, ops[..|ops| - 1]), ops[|ops| - 1]);
    }
  }

  /**
   * Between any two moments of any history: the evidence did not regress, a terminal Command
   * kept its status, reason and finish time, a completed Attempt kept its outcome and
   * completion time, and Results and Events were only appended.
   */
  lemma {:induction false} HistoryAdvances(c: Cell, earlier: seq<CellOp>, later: seq<CellOp>)
    requires RowsOk(c)
    ensures Advances(Run(c, earlier), Run(c, earlier + later))
    decreases |later|
  {
    if later == [] {
      assert earlier + later == earlier;
    } else {
      var init, last := later[..|later| - 1], later[|later| - 1];
      HistoryAdvances(c, earlier, init);
      RunKeepsRows(c, earlier + init);
      assert (earlier + later)[..|earlier + later| - 1] == earlier + init;
      StepAdvances(Run(c, earlier + init), last);
      AdvancesTransitive(Run(c, earlier), Run(c, earlier + init), Run(c, earlier + later));
    }
  }

  /** The statuses a history passes through, each change once. */
  ghost function StatusPath(c: Cell, ops: seq<CellOp>): (path: seq<CommandStatus>)
    ensures |path| > 0 && path[|path| - 1] == Run(c, ops).command.status
    decreases |ops|
  {
    if ops == [] then [c.command.status]
    else
      var before := StatusPath(c, ops[..|ops| - 1]);
      var status := Run(c, ops).command.status;
      if status == before[|before| - 1] then before else before + [status]
  }

  lemma RunMovesStatus(c: Cell, ops: seq<CellOp>)
    requires RowsOk(c) && ops != []
    ensures var from, to := Run(c, ops[..|ops| - 1]).command.status, Run(c, ops).command.status;
            from == to || CanTransitionCommand(from, to)
  {
    RunKeepsRows(c, ops[..|ops| - 1]);
    StepAdvances(Run(c, ops[..|ops| - 1]), ops[|ops| - 1]);
  }

  /** The status path of every history is a walk of the declared table, so it has at most four statuses. */
  lemma {:induction false} StatusPathIsWalk(c: Cell, ops: seq<CellOp>)
    requires RowsOk(c)
    ensures Walk(StatusPath(c, ops))
    ensures |StatusPath(c, ops)| <= 4
    decreases |ops|
  {
    if ops == [] {
    } else {
      var before := ops[..|ops| - 1];
      StatusPathIsWalk(c, before);
      RunMovesStatus(c, ops);
    }
    WalkIsShort(StatusPath(c, ops));
  }
}
