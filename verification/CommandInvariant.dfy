/** What every transaction keeps true of the rows of one Command, whatever clock it reads. */
module CommandInvariant {
  import opened Prelude
  import opened Lifecycle
  import opened CommandRows
  import opened CommandGuards
  import opened CommandTransactions

  // ------------------------------------------------------------------ the rows

  predicate ReasonFits(status: CommandStatus, reason: Option<Reason>)
  {
    match status
    case Cancelled => reason == Some(CancelledByRequest)
    case Timeout => reason == Some(DispatchDeadlineExceeded) || reason == Some(ResultObservationTimeout)
    case Failed => reason.Some? && (PreparationReason(reason.value) || reason.value.DeviceNotOnline?
                                    || SentReason(reason.value))
    case _ => reason.None?
  }

  /** The reasons of Commands that ended after the worker committed to dispatch them. */
  predicate SentReason(reason: Reason)
  {
    reason.ProviderTransportError? || reason.ProviderRejectedRequest? || reason.DeviceReportedFailure?
  }

  /** Whether the worker ever committed to dispatch the Command, read off its status and reason. */
  predicate ReachedSent(k: Command)
  {
    || k.status.Sent? || k.status.Acked? || k.status.Success?
    || (k.reason.Some? && (SentReason(k.reason.value) || k.reason.value.ResultObservationTimeout?))
  }

  ghost predicate CommandShape(k: Command)
  {
    && ReasonFits(k.status, k.reason)
    && (k.confirmation.Unconfirmed? <==> k.evidence.NoEvidence?)
    && (k.confirmation.DeviceAcked? || k.confirmation.DeviceFinal? ==> k.evidence.Verified?)
    && (k.status.Queued? ==> k.confirmation.Unconfirmed?)
    && (k.status.Sent? ==> ConfirmationRank(k.confirmation) <= 2)
    && (k.status.Acked? ==> k.confirmation.DeviceAcked?)
    && (k.status.Success? ==> k.confirmation.DeviceFinal?)
    && (k.reason == Some(DeviceReportedFailure) ==> k.confirmation.DeviceFinal?)
    && (k.finishedAt.Some? <==> IsTerminal(k.status))
    && (k.sentAt.Some? <==> ReachedSent(k))
    && (k.resultDeadlineAt.Some? <==> k.sentAt.Some?)
    && (k.sentAt.Some? ==> k.resultDeadlineAt.value > k.sentAt.value)
  }

  ghost predicate ClaimedShape(k: Command, a: Attempt)
  {
    && k.status.Queued?
    && a.outcome.None? && a.reason.None? && a.completedAt.None? && a.dispatchingAt.None?
    && a.confirmation.Unconfirmed? && a.evidence.NoEvidence?
    && a.claimedAt < a.leaseExpiresAt <= k.dispatchDeadlineAt
  }

  ghost predicate DispatchingShape(k: Command, a: Attempt)
  {
    && k.sentAt.Some?
    && a.outcome.None? && a.reason.None? && a.completedAt.None?
    && a.confirmation.Unconfirmed? && a.evidence.NoEvidence?
    && a.dispatchingAt == k.sentAt
    && a.leaseExpiresAt > a.dispatchingAt.value
    && (k.status.Sent? ==> k.confirmation.Unconfirmed?)
    && (k.status.Sent? || k.status.Acked? || k.status.Success? || k.reason == Some(DeviceReportedFailure))
  }

  ghost predicate CompletedShape(k: Command, a: Attempt)
  {
    && !k.status.Queued?
    && a.outcome.Some? && a.completedAt.Some?
    && (BeforeDispatch(a.outcome.value) <==> k.sentAt.None?)
    && a.dispatchingAt == k.sentAt
    && (k.status.Sent? ==>
          && (a.outcome.value.AcceptedByProvider? || a.outcome.value.Indeterminate?)
          && ConfirmationRank(k.confirmation) >= 1
          && k.confirmation == a.confirmation && k.evidence == a.evidence)
  }

  ghost predicate AttemptShape(k: Command, attempts: seq<Attempt>)
  {
    if attempts == [] then k.sentAt.None? && (k.status.Queued? || k.status.Cancelled? || k.status.Timeout?)
    else
      && |attempts| == 1
      && attempts[0].attemptNo == 1
      && attempts[0].provider == k.provider
      && match attempts[0].phase
         case Claimed => ClaimedShape(k, attempts[0])
         case Dispatching => DispatchingShape(k, attempts[0])
         case Completed => CompletedShape(k, attempts[0])
  }

  ghost predicate RowsOk(c: Cell)
  {
    CommandShape(c.command) && AttemptShape(c.command, c.attempts)
  }

  lemma ClaimKeepsRows(c: Cell, provider: Provider, token: Token, requestKey: nat, lease: int, now: int)
    requires RowsOk(c)
    ensures RowsOk(ClaimNext(c, provider, token, requestKey, lease, now).0)
  {
    if |c.attempts| == 1 {
      assert c.attempts[0] in c.attempts;
    }
  }

  /** What a failure before the Provider call stores once the Attempt's completion was accepted. */
  lemma FailClaimedClosedForm(c: Cell, i: nat, token: Token, outcome: AttemptOutcome, reason: Reason, now: int)
    requires RowsOk(c)
    requires BeforeDispatch(outcome)
    requires CompleteAttempt(c, i, token, Completion(outcome, Unconfirmed, NoEvidence, Some(reason)), now).1
    ensures i == 0 && |c.attempts| == 1 && c.attempts[0].phase.Claimed? && c.command.status.Queued?
    ensures if outcome.NotDispatched? then reason.DeviceNotOnline? else PreparationReason(reason)
    ensures var r := FailClaimed(c, i, token, outcome, reason, now);
            && r.Commit?
            && !r.dispatched
            && r.cell.attempts == [Finished(c.attempts[0], Completion(outcome, Unconfirmed, NoEvidence, Some(reason)),
                                            now)]
            && r.cell.results == c.results
            && r.cell.command == c.command.(status := Failed, reason := Some(reason), finishedAt := Some(now),
                                            updatedAt := now)
            && r.cell.events == c.events + [StatusEvent(r.cell, Queued)]
  {
  }

  lemma FailClaimedKeepsRows(c: Cell, i: nat, token: Token, outcome: AttemptOutcome, reason: Reason, now: int)
    requires RowsOk(c)
    requires BeforeDispatch(outcome)
    ensures var r := FailClaimed(c, i, token, outcome, reason, now); r.Commit? ==> RowsOk(r.cell)
  {
    if CompleteAttempt(c, i, token, Completion(outcome, Unconfirmed, NoEvidence, Some(reason)), now).1 {
      FailClaimedClosedForm(c, i, token, outcome, reason, now);
    }
  }

  lemma CommitDispatchKeepsRows(c: Cell, i: nat, token: Token, deviceOnline: bool, lease: int, now: int)
    requires RowsOk(c)
    ensures var r := CommitDispatch(c, i, token, deviceOnline, lease, now); r.Commit? ==> RowsOk(r.cell)
  {
    FailClaimedKeepsRows(c, i, token, NotDispatched, DeviceNotOnline, now);
  }

  /** A completion the repository accepts from a Provider outcome finds one dispatching Attempt of a sent Command. */
  lemma CompletionOfSent(c: Cell, i: nat, token: Token, request: Completion, now: int)
    requires RowsOk(c)
    requires !BeforeDispatch(request.outcome)
    requires CompleteAttempt(c, i, token, request, now).1
    ensures i == 0 && |c.attempts| == 1 && c.attempts[0].phase.Dispatching?
    ensures c.command.status.Sent? && c.command.confirmation.Unconfirmed? && c.command.evidence.NoEvidence?
    ensures c.attempts[0].provider == c.command.provider
    ensures CompletionReasonValid(request) && CompletionEvidenceValid(c.command.provider, request)
    ensures CompleteAttempt(c, i, token, request, now).0 == c.(attempts := [Finished(c.attempts[0], request, now)])
  {
  }

  /** What persisting a Provider outcome stores once the Attempt's completion was accepted. */
  lemma PersistClosedForm(c: Cell, i: nat, token: Token, result: DispatchResult, now: int)
    requires RowsOk(c)
    requires ResultTransition(result).Some?
    requires CompleteAttempt(c, i, token, CompletionOf(result), now).1
    ensures var r := PersistResult(c, i, token, result, now);
            && r.Commit?
            && r.cell.attempts == [Finished(c.attempts[0], CompletionOf(result), now)]
            && r.cell.results == c.results
            && r.cell.command == (
                 if result.outcome.AcceptedByProvider? || result.outcome.Indeterminate? then
                   c.command.(confirmation := result.confirmation, evidence := result.evidence, updatedAt := now)
                 else
                   c.command.(status := Failed, reason := CompletionOf(result).reason,
                              confirmation := result.confirmation,
                              evidence := result.evidence, finishedAt := Some(now), updatedAt := now))
  {
    CompletionOfSent(c, i, token, CompletionOf(result), now);
  }

  function CompletionOf(result: DispatchResult): Completion
  {
    var reason := if ResultTransition(result).Some? then ResultTransition(result).value.0 else None;
    Completion(result.outcome, result.confirmation, result.evidence, reason)
  }

  lemma PersistKeepsRows(c: Cell, i: nat, token: Token, result: DispatchResult, now: int)
    requires RowsOk(c)
    ensures var r := PersistResult(c, i, token, result, now); r.Commit? ==> RowsOk(r.cell)
  {
    if ResultTransition(result).Some? && CompleteAttempt(c, i, token, CompletionOf(result), now).1 {
      CompletionOfSent(c, i, token, CompletionOf(result), now);
      PersistClosedForm(c, i, token, result, now);
    }
  }

  lemma FinishQueuedKeepsRows(c: Cell, status: CommandStatus, reason: Reason, requireExpired: bool, now: int)
    requires RowsOk(c)
    requires (status.Timeout? && reason.DispatchDeadlineExceeded?) || (status.Cancelled? && reason.CancelledByRequest?)
    ensures RowsOk(FinishQueued(c, status, reason, requireExpired, now).0)
  {
  }

  lemma ApplyResultKeepsCommand(k: Command, result: CommandResult)
    requires CommandShape(k)
    requires result.confirmation == ReportedConfirmation(result.outcome) && result.evidence.Verified?
    requires ApplyResult(k, result).Some?
    ensures CommandShape(ApplyResult(k, result).value)
    ensures var k' := ApplyResult(k, result).value;
            if result.late then
              k' == k.(confirmation := k'.confirmation, evidence := k'.evidence, updatedAt := k'.updatedAt)
            else
              && (k.status.Sent? || k.status.Acked?) && !k'.status.Sent? && !k'.status.Queued?
              && (k'.status.Acked? || k'.status.Success? || k'.reason == Some(DeviceReportedFailure))
              && k'.sentAt == k.sentAt && k'.provider == k.provider
  {
  }

  lemma RecordKeepsRows(c: Cell, report: ResultReport, clock: int)
    requires RowsOk(c)
    ensures var r := RecordNew(c, report, clock); r.Commit? ==> RowsOk(r.cell)
  {
    var result := ResultOf(c, report, clock);
    if ApplyResult(c.command, result).Some? {
      ApplyResultKeepsCommand(c.command, result);
    }
  }

  lemma RecoverKeepsRows(c: Cell, now: int)
    requires RowsOk(c)
    ensures var r := RecoverNext(c, now); r.Commit? ==> RowsOk(r.cell)
  {
  }

  lemma VerifyAcceptanceKeepsRows(c: Cell, i: nat, request: VerifiedUpdate, now: int)
    requires RowsOk(c)
    ensures RowsOk(UpdateProviderAcceptance(c, i, request, now).0)
  {
  }

  lemma StepKeepsRows(c: Cell, op: CellOp)
    requires RowsOk(c)
    ensures RowsOk(Step(c, op))
  {
    match op
    case DoClaim(provider, token, requestKey, lease, now) => ClaimKeepsRows(c, provider, token, requestKey, lease, now);
    case DoReclaim(attempt, expired, token, lease, now) =>
    case DoFailBefore(attempt, token, reason, now) =>
      FailClaimedKeepsRows(c, attempt, token, InvalidRequest, reason, now);
    case DoCommitDispatch(attempt, token, online, lease, now) =>
      CommitDispatchKeepsRows(c, attempt, token, online, lease, now);
    case DoPersist(attempt, token, result, now) => PersistKeepsRows(c, attempt, token, result, now);
    case DoRecover(now) => RecoverKeepsRows(c, now);
    case DoExpireQueued(now) => FinishQueuedKeepsRows(c, Timeout, DispatchDeadlineExceeded, true, now);
    case DoExpireObservation(now) =>
    case DoCancel(now) => FinishQueuedKeepsRows(c, Cancelled, CancelledByRequest, false, now);
    case DoVerifyAcceptance(attempt, matches, now) => VerifyAcceptanceKeepsRows(c, attempt, matches, now);
    case DoRecord(report, now) => RecordKeepsRows(c, report, now);
  }
}
