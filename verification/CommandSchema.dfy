/**
 * The CHECK, UNIQUE and FOREIGN KEY constraints of the Command tables, which turn a commit
 * that violates them into a rollback, and exactly which transactions they refuse.
 */
module CommandSchema {
  import opened Prelude
  import opened Lifecycle
  import opened CommandRows
  import opened CommandGuards
  import opened CommandTransactions
  import opened CommandInvariant

  /** chk_device_commands_status_confirmation, _confirmation_evidence and _high_confirmation_evidence. */
  predicate EvidenceChecks(k: Command)
  {
    && (k.confirmation.Unconfirmed? <==> k.evidence.NoEvidence?)
    && (k.confirmation.DeviceAcked? || k.confirmation.DeviceFinal? ==> k.evidence.Verified?)
    && match k.status
       case Queued => k.confirmation.Unconfirmed?
       case Sent => ConfirmationRank(k.confirmation) <= 2
       case Acked => k.confirmation.DeviceAcked? || k.confirmation.DeviceFinal?
       case Success => k.confirmation.DeviceFinal?
       case _ => true
  }

  /** chk_device_commands_reason_evidence. */
  predicate ReasonEvidenceChecks(k: Command)
  {
    k.reason.Some? ==>
      match k.reason.value
      case ProviderRejectedRequest => k.confirmation.TransportSent?
      case DeviceReportedFailure => k.confirmation.DeviceFinal? && k.evidence.Verified?
      case ResultObservationTimeout => 1 <= ConfirmationRank(k.confirmation) <= 3
      case _ => k.confirmation.Unconfirmed? && k.evidence.NoEvidence?
  }

  /** chk_device_commands_status_timing, _finished, _deadlines and _snapshot_policy. */
  predicate TimingChecks(k: Command)
  {
    && (k.sentAt.Some? <==> k.resultDeadlineAt.Some?)
    && (k.sentAt.Some? <==> ReachedSent(k))
    && (k.finishedAt.Some? <==> IsTerminal(k.status))
    && (k.finishedAt.Some? ==> k.finishedAt.value >= k.queuedAt)
    && (k.finishedAt.Some? && k.sentAt.Some? ==> k.finishedAt.value >= k.sentAt.value)
    && k.dispatchDeadlineAt > k.queuedAt
    && (k.sentAt.Some? ==> k.sentAt.value >= k.queuedAt && k.resultDeadlineAt.value > k.sentAt.value)
    && k.policy.dispatchDeadline > 0 && k.policy.providerTimeout > 0 && k.policy.resultTimeout > 0
    && k.dispatchDeadlineAt == k.queuedAt + k.policy.dispatchDeadline
  }

  predicate CommandChecks(k: Command)
  {
    EvidenceChecks(k) && ReasonFits(k.status, k.reason) && ReasonEvidenceChecks(k) && TimingChecks(k)
  }

  /** chk_command_attempts_reason and _outcome_evidence. */
  predicate OutcomeChecks(a: Attempt)
  {
    match a.outcome
    case None => a.reason.None?
    case Some(outcome) => (
      match outcome
      case NotDispatched =>
        && a.confirmation.Unconfirmed? && a.reason.Some?
        && (a.reason.value.CancelledByRequest? || a.reason.value.DispatchDeadlineExceeded?
            || a.reason.value.DeviceNotOnline?)
      case InvalidRequest => a.confirmation.Unconfirmed? && a.reason.Some? && PreparationReason(a.reason.value)
      case FailedBeforeSend => a.confirmation.Unconfirmed? && a.reason == Some(ProviderTransportError)
      case RejectedByProvider => a.confirmation.TransportSent? && a.reason == Some(ProviderRejectedRequest)
      case Indeterminate =>
        && a.confirmation.TransportSent?
        && (a.reason == Some(ProviderDeliveryUnknown) || a.reason == Some(ProviderResponseInvalid))
      case AcceptedByProvider => a.confirmation.ProviderAccepted? && a.reason.None?)
  }

  predicate AttemptChecks(a: Attempt)
  {
    && a.attemptNo > 0
    && (a.phase.Completed? <==> a.outcome.Some?)
    && (a.phase.Completed? <==> a.completedAt.Some?)
    && (!a.phase.Completed? ==> a.confirmation.Unconfirmed?)
    && (a.confirmation.Unconfirmed? <==> a.evidence.NoEvidence?)
    && OutcomeChecks(a)
    && (a.dispatchingAt.Some? <==> a.phase.Dispatching? || (a.outcome.Some? && !BeforeDispatch(a.outcome.value)))
    && a.leaseExpiresAt > a.claimedAt
    && (a.dispatchingAt.Some? ==> a.dispatchingAt.value >= a.claimedAt)
    && (a.completedAt.Some? ==> a.completedAt.value >= a.claimedAt)
    && (a.completedAt.Some? && a.dispatchingAt.Some? ==> a.completedAt.value >= a.dispatchingAt.value)
  }

  predicate ResultChecks(result: CommandResult, attempts: seq<Attempt>)
  {
    && result.confirmation == ReportedConfirmation(result.outcome)
    && result.evidence.Verified?
    && (result.source.ProviderCallback? || result.source.SimulatorSource? || result.source.System?)
    && 1 <= |result.deduplicationKey| <= 256
    && (result.reportedAt.Some? ==> result.reportedAt.value <= result.observedAt)
    && (result.attempt.Some? ==> result.attempt.value < |attempts|)
  }

  /** uq_command_attempts_one_incomplete and UNIQUE (command_id, attempt_no). */
  ghost predicate AttemptsUnique(attempts: seq<Attempt>)
  {
    forall i, j :: 0 <= i < j < |attempts| ==>
      && attempts[i].attemptNo != attempts[j].attemptNo
      && (attempts[i].phase.Completed? || attempts[j].phase.Completed?)
  }

  ghost predicate SchemaOk(c: Cell)
  {
    && CommandChecks(c.command)
    && (forall i :: 0 <= i < |c.attempts| ==> AttemptChecks(c.attempts[i]))
    && AttemptsUnique(c.attempts)
    && (forall i :: 0 <= i < |c.results| ==> ResultChecks(c.results[i], c.attempts))
  }

  // -------------------------------------------------- what the schema lets through

  /** The transaction's clock is not behind an instant the rows already carry. */
  predicate ClockReached(c: Cell, now: int)
  {
    && c.command.queuedAt <= now
    && forall i :: 0 <= i < |c.attempts| ==>
         c.attempts[i].claimedAt <= now && (c.attempts[i].dispatchingAt.Some? ==>
                                            c.attempts[i].dispatchingAt.value <= now)
  }

  lemma FailClaimedKeepsSchema(c: Cell, i: nat, token: Token, outcome: AttemptOutcome, reason: Reason, now: int)
    requires RowsOk(c) && SchemaOk(c) && ClockReached(c, now)
    requires BeforeDispatch(outcome)
    ensures var r := FailClaimed(c, i, token, outcome, reason, now); r.Commit? ==> SchemaOk(r.cell)
  {
    if FailClaimed(c, i, token, outcome, reason, now).Commit? {
      FailClaimedClosedForm(c, i, token, outcome, reason, now);
    }
  }

  lemma CommitDispatchKeepsSchema(c: Cell, i: nat, token: Token, deviceOnline: bool, lease: int, now: int)
    requires RowsOk(c) && SchemaOk(c) && ClockReached(c, now)
    ensures var r := CommitDispatch(c, i, token, deviceOnline, lease, now); r.Commit? ==> SchemaOk(r.cell)
  {
    if c.command.policy.onlineOnly && !deviceOnline {
      FailClaimedKeepsSchema(c, i, token, NotDispatched, DeviceNotOnline, now);
    }
  }

  lemma PersistKeepsSchema(c: Cell, i: nat, token: Token, result: DispatchResult, now: int)
    requires RowsOk(c) && SchemaOk(c) && ClockReached(c, now)
    ensures var r := PersistResult(c, i, token, result, now); r.Commit? ==> SchemaOk(r.cell)
  {
    if PersistResult(c, i, token, result, now).Commit? {
      CompletionOfSent(c, i, token, CompletionOf(result), now);
      PersistClosedForm(c, i, token, result, now);
    }
  }

  lemma CancelKeepsSchema(c: Cell, now: int)
    requires RowsOk(c) && SchemaOk(c) && ClockReached(c, now)
    ensures var r := Cancel(c, now); r.Commit? ==> SchemaOk(r.cell)
  {
  }

  /** Maintenance needs no clock assumption: it acts only past a deadline that lies after those instants. */
  lemma RecoverKeepsSchema(c: Cell, now: int)
    requires RowsOk(c) && SchemaOk(c)
    ensures var r := RecoverNext(c, now); r.Commit? ==> SchemaOk(r.cell)
  {
  }

  lemma ExpireQueuedKeepsSchema(c: Cell, now: int)
    requires RowsOk(c) && SchemaOk(c)
    ensures var r := ExpireNextQueued(c, now); r.Commit? ==> SchemaOk(r.cell)
  {
  }

  lemma ExpireObservationKeepsSchema(c: Cell, now: int)
    requires RowsOk(c) && SchemaOk(c)
    ensures var r := ExpireNextResultObservation(c, now); r.Commit? ==> SchemaOk(r.cell)
  {
  }

  lemma ClaimKeepsSchema(c: Cell, provider: Provider, token: Token, requestKey: nat, lease: int, now: int)
    requires RowsOk(c) && SchemaOk(c)
    ensures SchemaOk(ClaimNext(c, provider, token, requestKey, lease, now).0)
  {
  }

  lemma ReclaimKeepsSchema(c: Cell, i: nat, expired: Token, token: Token, lease: int, now: int)
    requires RowsOk(c) && SchemaOk(c)
    ensures SchemaOk(ReclaimAttempt(c, i, expired, token, lease, now).0)
  {
  }

  lemma VerifyAcceptanceKeepsSchema(c: Cell, i: nat, request: VerifiedUpdate, now: int)
    requires RowsOk(c) && SchemaOk(c)
    ensures SchemaOk(UpdateProviderAcceptance(c, i, request, now).0)
  {
  }

  /** Whether a transaction stamps its own clock into a row without having checked it against a deadline. */
  predicate StampsClock(op: CellOp)
  {
    op.DoFailBefore? || op.DoCommitDispatch? || op.DoPersist? || op.DoCancel?
  }

  /**
   * Apart from Record, no transaction body ever produces rows the schema refuses, given for
   * some of them that the database clock did not run backwards past the Command's own rows.
   */
  lemma StepKeepsSchema(c: Cell, op: CellOp)
    requires RowsOk(c) && SchemaOk(c)
    requires !op.DoRecord?
    requires StampsClock(op) ==> ClockReached(c, op.now)
    ensures SchemaOk(Step(c, op))
  {
    match op
    case DoClaim(provider, token, requestKey, lease, now) =>
      ClaimKeepsSchema(c, provider, token, requestKey, lease, now);
    case DoReclaim(attempt, expired, token, lease, now) => ReclaimKeepsSchema(c, attempt, expired, token, lease, now);
    case DoFailBefore(attempt, token, reason, now) =>
      FailClaimedKeepsSchema(c, attempt, token, InvalidRequest, reason, now);
    case DoCommitDispatch(attempt, token, online, lease, now) =>
      CommitDispatchKeepsSchema(c, attempt, token, online, lease, now);
    case DoPersist(attempt, token, result, now) => PersistKeepsSchema(c, attempt, token, result, now);
    case DoRecover(now) => RecoverKeepsSchema(c, now);
    case DoExpireQueued(now) => ExpireQueuedKeepsSchema(c, now);
    case DoExpireObservation(now) => ExpireObservationKeepsSchema(c, now);
    case DoCancel(now) => CancelKeepsSchema(c, now);
    case DoVerifyAcceptance(attempt, matches, now) => VerifyAcceptanceKeepsSchema(c, attempt, matches, now);
  }

  /** What a caller of Record can check beforehand about a Result the rows can hold. */
  predicate ResultStorable(c: Cell, report: ResultReport, clock: int)
  {
    && (report.attempt.Some? ==> report.attempt.value < |c.attempts|)
    && (if IsTerminal(c.command.status) then
          || ConfirmationRank(ReportedConfirmation(report.outcome)) <= ConfirmationRank(c.command.confirmation)
          || (c.command.reason == Some(ResultObservationTimeout) && report.outcome.AckReported?)
        else
          report.outcome.AckReported?
          || (c.command.sentAt.Some? ==> ObservedAt(report, clock) >= c.command.sentAt.value))
  }

  /** Record commits a Result whose body succeeded exactly when it is storable. */
  lemma RecordSchema(c: Cell, report: ResultReport, clock: int)
    requires RowsOk(c) && SchemaOk(c)
    requires RecordNew(c, report, clock).Commit?
    ensures SchemaOk(RecordNew(c, report, clock).cell) <==> ResultStorable(c, report, clock)
  {
    var r := RecordNew(c, report, clock);
    var result := ResultOf(c, report, clock);
    ApplyResultKeepsCommand(c.command, result);
    assert r.cell.results[|c.results|] == result;
    assert ResultChecks(result, c.attempts) <==> (report.attempt.Some? ==> report.attempt.value < |c.attempts|);
    assert SchemaOk(r.cell) <==> CommandChecks(r.cell.command) && ResultChecks(result, c.attempts) by {
      forall i | 0 <= i < |c.results|
        ensures ResultChecks(r.cell.results[i], r.cell.attempts)
      {
        assert r.cell.results[i] == c.results[i];
      }
    }
  }

  /**
   * The documentation promises that a late Device final raises the evidence of a timed-out
   * Command. The transaction body does so; the schema refuses the row, so the Result is lost.
   */
  lemma LateFinalAfterTimeoutIsRefused(c: Cell, report: ResultReport, clock: int)
    requires RowsOk(c) && SchemaOk(c)
    requires c.command.reason == Some(ResultObservationTimeout)
    requires !report.outcome.AckReported? && ReportValid(report, clock)
    ensures RecordNew(c, report, clock).Commit?
    ensures RecordNew(c, report, clock).cell.command.confirmation.DeviceFinal?
    ensures !SchemaOk(RecordNew(c, report, clock).cell)
  {
    RecordSchema(c, report, clock);
  }

  // --------------------------------------------------------- the checked database

  /** A transaction whose rows the schema refuses is rolled back like any other failure. */
  ghost function CheckedStep(c: Cell, op: CellOp): Cell
  {
    if SchemaOk(Step(c, op)) then Step(c, op) else c
  }

  ghost function CheckedRun(c: Cell, ops: seq<CellOp>): Cell
    decreases |ops|
  {
    if ops == [] then c else CheckedStep(CheckedRun(c, ops[..|ops| - 1]), ops[|ops| - 1])
  }

  /** The transactions of a history that the schema let through. */
  ghost function Admitted(c: Cell, ops: seq<CellOp>): seq<CellOp>
    decreases |ops|
  {
    if ops == [] then []
    else
      var before := Admitted(c, ops[..|ops| - 1]);
      if SchemaOk(Step(CheckedRun(c, ops[..|ops| - 1]), ops[|ops| - 1])) then before + [ops[|ops| - 1]] else before
  }

  /**
   * With the schema in force every history is one of the unchecked histories, so whatever
   * holds of all of those holds of the real database; and its rows always satisfy the schema.
   */
  lemma {:induction false} CheckedRunIsRun(c: Cell, ops: seq<CellOp>)
    requires SchemaOk(c)
    ensures CheckedRun(c, ops) == Run(c, Admitted(c, ops))
    ensures SchemaOk(CheckedRun(c, ops))
    decreases |ops|
  {
    if ops == [] {
    } else {
      var before, last := ops[..|ops| - 1], ops[|ops| - 1];
      CheckedRunIsRun(c, before);
      assert (Admitted(c, before) + [last])[..|Admitted(c, before)|] == Admitted(c, before);
    }
  }

  /** A created Command satisfies the schema exactly when the policy it freezes has positive durations. */
  lemma NewCellSchema(project: nat, key: string, request: Request, provider: Provider, policy: Policy, now: int)
    ensures SchemaOk(NewCell(project, key, request, provider, policy, now))
            <==> policy.dispatchDeadline > 0 && policy.providerTimeout > 0 && policy.resultTimeout > 0
  {
    var c := NewCell(project, key, request, provider, policy, now);
    assert CommandChecks(c.command) <==>
             policy.dispatchDeadline > 0 && policy.providerTimeout > 0 && policy.resultTimeout > 0;
  }
}
