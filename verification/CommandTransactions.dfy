/**
 * The specification of every Command transaction as a function on one Cell.
 * The repository functions answer (rows, updated); the transaction functions add the Event
 * the same transaction writes and answer Rollback when the transaction body returns an error.
 */
module CommandTransactions {
  import opened Prelude
  import opened Lifecycle
  import opened CommandRows
  import opened CommandGuards

  datatype TxError = NotEligible | LeaseLost | RuntimeState | NotCancellable | RequestInvalid

  datatype TxResult =
    | Commit(cell: Cell, dispatched: bool)
    | Rollback(error: TxError)

  // ---------------------------------------------------------------- repository

  predicate Claimable(c: Cell, provider: Provider, now: int)
  {
    && c.command.status.Queued?
    && c.command.dispatchDeadlineAt > now
    && c.command.provider == provider
    && forall i :: 0 <= i < |c.attempts| && !c.attempts[i].phase.Completed? ==>
         c.attempts[i].phase.Claimed? && !LeaseValid(c.attempts[i], now)
  }

  /** Claims the Command: takes over its expired Attempt, or opens the next one. */
  function ClaimNext(c: Cell, provider: Provider, token: Token, requestKey: nat, lease: int, now: int)
    : (Cell, Option<nat>)
  {
    if lease < 1 || !Claimable(c, provider, now) then (c, None)
    else
      var expiresAt := Min(now + lease, c.command.dispatchDeadlineAt);
      match Incomplete(c.attempts)
      case Some(i) =>
        if c.attempts[i].leaseToken == token then (c, None)
        else (c.(attempts := c.attempts[i := c.attempts[i].(leaseToken := token, leaseExpiresAt := expiresAt)]),
              Some(i))
      case None =>
        var attempt := Attempt(
          NextAttemptNo(c.attempts), Claimed, provider, requestKey, None, Unconfirmed, NoEvidence, None,
          token, expiresAt, now, None, None);
        (c.(attempts := c.attempts + [attempt]), Some(|c.attempts|))
  }

  /** One more than the greatest attempt number stored so far. */
  function NextAttemptNo(attempts: seq<Attempt>): (n: nat)
    ensures forall i :: 0 <= i < |attempts| ==> attempts[i].attemptNo < n
  {
    if attempts == [] then 1
    else
      var rest := NextAttemptNo(attempts[..|attempts| - 1]);
      var last := attempts[|attempts| - 1].attemptNo + 1;
      if last > rest then last else rest
  }

  function ReclaimAttempt(c: Cell, i: nat, expired: Token, token: Token, lease: int, now: int): (Cell, bool)
  {
    if lease < 1 || token == expired || i >= |c.attempts| then (c, false)
    else
      var a := c.attempts[i];
      if !c.command.status.Queued? || c.command.dispatchDeadlineAt <= now || !a.phase.Claimed?
         || a.leaseToken != expired || LeaseValid(a, now) then (c, false)
      else
        var expiresAt := Min(now + lease, c.command.dispatchDeadlineAt);
        (c.(attempts := c.attempts[i := a.(leaseToken := token, leaseExpiresAt := expiresAt)]), true)
  }

  function MarkDispatching(c: Cell, i: nat, token: Token, resultTimeout: int, lease: int, now: int): (Cell, bool)
  {
    if resultTimeout < 1 || lease < 1 || i >= |c.attempts| then (c, false)
    else
      var a := c.attempts[i];
      if !c.command.status.Queued? || c.command.dispatchDeadlineAt <= now || !a.phase.Claimed?
         || a.leaseToken != token || !LeaseValid(a, now) then (c, false)
      else
        var a' := a.(phase := Dispatching, leaseExpiresAt := now + lease, dispatchingAt := Some(now));
        var command := c.command.(
          status := Sent, sentAt := Some(now), resultDeadlineAt := Some(now + resultTimeout), updatedAt := now);
        (c.(attempts := c.attempts[i := a'], command := command), true)
  }

  function CompleteAttempt(c: Cell, i: nat, token: Token, request: Completion, now: int): (Cell, bool)
  {
    if i >= |c.attempts| then (c, false)
    else
      var a := c.attempts[i];
      var expectedStatus := if BeforeDispatch(request.outcome) then Queued else Sent;
      if a.phase.Completed? || a.leaseToken != token || !LeaseValid(a, now)
         || c.command.status != expectedStatus
         || !AttemptCompletionAllowed(a.provider, a.phase, request) then (c, false)
      else (c.(attempts := c.attempts[i := Finished(a, request, now)]), true)
  }

  function Finished(a: Attempt, request: Completion, now: int): Attempt
  {
    a.(phase := Completed, outcome := Some(request.outcome), confirmation := request.confirmation,
       evidence := request.evidence, reason := request.reason, completedAt := Some(now))
  }

  function RecoverExpiredDispatching(c: Cell, i: nat, expired: Token, now: int): (Cell, bool)
  {
    if i >= |c.attempts| then (c, false)
    else
      var a := c.attempts[i];
      if !c.command.status.Sent? || !a.phase.Dispatching? || a.leaseToken != expired || LeaseValid(a, now) then
        (c, false)
      else
        var unknown := Completion(Indeterminate, TransportSent, Unverified, Some(ProviderDeliveryUnknown));
        var command := c.command.(confirmation := TransportSent, evidence := Unverified, updatedAt := now);
        (c.(attempts := c.attempts[i := Finished(a, unknown, now)], command := command), true)
  }

  /** Completes the open Attempt as not dispatched; None while its claim is valid or it dispatches. */
  function AbandonClaim(attempts: seq<Attempt>, reason: Reason, now: int): Option<seq<Attempt>>
  {
    match Incomplete(attempts)
    case None => Some(attempts)
    case Some(i) =>
      if LeaseValid(attempts[i], now) || !attempts[i].phase.Claimed? then None
      else Some(attempts[i := Finished(attempts[i], Completion(NotDispatched, Unconfirmed, NoEvidence, Some(reason)),
                                       now)])
  }

  function FinishedCommand(command: Command, status: CommandStatus, reason: Reason, now: int): Command
  {
    command.(status := status, reason := Some(reason), confirmation := Unconfirmed, evidence := NoEvidence,
             finishedAt := Some(now), updatedAt := now)
  }

  function FinishQueued(c: Cell, status: CommandStatus, reason: Reason, requireExpired: bool, now: int): (Cell, bool)
  {
    if !c.command.status.Queued? || (requireExpired && c.command.dispatchDeadlineAt > now) then (c, false)
    else
      match AbandonClaim(c.attempts, reason, now)
      case None => (c, false)
      case Some(attempts) => (c.(attempts := attempts, command := FinishedCommand(c.command, status, reason, now)),
                              true)
  }

  function ExpireResultObservation(c: Cell, now: int): (Cell, bool)
  {
    if c.command.resultDeadlineAt.None? || c.command.resultDeadlineAt.value > now
       || !(c.command.status.Sent? || c.command.status.Acked?)
       || Incomplete(c.attempts).Some? then (c, false)
    else
      (c.(command := c.command.(
            status := Timeout, reason := Some(ResultObservationTimeout), finishedAt := Some(now), updatedAt := now)),
       true)
  }

  function UpdateEvidenceFromAttempt(c: Cell, i: nat, token: Token, expected: CommandStatus, now: int): (Cell, bool)
  {
    if i >= |c.attempts| then (c, false)
    else
      var a := c.attempts[i];
      if c.command.status != expected || !expected.Sent? || !a.phase.Completed? || a.leaseToken != token
         || !(a.outcome == Some(AcceptedByProvider) || a.outcome == Some(Indeterminate))
         || !EvidenceProgresses(c.command.confirmation, c.command.evidence, a.confirmation, a.evidence) then (c, false)
      else
        (c.(command := c.command.(confirmation := a.confirmation, evidence := a.evidence, updatedAt := now)), true)
  }

  function TransitionFromAttempt(c: Cell, i: nat, token: Token, t: StatusTransition, now: int): (Cell, bool)
  {
    if i >= |c.attempts| then (c, false)
    else
      var a := c.attempts[i];
      if c.command.status != t.from || !a.phase.Completed? || a.leaseToken != token || a.outcome.None?
         || a.confirmation != t.confirmation || a.evidence != t.evidence
         || !CanTransitionCommand(t.from, t.to) || !AttemptTransitionMatches(a.outcome.value, t)
         || !EvidenceDoesNotRegress(c.command.confirmation, c.command.evidence, t.confirmation, t.evidence) then
              (c, false)
      else
        (c.(command := c.command.(
              status := t.to, reason := t.reason, confirmation := t.confirmation, evidence := t.evidence,
              finishedAt := Some(now), updatedAt := now)),
         true)
  }

  /** A stored message from the Provider, and what the Device is bound to now. */
  datatype RawMessage = RawMessage(deduplicationKey: nat, device: nat, provider: Provider, providerDevice: nat,
                                   inbound: bool)

  datatype Binding = Binding(provider: Provider, providerDevice: nat)

  /** What a caller claims a message proves; None is a message identifier that is not stored. */
  datatype VerifiedUpdate = VerifiedUpdate(
    expected: CommandStatus, outcome: AttemptOutcome, message: Option<RawMessage>, messageKey: nat, binding: Binding)

  /** The message is the inbound answer to this Attempt's own request, from the Device as it is bound. */
  predicate MessageMatches(command: Command, a: Attempt, request: VerifiedUpdate)
  {
    && request.message.Some?
    && var m := request.message.value;
       && m.deduplicationKey == request.messageKey && m.deduplicationKey == a.requestKey
       && m.device == command.request.device
       && m.provider.Simulator? && m.provider == a.provider && m.provider == request.binding.provider
       && m.providerDevice == request.binding.providerDevice
       && m.inbound
  }

  function UpdateProviderAcceptance(c: Cell, i: nat, request: VerifiedUpdate, now: int): (Cell, bool)
  {
    if i >= |c.attempts| then (c, false)
    else
      var a := c.attempts[i];
      if c.command.status != request.expected || !request.expected.Sent?
         || !a.phase.Completed? || a.outcome != Some(AcceptedByProvider) || !request.outcome.AcceptedByProvider?
         || !a.provider.Simulator? || !a.confirmation.ProviderAccepted?
         || !EvidenceProgresses(c.command.confirmation, c.command.evidence, ProviderAccepted, Verified)
         || !EvidenceProgresses(a.confirmation, a.evidence, ProviderAccepted, Verified)
         || !MessageMatches(c.command, a, request) then (c, false)
      else
        var command := c.command.(confirmation := ProviderAccepted, evidence := Verified, updatedAt := now);
        (c.(attempts := c.attempts[i := a.(evidence := Verified)], command := command), true)
  }

  /** None is ErrInvalidRepositoryRequest. */
  function ApplyResult(command: Command, result: CommandResult): Option<Command>
  {
    if result.late != IsTerminal(command.status) then None
    else if result.late then
      if EvidenceProgresses(command.confirmation, command.evidence, result.confirmation, result.evidence) then
        Some(command.(confirmation := result.confirmation, evidence := result.evidence, updatedAt := result.observedAt))
      else Some(command)
    else
      var applied := command.(confirmation := result.confirmation, evidence := result.evidence,
                              reason := None, finishedAt := None, updatedAt := result.observedAt);
      match result.outcome
      case AckReported =>
        if !command.status.Sent? then None else Some(applied.(status := Acked))
      case SuccessReported =>
        if !(command.status.Sent? || command.status.Acked?) then None
        else Some(applied.(status := Success, finishedAt := Some(result.observedAt)))
      case FailureReported =>
        if !(command.status.Sent? || command.status.Acked?) then None
        else Some(applied.(status := Failed, reason := Some(DeviceReportedFailure),
                           finishedAt := Some(result.observedAt)))
  }

  // -------------------------------------------------------------- transactions

  function StatusEvent(c: Cell, from: CommandStatus): Event
  {
    StatusChanged(from, c.command.status, c.command.reason, c.command.confirmation, c.command.evidence)
  }

  /** Appends the status Event; createStatusEvent refuses to report a change that did not happen. */
  function WithStatusEvent(c: Cell, from: CommandStatus, dispatched: bool): TxResult
  {
    if from == c.command.status then Rollback(RuntimeState)
    else Commit(c.(events := c.events + [StatusEvent(c, from)]), dispatched)
  }

  function WithEvidenceEvent(c: Cell, attempt: nat, outcome: AttemptOutcome): TxResult
  {
    var event := EvidenceUpdated(c.command.status, attempt, outcome, c.command.confirmation, c.command.evidence);
    Commit(c.(events := c.events + [event]), false)
  }

  /** The row a Create inserts, with the Event of the same transaction. */
  function NewCell(project: nat, key: string, request: Request, provider: Provider, policy: Policy, now: int): Cell
  {
    Cell(
      Command(project, key, request, provider, policy, Queued, None, Unconfirmed, NoEvidence,
              now, now + policy.dispatchDeadline, None, None, None, now),
      [], [], [CommandCreated(Queued)])
  }

  /** CompleteAttempt and TransitionFromAttempt in one transaction: a failure before any Provider call. */
  function FailClaimed(c: Cell, i: nat, token: Token, outcome: AttemptOutcome, reason: Reason, now: int): TxResult
  {
    var (completed, ok) := CompleteAttempt(c, i, token, Completion(outcome, Unconfirmed, NoEvidence, Some(reason)),
                                           now);
    if !ok then Rollback(LeaseLost)
    else
      var t := StatusTransition(Queued, Failed, Some(reason), Unconfirmed, NoEvidence);
      var (failed, moved) := TransitionFromAttempt(completed, i, token, t, now);
      if !moved then Rollback(LeaseLost) else WithStatusEvent(failed, Queued, false)
  }

  function FailBeforeDispatch(c: Cell, i: nat, token: Token, reason: Reason, now: int): TxResult
  {
    if !PreparationReason(reason) then Rollback(RuntimeState)
    else FailClaimed(c, i, token, InvalidRequest, reason, now)
  }

  function CommitDispatch(c: Cell, i: nat, token: Token, deviceOnline: bool, lease: int, now: int): TxResult
  {
    if c.command.policy.onlineOnly && !deviceOnline then FailClaimed(c, i, token, NotDispatched, DeviceNotOnline, now)
    else
      var (marked, ok) := MarkDispatching(c, i, token, c.command.policy.resultTimeout, lease, now);
      if !ok then Rollback(LeaseLost) else WithStatusEvent(marked, Queued, true)
  }

  function PersistResult(c: Cell, i: nat, token: Token, result: DispatchResult, now: int): TxResult
  {
    match ResultTransition(result)
    case None => Rollback(RuntimeState)
    case Some((reason, target)) =>
      var request := Completion(result.outcome, result.confirmation, result.evidence, reason);
      var (completed, ok) := CompleteAttempt(c, i, token, request, now);
      if !ok then Rollback(LeaseLost)
      else if result.outcome.AcceptedByProvider? || result.outcome.Indeterminate? then
        var (updated, moved) := UpdateEvidenceFromAttempt(completed, i, token, Sent, now);
        if !moved then Rollback(LeaseLost) else WithEvidenceEvent(updated, i, result.outcome)
      else
        var t := StatusTransition(Sent, target, reason, result.confirmation, result.evidence);
        var (failed, moved) := TransitionFromAttempt(completed, i, token, t, now);
        if !moved then Rollback(LeaseLost) else WithStatusEvent(failed, Sent, false)
  }

  /** The Attempt RecoverNextExpiredDispatching would select for this Command. */
  function ExpiredDispatch(c: Cell, now: int): (found: Option<nat>)
    ensures found.Some? ==> found.value < |c.attempts|
  {
    match Incomplete(c.attempts)
    case Some(i) =>
      if c.command.status.Sent? && c.attempts[i].phase.Dispatching? && !LeaseValid(c.attempts[i], now)
      then Some(i) else None
    case None => None
  }

  function RecoverNext(c: Cell, now: int): TxResult
  {
    match ExpiredDispatch(c, now)
    case None => Rollback(NotEligible)
    case Some(i) =>
      var (recovered, ok) := RecoverExpiredDispatching(c, i, c.attempts[i].leaseToken, now);
      if !ok then Rollback(NotEligible) else WithEvidenceEvent(recovered, i, Indeterminate)
  }

  predicate QueuedExpired(c: Cell, now: int)
  {
    && c.command.status.Queued?
    && c.command.dispatchDeadlineAt <= now
    && forall i :: 0 <= i < |c.attempts| && !c.attempts[i].phase.Completed? ==>
         c.attempts[i].phase.Claimed? && !LeaseValid(c.attempts[i], now)
  }

  function ExpireNextQueued(c: Cell, now: int): TxResult
  {
    if !QueuedExpired(c, now) then Rollback(NotEligible)
    else
      var (expired, ok) := FinishQueued(c, Timeout, DispatchDeadlineExceeded, true, now);
      if !ok then Rollback(NotEligible) else WithStatusEvent(expired, Queued, false)
  }

  predicate ObservationExpired(c: Cell, now: int)
  {
    && (c.command.status.Sent? || c.command.status.Acked?)
    && c.command.resultDeadlineAt.Some?
    && c.command.resultDeadlineAt.value <= now
    && forall i :: 0 <= i < |c.attempts| ==> c.attempts[i].phase.Completed?
  }

  function ExpireNextResultObservation(c: Cell, now: int): TxResult
  {
    if !ObservationExpired(c, now) then Rollback(NotEligible)
    else
      var (expired, ok) := ExpireResultObservation(c, now);
      if !ok then Rollback(NotEligible) else WithStatusEvent(expired, c.command.status, false)
  }

  function Cancel(c: Cell, now: int): TxResult
  {
    var (cancelled, ok) := FinishQueued(c, Cancelled, CancelledByRequest, false, now);
    if !ok then Rollback(NotCancellable)
    else Commit(cancelled.(events := cancelled.events + [StatusEvent(cancelled, c.command.status)]), false)
  }

  /** What a caller hands to Record; an absent observation time is the service's clock. */
  datatype ResultReport = ResultReport(
    attempt: Option<nat>, source: EventSource, outcome: ResultOutcome, deduplicationKey: string,
    reportedAt: Option<int>, observedAt: Option<int>, payload: nat)

  function ObservedAt(report: ResultReport, clock: int): int
  {
    if report.observedAt.Some? then report.observedAt.value else clock
  }

  predicate ReportValid(report: ResultReport, clock: int)
  {
    && 1 <= |report.deduplicationKey| <= 256
    && (report.source.ProviderCallback? || report.source.SimulatorSource? || report.source.System?)
    && (report.reportedAt.Some? ==> report.reportedAt.value <= ObservedAt(report, clock))
  }

  function ReportedConfirmation(outcome: ResultOutcome): Confirmation
  {
    if outcome.AckReported? then DeviceAcked else DeviceFinal
  }

  function ResultOf(c: Cell, report: ResultReport, clock: int): CommandResult
  {
    CommandResult(report.attempt, report.source, report.outcome, ReportedConfirmation(report.outcome), Verified,
                  report.deduplicationKey, report.reportedAt, ObservedAt(report, clock),
                  IsTerminal(c.command.status), report.payload)
  }

  /** Record for a deduplication key that is not stored yet. */
  function RecordNew(c: Cell, report: ResultReport, clock: int): TxResult
  {
    if !ReportValid(report, clock) then Rollback(RequestInvalid)
    else
      var result := ResultOf(c, report, clock);
      match ApplyResult(c.command, result)
      case None => Rollback(RequestInvalid)
      case Some(command) =>
        var event := ResultRecorded(command.status, |c.results|, result.outcome, result.late);
        Commit(Cell(command, c.attempts, c.results + [result], c.events + [event]), false)
  }

  // ------------------------------------------------------------------ all of it

  /** Everything a transaction can do to the rows of one existing Command. */
  datatype CellOp =
    | DoClaim(provider: Provider, token: Token, requestKey: nat, lease: int, now: int)
    | DoReclaim(attempt: nat, expired: Token, token: Token, lease: int, now: int)
    | DoFailBefore(attempt: nat, token: Token, reason: Reason, now: int)
    | DoCommitDispatch(attempt: nat, token: Token, deviceOnline: bool, lease: int, now: int)
    | DoPersist(attempt: nat, token: Token, result: DispatchResult, now: int)
    | DoRecover(now: int)
    | DoExpireQueued(now: int)
    | DoExpireObservation(now: int)
    | DoCancel(now: int)
    | DoVerifyAcceptance(attempt: nat, request: VerifiedUpdate, now: int)
    | DoRecord(report: ResultReport, now: int)

  function TransactionOf(c: Cell, op: CellOp): TxResult
  {
    match op
    case DoClaim(provider, token, requestKey, lease, now) =>
      var (claimed, attempt) := ClaimNext(c, provider, token, requestKey, lease, now);
      if attempt.None? then Rollback(NotEligible) else Commit(claimed, false)
    case DoReclaim(attempt, expired, token, lease, now) =>
      var (reclaimed, ok) := ReclaimAttempt(c, attempt, expired, token, lease, now);
      if !ok then Rollback(NotEligible) else Commit(reclaimed, false)
    case DoFailBefore(attempt, token, reason, now) => FailBeforeDispatch(c, attempt, token, reason, now)
    case DoCommitDispatch(attempt, token, deviceOnline, lease, now) =>
      CommitDispatch(c, attempt, token, deviceOnline, lease, now)
    case DoPersist(attempt, token, result, now) => PersistResult(c, attempt, token, result, now)
    case DoRecover(now) => RecoverNext(c, now)
    case DoExpireQueued(now) => ExpireNextQueued(c, now)
    case DoExpireObservation(now) => ExpireNextResultObservation(c, now)
    case DoCancel(now) => Cancel(c, now)
    case DoVerifyAcceptance(attempt, request, now) =>
      var (verified, ok) := UpdateProviderAcceptance(c, attempt, request, now);
      if !ok then Rollback(NotEligible) else Commit(verified, false)
    case DoRecord(report, now) => RecordNew(c, report, now)
  }

  /** A transaction that rolls back leaves every row as it was. */
  function Step(c: Cell, op: CellOp): Cell
  {
    match TransactionOf(c, op)
    case Commit(cell, _) => cell
    case Rollback(_) => c
  }

  /** The rows after a whole history of transactions. */
  function Run(c: Cell, ops: seq<CellOp>): Cell
    decreases |ops|
  {
    if ops == [] then c else Step(Run(c, ops[..|ops| - 1]), ops[|ops| - 1])
  }
}
