/**
 * The rows one Command owns: the Command, its Attempts, its Results and its Events.
 * Every transaction of the protocol locks the Command row first, so a Cell is the unit
 * that one transaction reads and writes.
 *
 * Instants and durations are microseconds, the resolution of the stored columns.
 */
module CommandRows {
  import opened Prelude
  import opened Lifecycle

  type CommandId = nat
  type Token = nat

  /** A Provider together with the one adapter the schema binds to it. */
  datatype Provider = Wwtiot | Omni | Simulator

  datatype AttemptOutcome =
    | NotDispatched
    | InvalidRequest
    | AcceptedByProvider
    | RejectedByProvider
    | FailedBeforeSend
    | Indeterminate

  datatype ResultOutcome = AckReported | SuccessReported | FailureReported

  datatype EventSource = Admin | OpenApi | ProviderCallback | SimulatorSource | System

  datatype Reason =
    | ProviderNotConfigured
    | ProviderActionUnsupported
    | ProviderMappingUnknown
    | ProviderSessionUnavailable
    | ProviderRequestInvalid
    | DeviceNotOnline
    | ProviderTransportError
    | ProviderRejectedRequest
    | ProviderDeliveryUnknown
    | ProviderResponseInvalid
    | DeviceReportedFailure
    | DispatchDeadlineExceeded
    | ResultObservationTimeout
    | CancelledByRequest
    | OtherReason(text: string)

  /** What a caller asks a Device to do; compared when an idempotency key is replayed. */
  datatype Request = Request(device: nat, action: nat, payload: nat)

  /** The delivery policy a Command freezes when it is created. */
  datatype Policy = Policy(onlineOnly: bool, dispatchDeadline: int, providerTimeout: int, resultTimeout: int)

  datatype Command = Command(
    project: nat,
    idempotencyKey: string,
    request: Request,
    provider: Provider,
    policy: Policy,
    status: CommandStatus,
    reason: Option<Reason>,
    confirmation: Confirmation,
    evidence: Evidence,
    queuedAt: int,
    dispatchDeadlineAt: int,
    sentAt: Option<int>,
    resultDeadlineAt: Option<int>,
    finishedAt: Option<int>,
    updatedAt: int)

  datatype Attempt = Attempt(
    attemptNo: nat,
    phase: AttemptPhase,
    provider: Provider,
    requestKey: nat,
    outcome: Option<AttemptOutcome>,
    confirmation: Confirmation,
    evidence: Evidence,
    reason: Option<Reason>,
    leaseToken: Token,
    leaseExpiresAt: int,
    claimedAt: int,
    dispatchingAt: Option<int>,
    completedAt: Option<int>)

  datatype CommandResult = CommandResult(
    attempt: Option<nat>,
    source: EventSource,
    outcome: ResultOutcome,
    confirmation: Confirmation,
    evidence: Evidence,
    deduplicationKey: string,
    reportedAt: Option<int>,
    observedAt: int,
    late: bool,
    payload: nat)

  /** Attempts and Results are named by their position in the Command's own tables. */
  datatype Event =
    | CommandCreated(status: CommandStatus)
    | StatusChanged(from: CommandStatus, to: CommandStatus, reason: Option<Reason>,
                    confirmation: Confirmation, evidence: Evidence)
    | EvidenceUpdated(status: CommandStatus, attempt: nat, outcome: AttemptOutcome,
                      confirmation: Confirmation, evidence: Evidence)
    | ResultRecorded(status: CommandStatus, result: nat, reported: ResultOutcome, late: bool)

  /** The part of an Event's deduplication key that varies within one Command. */
  datatype EventKey =
    | CreatedKey
    | StatusKey(to: CommandStatus)
    | EvidenceKey(attempt: nat, outcome: AttemptOutcome, confirmation: Confirmation, evidence: Evidence)
    | ResultKey(result: nat)

  function KeyOf(event: Event): EventKey
  {
    match event
    case CommandCreated(_) => CreatedKey
    case StatusChanged(_, to, _, _, _) => StatusKey(to)
    case EvidenceUpdated(_, attempt, outcome, confirmation, evidence) =>
      EvidenceKey(attempt, outcome, confirmation, evidence)
    case ResultRecorded(_, result, _, _) => ResultKey(result)
  }

  datatype Cell = Cell(command: Command, attempts: seq<Attempt>, results: seq<CommandResult>, events: seq<Event>)

  predicate LeaseValid(attempt: Attempt, now: int)
  {
    attempt.leaseExpiresAt > now
  }

  /** The first Attempt from position `from` on that is not completed. */
  function FirstIncomplete(attempts: seq<Attempt>, from: nat): (found: Option<nat>)
    requires from <= |attempts|
    ensures found.Some? ==> from <= found.value < |attempts| && !attempts[found.value].phase.Completed?
    ensures found.None? ==> forall i :: from <= i < |attempts| ==> attempts[i].phase.Completed?
    decreases |attempts| - from
  {
    if from == |attempts| then None
    else if !attempts[from].phase.Completed? then Some(from)
    else FirstIncomplete(attempts, from + 1)
  }

  function Incomplete(attempts: seq<Attempt>): (found: Option<nat>)
    ensures found.Some? ==> found.value < |attempts| && !attempts[found.value].phase.Completed?
    ensures found.None? <==> forall i :: 0 <= i < |attempts| ==> attempts[i].phase.Completed?
  {
    FirstIncomplete(attempts, 0)
  }
}
