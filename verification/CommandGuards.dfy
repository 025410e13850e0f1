/** The pure guards of the Command repository (postgres_command_event.go) and of the worker. */
module CommandGuards {
  import opened Prelude
  import opened Lifecycle
  import opened CommandRows

  /** What a worker asks CompleteAttempt to store. */
  datatype Completion = Completion(
    outcome: AttemptOutcome, confirmation: Confirmation, evidence: Evidence, reason: Option<Reason>)

  datatype StatusTransition = StatusTransition(
    from: CommandStatus, to: CommandStatus, reason: Option<Reason>, confirmation: Confirmation, evidence: Evidence)

  /** What a Provider adapter reports after its one Dispatch. */
  datatype DispatchResult = DispatchResult(
    outcome: AttemptOutcome, confirmation: Confirmation, evidence: Evidence, reason: Option<Reason>)

  predicate EvidenceProgresses(level: Confirmation, evidence: Evidence, nextLevel: Confirmation, nextEvidence: Evidence)
  {
    && CanAdvanceConfirmation(level, nextLevel)
    && (nextLevel != level || (evidence != nextEvidence && !evidence.Verified? && nextEvidence.Verified?))
  }

  predicate EvidenceDoesNotRegress(level: Confirmation, evidence: Evidence, nextLevel: Confirmation,
                                   nextEvidence: Evidence)
  {
    && CanAdvanceConfirmation(level, nextLevel)
    && (nextLevel != level || !evidence.Verified? || nextEvidence.Verified?)
  }

  /** The reasons that end a Command before any Provider call. */
  predicate PreparationReason(reason: Reason)
  {
    || reason.ProviderNotConfigured?
    || reason.ProviderActionUnsupported?
    || reason.ProviderMappingUnknown?
    || reason.ProviderSessionUnavailable?
    || reason.ProviderRequestInvalid?
  }

  predicate BeforeDispatch(outcome: AttemptOutcome)
  {
    outcome.InvalidRequest? || outcome.NotDispatched?
  }

  predicate AttemptCompletionAllowed(provider: Provider, phase: AttemptPhase, request: Completion)
  {
    if BeforeDispatch(request.outcome) then
      && phase.Claimed?
      && request.confirmation.Unconfirmed?
      && request.evidence.NoEvidence?
      && request.reason.Some?
      && (if request.outcome.NotDispatched? then request.reason.value.DeviceNotOnline?
          else PreparationReason(request.reason.value))
    else
      && phase.Dispatching?
      && CompletionReasonValid(request)
      && CompletionEvidenceValid(provider, request)
  }

  predicate CompletionReasonValid(request: Completion)
  {
    match request.outcome
    case AcceptedByProvider => request.reason.None?
    case FailedBeforeSend => request.reason == Some(ProviderTransportError)
    case RejectedByProvider => request.reason == Some(ProviderRejectedRequest)
    case Indeterminate => request.reason == Some(ProviderDeliveryUnknown)
      || request.reason == Some(ProviderResponseInvalid)
    case _ => false
  }

  predicate CompletionEvidenceValid(provider: Provider, request: Completion)
  {
    match provider
    case Wwtiot => (
      match request.outcome
      case FailedBeforeSend => request.confirmation.Unconfirmed? && request.evidence.NoEvidence?
      case Indeterminate => request.confirmation.TransportSent? && request.evidence.Verified?
      case RejectedByProvider => request.confirmation.TransportSent? && request.evidence.Unverified?
      case AcceptedByProvider => request.confirmation.ProviderAccepted? && request.evidence.Unverified?
      case _ => false)
    case Simulator => (
      match request.outcome
      case FailedBeforeSend => request.confirmation.Unconfirmed? && request.evidence.NoEvidence?
      case Indeterminate => request.confirmation.TransportSent? && request.evidence.Verified?
      case RejectedByProvider => request.confirmation.TransportSent? && request.evidence.Verified?
      case AcceptedByProvider => request.confirmation.ProviderAccepted? && request.evidence.Verified?
      case _ => false)
    case Omni => (
      match request.outcome
      case FailedBeforeSend => request.confirmation.Unconfirmed? && request.evidence.NoEvidence?
      case Indeterminate =>
        && request.confirmation.TransportSent? && request.evidence.Verified?
        && request.reason == Some(ProviderDeliveryUnknown)
      case _ => false)
  }

  predicate AttemptTransitionMatches(outcome: AttemptOutcome, transition: StatusTransition)
  {
    match outcome
    case InvalidRequest =>
      && transition.from.Queued? && transition.to.Failed?
      && transition.reason.Some? && PreparationReason(transition.reason.value)
    case FailedBeforeSend =>
      transition.from.Sent? && transition.to.Failed? && transition.reason == Some(ProviderTransportError)
    case RejectedByProvider =>
      transition.from.Sent? && transition.to.Failed? && transition.reason == Some(ProviderRejectedRequest)
    case NotDispatched =>
      transition.from.Queued? && transition.to.Failed? && transition.reason == Some(DeviceNotOnline)
    case _ => false
  }

  /** The reason and the target status the worker derives from a DispatchResult; None is ErrRuntimeState. */
  function ResultTransition(result: DispatchResult): Option<(Option<Reason>, CommandStatus)>
  {
    match result.outcome
    case AcceptedByProvider => Some((None, Sent))
    case FailedBeforeSend => Some((Some(ProviderTransportError), Failed))
    case Indeterminate =>
      if result.reason == Some(ProviderDeliveryUnknown) || result.reason == Some(ProviderResponseInvalid)
      then Some((result.reason, Sent)) else None
    case RejectedByProvider => Some((Some(ProviderRejectedRequest), Failed))
    case _ => None
  }
}
