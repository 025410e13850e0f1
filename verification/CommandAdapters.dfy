/**
 * What a Provider adapter may hand to the worker, and that storing it composes: the Simulator
 * adapter (simulator/adapter.go), and the exact reason any outcome transaction can fail for.
 */
module CommandAdapters {
  import opened Prelude
  import opened Lifecycle
  import opened CommandRows
  import opened CommandGuards
  import opened CommandTransactions
  import opened CommandInvariant

  /** A value found in the summary that was stored when the Attempt was claimed. */
  datatype Value = Absent | Integer(n: int) | Fraction | Text(text: string)

  datatype SimulatorRequest = SimulatorRequest(
    profile: string, deviceId: string, requestKey: string, payload: nat, action: string,
    outcome: Value, delay: Value, version: Value)

  datatype SimulatorOutcome = Accept | Reject | FailBeforeSend | FailAfterSend | BadResponse

  datatype Prepared = Prepared(outcome: SimulatorOutcome, delay: nat, version: nat)

  datatype PrepareResult = Ready(prepared: Prepared) | Unprepared(reason: Reason)

  const MAX_DELAY: int := 60_000
  const INT64_MAX: int := 0x7fff_ffff_ffff_ffff

  function OutcomeNamed(name: string): Option<SimulatorOutcome>
  {
    match name
    case "provider_accepted" => Some(Accept)
    case "provider_rejected" => Some(Reject)
    case "transport_error_before_send" => Some(FailBeforeSend)
    case "transport_error_after_send" => Some(FailAfterSend)
    case "invalid_response" => Some(BadResponse)
    case _ => None
  }

  /** strconv.ParseInt in base 10 for 64 bits. */
  function ParseInt(s: string): Option<int>
  {
    var negative := |s| > 0 && s[0] == '-';
    var digits := if |s| > 0 && (s[0] == '-' || s[0] == '+') then s[1..] else s;
    if digits == "" || !Digits(digits) then None
    else
      var n := if negative then 0 - Decimal(digits) else Decimal(digits);
      if -INT64_MAX - 1 <= n <= INT64_MAX then Some(n) else None
  }

  /** Digits with or without a sign are read as the number they write, within 64 bits; nothing else is read. */
  lemma ParseIntMeaning(digits: string)
    requires digits != "" && Digits(digits)
    ensures ParseInt(digits) == if Decimal(digits) <= 9223372036854775807 then Some(Decimal(digits)) else None
    ensures ParseInt("+" + digits) == ParseInt(digits)
    ensures ParseInt("-" + digits) == if Decimal(digits) <= 9223372036854775808 then Some(0 - Decimal(digits)) else None
  {
    assert ("+" + digits)[1..] == digits && ("-" + digits)[1..] == digits;
  }

  lemma OnlyNumbersParse(s: string)
    requires ParseInt(s).Some?
    ensures s != "" && ((s != "" && Digits(s)) || (|s| > 1 && (s[0] == '-' || s[0] == '+') && Digits(s[1..])))
  {
  }

  function IntegerOf(value: Value): Option<int>
  {
    match value
    case Integer(n) => Some(n)
    case Text(text) => ParseInt(text)
    case _ => None
  }

  function ParseSnapshot(request: SimulatorRequest): Option<Prepared>
  {
    var outcome := if request.outcome.Text? then OutcomeNamed(request.outcome.text) else None;
    var delay, version := IntegerOf(request.delay), IntegerOf(request.version);
    if outcome.None? || delay.None? || !(0 <= delay.value <= MAX_DELAY) || version.None? || version.value < 1 then None
    else Some(Prepared(outcome.value, delay.value, version.value))
  }

  function Prepare(request: SimulatorRequest): PrepareResult
  {
    if request.profile != "simulator-v1" || Blank(request.deviceId) || Blank(request.requestKey)
       || |request.requestKey| > 128 || request.payload != 0 then Unprepared(ProviderRequestInvalid)
    else if request.action !in {"unlock", "lock", "query_status"} then Unprepared(ProviderActionUnsupported)
    else
      match ParseSnapshot(request)
      case None => Unprepared(ProviderRequestInvalid)
      case Some(prepared) => Ready(prepared)
  }

  /** `cancelled` says whether the dispatch context ended before the configured delay did. */
  function Dispatch(prepared: Prepared, cancelled: bool): DispatchResult
  {
    if prepared.delay > 0 && cancelled then
      SimulatorResult(Indeterminate, TransportSent, Verified, prepared.outcome, true)
    else
      match prepared.outcome
      case Accept => SimulatorResult(AcceptedByProvider, ProviderAccepted, Verified, prepared.outcome, false)
      case Reject => SimulatorResult(RejectedByProvider, TransportSent, Verified, prepared.outcome, false)
      case FailBeforeSend => SimulatorResult(FailedBeforeSend, Unconfirmed, NoEvidence, prepared.outcome, false)
      case FailAfterSend => SimulatorResult(Indeterminate, TransportSent, Verified, prepared.outcome, false)
      case BadResponse => SimulatorResult(Indeterminate, TransportSent, Verified, prepared.outcome, false)
  }

  function SimulatorResult(outcome: AttemptOutcome, confirmation: Confirmation, evidence: Evidence,
                           configured: SimulatorOutcome, timedOut: bool): DispatchResult
  {
    var reason :=
      if !outcome.Indeterminate? then None
      else if !timedOut && configured.BadResponse? then Some(ProviderResponseInvalid)
      else Some(ProviderDeliveryUnknown);
    DispatchResult(outcome, confirmation, evidence, reason)
  }

  /** The worker derives a transition from the result, and the repository accepts its completion. */
  predicate Persistable(provider: Provider, result: DispatchResult)
  {
    ResultTransition(result).Some? && AttemptCompletionAllowed(provider, Dispatching, CompletionOf(result))
  }

  /** Whatever the Simulator was configured to do and however long it took, its result can be stored. */
  lemma SimulatorResultsPersist(request: SimulatorRequest, cancelled: bool)
    ensures match Prepare(request)
            case Ready(prepared) =>
              && Persistable(Simulator, Dispatch(prepared, cancelled))
              && (prepared.delay == 0 ==> Dispatch(prepared, cancelled) == Dispatch(prepared, false))
              && (!cancelled || prepared.delay == 0 ==>
                    (Dispatch(prepared, cancelled).outcome.AcceptedByProvider? <==> prepared.outcome.Accept?))
            case Unprepared(reason) => PreparationReason(reason)
  {
  }

  /** What the Simulator answers to each setting, and that a delay cut short means an unknown delivery. */
  lemma SimulatorAnswers(prepared: Prepared, cancelled: bool)
    ensures Dispatch(prepared, cancelled)
            == if cancelled && prepared.delay > 0 then
                 DispatchResult(Indeterminate, TransportSent, Verified, Some(ProviderDeliveryUnknown))
               else if prepared.outcome == Accept then
                 DispatchResult(AcceptedByProvider, ProviderAccepted, Verified, None)
               else if prepared.outcome == Reject then
                 DispatchResult(RejectedByProvider, TransportSent, Verified, None)
               else if prepared.outcome == FailBeforeSend then
                 DispatchResult(FailedBeforeSend, Unconfirmed, NoEvidence, None)
               else
                 DispatchResult(Indeterminate, TransportSent, Verified,
                                Some(if prepared.outcome == BadResponse then ProviderResponseInvalid
                                     else ProviderDeliveryUnknown))
  {
  }

  /** When the Simulator is prepared, and with what. */
  lemma SimulatorPrepares(request: SimulatorRequest)
    ensures Prepare(request).Ready? <==>
              && request.profile == "simulator-v1" && request.payload == 0
              && !Blank(request.deviceId) && !Blank(request.requestKey) && |request.requestKey| <= 128
              && (request.action == "unlock" || request.action == "lock" || request.action == "query_status")
              && request.outcome.Text?
              && request.outcome.text in {"provider_accepted", "provider_rejected", "transport_error_before_send",
                                          "transport_error_after_send", "invalid_response"}
              && IntegerOf(request.delay).Some? && 0 <= IntegerOf(request.delay).value <= 60_000
              && IntegerOf(request.version).Some? && IntegerOf(request.version).value >= 1
    ensures match Prepare(request)
            case Ready(prepared) =>
              && Some(prepared.delay as int) == IntegerOf(request.delay)
              && Some(prepared.version as int) == IntegerOf(request.version)
              && (prepared.outcome == Accept <==> request.outcome == Text("provider_accepted"))
              && (prepared.outcome == Reject <==> request.outcome == Text("provider_rejected"))
              && (prepared.outcome == FailBeforeSend <==> request.outcome == Text("transport_error_before_send"))
              && (prepared.outcome == FailAfterSend <==> request.outcome == Text("transport_error_after_send"))
            case Unprepared(reason) =>
              reason == ProviderActionUnsupported <==>
                && request.profile == "simulator-v1" && request.payload == 0
                && !Blank(request.deviceId) && !Blank(request.requestKey) && |request.requestKey| <= 128
                && request.action != "unlock" && request.action != "lock" && request.action != "query_status"
  {
  }

  /** What has to hold of the rows for a worker's outcome to be stored. */
  predicate HoldsLease(c: Cell, i: nat, token: Token, phase: AttemptPhase, status: CommandStatus, now: int)
  {
    && i < |c.attempts| && c.attempts[i].phase == phase && c.attempts[i].leaseToken == token
    && LeaseValid(c.attempts[i], now) && c.command.status == status
  }

  /**
   * Storing a result its own adapter may return fails for one reason only: the worker lost its
   * lease, or the Command left `sent`. In particular once CompleteAttempt accepts it, the
   * evidence update or transition that follows in the same transaction succeeds too.
   */
  lemma PersistFailsOnlyOnLostLease(c: Cell, i: nat, token: Token, result: DispatchResult, now: int)
    requires RowsOk(c) && Persistable(c.command.provider, result)
    ensures PersistResult(c, i, token, result, now).Commit? <==> HoldsLease(c, i, token, Dispatching, Sent, now)
    ensures PersistResult(c, i, token, result, now).Rollback? ==>
              PersistResult(c, i, token, result, now) == Rollback(LeaseLost)
  {
    if CompleteAttempt(c, i, token, CompletionOf(result), now).1 {
      PersistClosedForm(c, i, token, result, now);
    }
  }

  /** Likewise for a failure before dispatch: it fails only when the claim or the queued status was lost. */
  lemma FailBeforeFailsOnlyOnLostLease(c: Cell, i: nat, token: Token, reason: Reason, now: int)
    requires RowsOk(c) && PreparationReason(reason)
    ensures FailBeforeDispatch(c, i, token, reason, now).Commit? <==> HoldsLease(c, i, token, Claimed, Queued, now)
    ensures FailBeforeDispatch(c, i, token, reason, now).Rollback? ==>
              FailBeforeDispatch(c, i, token, reason, now) == Rollback(LeaseLost)
  {
    if CompleteAttempt(c, i, token, Completion(InvalidRequest, Unconfirmed, NoEvidence, Some(reason)), now).1 {
      FailClaimedClosedForm(c, i, token, InvalidRequest, reason, now);
    }
  }

  /** And for the commitment: it commits, dispatching or refusing an offline Device, exactly while the claim is held. */
  lemma CommitFailsOnlyOnLostLease(c: Cell, i: nat, token: Token, deviceOnline: bool, lease: int, now: int)
    requires RowsOk(c) && lease >= 1 && c.command.policy.resultTimeout >= 1
    ensures var r := CommitDispatch(c, i, token, deviceOnline, lease, now);
            && (r.Commit? <==> HoldsLease(c, i, token, Claimed, Queued, now))
            && (r.Commit? ==> (r.dispatched <==> !c.command.policy.onlineOnly || deviceOnline))
            && (r.Rollback? ==> r == Rollback(LeaseLost))
  {
    if CompleteAttempt(c, i, token, Completion(NotDispatched, Unconfirmed, NoEvidence, Some(DeviceNotOnline)), now).1 {
      FailClaimedClosedForm(c, i, token, NotDispatched, DeviceNotOnline, now);
    }
  }
}
