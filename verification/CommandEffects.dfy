/**
 * What every transaction does to reachable rows, said column by column: exactly when it commits,
 * and what it leaves. Nothing here refers to how the transaction is composed.
 */
module CommandEffects {
  import opened Prelude
  import opened Lifecycle
  import opened CommandRows
  import opened CommandGuards
  import opened CommandTransactions
  import opened CommandInvariant

  predicate HasOne(c: Cell, i: nat, phase: AttemptPhase)
  {
    i == 0 && |c.attempts| == 1 && c.attempts[0].phase == phase
  }

  /** No open Attempt, or a claim whose lease is over. */
  predicate Unclaimed(c: Cell, now: int)
  {
    c.attempts == [] || (HasOne(c, 0, Claimed) && c.attempts[0].leaseExpiresAt <= now)
  }

  /** The worker holds the Attempt in that phase, under that token and in time. */
  predicate Held(c: Cell, i: nat, phase: AttemptPhase, token: Token, now: int)
  {
    HasOne(c, i, phase) && c.attempts[0].leaseToken == token && now < c.attempts[0].leaseExpiresAt
  }

  /** An Attempt as it is completed. */
  function Closed(a: Attempt, outcome: AttemptOutcome, confirmation: Confirmation, evidence: Evidence,
                  reason: Option<Reason>, now: int): Attempt
  {
    Attempt(a.attemptNo, Completed, a.provider, a.requestKey, Some(outcome), confirmation, evidence, reason,
            a.leaseToken, a.leaseExpiresAt, a.claimedAt, a.dispatchingAt, Some(now))
  }

  // ------------------------------------------------------------------- the claims

  /** What a claim may take, row by row. */
  predicate MayClaim(c: Cell, provider: Provider, now: int)
  {
    && c.command.status == Queued && now < c.command.dispatchDeadlineAt && c.command.provider == provider
    && forall a :: a in c.attempts ==> a.phase == Completed || (a.phase == Claimed && a.leaseExpiresAt <= now)
  }

  lemma ClaimableIff(c: Cell, provider: Provider, now: int)
    ensures Claimable(c, provider, now) <==> MayClaim(c, provider, now)
  {
    if Claimable(c, provider, now) {
      forall a | a in c.attempts
        ensures a.phase == Completed || (a.phase == Claimed && a.leaseExpiresAt <= now)
      {
        var i :| 0 <= i < |c.attempts| && c.attempts[i] == a;
      }
    }
  }

  /** A lease ends after its duration, but never later than the dispatch deadline. */
  predicate ClaimLease(a: Attempt, command: Command, lease: int, now: int)
  {
    && (a.leaseExpiresAt == now + lease || a.leaseExpiresAt == command.dispatchDeadlineAt)
    && a.leaseExpiresAt <= now + lease && a.leaseExpiresAt <= command.dispatchDeadlineAt
  }

  /** A takeover changes the token and the end of the lease, and nothing else. */
  predicate TakenOver(a: Attempt, a': Attempt, token: Token)
  {
    && a'.leaseToken == token && a'.phase == a.phase == Claimed
    && a' == a.(leaseToken := a'.leaseToken, leaseExpiresAt := a'.leaseExpiresAt)
  }

  predicate Opened(a': Attempt, provider: Provider, token: Token, requestKey: nat, now: int)
  {
    a' == Attempt(a'.attemptNo, Claimed, provider, requestKey, None, Unconfirmed, NoEvidence, None, token,
                  a'.leaseExpiresAt, now, None, None)
  }

  /** The number after the greatest one stored. */
  predicate IsNextNo(n: nat, attempts: seq<Attempt>)
  {
    && n >= 1 && (forall a :: a in attempts ==> a.attemptNo < n)
    && (n == 1 || exists a :: a in attempts && a.attemptNo == n - 1)
  }

  /** What a claim leaves: the Attempt at position `i`, taken over or new, under the offered token. */
  predicate ClaimedAs(c: Cell, c': Cell, i: nat, provider: Provider, token: Token, requestKey: nat, lease: int,
                      now: int)
  {
    && i < |c'.attempts| && c' == c.(attempts := c'.attempts)
    && ClaimLease(c'.attempts[i], c.command, lease, now)
    && if i < |c.attempts| then
         && c.attempts[i].leaseExpiresAt <= now && c.attempts[i].leaseToken != token
         && TakenOver(c.attempts[i], c'.attempts[i], token)
         && c'.attempts == c.attempts[i := c'.attempts[i]]
       else
         && Opened(c'.attempts[i], provider, token, requestKey, now) && IsNextNo(c'.attempts[i].attemptNo, c.attempts)
         && (forall a :: a in c.attempts ==> a.phase == Completed)
         && c'.attempts == c.attempts + [c'.attempts[i]]
  }

  lemma {:induction false} NextNoIsNext(attempts: seq<Attempt>)
    ensures IsNextNo(NextAttemptNo(attempts), attempts)
  {
    if attempts == [] {
    } else {
      var init, last := attempts[..|attempts| - 1], attempts[|attempts| - 1];
      NextNoIsNext(init);
      assert attempts == init + [last];
    }
  }

  lemma ClaimEffect(c: Cell, provider: Provider, token: Token, requestKey: nat, lease: int, now: int)
    ensures var (c', i) := ClaimNext(c, provider, token, requestKey, lease, now);
            && (i.None? ==> c' == c)
            && (i.Some? ==>
                  lease >= 1 && MayClaim(c, provider, now)
                  && ClaimedAs(c, c', i.value, provider, token, requestKey, lease, now))
            && (lease >= 1 && MayClaim(c, provider, now) && i.None? ==>
                exists a :: a in c.attempts && a.leaseToken == token)
  {
    ClaimableIff(c, provider, now);
    NextNoIsNext(c.attempts);
    if Incomplete(c.attempts).Some? {
      assert c.attempts[Incomplete(c.attempts).value] in c.attempts;
    } else {
      forall a | a in c.attempts
        ensures a.phase == Completed
      {
        var i :| 0 <= i < |c.attempts| && c.attempts[i] == a;
      }
    }
  }

  lemma ReclaimEffect(c: Cell, i: nat, expired: Token, token: Token, lease: int, now: int)
    ensures var (c', ok) := ReclaimAttempt(c, i, expired, token, lease, now);
            && (ok <==>
                  && lease >= 1 && token != expired && i < |c.attempts|
                  && c.command.status == Queued && now < c.command.dispatchDeadlineAt && c.attempts[i].phase == Claimed
                  && c.attempts[i].leaseToken == expired && c.attempts[i].leaseExpiresAt <= now)
            && (if ok then
                  && i < |c'.attempts| && TakenOver(c.attempts[i], c'.attempts[i], token)
                  && ClaimLease(c'.attempts[i], c.command, lease, now)
                  && c' == c.(attempts := c.attempts[i := c'.attempts[i]])
                else c' == c)
  {
  }

  /** Marking grants a lease of its own, which no dispatch deadline cuts. */
  lemma MarkEffect(c: Cell, i: nat, token: Token, resultTimeout: int, lease: int, now: int)
    ensures var (c', ok) := MarkDispatching(c, i, token, resultTimeout, lease, now);
            && (ok <==>
                  && resultTimeout >= 1 && lease >= 1 && i < |c.attempts|
                  && c.command.status == Queued && now < c.command.dispatchDeadlineAt && c.attempts[i].phase == Claimed
                  && c.attempts[i].leaseToken == token && now < c.attempts[i].leaseExpiresAt)
            && (if ok then MarkedAs(c, c', i, resultTimeout, lease, now) else c' == c)
  {
  }

  predicate MarkedAs(c: Cell, c': Cell, i: nat, resultTimeout: int, lease: int, now: int)
    requires i < |c.attempts|
  {
    && c'.results == c.results && c'.events == c.events && |c'.attempts| == |c.attempts|
    && c'.attempts[i] == c.attempts[i].(phase := Dispatching, leaseExpiresAt := now + lease, dispatchingAt := Some(now))
    && (forall k :: 0 <= k < |c.attempts| && k != i ==> c'.attempts[k] == c.attempts[k])
    && c'.command == c.command.(status := Sent, sentAt := Some(now), resultDeadlineAt := Some(now + resultTimeout),
                                updatedAt := now)
  }

  // ------------------------------------------------------- the worker's transactions

  /** How a Command ends that was never dispatched. */
  predicate EndedBefore(c: Cell, c': Cell, status: CommandStatus, outcome: AttemptOutcome, reason: Reason, now: int)
  {
    && c'.results == c.results
    && c'.attempts == (if c.attempts == [] then []
                       else [Closed(c.attempts[0], outcome, Unconfirmed, NoEvidence, Some(reason), now)])
    && c'.command == c.command.(status := status, reason := Some(reason), confirmation := Unconfirmed,
                                evidence := NoEvidence, finishedAt := Some(now), updatedAt := now)
  }

  /** The five reasons an adapter may refuse a request for. */
  lemma PreparationReasons(reason: Reason)
    ensures PreparationReason(reason)
            <==> reason in {ProviderNotConfigured, ProviderActionUnsupported, ProviderMappingUnknown,
                            ProviderSessionUnavailable, ProviderRequestInvalid}
  {
  }

  lemma FailBeforeEffect(c: Cell, i: nat, token: Token, reason: Reason, now: int)
    requires RowsOk(c)
    ensures var r := FailBeforeDispatch(c, i, token, reason, now);
            && (r.Commit? <==>
                  PreparationReason(reason) && c.command.status == Queued && Held(c, i, Claimed, token, now))
            && (r.Commit? ==> !r.dispatched && EndedBefore(c, r.cell, Failed, InvalidRequest, reason, now))
  {
    if CompleteAttempt(c, i, token, Completion(InvalidRequest, Unconfirmed, NoEvidence, Some(reason)), now).1 {
      FailClaimedClosedForm(c, i, token, InvalidRequest, reason, now);
    }
  }

  lemma CommitEffect(c: Cell, i: nat, token: Token, deviceOnline: bool, lease: int, now: int)
    requires RowsOk(c) && lease >= 1 && c.command.policy.resultTimeout >= 1
    ensures var r := CommitDispatch(c, i, token, deviceOnline, lease, now);
            && (r.Commit? <==> c.command.status == Queued && Held(c, i, Claimed, token, now))
            && (r.Commit? && c.command.policy.onlineOnly && !deviceOnline ==>
                  !r.dispatched && EndedBefore(c, r.cell, Failed, NotDispatched, DeviceNotOnline, now))
            && (r.Commit? && (deviceOnline || !c.command.policy.onlineOnly) ==>
                  && r.dispatched
                  && MarkedAs(c, r.cell.(events := c.events), 0, c.command.policy.resultTimeout, lease, now))
  {
    if CompleteAttempt(c, i, token, Completion(NotDispatched, Unconfirmed, NoEvidence, Some(DeviceNotOnline)), now).1 {
      FailClaimedClosedForm(c, i, token, NotDispatched, DeviceNotOnline, now);
    }
  }

  /** The answers a Provider's adapter may give: only the Simulator's acceptance and refusal are verified. */
  predicate Storable(provider: Provider, r: DispatchResult)
  {
    match r.outcome
    case FailedBeforeSend => r.confirmation == Unconfirmed && r.evidence == NoEvidence
    case Indeterminate =>
      && r.confirmation == TransportSent && r.evidence == Verified
      && (r.reason == Some(ProviderDeliveryUnknown) || (provider != Omni && r.reason == Some(ProviderResponseInvalid)))
    case RejectedByProvider =>
      provider != Omni && r.confirmation == TransportSent && r.evidence == AnswerEvidence(provider)
    case AcceptedByProvider =>
      provider != Omni && r.confirmation == ProviderAccepted && r.evidence == AnswerEvidence(provider)
    case _ => false
  }

  function AnswerEvidence(provider: Provider): Evidence
  {
    if provider == Simulator then Verified else Unverified
  }

  function StoredReason(r: DispatchResult): Option<Reason>
  {
    match r.outcome
    case FailedBeforeSend => Some(ProviderTransportError)
    case RejectedByProvider => Some(ProviderRejectedRequest)
    case Indeterminate => r.reason
    case _ => None
  }

  lemma StorableIff(provider: Provider, r: DispatchResult)
    ensures Storable(provider, r)
            <==> ResultTransition(r).Some? && AttemptCompletionAllowed(provider, Dispatching, CompletionOf(r))
    ensures Storable(provider, r) ==>
              CompletionOf(r) == Completion(r.outcome, r.confirmation, r.evidence, StoredReason(r))
  {
  }

  lemma PersistEffect(c: Cell, i: nat, token: Token, result: DispatchResult, now: int)
    requires RowsOk(c)
    ensures var r := PersistResult(c, i, token, result, now);
            && (r.Commit? <==>
                  && Storable(c.command.provider, result) && c.command.status == Sent
                  && Held(c, i, Dispatching, token, now))
            && (r.Commit? ==> !r.dispatched && AnsweredAs(c, r.cell, result, now))
  {
    StorableIff(c.command.provider, result);
    if ResultTransition(result).Some? && CompleteAttempt(c, i, token, CompletionOf(result), now).1 {
      PersistClosedForm(c, i, token, result, now);
    }
  }

  /** What storing an answer leaves: an acceptance or an unknown delivery keeps the Command waiting. */
  predicate AnsweredAs(c: Cell, c': Cell, result: DispatchResult, now: int)
    requires |c.attempts| == 1
  {
    && c'.results == c.results
    && c'.attempts == [Closed(c.attempts[0], result.outcome, result.confirmation, result.evidence,
                              StoredReason(result), now)]
    && c'.command
       == if result.outcome == AcceptedByProvider || result.outcome == Indeterminate then
            c.command.(confirmation := result.confirmation, evidence := result.evidence, updatedAt := now)
          else
            c.command.(status := Failed, reason := StoredReason(result), confirmation := result.confirmation,
                       evidence := result.evidence, finishedAt := Some(now), updatedAt := now)
  }

  // ------------------------------------------------------------------- maintenance

  lemma RecoverEffect(c: Cell, now: int)
    requires RowsOk(c)
    ensures var r := RecoverNext(c, now);
            && (r.Commit? <==>
                  c.command.status == Sent && HasOne(c, 0, Dispatching) && c.attempts[0].leaseExpiresAt <= now)
            && (r.Commit? ==>
                  && !r.dispatched && r.cell.results == c.results
                  && r.cell.attempts == [Closed(c.attempts[0], Indeterminate, TransportSent, Unverified,
                                                Some(ProviderDeliveryUnknown), now)]
                  && r.cell.command == c.command.(confirmation := TransportSent, evidence := Unverified,
                                                  updatedAt := now))
  {
  }

  lemma ExpireQueuedEffect(c: Cell, now: int)
    requires RowsOk(c)
    ensures var r := ExpireNextQueued(c, now);
            && (r.Commit? <==>
                  c.command.status == Queued && c.command.dispatchDeadlineAt <= now && Unclaimed(c, now))
            && (r.Commit? ==>
                  !r.dispatched && EndedBefore(c, r.cell, Timeout, NotDispatched, DispatchDeadlineExceeded, now))
  {
  }

  lemma CancelEffect(c: Cell, now: int)
    requires RowsOk(c)
    ensures var r := Cancel(c, now);
            && (r.Commit? <==> c.command.status == Queued && Unclaimed(c, now))
            && (r.Rollback? ==> r.error == NotCancellable)
            && (r.Commit? ==>
                  !r.dispatched && EndedBefore(c, r.cell, Cancelled, NotDispatched, CancelledByRequest, now))
  {
  }

  lemma ExpireObservationEffect(c: Cell, now: int)
    requires RowsOk(c)
    ensures var r := ExpireNextResultObservation(c, now);
            && (r.Commit? <==>
                  && (c.command.status == Sent || c.command.status == Acked) && HasOne(c, 0, Completed)
                  && c.command.resultDeadlineAt.Some? && c.command.resultDeadlineAt.value <= now)
            && (r.Commit? ==>
                  && !r.dispatched && r.cell.results == c.results && r.cell.attempts == c.attempts
                  && r.cell.command == c.command.(status := Timeout, reason := Some(ResultObservationTimeout),
                                                  finishedAt := Some(now), updatedAt := now))
  {
  }

  // ------------------------------------------------------------------ from outside

  /** A stored inbound Simulator message that answers the Attempt's own request, from the Device as bound. */
  predicate Confirms(m: RawMessage, c: Cell, request: VerifiedUpdate)
    requires |c.attempts| == 1
  {
    && m == RawMessage(c.attempts[0].requestKey, c.command.request.device, Simulator, request.binding.providerDevice,
                       true)
    && request.messageKey == c.attempts[0].requestKey && request.binding.provider == Simulator
  }

  lemma VerifyEffect(c: Cell, i: nat, request: VerifiedUpdate, now: int)
    requires RowsOk(c)
    ensures var (c', ok) := UpdateProviderAcceptance(c, i, request, now);
            && (ok <==>
                  && c.command.status == Sent == request.expected && HasOne(c, i, Completed)
                  && c.command.provider == Simulator
                  && c.attempts[0].outcome == Some(AcceptedByProvider) == Some(request.outcome)
                  && c.attempts[0].confirmation == ProviderAccepted && c.attempts[0].evidence == Unverified
                  && request.message.Some? && Confirms(request.message.value, c, request))
            && (if ok then
                  && c'.results == c.results && c'.events == c.events
                  && c'.attempts == [c.attempts[0].(evidence := Verified)]
                  && c'.command == c.command.(evidence := Verified, updatedAt := now)
                else c' == c)
  {
  }

  /** A report is wellformed: a key of up to 256 characters, a machine source, not reported after it was observed. */
  predicate Wellformed(report: ResultReport, clock: int)
  {
    && report.deduplicationKey != "" && |report.deduplicationKey| <= 256
    && report.source in {ProviderCallback, SimulatorSource, System}
    && (report.reportedAt.Some? ==> report.reportedAt.value <= SeenAt(report, clock))
  }

  function SeenAt(report: ResultReport, clock: int): int
  {
    match report.observedAt
    case Some(t) => t
    case None => clock
  }

  predicate Ended(status: CommandStatus)
  {
    status in {Success, Failed, Timeout, Cancelled}
  }

  /** Where a Result takes a Command that has not ended. */
  function Reported(outcome: ResultOutcome): (CommandStatus, Confirmation, Option<Reason>)
  {
    match outcome
    case AckReported => (Acked, DeviceAcked, None)
    case SuccessReported => (Success, DeviceFinal, None)
    case FailureReported => (Failed, DeviceFinal, Some(DeviceReportedFailure))
  }

  /**
   * A Result is accepted exactly from `sent`, from `acked` unless it is a second acknowledgement,
   * and after the end; there it may only raise the confirmation.
   */
  lemma RecordEffect(c: Cell, report: ResultReport, clock: int)
    requires RowsOk(c)
    ensures var r := RecordNew(c, report, clock);
            && (r.Commit? <==>
                  && Wellformed(report, clock)
                  && (c.command.status == Sent || (c.command.status == Acked && report.outcome != AckReported)
                      || Ended(c.command.status)))
            && (r.Rollback? ==> r.error == RequestInvalid)
            && (r.Commit? ==> !r.dispatched && RecordedAs(c, r.cell, report, clock))
  {
  }

  predicate RecordedAs(c: Cell, c': Cell, report: ResultReport, clock: int)
  {
    var (status, confirmation, reason) := Reported(report.outcome);
    && c'.attempts == c.attempts
    && c'.results == c.results + [CommandResult(report.attempt, report.source, report.outcome, confirmation, Verified,
                                                report.deduplicationKey, report.reportedAt, SeenAt(report, clock),
                                                Ended(c.command.status), report.payload)]
    && c'.command
       == if !Ended(c.command.status) then
            c.command.(status := status, confirmation := confirmation, evidence := Verified, reason := reason,
                       finishedAt := if status == Acked then None else Some(SeenAt(report, clock)),
                       updatedAt := SeenAt(report, clock))
          else if c.command.confirmation in {DeviceFinal, confirmation} then c.command
          else c.command.(confirmation := confirmation, evidence := Verified, updatedAt := SeenAt(report, clock))
  }

  /** A new Command waits, with nothing confirmed, for as long as its policy lets it. */
  lemma CreatedRow(project: nat, key: string, request: Request, provider: Provider, policy: Policy, now: int)
    ensures var c := NewCell(project, key, request, provider, policy, now);
            && RowsOk(c) && c.attempts == [] && c.results == [] && c.events == [CommandCreated(Queued)]
            && c.command == Command(project, key, request, provider, policy, Queued, None, Unconfirmed, NoEvidence, now,
                                    now + policy.dispatchDeadline, None, None, None, now)
  {
  }
}
