/**
 * One Webhook delivery and its Attempts (postgres_webhook_simulator.go): every repository
 * transaction as a function of the rows, the requests the worker builds (webhookworker/worker.go),
 * and what all of them keep. Instants and durations are microseconds.
 */
module WebhookDelivery {
  import opened Prelude

  type Token = nat
  type DeliveryId = nat

  const ATTEMPT_LIMIT: nat := 5
  const MICROSECOND: int := 1_000

  datatype Status = Pending | Sending | Failed | Delivered | Dead

  datatype Lease = Lease(token: Token, expiresAt: int)

  datatype Attempt = Attempt(
    attemptNo: nat, startedAt: int, completedAt: Option<int>, httpStatus: Option<int>, errorCode: Option<string>)

  datatype Delivery = Delivery(
    event: nat,
    origin: Option<DeliveryId>,
    status: Status,
    attemptCount: nat,
    nextAttemptAt: Option<int>,
    lease: Option<Lease>,
    lastError: Option<string>,
    deliveredAt: Option<int>,
    createdAt: int,
    updatedAt: int,
    attempts: seq<Attempt>)

  datatype CompleteRequest = CompleteRequest(
    attempt: nat, httpStatus: Option<int>, errorCode: Option<string>, retryDelay: int, maxAttempts: int)

  predicate ValidMaxAttempts(value: int)
  {
    1 <= value <= ATTEMPT_LIMIT
  }

  predicate ValidSchedule(maxAttempts: int, schedule: seq<int>)
  {
    && ValidMaxAttempts(maxAttempts)
    && |schedule| == maxAttempts - 1
    && forall i :: 0 <= i < |schedule| ==> schedule[i] >= 1
  }

  predicate Terminal(status: Status)
  {
    status.Delivered? || status.Dead?
  }

  predicate IsSuccess(httpStatus: Option<int>)
  {
    httpStatus.Some? && 200 <= httpStatus.value <= 299
  }

  // ------------------------------------------------------------- the transactions

  function NewDelivery(event: nat, origin: Option<DeliveryId>, now: int): Delivery
  {
    Delivery(event, origin, Pending, 0, Some(now), None, None, None, now, now, [])
  }

  predicate Due(d: Delivery, maxAttempts: int, now: int)
  {
    && (d.status.Pending? || d.status.Failed?)
    && d.nextAttemptAt.Some? && d.nextAttemptAt.value <= now
    && d.attemptCount < maxAttempts
    && d.lease.None?
  }

  /** Opens the next Attempt; its position is the second component. */
  function ClaimDue(d: Delivery, token: Token, lease: int, maxAttempts: int, now: int): (Delivery, Option<nat>)
  {
    if lease < MICROSECOND || !ValidMaxAttempts(maxAttempts) || !Due(d, maxAttempts, now) then (d, None)
    else
      var attempt := Attempt(d.attemptCount + 1, now, None, None, None);
      (d.(status := Sending, attemptCount := d.attemptCount + 1, nextAttemptAt := None,
          lease := Some(Lease(token, now + lease / MICROSECOND)), updatedAt := now, attempts := d.attempts + [attempt]),
       Some(|d.attempts|))
  }

  predicate Exhausted(d: Delivery, maxAttempts: int)
  {
    ValidMaxAttempts(maxAttempts) && d.status.Failed? && d.attemptCount >= maxAttempts && d.lease.None?
  }

  function ExhaustRetryBudget(d: Delivery, maxAttempts: int, now: int): (Delivery, bool)
  {
    if !Exhausted(d, maxAttempts) then (d, false)
    else (d.(status := Dead, nextAttemptAt := None, updatedAt := now), true)
  }

  /** The status an accepted completion leads to; None is a request the repository refuses. */
  function WebhookCompletion(attemptCount: nat, request: CompleteRequest): Option<Status>
  {
    if request.httpStatus.Some? && !(100 <= request.httpStatus.value <= 599) then None
    else if IsSuccess(request.httpStatus) then
      if request.errorCode.Some? || request.retryDelay != 0 then None else Some(Delivered)
    else if request.errorCode.None? || request.errorCode.value == "" then None
    else if attemptCount >= request.maxAttempts then if request.retryDelay != 0 then None else Some(Dead)
    else if request.retryDelay < 1 then None
    else Some(Failed)
  }

  function FinishDelivery(d: Delivery, status: Status, error: Option<string>, retryDelay: int, now: int): Delivery
    requires Terminal(status) || status.Failed?
  {
    d.(status := status,
       lastError := if status.Delivered? then None else error,
       nextAttemptAt := if status.Failed? then Some(now + retryDelay) else None,
       deliveredAt := if status.Delivered? then Some(now) else d.deliveredAt,
       lease := None, updatedAt := now)
  }

  function Completed(a: Attempt, httpStatus: Option<int>, errorCode: Option<string>, now: int): Attempt
  {
    a.(httpStatus := httpStatus, errorCode := errorCode, completedAt := Some(now))
  }

  function CompleteAttempt(d: Delivery, token: Token, request: CompleteRequest, now: int): (Delivery, bool)
  {
    var i := request.attempt;
    if i >= |d.attempts| then (d, false)
    else if !d.status.Sending? || d.lease.None? || d.lease.value.token != token || d.lease.value.expiresAt <= now
            || d.attempts[i].completedAt.Some? || d.attempts[i].attemptNo != d.attemptCount
            || !ValidMaxAttempts(request.maxAttempts) then (d, false)
    else
      match WebhookCompletion(d.attemptCount, request)
      case None => (d, false)
      case Some(status) =>
        var attempts := d.attempts[i := Completed(d.attempts[i], request.httpStatus, request.errorCode, now)];
        (FinishDelivery(d.(attempts := attempts), status, request.errorCode, request.retryDelay, now), true)
  }

  predicate Expired(d: Delivery, now: int)
  {
    && d.status.Sending? && d.lease.Some? && d.lease.value.expiresAt <= now
    && exists i :: 0 <= i < |d.attempts| && OpenAttempt(d, i)
  }

  predicate OpenAttempt(d: Delivery, i: nat)
    requires i < |d.attempts|
  {
    d.attempts[i].attemptNo == d.attemptCount && d.attempts[i].completedAt.None?
  }

  function FirstOpen(d: Delivery, from: nat): (i: nat)
    requires from <= |d.attempts|
    ensures from <= i <= |d.attempts|
    ensures i < |d.attempts| ==> OpenAttempt(d, i)
    ensures forall k :: from <= k < i ==> !OpenAttempt(d, k)
    decreases |d.attempts| - from
  {
    if from == |d.attempts| || OpenAttempt(d, from) then from else FirstOpen(d, from + 1)
  }

  function RecoverExpired(d: Delivery, errorCode: string, maxAttempts: int, schedule: seq<int>, now: int)
    : (Delivery, bool)
  {
    if errorCode == "" || !ValidSchedule(maxAttempts, schedule) || !Expired(d, now) || d.attemptCount == 0 then
      (d, false)
    else
      var i := FirstOpen(d, 0);
      var attempts := d.attempts[i := Completed(d.attempts[i], d.attempts[i].httpStatus, Some(errorCode), now)];
      var status := if d.attemptCount < maxAttempts then Failed else Dead;
      var retry := if d.attemptCount < maxAttempts then schedule[d.attemptCount - 1] else 0;
      (FinishDelivery(d.(attempts := attempts), status, Some(errorCode), retry, now), true)
  }

  // ------------------------------------------------------------------- the worker

  const DEFAULT_SCHEDULE: seq<int> := [1_000_000, 5_000_000, 30_000_000, 120_000_000]

  /** The lease is in nanoseconds, as it is configured; what the database stores of it is whole microseconds. */
  datatype Config = Config(maxAttempts: int, schedule: seq<int>, lease: int)

  /** What New accepts: a budget of at most five, no delay below its default, and any positive lease. */
  predicate ValidConfig(c: Config)
  {
    && ValidMaxAttempts(c.maxAttempts)
    && |c.schedule| == c.maxAttempts - 1
    && (forall i :: 0 <= i < |c.schedule| ==> c.schedule[i] >= DEFAULT_SCHEDULE[i])
    && c.lease > 0
  }

  /** How one delivery attempt ended for the worker. */
  datatype Answer = SecretUnavailable | InvalidTarget | TransportError | Response(status: int)

  function RetryDelay(c: Config, attemptCount: nat): int
    requires ValidConfig(c) && attemptCount >= 1
  {
    if attemptCount >= c.maxAttempts then 0 else c.schedule[attemptCount - 1]
  }

  /** The request for the Attempt at position `attempt`, whose claim made the count `attempt + 1`. */
  function RequestFor(c: Config, attempt: nat, answer: Answer): CompleteRequest
    requires ValidConfig(c)
  {
    var delay := RetryDelay(c, attempt + 1);
    match answer
    case Response(status) =>
      if 200 <= status <= 299 then CompleteRequest(attempt, Some(status), None, 0, c.maxAttempts)
      else CompleteRequest(attempt, Some(status), Some("http_error"), delay, c.maxAttempts)
    case SecretUnavailable => CompleteRequest(attempt, None, Some("secret_resolution_failed"), delay, c.maxAttempts)
    case InvalidTarget => CompleteRequest(attempt, None, Some("invalid_target"), delay, c.maxAttempts)
    case TransportError => CompleteRequest(attempt, None, Some("transport_error"), delay, c.maxAttempts)
  }

  /** The transactions of workers under any configurations. */
  datatype Op =
    | DoClaim(token: Token, config: Config, now: int)
    | DoAnswer(attempt: nat, token: Token, answer: Answer, config: Config, now: int)
    | DoRecover(config: Config, now: int)
    | DoExhaust(config: Config, now: int)

  /** The rows after a transaction, and whether it changed them; a worker exists only with a valid configuration. */
  function Transact(d: Delivery, op: Op): (Delivery, bool)
  {
    if !ValidConfig(op.config) then (d, false)
    else
      match op
      case DoClaim(token, c, now) =>
        var (claimed, attempt) := ClaimDue(d, token, c.lease, c.maxAttempts, now); (claimed, attempt.Some?)
      case DoAnswer(attempt, token, answer, c, now) => CompleteAttempt(d, token, RequestFor(c, attempt, answer), now)
      case DoRecover(c, now) => RecoverExpired(d, "worker_lease_expired", c.maxAttempts, c.schedule, now)
      case DoExhaust(c, now) => ExhaustRetryBudget(d, c.maxAttempts, now)
  }

  function Step(d: Delivery, op: Op): Delivery
  {
    Transact(d, op).0
  }

  // ---------------------------------------------------------------- the invariant

  ghost predicate AttemptsOk(d: Delivery)
  {
    && |d.attempts| == d.attemptCount <= ATTEMPT_LIMIT
    && (forall i :: 0 <= i < |d.attempts| ==> d.attempts[i].attemptNo == i + 1)
    && (forall i :: 0 <= i < |d.attempts| ==> (d.attempts[i].completedAt.None? <==>
                                               d.status.Sending? && i == |d.attempts| - 1))
    && (forall i :: 0 <= i < |d.attempts| && d.attempts[i].completedAt.Some? ==>
          (IsSuccess(d.attempts[i].httpStatus) <==> d.attempts[i].errorCode.None?))
    && (forall i :: 0 <= i < |d.attempts| && d.attempts[i].completedAt.None? ==> d.attempts[i].httpStatus.None?)
  }

  ghost predicate StatusOk(d: Delivery)
    requires AttemptsOk(d)
  {
    && (d.status.Sending? <==> d.lease.Some?)
    && (d.status.Pending? <==> d.attemptCount == 0)
    && (d.status.Failed? ==> d.attemptCount < ATTEMPT_LIMIT && d.lastError.Some?)
    && (d.nextAttemptAt.Some? <==> d.status.Pending? || d.status.Failed?)
    && (d.status.Delivered? <==> d.deliveredAt.Some?)
    && (d.status.Delivered? ==> d.lastError.None? && IsSuccess(d.attempts[|d.attempts| - 1].httpStatus))
    && (forall i :: 0 <= i < |d.attempts| && IsSuccess(d.attempts[i].httpStatus) ==>
        d.status.Delivered? && i == |d.attempts| - 1)
  }

  /** Attempt k + 1 starts no sooner after Attempt k ended than the default delay of that retry. */
  ghost predicate SpacingOk(d: Delivery)
    requires AttemptsOk(d) && StatusOk(d)
  {
    && (forall k :: 0 <= k < |d.attempts| - 1 ==>
          d.attempts[k].completedAt.Some?
          && d.attempts[k + 1].startedAt >= d.attempts[k].completedAt.value + DEFAULT_SCHEDULE[k])
    && (d.status.Failed? ==>
          d.nextAttemptAt.value >= d.attempts[|d.attempts| - 1].completedAt.value + DEFAULT_SCHEDULE[|d.attempts| - 1])
  }

  ghost predicate DeliveryOk(d: Delivery)
  {
    AttemptsOk(d) && StatusOk(d) && SpacingOk(d)
  }

  lemma NewDeliveryOk(event: nat, origin: Option<DeliveryId>, now: int)
    ensures DeliveryOk(NewDelivery(event, origin, now))
  {
  }

  lemma ClaimKeeps(d: Delivery, token: Token, lease: int, maxAttempts: int, now: int)
    requires DeliveryOk(d)
    ensures DeliveryOk(ClaimDue(d, token, lease, maxAttempts, now).0)
  {
  }

  /** The repository accepts every request a worker builds, except for an HTTP status outside 100 to 599. */
  lemma RequestsAreAccepted(c: Config, attempt: nat, answer: Answer)
    requires ValidConfig(c)
    ensures var status := WebhookCompletion(attempt + 1, RequestFor(c, attempt, answer));
            && (status.Some? <==> (answer.Response? ==> 100 <= answer.status <= 599))
            && (status.Some? ==>
                  status.value == if answer.Response? && 200 <= answer.status <= 299 then Delivered
                                  else if attempt + 1 < c.maxAttempts then Failed else Dead)
  {
  }

  /** A refused answer leaves the delivery as it was. */
  lemma RefusedAnswerChangesNothing(d: Delivery, attempt: nat, token: Token, status: int, c: Config, now: int)
    requires ValidConfig(c) && !(100 <= status <= 599) && DeliveryOk(d)
    ensures !Transact(d, DoAnswer(attempt, token, Response(status), c, now)).1
    ensures Step(d, DoAnswer(attempt, token, Response(status), c, now)) == d
  {
    RequestsAreAccepted(c, attempt, Response(status));
  }

  /** Only an accepted answer of the lease's holder, or else recovery, closes an open Attempt. */
  lemma OnlyAnswerOrRecoveryCloses(d: Delivery, op: Op)
    requires DeliveryOk(d) && d.status.Sending? && Transact(d, op).1
    ensures || (op.DoRecover? && d.lease.value.expiresAt <= op.now)
            || (op.DoAnswer? && op.token == d.lease.value.token && d.lease.value.expiresAt > op.now
                && (op.answer.Response? ==> 100 <= op.answer.status <= 599))
  {
    if op.DoAnswer? {
      RequestsAreAccepted(op.config, op.attempt, op.answer);
    }
  }

  const EXAMPLE_CONFIG: Config := Config(5, DEFAULT_SCHEDULE, 15_000_000_000)

  function ClaimedExample(): Delivery
  {
    Delivery(1, None, Sending, 1, None, Some(Lease(7, 15_000_000)), None, None, 0, 0, [Attempt(1, 0, None, None, None)])
  }

  lemma ClaimExample()
    ensures Step(NewDelivery(1, None, 0), DoClaim(7, EXAMPLE_CONFIG, 0)) == ClaimedExample()
    ensures DeliveryOk(ClaimedExample())
  {
    NewDeliveryOk(1, None, 0);
    ClaimKeeps(NewDelivery(1, None, 0), 7, EXAMPLE_CONFIG.lease, EXAMPLE_CONFIG.maxAttempts, 0);
  }

  /** Status 600: the answer to a claimed delivery is refused, and its Attempt stays open until recovery. */
  lemma RefusedStatusExample()
    ensures Step(ClaimedExample(), DoAnswer(0, 7, Response(600), EXAMPLE_CONFIG, 1)) == ClaimedExample()
    ensures Transact(ClaimedExample(), DoRecover(EXAMPLE_CONFIG, 15_000_000)).1
  {
    ClaimExample();
    RefusedAnswerChangesNothing(ClaimedExample(), 0, 7, 600, EXAMPLE_CONFIG, 1);
    ProgressPossible(ClaimedExample(), EXAMPLE_CONFIG, 8, 15_000_000);
  }

  lemma AnswerKeeps(d: Delivery, attempt: nat, token: Token, answer: Answer, c: Config, now: int)
    requires DeliveryOk(d) && ValidConfig(c)
    ensures DeliveryOk(CompleteAttempt(d, token, RequestFor(c, attempt, answer), now).0)
  {
    RequestsAreAccepted(c, attempt, answer);
    if answer.Response? && !(100 <= answer.status <= 599) {
      assert CompleteAttempt(d, token, RequestFor(c, attempt, answer), now).0 == d;
    }
  }

  lemma RecoverKeeps(d: Delivery, c: Config, now: int)
    requires DeliveryOk(d) && ValidConfig(c)
    ensures DeliveryOk(RecoverExpired(d, "worker_lease_expired", c.maxAttempts, c.schedule, now).0)
  {
  }

  lemma StepKeepsOk(d: Delivery, op: Op)
    requires DeliveryOk(d)
    ensures DeliveryOk(Step(d, op))
  {
    if ValidConfig(op.config) {
      match op
      case DoClaim(token, c, now) => ClaimKeeps(d, token, c.lease, c.maxAttempts, now);
      case DoAnswer(attempt, token, answer, c, now) => AnswerKeeps(d, attempt, token, answer, c, now);
      case DoRecover(c, now) => RecoverKeeps(d, c, now);
      case DoExhaust(c, now) =>
    }
  }

  // ---------------------------------------------------------------------- history

  /** What two successive states of a delivery have in common. */
  ghost predicate Advances(d: Delivery, d': Delivery)
  {
    && d'.event == d.event && d'.origin == d.origin && d'.createdAt == d.createdAt
    && |d.attempts| <= |d'.attempts|
    && (forall i :: 0 <= i < |d.attempts| ==>
          && d'.attempts[i].attemptNo == d.attempts[i].attemptNo && d'.attempts[i].startedAt == d.attempts[i].startedAt
          && (d.attempts[i].completedAt.Some? ==> d'.attempts[i] == d.attempts[i]))
    && (Terminal(d.status) ==> d' == d)
  }

  lemma StepAdvances(d: Delivery, op: Op)
    requires DeliveryOk(d)
    ensures Advances(d, Step(d, op))
  {
  }

  lemma AdvancesTransitive(d: Delivery, e: Delivery, f: Delivery)
    requires Advances(d, e) && Advances(e, f)
    ensures Advances(d, f)
  {
    forall i | 0 <= i < |d.attempts|
      ensures f.attempts[i].attemptNo == d.attempts[i].attemptNo && f.attempts[i].startedAt == d.attempts[i].startedAt
      ensures d.attempts[i].completedAt.Some? ==> f.attempts[i] == d.attempts[i]
    {
      assert e.attempts[i].startedAt == d.attempts[i].startedAt;
    }
  }

  function Run(d: Delivery, ops: seq<Op>): Delivery
    decreases |ops|
  {
    if ops == [] then d else Step(Run(d, ops[..|ops| - 1]), ops[|ops| - 1])
  }

  /** How far a delivery still can go: twice the budget left, plus what its status still owes. */
  function StepsLeft(d: Delivery): int
  {
    if Terminal(d.status) then 0
    else 2 * (ATTEMPT_LIMIT - d.attemptCount) + if d.status.Sending? then 2 else 1
  }

  lemma StepDecreases(d: Delivery, op: Op)
    requires DeliveryOk(d)
    ensures StepsLeft(d) >= 0
    ensures if Transact(d, op).1 then StepsLeft(Step(d, op)) < StepsLeft(d) else Step(d, op) == d
  {
    StepKeepsOk(d, op);
  }

  function Changes(d: Delivery, ops: seq<Op>): nat
    decreases |ops|
  {
    if ops == [] then 0
    else
      var init := ops[..|ops| - 1];
      Changes(d, init) + if Transact(Run(d, init), ops[|ops| - 1]).1 then 1 else 0
  }

  /**
   * Any history of any workers, with any configurations, clocks, crashes and recoveries: the
   * invariant holds, nothing that is final changes, and at most eleven transactions take effect.
   */
  lemma {:induction false} HistoryOk(d: Delivery, ops: seq<Op>)
    requires DeliveryOk(d)
    ensures DeliveryOk(Run(d, ops)) && Advances(d, Run(d, ops))
    ensures Changes(d, ops) + StepsLeft(Run(d, ops)) <= StepsLeft(d) <= 11
    decreases |ops|
  {
    if ops == [] {
    } else {
      var init, op := ops[..|ops| - 1], ops[|ops| - 1];
      HistoryOk(d, init);
      StepKeepsOk(Run(d, init), op);
      StepAdvances(Run(d, init), op);
      AdvancesTransitive(d, Run(d, init), Run(d, ops));
      StepDecreases(Run(d, init), op);
    }
  }

  /** The lease this worker asks for is one the repository grants. */
  predicate CanClaim(c: Config)
  {
    c.lease >= MICROSECOND
  }

  /**
   * A delivery that waits for nothing can take a step under a valid configuration, except that
   * a worker whose lease is below a microsecond, which New accepts, never claims anything.
   */
  lemma ProgressPossible(d: Delivery, c: Config, token: Token, now: int)
    requires DeliveryOk(d) && ValidConfig(c) && !Terminal(d.status)
    requires d.lease.Some? ==> d.lease.value.expiresAt <= now
    requires d.nextAttemptAt.Some? ==> d.nextAttemptAt.value <= now
    ensures Transact(d, DoRecover(c, now)).1 <==> d.status.Sending?
    ensures Transact(d, DoExhaust(c, now)).1 <==> d.status.Failed? && d.attemptCount >= c.maxAttempts
    ensures Transact(d, DoClaim(token, c, now)).1 <==>
              !d.status.Sending? && d.attemptCount < c.maxAttempts && CanClaim(c)
  {
    if d.status.Sending? {
      assert OpenAttempt(d, |d.attempts| - 1);
    }
  }

  /** The delay a worker asked for is the delay that is kept, to the microsecond. */
  lemma RetryIsSpaced(d: Delivery, attempt: nat, token: Token, answer: Answer, c: Config, now: int,
                      token': Token, c': Config, now': int)
    requires DeliveryOk(d) && ValidConfig(c)
    requires var failed := Step(d, DoAnswer(attempt, token, answer, c, now));
             failed.status.Failed? && failed != d && Transact(failed, DoClaim(token', c', now')).1
    ensures attempt < |c.schedule| && now' >= now + c.schedule[attempt]
  {
    RequestsAreAccepted(c, attempt, answer);
  }

  // ------------------------------------------------- what each transaction comes to

  /** The last Attempt is open, and the delivery is sent under that lease. */
  predicate SendsUnder(d: Delivery, attempt: nat, lease: Lease)
  {
    d.status == Sending && d.lease == Some(lease) && attempt + 1 == |d.attempts|
  }

  lemma ClaimEffect(d: Delivery, token: Token, c: Config, now: int)
    requires DeliveryOk(d) && ValidConfig(c)
    ensures var (d', done) := Transact(d, DoClaim(token, c, now));
            && (done <==>
                  && (d.status == Pending || d.status == Failed) && d.nextAttemptAt.value <= now
                  && d.attemptCount < c.maxAttempts && c.lease >= 1_000)
            && (done ==> ClaimedAs(d, d', token, c.lease, now))
            && (!done ==> d' == d)
  {
  }

  /** The lease ends after its whole microseconds, and a new Attempt is open. */
  predicate ClaimedAs(d: Delivery, d': Delivery, token: Token, lease: int, now: int)
  {
    && d'.lease.Some? && d'.lease.value.token == token
    && 1_000 * (d'.lease.value.expiresAt - now) <= lease < 1_000 * (d'.lease.value.expiresAt - now + 1)
    && d' == d.(status := Sending, attemptCount := |d.attempts| + 1, nextAttemptAt := None, lease := d'.lease,
                updatedAt := now, attempts := d.attempts + [Attempt(|d.attempts| + 1, now, None, None, None)])
  }

  /** The code stored for an answer that is no success. */
  function FailureCode(answer: Answer): string
  {
    match answer
    case SecretUnavailable => "secret_resolution_failed"
    case InvalidTarget => "invalid_target"
    case TransportError => "transport_error"
    case Response(_) => "http_error"
  }

  function StatusOf(answer: Answer): Option<int>
  {
    if answer.Response? then Some(answer.status) else None
  }

  predicate Succeeds(answer: Answer)
  {
    answer.Response? && 200 <= answer.status < 300
  }

  /** How a failed Attempt leaves the delivery: to be retried at an exact instant, or dead. */
  predicate FailedAs(d: Delivery, d': Delivery, attempt: nat, httpStatus: Option<int>, code: string, c: Config,
                     now: int)
    requires attempt < |d.attempts|
  {
    var retried := attempt + 1 < c.maxAttempts;
    && d'.attempts == d.attempts[attempt := Attempt(attempt + 1, d.attempts[attempt].startedAt, Some(now), httpStatus,
                                                    Some(code))]
    && (retried ==> attempt < |c.schedule| && d'.nextAttemptAt == Some(now + c.schedule[attempt]))
    && d' == d.(status := if retried then Failed else Dead,
                nextAttemptAt := if retried then d'.nextAttemptAt else None,
                lease := None, lastError := Some(code), updatedAt := now, attempts := d'.attempts)
  }

  predicate DeliveredAs(d: Delivery, d': Delivery, attempt: nat, httpStatus: int, now: int)
    requires attempt < |d.attempts|
  {
    d' == d.(status := Delivered, nextAttemptAt := None, lease := None, lastError := None, deliveredAt := Some(now),
             updatedAt := now,
             attempts := d.attempts[attempt := Attempt(attempt + 1, d.attempts[attempt].startedAt, Some(now),
                                                       Some(httpStatus), None)])
  }

  lemma AnswerEffect(d: Delivery, attempt: nat, token: Token, answer: Answer, c: Config, now: int)
    requires DeliveryOk(d) && ValidConfig(c)
    ensures var (d', done) := Transact(d, DoAnswer(attempt, token, answer, c, now));
            && (done <==>
                  && d.lease.Some? && d.lease.value.token == token && now < d.lease.value.expiresAt
                  && SendsUnder(d, attempt, d.lease.value)
                  && (answer.Response? ==> 100 <= answer.status <= 599))
            && (!done ==> d' == d)
            && (done && Succeeds(answer) ==> DeliveredAs(d, d', attempt, answer.status, now))
            && (done && !Succeeds(answer) ==>
                  FailedAs(d, d', attempt, StatusOf(answer), FailureCode(answer), c, now))
  {
    RequestsAreAccepted(c, attempt, answer);
  }

  lemma RecoverEffect(d: Delivery, c: Config, now: int)
    requires DeliveryOk(d) && ValidConfig(c)
    ensures var (d', done) := Transact(d, DoRecover(c, now));
            && (done <==> d.status == Sending && d.lease.value.expiresAt <= now)
            && (!done ==> d' == d)
            && (done ==> d.attempts != [] && FailedAs(d, d', |d.attempts| - 1, None, "worker_lease_expired", c, now))
  {
    if d.status.Sending? {
      assert OpenAttempt(d, |d.attempts| - 1);
    }
  }

  lemma ExhaustEffect(d: Delivery, c: Config, now: int)
    requires DeliveryOk(d) && ValidConfig(c)
    ensures var (d', done) := Transact(d, DoExhaust(c, now));
            && (done <==> d.status == Failed && d.attemptCount >= c.maxAttempts)
            && d' == if done then d.(status := Dead, nextAttemptAt := None, updatedAt := now) else d
  {
  }

  /** The delays between the Attempts: one, five, thirty and a hundred and twenty seconds. */
  lemma DefaultDelays()
    ensures |DEFAULT_SCHEDULE| == 4
    ensures DEFAULT_SCHEDULE[0] == 1_000_000 && DEFAULT_SCHEDULE[1] == 5_000_000
    ensures DEFAULT_SCHEDULE[2] == 30_000_000 && DEFAULT_SCHEDULE[3] == 120_000_000
  {
  }
}
