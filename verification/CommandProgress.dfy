/**
 * Whether maintenance ends every Command: past its deadlines, a non-terminal Command has a
 * maintenance step enabled unless a Result was accepted while its Attempt was dispatching.
 */
module CommandProgress {
  import opened Prelude
  import opened Lifecycle
  import opened CommandRows
  import opened CommandGuards
  import opened CommandTransactions
  import opened CommandInvariant
  import CommandHistory
  import opened CommandSchema

  /** Every deadline the rows carry has passed, and no incomplete Attempt holds a valid lease. */
  predicate PastDeadlines(c: Cell, now: int)
  {
    && c.command.dispatchDeadlineAt <= now
    && (c.command.resultDeadlineAt.Some? ==> c.command.resultDeadlineAt.value <= now)
    && forall i :: 0 <= i < |c.attempts| && !c.attempts[i].phase.Completed? ==> !LeaseValid(c.attempts[i], now)
  }

  predicate MaintenanceEnabled(c: Cell, now: int)
  {
    RecoverNext(c, now).Commit? || ExpireNextQueued(c, now).Commit? || ExpireNextResultObservation(c, now).Commit?
  }

  predicate Dispatching1(c: Cell)
  {
    |c.attempts| == 1 && c.attempts[0].phase.Dispatching?
  }

  /** The Attempt still dispatches although the Command has left `sent`. */
  predicate Stranded(c: Cell)
  {
    Dispatching1(c) && !c.command.status.Sent?
  }

  /** Exactly the Commands that are not stranded can make progress once their deadlines have passed. */
  lemma ProgressUnlessStranded(c: Cell, now: int)
    requires RowsOk(c)
    requires !IsTerminal(c.command.status) && PastDeadlines(c, now)
    ensures MaintenanceEnabled(c, now) <==> !Stranded(c)
  {
  }

  lemma RecordStrands(c: Cell, report: ResultReport, now: int)
    requires RowsOk(c) && !Stranded(c)
    ensures Stranded(Step(c, DoRecord(report, now))) <==> Dispatching1(c) && RecordNew(c, report, now).Commit?
  {
  }

  /** What a worker commits never strands the Command. */
  lemma WorkerStrandsNothing(c: Cell, op: CellOp)
    requires RowsOk(c) && !Stranded(c)
    requires op.DoPersist? || op.DoFailBefore? || op.DoCommitDispatch?
    ensures !Stranded(Step(c, op))
  {
    match op
    case DoPersist(attempt, token, result, now) =>
      if PersistResult(c, attempt, token, result, now).Commit? {
        CompletionOfSent(c, attempt, token, CompletionOf(result), now);
        PersistClosedForm(c, attempt, token, result, now);
      }
    case DoFailBefore(attempt, token, reason, now) =>
      if FailBeforeDispatch(c, attempt, token, reason, now).Commit? {
        FailClaimedClosedForm(c, attempt, token, InvalidRequest, reason, now);
      }
    case DoCommitDispatch(attempt, token, online, lease, now) =>
      if FailClaimed(c, attempt, token, NotDispatched, DeviceNotOnline, now).Commit? {
        FailClaimedClosedForm(c, attempt, token, NotDispatched, DeviceNotOnline, now);
      }
    case _ =>
  }

  /** A Command becomes stranded by one thing only, and that thing always strands it. */
  lemma OnlyAnEarlyResultStrands(c: Cell, op: CellOp)
    requires RowsOk(c) && !Stranded(c)
    ensures Stranded(Step(c, op)) <==> op.DoRecord? && Dispatching1(c) && TransactionOf(c, op).Commit?
  {
    if op.DoPersist? || op.DoFailBefore? || op.DoCommitDispatch? {
      WorkerStrandsNothing(c, op);
    } else if op.DoRecord? {
      RecordStrands(c, op.report, op.now);
    }
  }

  /** Nothing but a further Result changes a stranded Command, and it stays stranded. */
  lemma StrandedIsForever(c: Cell, op: CellOp)
    requires RowsOk(c) && Stranded(c)
    ensures Stranded(Step(c, op))
    ensures !op.DoRecord? ==> Step(c, op) == c
    ensures Step(c, op).attempts == c.attempts
  {
  }

  /** The transactions of a history that recorded a Result while the Attempt was still dispatching. */
  ghost predicate EarlyResultAt(c: Cell, ops: seq<CellOp>, k: nat)
    requires k < |ops|
  {
    && ops[k].DoRecord?
    && Dispatching1(Run(c, ops[..k]))
    && TransactionOf(Run(c, ops[..k]), ops[k]).Commit?
  }

  ghost predicate SomeEarlyResult(c: Cell, ops: seq<CellOp>)
  {
    exists k :: 0 <= k < |ops| && EarlyResultAt(c, ops, k)
  }

  /** What happened early in a history happened before its last transaction, or is that one. */
  lemma EarlyResultsGrow(c: Cell, ops: seq<CellOp>)
    requires ops != []
    ensures SomeEarlyResult(c, ops) <==> SomeEarlyResult(c, ops[..|ops| - 1]) || EarlyResultAt(c, ops, |ops| - 1)
  {
    var n := |ops| - 1;
    forall k | 0 <= k < n
      ensures EarlyResultAt(c, ops, k) <==> EarlyResultAt(c, ops[..n], k)
    {
      assert ops[..k] == ops[..n][..k];
    }
    if k :| 0 <= k < n && EarlyResultAt(c, ops[..n], k) {
      assert EarlyResultAt(c, ops, k);
    }
  }

  /** A history strands the Command if and only if some Result arrived that early. */
  lemma {:induction false} StrandedIffEarlyResult(c: Cell, ops: seq<CellOp>)
    requires RowsOk(c) && !Stranded(c)
    ensures Stranded(Run(c, ops)) <==> SomeEarlyResult(c, ops)
    decreases |ops|
  {
    if ops == [] {
    } else {
      var init, op := ops[..|ops| - 1], ops[|ops| - 1];
      StrandedIffEarlyResult(c, init);
      CommandHistory.RunKeepsRows(c, init);
      EarlyResultsGrow(c, ops);
      if Stranded(Run(c, init)) {
        StrandedIsForever(Run(c, init), op);
      } else {
        OnlyAnEarlyResultStrands(Run(c, init), op);
      }
    }
  }

  function CreatedExample(): Cell
  {
    NewCell(0, "key", Request(1, 1, 0), Simulator, Policy(false, 30, 10, 60), 0)
  }

  /** The example claimed at 1 under token 7. */
  function ClaimedExample(): Cell
  {
    CreatedExample().(
      attempts := [Attempt(1, Claimed, Simulator, 1, None, Unconfirmed, NoEvidence, None, 7, 16, 1, None, None)])
  }

  /** The example committed to dispatch at 2. */
  function SentExample(): Cell
  {
    Step(ClaimedExample(), DoCommitDispatch(0, 7, true, 15, 2))
  }

  lemma ClaimExample()
    ensures Step(CreatedExample(), DoClaim(Simulator, 7, 1, 15, 1)) == ClaimedExample()
    ensures RowsOk(ClaimedExample()) && SchemaOk(ClaimedExample())
  {
    NewCellSchema(0, "key", Request(1, 1, 0), Simulator, Policy(false, 30, 10, 60), 0);
  }

  lemma SentExampleRows()
    ensures var c := SentExample();
            && c.command.status.Sent? && c.command.sentAt == Some(2) && c.command.resultDeadlineAt == Some(62)
            && c.command.queuedAt == 0 && c.command.provider.Simulator?
            && Dispatching1(c) && RowsOk(c) && SchemaOk(c) && c.results == []
            && c.attempts[0].leaseToken == 7 && c.attempts[0].leaseExpiresAt == 17
            && c.attempts[0].claimedAt == 1 && c.attempts[0].dispatchingAt == Some(2)
  {
    ClaimExample();
    StepKeepsRows(ClaimedExample(), DoCommitDispatch(0, 7, true, 15, 2));
    StepKeepsSchema(ClaimedExample(), DoCommitDispatch(0, 7, true, 15, 2));
  }

  /** Recording an early acknowledgement succeeds, the schema accepts its rows, and it strands the Command. */
  lemma EarlyAck(c: Cell, report: ResultReport, clock: int)
    requires RowsOk(c) && SchemaOk(c) && Dispatching1(c) && c.command.status.Sent?
    requires ReportValid(report, clock) && report.outcome.AckReported? && report.attempt.None?
    ensures var c' := Step(c, DoRecord(report, clock));
            c'.command.status.Acked? && Stranded(c') && RowsOk(c') && SchemaOk(c')
  {
    RecordSchema(c, report, clock);
    RecordKeepsRows(c, report, clock);
  }

  /**
   * The promise that maintenance ends every Command fails when the Device acknowledges before
   * the worker stores its outcome: from then on no maintenance step is enabled at any time.
   */
  lemma EarlyAckStrandsCommand(now: int)
    ensures var report := ResultReport(None, ProviderCallback, AckReported, "ack", None, Some(3), 0);
            var c := Step(SentExample(), DoRecord(report, 3));
            c.command.status.Acked? && SchemaOk(c) && Stranded(c) && !MaintenanceEnabled(c, now)
  {
    SentExampleRows();
    EarlyAck(SentExample(), ResultReport(None, ProviderCallback, AckReported, "ack", None, Some(3), 0), 3);
  }

  const ACCEPTED: DispatchResult := DispatchResult(AcceptedByProvider, ProviderAccepted, Verified, None)

  /** A sent Simulator Command whose worker still holds it stores an acceptance. */
  lemma AcceptanceIsStored(c: Cell, token: Token, now: int)
    requires RowsOk(c) && SchemaOk(c) && c.command.status.Sent? && c.command.provider.Simulator? && Dispatching1(c)
    requires c.attempts[0].leaseToken == token && LeaseValid(c.attempts[0], now) && ClockReached(c, now)
    ensures var c' := Step(c, DoPersist(0, token, ACCEPTED, now));
            && RowsOk(c') && SchemaOk(c') && c'.results == c.results
            && |c'.attempts| == 1 && c'.attempts[0].phase.Completed?
            && c'.command == c.command.(confirmation := ProviderAccepted, evidence := Verified, updatedAt := now)
  {
    PersistClosedForm(c, 0, token, ACCEPTED, now);
    StepKeepsRows(c, DoPersist(0, token, ACCEPTED, now));
    StepKeepsSchema(c, DoPersist(0, token, ACCEPTED, now));
  }

  /** With its Attempt completed it times out once its result deadline has passed. */
  lemma ObservationTimesOut(c: Cell, now: int)
    requires RowsOk(c) && SchemaOk(c) && c.command.status.Sent?
    requires |c.attempts| == 1 && c.attempts[0].phase.Completed?
    requires c.command.resultDeadlineAt.Some? && c.command.resultDeadlineAt.value <= now
    ensures var c' := Step(c, DoExpireObservation(now));
            && RowsOk(c') && SchemaOk(c') && c'.results == c.results
            && c'.command.status.Timeout? && c'.command.reason == Some(ResultObservationTimeout)
  {
    StepKeepsRows(c, DoExpireObservation(now));
    StepKeepsSchema(c, DoExpireObservation(now));
  }

  /** The example accepted by its Provider at 4, and given up at 100 for want of a Result. */
  function TimedOutExample(): Cell
  {
    Step(Step(SentExample(), DoPersist(0, 7, ACCEPTED, 4)), DoExpireObservation(100))
  }

  const LATE_FINAL: ResultReport := ResultReport(None, ProviderCallback, SuccessReported, "final", None, Some(101), 0)

  lemma TimedOutExampleRows()
    ensures var c := TimedOutExample();
            RowsOk(c) && SchemaOk(c) && c.command.reason == Some(ResultObservationTimeout) && c.results == []
  {
    SentExampleRows();
    AcceptanceIsStored(SentExample(), 7, 4);
    ObservationTimesOut(Step(SentExample(), DoPersist(0, 7, ACCEPTED, 4)), 100);
  }

  /**
   * The documented promise of a late Device final fails on a run from creation: the transaction
   * body raises the evidence, the schema refuses the row, and the Result is lost.
   */
  lemma LateFinalIsLost()
    ensures var c, report := TimedOutExample(), LATE_FINAL;
            && c.command.reason == Some(ResultObservationTimeout)
            && RecordNew(c, report, 101).Commit? && RecordNew(c, report, 101).cell.command.confirmation.DeviceFinal?
            && CheckedStep(c, DoRecord(report, 101)) == c && c.results == []
  {
    TimedOutExampleRows();
    LateFinalRefused(TimedOutExample(), LATE_FINAL, 101);
  }

  lemma LateFinalRefused(c: Cell, report: ResultReport, clock: int)
    requires RowsOk(c) && SchemaOk(c) && c.command.reason == Some(ResultObservationTimeout)
    requires report.outcome.SuccessReported? && ReportValid(report, clock)
    ensures RecordNew(c, report, clock).Commit? && RecordNew(c, report, clock).cell.command.confirmation.DeviceFinal?
    ensures CheckedStep(c, DoRecord(report, clock)) == c
  {
    LateFinalAfterTimeoutIsRefused(c, report, clock);
  }

  // ------------------------------------------------------------------- the measure

  function IncompleteCount(attempts: seq<Attempt>): (n: nat)
    ensures n <= |attempts|
  {
    if attempts == [] then 0
    else IncompleteCount(attempts[..|attempts| - 1]) + (if attempts[|attempts| - 1].phase.Completed? then 0 else 1)
  }

  /** Incomplete Attempts plus one for a non-terminal Command. */
  function Pending(c: Cell): nat
  {
    IncompleteCount(c.attempts) + if IsTerminal(c.command.status) then 0 else 1
  }

  predicate IsMaintenance(op: CellOp)
  {
    op.DoRecover? || op.DoExpireQueued? || op.DoExpireObservation?
  }

  /** Every maintenance transaction that commits decreases the measure, at any clock. */
  lemma MaintenanceDecreases(c: Cell, op: CellOp)
    requires RowsOk(c) && IsMaintenance(op)
    requires TransactionOf(c, op).Commit?
    ensures Pending(Step(c, op)) < Pending(c)
  {
    var c' := Step(c, op);
    if |c.attempts| == 1 {
      assert c.attempts[..0] == [] && c'.attempts[..0] == [];
    }
  }
}
