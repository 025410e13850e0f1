/** Where the evidence of a Command comes from: Device evidence exists only with a recorded Result. */
module CommandProvenance {
  import opened Prelude
  import opened Lifecycle
  import opened CommandRows
  import opened CommandGuards
  import opened CommandTransactions
  import opened CommandInvariant
  import opened CommandHistory

  /** A verified Result of that outcome is stored, carrying the confirmation its outcome proves. */
  ghost predicate HasResult(results: seq<CommandResult>, outcome: ResultOutcome)
  {
    exists i :: 0 <= i < |results| && ProvenBy(results[i], outcome)
  }

  predicate ProvenBy(result: CommandResult, outcome: ResultOutcome)
  {
    result.outcome == outcome && result.evidence.Verified? && result.confirmation == ReportedConfirmation(outcome)
  }

  /** The most a Provider adapter may claim on its own, with no Result from the Device. */
  predicate WithinAdapterReach(provider: Provider, confirmation: Confirmation, evidence: Evidence)
  {
    match provider
    case Omni => ConfirmationRank(confirmation) <= ConfirmationRank(TransportSent)
    case Wwtiot =>
      && ConfirmationRank(confirmation) <= ConfirmationRank(ProviderAccepted)
      && (confirmation.ProviderAccepted? ==> evidence.Unverified?)
    case Simulator => ConfirmationRank(confirmation) <= ConfirmationRank(ProviderAccepted)
  }

  ghost predicate Proven(c: Cell)
  {
    && (c.command.confirmation.DeviceAcked? ==> HasResult(c.results, AckReported))
    && (c.command.confirmation.DeviceFinal? ==>
          HasResult(c.results, SuccessReported) || HasResult(c.results, FailureReported))
    && (c.command.status.Acked? ==> HasResult(c.results, AckReported))
    && (c.command.status.Success? ==> HasResult(c.results, SuccessReported))
    && (c.command.reason == Some(DeviceReportedFailure) ==> HasResult(c.results, FailureReported))
    && (c.results == [] ==> WithinAdapterReach(c.command.provider, c.command.confirmation, c.command.evidence))
    && (|c.attempts| == 1 ==>
          WithinAdapterReach(c.attempts[0].provider, c.attempts[0].confirmation, c.attempts[0].evidence))
  }

  lemma ResultsOnlyGrow(results: seq<CommandResult>, added: CommandResult)
    ensures forall outcome :: HasResult(results, outcome) ==> HasResult(results + [added], outcome)
    ensures ProvenBy(added, added.outcome) ==> HasResult(results + [added], added.outcome)
  {
    var grown := results + [added];
    forall outcome | HasResult(results, outcome)
      ensures HasResult(grown, outcome)
    {
      var i :| 0 <= i < |results| && ProvenBy(results[i], outcome);
      assert grown[i] == results[i];
    }
    assert grown[|results|] == added;
  }

  lemma RecordKeepsProven(c: Cell, report: ResultReport, clock: int)
    requires RowsOk(c) && Proven(c)
    ensures var r := RecordNew(c, report, clock); r.Commit? ==> Proven(r.cell)
  {
    ResultsOnlyGrow(c.results, ResultOf(c, report, clock));
  }

  lemma PersistKeepsProven(c: Cell, i: nat, token: Token, result: DispatchResult, now: int)
    requires RowsOk(c) && Proven(c)
    ensures var r := PersistResult(c, i, token, result, now); r.Commit? ==> Proven(r.cell)
  {
    if PersistResult(c, i, token, result, now).Commit? {
      CompletionOfSent(c, i, token, CompletionOf(result), now);
      PersistClosedForm(c, i, token, result, now);
    }
  }

  lemma FailClaimedKeepsProven(c: Cell, i: nat, token: Token, outcome: AttemptOutcome, reason: Reason, now: int)
    requires RowsOk(c) && Proven(c)
    requires BeforeDispatch(outcome)
    ensures var r := FailClaimed(c, i, token, outcome, reason, now); r.Commit? ==> Proven(r.cell)
  {
    if FailClaimed(c, i, token, outcome, reason, now).Commit? {
      FailClaimedClosedForm(c, i, token, outcome, reason, now);
    }
  }

  lemma RecoverKeepsProven(c: Cell, now: int)
    requires RowsOk(c) && Proven(c)
    ensures var r := RecoverNext(c, now); r.Commit? ==> Proven(r.cell)
  {
  }

  lemma ExpireKeepsProven(c: Cell, now: int)
    requires RowsOk(c) && Proven(c)
    ensures var r := ExpireNextQueued(c, now); r.Commit? ==> Proven(r.cell)
    ensures var r := ExpireNextResultObservation(c, now); r.Commit? ==> Proven(r.cell)
  {
  }

  lemma CancelKeepsProven(c: Cell, now: int)
    requires RowsOk(c) && Proven(c)
    ensures var r := Cancel(c, now); r.Commit? ==> Proven(r.cell)
  {
  }

  lemma CommitDispatchKeepsProven(c: Cell, i: nat, token: Token, deviceOnline: bool, lease: int, now: int)
    requires RowsOk(c) && Proven(c)
    ensures var r := CommitDispatch(c, i, token, deviceOnline, lease, now); r.Commit? ==> Proven(r.cell)
  {
    FailClaimedKeepsProven(c, i, token, NotDispatched, DeviceNotOnline, now);
  }

  lemma StepKeepsProven(c: Cell, op: CellOp)
    requires RowsOk(c) && Proven(c)
    ensures Proven(Step(c, op))
  {
    match op
    case DoClaim(provider, token, requestKey, lease, now) =>
    case DoReclaim(attempt, expired, token, lease, now) =>
    case DoFailBefore(attempt, token, reason, now) =>
      FailClaimedKeepsProven(c, attempt, token, InvalidRequest, reason, now);
    case DoCommitDispatch(attempt, token, online, lease, now) =>
      CommitDispatchKeepsProven(c, attempt, token, online, lease, now);
    case DoPersist(attempt, token, result, now) => PersistKeepsProven(c, attempt, token, result, now);
    case DoRecover(now) => RecoverKeepsProven(c, now);
    case DoExpireQueued(now) => ExpireKeepsProven(c, now);
    case DoExpireObservation(now) => ExpireKeepsProven(c, now);
    case DoCancel(now) => CancelKeepsProven(c, now);
    case DoVerifyAcceptance(attempt, matches, now) =>
    case DoRecord(report, now) => RecordKeepsProven(c, report, now);
  }

  /** In every history, Device evidence and Device statuses are backed by a stored verified Result. */
  lemma {:induction false} HistoryKeepsProven(c: Cell, ops: seq<CellOp>)
    requires RowsOk(c) && Proven(c)
    ensures Proven(Run(c, ops))
    decreases |ops|
  {
    if ops == [] {
    } else {
      HistoryKeepsProven(c, ops[..|ops| - 1]);
      RunKeepsRows(c, ops[..|ops| - 1]);
      StepKeepsProven(Run(c, ops[..|ops| - 1]), ops[|ops| - 1]);
    }
  }
}
