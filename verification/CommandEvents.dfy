/**
 * The Event log agrees with the rows: every transaction that moves the status writes exactly
 * one Event, replaying the log gives the current status, and no deduplication key repeats.
 */
module CommandEvents {
  import opened Prelude
  import opened Lifecycle
  import opened CommandRows
  import opened CommandGuards
  import opened CommandTransactions
  import opened CommandInvariant
  import opened CommandHistory

  /** Two Events share a deduplication key exactly if they report the same creation, status, evidence or Result. */
  lemma KeysMeaning(event: Event, event': Event)
    ensures KeyOf(event) == KeyOf(event') <==>
              || (event.CommandCreated? && event'.CommandCreated?)
              || (event.StatusChanged? && event'.StatusChanged? && event.to == event'.to)
              || (event.EvidenceUpdated? && event'.EvidenceUpdated?
                  && event' == EvidenceUpdated(event'.status, event.attempt, event.outcome, event.confirmation,
                                               event.evidence))
              || (event.ResultRecorded? && event'.ResultRecorded? && event.result == event'.result)
  {
  }

  /** Reads one Event on top of the status before it; None when the Event contradicts that status. */
  function Replay1(before: CommandStatus, event: Event): Option<CommandStatus>
  {
    match event
    case CommandCreated(_) => None
    case StatusChanged(from, to, _, _, _) =>
      if from == before && CanTransitionCommand(from, to) then Some(to) else None
    case EvidenceUpdated(status, _, _, _, _) => if status == before then Some(status) else None
    case ResultRecorded(status, _, _, late) =>
      if late then if status == before && IsTerminal(before) then Some(status) else None
      else if CanTransitionCommand(before, status) then Some(status) else None
  }

  /** Folds the Events of one Command in commit order. */
  function Replay(events: seq<Event>): Option<CommandStatus>
  {
    if events == [] then None
    else
      var last := events[|events| - 1];
      if |events| == 1 then if last.CommandCreated? then Some(last.status) else None
      else
        match Replay(events[..|events| - 1])
        case None => None
        case Some(before) => Replay1(before, last)
  }

  /** The Event a transaction that turned `c` into `c'` has to write. */
  ghost predicate Reports(c: Cell, c': Cell, event: Event)
  {
    && Replay1(c.command.status, event) == Some(c'.command.status)
    && match event
       case CommandCreated(_) => false
       case StatusChanged(_, _, reason, confirmation, evidence) =>
         reason == c'.command.reason && confirmation == c'.command.confirmation && evidence == c'.command.evidence
       case EvidenceUpdated(_, attempt, outcome, confirmation, evidence) =>
         && attempt < |c.attempts| == |c'.attempts|
         && c.attempts[attempt].phase.Dispatching?
         && c'.attempts[attempt].phase.Completed?
         && c'.attempts[attempt].outcome == Some(outcome)
         && c'.attempts[attempt].confirmation == confirmation == c'.command.confirmation
         && c'.attempts[attempt].evidence == evidence == c'.command.evidence
       case ResultRecorded(_, result, outcome, late) =>
         && result == |c.results|
         && |c'.results| == |c.results| + 1
         && c'.results[result].outcome == outcome
         && c'.results[result].late == late == IsTerminal(c.command.status)
  }

  /** Either the transaction left the status alone and wrote no Event, or it wrote exactly one fitting Event. */
  ghost predicate Logs(c: Cell, c': Cell)
  {
    || (c'.events == c.events && c'.command.status == c.command.status)
    || (exists event :: c'.events == c.events + [event] && Reports(c, c', event))
  }

  lemma LogsOne(c: Cell, c': Cell, event: Event)
    requires c'.events == c.events + [event] && Reports(c, c', event)
    ensures Logs(c, c')
  {
  }

  lemma CommitDispatchLogs(c: Cell, i: nat, token: Token, deviceOnline: bool, lease: int, now: int)
    requires RowsOk(c)
    ensures var r := CommitDispatch(c, i, token, deviceOnline, lease, now); r.Commit? ==> Logs(c, r.cell)
  {
    var r := CommitDispatch(c, i, token, deviceOnline, lease, now);
    if r.Commit? {
      if c.command.policy.onlineOnly && !deviceOnline {
        FailClaimedClosedForm(c, i, token, NotDispatched, DeviceNotOnline, now);
      }
      LogsOne(c, r.cell, StatusEvent(r.cell, Queued));
    }
  }

  lemma FailBeforeLogs(c: Cell, i: nat, token: Token, reason: Reason, now: int)
    requires RowsOk(c)
    ensures var r := FailBeforeDispatch(c, i, token, reason, now); r.Commit? ==> Logs(c, r.cell)
  {
    var r := FailBeforeDispatch(c, i, token, reason, now);
    if r.Commit? {
      FailClaimedClosedForm(c, i, token, InvalidRequest, reason, now);
      LogsOne(c, r.cell, StatusEvent(r.cell, Queued));
    }
  }

  lemma PersistLogs(c: Cell, i: nat, token: Token, result: DispatchResult, now: int)
    requires RowsOk(c)
    ensures var r := PersistResult(c, i, token, result, now); r.Commit? ==> Logs(c, r.cell)
  {
    var r := PersistResult(c, i, token, result, now);
    if r.Commit? {
      CompletionOfSent(c, i, token, CompletionOf(result), now);
      PersistClosedForm(c, i, token, result, now);
      LogsOne(c, r.cell, r.cell.events[|c.events|]);
    }
  }

  lemma RecoverLogs(c: Cell, now: int)
    requires RowsOk(c)
    ensures var r := RecoverNext(c, now); r.Commit? ==> Logs(c, r.cell)
  {
    var r := RecoverNext(c, now);
    if r.Commit? {
      LogsOne(c, r.cell, r.cell.events[|c.events|]);
    }
  }

  lemma ExpireLogs(c: Cell, now: int)
    requires RowsOk(c)
    ensures var r := ExpireNextQueued(c, now); r.Commit? ==> Logs(c, r.cell)
    ensures var r := ExpireNextResultObservation(c, now); r.Commit? ==> Logs(c, r.cell)
    ensures var r := Cancel(c, now); r.Commit? ==> Logs(c, r.cell)
  {
    var q, o, x := ExpireNextQueued(c, now), ExpireNextResultObservation(c, now), Cancel(c, now);
    if q.Commit? {
      LogsOne(c, q.cell, StatusEvent(q.cell, Queued));
    }
    if o.Commit? {
      LogsOne(c, o.cell, StatusEvent(o.cell, c.command.status));
    }
    if x.Commit? {
      LogsOne(c, x.cell, StatusEvent(x.cell, Queued));
    }
  }

  lemma RecordLogs(c: Cell, report: ResultReport, clock: int)
    requires RowsOk(c)
    ensures var r := RecordNew(c, report, clock); r.Commit? ==> Logs(c, r.cell)
  {
    var r := RecordNew(c, report, clock);
    if r.Commit? {
      LogsOne(c, r.cell, r.cell.events[|c.events|]);
    }
  }

  lemma StepLogs(c: Cell, op: CellOp)
    requires RowsOk(c)
    ensures Logs(c, Step(c, op))
  {
    match op
    case DoClaim(provider, token, requestKey, lease, now) =>
    case DoReclaim(attempt, expired, token, lease, now) =>
    case DoFailBefore(attempt, token, reason, now) => FailBeforeLogs(c, attempt, token, reason, now);
    case DoCommitDispatch(attempt, token, online, lease, now) =>
      CommitDispatchLogs(c, attempt, token, online, lease, now);
    case DoPersist(attempt, token, result, now) => PersistLogs(c, attempt, token, result, now);
    case DoRecover(now) => RecoverLogs(c, now);
    case DoExpireQueued(now) => ExpireLogs(c, now);
    case DoExpireObservation(now) => ExpireLogs(c, now);
    case DoCancel(now) => ExpireLogs(c, now);
    case DoVerifyAcceptance(attempt, matches, now) =>
    case DoRecord(report, now) => RecordLogs(c, report, now);
  }

  // ------------------------------------------------------------- the whole log

  /** What the rows say about the keys that are already used. */
  ghost predicate KeyUsed(c: Cell, event: Event)
  {
    match event
    case CommandCreated(_) => true
    case StatusChanged(_, to, _, _, _) => Depth(to) <= Depth(c.command.status) && to != Queued
    case EvidenceUpdated(_, attempt, _, _, _) => attempt < |c.attempts| && c.attempts[attempt].phase.Completed?
    case ResultRecorded(_, result, _, _) => result < |c.results|
  }

  ghost predicate KeysDistinct(events: seq<Event>)
  {
    forall i, j :: 0 <= i < j < |events| ==> KeyOf(events[i]) != KeyOf(events[j])
  }

  ghost predicate LogOk(c: Cell)
  {
    && Replay(c.events) == Some(c.command.status)
    && (forall i :: 0 <= i < |c.events| ==> KeyUsed(c, c.events[i]))
    && KeysDistinct(c.events)
  }

  /** A key that the rows say is used stays used. */
  lemma KeyStaysUsed(c: Cell, c': Cell, event: Event)
    requires Advances(c, c') && KeyUsed(c, event)
    ensures KeyUsed(c', event)
  {
    if event.EvidenceUpdated? {
      assert AttemptAdvances(c.attempts[event.attempt], c'.attempts[event.attempt]);
    }
  }

  /** The Event a transaction writes has a key no stored Event has: the status graph has no cycle. */
  lemma NewKeyIsFresh(c: Cell, c': Cell, event: Event, stored: Event)
    requires Reports(c, c', event) && KeyUsed(c, stored)
    ensures KeyOf(event) != KeyOf(stored)
    ensures KeyUsed(c', event)
  {
  }

  lemma LogsKeepLogOk(c: Cell, c': Cell)
    requires LogOk(c) && Logs(c, c') && Advances(c, c')
    ensures LogOk(c')
  {
    forall i | 0 <= i < |c.events|
      ensures KeyUsed(c', c.events[i])
    {
      KeyStaysUsed(c, c', c.events[i]);
    }
    if c'.events != c.events {
      var event :| c'.events == c.events + [event] && Reports(c, c', event);
      assert c'.events[..|c'.events| - 1] == c.events;
      forall i | 0 <= i < |c.events|
        ensures KeyOf(event) != KeyOf(c.events[i])
      {
        NewKeyIsFresh(c, c', event, c.events[i]);
      }
      NewKeyIsFresh(c, c', event, c.events[0]);
    }
  }

  /**
   * In every history, replaying the log gives the stored status (so each `from` is the status
   * before it) and all deduplication keys differ.
   */
  lemma {:induction false} HistoryKeepsLog(c: Cell, ops: seq<CellOp>)
    requires RowsOk(c) && LogOk(c)
    ensures LogOk(Run(c, ops))
    decreases |ops|
  {
    if ops == [] {
    } else {
      var before := Run(c, ops[..|ops| - 1]);
      HistoryKeepsLog(c, ops[..|ops| - 1]);
      RunKeepsRows(c, ops[..|ops| - 1]);
      StepLogs(before, ops[|ops| - 1]);
      StepAdvances(before, ops[|ops| - 1]);
      LogsKeepLogOk(before, Run(c, ops));
    }
  }

  /** A Command as its Create transaction stores it satisfies every invariant. */
  lemma NewCellOk(project: nat, key: string, request: Request, provider: Provider, policy: Policy, now: int)
    ensures var c := NewCell(project, key, request, provider, policy, now); RowsOk(c) && LogOk(c)
  {
    var c := NewCell(project, key, request, provider, policy, now);
    assert Replay(c.events) == Some(Queued);
  }
}
