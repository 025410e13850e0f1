/**
 * The transactions of the Command worker (commandworker/worker.go) over the tables. Each is
 * proved against the function that specifies it, and leaves no trace when it fails.
 */
module CommandWorker {
  import opened Prelude
  import opened Lifecycle
  import opened CommandRows
  import opened CommandGuards
  import opened CommandStore
  import T = CommandTransactions

  ghost function MarkOutcome(c: Cell, i: nat, token: Token, lease: int, now: int): T.TxResult
  {
    var (marked, ok) := T.MarkDispatching(c, i, token, c.command.policy.resultTimeout, lease, now);
    if ok then T.Commit(marked.(events := marked.events + [T.StatusEvent(marked, Queued)]), true)
    else T.Rollback(T.LeaseLost)
  }

  lemma CommitDispatchCases(c: Cell, i: nat, token: Token, deviceOnline: bool, lease: int, now: int)
    ensures T.CommitDispatch(c, i, token, deviceOnline, lease, now) ==
            if c.command.policy.onlineOnly && !deviceOnline then
              T.FailClaimed(c, i, token, NotDispatched, DeviceNotOnline, now)
            else MarkOutcome(c, i, token, lease, now)
    ensures var failed := T.FailClaimed(c, i, token, NotDispatched, DeviceNotOnline, now);
            failed.Commit? ==> !failed.dispatched
  {
  }

  /** When the lease of the Attempt that dispatches ends. */
  function LeaseEnd(c: Cell): int
  {
    LeaseEndFrom(c.attempts, 0)
  }

  function LeaseEndFrom(attempts: seq<Attempt>, k: nat): int
    requires k <= |attempts|
    decreases |attempts| - k
  {
    if k == |attempts| then 0
    else if attempts[k].phase == Dispatching then attempts[k].leaseExpiresAt
    else LeaseEndFrom(attempts, k + 1)
  }

  function DispatchDeadline(c: Cell): int
  {
    c.command.dispatchDeadlineAt
  }

  function ResultDeadline(c: Cell): int
  {
    match c.command.resultDeadlineAt
    case Some(t) => t
    case None => 0
  }

  /** Of all unlocked Commands the transaction would commit for, `id` was due first; identifiers break ties. */
  ghost predicate Earliest(cells: map<CommandId, Cell>, locked: set<CommandId>, outcome: Cell -> T.TxResult,
                           due: Cell -> int, id: CommandId)
  {
    && id in cells && id !in locked
    && forall other :: other in cells && other !in locked && outcome(cells[other]).Commit? ==>
         due(cells[id]) < due(cells[other]) || (due(cells[id]) == due(cells[other]) && id <= other)
  }

  lemma FirstIsEarliest(cells: map<CommandId, Cell>, locked: set<CommandId>, outcome: Cell -> T.TxResult,
                        due: Cell -> int,
                        rows: map<CommandId, Rank>, id: CommandId)
    requires forall other :: other in rows <==>
               other in cells && other !in locked && outcome(cells[other]).Commit?
    requires forall other :: other in rows ==> rows[other] == (due(cells[other]), 0)
    requires IsFirst(rows, id)
    ensures Earliest(cells, locked, outcome, due, id)
  {
    forall other | other in cells && other !in locked && outcome(cells[other]).Commit?
      ensures due(cells[id]) < due(cells[other]) || (due(cells[id]) == due(cells[other]) && id <= other)
    {
      assert ComesBefore(rows, id, other);
    }
  }

  class Transactions {
    const tables: Tables

    constructor (tables: Tables)
      ensures this.tables == tables
    {
      this.tables := tables;
    }

    /** The transaction ended as specified, and a failed one left no trace. */
    twostate predicate Ran(id: CommandId, outcome: T.TxResult, new error: Option<T.TxError>)
      reads tables
    {
      match outcome
      case Commit(c, _) => error.None? && tables.Wrote(id, c)
      case Rollback(e) => error == Some(e) && tables.Untouched()
    }

    method WriteStatusEvent(id: CommandId, from: CommandStatus) returns (error: Option<T.TxError>)
      requires tables.Valid() && id in tables.commands
      modifies tables
      ensures var c := old(tables.cells)[id];
              if from == c.command.status then error == Some(T.RuntimeState) && tables.Untouched()
              else error.None? && tables.Wrote(id, c.(events := c.events + [T.StatusEvent(c, from)]))
    {
      var command := tables.commands[id];
      if from == command.status {
        return Some(T.RuntimeState);
      }
      tables.AppendEvent(id, StatusChanged(from, command.status, command.reason, command.confirmation,
                                           command.evidence));
      return None;
    }

    /** Ends a claimed Command before any Provider call, in the transaction that is open. */
    method FailClaimed(id: CommandId, i: nat, token: Token, outcome: AttemptOutcome, reason: Reason, now: int)
      returns (error: Option<T.TxError>)
      requires tables.Valid() && id in tables.commands
      modifies tables
      ensures match T.FailClaimed(old(tables.cells)[id], i, token, outcome, reason, now)
              case Commit(c, _) => error.None? && tables.Wrote(id, c)
              case Rollback(e) => error == Some(e) && tables.Valid() && tables.ids == old(tables.ids)
    {
      var completed := tables.CompleteAttempt(id, i, token, Completion(outcome, Unconfirmed, NoEvidence, Some(reason)),
                                              now);
      if !completed {
        return Some(T.LeaseLost);
      }
      var t := StatusTransition(Queued, Failed, Some(reason), Unconfirmed, NoEvidence);
      var transitioned := tables.TransitionFromAttempt(id, i, token, t, now);
      if !transitioned {
        return Some(T.LeaseLost);
      }
      error := WriteStatusEvent(id, Queued);
    }

    method FailBeforeDispatch(id: CommandId, i: nat, token: Token, reason: Reason, now: int)
      returns (error: Option<T.TxError>)
      requires tables.Valid() && id in tables.commands
      modifies tables
      ensures Ran(id, T.FailBeforeDispatch(old(tables.cells)[id], i, token, reason, now), error)
    {
      if !PreparationReason(reason) {
        return Some(T.RuntimeState);
      }
      var saved := tables.Begin();
      error := FailClaimed(id, i, token, InvalidRequest, reason, now);
      if error.Some? {
        tables.RollBack(saved, old(tables.cells));
      }
    }

    method CommitDispatch(id: CommandId, i: nat, token: Token, policy: Policy, deviceOnline: bool, lease: int, now: int)
      returns (dispatched: bool, error: Option<T.TxError>)
      requires tables.Valid() && id in tables.commands && tables.commands[id].policy == policy
      modifies tables
      ensures Ran(id, T.CommitDispatch(old(tables.cells)[id], i, token, deviceOnline, lease, now), error)
      ensures var r := T.CommitDispatch(old(tables.cells)[id], i, token, deviceOnline, lease, now);
              dispatched == (r.Commit? && r.dispatched)
    {
      dispatched := false;
      CommitDispatchCases(tables.cells[id], i, token, deviceOnline, lease, now);
      if policy.onlineOnly && !deviceOnline {
        error := FailOffline(id, i, token, now);
      } else {
        dispatched, error := MarkOrRollBack(id, i, token, policy, lease, now);
      }
    }

    method FailOffline(id: CommandId, i: nat, token: Token, now: int) returns (error: Option<T.TxError>)
      requires tables.Valid() && id in tables.commands
      modifies tables
      ensures Ran(id, T.FailClaimed(old(tables.cells)[id], i, token, NotDispatched, DeviceNotOnline, now), error)
    {
      var saved := tables.Begin();
      error := FailClaimed(id, i, token, NotDispatched, DeviceNotOnline, now);
      if error.Some? {
        tables.RollBack(saved, old(tables.cells));
      }
    }

    method MarkOrRollBack(id: CommandId, i: nat, token: Token, policy: Policy, lease: int, now: int)
      returns (dispatched: bool, error: Option<T.TxError>)
      requires tables.Valid() && id in tables.commands && tables.commands[id].policy == policy
      modifies tables
      ensures Ran(id, MarkOutcome(old(tables.cells)[id], i, token, lease, now), error)
      ensures dispatched == error.None?
    {
      var saved := tables.Begin();
      dispatched, error := MarkAndReport(id, i, token, policy, lease, now);
      if error.Some? {
        tables.RollBack(saved, old(tables.cells));
      }
    }

    method MarkAndReport(id: CommandId, i: nat, token: Token, policy: Policy, lease: int, now: int)
      returns (dispatched: bool, error: Option<T.TxError>)
      requires tables.Valid() && id in tables.commands && tables.commands[id].policy == policy
      modifies tables
      ensures var (c, marked) := T.MarkDispatching(old(tables.cells)[id], i, token, policy.resultTimeout, lease, now);
              && dispatched == marked
              && (if marked then error.None? && tables.Wrote(id, c.(events := c.events + [T.StatusEvent(c, Queued)]))
                  else error == Some(T.LeaseLost) && tables.Valid() && tables.ids == old(tables.ids))
    {
      dispatched := tables.MarkDispatching(id, i, token, policy.resultTimeout, lease, now);
      if !dispatched {
        return false, Some(T.LeaseLost);
      }
      error := WriteStatusEvent(id, Queued);
    }

    method PersistResult(id: CommandId, i: nat, token: Token, result: DispatchResult, now: int)
      returns (error: Option<T.TxError>)
      requires tables.Valid() && id in tables.commands
      modifies tables
      ensures Ran(id, T.PersistResult(old(tables.cells)[id], i, token, result, now), error)
    {
      var saved := tables.Begin();
      error := PersistBody(id, i, token, result, now);
      if error.Some? {
        tables.RollBack(saved, old(tables.cells));
      }
    }

    method PersistBody(id: CommandId, i: nat, token: Token, result: DispatchResult, now: int)
      returns (error: Option<T.TxError>)
      requires tables.Valid() && id in tables.commands
      modifies tables
      ensures match T.PersistResult(old(tables.cells)[id], i, token, result, now)
              case Commit(c, _) => error.None? && tables.Wrote(id, c)
              case Rollback(e) => error == Some(e) && tables.Valid() && tables.ids == old(tables.ids)
    {
      var transition := ResultTransition(result);
      if transition.None? {
        return Some(T.RuntimeState);
      }
      var (reason, target) := transition.value;
      var completed := tables.CompleteAttempt(
        id, i, token, Completion(result.outcome, result.confirmation, result.evidence, reason), now);
      if !completed {
        return Some(T.LeaseLost);
      }
      if result.outcome.AcceptedByProvider? || result.outcome.Indeterminate? {
        var updated := tables.UpdateEvidenceFromAttempt(id, i, token, Sent, now);
        if !updated {
          return Some(T.LeaseLost);
        }
        var current := tables.commands[id];
        tables.AppendEvent(id, EvidenceUpdated(current.status, i, result.outcome, current.confirmation,
                                               current.evidence));
        return None;
      }
      var t := StatusTransition(Sent, target, reason, result.confirmation, result.evidence);
      var transitioned := tables.TransitionFromAttempt(id, i, token, t, now);
      if !transitioned {
        return Some(T.LeaseLost);
      }
      error := WriteStatusEvent(id, Sent);
    }

    // ------------------------------------------------------------- maintenance

    /** One maintenance transaction took the Command that was due first, or nothing was due. */
    twostate predicate Maintained(due: map<CommandId, Rank>, outcome: Cell -> T.TxResult, new done: Option<CommandId>)
      reads tables
    {
      match done
      case Some(id) =>
        && id in old(tables.cells) && IsFirst(due, id)
        && outcome(old(tables.cells)[id]).Commit?
        && OneRow(old(tables.cells), tables.cells, id, outcome(old(tables.cells)[id]).cell)
      case None => due == map[] && tables.cells == old(tables.cells)
    }

    /** The unlocked Commands a recovery would commit for, by the expiry of their lease. */
    function RecoverRows(locked: set<CommandId>, now: int): (due: map<CommandId, Rank>)
      requires tables.Valid()
      reads tables
      ensures forall id :: id in due <==>
                id in tables.cells && id !in locked && T.RecoverNext(tables.cells[id], now).Commit?
      ensures forall id :: id in due ==> due[id] == (LeaseEnd(tables.cells[id]), 0)
    {
      map id | id in tables.commands && id !in locked && T.ExpiredDispatch(tables.CellOf(id), now).Some? ::
        (LeaseEnd(tables.CellOf(id)), 0)
    }

    method RecoverNext(locked: set<CommandId>, now: int) returns (done: Option<CommandId>)
      requires tables.Valid()
      modifies tables
      ensures tables.Valid() && tables.ids == old(tables.ids)
      ensures Maintained(old(RecoverRows(locked, now)), c => T.RecoverNext(c, now), done)
      ensures done.Some? ==> Earliest(old(tables.cells), locked, c => T.RecoverNext(c, now), LeaseEnd, done.value)
    {
      var due := RecoverRows(locked, now);
      done := First(tables.ids, due);
      if done.Some? {
        FirstIsEarliest(tables.cells, locked, c => T.RecoverNext(c, now), LeaseEnd, due, done.value);
      }
      if done.Some? {
        RecoverRow(done.value, now);
      }
    }

    method RecoverRow(id: CommandId, now: int)
      requires tables.Valid() && id in tables.commands && T.RecoverNext(tables.CellOf(id), now).Commit?
      modifies tables
      ensures tables.Wrote(id, T.RecoverNext(old(tables.cells)[id], now).cell)
    {
      var i := T.ExpiredDispatch(tables.CellOf(id), now).value;
      var updated := tables.RecoverExpiredDispatching(id, i, tables.attempts[id][i].leaseToken, now);
      var current := tables.commands[id];
      tables.AppendEvent(id, EvidenceUpdated(current.status, i, Indeterminate, current.confirmation, current.evidence));
    }

    function QueuedRows(locked: set<CommandId>, now: int): (due: map<CommandId, Rank>)
      requires tables.Valid()
      reads tables
      ensures forall id :: id in due <==>
                id in tables.cells && id !in locked && T.ExpireNextQueued(tables.cells[id], now).Commit?
      ensures forall id :: id in due ==> due[id] == (DispatchDeadline(tables.cells[id]), 0)
    {
      map id | id in tables.commands && id !in locked && T.QueuedExpired(tables.CellOf(id), now) ::
        (tables.commands[id].dispatchDeadlineAt, 0)
    }

    method ExpireNextQueued(locked: set<CommandId>, now: int) returns (done: Option<CommandId>)
      requires tables.Valid()
      modifies tables
      ensures tables.Valid() && tables.ids == old(tables.ids)
      ensures Maintained(old(QueuedRows(locked, now)), c => T.ExpireNextQueued(c, now), done)
      ensures done.Some? ==>
                Earliest(old(tables.cells), locked, c => T.ExpireNextQueued(c, now), DispatchDeadline, done.value)
    {
      var due := QueuedRows(locked, now);
      done := First(tables.ids, due);
      if done.Some? {
        FirstIsEarliest(tables.cells, locked, c => T.ExpireNextQueued(c, now), DispatchDeadline, due, done.value);
      }
      if done.Some? {
        ExpireQueuedRow(done.value, now);
      }
    }

    method ExpireQueuedRow(id: CommandId, now: int)
      requires tables.Valid() && id in tables.commands && T.ExpireNextQueued(tables.CellOf(id), now).Commit?
      modifies tables
      ensures tables.Wrote(id, T.ExpireNextQueued(old(tables.cells)[id], now).cell)
    {
      var updated := tables.FinishQueued(id, Timeout, DispatchDeadlineExceeded, true, now);
      var error := WriteStatusEvent(id, Queued);
    }

    function ObservationRows(locked: set<CommandId>, now: int): (due: map<CommandId, Rank>)
      requires tables.Valid()
      reads tables
      ensures forall id :: id in due <==>
                id in tables.cells && id !in locked && T.ExpireNextResultObservation(tables.cells[id], now).Commit?
      ensures forall id :: id in due ==> due[id] == (ResultDeadline(tables.cells[id]), 0)
    {
      map id | id in tables.commands && id !in locked && T.ObservationExpired(tables.CellOf(id), now) ::
        (tables.commands[id].resultDeadlineAt.value, 0)
    }

    method ExpireNextResultObservation(locked: set<CommandId>, now: int) returns (done: Option<CommandId>)
      requires tables.Valid()
      modifies tables
      ensures tables.Valid() && tables.ids == old(tables.ids)
      ensures Maintained(old(ObservationRows(locked, now)), c => T.ExpireNextResultObservation(c, now), done)
      ensures done.Some? ==>
                Earliest(old(tables.cells), locked, c =>
                         T.ExpireNextResultObservation(c, now), ResultDeadline, done.value)
    {
      var due := ObservationRows(locked, now);
      done := First(tables.ids, due);
      if done.Some? {
        FirstIsEarliest(tables.cells, locked, c => T.ExpireNextResultObservation(c, now), ResultDeadline, due,
                        done.value);
      }
      if done.Some? {
        ExpireObservationRow(done.value, now);
      }
    }

    method ExpireObservationRow(id: CommandId, now: int)
      requires tables.Valid() && id in tables.commands && T.ExpireNextResultObservation(tables.CellOf(id), now).Commit?
      modifies tables
      ensures tables.Wrote(id, T.ExpireNextResultObservation(old(tables.cells)[id], now).cell)
    {
      var previous := tables.commands[id].status;
      var updated := tables.ExpireResultObservation(id, now);
      var error := WriteStatusEvent(id, previous);
    }
  }
}
