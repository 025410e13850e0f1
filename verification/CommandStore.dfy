/**
 * The Command tables and the repository that updates their rows in place
 * (postgres_command_event.go). Each method is proved against the function of the same name in
 * CommandTransactions, which reads and answers the rows of one Command.
 */
module CommandStore {
  import opened Prelude
  import opened Lifecycle
  import opened CommandRows
  import opened CommandGuards
  import opened CommandEffects
  import T = CommandTransactions

  /** The four tables as they are stored. */
  datatype Rows = Rows(
    commands: map<CommandId, Command>, attempts: map<CommandId, seq<Attempt>>,
    results: map<CommandId, seq<CommandResult>>, events: map<CommandId, seq<Event>>)

  ghost predicate Agree(rows: Rows, ids: seq<CommandId>, cells: map<CommandId, Cell>)
  {
    && (forall id :: id in ids <==> id in cells)
    && cells.Keys == rows.commands.Keys == rows.attempts.Keys == rows.results.Keys == rows.events.Keys
    && forall id {:trigger rows.commands[id]} {:trigger rows.attempts[id]}
                 {:trigger rows.results[id]} {:trigger rows.events[id]} ::
         id in cells ==> cells[id] == Cell(rows.commands[id], rows.attempts[id], rows.results[id], rows.events[id])
  }

  lemma InsertAgrees(rows: Rows, ids: seq<CommandId>, cells: map<CommandId, Cell>, id: CommandId, c: Cell)
    requires Agree(rows, ids, cells) && id !in cells
    ensures Agree(Rows(rows.commands[id := c.command], rows.attempts[id := c.attempts],
                       rows.results[id := c.results], rows.events[id := c.events]), ids + [id], cells[id := c])
  {
    assert rows.commands[id := c.command].Keys == cells[id := c].Keys;
    assert rows.attempts[id := c.attempts].Keys == cells[id := c].Keys;
    assert rows.results[id := c.results].Keys == cells[id := c].Keys;
    assert rows.events[id := c.events].Keys == cells[id := c].Keys;
  }

  /** The tables differ in the rows of one Command, which are now `c`. */
  ghost predicate OneRow(cells: map<CommandId, Cell>, cells': map<CommandId, Cell>, id: CommandId, c: Cell)
  {
    && id in cells && cells'.Keys == cells.Keys && cells'[id] == c
    && forall other :: other in cells && other != id ==> cells'[other] == cells[other]
  }

  lemma OneRowIsUpdate(cells: map<CommandId, Cell>, cells': map<CommandId, Cell>, id: CommandId, c: Cell)
    requires OneRow(cells, cells', id, c)
    ensures cells' == cells[id := c]
  {
  }

  class Tables {
    var ids: seq<CommandId>
    var commands: map<CommandId, Command>
    var attempts: map<CommandId, seq<Attempt>>
    var results: map<CommandId, seq<CommandResult>>
    var events: map<CommandId, seq<Event>>

    /** The tables, Command by Command. */
    ghost var cells: map<CommandId, Cell>

    constructor ()
      ensures Valid() && cells == map[] && ids == []
    {
      ids, commands, attempts, results, events := [], map[], map[], map[], map[];
      cells := map[];
    }

    ghost predicate Valid()
      reads this
    {
      Distinct(ids) && Agree(Rows(commands, attempts, results, events), ids, cells)
    }

    method Begin() returns (saved: Rows)
      requires Valid()
      ensures Agree(saved, ids, cells)
    {
      saved := Rows(commands, attempts, results, events);
    }

    method RollBack(saved: Rows, ghost before: map<CommandId, Cell>)
      requires Distinct(ids) && Agree(saved, ids, before)
      modifies this
      ensures Valid() && ids == old(ids) && cells == before
    {
      commands, attempts, results, events := saved.commands, saved.attempts, saved.results, saved.events;
      cells := before;
    }

    function CellOf(id: CommandId): (c: Cell)
      requires Valid() && id in commands
      reads this
      ensures c == cells[id]
    {
      Cell(commands[id], attempts[id], results[id], events[id])
    }

    /** The transaction wrote the rows of one Command and nothing else. */
    twostate predicate Wrote(id: CommandId, c: Cell)
      reads this
    {
      Valid() && ids == old(ids) && OneRow(old(cells), cells, id, c)
    }

    twostate predicate Untouched()
      reads this
    {
      Valid() && ids == old(ids) && cells == old(cells)
    }

    /** What a repository call answered, against the function that specifies it. */
    twostate predicate Answered(id: CommandId, outcome: (Cell, bool), ok: bool)
      reads this
    {
      Wrote(id, outcome.0) && ok == outcome.1
    }

    /** UPDATE device_commands: replaces the one Command row. */
    method SetCommand(id: CommandId, command: Command)
      requires Valid() && id in commands
      modifies this
      ensures Wrote(id, old(cells)[id].(command := command))
    {
      commands := commands[id := command];
      cells := cells[id := Cell(commands[id], attempts[id], results[id], events[id])];
    }

    /** UPDATE device_command_attempts: replaces one Attempt row. */
    method SetAttempt(id: CommandId, i: nat, attempt: Attempt)
      requires Valid() && id in commands && i < |attempts[id]|
      modifies this
      ensures Wrote(id, old(cells)[id].(attempts := old(cells)[id].attempts[i := attempt]))
    {
      SetAttempts(id, attempts[id][i := attempt]);
    }

    /** The two UPDATEs of a transaction that moves an Attempt and its Command together. */
    method SetBoth(id: CommandId, i: nat, attempt: Attempt, command: Command)
      requires Valid() && id in commands && i < |attempts[id]|
      modifies this
      ensures Wrote(id, old(cells)[id].(attempts := old(cells)[id].attempts[i := attempt], command := command))
    {
      SetAttempt(id, i, attempt);
      SetCommand(id, command);
    }

    /** INSERT INTO device_commands, with the first Event of the same transaction. */
    method Insert(id: CommandId, c: Cell)
      requires Valid() && id !in cells
      modifies this
      ensures Valid() && ids == old(ids) + [id] && cells == old(cells)[id := c]
    {
      InsertAgrees(Rows(commands, attempts, results, events), ids, cells, id, c);
      ids := ids + [id];
      commands, attempts := commands[id := c.command], attempts[id := c.attempts];
      results, events := results[id := c.results], events[id := c.events];
      cells := cells[id := c];
    }

    /** All rows of one Command, as another process's transaction left them. */
    method Put(id: CommandId, c: Cell)
      requires Valid() && id in commands
      modifies this
      ensures Wrote(id, c)
    {
      SetCommand(id, c.command);
      SetAttempts(id, c.attempts);
      SetResults(id, c.results);
      SetEvents(id, c.events);
    }

    // --------------------------------------------------------------- the claims

    predicate RequestKeyTaken(provider: Provider, key: nat): (taken: bool)
      requires Valid()
      reads this
      ensures taken <==> KeyInUse(cells, provider, key)
    {
      assert (exists id :: id in commands && UsesKey(attempts[id], provider, key)) <==>
               KeyInUse(cells, provider, key) by {
        forall id | id in cells
          ensures UsesKey(cells[id].attempts, provider, key) <==> UsesKey(attempts[id], provider, key)
        {
          assert cells[id] == Cell(commands[id], attempts[id], results[id], events[id]);
        }
      }
      exists id :: id in commands && UsesKey(attempts[id], provider, key)
    }

    function ClaimableIds(locked: set<CommandId>, provider: Provider, now: int): (due: map<CommandId, Rank>)
      requires Valid()
      reads this
      ensures due == ClaimableRows(cells, locked, provider, now)
      ensures forall id :: id in due ==> id in commands && T.Claimable(CellOf(id), provider, now)
    {
      map id | id in commands && id !in locked && T.Claimable(CellOf(id), provider, now) :: (commands[id].queuedAt, 0)
    }

    /**
     * Claims the Command that has waited longest among those no other transaction has locked.
     * Opening an Attempt under a Provider request key already in use is a conflict.
     */
    method ClaimNext(locked: set<CommandId>, provider: Provider, token: Token, requestKey: nat, lease: int, now: int)
      returns (claimed: Option<(CommandId, nat)>, conflict: bool)
      requires Valid()
      modifies this
      ensures claimed.None? ==> Untouched()
      ensures claimed.Some? ==>
                var (id, i) := claimed.value;
                && !conflict && id in old(cells)
                && IsFirst(ClaimableRows(old(cells), locked, provider, now), id)
                && var (c, attempt) := T.ClaimNext(old(cells)[id], provider, token, requestKey, lease, now);
                   attempt == Some(i) && Wrote(id, c)
      ensures claimed.Some? ==>
                var (id, i) := claimed.value;
                && lease >= 1 && FirstToClaim(old(cells), locked, provider, now, id) && id in cells
                && ClaimedAs(old(cells)[id], cells[id], i, provider, token, requestKey, lease, now)
      ensures conflict ==> KeyInUse(cells, provider, requestKey)
      ensures claimed.None? && !conflict && lease >= 1 ==>
                NothingClaimable(cells, locked, provider, token, now)
      ensures claimed.None? && !conflict && lease >= 1 ==>
                || (forall id :: id in cells && id !in locked ==> !MayClaim(cells[id], provider, now))
                || (exists id :: id in cells && HoldsToken(cells[id].attempts, token))
    {
      claimed, conflict := None, false;
      if lease < 1 {
        return;
      }
      NothingToClaim(cells, locked, provider, token, now);
      var due := ClaimableIds(locked, provider, now);
      var found := First(ids, due);
      if found.None? {
        return;
      }
      var i;
      FirstIsFirstToClaim(cells, locked, provider, now, found.value);
      ClaimEffect(cells[found.value], provider, token, requestKey, lease, now);
      i, conflict := ClaimRow(found.value, provider, token, requestKey, lease, now);
      if i.Some? {
        claimed := Some((found.value, i.value));
      }
    }

    /** Takes over the locked Command's expired Attempt, or opens its next one. */
    method ClaimRow(id: CommandId, provider: Provider, token: Token, requestKey: nat, lease: int, now: int)
      returns (claimed: Option<nat>, conflict: bool)
      requires Valid() && id in commands
      requires lease >= 1 && T.Claimable(CellOf(id), provider, now)
      modifies this
      ensures claimed.Some? ==>
                var (c, attempt) := T.ClaimNext(old(cells)[id], provider, token, requestKey, lease, now);
                !conflict && attempt == claimed && Wrote(id, c)
      ensures claimed.None? ==> Untouched()
      ensures claimed.None? && !conflict ==> HoldsToken(cells[id].attempts, token)
      ensures conflict ==> KeyInUse(cells, provider, requestKey)
    {
      var command := commands[id];
      var expiresAt := Min(now + lease, command.dispatchDeadlineAt);
      var open := Incomplete(attempts[id]);
      if open.Some? {
        var held := attempts[id][open.value];
        if held.leaseToken == token {
          return None, false;
        }
        SetAttempt(id, open.value, held.(leaseToken := token, leaseExpiresAt := expiresAt));
        return open, false;
      }
      if RequestKeyTaken(provider, requestKey) {
        return None, true;
      }
      var attempt := Attempt(
        T.NextAttemptNo(attempts[id]), Claimed, provider, requestKey, None, Unconfirmed, NoEvidence, None,
        token, expiresAt, now, None, None);
      claimed, conflict := Some(|attempts[id]|), false;
      SetAttempts(id, attempts[id] + [attempt]);
    }

    /** Locks the Command row and then the Attempt row. */
    method LockCommandAttempt(id: CommandId, i: nat) returns (locked: Option<(Command, Attempt)>)
      requires Valid()
      ensures locked == (if id in commands && i < |attempts[id]|
                         then Some((commands[id], attempts[id][i])) else None)
    {
      if id !in commands || i >= |attempts[id]| {
        return None;
      }
      return Some((commands[id], attempts[id][i]));
    }

    method ReclaimAttempt(id: CommandId, i: nat, expired: Token, token: Token, lease: int, now: int) returns (ok: bool)
      requires Valid()
      modifies this
      ensures id !in old(cells) ==> !ok && Untouched()
      ensures id in old(cells) ==> Answered(id, T.ReclaimAttempt(old(cells)[id], i, expired, token, lease, now), ok)
      ensures ok ==>
                && id in cells && i < |cells[id].attempts| == |old(cells)[id].attempts|
                && TakenOver(old(cells)[id].attempts[i], cells[id].attempts[i], token)
                && ClaimLease(cells[id].attempts[i], cells[id].command, lease, now)
    {
      if id in cells {
        ReclaimEffect(cells[id], i, expired, token, lease, now);
      }
      if lease < 1 || token == expired {
        return false;
      }
      var locked := LockCommandAttempt(id, i);
      if locked.None? {
        return false;
      }
      var (command, attempt) := locked.value;
      if !command.status.Queued? || command.dispatchDeadlineAt <= now || !attempt.phase.Claimed?
         || attempt.leaseToken != expired || LeaseValid(attempt, now) {
        return false;
      }
      var expiresAt := Min(now + lease, command.dispatchDeadlineAt);
      SetAttempt(id, i, attempt.(leaseToken := token, leaseExpiresAt := expiresAt));
      return true;
    }

    method MarkDispatching(id: CommandId, i: nat, token: Token, resultTimeout: int, lease: int, now: int)
      returns (ok: bool)
      requires Valid()
      modifies this
      ensures id !in old(cells) ==> !ok && Untouched()
      ensures id in old(cells) ==>
                Answered(id, T.MarkDispatching(old(cells)[id], i, token, resultTimeout, lease, now), ok)
      ensures ok ==>
                && id in cells && i < |old(cells)[id].attempts|
                && MarkedAs(old(cells)[id], cells[id], i, resultTimeout, lease, now)
    {
      if id in cells {
        MarkEffect(cells[id], i, token, resultTimeout, lease, now);
      }
      if resultTimeout < 1 || lease < 1 {
        return false;
      }
      var locked := LockCommandAttempt(id, i);
      if locked.None? {
        return false;
      }
      var (command, attempt) := locked.value;
      ok := command.status.Queued? && command.dispatchDeadlineAt > now && attempt.phase.Claimed?
            && attempt.leaseToken == token && LeaseValid(attempt, now);
      if ok {
        SetBoth(id, i, attempt.(phase := Dispatching, leaseExpiresAt := now + lease, dispatchingAt := Some(now)),
          command.(status := Sent, sentAt := Some(now), resultDeadlineAt := Some(now + resultTimeout),
                   updatedAt := now));
      }
    }

    // ---------------------------------------------------------- the completions

    method CompleteAttempt(id: CommandId, i: nat, token: Token, request: Completion, now: int) returns (ok: bool)
      requires Valid()
      modifies this
      ensures id !in old(cells) ==> !ok && Untouched()
      ensures id in old(cells) ==> Answered(id, T.CompleteAttempt(old(cells)[id], i, token, request, now), ok)
    {
      var locked := LockCommandAttempt(id, i);
      if locked.None? {
        return false;
      }
      var (command, attempt) := locked.value;
      if attempt.phase.Completed? || attempt.leaseToken != token || !LeaseValid(attempt, now) {
        return false;
      }
      var beforeDispatch := request.outcome.InvalidRequest? || request.outcome.NotDispatched?;
      if (beforeDispatch && !command.status.Queued?) || (!beforeDispatch && !command.status.Sent?)
         || !AttemptCompletionAllowed(attempt.provider, attempt.phase, request) {
        return false;
      }
      SetAttempt(id, i, T.Finished(attempt, request, now));
      return true;
    }

    method RecoverExpiredDispatching(id: CommandId, i: nat, expired: Token, now: int) returns (ok: bool)
      requires Valid()
      modifies this
      ensures id !in old(cells) ==> !ok && Untouched()
      ensures id in old(cells) ==> Answered(id, T.RecoverExpiredDispatching(old(cells)[id], i, expired, now), ok)
    {
      var locked := LockCommandAttempt(id, i);
      if locked.None? {
        return false;
      }
      var (command, attempt) := locked.value;
      if !command.status.Sent? || !attempt.phase.Dispatching? || attempt.leaseToken != expired
        || LeaseValid(attempt, now) {
        return false;
      }
      var unknown := Completion(Indeterminate, TransportSent, Unverified, Some(ProviderDeliveryUnknown));
      SetBoth(id, i, T.Finished(attempt, unknown, now),
              command.(confirmation := TransportSent, evidence := Unverified, updatedAt := now));
      return true;
    }

    method FinishQueued(id: CommandId, status: CommandStatus, reason: Reason, requireExpired: bool, now: int)
      returns (ok: bool)
      requires Valid()
      modifies this
      ensures id !in old(cells) ==> !ok && Untouched()
      ensures id in old(cells) ==> Answered(id, T.FinishQueued(old(cells)[id], status, reason, requireExpired, now), ok)
    {
      if id !in commands {
        return false;
      }
      var command := commands[id];
      if !command.status.Queued? || (requireExpired && command.dispatchDeadlineAt > now) {
        return false;
      }
      FinishQueuedCases(cells[id], status, reason, requireExpired, now);
      ok := AbandonClaim(id, reason, now);
      if ok {
        SetCommand(id, T.FinishedCommand(command, status, reason, now));
      }
    }

    method AbandonClaim(id: CommandId, reason: Reason, now: int) returns (ok: bool)
      requires Valid() && id in commands
      modifies this
      ensures var c, abandoned := old(cells)[id], T.AbandonClaim(old(cells)[id].attempts, reason, now);
              ok == abandoned.Some? && Wrote(id, if ok then c.(attempts := abandoned.value) else c)
    {
      var open := Incomplete(attempts[id]);
      if open.Some? {
        var attempt := attempts[id][open.value];
        if LeaseValid(attempt, now) || !attempt.phase.Claimed? {
          return false;
        }
        var abandoned := Completion(NotDispatched, Unconfirmed, NoEvidence, Some(reason));
        SetAttempt(id, open.value, T.Finished(attempt, abandoned, now));
      }
      return true;
    }

    method ExpireResultObservation(id: CommandId, now: int) returns (ok: bool)
      requires Valid()
      modifies this
      ensures id !in old(cells) ==> !ok && Untouched()
      ensures id in old(cells) ==> Answered(id, T.ExpireResultObservation(old(cells)[id], now), ok)
    {
      if id !in commands || commands[id].resultDeadlineAt.None? || commands[id].resultDeadlineAt.value > now {
        return false;
      }
      if !commands[id].status.Sent? && !commands[id].status.Acked? {
        return false;
      }
      if Incomplete(attempts[id]).Some? {
        return false;
      }
      SetCommand(id, commands[id].(
        status := Timeout, reason := Some(ResultObservationTimeout), finishedAt := Some(now), updatedAt := now));
      return true;
    }

    // --------------------------------------------------------------- the evidence

    method UpdateEvidenceFromAttempt(id: CommandId, i: nat, token: Token, expected: CommandStatus, now: int)
      returns (ok: bool)
      requires Valid()
      modifies this
      ensures id !in old(cells) ==> !ok && Untouched()
      ensures id in old(cells) ==>
                Answered(id, T.UpdateEvidenceFromAttempt(old(cells)[id], i, token, expected, now), ok)
    {
      var locked := LockCommandAttempt(id, i);
      if locked.None? {
        return false;
      }
      var (command, attempt) := locked.value;
      if command.status != expected || !expected.Sent? || !attempt.phase.Completed? || attempt.leaseToken != token
         || (attempt.outcome != Some(AcceptedByProvider) && attempt.outcome != Some(Indeterminate))
         || !EvidenceProgresses(command.confirmation, command.evidence, attempt.confirmation, attempt.evidence) {
        return false;
      }
      SetCommand(id, command.(confirmation := attempt.confirmation, evidence := attempt.evidence, updatedAt := now));
      return true;
    }

    method TransitionFromAttempt(id: CommandId, i: nat, token: Token, t: StatusTransition, now: int) returns (ok: bool)
      requires Valid()
      modifies this
      ensures id !in old(cells) ==> !ok && Untouched()
      ensures id in old(cells) ==> Answered(id, T.TransitionFromAttempt(old(cells)[id], i, token, t, now), ok)
    {
      var locked := LockCommandAttempt(id, i);
      if locked.None? {
        return false;
      }
      var (command, attempt) := locked.value;
      if command.status != t.from || !attempt.phase.Completed? || attempt.leaseToken != token || attempt.outcome.None?
         || attempt.confirmation != t.confirmation || attempt.evidence != t.evidence
         || !CanTransitionCommand(t.from, t.to) || !AttemptTransitionMatches(attempt.outcome.value, t)
         || !EvidenceDoesNotRegress(command.confirmation, command.evidence, t.confirmation, t.evidence) {
        return false;
      }
      SetCommand(id, command.(
        status := t.to, reason := t.reason, confirmation := t.confirmation, evidence := t.evidence,
        finishedAt := Some(now), updatedAt := now));
      return true;
    }

    method UpdateProviderAcceptance(id: CommandId, i: nat, request: T.VerifiedUpdate, now: int) returns (ok: bool)
      requires Valid()
      modifies this
      ensures id !in old(cells) ==> !ok && Untouched()
      ensures id in old(cells) ==> Answered(id, T.UpdateProviderAcceptance(old(cells)[id], i, request, now), ok)
    {
      var locked := LockCommandAttempt(id, i);
      if locked.None? {
        return false;
      }
      var (command, attempt) := locked.value;
      if command.status != request.expected || !request.expected.Sent?
         || !attempt.phase.Completed? || attempt.outcome != Some(AcceptedByProvider)
         || !request.outcome.AcceptedByProvider?
         || !attempt.provider.Simulator? || !attempt.confirmation.ProviderAccepted?
         || !EvidenceProgresses(command.confirmation, command.evidence, ProviderAccepted, Verified)
         || !EvidenceProgresses(attempt.confirmation, attempt.evidence, ProviderAccepted, Verified)
      {
        return false;
      }
      if !T.MessageMatches(command, attempt, request) {
        return false;
      }
      SetBoth(id, i, attempt.(evidence := Verified),
              command.(confirmation := ProviderAccepted, evidence := Verified, updatedAt := now));
      return true;
    }

    /** Stores a Result and aggregates it into its Command; false is ErrInvalidRepositoryRequest. */
    method ApplyResult(id: CommandId, result: CommandResult) returns (ok: bool)
      requires Valid() && id in commands
      modifies this
      ensures var c, applied := old(cells)[id], T.ApplyResult(old(cells)[id].command, result);
              if applied.None? then !ok && Untouched() else ok && Wrote(id, c.(command := applied.value))
    {
      var command := commands[id];
      if result.late != IsTerminal(command.status) {
        return false;
      }
      if result.late {
        if EvidenceProgresses(command.confirmation, command.evidence, result.confirmation, result.evidence) {
          command := command.(confirmation := result.confirmation, evidence := result.evidence,
                              updatedAt := result.observedAt);
        }
        SetCommand(id, command);
        return true;
      }
      var status, reason, finishedAt;
      match result.outcome {
        case AckReported =>
          if !command.status.Sent? {
            return false;
          }
          status, reason, finishedAt := Acked, None, None;
        case SuccessReported =>
          if !command.status.Sent? && !command.status.Acked? {
            return false;
          }
          status, reason, finishedAt := Success, None, Some(result.observedAt);
        case FailureReported =>
          if !command.status.Sent? && !command.status.Acked? {
            return false;
          }
          status, reason, finishedAt := Failed, Some(DeviceReportedFailure), Some(result.observedAt);
      }
      SetCommand(id, command.(
        status := status, reason := reason, confirmation := result.confirmation, evidence := result.evidence,
        finishedAt := finishedAt, updatedAt := result.observedAt));
      return true;
    }

    method SetAttempts(id: CommandId, rows: seq<Attempt>)
      requires Valid() && id in commands
      modifies this
      ensures Wrote(id, old(cells)[id].(attempts := rows))
    {
      attempts := attempts[id := rows];
      cells := cells[id := Cell(commands[id], attempts[id], results[id], events[id])];
    }

    method SetResults(id: CommandId, rows: seq<CommandResult>)
      requires Valid() && id in commands
      modifies this
      ensures Wrote(id, old(cells)[id].(results := rows))
    {
      results := results[id := rows];
      cells := cells[id := Cell(commands[id], attempts[id], results[id], events[id])];
    }

    method SetEvents(id: CommandId, rows: seq<Event>)
      requires Valid() && id in commands
      modifies this
      ensures Wrote(id, old(cells)[id].(events := rows))
    {
      events := events[id := rows];
      cells := cells[id := Cell(commands[id], attempts[id], results[id], events[id])];
    }

    method AppendEvent(id: CommandId, event: Event)
      requires Valid() && id in commands
      modifies this
      ensures Wrote(id, old(cells)[id].(events := old(cells)[id].events + [event]))
    {
      SetEvents(id, events[id] + [event]);
    }
  }

  /** Some Attempt was opened under that Provider request key. */
  ghost predicate KeyInUse(cells: map<CommandId, Cell>, provider: Provider, key: nat)
  {
    exists id :: id in cells && UsesKey(cells[id].attempts, provider, key)
  }

  predicate UsesKey(attempts: seq<Attempt>, provider: Provider, key: nat)
  {
    exists i :: 0 <= i < |attempts| && attempts[i].provider == provider && attempts[i].requestKey == key
  }

  predicate HoldsToken(attempts: seq<Attempt>, token: Token)
  {
    exists i :: 0 <= i < |attempts| && attempts[i].leaseToken == token
  }

  /** No unlocked Command is claimable, or the token offered is one that is already in use. */
  ghost predicate NothingClaimable(cells: map<CommandId, Cell>, locked: set<CommandId>, provider: Provider,
                                   token: Token, now: int)
  {
    || ClaimableRows(cells, locked, provider, now) == map[]
    || exists id :: id in cells && HoldsToken(cells[id].attempts, token)
  }

  /** The Commands a claim may take, with the instant they are ordered by. */
  ghost function ClaimableRows(cells: map<CommandId, Cell>, locked: set<CommandId>, provider: Provider,
                               now: int): map<CommandId, Rank>
  {
    map id | id in cells && id !in locked && T.Claimable(cells[id], provider, now) :: (cells[id].command.queuedAt, 0)
  }

  /** Of all unlocked Commands that may be claimed, `id` was queued first; identifiers break ties. */
  ghost predicate FirstToClaim(cells: map<CommandId, Cell>, locked: set<CommandId>, provider: Provider, now: int,
                               id: CommandId)
  {
    && id in cells && id !in locked && MayClaim(cells[id], provider, now)
    && forall other :: other in cells && other !in locked && MayClaim(cells[other], provider, now) ==>
         || cells[id].command.queuedAt < cells[other].command.queuedAt
         || (cells[id].command.queuedAt == cells[other].command.queuedAt && id <= other)
  }

  lemma FirstIsFirstToClaim(cells: map<CommandId, Cell>, locked: set<CommandId>, provider: Provider, now: int,
                            id: CommandId)
    requires IsFirst(ClaimableRows(cells, locked, provider, now), id)
    ensures FirstToClaim(cells, locked, provider, now, id)
  {
    var due := ClaimableRows(cells, locked, provider, now);
    ClaimableIff(cells[id], provider, now);
    forall other | other in cells && other !in locked && MayClaim(cells[other], provider, now)
      ensures || cells[id].command.queuedAt < cells[other].command.queuedAt
              || (cells[id].command.queuedAt == cells[other].command.queuedAt && id <= other)
    {
      ClaimableIff(cells[other], provider, now);
      assert ComesBefore(due, id, other);
    }
  }

  lemma NothingToClaim(cells: map<CommandId, Cell>, locked: set<CommandId>, provider: Provider, token: Token, now: int)
    ensures NothingClaimable(cells, locked, provider, token, now) ==>
              || (forall id :: id in cells && id !in locked ==> !MayClaim(cells[id], provider, now))
              || (exists id :: id in cells && HoldsToken(cells[id].attempts, token))
  {
    if ClaimableRows(cells, locked, provider, now) == map[] {
      forall id | id in cells && id !in locked
        ensures !MayClaim(cells[id], provider, now)
      {
        ClaimableIff(cells[id], provider, now);
        assert id !in ClaimableRows(cells, locked, provider, now);
      }
    }
  }

  lemma FinishQueuedCases(c: Cell, status: CommandStatus, reason: Reason, requireExpired: bool, now: int)
    requires c.command.status.Queued? && !(requireExpired && c.command.dispatchDeadlineAt > now)
    ensures T.FinishQueued(c, status, reason, requireExpired, now) ==
            match T.AbandonClaim(c.attempts, reason, now)
            case None => (c, false)
            case Some(attempts) =>
              (c.(attempts := attempts, command := T.FinishedCommand(c.command, status, reason, now)), true)
  {
  }
}
