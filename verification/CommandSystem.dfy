/**
 * All Commands and all workers together. Every transaction is one atomic step with its own
 * arbitrary clock (each one locks its Command row first); between transactions a worker holds
 * only local state, which a crash, a failed commit or a rollback drops. Provider calls happen
 * outside transactions and are logged in `calls`.
 */
module CommandSystem {
  import opened Prelude
  import opened Lifecycle
  import opened CommandRows
  import opened CommandGuards
  import opened CommandTransactions
  import opened CommandInvariant
  import opened CommandHistory
  import opened CommandEvents
  import opened CommandProvenance

  type WorkerId = nat

  /** Where one dispatch goroutine stands between two transactions. */
  datatype Local =
    | Idle
    | Holding(id: CommandId, attempt: nat, token: Token)                        // claimed, not yet committed
    | Armed(id: CommandId, attempt: nat, token: Token)                          // committed, about to call the Provider
    | Answered(id: CommandId, attempt: nat, token: Token, result: DispatchResult)  // called, outcome not yet stored

  /** The validity window of one lease token, as far as it is known. */
  datatype Grant = Grant(token: Token, from: int, until: int)

  datatype Sys = Sys(
    cells: map<CommandId, Cell>,
    workers: map<WorkerId, Local>,
    calls: seq<CommandId>,
    grants: map<CommandId, seq<Grant>>)

  datatype Action =
    | Create(id: CommandId, project: nat, key: string, request: Request, provider: Provider, policy: Policy, now: int)
    | Claim(w: WorkerId, id: CommandId, provider: Provider, token: Token, requestKey: nat, lease: int, now: int)
    | Reclaim(w: WorkerId, id: CommandId, attempt: nat, expired: Token, token: Token, lease: int, now: int)
    | FailBefore(w: WorkerId, reason: Reason, now: int)
    | CommitToDispatch(w: WorkerId, deviceOnline: bool, lease: int, now: int)
    | CallProvider(w: WorkerId, result: DispatchResult)
    | Persist(w: WorkerId, now: int)
    | Crash(w: WorkerId)
    | Unattended(id: CommandId, op: CellOp)

  function LocalOf(s: Sys, w: WorkerId): Local
  {
    if w in s.workers then s.workers[w] else Idle
  }

  function GrantsOf(s: Sys, id: CommandId): seq<Grant>
  {
    if id in s.grants then s.grants[id] else []
  }

  /** The transactions that are not tied to a worker's claim. */
  predicate IsUnattended(op: CellOp)
  {
    || op.DoRecover? || op.DoExpireQueued? || op.DoExpireObservation?
    || op.DoCancel? || op.DoVerifyAcceptance? || op.DoRecord?
  }

  predicate IdempotencyKeyTaken(cells: map<CommandId, Cell>, project: nat, key: string)
  {
    exists id :: id in cells && cells[id].command.project == project && cells[id].command.idempotencyKey == key
  }

  predicate ResultKeyTaken(cells: map<CommandId, Cell>, source: EventSource, key: string)
  {
    exists id, i :: id in cells && 0 <= i < |cells[id].results| && ResultAt(cells, id, i, source, key)
  }

  predicate ResultAt(cells: map<CommandId, Cell>, id: CommandId, i: nat, source: EventSource, key: string)
    requires id in cells && i < |cells[id].results|
  {
    cells[id].results[i].source == source && cells[id].results[i].deduplicationKey == key
  }

  /** The transaction an action runs, and on which Command; None when it runs none. */
  function OpOf(s: Sys, a: Action): (target: Option<(CommandId, CellOp)>)
    ensures target.Some? ==> target.value.0 in s.cells
  {
    match a
    case Claim(w, id, provider, token, requestKey, lease, now) =>
      if LocalOf(s, w).Idle? && id in s.cells then Some((id, DoClaim(provider, token, requestKey, lease, now)))
      else None
    case Reclaim(w, id, attempt, expired, token, lease, now) =>
      if LocalOf(s, w).Idle? && id in s.cells then Some((id, DoReclaim(attempt, expired, token, lease, now))) else None
    case FailBefore(w, reason, now) =>
      var l := LocalOf(s, w);
      if l.Holding? && l.id in s.cells then Some((l.id, DoFailBefore(l.attempt, l.token, reason, now))) else None
    case CommitToDispatch(w, deviceOnline, lease, now) =>
      var l := LocalOf(s, w);
      if l.Holding? && l.id in s.cells then Some((l.id, DoCommitDispatch(l.attempt, l.token, deviceOnline, lease, now)))
      else None
    case Persist(w, now) =>
      var l := LocalOf(s, w);
      if l.Answered? && l.id in s.cells then Some((l.id, DoPersist(l.attempt, l.token, l.result, now))) else None
    case Unattended(id, op) =>
      if id !in s.cells || !IsUnattended(op) then None
      else if op.DoRecord? && ResultKeyTaken(s.cells, op.report.source, op.report.deduplicationKey) then None
      else Some((id, op))
    case _ => None
  }

  function CellsAfter(s: Sys, a: Action): map<CommandId, Cell>
  {
    if a.Create? then
      if a.id in s.cells || IdempotencyKeyTaken(s.cells, a.project, a.key) then s.cells
      else s.cells[a.id := NewCell(a.project, a.key, a.request, a.provider, a.policy, a.now)]
    else
      match OpOf(s, a)
      case None => s.cells
      case Some((id, op)) => s.cells[id := Step(s.cells[id], op)]
  }

  /** The acting worker's local state afterwards. */
  function LocalAfter(s: Sys, a: Action, w: WorkerId): Local
  {
    var l := LocalOf(s, w);
    match a
    case Claim(v, id, provider, token, requestKey, lease, now) =>
      if v != w || OpOf(s, a).None? then l
      else
        var (_, attempt) := ClaimNext(s.cells[id], provider, token, requestKey, lease, now);
        if attempt.Some? then Holding(id, attempt.value, token) else l
    case Reclaim(v, id, attempt, expired, token, lease, now) =>
      if v != w || OpOf(s, a).None? || !ReclaimAttempt(s.cells[id], attempt, expired, token, lease, now).1 then l
      else Holding(id, attempt, token)
    case FailBefore(v, _, _) => if v == w && l.Holding? then Idle else l
    case CommitToDispatch(v, _, _, _) =>
      if v != w || OpOf(s, a).None? then l
      else
        var r := TransactionOf(s.cells[l.id], OpOf(s, a).value.1);
        if r.Commit? && r.dispatched then Armed(l.id, l.attempt, l.token) else Idle
    case CallProvider(v, result) => if v == w && l.Armed? then Answered(l.id, l.attempt, l.token, result) else l
    case Persist(v, _) => if v == w && l.Answered? then Idle else l
    case Crash(v) => if v == w then Idle else l
    case _ => l
  }

  /** Whether the action is the one that hands a frozen request to the Provider adapter. */
  predicate Calls(s: Sys, a: Action)
  {
    a.CallProvider? && LocalOf(s, a.w).Armed?
  }

  /** A committed claim opens a window; committing to dispatch moves the end of the open one. */
  function Granted(g: seq<Grant>, c: Cell, op: CellOp): seq<Grant>
  {
    var c' := Step(c, op);
    if !TransactionOf(c, op).Commit? || |c'.attempts| != 1 then g
    else if op.DoClaim? || op.DoReclaim? then g + [Grant(op.token, op.now, c'.attempts[0].leaseExpiresAt)]
    else if op.DoCommitDispatch? && g != [] then g[|g| - 1 := g[|g| - 1].(until := c'.attempts[0].leaseExpiresAt)]
    else g
  }

  function GrantsAfter(s: Sys, a: Action): map<CommandId, seq<Grant>>
  {
    match OpOf(s, a)
    case None => s.grants
    case Some((id, op)) => s.grants[id := Granted(GrantsOf(s, id), s.cells[id], op)]
  }

  function Apply(s: Sys, a: Action): Sys
  {
    var workers := if a.Create? || a.Unattended? then s.workers else s.workers[a.w := LocalAfter(s, a, a.w)];
    var calls := if Calls(s, a) then s.calls + [LocalOf(s, a.w).id] else s.calls;
    Sys(CellsAfter(s, a), workers, calls, GrantsAfter(s, a))
  }

  const EMPTY_SYSTEM: Sys := Sys(map[], map[], [], map[])

  /** The system after any sequence of actions of any number of workers. */
  function Execute(actions: seq<Action>): Sys
    decreases |actions|
  {
    if actions == [] then EMPTY_SYSTEM
    else Apply(Execute(actions[..|actions| - 1]), actions[|actions| - 1])
  }

  // -------------------------------------------------------------- the invariant

  ghost predicate CellOk(c: Cell)
  {
    RowsOk(c) && LogOk(c) && Proven(c)
  }

  /** `w` committed to dispatch the Command and has not called the Provider yet. */
  predicate ArmedFor(s: Sys, w: WorkerId, id: CommandId)
  {
    LocalOf(s, w).Armed? && LocalOf(s, w).id == id
  }

  predicate Committed(s: Sys, id: CommandId)
  {
    id in s.cells && s.cells[id].command.sentAt.Some?
  }

  /** One right to call the Provider per committed Command: armed in one worker, or spent in `calls`. */
  ghost predicate DispatchOk(s: Sys)
  {
    && (forall w :: LocalOf(s, w).Armed? ==> Committed(s, LocalOf(s, w).id) && LocalOf(s, w).id !in s.calls)
    && (forall v, w :: LocalOf(s, v).Armed? && ArmedFor(s, w, LocalOf(s, v).id) ==> v == w)
    && (forall id :: id in s.calls ==> Committed(s, id))
    && Distinct(s.calls)
  }

  predicate SameKey(k: Command, k': Command)
  {
    k.project == k'.project && k.idempotencyKey == k'.idempotencyKey
  }

  /** No two Commands of a Project share an idempotency key. */
  ghost predicate KeysOk(cells: map<CommandId, Cell>)
  {
    forall i, j :: i in cells && j in cells && SameKey(cells[i].command, cells[j].command) ==> i == j
  }

  ghost predicate SysOk(s: Sys)
  {
    && (forall id :: id in s.cells ==> CellOk(s.cells[id]))
    && DispatchOk(s)
    && KeysOk(s.cells)
  }

  lemma StepKeepsCell(c: Cell, op: CellOp)
    requires CellOk(c)
    ensures CellOk(Step(c, op))
    ensures Advances(c, Step(c, op))
  {
    StepKeepsRows(c, op);
    StepAdvances(c, op);
    StepLogs(c, op);
    LogsKeepLogOk(c, Step(c, op));
    StepKeepsProven(c, op);
  }

  lemma NewCellIsOk(project: nat, key: string, request: Request, provider: Provider, policy: Policy, now: int)
    ensures CellOk(NewCell(project, key, request, provider, policy, now))
  {
    NewCellOk(project, key, request, provider, policy, now);
  }

  ghost predicate AllAdvance(cells: map<CommandId, Cell>, cells': map<CommandId, Cell>)
  {
    && (forall id :: id in cells ==> id in cells')
    && (forall id {:trigger Advances(cells[id], cells'[id])} :: id in cells ==> Advances(cells[id], cells'[id]))
  }

  /** One action changes at most one Command, by one transaction. */
  lemma ApplyCells(s: Sys, a: Action)
    requires forall id :: id in s.cells ==> CellOk(s.cells[id])
    ensures AllAdvance(s.cells, Apply(s, a).cells)
    ensures forall id :: id in Apply(s, a).cells ==> CellOk(Apply(s, a).cells[id])
  {
    var s' := Apply(s, a);
    forall id | id in s'.cells
      ensures CellOk(s'.cells[id])
      ensures id in s.cells ==> Advances(s.cells[id], s'.cells[id])
    {
      if id in s.cells {
        StaysPut(s.cells[id]);
        if OpOf(s, a).Some? {
          StepKeepsCell(s.cells[OpOf(s, a).value.0], OpOf(s, a).value.1);
        }
      } else {
        NewCellIsOk(a.project, a.key, a.request, a.provider, a.policy, a.now);
      }
    }
  }

  lemma CommitmentStays(cells: map<CommandId, Cell>, cells': map<CommandId, Cell>, id: CommandId)
    requires AllAdvance(cells, cells')
    requires id in cells && cells[id].command.sentAt.Some?
    ensures id in cells' && cells'[id].command.sentAt.Some?
  {
    assert Advances(cells[id], cells'[id]);
  }

  /** Only a Command that was never committed before can arm a worker, and arming commits it. */
  lemma ArmingCommits(c: Cell, attempt: nat, token: Token, deviceOnline: bool, lease: int, now: int)
    requires RowsOk(c)
    ensures var r := CommitDispatch(c, attempt, token, deviceOnline, lease, now);
            r.Commit? && r.dispatched ==> c.command.sentAt.None? && r.cell.command.sentAt.Some?
  {
  }

  /** A worker that is armed afterwards was armed already, or has just committed a fresh Command. */
  lemma ApplyArmed(s: Sys, a: Action, w: WorkerId)
    requires forall id :: id in s.cells ==> CellOk(s.cells[id])
    ensures var l := LocalOf(Apply(s, a), w);
            l.Armed? ==>
              || (l == LocalOf(s, w) && !(a.CallProvider? && a.w == w))
              || (a.CommitToDispatch? && a.w == w && !Committed(s, l.id) && Committed(Apply(s, a), l.id))
  {
    if a.CommitToDispatch? && a.w == w && OpOf(s, a).Some? {
      var l := LocalOf(s, w);
      ArmingCommits(s.cells[l.id], l.attempt, l.token, a.deviceOnline, a.lease, a.now);
    }
  }

  /** What one action did to the right to call the Provider. */
  ghost predicate DispatchStep(s: Sys, s': Sys, actor: WorkerId)
  {
    && (forall id :: Committed(s, id) ==> Committed(s', id))
    && (forall w :: LocalOf(s', w).Armed? ==>
          || LocalOf(s', w) == LocalOf(s, w)
          || (w == actor && !Committed(s, LocalOf(s', w).id) && Committed(s', LocalOf(s', w).id)))
    && (s'.calls == s.calls
        || (LocalOf(s, actor).Armed? && !LocalOf(s', actor).Armed? && s'.calls == s.calls + [LocalOf(s, actor).id]))
  }

  lemma ApplyIsDispatchStep(s: Sys, a: Action)
    requires forall id :: id in s.cells ==> CellOk(s.cells[id])
    ensures exists actor :: DispatchStep(s, Apply(s, a), actor)
  {
    var s' := Apply(s, a);
    ApplyCells(s, a);
    forall id | Committed(s, id)
      ensures Committed(s', id)
    {
      CommitmentStays(s.cells, s'.cells, id);
    }
    var actor := if a.Create? || a.Unattended? then 0 else a.w;
    forall w | LocalOf(s', w).Armed?
      ensures || LocalOf(s', w) == LocalOf(s, w)
              || (w == actor && !Committed(s, LocalOf(s', w).id) && Committed(s', LocalOf(s', w).id))
    {
      ApplyArmed(s, a, w);
    }
    assert DispatchStep(s, s', actor);
  }

  lemma DispatchStepKeeps(s: Sys, s': Sys, actor: WorkerId)
    requires DispatchOk(s) && DispatchStep(s, s', actor)
    ensures DispatchOk(s')
  {
    forall w | LocalOf(s', w).Armed?
      ensures Committed(s', LocalOf(s', w).id) && LocalOf(s', w).id !in s'.calls
    {
      if LocalOf(s', w) == LocalOf(s, w) && s'.calls != s.calls {
        assert ArmedFor(s, w, LocalOf(s, w).id) && ArmedFor(s, actor, LocalOf(s, actor).id);
      }
    }
    forall v, w | LocalOf(s', v).Armed? && ArmedFor(s', w, LocalOf(s', v).id)
      ensures v == w
    {
      if LocalOf(s', v) == LocalOf(s, v) && LocalOf(s', w) == LocalOf(s, w) {
        assert ArmedFor(s, w, LocalOf(s, v).id);
      }
    }
  }

  lemma ApplyKeepsKeys(s: Sys, a: Action)
    requires SysOk(s)
    requires AllAdvance(s.cells, CellsAfter(s, a))
    ensures KeysOk(CellsAfter(s, a))
  {
    var cells' := CellsAfter(s, a);
    forall id | id in s.cells
      ensures SameKey(s.cells[id].command, cells'[id].command)
    {
      assert Advances(s.cells[id], cells'[id]);
    }
  }

  lemma {:induction false} ExecuteKeepsSysOk(actions: seq<Action>)
    ensures SysOk(Execute(actions))
    decreases |actions|
  {
    if actions == [] {
    } else {
      var before, a := Execute(actions[..|actions| - 1]), actions[|actions| - 1];
      ExecuteKeepsSysOk(actions[..|actions| - 1]);
      ApplyCells(before, a);
      ApplyIsDispatchStep(before, a);
      var actor :| DispatchStep(before, Apply(before, a), actor);
      DispatchStepKeeps(before, Apply(before, a), actor);
      ApplyKeepsKeys(before, a);
    }
  }

  // ------------------------------------------------------------------ theorems

  /** Statuses and reasons of Commands that ended before any commitment to dispatch. */
  predicate EndedUndispatched(k: Command)
  {
    || k.status.Queued? || k.status.Cancelled?
    || (k.status.Timeout? && k.reason == Some(DispatchDeadlineExceeded))
    || (k.status.Failed? && k.reason.Some? && (PreparationReason(k.reason.value) || k.reason.value.DeviceNotOnline?))
  }

  lemma UndispatchedNeverSent(k: Command)
    requires CommandShape(k) && EndedUndispatched(k)
    ensures k.sentAt.None?
  {
  }

  /**
   * At-most-once dispatch. For any workers, crashes, lease expiries, reclaims, cancels and
   * clocks: no Command is handed to its Provider twice, none has two Attempts, and a queued,
   * cancelled, dispatch-expired or preparation-failed Command was never handed over.
   */
  lemma AtMostOnceDispatch(actions: seq<Action>)
    ensures var s := Execute(actions);
            && Distinct(s.calls)
            && (forall id :: id in s.cells ==> |s.cells[id].attempts| <= 1)
            && (forall id :: id in s.calls ==> id in s.cells && !EndedUndispatched(s.cells[id].command))
  {
    ExecuteKeepsSysOk(actions);
    var s := Execute(actions);
    forall id | id in s.calls
      ensures id in s.cells && !EndedUndispatched(s.cells[id].command)
    {
      assert Committed(s, id) && CellOk(s.cells[id]);
      if EndedUndispatched(s.cells[id].command) {
        UndispatchedNeverSent(s.cells[id].command);
      }
    }
    forall id | id in s.cells
      ensures |s.cells[id].attempts| <= 1
    {
      assert RowsOk(s.cells[id]);
    }
  }

  lemma AllAdvanceTransitive(a: map<CommandId, Cell>, b: map<CommandId, Cell>, c: map<CommandId, Cell>)
    requires AllAdvance(a, b) && AllAdvance(b, c)
    ensures AllAdvance(a, c)
  {
    forall id | id in a
      ensures id in c && Advances(a[id], c[id])
    {
      AdvancesTransitive(a[id], b[id], c[id]);
    }
  }

  lemma ExecuteOneMore(actions: seq<Action>, a: Action)
    ensures Execute(actions + [a]) == Apply(Execute(actions), a)
  {
    assert (actions + [a])[..|actions|] == actions;
  }

  lemma AllAdvanceStill(cells: map<CommandId, Cell>)
    ensures AllAdvance(cells, cells)
  {
    forall id | id in cells
      ensures Advances(cells[id], cells[id])
    {
      StaysPut(cells[id]);
    }
  }

  /** Between any two moments of any run every Command only advances: see Advances for what that fixes. */
  lemma {:induction false} RunsAdvance(earlier: seq<Action>, later: seq<Action>)
    ensures AllAdvance(Execute(earlier).cells, Execute(earlier + later).cells)
    decreases |later|
  {
    if later == [] {
      assert earlier + later == earlier;
      AllAdvanceStill(Execute(earlier).cells);
    } else {
      var init, a := later[..|later| - 1], later[|later| - 1];
      RunsAdvance(earlier, init);
      ExecuteKeepsSysOk(earlier + init);
      assert earlier + later == (earlier + init) + [a];
      ExecuteOneMore(earlier + init, a);
      var mid := Execute(earlier + init);
      ApplyCells(mid, a);
      AllAdvanceTransitive(Execute(earlier).cells, mid.cells, Apply(mid, a).cells);
    }
  }

  // ---------------------------------------------------------- what the actions come to

  /** Every transaction nobody holds a claim for acts on its Command, but for a Result under a key already stored. */
  lemma UnattendedActs(s: Sys, id: CommandId, op: CellOp)
    requires id in s.cells
    requires op.DoRecover? || op.DoExpireQueued? || op.DoExpireObservation? || op.DoCancel? || op.DoVerifyAcceptance?
             || (op.DoRecord? && !ResultKeyTaken(s.cells, op.report.source, op.report.deduplicationKey))
    ensures var s' := Apply(s, Unattended(id, op));
            s'.cells == s.cells[id := Step(s.cells[id], op)] && s'.workers == s.workers && s'.calls == s.calls
  {
  }

  /** A worker takes over an expired claim by its old token. */
  lemma ReclaimActs(s: Sys, w: WorkerId, id: CommandId, attempt: nat, expired: Token, token: Token, lease: int,
                    now: int)
    requires LocalOf(s, w) == Idle && id in s.cells
    ensures var (c, ok) := ReclaimAttempt(s.cells[id], attempt, expired, token, lease, now);
            var s' := Apply(s, Reclaim(w, id, attempt, expired, token, lease, now));
            && s'.cells == s.cells[id := c]
            && LocalOf(s', w) == if ok then Holding(id, attempt, token) else Idle
  {
    assert TransactionOf(s.cells[id], DoReclaim(attempt, expired, token, lease, now)).Commit?
           <==> ReclaimAttempt(s.cells[id], attempt, expired, token, lease, now).1;
  }

  /** A worker that holds a claim and meets nobody commits it, calls the Provider once and stores the answer. */
  lemma OneRound(s: Sys, w: WorkerId, id: CommandId, attempt: nat, token: Token, online: bool, lease: int, now: int,
                 result: DispatchResult, later: int)
    requires LocalOf(s, w) == Holding(id, attempt, token) && id in s.cells
    requires var r := TransactionOf(s.cells[id], DoCommitDispatch(attempt, token, online, lease, now));
             r.Commit? && r.dispatched
    ensures var sent := Step(s.cells[id], DoCommitDispatch(attempt, token, online, lease, now));
            var s2 := Apply(Apply(s, CommitToDispatch(w, online, lease, now)), CallProvider(w, result));
            var s3 := Apply(s2, Persist(w, later));
            && s2.cells == s.cells[id := sent] && s2.calls == s.calls + [id]
            && s3.cells == s.cells[id := Step(sent, DoPersist(attempt, token, result, later))]
            && s3.calls == s2.calls && LocalOf(s3, w) == Idle
  {
    var s1 := Apply(s, CommitToDispatch(w, online, lease, now));
    assert LocalOf(s1, w) == Armed(id, attempt, token);
    var s2 := Apply(s1, CallProvider(w, result));
    assert LocalOf(s2, w) == Answered(id, attempt, token, result) && s2.cells == s1.cells;
  }
}
