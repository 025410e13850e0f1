/**
 * The maintenance half of Worker.Run: the poll loop over recovery and the two expiries, with
 * other processes acting between any two of its transactions and with transactions that fail.
 */
module CommandMaintenance {
  import opened Prelude
  import opened Lifecycle
  import opened CommandRows
  import opened CommandStore
  import opened CommandInvariant
  import opened CommandProgress
  import opened CommandSystem
  import opened CommandSurroundings
  import opened CommandWorker
  import Fencing = CommandFencing
  import T = CommandTransactions

  // ------------------------------------------------- one Command past its deadlines

  predicate Ended(c: Cell)
  {
    IsTerminal(c.command.status) || Stranded(c)
  }

  /** The Attempt of a sent Command still dispatches. */
  predicate InFlight(c: Cell)
  {
    Dispatching1(c) && c.command.status.Sent?
  }

  /** What a later transaction may still do to a Command whose deadlines have all passed at `horizon`. */
  ghost predicate Winds(c: Cell, c': Cell, horizon: int)
  {
    && PastDeadlines(c', horizon)
    && Pending(c') <= Pending(c)
    && (!c.command.status.Queued? ==> !c'.command.status.Queued?)
    && (!InFlight(c) ==> !InFlight(c'))
    && (Ended(c) ==> Ended(c'))
  }

  lemma PendingOfOne(c: Cell)
    requires RowsOk(c)
    ensures IncompleteCount(c.attempts) == if |c.attempts| == 1 && !c.attempts[0].phase.Completed? then 1 else 0
  {
    if |c.attempts| == 1 {
      assert c.attempts[..0] == [];
    }
  }

  /** Past the deadlines a worker's claim is lost, so it can neither be committed nor completed. */
  lemma LateWorkerDoesNothing(c: Cell, op: T.CellOp, horizon: int)
    requires RowsOk(c) && PastDeadlines(c, horizon) && op.now >= horizon
    requires op.DoClaim? || op.DoReclaim? || op.DoFailBefore? || op.DoCommitDispatch? || op.DoPersist?
    ensures T.Step(c, op) == c
  {
  }

  lemma LateStepWinds(c: Cell, op: T.CellOp, horizon: int)
    requires RowsOk(c) && PastDeadlines(c, horizon) && op.now >= horizon
    ensures Winds(c, T.Step(c, op), horizon)
  {
    StepKeepsRows(c, op);
    PendingOfOne(c);
    PendingOfOne(T.Step(c, op));
    if op.DoClaim? || op.DoReclaim? || op.DoFailBefore? || op.DoCommitDispatch? || op.DoPersist? {
      LateWorkerDoesNothing(c, op, horizon);
    } else if op.DoRecord? {
      LateRecordWinds(c, op, horizon);
    } else if op.DoVerifyAcceptance? {
      LateVerificationWinds(c, op, horizon);
    } else {
      LateEndingWinds(c, op, horizon);
    }
  }

  lemma LateRecordWinds(c: Cell, op: T.CellOp, horizon: int)
    requires RowsOk(c) && PastDeadlines(c, horizon) && op.DoRecord?
    requires RowsOk(T.Step(c, op))
    ensures Winds(c, T.Step(c, op), horizon)
  {
  }

  lemma LateVerificationWinds(c: Cell, op: T.CellOp, horizon: int)
    requires RowsOk(c) && PastDeadlines(c, horizon) && op.DoVerifyAcceptance?
    requires RowsOk(T.Step(c, op))
    ensures Winds(c, T.Step(c, op), horizon)
  {
    PendingOfOne(c);
    PendingOfOne(T.Step(c, op));
  }

  lemma LateEndingWinds(c: Cell, op: T.CellOp, horizon: int)
    requires RowsOk(c) && PastDeadlines(c, horizon)
    requires op.DoRecover? || op.DoExpireQueued? || op.DoExpireObservation? || op.DoCancel?
    requires RowsOk(T.Step(c, op))
    ensures Winds(c, T.Step(c, op), horizon)
  {
    PendingOfOne(c);
    PendingOfOne(T.Step(c, op));
  }

  /** A Command that none of the three transactions would take has ended. */
  lemma NothingLeft(c: Cell, horizon: int, now: int)
    requires RowsOk(c) && PastDeadlines(c, horizon) && horizon <= now
    requires !InFlight(c) && !c.command.status.Queued? && T.ExpireNextResultObservation(c, now).Rollback?
    ensures Ended(c)
  {
  }

  lemma NotRecoverable(c: Cell, horizon: int, now: int)
    requires RowsOk(c) && PastDeadlines(c, horizon) && horizon <= now && T.RecoverNext(c, now).Rollback?
    ensures !InFlight(c)
  {
  }

  lemma NotQueued(c: Cell, horizon: int, now: int)
    requires RowsOk(c) && PastDeadlines(c, horizon) && horizon <= now && T.ExpireNextQueued(c, now).Rollback?
    ensures !c.command.status.Queued?
  {
  }

  // ------------------------------------------------------------------ all Commands

  /** The Commands whose rows still wait for an instant after `horizon`. */
  ghost function Waiting(cells: map<CommandId, Cell>, horizon: int): set<CommandId>
  {
    set id | id in cells && !PastDeadlines(cells[id], horizon)
  }

  ghost function Flying(cells: map<CommandId, Cell>, skipped: set<CommandId>): set<CommandId>
  {
    set id | id in cells && id !in skipped && InFlight(cells[id])
  }

  ghost function StillQueued(cells: map<CommandId, Cell>, skipped: set<CommandId>): set<CommandId>
  {
    set id | id in cells && id !in skipped && cells[id].command.status.Queued?
  }

  ghost function NotEnded(cells: map<CommandId, Cell>, skipped: set<CommandId>): set<CommandId>
  {
    set id | id in cells && id !in skipped && !Ended(cells[id])
  }

  ghost predicate AllPast(cells: map<CommandId, Cell>, horizon: int)
  {
    Waiting(cells, horizon) == {}
  }

  /** Of the Commands that were not skipped none is in flight; likewise the next two. */
  ghost predicate NoneInFlight(cells: map<CommandId, Cell>, skipped: set<CommandId>)
  {
    Flying(cells, skipped) == {}
  }

  ghost predicate NoneQueued(cells: map<CommandId, Cell>, skipped: set<CommandId>)
  {
    StillQueued(cells, skipped) == {}
  }

  ghost predicate AllEnded(cells: map<CommandId, Cell>, skipped: set<CommandId>)
  {
    NotEnded(cells, skipped) == {}
  }

  lemma EndedUnlessSkipped(cells: map<CommandId, Cell>, skipped: set<CommandId>)
    requires AllEnded(cells, skipped)
    ensures forall id :: id in cells && id !in skipped ==> Ended(cells[id])
  {
    forall id | id in cells && id !in skipped
      ensures Ended(cells[id])
    {
      assert id !in NotEnded(cells, skipped);
    }
  }

  lemma IsPast(cells: map<CommandId, Cell>, horizon: int, id: CommandId)
    requires AllPast(cells, horizon) && id in cells
    ensures PastDeadlines(cells[id], horizon)
  {
    assert id !in Waiting(cells, horizon);
  }

  ghost function PendingOf(ids: seq<CommandId>, cells: map<CommandId, Cell>): nat
  {
    if ids == [] then 0
    else
      PendingOf(ids[..|ids| - 1], cells)
      + (if ids[|ids| - 1] in cells then Pending(cells[ids[|ids| - 1]]) else 0)
  }

  lemma {:induction false} PendingFalls(ids: seq<CommandId>, cells: map<CommandId, Cell>, id: CommandId, c: Cell)
    requires Distinct(ids) && id in cells && Pending(c) <= Pending(cells[id])
    ensures PendingOf(ids, cells[id := c]) <= PendingOf(ids, cells)
    ensures id in ids && Pending(c) < Pending(cells[id]) ==> PendingOf(ids, cells[id := c]) < PendingOf(ids, cells)
    ensures id !in ids ==> PendingOf(ids, cells[id := c]) == PendingOf(ids, cells)
  {
    if ids == [] {
    } else {
      PendingFalls(ids[..|ids| - 1], cells, id, c);
    }
  }

  /** The others create no Command meanwhile, and read no clock before `horizon`. */
  predicate Late(a: Action, horizon: int)
  {
    !a.Create? && (Fencing.ClockOf(a).Some? ==> Fencing.ClockOf(a).value >= horizon)
  }

  /** What is done for all Commands but the skipped ones stays done. */
  ghost predicate StaysDone(cells: map<CommandId, Cell>, cells': map<CommandId, Cell>, skipped: set<CommandId>)
  {
    && (NoneQueued(cells, skipped) ==> NoneQueued(cells', skipped))
    && (NoneInFlight(cells, skipped) ==> NoneInFlight(cells', skipped))
    && (AllEnded(cells, skipped) ==> AllEnded(cells', skipped))
  }

  lemma DoneStaysDone(cells: map<CommandId, Cell>, cells': map<CommandId, Cell>, ids: seq<CommandId>, horizon: int,
                      skipped: set<CommandId>)
    requires AllWind(cells, cells', ids, horizon)
    ensures NoneQueued(cells, skipped) ==> NoneQueued(cells', skipped)
    ensures NoneInFlight(cells, skipped) ==> NoneInFlight(cells', skipped)
  {
    assert StaysDone(cells, cells', skipped);
  }

  /** What any late action does to all Commands. */
  ghost predicate AllWind(cells: map<CommandId, Cell>, cells': map<CommandId, Cell>, ids: seq<CommandId>, horizon: int)
  {
    && cells'.Keys == cells.Keys
    && AllPast(cells', horizon)
    && PendingOf(ids, cells') <= PendingOf(ids, cells)
    && (forall skipped {:trigger StaysDone(cells, cells', skipped)} :: StaysDone(cells, cells', skipped))
  }

  lemma StepWinds(cells: map<CommandId, Cell>, ids: seq<CommandId>, id: CommandId, op: T.CellOp, horizon: int)
    requires id in cells && RowsOk(cells[id]) && AllPast(cells, horizon) && op.now >= horizon && Distinct(ids)
    ensures AllWind(cells, cells[id := T.Step(cells[id], op)], ids, horizon)
  {
    var c' := T.Step(cells[id], op);
    var cells' := cells[id := c'];
    IsPast(cells, horizon, id);
    LateStepWinds(cells[id], op, horizon);
    PendingFalls(ids, cells, id, c');
    forall other | other in cells'
      ensures other !in Waiting(cells', horizon)
    {
      IsPast(cells, horizon, other);
    }
    assert Waiting(cells', horizon) == {};
    forall skipped
      ensures StaysDone(cells, cells', skipped)
    {
      RowWinds(cells, id, c', skipped, horizon);
    }
  }

  lemma RowWinds(cells: map<CommandId, Cell>, id: CommandId, c': Cell, skipped: set<CommandId>, horizon: int)
    requires id in cells && Winds(cells[id], c', horizon)
    ensures StaysDone(cells, cells[id := c'], skipped)
  {
    var cells' := cells[id := c'];
    assert StillQueued(cells', skipped) <= StillQueued(cells, skipped);
    assert Flying(cells', skipped) <= Flying(cells, skipped);
    assert NotEnded(cells', skipped) <= NotEnded(cells, skipped);
  }

  lemma ActionWinds(run: Run, a: Action, ids: seq<CommandId>, horizon: int)
    requires AllPast(run.system.cells, horizon) && Late(a, horizon) && Distinct(ids)
    ensures AllWind(run.system.cells, Apply(run.system, a).cells, ids, horizon)
  {
    if OpOf(run.system, a).Some? {
      var (id, op) := OpOf(run.system, a).value;
      Fencing.OpOfAction(run.system, a);
      RunRowsOk(run, id);
      StepWinds(run.system.cells, ids, id, op, horizon);
    }
  }

  lemma AllWindTransitive(a: map<CommandId, Cell>, b: map<CommandId, Cell>, c: map<CommandId, Cell>,
                          ids: seq<CommandId>, horizon: int)
    requires AllWind(a, b, ids, horizon) && AllWind(b, c, ids, horizon)
    ensures AllWind(a, c, ids, horizon)
  {
    forall skipped
      ensures StaysDone(a, c, skipped)
    {
      assert StaysDone(a, b, skipped) && StaysDone(b, c, skipped);
    }
  }

  lemma AllWindStill(cells: map<CommandId, Cell>, ids: seq<CommandId>, horizon: int)
    requires AllPast(cells, horizon)
    ensures AllWind(cells, cells, ids, horizon)
  {
  }

  lemma MaintenanceOp(s: Sys, id: CommandId, op: T.CellOp)
    requires IsMaintenance(op) && id in s.cells
    ensures CellsAfter(s, Unattended(id, op)) == s.cells[id := T.Step(s.cells[id], op)]
  {
  }

  /** A maintenance transaction on the tables is an action of the run, and brings all Commands nearer their end. */
  lemma MaintenanceIsAction(run: Run, cells: map<CommandId, Cell>, ids: seq<CommandId>, id: CommandId, op: T.CellOp,
                            horizon: int)
    requires AllPast(run.system.cells, horizon) && Distinct(ids) && id in ids
    requires IsMaintenance(op) && op.now >= horizon
    requires id in run.system.cells && T.TransactionOf(run.system.cells[id], op).Commit?
    requires OneRow(run.system.cells, cells, id, T.Step(run.system.cells[id], op))
    ensures cells == CellsAfter(run.system, Unattended(id, op))
    ensures AllWind(run.system.cells, cells, ids, horizon)
    ensures PendingOf(ids, cells) < PendingOf(ids, run.system.cells)
  {
    var before, c := run.system.cells, T.Step(run.system.cells[id], op);
    OneRowIsUpdate(before, cells, id, c);
    MaintenanceOp(run.system, id, op);
    RunRowsOk(run, id);
    MaintenanceDecreases(before[id], op);
    StepWinds(before, ids, id, op, horizon);
    PendingFalls(ids, before, id, c);
  }

  // --------------------------------------------------------------------- the loop

  /**
   * Everything around the loop, indexed by its transactions: clocks, what others do before each,
   * which rows they hold locked meanwhile, and which transactions fail.
   */
  datatype World = World(
    clock: nat -> int, others: nat -> seq<Action>, locked: nat -> set<CommandId>, fails: nat -> bool, horizon: int)

  ghost predicate IsLate(world: World)
  {
    && (forall t :: world.clock(t) >= world.horizon)
    && forall t, i :: 0 <= i < |world.others(t)| ==> Late(world.others(t)[i], world.horizon)
  }

  /** From the horizon on: no clock behind it and no new Command. */
  type LateWorld = w: World | IsLate(w) witness World(t => 0, t => [], t => {}, t => false, 0)

  lemma ClockIsLate(world: LateWorld, t: nat)
    ensures world.clock(t) >= world.horizon
    ensures forall i :: 0 <= i < |world.others(t)| ==> Late(world.others(t)[i], world.horizon)
  {
  }

  /** The rows others hold locked during the transaction `t`. */
  function LockedAt(world: World, t: nat): set<CommandId>
  {
    world.locked(t)
  }

  /** The Commands that others held locked at one of the three looks from turn `t` on. */
  function Skipped(world: World, t: nat): set<CommandId>
  {
    LockedAt(world, t) + LockedAt(world, t + 1) + LockedAt(world, t + 2)
  }

  /** The last thing in the run is some maintenance transaction. */
  ghost predicate DidMaintain(run: Run)
  {
    run.trace != [] && run.trace[|run.trace| - 1].Unattended? && IsMaintenance(run.trace[|run.trace| - 1].op)
  }

  /** The last thing in the run is that maintenance transaction, on some Command nobody else held locked. */
  ghost predicate DidLast(run: Run, op: T.CellOp, locked: set<CommandId>)
  {
    && run.trace != [] && run.trace[|run.trace| - 1].Unattended? && run.trace[|run.trace| - 1].op == op
    && run.trace[|run.trace| - 1].id !in locked
  }

  class Maintenance {
    const around: Surroundings
    const tx: Transactions
    const world: LateWorld
    var turns: nat

    constructor (around: Surroundings, tx: Transactions, world: LateWorld)
      requires around.Valid() && tx.tables == around.tables && AllPast(around.run.system.cells, world.horizon)
      ensures Valid() && this.around == around && this.world == world
    {
      this.around, this.tx, this.world, turns := around, tx, world, 0;
    }

    ghost predicate Valid()
      reads around, around.tables
    {
      around.Valid() && tx.tables == around.tables && AllPast(around.run.system.cells, world.horizon)
    }

    /** Others act; then this loop's next transaction reads its clock. */
    method Turn() returns (now: int, failed: bool)
      requires Valid()
      modifies this`turns, around, around.tables
      ensures Valid() && around.tables.ids == old(around.tables.ids)
      ensures AllWind(old(around.run.system.cells), around.run.system.cells, around.tables.ids, world.horizon)
      ensures now >= world.horizon && failed == world.fails(old(turns)) && turns == old(turns) + 1
      ensures now == world.clock(old(turns))
    {
      ClockIsLate(world, turns);
      var actions := world.others(turns);
      now, failed := world.clock(turns), world.fails(turns);
      turns := turns + 1;
      ActLate(actions);
    }

    method ActLate(actions: seq<Action>)
      requires Valid() && forall i :: 0 <= i < |actions| ==> Late(actions[i], world.horizon)
      modifies around, around.tables
      ensures Valid() && around.tables.ids == old(around.tables.ids)
      ensures AllWind(old(around.run.system.cells), around.run.system.cells, around.tables.ids, world.horizon)
    {
      ghost var ids, cells := around.tables.ids, around.run.system.cells;
      AllWindStill(cells, ids, world.horizon);
      for k := 0 to |actions|
        invariant Valid() && around.tables.ids == ids
        invariant AllWind(cells, around.run.system.cells, ids, world.horizon)
      {
        ghost var before := around.run.system.cells;
        ActionWinds(around.run, actions[k], ids, world.horizon);
        around.Act(actions[k]);
        AllWindTransitive(cells, before, around.run.system.cells, ids, world.horizon);
      }
    }

    /** What is left to do for all Commands. */
    ghost function Left(): nat
      reads around, around.tables
    {
      PendingOf(around.tables.ids, around.run.system.cells)
    }

    method RecoverNext() returns (worked: bool, failed: bool)
      requires Valid()
      modifies this`turns, around, around.tables
      ensures Valid() && around.tables.ids == old(around.tables.ids) && turns == old(turns) + 1
      ensures AllWind(old(around.run.system.cells), around.run.system.cells, around.tables.ids, world.horizon)
      ensures worked ==> Left() < old(Left())
      ensures !worked && !failed ==> NoneInFlight(around.run.system.cells, LockedAt(world, old(turns)))
      ensures failed ==> !worked && exists t :: world.fails(t)
      ensures worked ==> DidLast(around.run, T.DoRecover(world.clock(old(turns))), LockedAt(world, old(turns)))
    {
      ghost var cells := around.run.system.cells;
      var t := turns;
      var now;
      now, failed := Turn();
      worked := false;
      if !failed {
        ghost var seen := around.run.system.cells;
        worked := RecoverNow(t, now);
        AllWindTransitive(cells, seen, around.run.system.cells, around.tables.ids, world.horizon);
      }
    }

    method RecoverNow(t: nat, now: int) returns (worked: bool)
      requires Valid() && now >= world.horizon
      modifies around, around.tables
      ensures Valid() && around.tables.ids == old(around.tables.ids)
      ensures AllWind(old(around.run.system.cells), around.run.system.cells, around.tables.ids, world.horizon)
      ensures if worked then Left() < old(Left()) else NoneInFlight(around.run.system.cells, LockedAt(world, t))
      ensures worked ==> DidLast(around.run, T.DoRecover(now), LockedAt(world, t))
    {
      ghost var run := around.run;
      var done := tx.RecoverNext(LockedAt(world, t), now);
      if done.None? {
        NoneRecoverable(run, LockedAt(world, t), world.horizon, now);
        AllWindStill(run.system.cells, around.tables.ids, world.horizon);
        return false;
      }
      RecoverForm(run.system.cells[done.value], now);
      MaintenanceIsAction(run, around.tables.cells, around.tables.ids, done.value, T.DoRecover(now), world.horizon);
      around.Note(Unattended(done.value, T.DoRecover(now)));
      return true;
    }

    method ExpireNextQueued() returns (worked: bool, failed: bool)
      requires Valid()
      modifies this`turns, around, around.tables
      ensures Valid() && around.tables.ids == old(around.tables.ids) && turns == old(turns) + 1
      ensures AllWind(old(around.run.system.cells), around.run.system.cells, around.tables.ids, world.horizon)
      ensures worked ==> Left() < old(Left())
      ensures !worked && !failed ==> NoneQueued(around.run.system.cells, LockedAt(world, old(turns)))
      ensures failed ==> !worked && exists t :: world.fails(t)
      ensures worked ==> DidLast(around.run, T.DoExpireQueued(world.clock(old(turns))), LockedAt(world, old(turns)))
    {
      ghost var cells := around.run.system.cells;
      var t := turns;
      var now;
      now, failed := Turn();
      worked := false;
      if !failed {
        ghost var seen := around.run.system.cells;
        worked := ExpireQueuedNow(t, now);
        AllWindTransitive(cells, seen, around.run.system.cells, around.tables.ids, world.horizon);
      }
    }

    method ExpireQueuedNow(t: nat, now: int) returns (worked: bool)
      requires Valid() && now >= world.horizon
      modifies around, around.tables
      ensures Valid() && around.tables.ids == old(around.tables.ids)
      ensures AllWind(old(around.run.system.cells), around.run.system.cells, around.tables.ids, world.horizon)
      ensures if worked then Left() < old(Left()) else NoneQueued(around.run.system.cells, LockedAt(world, t))
      ensures worked ==> DidLast(around.run, T.DoExpireQueued(now), LockedAt(world, t))
    {
      ghost var run := around.run;
      var done := tx.ExpireNextQueued(LockedAt(world, t), now);
      if done.None? {
        NoneQueuedLeft(run, LockedAt(world, t), world.horizon, now);
        AllWindStill(run.system.cells, around.tables.ids, world.horizon);
        return false;
      }
      ExpireQueuedForm(run.system.cells[done.value], now);
      MaintenanceIsAction(run, around.tables.cells, around.tables.ids, done.value, T.DoExpireQueued(now),
                          world.horizon);
      around.Note(Unattended(done.value, T.DoExpireQueued(now)));
      return true;
    }

    method ExpireNextResultObservation(ghost flying: set<CommandId>, ghost queued: set<CommandId>)
      returns (worked: bool, failed: bool)
      requires Valid()
      requires NoneInFlight(around.run.system.cells, flying) && NoneQueued(around.run.system.cells, queued)
      modifies this`turns, around, around.tables
      ensures Valid() && around.tables.ids == old(around.tables.ids) && turns == old(turns) + 1
      ensures AllWind(old(around.run.system.cells), around.run.system.cells, around.tables.ids, world.horizon)
      ensures worked ==> Left() < old(Left())
      ensures !worked && !failed ==> AllEnded(around.run.system.cells, flying + queued + LockedAt(world, old(turns)))
      ensures failed ==> !worked && exists t :: world.fails(t)
      ensures worked ==> DidLast(around.run, T.DoExpireObservation(world.clock(old(turns))),
                                 LockedAt(world, old(turns)))
    {
      ghost var cells := around.run.system.cells;
      var t := turns;
      var now;
      now, failed := Turn();
      worked := false;
      if !failed {
        ghost var seen := around.run.system.cells;
        DoneStaysDone(cells, seen, around.tables.ids, world.horizon, flying);
        DoneStaysDone(cells, seen, around.tables.ids, world.horizon, queued);
        worked := ExpireObservationNow(flying, queued, t, now);
        AllWindTransitive(cells, seen, around.run.system.cells, around.tables.ids, world.horizon);
      }
    }

    method ExpireObservationNow(ghost flying: set<CommandId>, ghost queued: set<CommandId>, t: nat, now: int)
      returns (worked: bool)
      requires Valid() && now >= world.horizon
      requires NoneInFlight(around.run.system.cells, flying) && NoneQueued(around.run.system.cells, queued)
      modifies around, around.tables
      ensures Valid() && around.tables.ids == old(around.tables.ids)
      ensures AllWind(old(around.run.system.cells), around.run.system.cells, around.tables.ids, world.horizon)
      ensures if worked then Left() < old(Left())
              else AllEnded(around.run.system.cells, flying + queued + LockedAt(world, t))
      ensures worked ==> DidLast(around.run, T.DoExpireObservation(now), LockedAt(world, t))
    {
      ghost var run := around.run;
      var done := tx.ExpireNextResultObservation(LockedAt(world, t), now);
      if done.None? {
        NoneLeft(run, flying, queued, LockedAt(world, t), world.horizon, now);
        AllWindStill(run.system.cells, around.tables.ids, world.horizon);
        return false;
      }
      ExpireObservationForm(run.system.cells[done.value], now);
      MaintenanceIsAction(run, around.tables.cells, around.tables.ids, done.value, T.DoExpireObservation(now),
                          world.horizon);
      around.Note(Unattended(done.value, T.DoExpireObservation(now)));
      return true;
    }

    /** The two expiries, once a recovery found none in flight but those of `flying`. */
    method ExpireNext(ghost flying: set<CommandId>) returns (worked: bool, failed: bool)
      requires Valid() && NoneInFlight(around.run.system.cells, flying)
      modifies this`turns, around, around.tables
      ensures Valid() && around.tables.ids == old(around.tables.ids)
      ensures Left() <= old(Left()) && (worked ==> Left() < old(Left()))
      ensures !worked && !failed ==>
                && turns == old(turns) + 2
                && AllEnded(around.run.system.cells, flying + LockedAt(world, old(turns))
                            + LockedAt(world, old(turns) + 1))
      ensures failed ==> !worked && exists t :: world.fails(t)
      ensures worked ==> DidMaintain(around.run)
    {
      ghost var t, cells := turns, around.run.system.cells;
      worked, failed := ExpireNextQueued();
      if !worked && !failed {
        DoneStaysDone(cells, around.run.system.cells, around.tables.ids, world.horizon, flying);
        worked, failed := ExpireNextResultObservation(flying, LockedAt(world, t));
      }
    }

    /** One call of the work function that Run polls. */
    method Work() returns (worked: bool, failed: bool)
      requires Valid()
      modifies this`turns, around, around.tables
      ensures Valid() && around.tables.ids == old(around.tables.ids)
      ensures Left() <= old(Left()) && (worked ==> Left() < old(Left()))
      ensures !worked && !failed ==>
                turns == old(turns) + 3 && AllEnded(around.run.system.cells, Skipped(world, old(turns)))
      ensures failed ==> !worked && exists t :: world.fails(t)
      ensures worked ==> DidMaintain(around.run)
    {
      ghost var t := turns;
      worked, failed := RecoverNext();
      if !worked && !failed {
        worked, failed := ExpireNext(LockedAt(world, t));
      }
    }

    /**
     * The inner loop of poll, past every deadline. Whatever others do between its transactions,
     * it ends: by an error, or with every Command terminal or stranded by an early Result, but for
     * those whose rows others held locked when it last looked, from turn `last` on. Either way the
     * work it did is kept, so nothing is done twice by the next poll.
     */
    method Drain() returns (steps: nat, failed: bool, ghost last: nat)
      requires Valid()
      modifies this`turns, around, around.tables
      ensures Valid() && around.tables.ids == old(around.tables.ids)
      ensures !failed ==>
                && turns == last + 3
                && forall id :: id in around.run.system.cells && id !in Skipped(world, last) ==>
                                  Ended(around.run.system.cells[id])
      ensures failed ==> exists t :: world.fails(t)
      ensures steps + Left() <= old(Left())
    {
      steps, failed, last := 0, false, 0;
      var worked := true;
      while worked && !failed
        invariant Valid() && around.tables.ids == old(around.tables.ids)
        invariant steps + Left() <= old(Left())
        invariant !worked && !failed ==> turns == last + 3 && AllEnded(around.run.system.cells, Skipped(world, last))
        invariant failed ==> !worked && exists t :: world.fails(t)
        decreases worked, Left()
      {
        last := turns;
        worked, failed := Work();
        if worked {
          steps := steps + 1;
        }
      }
      if !failed {
        EndedUnlessSkipped(around.run.system.cells, Skipped(world, last));
      }
    }
  }

  lemma RecoverForm(c: Cell, now: int)
    requires T.RecoverNext(c, now).Commit?
    ensures T.TransactionOf(c, T.DoRecover(now)).Commit? && T.Step(c, T.DoRecover(now)) == T.RecoverNext(c, now).cell
  {
  }

  lemma ExpireQueuedForm(c: Cell, now: int)
    requires T.ExpireNextQueued(c, now).Commit?
    ensures T.TransactionOf(c, T.DoExpireQueued(now)).Commit?
    ensures T.Step(c, T.DoExpireQueued(now)) == T.ExpireNextQueued(c, now).cell
  {
  }

  lemma ExpireObservationForm(c: Cell, now: int)
    requires T.ExpireNextResultObservation(c, now).Commit?
    ensures T.TransactionOf(c, T.DoExpireObservation(now)).Commit?
    ensures T.Step(c, T.DoExpireObservation(now)) == T.ExpireNextResultObservation(c, now).cell
  {
  }

  lemma NoneRecoverable(run: Run, locked: set<CommandId>, horizon: int, now: int)
    requires AllPast(run.system.cells, horizon) && horizon <= now
    requires forall id :: id in run.system.cells && id !in locked ==> T.RecoverNext(run.system.cells[id], now).Rollback?
    ensures NoneInFlight(run.system.cells, locked)
  {
    forall id | id in run.system.cells && id !in locked
      ensures !InFlight(run.system.cells[id])
    {
      RunRowsOk(run, id);
      IsPast(run.system.cells, horizon, id);
      NotRecoverable(run.system.cells[id], horizon, now);
    }
    assert Flying(run.system.cells, locked) == {};
  }

  lemma NoneQueuedLeft(run: Run, locked: set<CommandId>, horizon: int, now: int)
    requires AllPast(run.system.cells, horizon) && horizon <= now
    requires forall id :: id in run.system.cells && id !in locked ==>
               T.ExpireNextQueued(run.system.cells[id], now).Rollback?
    ensures NoneQueued(run.system.cells, locked)
  {
    forall id | id in run.system.cells && id !in locked
      ensures !run.system.cells[id].command.status.Queued?
    {
      RunRowsOk(run, id);
      IsPast(run.system.cells, horizon, id);
      NotQueued(run.system.cells[id], horizon, now);
    }
    assert StillQueued(run.system.cells, locked) == {};
  }

  lemma NoneLeft(run: Run, flying: set<CommandId>, queued: set<CommandId>, locked: set<CommandId>, horizon: int,
                 now: int)
    requires AllPast(run.system.cells, horizon) && horizon <= now
    requires NoneInFlight(run.system.cells, flying) && NoneQueued(run.system.cells, queued)
    requires forall id :: id in run.system.cells && id !in locked ==>
                            T.ExpireNextResultObservation(run.system.cells[id], now).Rollback?
    ensures AllEnded(run.system.cells, flying + queued + locked)
  {
    forall id | id in run.system.cells && id !in flying + queued + locked
      ensures Ended(run.system.cells[id])
    {
      RunRowsOk(run, id);
      IsPast(run.system.cells, horizon, id);
      assert id !in Flying(run.system.cells, flying) && id !in StillQueued(run.system.cells, queued);
      NothingLeft(run.system.cells[id], horizon, now);
    }
    assert NotEnded(run.system.cells, flying + queued + locked) == {};
  }
}
