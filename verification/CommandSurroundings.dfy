/**
 * The tables as a run of CommandSystem leaves them: what other processes do is acted out on the
 * tables, what a worker did on the tables is noted, and the trace of both is the run.
 */
module CommandSurroundings {
  import opened Prelude
  import opened CommandRows
  import opened CommandStore
  import opened CommandSystem
  import T = CommandTransactions

  /** The worker that acts, if a worker does. */
  function ActorOf(a: Action): Option<WorkerId>
  {
    if a.Create? || a.Unattended? then None else Some(a.w)
  }

  predicate IsTheirs(a: Action, me: WorkerId)
  {
    ActorOf(a) != Some(me)
  }

  /** The actions that are not those of worker `me`. */
  function Theirs(actions: seq<Action>, me: WorkerId): seq<Action>
  {
    if actions == [] then []
    else
      Theirs(actions[..|actions| - 1], me)
      + if IsTheirs(actions[|actions| - 1], me) then [actions[|actions| - 1]] else []
  }

  /** Each process leaves the local state of another alone, and no Command disappears. */
  lemma OthersLeaveAlone(s: Sys, a: Action, me: WorkerId)
    ensures IsTheirs(a, me) ==> LocalOf(Apply(s, a), me) == LocalOf(s, me)
    ensures forall id :: id in s.cells ==> id in Apply(s, a).cells
  {
  }

  datatype History = History(trace: seq<Action>, system: Sys)

  /** The system is where its trace leads. (Quantified so that the run is unrolled only where it is asked for.) */
  ghost predicate IsRun(h: History)
  {
    forall actions {:trigger Execute(actions)} :: actions == h.trace ==> h.system == Execute(actions)
  }

  /** A run of CommandSystem together with the system it leads to. */
  type Run = h: History | IsRun(h) witness History([], EMPTY_SYSTEM)

  const EMPTY_RUN: Run := History([], EMPTY_SYSTEM)

  lemma RunIsExecution(run: Run)
    ensures run.system == Execute(run.trace)
  {
  }

  lemma OneMore(run: Run, a: Action)
    ensures IsRun(History(run.trace + [a], Apply(run.system, a)))
  {
    RunIsExecution(run);
    assert (run.trace + [a])[..|run.trace|] == run.trace;
    forall actions | actions == run.trace + [a]
      ensures Apply(run.system, a) == Execute(actions)
    {
      assert actions[|actions| - 1] == a && actions[..|actions| - 1] == run.trace;
    }
  }

  /** From one moment of a run to a later one every Command only advances. */
  lemma LaterAdvances(run: Run, later: Run)
    requires run.trace <= later.trace
    ensures AllAdvance(run.system.cells, later.system.cells)
  {
    var more := later.trace[|run.trace|..];
    assert run.trace + more == later.trace;
    RunIsExecution(run);
    RunIsExecution(later);
    RunsAdvance(run.trace, more);
  }

  /** In a run no Command is handed to its Provider twice. */
  lemma RunCallsOnce(run: Run)
    ensures Distinct(run.system.calls)
  {
    RunIsExecution(run);
    AtMostOnceDispatch(run.trace);
  }

  lemma RunRowsOk(run: Run, id: CommandId)
    requires id in run.system.cells
    ensures CellOk(run.system.cells[id])
  {
    RunIsExecution(run);
    ExecuteKeepsSysOk(run.trace);
  }

  class Surroundings {
    const tables: Tables
    var run: Run

    constructor (tables: Tables)
      requires tables.Valid() && tables.cells == map[]
      ensures Valid() && this.tables == tables && run == EMPTY_RUN && fresh(this)
    {
      this.tables, run := tables, EMPTY_RUN;
    }

    /** The tables hold exactly the rows of the run so far. */
    ghost predicate Valid()
      reads this, tables
    {
      tables.Valid() && tables.cells == run.system.cells
    }

    /** Notes an action whose rows the tables already show. */
    method Note(a: Action)
      requires tables.Valid() && tables.cells == CellsAfter(run.system, a)
      modifies this
      ensures Valid() && run.trace == old(run.trace) + [a] && run.system == Apply(old(run.system), a)
    {
      OneMore(run, a);
      run := History(run.trace + [a], Apply(run.system, a));
    }

    /** Acts out another process's action, rows and all. */
    method Act(a: Action)
      requires Valid()
      modifies this, tables
      ensures Valid() && run.trace == old(run.trace) + [a] && run.system == Apply(old(run.system), a)
      ensures !a.Create? ==> tables.ids == old(tables.ids)
    {
      var after := CellsAfter(run.system, a);
      if a.Create? {
        if a.id in after && a.id !in run.system.cells {
          tables.Insert(a.id, after[a.id]);
        }
      } else {
        match OpOf(run.system, a) {
          case None =>
          case Some((id, _)) =>
            ghost var before := tables.cells;
            tables.Put(id, after[id]);
            OneRowIsUpdate(before, tables.cells, id, after[id]);
        }
      }
      Note(a);
    }

    /** Acts out what the others among `actions` do. */
    method ActAll(actions: seq<Action>, me: WorkerId)
      requires Valid()
      modifies this, tables
      ensures Valid() && run.trace == old(run.trace) + Theirs(actions, me)
      ensures LocalOf(run.system, me) == LocalOf(old(run.system), me)
      ensures forall id :: id in old(run.system.cells) ==> id in run.system.cells
    {
      for k := 0 to |actions|
        invariant Valid() && run.trace == old(run.trace) + Theirs(actions[..k], me)
        invariant LocalOf(run.system, me) == LocalOf(old(run.system), me)
        invariant forall id :: id in old(run.system.cells) ==> id in run.system.cells
      {
        assert actions[..k + 1][..k] == actions[..k];
        if IsTheirs(actions[k], me) {
          OthersLeaveAlone(run.system, actions[k], me);
          Act(actions[k]);
        }
      }
      assert actions[..|actions|] == actions;
    }
  }
}
