/**
 * The whole system with the schema's constraints in force: an action whose rows the database
 * refuses does not happen, and a worker whose transaction is refused drops its claim. Every such
 * run is a run of CommandSystem, so what holds of all of those holds here.
 */
module CommandChecked {
  import opened Prelude
  import opened CommandRows
  import opened CommandSchema
  import opened CommandSystem
  import opened CommandFencing
  import opened CommandCalls

  /** uq_command_attempts_provider_request_key. */
  ghost predicate RequestKeysUnique(cells: map<CommandId, Cell>)
  {
    forall id, i: nat, id', i': nat :: HasAttempt(cells, id, i) && HasAttempt(cells, id', i')
      && cells[id].attempts[i].provider == cells[id'].attempts[i'].provider
      && cells[id].attempts[i].requestKey == cells[id'].attempts[i'].requestKey
      ==> id == id' && i == i'
  }

  predicate HasAttempt(cells: map<CommandId, Cell>, id: CommandId, i: nat)
  {
    id in cells && i < |cells[id].attempts|
  }

  /** All the constraints of the Command tables. */
  ghost predicate DatabaseOk(cells: map<CommandId, Cell>)
  {
    (forall id :: id in cells ==> SchemaOk(cells[id])) && RequestKeysUnique(cells)
  }

  /** The action runs a transaction under a claim, which a refused commit makes the worker drop. */
  predicate UnderClaim(a: Action)
  {
    a.FailBefore? || a.CommitToDispatch? || a.Persist?
  }

  /** What really happens when the action is attempted. */
  ghost function Effect(s: Sys, a: Action): seq<Action>
  {
    if DatabaseOk(CellsAfter(s, a)) then [a] else if UnderClaim(a) then [Crash(a.w)] else []
  }

  ghost function CheckedApply(s: Sys, a: Action): Sys
  {
    if DatabaseOk(CellsAfter(s, a)) then Apply(s, a) else if UnderClaim(a) then Apply(s, Crash(a.w)) else s
  }

  ghost function CheckedExecute(actions: seq<Action>): Sys
    decreases |actions|
  {
    if actions == [] then EMPTY_SYSTEM else CheckedApply(CheckedExecute(actions[..|actions| - 1]),
                                                         actions[|actions| - 1])
  }

  /** What really happened in a run with the constraints in force. */
  ghost function Admitted(actions: seq<Action>): seq<Action>
    decreases |actions|
  {
    if actions == [] then []
    else Admitted(actions[..|actions| - 1]) + Effect(CheckedExecute(actions[..|actions| - 1]), actions[|actions| - 1])
  }

  lemma CrashKeepsCells(s: Sys, w: WorkerId)
    ensures Apply(s, Crash(w)).cells == s.cells
  {
  }

  lemma CellsOfApply(s: Sys, a: Action)
    ensures Apply(s, a).cells == CellsAfter(s, a)
  {
  }

  lemma CheckedApplyOk(s: Sys, a: Action)
    requires DatabaseOk(s.cells)
    ensures DatabaseOk(CheckedApply(s, a).cells)
  {
    CellsOfApply(s, a);
    if UnderClaim(a) {
      CrashKeepsCells(s, a.w);
    }
  }

  lemma EffectIsCheckedApply(actions: seq<Action>, s: Sys, a: Action)
    requires s == Execute(actions)
    ensures Execute(actions + Effect(s, a)) == CheckedApply(s, a)
  {
    if DatabaseOk(CellsAfter(s, a)) {
      ExecuteOneMore(actions, a);
    } else if UnderClaim(a) {
      ExecuteOneMore(actions, Crash(a.w));
    } else {
      assert actions + [] == actions;
    }
  }

  lemma Unrolled(actions: seq<Action>)
    requires actions != []
    ensures var init, a := actions[..|actions| - 1], actions[|actions| - 1];
            && CheckedExecute(actions) == CheckedApply(CheckedExecute(init), a)
            && Admitted(actions) == Admitted(init) + Effect(CheckedExecute(init), a)
  {
  }

  /**
   * A run with the constraints in force is the unchecked run of what really happened, and its rows
   * always satisfy them.
   */
  lemma {:induction false} CheckedExecuteIsExecute(actions: seq<Action>)
    ensures CheckedExecute(actions) == Execute(Admitted(actions))
    ensures DatabaseOk(CheckedExecute(actions).cells)
    decreases |actions|
  {
    if actions == [] {
      EmptyIsOk();
    } else {
      var init, a := actions[..|actions| - 1], actions[|actions| - 1];
      CheckedExecuteIsExecute(init);
      Unrolled(actions);
      CheckedApplyOk(CheckedExecute(init), a);
      EffectIsCheckedApply(Admitted(init), CheckedExecute(init), a);
    }
  }

  lemma EmptyIsOk()
    ensures DatabaseOk(EMPTY_SYSTEM.cells)
  {
  }

  /** At-most-once dispatch, and outcomes backed by calls, with the constraints in force. */
  lemma CheckedAtMostOnceDispatch(actions: seq<Action>)
    ensures var s := CheckedExecute(actions);
            && DatabaseOk(s.cells) && Distinct(s.calls)
            && (forall id :: id in s.cells ==> |s.cells[id].attempts| <= 1)
            && (forall id :: id in s.calls ==> id in s.cells && !EndedUndispatched(s.cells[id].command))
            && (forall id :: id in s.cells && ClaimsCall(s.cells[id]) ==> CallCount(s.calls, id) == 1)
  {
    CheckedExecuteIsExecute(actions);
    AtMostOnceDispatch(Admitted(actions));
    forall id | id in CheckedExecute(actions).cells && ClaimsCall(CheckedExecute(actions).cells[id])
      ensures CallCount(CheckedExecute(actions).calls, id) == 1
    {
      OutcomesAreBackedByOneCall(Admitted(actions), id);
    }
  }

  // ------------------------------------------------------------------- fencing

  /** Fresh tokens and a clock that never runs backwards, among the actions attempted. */
  ghost predicate CheckedDisciplined(actions: seq<Action>)
    decreases |actions|
  {
    actions == [] ||
    (var init, a := actions[..|actions| - 1], actions[|actions| - 1];
     CheckedDisciplined(init) && FreshToken(CheckedExecute(init), a)
       && (ClockOf(a).Some? ==> NotPast(init, ClockOf(a).value)))
  }

  lemma NotPastSplit(actions: seq<Action>, t: int)
    requires actions != [] && NotPast(actions, t)
    ensures NotPast(actions[..|actions| - 1], t) && NotPast([actions[|actions| - 1]], t)
  {
  }

  lemma EffectNotPast(s: Sys, a: Action, t: int)
    requires NotPast([a], t)
    ensures NotPast(Effect(s, a), t)
  {
  }

  lemma {:induction false} AdmittedNotPast(actions: seq<Action>, t: int)
    requires NotPast(actions, t)
    ensures NotPast(Admitted(actions), t)
    decreases |actions|
  {
    if actions == [] {
    } else {
      var init, a := actions[..|actions| - 1], actions[|actions| - 1];
      NotPastSplit(actions, t);
      AdmittedNotPast(init, t);
      EffectNotPast(CheckedExecute(init), a, t);
      Unrolled(actions);
      NotPastAppend(Admitted(init), Effect(CheckedExecute(init), a), t);
    }
  }

  lemma NotPastAppend(actions: seq<Action>, more: seq<Action>, t: int)
    requires NotPast(actions, t) && NotPast(more, t)
    ensures NotPast(actions + more, t)
  {
  }

  lemma {:induction false} AdmittedIsDisciplined(actions: seq<Action>)
    requires CheckedDisciplined(actions)
    ensures Disciplined(Admitted(actions))
    decreases |actions|
  {
    if actions == [] {
    } else {
      var init, a := actions[..|actions| - 1], actions[|actions| - 1];
      AdmittedIsDisciplined(init);
      CheckedExecuteIsExecute(init);
      Unrolled(actions);
      if ClockOf(a).Some? {
        AdmittedNotPast(init, ClockOf(a).value);
      }
      EffectIsDisciplined(Admitted(init), CheckedExecute(init), a);
    }
  }

  lemma EffectIsDisciplined(actions: seq<Action>, s: Sys, a: Action)
    requires Disciplined(actions) && s == Execute(actions) && FreshToken(s, a)
    requires ClockOf(a).Some? ==> NotPast(actions, ClockOf(a).value)
    ensures Disciplined(actions + Effect(s, a))
  {
    if DatabaseOk(CellsAfter(s, a)) {
      DisciplinedAppend(actions, a);
    } else if UnderClaim(a) {
      DisciplinedAppend(actions, Crash(a.w));
    } else {
      assert actions + [] == actions;
    }
  }

  lemma DisciplinedAppend(actions: seq<Action>, a: Action)
    requires Disciplined(actions) && FreshToken(Execute(actions), a)
    requires ClockOf(a).Some? ==> NotPast(actions, ClockOf(a).value)
    ensures Disciplined(actions + [a])
  {
    assert (actions + [a])[..|actions|] == actions;
  }

  /** Lease fencing with the constraints in force. */
  lemma CheckedWindowsAreDisjoint(actions: seq<Action>, id: CommandId, i: nat, j: nat, instant: int)
    requires CheckedDisciplined(actions)
    requires i < j < |GrantsOf(CheckedExecute(actions), id)|
    ensures var g := GrantsOf(CheckedExecute(actions), id);
            && g[i].token != g[j].token
            && !(g[i].from <= instant < g[i].until && g[j].from <= instant < g[j].until)
  {
    CheckedExecuteIsExecute(actions);
    AdmittedIsDisciplined(actions);
    WindowsAreDisjoint(Admitted(actions), id, i, j, instant);
  }
}
