/**
 * A stored Provider outcome is backed by a Provider call, except the one recovery writes, which says
 * it is unverified.
 */
module CommandCalls {
  import opened Prelude
  import opened Lifecycle
  import opened CommandRows
  import opened CommandTransactions
  import opened CommandInvariant
  import opened CommandSystem

  /** The outcome is one that only the answer of a Provider call justifies. */
  predicate NeedsCall(a: Attempt)
  {
    match a.outcome
    case Some(AcceptedByProvider) => true
    case Some(RejectedByProvider) => true
    case Some(FailedBeforeSend) => true
    case Some(Indeterminate) => a.evidence.Verified?
    case _ => false
  }

  predicate ClaimsCall(c: Cell)
  {
    |c.attempts| == 1 && NeedsCall(c.attempts[0])
  }

  /** No transaction but the one that stores an answer makes such a claim. */
  lemma OnlyPersistClaims(c: Cell, op: CellOp)
    requires RowsOk(c) && !op.DoPersist?
    ensures ClaimsCall(Step(c, op)) ==> ClaimsCall(c)
  {
    match op
    case DoFailBefore(attempt, token, reason, now) =>
      if FailBeforeDispatch(c, attempt, token, reason, now).Commit? {
        FailClaimedClosedForm(c, attempt, token, InvalidRequest, reason, now);
      }
    case DoCommitDispatch(attempt, token, online, lease, now) =>
      if FailClaimed(c, attempt, token, NotDispatched, DeviceNotOnline, now).Commit? {
        FailClaimedClosedForm(c, attempt, token, NotDispatched, DeviceNotOnline, now);
      }
    case _ =>
  }

  ghost predicate CallsBacked(s: Sys)
  {
    && (forall id :: id in s.cells && ClaimsCall(s.cells[id]) ==> id in s.calls)
    && (forall w :: LocalOf(s, w).Answered? ==> LocalOf(s, w).id in s.calls)
  }

  /** A worker has an answer only if it had it before or has just called its Provider. */
  lemma AnswersFollowCalls(s: Sys, a: Action, w: WorkerId)
    ensures var l, l' := LocalOf(s, w), LocalOf(Apply(s, a), w);
            l'.Answered? ==> l' == l || (l.Armed? && l'.id == l.id && Apply(s, a).calls == s.calls + [l.id])
  {
  }

  lemma ApplyKeepsBacked(s: Sys, a: Action)
    requires forall id :: id in s.cells ==> RowsOk(s.cells[id])
    requires CallsBacked(s)
    ensures CallsBacked(Apply(s, a))
  {
    var s' := Apply(s, a);
    forall id | id in s'.cells && ClaimsCall(s'.cells[id])
      ensures id in s'.calls
    {
      if OpOf(s, a).Some? && OpOf(s, a).value.0 == id {
        var op := OpOf(s, a).value.1;
        if op.DoPersist? {
          assert LocalOf(s, a.w).Answered?;
        } else {
          OnlyPersistClaims(s.cells[id], op);
        }
      }
    }
    forall w | LocalOf(s', w).Answered?
      ensures LocalOf(s', w).id in s'.calls
    {
      AnswersFollowCalls(s, a, w);
    }
  }

  lemma {:induction false} ExecuteKeepsBacked(actions: seq<Action>)
    ensures CallsBacked(Execute(actions))
    decreases |actions|
  {
    if actions == [] {
    } else {
      var before := Execute(actions[..|actions| - 1]);
      ExecuteKeepsBacked(actions[..|actions| - 1]);
      ExecuteKeepsSysOk(actions[..|actions| - 1]);
      assert forall id :: id in before.cells ==> CellOk(before.cells[id]);
      ApplyKeepsBacked(before, actions[|actions| - 1]);
    }
  }

  /**
   * In every run an Attempt that says its Provider accepted, rejected or failed the request, or
   * that claims verified transport, was handed to that Provider; and exactly once.
   */
  lemma OutcomesAreBackedByOneCall(actions: seq<Action>, id: CommandId)
    requires id in Execute(actions).cells && ClaimsCall(Execute(actions).cells[id])
    ensures CallCount(Execute(actions).calls, id) == 1
  {
    ExecuteKeepsBacked(actions);
    AtMostOnceDispatch(actions);
    DistinctCount(Execute(actions).calls, id);
  }

  function CallCount(calls: seq<CommandId>, id: CommandId): nat
  {
    if calls == [] then 0 else CallCount(calls[..|calls| - 1], id) + if calls[|calls| - 1] == id then 1 else 0
  }

  lemma {:induction false} DistinctCount(calls: seq<CommandId>, id: CommandId)
    requires Distinct(calls)
    ensures CallCount(calls, id) == if id in calls then 1 else 0
  {
    if calls == [] {
    } else {
      DistinctCount(calls[..|calls| - 1], id);
    }
  }
}
