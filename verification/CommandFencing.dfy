/**
 * Lease fencing: a superseded token writes nothing, and with fresh tokens and a clock that
 * never runs backwards the validity windows of one Attempt's tokens are disjoint.
 */
module CommandFencing {
  import opened Prelude
  import opened Lifecycle
  import opened CommandRows
  import opened CommandTransactions
  import opened CommandInvariant
  import opened CommandHistory
  import opened CommandSystem

  /** The token a worker presents when it asks for that transaction, with the Attempt it names. */
  function Presented(op: CellOp): Option<(nat, Token)>
  {
    match op
    case DoReclaim(attempt, expired, _, _, _) => Some((attempt, expired))
    case DoFailBefore(attempt, token, _, _) => Some((attempt, token))
    case DoCommitDispatch(attempt, token, _, _, _) => Some((attempt, token))
    case DoPersist(attempt, token, _, _) => Some((attempt, token))
    case _ => None
  }

  /** A transaction under any other token than the stored one rolls back, at any clock, in any state. */
  lemma SupersededTokenWritesNothing(c: Cell, op: CellOp)
    requires Presented(op).Some?
    requires var (i, token) := Presented(op).value; i < |c.attempts| ==> c.attempts[i].leaseToken != token
    ensures TransactionOf(c, op).Rollback? && Step(c, op) == c
  {
  }

  /** Whether one transaction moves the Command's Attempt to completed. */
  predicate Completes(c: Cell, op: CellOp)
  {
    && |c.attempts| == 1 && !c.attempts[0].phase.Completed?
    && |Step(c, op).attempts| == 1 && Step(c, op).attempts[0].phase.Completed?
  }

  function Completions(c: Cell, ops: seq<CellOp>): nat
    decreases |ops|
  {
    if ops == [] then 0
    else
      var init := ops[..|ops| - 1];
      Completions(c, init) + if Completes(Run(c, init), ops[|ops| - 1]) then 1 else 0
  }

  /**
   * In every history of a Command the Attempt is completed by exactly one transaction if it is
   * completed at all, whichever of worker, recovery, cancel or expiry ran it.
   */
  lemma {:induction false} CompletedExactlyOnce(c: Cell, ops: seq<CellOp>)
    requires RowsOk(c) && c.attempts == []
    ensures var attempts := Run(c, ops).attempts;
            Completions(c, ops) == if |attempts| == 1 && attempts[0].phase.Completed? then 1 else 0
    decreases |ops|
  {
    if ops == [] {
    } else {
      var init, last := ops[..|ops| - 1], ops[|ops| - 1];
      CompletedExactlyOnce(c, init);
      RunKeepsRows(c, init);
      StepKeepsRows(Run(c, init), last);
      StepAdvances(Run(c, init), last);
      if |Run(c, init).attempts| == 0 {
        NewAttemptIsClaimed(Run(c, init), last);
      } else {
        assert AttemptAdvances(Run(c, init).attempts[0], Run(c, ops).attempts[0]);
      }
    }
  }

  lemma NewAttemptIsClaimed(c: Cell, op: CellOp)
    requires RowsOk(c) && c.attempts == []
    ensures |Step(c, op).attempts| == 1 ==> Step(c, op).attempts[0].phase.Claimed?
  {
  }

  // ------------------------------------------------------------------- windows

  function ClockOf(a: Action): Option<int>
  {
    match a
    case Create(_, _, _, _, _, _, now) => Some(now)
    case Claim(_, _, _, _, _, _, now) => Some(now)
    case Reclaim(_, _, _, _, _, _, now) => Some(now)
    case FailBefore(_, _, now) => Some(now)
    case CommitToDispatch(_, _, _, now) => Some(now)
    case Persist(_, now) => Some(now)
    case Unattended(_, op) => Some(op.now)
    case CallProvider(_, _) => None
    case Crash(_) => None
  }

  /** No transaction so far read a clock past `t`. */
  ghost predicate NotPast(actions: seq<Action>, t: int)
  {
    forall i :: 0 <= i < |actions| && ClockOf(actions[i]).Some? ==> ClockOf(actions[i]).value <= t
  }

  /** The token the action would grant was never granted for that Command before. */
  ghost predicate FreshToken(s: Sys, a: Action)
  {
    a.Claim? || a.Reclaim? ==> forall i :: 0 <= i < |GrantsOf(s, a.id)| ==> GrantsOf(s, a.id)[i].token != a.token
  }

  /** Fresh tokens and a clock that never runs backwards from one transaction to the next. */
  ghost predicate Disciplined(actions: seq<Action>)
    decreases |actions|
  {
    actions == [] ||
    (var init, a := actions[..|actions| - 1], actions[|actions| - 1];
     Disciplined(init) && FreshToken(Execute(init), a) && (ClockOf(a).Some? ==> NotPast(init, ClockOf(a).value)))
  }

  /** The windows granted for one Command, oldest first, against its rows. */
  ghost predicate WindowsOk(g: seq<Grant>, c: Cell, t: int)
  {
    && (g == [] <==> c.attempts == [])
    && (forall i :: 0 <= i < |g| ==> g[i].from <= t && g[i].from < g[i].until)
    && (forall i, j :: 0 <= i < j < |g| ==> g[i].until <= g[j].from && g[i].token != g[j].token)
    && (g != [] ==> |c.attempts| == 1 && Current(g[|g| - 1], c.attempts[0]))
  }

  /** The window that the stored lease describes. */
  predicate Current(window: Grant, a: Attempt)
  {
    window.token == a.leaseToken && window.until == a.leaseExpiresAt
  }

  ghost predicate GrantedTo(g: seq<Grant>, token: Token)
  {
    exists i :: 0 <= i < |g| && g[i].token == token
  }

  predicate HoldsFor(l: Local, id: CommandId)
  {
    !l.Idle? && l.id == id
  }

  /** Every token a worker holds was granted, and no two workers hold the same one. */
  ghost predicate HoldersOk(s: Sys)
  {
    && (forall w :: !LocalOf(s, w).Idle? ==> GrantedTo(GrantsOf(s, LocalOf(s, w).id), LocalOf(s, w).token))
    && (forall v, w :: !LocalOf(s, v).Idle? && HoldsFor(LocalOf(s, w), LocalOf(s, v).id) && v != w ==>
          LocalOf(s, v).token != LocalOf(s, w).token)
  }

  ghost predicate FencingOk(s: Sys, t: int)
  {
    AllWindowsOk(s.cells, s.grants, t) && HoldersOk(s)
  }

  /** What one transaction does to the stored lease, and to the windows granted so far. */
  ghost predicate LeaseMoves(c: Cell, c': Cell, g: seq<Grant>, g': seq<Grant>, token: Token, now: int)
  {
    || (c'.attempts == [] && c.attempts == [] && g' == g)
    || (|c.attempts| == |c'.attempts| == 1 && g' == g
        && c'.attempts[0].leaseToken == c.attempts[0].leaseToken
        && c'.attempts[0].leaseExpiresAt == c.attempts[0].leaseExpiresAt)
    || (|c.attempts| == |c'.attempts| == 1 && g != []
        && c'.attempts[0].leaseToken == c.attempts[0].leaseToken
        && c'.attempts[0].leaseExpiresAt > now
        && g' == g[|g| - 1 := g[|g| - 1].(until := c'.attempts[0].leaseExpiresAt)])
    || (|c.attempts| <= |c'.attempts| == 1
        && (c.attempts != [] ==> c.attempts[0].leaseExpiresAt <= now)
        && c'.attempts[0].leaseToken == token
        && c'.attempts[0].leaseExpiresAt > now
        && g' == g + [Grant(token, now, c'.attempts[0].leaseExpiresAt)])
  }

  predicate Grants(op: CellOp)
  {
    op.DoClaim? || op.DoReclaim?
  }

  lemma ClaimMovesLease(c: Cell, op: CellOp, g: seq<Grant>)
    requires RowsOk(c) && (g == [] <==> c.attempts == [])
    requires Grants(op)
    ensures LeaseMoves(c, Step(c, op), g, Granted(g, c, op), op.token, op.now)
  {
  }

  lemma CommitMovesLease(c: Cell, op: CellOp, g: seq<Grant>, token: Token)
    requires RowsOk(c) && (g == [] <==> c.attempts == [])
    requires op.DoCommitDispatch?
    ensures LeaseMoves(c, Step(c, op), g, Granted(g, c, op), token, op.now)
  {
    if FailClaimed(c, op.attempt, op.token, NotDispatched, DeviceNotOnline, op.now).Commit? {
      FailClaimedClosedForm(c, op.attempt, op.token, NotDispatched, DeviceNotOnline, op.now);
    }
  }

  lemma OthersMoveNoLease(c: Cell, op: CellOp, g: seq<Grant>, token: Token)
    requires RowsOk(c) && (g == [] <==> c.attempts == [])
    requires !Grants(op) && !op.DoCommitDispatch?
    ensures LeaseMoves(c, Step(c, op), g, Granted(g, c, op), token, op.now)
  {
  }

  lemma MoveKeepsWindows(c: Cell, c': Cell, g: seq<Grant>, g': seq<Grant>, token: Token, now: int)
    requires WindowsOk(g, c, now)
    requires LeaseMoves(c, c', g, g', token, now)
    requires |g'| > |g| ==> forall i :: 0 <= i < |g| ==> g[i].token != token
    ensures WindowsOk(g', c', now)
  {
  }

  lemma StepKeepsWindows(g: seq<Grant>, c: Cell, op: CellOp)
    requires RowsOk(c) && WindowsOk(g, c, op.now)
    requires Grants(op) ==> forall i :: 0 <= i < |g| ==> g[i].token != op.token
    ensures WindowsOk(Granted(g, c, op), Step(c, op), op.now)
  {
    var token := if Grants(op) then op.token else 0;
    if Grants(op) {
      ClaimMovesLease(c, op, g);
    } else if op.DoCommitDispatch? {
      CommitMovesLease(c, op, g, token);
    } else {
      OthersMoveNoLease(c, op, g, token);
    }
    MoveKeepsWindows(c, Step(c, op), g, Granted(g, c, op), token, op.now);
  }

  /** How the transaction an action runs is determined by the action and the worker's local state. */
  lemma OpOfAction(s: Sys, a: Action)
    requires OpOf(s, a).Some?
    ensures var (id, op) := OpOf(s, a).value;
            && ClockOf(a) == Some(op.now)
            && (Grants(op) ==> (a.Claim? || a.Reclaim?) && a.id == id && a.token == op.token)
            && (a.FailBefore? || a.CommitToDispatch? || a.Persist? ==>
                  && (op.DoFailBefore? || op.DoCommitDispatch? || op.DoPersist?)
                  && HoldsFor(LocalOf(s, a.w), id) && op.token == LocalOf(s, a.w).token)
  {
  }

  ghost predicate AllWindowsOk(cells: map<CommandId, Cell>, grants: map<CommandId, seq<Grant>>, t: int)
  {
    && (forall id :: id in cells ==> id in grants || cells[id].attempts == [])
    && (forall id :: id in cells && id in grants ==> WindowsOk(grants[id], cells[id], t))
    && (forall id :: id in grants ==> id in cells)
  }

  lemma UpdateKeepsWindows(s: Sys, id: CommandId, c: Cell, g: seq<Grant>, t: int)
    requires AllWindowsOk(s.cells, s.grants, t)
    requires WindowsOk(g, c, t)
    ensures AllWindowsOk(s.cells[id := c], s.grants[id := g], t)
  {
  }

  lemma ApplyKeepsWindows(s: Sys, a: Action, t: int)
    requires forall id :: id in s.cells ==> RowsOk(s.cells[id])
    requires AllWindowsOk(s.cells, s.grants, t)
    requires FreshToken(s, a)
    requires ClockOf(a).Some? ==> ClockOf(a).value == t
    ensures AllWindowsOk(CellsAfter(s, a), GrantsAfter(s, a), t)
  {
    if OpOf(s, a).Some? {
      OpOfAction(s, a);
      var (id, op) := OpOf(s, a).value;
      StepKeepsWindows(GrantsOf(s, id), s.cells[id], op);
      UpdateKeepsWindows(s, id, Step(s.cells[id], op), Granted(GrantsOf(s, id), s.cells[id], op), t);
    }
  }

  predicate SameHold(l: Local, l': Local)
  {
    !l.Idle? && !l'.Idle? && l'.id == l.id && l'.token == l.token
  }

  /** What one action did to the tokens that are granted and held. */
  ghost predicate HoldStep(s: Sys, s': Sys, actor: WorkerId)
  {
    && (forall id, token :: GrantedTo(GrantsOf(s, id), token) ==> GrantedTo(GrantsOf(s', id), token))
    && (forall w :: !LocalOf(s', w).Idle? ==>
          || SameHold(LocalOf(s, w), LocalOf(s', w))
          || (w == actor && NewHold(s, s', LocalOf(s', w))))
  }

  ghost predicate NewHold(s: Sys, s': Sys, l: Local)
    requires !l.Idle?
  {
    !GrantedTo(GrantsOf(s, l.id), l.token) && GrantedTo(GrantsOf(s', l.id), l.token)
  }

  lemma GrantedStays(g: seq<Grant>, c: Cell, op: CellOp)
    ensures forall token :: GrantedTo(g, token) ==> GrantedTo(Granted(g, c, op), token)
  {
    forall token | GrantedTo(g, token)
      ensures GrantedTo(Granted(g, c, op), token)
    {
      var i :| 0 <= i < |g| && g[i].token == token;
      assert Granted(g, c, op)[i].token == token;
    }
  }

  lemma ClaimGrants(g: seq<Grant>, c: Cell, op: CellOp)
    requires RowsOk(c) && Grants(op) && TransactionOf(c, op).Commit?
    ensures GrantedTo(Granted(g, c, op), op.token)
  {
    StepKeepsRows(c, op);
    assert |Step(c, op).attempts| == 1;
    assert Granted(g, c, op)[|g|].token == op.token;
  }

  lemma ApplyKeepsGranted(s: Sys, a: Action, id: CommandId, token: Token)
    requires GrantedTo(GrantsOf(s, id), token)
    ensures GrantedTo(GrantsOf(Apply(s, a), id), token)
  {
    if OpOf(s, a).Some? && OpOf(s, a).value.0 == id {
      GrantedStays(GrantsOf(s, id), s.cells[id], OpOf(s, a).value.1);
    }
  }

  lemma ApplyHolds(s: Sys, a: Action, w: WorkerId)
    requires forall id :: id in s.cells ==> RowsOk(s.cells[id])
    requires FreshToken(s, a)
    ensures var l := LocalOf(Apply(s, a), w);
            l.Idle? || SameHold(LocalOf(s, w), l) || (!a.Create? && !a.Unattended? && a.w == w
                                                      && NewHold(s, Apply(s, a), l))
  {
    if a.Claim? || a.Reclaim? {
      if OpOf(s, a).Some? && a.w == w {
        var (id, op) := OpOf(s, a).value;
        if TransactionOf(s.cells[id], op).Commit? {
          ClaimGrants(GrantsOf(s, id), s.cells[id], op);
        }
      }
    }
  }

  lemma ApplyIsHoldStep(s: Sys, a: Action)
    requires forall id :: id in s.cells ==> RowsOk(s.cells[id])
    requires FreshToken(s, a)
    ensures exists actor :: HoldStep(s, Apply(s, a), actor)
  {
    var s' := Apply(s, a);
    var actor := if a.Create? || a.Unattended? then 0 else a.w;
    forall id, token | GrantedTo(GrantsOf(s, id), token)
      ensures GrantedTo(GrantsOf(s', id), token)
    {
      ApplyKeepsGranted(s, a, id, token);
    }
    forall w | !LocalOf(s', w).Idle?
      ensures SameHold(LocalOf(s, w), LocalOf(s', w)) || (w == actor && NewHold(s, s', LocalOf(s', w)))
    {
      ApplyHolds(s, a, w);
    }
    assert HoldStep(s, s', actor);
  }

  lemma HoldStepKeeps(s: Sys, s': Sys, actor: WorkerId)
    requires HoldersOk(s) && HoldStep(s, s', actor)
    ensures HoldersOk(s')
  {
    forall v, w | !LocalOf(s', v).Idle? && HoldsFor(LocalOf(s', w), LocalOf(s', v).id) && v != w
      ensures LocalOf(s', v).token != LocalOf(s', w).token
    {
      if SameHold(LocalOf(s, v), LocalOf(s', v)) && SameHold(LocalOf(s, w), LocalOf(s', w)) {
        assert HoldsFor(LocalOf(s, w), LocalOf(s, v).id);
      }
    }
  }

  lemma LaterStillOk(s: Sys, t: int, t': int)
    requires FencingOk(s, t) && t <= t'
    ensures FencingOk(s, t')
  {
  }

  lemma {:induction false} ExecuteKeepsFencing(actions: seq<Action>, t: int)
    requires Disciplined(actions) && NotPast(actions, t)
    ensures FencingOk(Execute(actions), t)
    decreases |actions|
  {
    if actions == [] {
    } else {
      var init, a := actions[..|actions| - 1], actions[|actions| - 1];
      var before := Execute(init);
      var now := if ClockOf(a).Some? then ClockOf(a).value else t;
      ExecuteKeepsFencing(init, now);
      ExecuteKeepsSysOk(init);
      assert forall id :: id in before.cells ==> CellOk(before.cells[id]);
      ApplyKeepsWindows(before, a, now);
      ApplyIsHoldStep(before, a);
      var actor :| HoldStep(before, Apply(before, a), actor);
      HoldStepKeeps(before, Apply(before, a), actor);
      LaterStillOk(Apply(before, a), now, t);
    }
  }

  // ------------------------------------------------------------------ theorems

  /** With fresh tokens and a monotone clock, the windows of successive tokens never overlap. */
  lemma WindowsAreDisjoint(actions: seq<Action>, id: CommandId, i: nat, j: nat, instant: int)
    requires Disciplined(actions)
    requires i < j < |GrantsOf(Execute(actions), id)|
    ensures var g := GrantsOf(Execute(actions), id);
            && g[i].token != g[j].token
            && !(g[i].from <= instant < g[i].until && g[j].from <= instant < g[j].until)
  {
    var t := LatestClock(actions);
    ExecuteKeepsFencing(actions, t);
    assert id in Execute(actions).cells;
  }

  ghost function LatestClock(actions: seq<Action>): (t: int)
    ensures NotPast(actions, t)
  {
    if actions == [] then 0
    else
      var t := LatestClock(actions[..|actions| - 1]);
      var last := ClockOf(actions[|actions| - 1]);
      if last.Some? && last.value > t then last.value else t
  }

  /**
   * A worker's transaction commits only inside the window of the token it holds, that token is
   * the last one granted, and no other worker holds it: a worker that was overtaken can only roll back.
   */
  lemma OnlyTheCurrentHolderWrites(actions: seq<Action>, a: Action, v: WorkerId)
    requires Disciplined(actions + [a])
    requires a.FailBefore? || a.CommitToDispatch? || a.Persist?
    requires OpOf(Execute(actions), a).Some?
    requires var (id, op) := OpOf(Execute(actions), a).value; TransactionOf(Execute(actions).cells[id], op).Commit?
    ensures var s := Execute(actions);
            var (id, op) := OpOf(s, a).value;
            var g := GrantsOf(s, id);
            && g != []
            && g[|g| - 1].token == LocalOf(s, a.w).token
            && g[|g| - 1].from <= op.now < g[|g| - 1].until
            && (v != a.w && HoldsFor(LocalOf(s, v), id) ==> LocalOf(s, v).token != LocalOf(s, a.w).token)
  {
    var s := Execute(actions);
    var (id, op) := OpOf(s, a).value;
    assert (actions + [a])[..|actions|] == actions;
    ExecuteKeepsFencing(actions, op.now);
    ExecuteKeepsSysOk(actions);
    WriterIsHolder(s, a, v);
  }

  lemma WriterIsHolder(s: Sys, a: Action, v: WorkerId)
    requires a.FailBefore? || a.CommitToDispatch? || a.Persist?
    requires OpOf(s, a).Some?
    requires var (id, op) := OpOf(s, a).value;
             TransactionOf(s.cells[id], op).Commit? && FencingOk(s, op.now) && CellOk(s.cells[id])
    ensures var (id, op) := OpOf(s, a).value;
            var g := GrantsOf(s, id);
            && g != []
            && g[|g| - 1].token == LocalOf(s, a.w).token
            && g[|g| - 1].from <= op.now < g[|g| - 1].until
            && (v != a.w && HoldsFor(LocalOf(s, v), id) ==> LocalOf(s, v).token != LocalOf(s, a.w).token)
  {
    var (id, op) := OpOf(s, a).value;
    OpOfAction(s, a);
    CommitNeedsValidLease(s.cells[id], op);
    CurrentHolder(s, id, a.w, v, op.now);
  }

  lemma CurrentHolder(s: Sys, id: CommandId, w: WorkerId, v: WorkerId, now: int)
    requires FencingOk(s, now) && id in s.cells && |s.cells[id].attempts| == 1
    requires HoldsFor(LocalOf(s, w), id) && LocalOf(s, w).token == s.cells[id].attempts[0].leaseToken
    ensures var g := GrantsOf(s, id);
            && g != []
            && Current(g[|g| - 1], s.cells[id].attempts[0]) && g[|g| - 1].from <= now
            && (v != w && HoldsFor(LocalOf(s, v), id) ==> LocalOf(s, v).token != LocalOf(s, w).token)
  {
    assert WindowsOk(GrantsOf(s, id), s.cells[id], now);
  }

  lemma CommitNeedsValidLease(c: Cell, op: CellOp)
    requires RowsOk(c)
    requires op.DoFailBefore? || op.DoCommitDispatch? || op.DoPersist?
    requires TransactionOf(c, op).Commit?
    ensures |c.attempts| == 1 && c.attempts[0].leaseToken == op.token && op.now < c.attempts[0].leaseExpiresAt
  {
  }
}
