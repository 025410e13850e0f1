/**
 * The dispatch half of Worker.Run: claim the next Command, commit it, call its Provider, store
 * the outcome. Everything the worker and all others do is one run of CommandSystem.
 */
module CommandDispatch {
  import opened Prelude
  import opened Lifecycle
  import opened CommandRows
  import opened CommandGuards
  import opened CommandStore
  import opened CommandHistory
  import opened CommandSystem
  import opened CommandSurroundings
  import opened CommandWorker
  import T = CommandTransactions

  const REQUEST_KEY_ATTEMPTS: nat := 8
  const PROVIDER_MARGIN: int := 5_000_000

  datatype Adapter = Adapter(
    provider: Provider, configured: bool, prepare: Request -> Option<Reason>, dispatch: Request -> DispatchResult)

  datatype Claimed = ClaimOf(id: CommandId, attempt: nat, token: Token, command: Command)

  /**
   * Everything around one worker, indexed by its transactions: the clock each one reads, what
   * other processes do before it, which Command rows they hold locked, whether a Device is
   * online; and the supply of fresh lease tokens and Provider request keys.
   */
  datatype World = World(
    clock: nat -> int,
    others: nat -> seq<Action>,
    locked: nat -> set<CommandId>,
    online: (nat, CommandId) -> bool,
    identities: nat -> (Token, nat))

  function DispatchLease(lease: int, policy: Policy): int
  {
    Max(lease, policy.providerTimeout + PROVIDER_MARGIN)
  }

  function Refusal(adapter: Adapter, request: Request): Option<Reason>
  {
    if !adapter.configured then Some(ProviderNotConfigured) else adapter.prepare(request)
  }

  /** The claimed Command is stored with the policy it was claimed with. */
  ghost predicate SamePolicy(claim: Claimed, cells: map<CommandId, Cell>)
  {
    claim.id in cells && cells[claim.id].command.policy == claim.command.policy
  }

  lemma PolicyStays(claim: Claimed, run: Run, later: Run)
    requires SamePolicy(claim, run.system.cells) && run.trace <= later.trace
    ensures SamePolicy(claim, later.system.cells)
  {
    LaterAdvances(run, later);
    assert Advances(run.system.cells[claim.id], later.system.cells[claim.id]);
  }

  // ------------------------------------------------------------------ the rounds

  datatype RoundOutcome = Took | Missed | Conflict

  /** One claim transaction: for which Provider, at which turn, under which identity, after what run. */
  datatype Round = Round(provider: Provider, turn: nat, identity: nat, seen: Run, outcome: RoundOutcome)

  /** A round missed or met a conflict only for the reason it gives, in the rows it saw. */
  ghost predicate RoundOk(world: World, r: Round)
  {
    var cells := r.seen.system.cells;
    var (token, key) := world.identities(r.identity);
    match r.outcome
    case Took => true
    case Missed => NothingClaimable(cells, world.locked(r.turn), r.provider, token, world.clock(r.turn))
    case Conflict => KeyInUse(cells, r.provider, key)
  }

  lemma RoundIsOk(world: World, r: Round)
    requires r.outcome.Missed? ==>
               NothingClaimable(r.seen.system.cells, world.locked(r.turn), r.provider, world.identities(r.identity).0,
                                world.clock(r.turn))
    requires r.outcome.Conflict? ==> KeyInUse(r.seen.system.cells, r.provider, world.identities(r.identity).1)
    ensures RoundOk(world, r)
  {
  }

  /** All of them, and each saw an earlier moment of the run. */
  ghost predicate RoundsOk(world: World, trace: seq<Action>, rounds: seq<Round>)
  {
    && (forall i {:trigger RoundOk(world, rounds[i])} :: 0 <= i < |rounds| ==> RoundOk(world, rounds[i]))
    && (forall i :: 0 <= i < |rounds| ==> rounds[i].seen.trace <= trace)
  }

  lemma RoundsStayOk(world: World, trace: seq<Action>, trace': seq<Action>, rounds: seq<Round>)
    requires RoundsOk(world, trace, rounds) && trace <= trace'
    ensures RoundsOk(world, trace', rounds)
  {
    forall i | 0 <= i < |rounds|
      ensures rounds[i].seen.trace <= trace'
    {
      assert rounds[i].seen.trace <= trace;
    }
  }

  lemma RoundsAppendOk(world: World, trace: seq<Action>, rounds: seq<Round>, round: Round)
    requires RoundsOk(world, trace, rounds) && RoundOk(world, round) && round.seen.trace <= trace
    ensures RoundsOk(world, trace, rounds + [round])
  {
    forall i | 0 <= i < |rounds + [round]|
      ensures RoundOk(world, (rounds + [round])[i]) && (rounds + [round])[i].seen.trace <= trace
    {
      if i < |rounds| {
        assert RoundOk(world, rounds[i]);
      }
    }
  }

  /** Claim transactions for one Provider, each but the first after a request-key conflict. */
  ghost predicate Retries(rounds: seq<Round>, provider: Provider)
  {
    && (forall i :: 0 <= i < |rounds| ==> rounds[i].provider == provider)
    && (forall i :: 0 <= i < |rounds| - 1 ==> rounds[i].outcome.Conflict?)
  }

  lemma RetriesAppend(rounds: seq<Round>, round: Round, provider: Provider)
    requires Retries(rounds, provider) && round.provider == provider
    requires rounds != [] ==> LastOutcome(rounds).Conflict?
    ensures Retries(rounds + [round], provider) && LastOutcome(rounds + [round]) == round.outcome
  {
  }

  /** The rounds of one adapter: eight at most, and as many only if all the others met a conflict. */
  ghost predicate AdapterRounds(rounds: seq<Round>, provider: Provider)
  {
    && 1 <= |rounds| <= REQUEST_KEY_ATTEMPTS
    && Retries(rounds, provider)
    && (LastOutcome(rounds).Conflict? ==> |rounds| == REQUEST_KEY_ATTEMPTS)
    && |rounds| <= 8 && (LastOutcome(rounds).Conflict? ==> |rounds| == 8)
  }

  function LastOutcome(rounds: seq<Round>): RoundOutcome
    requires rounds != []
  {
    rounds[|rounds| - 1].outcome
  }

  /** `tries` lists the rounds adapter by adapter, in rotation from `start`, going on only past a miss. */
  ghost predicate Rotation(tries: seq<seq<Round>>, adapters: seq<Adapter>, start: nat)
    requires |adapters| > 0
  {
    && |tries| <= |adapters|
    && (forall k :: 0 <= k < |tries| ==> AdapterRounds(tries[k], adapters[(start + k) % |adapters|].provider))
    && (forall k :: 0 <= k < |tries| - 1 ==> tries[k] != [] && LastOutcome(tries[k]).Missed?)
  }

  lemma RotationAppend(tries: seq<seq<Round>>, rounds: seq<Round>, adapters: seq<Adapter>, start: nat)
    requires |adapters| > 0 && Rotation(tries, adapters, start) && |tries| < |adapters|
    requires tries != [] ==> tries[|tries| - 1] != [] && LastOutcome(tries[|tries| - 1]).Missed?
    requires AdapterRounds(rounds, adapters[(start + |tries|) % |adapters|].provider)
    ensures Rotation(tries + [rounds], adapters, start)
  {
  }

  /** Every round of every adapter tried gives its true reason. */
  ghost predicate TriesOk(world: World, trace: seq<Action>, tries: seq<seq<Round>>)
  {
    forall k {:trigger RoundsOk(world, trace, tries[k])} :: 0 <= k < |tries| ==> RoundsOk(world, trace, tries[k])
  }

  lemma TriesAppendOk(world: World, trace: seq<Action>, trace': seq<Action>, tries: seq<seq<Round>>, rounds: seq<Round>)
    requires TriesOk(world, trace, tries) && trace <= trace' && RoundsOk(world, trace', rounds)
    ensures TriesOk(world, trace', tries + [rounds])
  {
    forall k | 0 <= k < |tries + [rounds]|
      ensures RoundsOk(world, trace', (tries + [rounds])[k])
    {
      if k < |tries| {
        RoundsStayOk(world, trace, trace', tries[k]);
      }
    }
  }

  // ------------------------------------------------------------- a claim's handling

  /**
   * The moments of one claim's handling: held, committed, answered by the Provider, and just
   * before its outcome is stored; with the lease asked for, and the clock of the last own action.
   */
  datatype Handling = Handling(
    claim: Claimed, held: Run, committed: Run, answered: Run, storing: Run, lease: int, online: bool, committedAt: int,
    now: int)

  /** From `earlier` to `later` worker `me` did nothing. */
  ghost predicate OnlyOthers(me: WorkerId, earlier: Run, later: Run)
  {
    && earlier.trace <= later.trace
    && forall i {:trigger later.trace[i]} :: |earlier.trace| <= i < |later.trace| ==> IsTheirs(later.trace[i], me)
  }

  /** From `earlier` to `later` it did one thing, and did it last. */
  ghost predicate Then(me: WorkerId, earlier: Run, later: Run, last: Action)
  {
    && |earlier.trace| < |later.trace| && later.trace[|later.trace| - 1] == last
    && earlier.trace <= later.trace[..|later.trace| - 1]
    && forall i {:trigger later.trace[i]} :: |earlier.trace| <= i < |later.trace| - 1 ==> IsTheirs(later.trace[i], me)
  }

  /** Why the adapter refuses the claimed request. */
  predicate Refuses(adapter: Adapter, claim: Claimed, reason: Reason)
  {
    if adapter.configured then adapter.prepare(claim.command.request) == Some(reason)
    else reason == ProviderNotConfigured
  }

  /** The Provider call of a committed Command and the storing of its answer, nothing of this worker in between. */
  ghost predicate CalledAndStored(me: WorkerId, adapter: Adapter, h: Handling, after: Run)
  {
    var id, result := h.claim.id, adapter.dispatch(h.claim.command.request);
    && h.answered.trace == h.committed.trace + [CallProvider(me, result)]
    && h.answered.system.calls == h.committed.system.calls + [id]
    && OnlyOthers(me, h.answered, h.storing)
    && after.trace == h.storing.trace + [Persist(me, h.now)]
    && id in h.storing.system.cells
    && after.system.cells
       == h.storing.system.cells[id := T.Step(h.storing.system.cells[id],
                                              T.DoPersist(h.claim.attempt, h.claim.token, result, h.now))]
  }

  /** The commitment of a claim, under a lease that outlasts the Provider's timeout. */
  ghost predicate Commits(me: WorkerId, leaseDuration: int, h: Handling)
  {
    && Then(me, h.held, h.committed, CommitToDispatch(me, h.online, h.lease, h.committedAt))
    && h.lease >= leaseDuration && h.lease >= h.claim.command.policy.providerTimeout + 5_000_000
    && (h.lease == leaseDuration || h.lease == h.claim.command.policy.providerTimeout + 5_000_000)
  }

  /**
   * A claim is handled to its end: dropped only for a policy that allows no call; else refused for
   * the adapter's reason; else committed, and if that armed this worker, the Provider is
   * called with the claimed request and its answer stored.
   */
  ghost predicate HandledToTheEnd(me: WorkerId, leaseDuration: int, adapter: Adapter, h: Handling, after: Run)
  {
    var policy, claim := h.claim.command.policy, h.claim;
    && LocalOf(h.held.system, me) == Holding(claim.id, claim.attempt, claim.token)
    && if policy.providerTimeout <= 0 || policy.resultTimeout <= 0 then Then(me, h.held, after, Crash(me))
       else if exists reason :: Refuses(adapter, claim, reason) then
         exists reason :: Refuses(adapter, claim, reason) && Then(me, h.held, after, FailBefore(me, reason, h.now))
       else
         && Commits(me, leaseDuration, h)
         && if LocalOf(h.committed.system, me) == Armed(claim.id, claim.attempt, claim.token) then
              CalledAndStored(me, adapter, h, after)
            else after == h.committed && LocalOf(after.system, me).Idle?
  }

  /** The same, quantified so that it is unfolded only where it is asked for. */
  ghost predicate Handled(me: WorkerId, leaseDuration: int, adapter: Adapter, h: Handling, after: Run)
  {
    forall g {:trigger HandledToTheEnd(me, leaseDuration, adapter, g, after)} ::
      g == h ==> HandledToTheEnd(me, leaseDuration, adapter, g, after)
  }

  lemma HandledMeans(me: WorkerId, leaseDuration: int, adapter: Adapter, h: Handling, after: Run)
    requires Handled(me, leaseDuration, adapter, h, after)
    ensures HandledToTheEnd(me, leaseDuration, adapter, h, after)
  {
  }

  lemma {:induction false} TheirsAreTheirs(actions: seq<Action>, me: WorkerId)
    ensures forall i :: 0 <= i < |Theirs(actions, me)| ==> IsTheirs(Theirs(actions, me)[i], me)
  {
    if actions == [] {
    } else {
      TheirsAreTheirs(actions[..|actions| - 1], me);
    }
  }

  lemma OthersOnly(me: WorkerId, earlier: Run, later: Run, actions: seq<Action>)
    requires later.trace == earlier.trace + Theirs(actions, me)
    ensures OnlyOthers(me, earlier, later)
  {
    TheirsAreTheirs(actions, me);
    forall i | |earlier.trace| <= i < |later.trace|
      ensures IsTheirs(later.trace[i], me)
    {
      assert later.trace[i] == Theirs(actions, me)[i - |earlier.trace|];
    }
  }

  lemma OthersThen(me: WorkerId, earlier: Run, later: Run, actions: seq<Action>, last: Action)
    requires later.trace == earlier.trace + (Theirs(actions, me) + [last])
    ensures Then(me, earlier, later, last)
  {
    TheirsAreTheirs(actions, me);
    forall i | |earlier.trace| <= i < |later.trace| - 1
      ensures IsTheirs(later.trace[i], me)
    {
      assert later.trace[i] == Theirs(actions, me)[i - |earlier.trace|];
    }
    assert later.trace[..|later.trace| - 1] == earlier.trace + Theirs(actions, me);
  }

  lemma DroppedIsHandled(me: WorkerId, leaseDuration: int, adapter: Adapter, h: Handling, after: Run)
    requires h.claim.command.policy.providerTimeout <= 0 || h.claim.command.policy.resultTimeout <= 0
    requires LocalOf(h.held.system, me) == Holding(h.claim.id, h.claim.attempt, h.claim.token)
    requires after.trace == h.held.trace + [Crash(me)]
    ensures Handled(me, leaseDuration, adapter, h, after)
  {
    assert after.trace[..|after.trace| - 1] == h.held.trace;
    assert HandledToTheEnd(me, leaseDuration, adapter, h, after);
  }

  lemma RefusedIsHandled(me: WorkerId, leaseDuration: int, adapter: Adapter, h: Handling, after: Run, reason: Reason)
    requires h.claim.command.policy.providerTimeout > 0 && h.claim.command.policy.resultTimeout > 0
    requires LocalOf(h.held.system, me) == Holding(h.claim.id, h.claim.attempt, h.claim.token)
    requires Refuses(adapter, h.claim, reason) && Then(me, h.held, after, FailBefore(me, reason, h.now))
    ensures Handled(me, leaseDuration, adapter, h, after)
  {
    assert HandledToTheEnd(me, leaseDuration, adapter, h, after);
  }

  lemma CommittedIsHandled(me: WorkerId, leaseDuration: int, adapter: Adapter, h: Handling, after: Run)
    requires h.claim.command.policy.providerTimeout > 0 && h.claim.command.policy.resultTimeout > 0
    requires LocalOf(h.held.system, me) == Holding(h.claim.id, h.claim.attempt, h.claim.token)
    requires adapter.configured && adapter.prepare(h.claim.command.request).None?
    requires Commits(me, leaseDuration, h)
    requires if LocalOf(h.committed.system, me).Armed? then
               && LocalOf(h.committed.system, me) == Armed(h.claim.id, h.claim.attempt, h.claim.token)
               && CalledAndStored(me, adapter, h, after)
             else after == h.committed && LocalOf(after.system, me).Idle?
    ensures Handled(me, leaseDuration, adapter, h, after)
  {
    assert forall reason :: !Refuses(adapter, h.claim, reason);
    assert HandledToTheEnd(me, leaseDuration, adapter, h, after);
  }

  lemma PersistStores(s: Sys, me: WorkerId, claim: Claimed, result: DispatchResult, now: int)
    requires LocalOf(s, me) == Answered(claim.id, claim.attempt, claim.token, result) && claim.id in s.cells
    ensures Apply(s, Persist(me, now)).cells
            == s.cells[claim.id := T.Step(s.cells[claim.id], T.DoPersist(claim.attempt, claim.token, result, now))]
  {
  }

  // ------------------------------------------------------------------ the worker

  class Worker {
    const me: WorkerId
    const around: Surroundings
    const tx: Transactions
    const world: World
    const adapters: seq<Adapter>
    const leaseDuration: int
    var nextAdapter: nat
    var turns: nat
    var drawn: nat

    constructor (me: WorkerId, around: Surroundings, tx: Transactions, world: World, adapters: seq<Adapter>,
                 leaseDuration: int)
      requires |adapters| > 0 && leaseDuration >= 1
      requires around.Valid() && tx.tables == around.tables && LocalOf(around.run.system, me).Idle?
      ensures Valid() && this.me == me && this.around == around && this.world == world && this.adapters == adapters
    {
      this.me, this.around, this.tx, this.world := me, around, tx, world;
      this.adapters, this.leaseDuration := adapters, leaseDuration;
      nextAdapter, turns, drawn := 0, 0, 0;
    }

    ghost predicate Valid()
      reads this, around, around.tables
    {
      Ready() && nextAdapter < |adapters| && LocalOf(around.run.system, me).Idle?
    }

    /** The tables show the run so far. */
    ghost predicate Ready()
      reads around, around.tables
    {
      around.Valid() && tx.tables == around.tables && leaseDuration >= 1
    }

    /** This worker's claim, as the run records it. */
    ghost predicate Holds(claim: Claimed)
      reads around
    {
      && LocalOf(around.run.system, me) == Holding(claim.id, claim.attempt, claim.token)
      && SamePolicy(claim, around.run.system.cells)
    }

    /** What others do before the transaction `t` of this worker. */
    function OthersAt(t: nat): seq<Action>
    {
      Theirs(world.others(t), me)
    }

    /** Others act; then this worker's next transaction reads its clock. */
    method Turn() returns (now: int)
      requires Ready()
      modifies this`turns, around, around.tables
      ensures Ready() && around.run.trace == old(around.run.trace) + OthersAt(old(turns))
      ensures LocalOf(around.run.system, me) == LocalOf(old(around.run.system), me)
      ensures forall id :: id in old(around.run.system.cells) ==> id in around.run.system.cells
      ensures turns == old(turns) + 1 && now == world.clock(old(turns))
    {
      around.ActAll(world.others(turns), me);
      now := world.clock(turns);
      turns := turns + 1;
    }

    // --------------------------------------------------------------- the claim

    function ClaimAction(claim: Claimed, provider: Provider, t: nat, d: nat): Action
    {
      Claim(me, claim.id, provider, claim.token, world.identities(d).1, leaseDuration, world.clock(t))
    }

    /** One claim transaction of turn `t` under the identity `d`. */
    method TryClaim(provider: Provider, t: nat, d: nat) returns (claimed: Option<Claimed>, conflict: bool)
      requires Ready() && LocalOf(around.run.system, me).Idle?
      modifies around, around.tables
      ensures Ready()
      ensures conflict ==> claimed.None? && KeyInUse(around.run.system.cells, provider, world.identities(d).1)
      ensures old(around.run.trace) <= around.run.trace
      ensures claimed.None? ==> around.run.trace == old(around.run.trace) && around.run.system == old(around.run.system)
      ensures claimed.None? && !conflict ==>
                NothingClaimable(around.run.system.cells, world.locked(t), provider, world.identities(d).0,
                                 world.clock(t))
      ensures claimed.Some? ==>
                && claimed.value.token == world.identities(d).0
                && around.run.trace == old(around.run.trace) + [ClaimAction(claimed.value, provider, t, d)]
                && Holds(claimed.value)
    {
      var (token, key) := world.identities(d);
      var now := world.clock(t);
      ghost var s := around.run.system;
      var row;
      row, conflict := tx.tables.ClaimNext(world.locked(t), provider, token, key, leaseDuration, now);
      if row.None? {
        return None, conflict;
      }
      var (id, attempt) := row.value;
      var action := Claim(me, id, provider, token, key, leaseDuration, now);
      ClaimIsAction(s, tx.tables.cells, me, id, attempt, provider, token, key, leaseDuration, now);
      claimed := Some(ClaimOf(id, attempt, token, tx.tables.commands[id]));
      around.Note(action);
    }

    /** Retries with fresh identities while the Provider request key is taken; `rounds` lists the transactions. */
    method ClaimNext(provider: Provider) returns (claimed: Option<Claimed>, conflict: bool, ghost rounds: seq<Round>)
      requires Ready() && LocalOf(around.run.system, me).Idle?
      modifies this`turns, this`drawn, around, around.tables
      ensures Ready() && old(around.run.trace) <= around.run.trace
      ensures AdapterRounds(rounds, provider) && RoundsOk(world, around.run.trace, rounds)
      ensures LastOutcome(rounds) == if claimed.Some? then Took else if conflict then Conflict else Missed
      ensures turns == old(turns) + |rounds| && drawn == old(drawn) + |rounds|
      ensures claimed.None? ==> LocalOf(around.run.system, me).Idle?
      ensures claimed.Some? ==> !conflict && Holds(claimed.value)
    {
      rounds := [];
      claimed, conflict := None, true;
      var n := 0;
      while n < REQUEST_KEY_ATTEMPTS && conflict
        invariant n == |rounds| <= REQUEST_KEY_ATTEMPTS && turns == old(turns) + |rounds|
                  && drawn == old(drawn) + |rounds|
        invariant Ready() && old(around.run.trace) <= around.run.trace
        invariant Retries(rounds, provider)
        invariant RoundsOk(world, around.run.trace, rounds)
        invariant rounds == [] ==> conflict && claimed.None?
        invariant rounds != [] ==>
                    LastOutcome(rounds) == if claimed.Some? then Took else if conflict then Conflict else Missed
        invariant claimed.None? ==> LocalOf(around.run.system, me).Idle?
        invariant claimed.Some? ==> !conflict && Holds(claimed.value)
        decreases REQUEST_KEY_ATTEMPTS - n
      {
        ghost var before, round := around.run.trace, Round(provider, 0, 0, around.run, Conflict);
        claimed, conflict, round := ClaimOnce(provider);
        RoundsStayOk(world, before, around.run.trace, rounds);
        RoundsAppendOk(world, around.run.trace, rounds, round);
        RetriesAppend(rounds, round, provider);
        rounds := rounds + [round];
        n := n + 1;
      }
    }

    /** One round: fresh identities, then one claim transaction. */
    method ClaimOnce(provider: Provider) returns (claimed: Option<Claimed>, conflict: bool, ghost round: Round)
      requires Ready() && LocalOf(around.run.system, me).Idle?
      modifies this`turns, this`drawn, around, around.tables
      ensures Ready() && old(around.run.trace) <= around.run.trace
      ensures turns == old(turns) + 1 && drawn == old(drawn) + 1
      ensures round.provider == provider && RoundOk(world, round) && round.seen.trace <= around.run.trace
      ensures round.outcome == if claimed.Some? then Took else if conflict then Conflict else Missed
      ensures claimed.None? ==> LocalOf(around.run.system, me).Idle?
      ensures claimed.Some? ==> !conflict && Holds(claimed.value)
    {
      var t, d := turns, drawn;
      drawn := drawn + 1;
      var now := Turn();
      ghost var seen := around.run;
      claimed, conflict := TryClaim(provider, t, d);
      round := Round(provider, t, d, seen, if claimed.Some? then Took else if conflict then Conflict else Missed);
      RoundIsOk(world, round);
    }

    // ------------------------------------------------------------ the dispatch

    method FailBeforeNow(claim: Claimed, reason: Reason, now: int)
      requires Ready() && Holds(claim)
      modifies around, around.tables
      ensures Ready() && around.run.trace == old(around.run.trace) + [FailBefore(me, reason, now)]
      ensures LocalOf(around.run.system, me).Idle?
    {
      ghost var s := around.run.system;
      var error := tx.FailBeforeDispatch(claim.id, claim.attempt, claim.token, reason, now);
      FailBeforeIsAction(s, tx.tables.cells, me, claim, reason, now);
      around.Note(FailBefore(me, reason, now));
    }

    method CommitNow(claim: Claimed, online: bool, now: int) returns (dispatched: bool)
      requires Ready() && Holds(claim)
      modifies around, around.tables
      ensures var lease := DispatchLease(leaseDuration, claim.command.policy);
              Ready() && around.run.trace == old(around.run.trace) + [CommitToDispatch(me, online, lease, now)]
      ensures LocalOf(around.run.system, me) == if dispatched then Armed(claim.id, claim.attempt, claim.token) else Idle
      ensures claim.id in around.run.system.cells
    {
      var lease := DispatchLease(leaseDuration, claim.command.policy);
      ghost var s := around.run.system;
      var error;
      dispatched, error := tx.CommitDispatch(claim.id, claim.attempt, claim.token, claim.command.policy, online, lease,
                                             now);
      CommitIsAction(s, tx.tables.cells, me, claim, online, lease, now);
      around.Note(CommitToDispatch(me, online, lease, now));
    }

    /** The one Provider call of a committed Command. */
    method CallNow(claim: Claimed, adapter: Adapter) returns (result: DispatchResult)
      requires Ready() && LocalOf(around.run.system, me) == Armed(claim.id, claim.attempt, claim.token)
      modifies around
      ensures result == adapter.dispatch(claim.command.request)
      ensures Ready() && around.run.trace == old(around.run.trace) + [CallProvider(me, result)]
      ensures LocalOf(around.run.system, me) == Answered(claim.id, claim.attempt, claim.token, result)
      ensures around.run.system.calls == old(around.run.system.calls) + [claim.id]
      ensures around.run.system.cells == old(around.run.system.cells)
    {
      result := adapter.dispatch(claim.command.request);
      around.Note(CallProvider(me, result));
    }

    method PersistNow(claim: Claimed, result: DispatchResult, now: int)
      requires Ready() && LocalOf(around.run.system, me) == Answered(claim.id, claim.attempt, claim.token, result)
      requires claim.id in around.run.system.cells
      modifies around, around.tables
      ensures Ready() && around.run.trace == old(around.run.trace) + [Persist(me, now)]
      ensures around.run.system == Apply(old(around.run.system), Persist(me, now))
      ensures LocalOf(around.run.system, me).Idle?
    {
      ghost var s := around.run.system;
      var error := tx.PersistResult(claim.id, claim.attempt, claim.token, result, now);
      PersistIsAction(s, tx.tables.cells, me, claim, result, now);
      around.Note(Persist(me, now));
    }

    /** What a claim that will be dispatched does up to its commitment, from turn `t` on. */
    function UntilCommit(claim: Claimed, t: nat): seq<Action>
    {
      OthersAt(t) + [CommitToDispatch(me, world.online(t, claim.id),
                                      DispatchLease(leaseDuration, claim.command.policy), world.clock(t))]
    }

    function AfterCommit(adapter: Adapter, claim: Claimed, t: nat): seq<Action>
    {
      [CallProvider(me, adapter.dispatch(claim.command.request))] + OthersAt(t) + [Persist(me, world.clock(t))]
    }

    /** The claim gets as far as its commitment. */
    predicate Proceeds(adapter: Adapter, claim: Claimed)
    {
      && claim.command.policy.providerTimeout > 0 && claim.command.policy.resultTimeout > 0
      && Refusal(adapter, claim.command.request).None?
    }

    /** All that happens while a claim is handled from turn `t` on, given whether its commitment took. */
    function Plan(adapter: Adapter, claim: Claimed, t: nat, took: bool): seq<Action>
    {
      var policy, refusal := claim.command.policy, Refusal(adapter, claim.command.request);
      if policy.providerTimeout <= 0 || policy.resultTimeout <= 0 then [Crash(me)]
      else if refusal.Some? then OthersAt(t) + [FailBefore(me, refusal.value, world.clock(t))]
      else UntilCommit(claim, t) + if took then AfterCommit(adapter, claim, t + 1) else []
    }

    lemma PlanOfCommit(trace: seq<Action>, adapter: Adapter, claim: Claimed, t: nat, took: bool)
      requires Proceeds(adapter, claim)
      ensures trace + Plan(adapter, claim, t, took)
              == if took then trace + UntilCommit(claim, t) + AfterCommit(adapter, claim, t + 1)
                else trace + UntilCommit(claim, t)
    {
      Associate(trace, UntilCommit(claim, t), if took then AfterCommit(adapter, claim, t + 1) else []);
    }

    /**
     * Takes a claimed Command to its end, or to the commitment and the one Provider call: the
     * call and the stored outcome follow exactly if the commitment armed this worker.
     */
    method DispatchClaimed(adapter: Adapter, claim: Claimed) returns (took: bool, ghost handling: Handling)
      requires Ready() && Holds(claim)
      modifies this`turns, around, around.tables
      ensures Ready() && around.run.trace == old(around.run.trace) + Plan(adapter, claim, old(turns), took)
      ensures if Proceeds(adapter, claim) then
                handling.committed.trace == old(around.run.trace) + UntilCommit(claim, old(turns))
                && took == LocalOf(handling.committed.system, me).Armed?
              else !took
      ensures LocalOf(around.run.system, me).Idle?
      ensures handling.claim == claim && handling.held == old(around.run)
      ensures Handled(me, leaseDuration, adapter, handling, around.run)
    {
      var policy := claim.command.policy;
      handling := Handling(claim, around.run, around.run, around.run, around.run, 0, false, 0, world.clock(turns));
      if policy.providerTimeout <= 0 || policy.resultTimeout <= 0 {
        around.Note(Crash(me));
        DroppedIsHandled(me, leaseDuration, adapter, handling, around.run);
        return false, handling;
      }
      var refusal := if adapter.configured then adapter.prepare(claim.command.request) else Some(ProviderNotConfigured);
      if refusal.Some? {
        FailClaim(claim, refusal.value);
        RefusedIsHandled(me, leaseDuration, adapter, handling, around.run, refusal.value);
        return false, handling;
      }
      ghost var trace, t := around.run.trace, turns;
      took, handling := CommitAndCall(adapter, claim);
      PlanOfCommit(trace, adapter, claim, t, took);
    }

    method CommitAndCall(adapter: Adapter, claim: Claimed) returns (took: bool, ghost handling: Handling)
      requires Ready() && Holds(claim) && Proceeds(adapter, claim)
      modifies this`turns, around, around.tables
      ensures Ready() && LocalOf(around.run.system, me).Idle?
      ensures handling.claim == claim && handling.held == old(around.run)
      ensures handling.committed.trace == old(around.run.trace) + UntilCommit(claim, old(turns))
      ensures took == LocalOf(handling.committed.system, me).Armed?
      ensures if took then around.run.trace == handling.committed.trace + AfterCommit(adapter, claim, old(turns) + 1)
              else around.run.trace == handling.committed.trace
      ensures Handled(me, leaseDuration, adapter, handling, around.run)
    {
      ghost var held := around.run;
      ghost var lease, online, at := DispatchLease(leaseDuration, claim.command.policy), world.online(turns, claim.id),
                                     world.clock(turns);
      took := CommitClaim(claim);
      ghost var committed := around.run;
      handling := Handling(claim, held, committed, committed, committed, lease, online, at, world.clock(turns));
      if took {
        ghost var answered, storing;
        answered, storing := CallAndPersist(adapter, claim);
        handling := handling.(answered := answered, storing := storing);
      }
      CommittedIsHandled(me, leaseDuration, adapter, handling, around.run);
    }

    method FailClaim(claim: Claimed, reason: Reason)
      requires Ready() && Holds(claim)
      modifies this`turns, around, around.tables
      ensures Ready()
      ensures around.run.trace == old(around.run.trace)
              + (OthersAt(old(turns)) + [FailBefore(me, reason, world.clock(old(turns)))])
      ensures LocalOf(around.run.system, me).Idle?
      ensures Then(me, old(around.run), around.run, FailBefore(me, reason, world.clock(old(turns))))
    {
      ghost var run, t := around.run, turns;
      var now := Turn();
      PolicyStays(claim, run, around.run);
      FailBeforeNow(claim, reason, now);
      OthersThen(me, run, around.run, world.others(t), FailBefore(me, reason, now));
    }

    method CommitClaim(claim: Claimed) returns (dispatched: bool)
      requires Ready() && Holds(claim)
      modifies this`turns, around, around.tables
      ensures Ready() && turns == old(turns) + 1
      ensures around.run.trace == old(around.run.trace) + UntilCommit(claim, old(turns))
      ensures LocalOf(around.run.system, me) == if dispatched then Armed(claim.id, claim.attempt, claim.token) else Idle
      ensures claim.id in around.run.system.cells
      ensures Then(me, old(around.run), around.run,
                   CommitToDispatch(me, world.online(old(turns), claim.id),
                                    DispatchLease(leaseDuration, claim.command.policy), world.clock(old(turns))))
    {
      ghost var run, t := around.run, turns;
      var online := world.online(turns, claim.id);
      var now := Turn();
      PolicyStays(claim, run, around.run);
      dispatched := CommitNow(claim, online, now);
      OthersThen(me, run, around.run, world.others(t),
                 CommitToDispatch(me, online, DispatchLease(leaseDuration, claim.command.policy), now));
    }

    method CallAndPersist(adapter: Adapter, claim: Claimed) returns (ghost answered: Run, ghost storing: Run)
      requires Ready() && LocalOf(around.run.system, me) == Armed(claim.id, claim.attempt, claim.token)
      requires claim.id in around.run.system.cells
      modifies this`turns, around, around.tables
      ensures Ready() && around.run.trace == old(around.run.trace) + AfterCommit(adapter, claim, old(turns))
      ensures LocalOf(around.run.system, me).Idle?
      ensures forall h: Handling ::
                (h.claim == claim && h.committed == old(around.run) && h.answered == answered && h.storing == storing
                 && h.now == world.clock(old(turns))) ==>
                  CalledAndStored(me, adapter, h, around.run)
    {
      ghost var trace, t := around.run.trace, turns;
      var result := CallNow(claim, adapter);
      answered := around.run;
      var now := Turn();
      storing := around.run;
      OthersOnly(me, answered, storing, world.others(t));
      PersistStores(storing.system, me, claim, result, now);
      PersistNow(claim, result, now);
      Regroup(trace, CallProvider(me, result), OthersAt(t), Persist(me, now));
    }

    // ---------------------------------------------------------------- the loop

    /**
     * Tries the adapters in rotation, starting one further than last time, until one has a
     * Command to claim. Finding none means that every adapter missed, each in the rows it saw;
     * an error means that the last one met eight request-key conflicts. The whole run so far
     * stays a run of CommandSystem, so no Command is handed to its Provider twice in it.
     */
    method DispatchNext() returns (worked: bool, failed: bool, ghost tries: seq<seq<Round>>,
                                   ghost handled: Option<Handling>)
      requires Valid()
      modifies this, around, around.tables
      ensures Valid() && old(around.run.trace) <= around.run.trace
      ensures nextAdapter == (old(nextAdapter) + 1) % |adapters|
      ensures tries != [] && Rotation(tries, adapters, old(nextAdapter))
      ensures LastOutcome(tries[|tries| - 1]) == if worked then Took else if failed then Conflict else Missed
      ensures TriesOk(world, around.run.trace, tries)
      ensures !worked && !failed ==> |tries| == |adapters|
      ensures Distinct(around.run.system.calls)
      ensures worked ==>
                && handled.Some? && old(around.run.trace) <= handled.value.held.trace
                && Handled(me, leaseDuration, adapters[(old(nextAdapter) + |tries| - 1) % |adapters|], handled.value,
                           around.run)
    {
      var start := nextAdapter;
      nextAdapter := (nextAdapter + 1) % |adapters|;
      tries, worked, failed, handled := [], false, false, None;
      var offset := 0;
      while offset < |adapters| && !worked && !failed
        invariant Valid() && old(around.run.trace) <= around.run.trace
        invariant nextAdapter == (start + 1) % |adapters|
        invariant offset <= |adapters| && |tries| == offset && Rotation(tries, adapters, start)
        invariant tries == [] ==> !worked && !failed
        invariant tries != [] ==>
                    LastOutcome(tries[|tries| - 1]) == if worked then Took else if failed then Conflict else Missed
        invariant TriesOk(world, around.run.trace, tries)
        invariant worked ==>
                    && handled.Some? && old(around.run.trace) <= handled.value.held.trace
                    && Handled(me, leaseDuration, adapters[(start + offset - 1) % |adapters|], handled.value,
                               around.run)
        decreases |adapters| - offset
      {
        ghost var before, rounds := around.run.trace, [];
        worked, failed, rounds, handled := TryAdapter(adapters[(start + offset) % |adapters|]);
        TriesAppendOk(world, before, around.run.trace, tries, rounds);
        RotationAppend(tries, rounds, adapters, start);
        tries := tries + [rounds];
        offset := offset + 1;
      }
      RunCallsOnce(around.run);
    }

    /** One adapter's turn: its claim rounds, and the dispatch of what they claimed. */
    method TryAdapter(adapter: Adapter)
      returns (worked: bool, failed: bool, ghost rounds: seq<Round>, ghost handled: Option<Handling>)
      requires Ready() && LocalOf(around.run.system, me).Idle?
      modifies this`turns, this`drawn, around, around.tables
      ensures Ready() && LocalOf(around.run.system, me).Idle? && old(around.run.trace) <= around.run.trace
      ensures AdapterRounds(rounds, adapter.provider) && RoundsOk(world, around.run.trace, rounds)
      ensures LastOutcome(rounds) == if worked then Took else if failed then Conflict else Missed
      ensures worked ==>
                && handled.Some? && old(around.run.trace) <= handled.value.held.trace
                && Handled(me, leaseDuration, adapter, handled.value, around.run)
    {
      handled := None;
      var claimed;
      claimed, failed, rounds := ClaimNext(adapter.provider);
      worked := claimed.Some?;
      if worked {
        ghost var before := around.run.trace;
        var took;
        ghost var handling;
        took, handling := DispatchClaimed(adapter, claimed.value);
        handled := Some(handling);
        RoundsStayOk(world, before, around.run.trace, rounds);
      }
    }
  }

  lemma Associate(a: seq<Action>, b: seq<Action>, c: seq<Action>)
    ensures a + b + c == a + (b + c)
    ensures c == [] ==> a + b == a + (b + c)
  {
  }

  lemma Regroup(trace: seq<Action>, first: Action, more: seq<Action>, last: Action)
    ensures trace + [first] + more + [last] == trace + ([first] + more + [last])
  {
  }

  /** A claim on the tables is the Claim action of the run. */
  lemma ClaimIsAction(s: Sys, cells: map<CommandId, Cell>, me: WorkerId, id: CommandId, attempt: nat,
                      provider: Provider,
                      token: Token, key: nat, lease: int, now: int)
    requires LocalOf(s, me).Idle? && id in s.cells
    requires T.ClaimNext(s.cells[id], provider, token, key, lease, now).1 == Some(attempt)
    requires OneRow(s.cells, cells, id, T.ClaimNext(s.cells[id], provider, token, key, lease, now).0)
    ensures var a := Claim(me, id, provider, token, key, lease, now);
            && cells == CellsAfter(s, a)
            && LocalOf(Apply(s, a), me) == Holding(id, attempt, token)
    ensures cells[id].command == s.cells[id].command
  {
    OneRowIsUpdate(s.cells, cells, id, T.ClaimNext(s.cells[id], provider, token, key, lease, now).0);
  }

  /** A transaction that wrote one row, or rolled back, is that step of the tables. */
  lemma OutcomeIsStep(before: map<CommandId, Cell>, after: map<CommandId, Cell>, id: CommandId, op: T.CellOp,
                      outcome: T.TxResult)
    requires id in before && outcome == T.TransactionOf(before[id], op)
    requires Shows(before, after, id, outcome)
    ensures after == before[id := T.Step(before[id], op)]
  {
  }

  /** The tables after a transaction that ended like that. */
  ghost predicate Shows(before: map<CommandId, Cell>, after: map<CommandId, Cell>, id: CommandId, outcome: T.TxResult)
  {
    match outcome
    case Commit(c, _) => OneRow(before, after, id, c)
    case Rollback(_) => after == before
  }

  predicate HoldsClaim(s: Sys, me: WorkerId, claim: Claimed)
  {
    LocalOf(s, me) == Holding(claim.id, claim.attempt, claim.token) && claim.id in s.cells
  }

  lemma FailBeforeIsAction(s: Sys, cells: map<CommandId, Cell>, me: WorkerId, claim: Claimed, reason: Reason, now: int)
    requires HoldsClaim(s, me, claim)
    requires Shows(s.cells, cells, claim.id,
                   T.FailBeforeDispatch(s.cells[claim.id], claim.attempt, claim.token, reason, now))
    ensures var a := FailBefore(me, reason, now);
            cells == CellsAfter(s, a) && LocalOf(Apply(s, a), me).Idle?
  {
    OutcomeIsStep(s.cells, cells, claim.id, T.DoFailBefore(claim.attempt, claim.token, reason, now),
                  T.FailBeforeDispatch(s.cells[claim.id], claim.attempt, claim.token, reason, now));
  }

  lemma CommitIsAction(s: Sys, cells: map<CommandId, Cell>, me: WorkerId, claim: Claimed, online: bool, lease: int,
                       now: int)
    requires HoldsClaim(s, me, claim)
    requires Shows(s.cells, cells, claim.id,
                   T.CommitDispatch(s.cells[claim.id], claim.attempt, claim.token, online, lease, now))
    ensures var a, r := CommitToDispatch(me, online, lease, now),
                        T.CommitDispatch(s.cells[claim.id], claim.attempt, claim.token, online, lease, now);
            && cells == CellsAfter(s, a) && claim.id in CellsAfter(s, a)
            && LocalOf(Apply(s, a), me)
               == if r.Commit? && r.dispatched then Armed(claim.id, claim.attempt, claim.token) else Idle
  {
    OutcomeIsStep(s.cells, cells, claim.id, T.DoCommitDispatch(claim.attempt, claim.token, online, lease, now),
                  T.CommitDispatch(s.cells[claim.id], claim.attempt, claim.token, online, lease, now));
  }

  lemma PersistIsAction(s: Sys, cells: map<CommandId, Cell>, me: WorkerId, claim: Claimed, result: DispatchResult,
                        now: int)
    requires LocalOf(s, me) == Answered(claim.id, claim.attempt, claim.token, result) && claim.id in s.cells
    requires Shows(s.cells, cells, claim.id,
                   T.PersistResult(s.cells[claim.id], claim.attempt, claim.token, result, now))
    ensures var a := Persist(me, now);
            cells == CellsAfter(s, a) && LocalOf(Apply(s, a), me).Idle?
  {
    OutcomeIsStep(s.cells, cells, claim.id, T.DoPersist(claim.attempt, claim.token, result, now),
                  T.PersistResult(s.cells[claim.id], claim.attempt, claim.token, result, now));
  }
}
