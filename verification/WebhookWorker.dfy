/**
 * The delivery table updated in place and the worker over it (webhookworker/worker.go): its
 * configuration check, one round of work, and the loop that Run polls.
 */
module WebhookWorker {
  import opened Prelude
  import opened WebhookDelivery
  import opened WebhookSystem

  type Rows = map<DeliveryId, Delivery>

  // -------------------------------------------------------------- configuration

  const DEFAULT_LEASE: int := 15_000_000_000

  /** New: absent settings get defaults; too large a budget or too short a delay is refused. */
  method NewConfig(maxAttempts: int, schedule: Option<seq<int>>, lease: int) returns (r: Option<Config>)
    ensures r.Some? ==>
              && ValidConfig(r.value)
              && r.value.maxAttempts == (if maxAttempts == 0 then ATTEMPT_LIMIT else maxAttempts)
              && r.value.lease == (if lease <= 0 then DEFAULT_LEASE else lease)
              && (lease <= 0 ==> r.value.lease == 15_000_000_000) && (maxAttempts == 0 ==> r.value.maxAttempts == 5)
              && r.value.schedule == if schedule.Some? then schedule.value
                   else DEFAULT_SCHEDULE[..r.value.maxAttempts - 1]
    ensures r.None? ==>
              || !(0 <= maxAttempts <= ATTEMPT_LIMIT)
              || (var budget := if maxAttempts == 0 then ATTEMPT_LIMIT else maxAttempts;
                  schedule.Some? && !ValidConfig(Config(budget, schedule.value, 1)))
  {
    var budget := if maxAttempts == 0 then ATTEMPT_LIMIT else maxAttempts;
    var duration := if lease <= 0 then DEFAULT_LEASE else lease;
    if budget < 1 || budget > ATTEMPT_LIMIT {
      return None;
    }
    var delays := if schedule.Some? then schedule.value else DEFAULT_SCHEDULE[..budget - 1];
    if |delays| != budget - 1 {
      return None;
    }
    for i := 0 to |delays|
      invariant forall k :: 0 <= k < i ==> delays[k] >= DEFAULT_SCHEDULE[k]
    {
      if delays[i] < DEFAULT_SCHEDULE[i] {
        return None;
      }
    }
    return Some(Config(budget, delays, duration));
  }

  // ------------------------------------------------------------------- the table

  class Deliveries {
    var ids: seq<DeliveryId>
    var rows: Rows

    constructor ()
      ensures Valid() && rows == map[]
    {
      ids, rows := [], map[];
    }

    ghost predicate Valid()
      reads this
    {
      Distinct(ids) && forall id :: id in ids <==> id in rows
    }

    /** The rows of one delivery, as another worker's transaction left them. */
    method Put(id: DeliveryId, d: Delivery)
      requires Valid() && id in rows
      modifies this
      ensures Valid() && ids == old(ids) && rows == old(rows)[id := d]
    {
      rows := rows[id := d];
    }

    method ClaimDue(locked: set<DeliveryId>, token: Token, lease: int, maxAttempts: int, now: int)
      returns (claimed: Option<(DeliveryId, nat)>)
      requires Valid()
      modifies this
      ensures Valid() && ids == old(ids)
      ensures match claimed
              case None =>
                && rows == old(rows)
                && (lease >= MICROSECOND && ValidMaxAttempts(maxAttempts) ==>
                      forall id :: id in rows && id !in locked ==> !Due(rows[id], maxAttempts, now))
              case Some((id, attempt)) =>
                && id in old(rows) && IsFirst(ClaimKeys(old(rows), locked, maxAttempts, now), id)
                && WebhookDelivery.ClaimDue(old(rows)[id], token, lease, maxAttempts, now) == (rows[id], Some(attempt))
                && rows == old(rows)[id := rows[id]]
      ensures claimed.Some? ==>
                FirstDue(old(rows), locked, maxAttempts, now, claimed.value.0)
    {
      if lease < MICROSECOND || !ValidMaxAttempts(maxAttempts) {
        return None;
      }
      var due := ClaimKeys(rows, locked, maxAttempts, now);
      var found := First(ids, due);
      if found.None? {
        assert forall id :: id in rows && id !in locked && Due(rows[id], maxAttempts, now) ==> id in due;
        return None;
      }
      var id := found.value;
      FirstIsEarliest(rows, locked, d => Due(d, maxAttempts, now), DueRank, due, id);
      var d := rows[id];
      rows := rows[id := d.(status := Sending, attemptCount := d.attemptCount + 1, nextAttemptAt := None,
                            lease := Some(Lease(token, now + lease / MICROSECOND)), updatedAt := now)];
      rows := rows[id := rows[id].(attempts := d.attempts + [Attempt(rows[id].attemptCount, now, None, None, None)])];
      return Some((id, |d.attempts|));
    }

    method ExhaustRetryBudget(locked: set<DeliveryId>, maxAttempts: int, now: int) returns (done: Option<DeliveryId>)
      requires Valid()
      modifies this
      ensures Valid() && ids == old(ids)
      ensures match done
              case None => rows == old(rows) && forall id :: id in rows && id !in locked ==>
                  !Exhausted(rows[id], maxAttempts)
              case Some(id) =>
                && id in old(rows) && IsFirst(ExhaustKeys(old(rows), locked, maxAttempts), id)
                && WebhookDelivery.ExhaustRetryBudget(old(rows)[id], maxAttempts, now) == (rows[id], true)
                && rows == old(rows)[id := rows[id]]
      ensures done.Some? ==>
                FirstExhausted(old(rows), locked, maxAttempts, done.value)
    {
      if !ValidMaxAttempts(maxAttempts) {
        return None;
      }
      var due := ExhaustKeys(rows, locked, maxAttempts);
      done := First(ids, due);
      if done.None? {
        assert forall id :: id in rows && id !in locked && Exhausted(rows[id], maxAttempts) ==> id in due;
        return;
      }
      FirstIsEarliest(rows, locked, d => Exhausted(d, maxAttempts), BudgetRank, due, done.value);
      rows := rows[done.value := rows[done.value].(status := Dead, nextAttemptAt := None, updatedAt := now)];
    }

    method CompleteAttempt(id: DeliveryId, token: Token, request: CompleteRequest, now: int) returns (completed: bool)
      requires Valid()
      modifies this
      ensures Valid() && ids == old(ids)
      ensures id !in old(rows) ==> !completed && rows == old(rows)
      ensures id in old(rows) ==>
                && id in rows && WebhookDelivery.CompleteAttempt(old(rows)[id], token, request, now)
                     == (rows[id], completed)
                && rows == old(rows)[id := rows[id]]
    {
      if id !in rows || request.attempt >= |rows[id].attempts| {
        return false;
      }
      var d, attempt := rows[id], rows[id].attempts[request.attempt];
      if !d.status.Sending? || d.lease.None? || d.lease.value.token != token || d.lease.value.expiresAt <= now
         || attempt.completedAt.Some? || attempt.attemptNo != d.attemptCount || !ValidMaxAttempts(request.maxAttempts) {
        return false;
      }
      var next := WebhookCompletion(d.attemptCount, request);
      if next.None? {
        return false;
      }
      rows := rows[id := d.(attempts := d.attempts[request.attempt :=
                                                   Completed(attempt, request.httpStatus, request.errorCode, now)])];
      Finish(id, next.value, request.errorCode, request.retryDelay, now);
      return true;
    }

    /** finishDelivery: the one UPDATE for each of the three statuses. */
    method Finish(id: DeliveryId, status: Status, error: Option<string>, retryDelay: int, now: int)
      requires Valid() && id in rows && (Terminal(status) || status.Failed?)
      modifies this
      ensures Valid() && ids == old(ids) && rows == old(rows)[id :=
              FinishDelivery(old(rows)[id], status, error, retryDelay, now)]
    {
      var d := rows[id].(status := status, lease := None, updatedAt := now);
      match status {
        case Delivered => d := d.(lastError := None, nextAttemptAt := None, deliveredAt := Some(now));
        case Failed => d := d.(lastError := error, nextAttemptAt := Some(now + retryDelay));
        case Dead => d := d.(lastError := error, nextAttemptAt := None);
      }
      rows := rows[id := d];
    }

    method RecoverNextExpired(locked: set<DeliveryId>, errorCode: string, maxAttempts: int, schedule: seq<int>,
                              now: int)
      returns (done: Option<DeliveryId>)
      requires Valid()
      requires forall id :: id in rows && rows[id].status.Sending? ==> rows[id].attemptCount >= 1
      modifies this
      ensures Valid() && ids == old(ids)
      ensures match done
              case None =>
                && rows == old(rows)
                && (errorCode != "" && ValidSchedule(maxAttempts, schedule) ==>
                      forall id :: id in rows && id !in locked ==> !Expired(rows[id], now))
              case Some(id) =>
                && id in old(rows) && IsFirst(RecoverKeys(old(rows), locked, now), id)
                && RecoverExpired(old(rows)[id], errorCode, maxAttempts, schedule, now) == (rows[id], true)
                && rows == old(rows)[id := rows[id]]
      ensures done.Some? ==>
                FirstExpired(old(rows), locked, now, done.value)
    {
      if errorCode == "" || !ValidSchedule(maxAttempts, schedule) {
        return None;
      }
      var due := RecoverKeys(rows, locked, now);
      done := First(ids, due);
      if done.None? {
        assert forall id :: id in rows && id !in locked && Expired(rows[id], now) ==> id in due;
        return;
      }
      FirstIsEarliest(rows, locked, d => Expired(d, now), LeaseRank, due, done.value);
      var id, d := done.value, rows[done.value];
      var i := FirstOpen(d, 0);
      var status, retry := Dead, 0;
      if d.attemptCount < maxAttempts {
        status, retry := Failed, schedule[d.attemptCount - 1];
      }
      rows := rows[id := d.(attempts := d.attempts[i :=
                                                   Completed(d.attempts[i], d.attempts[i].httpStatus, Some(errorCode),
                                                       now)])];
      Finish(id, status, Some(errorCode), retry, now);
    }
  }

  function DueRank(d: Delivery): (int, int)
  {
    (if d.nextAttemptAt.Some? then d.nextAttemptAt.value else 0, d.createdAt)
  }

  function BudgetRank(d: Delivery): (int, int)
  {
    (d.updatedAt, 0)
  }

  function LeaseRank(d: Delivery): (int, int)
  {
    (if d.lease.Some? then d.lease.value.expiresAt else 0, 0)
  }

  /** Of all unlocked deliveries that are due, `id` comes first by that pair of instants; identifiers break ties. */
  ghost predicate Earliest(rows: Rows, locked: set<DeliveryId>, due: Delivery -> bool, rank: Delivery -> (int, int),
                           id: DeliveryId)
  {
    && id in rows && id !in locked && due(rows[id])
    && forall other :: other in rows && other !in locked && due(rows[other]) ==>
         || rank(rows[id]).0 < rank(rows[other]).0
         || (rank(rows[id]).0 == rank(rows[other]).0 && rank(rows[id]).1 < rank(rows[other]).1)
         || (rank(rows[id]) == rank(rows[other]) && id <= other)
  }

  ghost predicate FirstDue(rows: Rows, locked: set<DeliveryId>, maxAttempts: int, now: int, id: DeliveryId)
  {
    Earliest(rows, locked, d => Due(d, maxAttempts, now), DueRank, id)
  }

  ghost predicate FirstExhausted(rows: Rows, locked: set<DeliveryId>, maxAttempts: int, id: DeliveryId)
  {
    Earliest(rows, locked, d => Exhausted(d, maxAttempts), BudgetRank, id)
  }

  ghost predicate FirstExpired(rows: Rows, locked: set<DeliveryId>, now: int, id: DeliveryId)
  {
    Earliest(rows, locked, d => Expired(d, now), LeaseRank, id)
  }

  lemma FirstIsEarliest(rows: Rows, locked: set<DeliveryId>, due: Delivery -> bool, rank: Delivery -> (int, int),
                        keys: map<DeliveryId, Rank>, id: DeliveryId)
    requires forall other :: other in keys <==> other in rows && other !in locked && due(rows[other])
    requires forall other :: other in keys ==> keys[other] == rank(rows[other])
    requires IsFirst(keys, id)
    ensures Earliest(rows, locked, due, rank, id)
  {
    forall other | other in rows && other !in locked && due(rows[other])
      ensures || rank(rows[id]).0 < rank(rows[other]).0
              || (rank(rows[id]).0 == rank(rows[other]).0 && rank(rows[id]).1 < rank(rows[other]).1)
              || (rank(rows[id]) == rank(rows[other]) && id <= other)
    {
      assert ComesBefore(keys, id, other);
    }
  }

  function ClaimKeys(rows: Rows, locked: set<DeliveryId>, maxAttempts: int, now: int): map<DeliveryId, Rank>
  {
    map id | id in rows && id !in locked && Due(rows[id], maxAttempts, now) ::
        (rows[id].nextAttemptAt.value, rows[id].createdAt)
  }

  function ExhaustKeys(rows: Rows, locked: set<DeliveryId>, maxAttempts: int): map<DeliveryId, Rank>
  {
    map id | id in rows && id !in locked && Exhausted(rows[id], maxAttempts) :: (rows[id].updatedAt, 0)
  }

  function RecoverKeys(rows: Rows, locked: set<DeliveryId>, now: int): map<DeliveryId, Rank>
  {
    map id | id in rows && id !in locked && Expired(rows[id], now) :: (rows[id].lease.value.expiresAt, 0)
  }

  // ------------------------------------------------------------------ the worker

  ghost function TotalLeft(ids: seq<DeliveryId>, rows: Rows): nat
    requires DeliveriesOk(rows)
  {
    if ids == [] then 0
    else
      TotalLeft(ids[..|ids| - 1], rows)
      + if ids[|ids| - 1] in rows then LeftOf(rows[ids[|ids| - 1]]) else 0
  }

  ghost function LeftOf(d: Delivery): nat
    requires DeliveryOk(d)
  {
    StepsLeft(d)
  }

  lemma {:induction false} TotalDrops(ids: seq<DeliveryId>, rows: Rows, rows': Rows, id: DeliveryId)
    requires DeliveriesOk(rows) && DeliveriesOk(rows') && Distinct(ids)
    requires id in rows && id in rows' && rows' == rows[id := rows'[id]]
    requires DeliveryOk(rows[id]) && DeliveryOk(rows'[id]) && StepsLeft(rows'[id]) < StepsLeft(rows[id])
    ensures if id in ids then TotalLeft(ids, rows') < TotalLeft(ids, rows)
            else TotalLeft(ids, rows') == TotalLeft(ids, rows)
  {
    if ids == [] {
    } else {
      TotalDrops(ids[..|ids| - 1], rows, rows', id);
    }
  }

  /** One transaction that took effect: the table stays sound and has less left to do. */
  lemma StepOfTable(ids: seq<DeliveryId>, rows: Rows, rows': Rows, id: DeliveryId, op: Op)
    requires DeliveriesOk(rows) && Distinct(ids) && id in ids && id in rows
    requires Transact(rows[id], op).1 && id in rows' && rows'[id] == Step(rows[id], op)
             && rows' == rows[id := rows'[id]]
    ensures DeliveriesOk(rows') && TotalLeft(ids, rows') < TotalLeft(ids, rows)
  {
    assert DeliveryOk(rows[id]);
    StepKeepsOk(rows[id], op);
    StepDecreases(rows[id], op);
    forall other | other in rows'
      ensures DeliveryOk(rows'[other])
    {
      assert other != id ==> DeliveryOk(rows[other]);
    }
    TotalDrops(ids, rows, rows', id);
  }

  /** Other workers' transactions on known deliveries. */
  type Elsewhere = (DeliveryId, Op)

  /**
   * What the worker meets: clocks, fresh tokens, how endpoints answer, what others do before each
   * of its transactions, and which deliveries they hold locked meanwhile.
   */
  datatype World = World(
    clock: nat -> int, tokens: nat -> Token, endpoint: (DeliveryId, nat) -> Answer, others: nat -> seq<Elsewhere>,
    locked: nat -> set<DeliveryId>)

  ghost predicate RowsAdvance(rows: Rows, rows': Rows)
  {
    && rows'.Keys == rows.Keys
    && forall id {:trigger Advances(rows[id], rows'[id])} :: id in rows ==> Advances(rows[id], rows'[id])
  }

  lemma RowsAdvanceTransitive(a: Rows, b: Rows, c: Rows)
    requires RowsAdvance(a, b) && RowsAdvance(b, c)
    ensures RowsAdvance(a, c)
  {
    forall id | id in a
      ensures Advances(a[id], c[id])
    {
      AdvancesTransitive(a[id], b[id], c[id]);
    }
  }

  lemma RowsStill(rows: Rows)
    ensures RowsAdvance(rows, rows)
  {
    forall id | id in rows
      ensures Advances(rows[id], rows[id])
    {
      Unchanged(rows[id]);
    }
  }

  /** One transaction of anybody, taken effect or not. */
  lemma AnyStepOfTable(ids: seq<DeliveryId>, rows: Rows, id: DeliveryId, op: Op)
    requires DeliveriesOk(rows) && Distinct(ids) && id in rows && id in ids
    ensures var rows' := rows[id := Step(rows[id], op)];
            DeliveriesOk(rows') && RowsAdvance(rows, rows') && TotalLeft(ids, rows') <= TotalLeft(ids, rows)
  {
    var rows' := rows[id := Step(rows[id], op)];
    assert DeliveryOk(rows[id]);
    RowsStill(rows);
    StepDecreases(rows[id], op);
    StepAdvances(rows[id], op);
    if Transact(rows[id], op).1 {
      StepOfTable(ids, rows, rows', id, op);
    } else {
      assert rows' == rows;
    }
    forall other | other in rows
      ensures Advances(rows[other], rows'[other])
    {
      assert other != id ==> Advances(rows[other], rows[other]);
    }
  }

  /** Of the deliveries nobody else held locked none is expired; likewise the next two. */
  ghost predicate NoneExpired(rows: Rows, locked: set<DeliveryId>, now: int)
  {
    forall id :: id in rows && id !in locked ==> !Expired(rows[id], now)
  }

  ghost predicate NoneExhausted(rows: Rows, locked: set<DeliveryId>, maxAttempts: int)
  {
    forall id :: id in rows && id !in locked ==> !Exhausted(rows[id], maxAttempts)
  }

  ghost predicate NoneDue(rows: Rows, locked: set<DeliveryId>, maxAttempts: int, now: int)
  {
    forall id :: id in rows && id !in locked ==> !Due(rows[id], maxAttempts, now)
  }

  /** Every POST went out for an Attempt that was opened. */
  ghost predicate PostsOpened(posts: seq<(DeliveryId, nat)>, rows: Rows)
  {
    forall post :: post in posts ==> post.0 in rows && post.1 < |rows[post.0].attempts|
  }

  lemma PostsStay(posts: seq<(DeliveryId, nat)>, rows: Rows, rows': Rows)
    requires PostsOpened(posts, rows) && RowsAdvance(rows, rows')
    ensures PostsOpened(posts, rows')
  {
    forall post | post in posts
      ensures post.0 in rows' && post.1 < |rows'[post.0].attempts|
    {
      assert Advances(rows[post.0], rows'[post.0]);
    }
  }

  /** What one round of work did, and in which rows: recovered, gave up, or sent a delivery. */
  datatype Act =
    | Nothing
    | Recovered(seen: Rows, id: DeliveryId)
    | GaveUp(seen: Rows, id: DeliveryId)
    | Sent(due: Rows, id: DeliveryId, attempt: nat, token: Token, held: Rows, seen: Rows)

  /** One transaction on one delivery took effect, and nothing else happened. */
  ghost predicate Took(rows: Rows, rows': Rows, id: DeliveryId, op: Op)
  {
    id in rows && Transact(rows[id], op).1 && rows' == rows[id := Step(rows[id], op)]
  }

  class Worker {
    const table: Deliveries
    const config: Config
    const world: World
    var turns: nat
    var posts: seq<(DeliveryId, nat)>

    constructor (table: Deliveries, config: Config, world: World)
      requires ValidConfig(config) && table.Valid() && DeliveriesOk(table.rows)
      ensures Valid() && posts == [] && this.table == table && this.config == config
    {
      this.table, this.config, this.world := table, config, world;
      turns, posts := 0, [];
    }

    /** Every POST went out for an opened Attempt, no Attempt twice. */
    ghost predicate Valid()
      reads this, table
    {
      && ValidConfig(config) && table.Valid() && DeliveriesOk(table.rows)
      && Distinct(posts) && PostsOpened(posts, table.rows)
    }

    /** Others act; then this worker's next transaction reads its clock. */
    method Turn() returns (now: int)
      requires Valid()
      modifies this`turns, table
      ensures Valid() && table.ids == old(table.ids) && RowsAdvance(old(table.rows), table.rows)
      ensures TotalLeft(table.ids, table.rows) <= old(TotalLeft(table.ids, table.rows))
      ensures turns == old(turns) + 1 && now == world.clock(old(turns))
    {
      var ops := world.others(turns);
      now := world.clock(turns);
      turns := turns + 1;
      RowsStill(table.rows);
      for k := 0 to |ops|
        invariant Valid() && table.ids == old(table.ids) && RowsAdvance(old(table.rows), table.rows)
        invariant TotalLeft(table.ids, table.rows) <= old(TotalLeft(table.ids, table.rows))
        invariant turns == old(turns) + 1
      {
        var (id, op) := ops[k];
        if id in table.rows {
          ghost var rows := table.rows;
          AnyStepOfTable(table.ids, rows, id, op);
          table.Put(id, Step(table.rows[id], op));
          PostsStay(posts, rows, table.rows);
          RowsAdvanceTransitive(old(table.rows), rows, table.rows);
        }
      }
    }

    /**
     * recover, else exhaust, else dispatch. Doing nothing means that none of the three had
     * anything to do in the rows it saw; `failed` means that the repository refused the answer.
     */
    method RunNext()
      returns (worked: bool, failed: bool, ghost recovering: Rows, ghost exhausting: Rows, ghost act: Act,
               ghost at: nat)
      requires Valid()
      modifies this`turns, this`posts, table
      ensures Valid() && table.ids == old(table.ids) && RowsAdvance(old(table.rows), table.rows)
      ensures TotalLeft(table.ids, table.rows) <= old(TotalLeft(table.ids, table.rows))
      ensures worked ==> TotalLeft(table.ids, table.rows) < old(TotalLeft(table.ids, table.rows))
      ensures failed ==> worked
      ensures !worked ==> posts == old(posts) && turns == old(turns) + 3
      ensures !worked ==> Idle(recovering, exhausting, table.rows, old(turns))
      ensures worked ==> old(turns) <= at < turns && DidAct(act, table.rows, at, failed)
      ensures posts == old(posts) + PostOf(act)
    {
      at := turns;
      worked, act := RecoverNext();
      failed := false;
      recovering, exhausting := table.rows, table.rows;
      if worked {
        return;
      }
      ghost var before := table.rows;
      at := turns;
      worked, act := ExhaustNext();
      RowsAdvanceTransitive(old(table.rows), before, table.rows);
      exhausting := table.rows;
      if worked {
        return;
      }
      before := table.rows;
      at := turns;
      worked, failed, act := DispatchNext();
      RowsAdvanceTransitive(old(table.rows), before, table.rows);
    }

    /**
     * The rows a round left at turn `t`: a delivery recovered or given up; or the one that was due first
     * claimed, sent to its endpoint and, one turn later, the answer stored or refused.
     */
    ghost predicate DidAct(act: Act, rows: Rows, t: nat, failed: bool)
    {
      match act
      case Nothing => false
      case Recovered(seen, id) =>
        && Took(seen, rows, id, DoRecover(config, world.clock(t))) && !failed
        && FirstExpired(seen, world.locked(t), world.clock(t), id)
      case GaveUp(seen, id) =>
        && Took(seen, rows, id, DoExhaust(config, world.clock(t))) && !failed
        && FirstExhausted(seen, world.locked(t), config.maxAttempts, id)
      case Sent(due, id, attempt, token, held, seen) =>
        && token == world.tokens(t) && Took(due, held, id, DoClaim(token, config, world.clock(t)))
        && FirstDue(due, world.locked(t), config.maxAttempts, world.clock(t), id)
        && attempt == |due[id].attempts| && RowsAdvance(held, seen) && id in seen
        && var op := DoAnswer(attempt, token, world.endpoint(id, attempt), config, world.clock(t + 1));
           rows == seen[id := Step(seen[id], op)] && failed == !Transact(seen[id], op).1
    }

    /** The request a round sent, if it sent one. */
    ghost function PostOf(act: Act): seq<(DeliveryId, nat)>
    {
      if act.Sent? && WasPosted(world.endpoint(act.id, act.attempt)) then [(act.id, act.attempt)] else []
    }

    /**
     * But for locked rows nothing was expired, exhausted or due for this worker, at the three moments
     * it looked from turn `t` on.
     */
    ghost predicate Idle(recovering: Rows, exhausting: Rows, dispatching: Rows, t: nat)
    {
      && RowsAdvance(recovering, exhausting) && RowsAdvance(exhausting, dispatching)
      && NoneExpired(recovering, world.locked(t), world.clock(t))
      && NoneExhausted(exhausting, world.locked(t + 1), config.maxAttempts)
      && (CanClaim(config) ==> NoneDue(dispatching, world.locked(t + 2), config.maxAttempts, world.clock(t + 2)))
    }

    method RecoverNext() returns (worked: bool, ghost act: Act)
      requires Valid()
      modifies this`turns, table
      ensures Valid() && table.ids == old(table.ids) && turns == old(turns) + 1
              && RowsAdvance(old(table.rows), table.rows)
      ensures TotalLeft(table.ids, table.rows) <= old(TotalLeft(table.ids, table.rows))
      ensures worked ==> TotalLeft(table.ids, table.rows) < old(TotalLeft(table.ids, table.rows))
      ensures !worked ==> NoneExpired(table.rows, world.locked(old(turns)), world.clock(old(turns)))
      ensures worked ==> DidAct(act, table.rows, old(turns), false)
      ensures PostOf(act) == []
    {
      act := Nothing;
      var locked := world.locked(turns);
      var now := Turn();
      SendingHasAttempt(table.rows);
      ScheduleIsValid(config);
      ghost var rows := table.rows;
      var done := table.RecoverNextExpired(locked, "worker_lease_expired", config.maxAttempts, config.schedule, now);
      worked := done.Some?;
      if worked {
        TookEffect(table.ids, old(table.rows), rows, table.rows, done.value, DoRecover(config, now), posts);
        act := Recovered(rows, done.value);
      }
    }

    method ExhaustNext() returns (worked: bool, ghost act: Act)
      requires Valid()
      modifies this`turns, table
      ensures Valid() && table.ids == old(table.ids) && turns == old(turns) + 1
              && RowsAdvance(old(table.rows), table.rows)
      ensures TotalLeft(table.ids, table.rows) <= old(TotalLeft(table.ids, table.rows))
      ensures worked ==> TotalLeft(table.ids, table.rows) < old(TotalLeft(table.ids, table.rows))
      ensures !worked ==> NoneExhausted(table.rows, world.locked(old(turns)), config.maxAttempts)
      ensures worked ==> DidAct(act, table.rows, old(turns), false)
      ensures PostOf(act) == []
    {
      act := Nothing;
      var locked := world.locked(turns);
      var now := Turn();
      ghost var rows := table.rows;
      var done := table.ExhaustRetryBudget(locked, config.maxAttempts, now);
      worked := done.Some?;
      if worked {
        TookEffect(table.ids, old(table.rows), rows, table.rows, done.value, DoExhaust(config, now), posts);
        act := GaveUp(rows, done.value);
      }
    }

    method DispatchNext() returns (worked: bool, failed: bool, ghost act: Act)
      requires Valid()
      modifies this`turns, this`posts, table
      ensures Valid() && table.ids == old(table.ids) && RowsAdvance(old(table.rows), table.rows)
      ensures TotalLeft(table.ids, table.rows) <= old(TotalLeft(table.ids, table.rows))
      ensures worked ==> TotalLeft(table.ids, table.rows) < old(TotalLeft(table.ids, table.rows))
      ensures failed ==> worked
      ensures !worked ==> posts == old(posts) && turns == old(turns) + 1
      ensures !worked && CanClaim(config) ==> NoneDue(table.rows, world.locked(old(turns)), config.maxAttempts,
                                                      world.clock(old(turns)))
      ensures worked ==> DidAct(act, table.rows, old(turns), failed)
      ensures posts == old(posts) + PostOf(act) && turns > old(turns)
    {
      act := Nothing;
      ghost var due;
      var claimed;
      claimed, due := ClaimNext();
      if claimed.None? {
        return false, false, act;
      }
      var (id, attempt, token) := claimed.value;
      ghost var held := table.rows;
      var completed;
      ghost var seen;
      completed, seen := DispatchClaimed(id, attempt, token);
      RowsAdvanceTransitive(old(table.rows), held, table.rows);
      act := Sent(due, id, attempt, token, held, seen);
      return true, !completed, act;
    }

    /** Claims the delivery that was due first in the rows it saw. */
    method ClaimNext() returns (claimed: Option<(DeliveryId, nat, Token)>, ghost due: Rows)
      requires Valid()
      modifies this`turns, table
      ensures Valid() && table.ids == old(table.ids) && turns == old(turns) + 1
              && RowsAdvance(old(table.rows), table.rows)
      ensures TotalLeft(table.ids, table.rows) <= old(TotalLeft(table.ids, table.rows))
      ensures claimed.None? && CanClaim(config) ==>
                NoneDue(table.rows, world.locked(old(turns)), config.maxAttempts, world.clock(old(turns)))
      ensures claimed.Some? ==>
                var (id, attempt, token) := claimed.value;
                var now := world.clock(old(turns));
                && TotalLeft(table.ids, table.rows) < old(TotalLeft(table.ids, table.rows))
                && token == world.tokens(old(turns)) && Took(due, table.rows, id, DoClaim(token, config, now))
                && FirstDue(due, world.locked(old(turns)), config.maxAttempts, now, id)
                && attempt == |due[id].attempts| && attempt < |table.rows[id].attempts| && (id, attempt) !in posts
    {
      var token, locked := world.tokens(turns), world.locked(turns);
      var now := Turn();
      due := table.rows;
      var row := table.ClaimDue(locked, token, config.lease, config.maxAttempts, now);
      if row.None? {
        return None, due;
      }
      var (id, attempt) := row.value;
      TookEffect(table.ids, old(table.rows), due, table.rows, id, DoClaim(token, config, now), posts);
      return Some((id, attempt, token)), due;
    }

    /** Asks the endpoint, and stores how it answered; a refused answer is reported and changes nothing. */
    method DispatchClaimed(id: DeliveryId, attempt: nat, token: Token) returns (completed: bool, ghost seen: Rows)
      requires Valid() && id in table.rows && attempt < |table.rows[id].attempts| && (id, attempt) !in posts
      modifies this`turns, this`posts, table
      ensures Valid() && table.ids == old(table.ids) && RowsAdvance(old(table.rows), table.rows)
      ensures TotalLeft(table.ids, table.rows) <= old(TotalLeft(table.ids, table.rows))
      ensures posts == if WasPosted(world.endpoint(id, attempt)) then old(posts) + [(id, attempt)] else old(posts)
      ensures turns > old(turns)
      ensures var op := DoAnswer(attempt, token, world.endpoint(id, attempt), config, world.clock(old(turns)));
              && RowsAdvance(old(table.rows), seen) && id in seen && completed == Transact(seen[id], op).1
              && table.rows == seen[id := Step(seen[id], op)]
      ensures completed && world.endpoint(id, attempt).Response? ==> 100 <= world.endpoint(id, attempt).status <= 599
    {
      var answer := world.endpoint(id, attempt);
      if WasPosted(answer) {
        posts := posts + [(id, attempt)];
      }
      var now := Turn();
      seen := table.rows;
      completed := StoreAnswer(id, attempt, token, answer, now);
      RowsAdvanceTransitive(old(table.rows), seen, table.rows);
    }

    method StoreAnswer(id: DeliveryId, attempt: nat, token: Token, answer: Answer, now: int) returns (completed: bool)
      requires Valid() && id in table.rows
      modifies table
      ensures Valid() && table.ids == old(table.ids)
      ensures completed == Transact(old(table.rows)[id], DoAnswer(attempt, token, answer, config, now)).1
      ensures table.rows == old(table.rows)[id := Step(old(table.rows)[id],
                                                       DoAnswer(attempt, token, answer, config, now))]
      ensures TotalLeft(table.ids, table.rows) <= old(TotalLeft(table.ids, table.rows))
              && RowsAdvance(old(table.rows), table.rows)
      ensures completed && answer.Response? ==> 100 <= answer.status <= 599
    {
      ghost var rows, op := table.rows, DoAnswer(attempt, token, answer, config, now);
      AnyStepOfTable(table.ids, rows, id, op);
      RequestsAreAccepted(config, attempt, answer);
      if answer.Response? && !(100 <= answer.status <= 599) {
        assert DeliveryOk(rows[id]);
        RefusedAnswerChangesNothing(rows[id], attempt, token, answer.status, config, now);
      }
      completed := table.CompleteAttempt(id, token, RequestFor(config, attempt, answer), now);
      PostsStay(posts, rows, table.rows);
    }

    /**
     * The inner loop of Run, whatever others do between its transactions. It ends after at most
     * as many rounds as all deliveries have steps left: at a refused answer, or with nothing
     * left for this worker to do among the rows that others did not hold locked.
     */
    method Drain() returns (rounds: nat, failed: bool, ghost recovering: Rows, ghost exhausting: Rows)
      requires Valid()
      modifies this`turns, this`posts, table
      ensures Valid() && table.ids == old(table.ids) && RowsAdvance(old(table.rows), table.rows)
      ensures rounds + TotalLeft(table.ids, table.rows) <= old(TotalLeft(table.ids, table.rows))
      ensures !failed ==> turns >= 3 && Idle(recovering, exhausting, table.rows, turns - 3)
    {
      rounds, failed := 0, false;
      recovering, exhausting := table.rows, table.rows;
      RowsStill(table.rows);
      var worked := true;
      while worked && !failed
        invariant Valid() && table.ids == old(table.ids) && RowsAdvance(old(table.rows), table.rows)
        invariant rounds + TotalLeft(table.ids, table.rows) <= old(TotalLeft(table.ids, table.rows))
        invariant !worked ==> !failed && turns >= 3 && Idle(recovering, exhausting, table.rows, turns - 3)
        decreases worked, TotalLeft(table.ids, table.rows)
      {
        ghost var before := table.rows;
        ghost var act, at;
        worked, failed, recovering, exhausting, act, at := RunNext();
        RowsAdvanceTransitive(old(table.rows), before, table.rows);
        if worked {
          rounds := rounds + 1;
        }
      }
    }
  }

  /** A transaction of this worker that took effect after others had acted. */
  lemma TookEffect(ids: seq<DeliveryId>, origin: Rows, rows: Rows, rows': Rows, id: DeliveryId, op: Op,
                   posts: seq<(DeliveryId, nat)>)
    requires DeliveriesOk(rows) && Distinct(ids) && id in ids && id in rows && RowsAdvance(origin, rows)
    requires id in rows' && Transact(rows[id], op) == (rows'[id], true) && rows' == rows[id := rows'[id]]
    requires PostsOpened(posts, rows)
    ensures DeliveriesOk(rows') && TotalLeft(ids, rows') < TotalLeft(ids, rows)
    ensures RowsAdvance(origin, rows') && PostsOpened(posts, rows')
  {
    StepOfTable(ids, rows, rows', id, op);
    AnyStepOfTable(ids, rows, id, op);
    RowsAdvanceTransitive(origin, rows, rows');
    PostsStay(posts, rows, rows');
  }

  lemma SendingHasAttempt(rows: Rows)
    requires DeliveriesOk(rows)
    ensures forall id :: id in rows && rows[id].status.Sending? ==> rows[id].attemptCount >= 1
  {
    forall id | id in rows && rows[id].status.Sending?
      ensures rows[id].attemptCount >= 1
    {
      assert DeliveryOk(rows[id]);
    }
  }

  /** A configuration New accepts is one the repository accepts. */
  lemma ScheduleIsValid(c: Config)
    requires ValidConfig(c)
    ensures ValidSchedule(c.maxAttempts, c.schedule)
  {
  }
}
