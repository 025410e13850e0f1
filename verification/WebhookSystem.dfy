/** All deliveries and all Webhook workers: at most one POST per Attempt, and at most five per delivery. */
module WebhookSystem {
  import opened Prelude
  import opened WebhookDelivery

  type WorkerId = nat

  datatype Local =
    | Idle
    | Holding(id: DeliveryId, attempt: nat, token: Token, config: Config)
    | Answered(id: DeliveryId, attempt: nat, token: Token, config: Config, answer: Answer)

  datatype Sys = Sys(deliveries: map<DeliveryId, Delivery>, workers: map<WorkerId, Local>,
                     posts: seq<(DeliveryId, nat)>)

  /** Each worker may run under its own configuration, and restart under another. */
  datatype Action =
    | Create(id: DeliveryId, event: nat, now: int)
    | Replay(id: DeliveryId, origin: DeliveryId, configured: bool, now: int)
    | Claim(w: WorkerId, id: DeliveryId, token: Token, config: Config, now: int)
    | Attend(w: WorkerId, answer: Answer)
    | Store(w: WorkerId, now: int)
    | Maintain(id: DeliveryId, op: Op)
    | Crash(w: WorkerId)

  function LocalOf(s: Sys, w: WorkerId): Local
  {
    if w in s.workers then s.workers[w] else Idle
  }

  /** Whether the answer means that the request left the worker. */
  predicate WasPosted(answer: Answer)
  {
    answer.Response? || answer.TransportError?
  }

  /** A dead delivery's Event may be sent again as a delivery of its own. */
  predicate Replayable(s: Sys, origin: DeliveryId, id: DeliveryId)
  {
    origin in s.deliveries && s.deliveries[origin].status.Dead? && id != origin
  }

  function Stepped(s: Sys, id: DeliveryId, op: Op): map<DeliveryId, Delivery>
  {
    if id in s.deliveries then s.deliveries[id := Step(s.deliveries[id], op)] else s.deliveries
  }

  function Apply(s: Sys, a: Action): Sys
  {
    match a
    case Create(id, event, now) =>
      if id in s.deliveries then s else s.(deliveries := s.deliveries[id := NewDelivery(event, None, now)])
    case Replay(id, origin, configured, now) =>
      if id in s.deliveries || !Replayable(s, origin, id) || !configured then s
      else s.(deliveries := s.deliveries[id := NewDelivery(s.deliveries[origin].event, Some(origin), now)])
    case Claim(w, id, token, config, now) =>
      if !LocalOf(s, w).Idle? || id !in s.deliveries || !Transact(s.deliveries[id], DoClaim(token, config, now)).1 then
        s
      else
        var held := Holding(id, |s.deliveries[id].attempts|, token, config);
        s.(deliveries := Stepped(s, id, DoClaim(token, config, now)), workers := s.workers[w := held])
    case Attend(w, answer) => (
      match LocalOf(s, w)
      case Holding(id, attempt, token, config) =>
        s.(workers := s.workers[w := Answered(id, attempt, token, config, answer)],
           posts := if WasPosted(answer) then s.posts + [(id, attempt)] else s.posts)
      case _ => s)
    case Store(w, now) => (
      match LocalOf(s, w)
      case Answered(id, attempt, token, config, answer) =>
        s.(deliveries := Stepped(s, id, DoAnswer(attempt, token, answer, config, now)), workers := s.workers[w := Idle])
      case _ => s)
    case Maintain(id, op) =>
      if op.DoRecover? || op.DoExhaust? then s.(deliveries := Stepped(s, id, op)) else s
    case Crash(w) => s.(workers := s.workers[w := Idle])
  }

  function Execute(actions: seq<Action>): Sys
    decreases |actions|
  {
    if actions == [] then Sys(map[], map[], [])
    else Apply(Execute(actions[..|actions| - 1]), actions[|actions| - 1])
  }

  // ---------------------------------------------------------------- the invariant

  ghost predicate DeliveriesOk(deliveries: map<DeliveryId, Delivery>)
  {
    forall id {:trigger DeliveryOk(deliveries[id])} :: id in deliveries ==> DeliveryOk(deliveries[id])
  }

  ghost predicate AllAdvance(s: Sys, s': Sys)
  {
    && (forall id :: id in s.deliveries ==> id in s'.deliveries)
    && (forall id {:trigger Advances(s.deliveries[id], s'.deliveries[id])} ::
          id in s.deliveries ==> Advances(s.deliveries[id], s'.deliveries[id]))
  }

  /** A replay repeats the Event of a delivery that is dead for good. */
  ghost predicate OriginsOk(deliveries: map<DeliveryId, Delivery>)
  {
    forall id :: id in deliveries && deliveries[id].origin.Some? ==>
      var origin := deliveries[id].origin.value;
      origin in deliveries && deliveries[origin].status.Dead? && deliveries[origin].event == deliveries[id].event
  }

  predicate Opened(s: Sys, id: DeliveryId, attempt: nat)
  {
    id in s.deliveries && attempt < |s.deliveries[id].attempts|
  }

  predicate HoldsAttempt(s: Sys, w: WorkerId, id: DeliveryId, attempt: nat)
  {
    LocalOf(s, w).Holding? && LocalOf(s, w).id == id && LocalOf(s, w).attempt == attempt
  }

  /** One right to POST per opened Attempt: held by one worker, or spent in `posts`. */
  ghost predicate PostsOk(s: Sys)
  {
    && (forall w :: LocalOf(s, w).Holding? ==>
          Opened(s, LocalOf(s, w).id, LocalOf(s, w).attempt) && (LocalOf(s, w).id, LocalOf(s, w).attempt) !in s.posts)
    && (forall v, w :: LocalOf(s, v).Holding? && HoldsAttempt(s, w, LocalOf(s, v).id, LocalOf(s, v).attempt) ==> v == w)
    && (forall post :: post in s.posts ==> Opened(s, post.0, post.1))
    && Distinct(s.posts)
  }

  ghost predicate SysOk(s: Sys)
  {
    DeliveriesOk(s.deliveries) && OriginsOk(s.deliveries) && PostsOk(s)
  }

  lemma Unchanged(d: Delivery)
    ensures Advances(d, d)
  {
  }

  lemma SteppedOk(s: Sys, s': Sys, id: DeliveryId, op: Op)
    requires DeliveriesOk(s.deliveries) && s'.deliveries == Stepped(s, id, op)
    ensures DeliveriesOk(s'.deliveries) && AllAdvance(s, s')
  {
    forall other | other in s.deliveries
      ensures DeliveryOk(s'.deliveries[other]) && Advances(s.deliveries[other], s'.deliveries[other])
    {
      assert DeliveryOk(s.deliveries[other]);
      Unchanged(s.deliveries[other]);
      if other == id {
        StepKeepsOk(s.deliveries[id], op);
        StepAdvances(s.deliveries[id], op);
      }
    }
  }

  lemma InsertedOk(s: Sys, s': Sys, id: DeliveryId, event: nat, origin: Option<DeliveryId>, now: int)
    requires DeliveriesOk(s.deliveries) && id !in s.deliveries
    requires s'.deliveries == s.deliveries[id := NewDelivery(event, origin, now)]
    ensures DeliveriesOk(s'.deliveries) && AllAdvance(s, s')
  {
    NewDeliveryOk(event, origin, now);
    forall other | other in s.deliveries
      ensures DeliveryOk(s'.deliveries[other]) && Advances(s.deliveries[other], s'.deliveries[other])
    {
      assert DeliveryOk(s.deliveries[other]);
      Unchanged(s.deliveries[other]);
    }
  }

  lemma SameOk(s: Sys, s': Sys)
    requires DeliveriesOk(s.deliveries) && s'.deliveries == s.deliveries
    ensures DeliveriesOk(s'.deliveries) && AllAdvance(s, s')
  {
    forall id | id in s.deliveries
      ensures Advances(s.deliveries[id], s'.deliveries[id])
    {
      Unchanged(s.deliveries[id]);
    }
  }

  lemma ApplyDeliveries(s: Sys, a: Action)
    requires DeliveriesOk(s.deliveries)
    ensures DeliveriesOk(Apply(s, a).deliveries) && AllAdvance(s, Apply(s, a))
  {
    var s' := Apply(s, a);
    if s'.deliveries == s.deliveries {
      SameOk(s, s');
    } else {
      match a
      case Create(id, event, now) => InsertedOk(s, s', id, event, None, now);
      case Replay(id, origin, _, now) => InsertedOk(s, s', id, s.deliveries[origin].event, Some(origin), now);
      case Claim(_, id, token, config, now) => SteppedOk(s, s', id, DoClaim(token, config, now));
      case Store(w, now) =>
        var l := LocalOf(s, w);
        SteppedOk(s, s', l.id, DoAnswer(l.attempt, l.token, l.answer, l.config, now));
      case Maintain(id, op) => SteppedOk(s, s', id, op);
    }
  }

  lemma ApplyOrigins(s: Sys, a: Action)
    requires DeliveriesOk(s.deliveries) && OriginsOk(s.deliveries) && AllAdvance(s, Apply(s, a))
    ensures OriginsOk(Apply(s, a).deliveries)
  {
    var s' := Apply(s, a);
    forall id | id in s'.deliveries && s'.deliveries[id].origin.Some?
      ensures var origin := s'.deliveries[id].origin.value;
              && origin in s'.deliveries && s'.deliveries[origin].status.Dead?
              && s'.deliveries[origin].event == s'.deliveries[id].event
    {
      if id in s.deliveries {
        assert Advances(s.deliveries[id], s'.deliveries[id]);
      }
      var origin := s'.deliveries[id].origin.value;
      assert Advances(s.deliveries[origin], s'.deliveries[origin]);
    }
  }

  /** What one action does to the rights to POST. */
  ghost predicate PostStep(s: Sys, s': Sys, actor: WorkerId)
  {
    && (forall id, i: nat :: Opened(s, id, i) ==> Opened(s', id, i))
    && (forall w :: LocalOf(s', w).Holding? ==>
          || LocalOf(s', w) == LocalOf(s, w)
          || (w == actor && !Opened(s, LocalOf(s', w).id, LocalOf(s', w).attempt)
              && Opened(s', LocalOf(s', w).id, LocalOf(s', w).attempt)))
    && (s'.posts == s.posts
        || (LocalOf(s, actor).Holding? && !LocalOf(s', actor).Holding?
            && s'.posts == s.posts + [(LocalOf(s, actor).id, LocalOf(s, actor).attempt)]))
  }

  lemma ApplyIsPostStep(s: Sys, a: Action)
    requires AllAdvance(s, Apply(s, a))
    ensures exists actor :: PostStep(s, Apply(s, a), actor)
  {
    var s' := Apply(s, a);
    var actor := match a case Claim(w, _, _, _, _) => w case Attend(w, _) => w case Store(w, _) => w case Crash(w) =>
      w case _ => 0;
    forall id, i: nat | Opened(s, id, i)
      ensures Opened(s', id, i)
    {
      assert Advances(s.deliveries[id], s'.deliveries[id]);
    }
    assert PostStep(s, s', actor);
  }

  lemma PostStepKeeps(s: Sys, s': Sys, actor: WorkerId)
    requires PostsOk(s) && PostStep(s, s', actor)
    ensures PostsOk(s')
  {
    forall w | LocalOf(s', w).Holding?
      ensures var l := LocalOf(s', w); Opened(s', l.id, l.attempt) && (l.id, l.attempt) !in s'.posts
    {
      if LocalOf(s', w) == LocalOf(s, w) && s'.posts != s.posts {
        assert HoldsAttempt(s, w, LocalOf(s, w).id, LocalOf(s, w).attempt);
        assert HoldsAttempt(s, actor, LocalOf(s, actor).id, LocalOf(s, actor).attempt);
      }
    }
    forall v, w | LocalOf(s', v).Holding? && HoldsAttempt(s', w, LocalOf(s', v).id, LocalOf(s', v).attempt)
      ensures v == w
    {
      if LocalOf(s', v) == LocalOf(s, v) && LocalOf(s', w) == LocalOf(s, w) {
        assert HoldsAttempt(s, w, LocalOf(s, v).id, LocalOf(s, v).attempt);
      }
    }
  }

  lemma {:induction false} ExecuteKeepsSysOk(actions: seq<Action>)
    ensures SysOk(Execute(actions))
    decreases |actions|
  {
    if actions == [] {
    } else {
      var before, a := Execute(actions[..|actions| - 1]), actions[|actions| - 1];
      ExecuteKeepsSysOk(actions[..|actions| - 1]);
      ApplyDeliveries(before, a);
      ApplyOrigins(before, a);
      ApplyIsPostStep(before, a);
      var actor :| PostStep(before, Apply(before, a), actor);
      PostStepKeeps(before, Apply(before, a), actor);
    }
  }

  /**
   * In every run of any workers under any configurations: no Attempt is POSTed twice, every
   * POST belongs to one of at most five Attempts of its delivery, and every delivery and every
   * replay keeps its invariant.
   */
  lemma AtMostOnePostPerAttempt(actions: seq<Action>)
    ensures var s := Execute(actions);
            && Distinct(s.posts)
            && (forall post :: post in s.posts ==>
                  post.0 in s.deliveries && post.1 < s.deliveries[post.0].attemptCount <= ATTEMPT_LIMIT)
            && DeliveriesOk(s.deliveries) && OriginsOk(s.deliveries)
  {
    ExecuteKeepsSysOk(actions);
    var s := Execute(actions);
    forall post | post in s.posts
      ensures post.0 in s.deliveries && post.1 < s.deliveries[post.0].attemptCount <= ATTEMPT_LIMIT
    {
      assert Opened(s, post.0, post.1) && DeliveryOk(s.deliveries[post.0]);
    }
  }

  /** The POSTs made for one delivery. */
  function PostsFor(posts: seq<(DeliveryId, nat)>, id: DeliveryId): set<nat>
  {
    set i | 0 <= i < |posts| && posts[i].0 == id :: posts[i].1
  }

  function CountFor(posts: seq<(DeliveryId, nat)>, id: DeliveryId): nat
  {
    if posts == [] then 0
    else CountFor(posts[..|posts| - 1], id) + if posts[|posts| - 1].0 == id then 1 else 0
  }

  lemma {:induction false} DistinctPostsCount(posts: seq<(DeliveryId, nat)>, id: DeliveryId)
    requires Distinct(posts)
    ensures CountFor(posts, id) == |PostsFor(posts, id)|
  {
    if posts == [] {
      assert PostsFor(posts, id) == {};
    } else {
      var init, last := posts[..|posts| - 1], posts[|posts| - 1];
      DistinctPostsCount(init, id);
      if last.0 == id {
        assert last.1 !in PostsFor(init, id);
        assert PostsFor(posts, id) == PostsFor(init, id) + {last.1};
      } else {
        assert PostsFor(posts, id) == PostsFor(init, id);
      }
    }
  }

  /** However often workers crash, restart or are reconfigured, one delivery is POSTed at most five times. */
  lemma AtMostFivePosts(actions: seq<Action>, id: DeliveryId)
    ensures CountFor(Execute(actions).posts, id) <= 5
  {
    AtMostOnePostPerAttempt(actions);
    var posts := Execute(actions).posts;
    DistinctPostsCount(posts, id);
    PostsForIsSmall(posts, id);
  }

  lemma PostsForIsSmall(posts: seq<(DeliveryId, nat)>, id: DeliveryId)
    requires forall post :: post in posts ==> post.1 < ATTEMPT_LIMIT
    ensures |PostsFor(posts, id)| <= ATTEMPT_LIMIT
  {
    var all: set<nat> := {0, 1, 2, 3, 4};
    forall n | n in PostsFor(posts, id)
      ensures n in all
    {
      assert (id, n) in posts;
    }
    SubsetSize(PostsFor(posts, id), all);
  }

  lemma {:induction false} SubsetSize(a: set<nat>, b: set<nat>)
    requires a <= b
    ensures |a| <= |b|
  {
    if a == {} {
    } else {
      var x :| x in a;
      SubsetSize(a - {x}, b - {x});
    }
  }

  // ---------------------------------------------------------- what one round comes to

  /** Only the two failures found before the request is sent leave no trace at the endpoint. */
  lemma PostedUnlessFoundBefore(answer: Answer)
    ensures WasPosted(answer) <==> answer != SecretUnavailable && answer != InvalidTarget
  {
  }

  /** A worker alone that claims a delivery, asks the endpoint and stores the answer does just that. */
  lemma OneRound(s: Sys, w: WorkerId, id: DeliveryId, token: Token, config: Config, answer: Answer, now: int,
                 later: int)
    requires LocalOf(s, w) == Idle && id in s.deliveries && Transact(s.deliveries[id], DoClaim(token, config, now)).1
    ensures var d := s.deliveries[id];
            var s' := Apply(Apply(Apply(s, Claim(w, id, token, config, now)), Attend(w, answer)), Store(w, later));
            var claimed := Step(d, DoClaim(token, config, now));
            && s'.deliveries == s.deliveries[id := Step(claimed, DoAnswer(|d.attempts|, token, answer, config, later))]
            && s'.posts == (if answer.Response? || answer.TransportError? then s.posts + [(id, |d.attempts|)]
                            else s.posts)
            && LocalOf(s', w) == Idle
  {
    var s1 := Apply(s, Claim(w, id, token, config, now));
    assert s1.deliveries[id] == Step(s.deliveries[id], DoClaim(token, config, now));
    var s2 := Apply(s1, Attend(w, answer));
    assert LocalOf(s2, w) == Answered(id, |s.deliveries[id].attempts|, token, config, answer);
  }

  /** Recovery and the exhausted budget act on any delivery; a dead one is replayed as a new delivery of its Event. */
  lemma OthersAct(s: Sys, id: DeliveryId, config: Config, now: int, replay: DeliveryId)
    requires id in s.deliveries
    ensures Apply(s, Maintain(id, DoRecover(config, now))).deliveries
            == s.deliveries[id := Step(s.deliveries[id], DoRecover(config, now))]
    ensures Apply(s, Maintain(id, DoExhaust(config, now))).deliveries
            == s.deliveries[id := Step(s.deliveries[id], DoExhaust(config, now))]
    ensures s.deliveries[id].status == Dead && replay !in s.deliveries ==>
              Apply(s, Replay(replay, id, true, now)).deliveries
              == s.deliveries[replay := Delivery(s.deliveries[id].event, Some(id), Pending, 0, Some(now), None, None,
                                                 None,
                                                 now, now, [])]
  {
  }
}
