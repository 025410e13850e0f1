/**
 * Registrations and frame writes of many goroutines, interleaved at every lock and every
 * single write of the connection: WriteUnique holds its identity's read lock and the session's
 * write lock while it loops, Register and Unregister need the identity's write lock.
 */
module OmniInterleaving {
  import opened OmniSession

  type Thread = nat

  /** Where a WriteUnique call stands. */
  datatype Call =
    | Idle
    | Reading(session: Session, frame: string)                 // holds the read lock, waits for the write lock
    | Writing(session: Session, frame: string, written: nat)   // holds both

  /** What one finished call put on its session's wire. */
  datatype Done = Done(frame: string, written: nat)

  datatype Sys = Sys(
    live: set<Session>,
    generations: map<Key, nat>,
    calls: Calls,
    wires: Wires,
    done: Finished)

  datatype Action =
    | Register(key: Key, device: nat, project: nat, connection: string)
    | Unregister(session: Session)
    | Enter(t: Thread, session: Session, frame: string)
    | Lock(t: Thread)
    | Write(t: Thread, reply: Reply)
    | GiveUp(t: Thread)                                        // context done, or the deadline was refused

  type Calls = map<Thread, Call>
  type Wires = map<Session, string>
  type Finished = map<Session, seq<Done>>

  function CallOf(calls: Calls, t: Thread): Call
  {
    if t in calls then calls[t] else Idle
  }

  function WireOf(wires: Wires, session: Session): string
  {
    if session in wires then wires[session] else ""
  }

  function DoneOf(done: Finished, session: Session): seq<Done>
  {
    if session in done then done[session] else []
  }

  /** The call holds the read lock of that identity. */
  predicate Reads(c: Call, key: Key)
  {
    !c.Idle? && c.session.key == key
  }

  ghost predicate Unread(calls: Calls, key: Key)
  {
    forall t :: !Reads(CallOf(calls, t), key)
  }

  ghost predicate Alone(live: set<Session>, session: Session)
  {
    session in live && forall other :: other in live && other.key == session.key ==> other == session
  }

  predicate Writes(c: Call, session: Session)
  {
    c.Writing? && c.session == session
  }

  ghost predicate Unlocked(calls: Calls, session: Session)
  {
    forall t :: !Writes(CallOf(calls, t), session)
  }

  /** A finished call releases both locks and leaves its count behind. */
  function Finish(s: Sys, t: Thread, session: Session, frame: string, written: nat): Sys
  {
    s.(calls := s.calls[t := Idle], done := s.done[session := DoneOf(s.done, session) + [Done(frame, written)]])
  }

  function WriteOnce(s: Sys, t: Thread, session: Session, frame: string, written: nat, reply: Reply): Sys
  {
    if written >= |frame| || reply.count < 0 || reply.count > |frame| - written then
      Finish(s, t, session, frame, written)
    else
      var n := written + reply.count;
      var s1 := s.(wires := s.wires[session := WireOf(s.wires, session) + frame[written..n]]);
      if n == |frame| || reply.failed || reply.count == 0 then Finish(s1, t, session, frame, n)
      else s1.(calls := s1.calls[t := Writing(session, frame, n)])
  }

  /** A step that would block leaves everything as it is. */
  ghost function Apply(s: Sys, a: Action): Sys
  {
    match a
    case Register(key, device, project, connection) =>
      if !Unread(s.calls, key) then s
      else
        var generation := (if key in s.generations then s.generations[key] else 0) + 1;
        s.(live := s.live + {Session(key, device, project, connection, generation)},
           generations := s.generations[key := generation])
    case Unregister(session) =>
      if !Unread(s.calls, session.key) then s else s.(live := s.live - {session})
    case Enter(t, session, frame) =>
      if !CallOf(s.calls, t).Idle? || frame == "" || !Alone(s.live, session) then s
      else s.(calls := s.calls[t := Reading(session, frame)])
    case Lock(t) =>
      var c := CallOf(s.calls, t);
      if !c.Reading? || !Unlocked(s.calls, c.session) then
        s else s.(calls := s.calls[t := Writing(c.session, c.frame, 0)])
    case Write(t, reply) =>
      var c := CallOf(s.calls, t);
      if !c.Writing? then s else WriteOnce(s, t, c.session, c.frame, c.written, reply)
    case GiveUp(t) =>
      var c := CallOf(s.calls, t);
      if !c.Writing? then s else Finish(s, t, c.session, c.frame, c.written)
  }

  ghost function Execute(actions: seq<Action>): Sys
    decreases |actions|
  {
    if actions == [] then Sys({}, map[], map[], map[], map[])
    else Apply(Execute(actions[..|actions| - 1]), actions[|actions| - 1])
  }

  // ---------------------------------------------------------------- the invariant

  /** The finished calls' prefixes, one after the other. */
  function Flatten(done: seq<Done>): string
  {
    if done == [] then ""
    else
      var last := done[|done| - 1];
      Flatten(done[..|done| - 1]) + last.frame[..Clip(last)]
  }

  function Clip(d: Done): (n: nat)
    ensures n <= |d.frame|
  {
    if d.written <= |d.frame| then d.written else |d.frame|
  }

  ghost predicate GenerationsOk(live: set<Session>, generations: map<Key, nat>)
  {
    forall session :: session in live ==> session.key in generations && session.generation <= generations[session.key]
  }

  /** Whoever holds a read lock writes, or will write, to the sole live session of its identity. */
  ghost predicate ReadersOk(live: set<Session>, calls: Calls)
  {
    forall t, session :: Holds(CallOf(calls, t), session) ==> Alone(live, session)
  }

  predicate Holds(c: Call, session: Session)
  {
    !c.Idle? && c.session == session
  }

  ghost predicate WritersOk(calls: Calls)
  {
    forall t, u, session :: Writes(CallOf(calls, t), session) && Writes(CallOf(calls, u), session) ==> t == u
  }

  /** A session's wire holds the finished prefixes and, while a call writes it, that call's prefix so far. */
  ghost predicate WireOk(calls: Calls, wires: Wires, done: Finished, session: Session)
  {
    && (Unlocked(calls, session) ==> WireOf(wires, session) == Flatten(DoneOf(done, session)))
    && (forall t :: Writes(CallOf(calls, t), session) ==>
          && CallOf(calls, t).written < |CallOf(calls, t).frame|
          && WireOf(wires, session) == Flatten(DoneOf(done, session))
               + CallOf(calls, t).frame[..CallOf(calls, t).written])
  }

  ghost predicate FramesOk(calls: Calls)
  {
    forall t :: CallOf(calls, t).Reading? ==> CallOf(calls, t).frame != ""
  }

  ghost predicate SysOk(s: Sys)
  {
    && GenerationsOk(s.live, s.generations)
    && ReadersOk(s.live, s.calls)
    && WritersOk(s.calls)
    && FramesOk(s.calls)
    && forall session :: WireOk(s.calls, s.wires, s.done, session)
  }

  lemma FlattenAppend(done: seq<Done>, d: Done)
    requires d.written <= |d.frame|
    ensures Flatten(done + [d]) == Flatten(done) + d.frame[..d.written]
  {
    assert (done + [d])[..|done|] == done;
  }

  /** A change to one thread's call does not concern the sessions it neither wrote nor writes. */
  lemma OtherWireOk(calls: Calls, wires: Wires, done: Finished, calls': Calls, wires': Wires, done': Finished,
                    t: Thread, session: Session)
    requires WireOk(calls, wires, done, session)
    requires forall u :: u != t ==> CallOf(calls', u) == CallOf(calls, u)
    requires !Writes(CallOf(calls, t), session) && !Writes(CallOf(calls', t), session)
    requires WireOf(wires', session) == WireOf(wires, session) && DoneOf(done', session) == DoneOf(done, session)
    ensures WireOk(calls', wires', done', session)
  {
    if Unlocked(calls', session) {
      forall u
        ensures !Writes(CallOf(calls, u), session)
      {
        assert u != t ==> !Writes(CallOf(calls', u), session);
      }
    }
    forall u | Writes(CallOf(calls', u), session)
      ensures CallOf(calls', u) == CallOf(calls, u)
    {
    }
  }

  lemma WriterWireOk(s: Sys, s': Sys, t: Thread, n: nat, over: bool)
    requires CallOf(s.calls, t).Writing?
    requires var c := CallOf(s.calls, t);
             && n <= |c.frame| && (!over ==> n < |c.frame|)
             && s'.calls == s.calls[t := if over then Idle else Writing(c.session, c.frame, n)]
             && WireOf(s'.wires, c.session) == Flatten(DoneOf(s.done, c.session)) + c.frame[..n]
             && s'.done == (if over then s.done[c.session := DoneOf(s.done, c.session) + [Done(c.frame, n)]]
                            else s.done)
             && forall u :: u != t ==> !Writes(CallOf(s.calls, u), c.session)
    ensures WireOk(s'.calls, s'.wires, s'.done, CallOf(s.calls, t).session)
  {
    var c := CallOf(s.calls, t);
    forall u | u != t
      ensures CallOf(s'.calls, u) == CallOf(s.calls, u)
    {
    }
    if over {
      FlattenAppend(DoneOf(s.done, c.session), Done(c.frame, n));
    } else {
      assert Writes(CallOf(s'.calls, t), c.session);
    }
  }

  /** The writer `t` moved on to `n` bytes: still writing, or finished if `over`. */
  lemma WriterKeeps(s: Sys, s': Sys, t: Thread, n: nat, over: bool)
    requires SysOk(s) && CallOf(s.calls, t).Writing?
    requires var c := CallOf(s.calls, t);
             && c.written <= n <= |c.frame| && (!over ==> n < |c.frame|)
             && s'.live == s.live && s'.generations == s.generations
             && s'.calls == s.calls[t := if over then Idle else Writing(c.session, c.frame, n)]
             && WireOf(s'.wires, c.session) == WireOf(s.wires, c.session) + c.frame[c.written..n]
             && (forall other :: other != c.session ==> WireOf(s'.wires, other) == WireOf(s.wires, other))
             && s'.done == if over then s.done[c.session := DoneOf(s.done, c.session) + [Done(c.frame, n)]] else s.done
    ensures SysOk(s')
  {
    var c := CallOf(s.calls, t);
    var session := c.session;
    assert Writes(c, session) && Holds(c, session);
    assert WireOk(s.calls, s.wires, s.done, session);
    assert c.frame[..n] == c.frame[..c.written] + c.frame[c.written..n];
    forall u | u != t
      ensures CallOf(s'.calls, u) == CallOf(s.calls, u) && !Writes(CallOf(s.calls, u), session)
    {
    }
    forall other | other != session
      ensures WireOk(s'.calls, s'.wires, s'.done, other)
    {
      assert WireOk(s.calls, s.wires, s.done, other);
      OtherWireOk(s.calls, s.wires, s.done, s'.calls, s'.wires, s'.done, t, other);
    }
    WriterWireOk(s, s', t, n, over);
    MovedCallKeepsLocks(s.live, s.calls, s'.calls, t, session);
  }

  lemma MovedCallKeepsLocks(live: set<Session>, calls: Calls, calls': Calls, t: Thread, session: Session)
    requires ReadersOk(live, calls) && WritersOk(calls) && FramesOk(calls)
    requires Holds(CallOf(calls, t), session)
    requires forall u :: u != t ==> CallOf(calls', u) == CallOf(calls, u) && !Writes(CallOf(calls, u), session)
    requires CallOf(calls', t).Idle? || Writes(CallOf(calls', t), session)
    ensures ReadersOk(live, calls') && WritersOk(calls') && FramesOk(calls')
  {
    forall u, held | Holds(CallOf(calls', u), held)
      ensures Alone(live, held)
    {
      if u == t {
        assert Holds(CallOf(calls, t), held);
      } else {
        assert Holds(CallOf(calls, u), held);
      }
    }
    forall u, v, held | Writes(CallOf(calls', u), held) && Writes(CallOf(calls', v), held)
      ensures u == v
    {
      assert u != t && v != t ==> Writes(CallOf(calls, u), held) && Writes(CallOf(calls, v), held);
    }
  }

  lemma WriteKeeps(s: Sys, t: Thread, reply: Reply)
    requires SysOk(s)
    ensures SysOk(Apply(s, Write(t, reply)))
  {
    var c := CallOf(s.calls, t);
    if c.Writing? {
      assert WireOk(s.calls, s.wires, s.done, c.session) && Writes(c, c.session);
      var s' := Apply(s, Write(t, reply));
      if reply.count < 0 || reply.count > |c.frame| - c.written {
        assert WireOf(s.wires, c.session) + c.frame[c.written..c.written] == WireOf(s.wires, c.session);
        WriterKeeps(s, s', t, c.written, true);
      } else {
        var n := c.written + reply.count;
        WriterKeeps(s, s', t, n, n == |c.frame| || reply.failed || reply.count == 0);
      }
    }
  }

  lemma GiveUpKeeps(s: Sys, t: Thread)
    requires SysOk(s)
    ensures SysOk(Apply(s, GiveUp(t)))
  {
    var c := CallOf(s.calls, t);
    if c.Writing? {
      assert WireOk(s.calls, s.wires, s.done, c.session) && Writes(c, c.session);
      assert WireOf(s.wires, c.session) + c.frame[c.written..c.written] == WireOf(s.wires, c.session);
      WriterKeeps(s, Apply(s, GiveUp(t)), t, c.written, true);
    }
  }

  lemma LockKeeps(s: Sys, t: Thread)
    requires SysOk(s)
    ensures SysOk(Apply(s, Lock(t)))
  {
    var c := CallOf(s.calls, t);
    if c.Reading? && Unlocked(s.calls, c.session) {
      var s' := Apply(s, Lock(t));
      assert Holds(c, c.session);
      forall u | u != t
        ensures CallOf(s'.calls, u) == CallOf(s.calls, u) && !Writes(CallOf(s.calls, u), c.session)
      {
      }
      MovedCallKeepsLocks(s.live, s.calls, s'.calls, t, c.session);
      assert c.frame[..0] == "";
      forall other
        ensures WireOk(s'.calls, s'.wires, s'.done, other)
      {
        assert WireOk(s.calls, s.wires, s.done, other);
        if other != c.session {
          OtherWireOk(s.calls, s.wires, s.done, s'.calls, s'.wires, s'.done, t, other);
        } else {
          assert Writes(CallOf(s'.calls, t), other);
        }
      }
    }
  }

  lemma RegistryKeeps(s: Sys, a: Action)
    requires SysOk(s) && (a.Register? || a.Unregister?)
    ensures SysOk(Apply(s, a))
  {
    var s' := Apply(s, a);
    var key := if a.Register? then a.key else a.session.key;
    if Unread(s.calls, key) {
      forall t, session | Holds(CallOf(s.calls, t), session)
        ensures Alone(s'.live, session)
      {
        assert Alone(s.live, session);
        assert !Reads(CallOf(s.calls, t), key);
      }
    }
  }

  lemma EnterKeeps(s: Sys, t: Thread, session: Session, frame: string)
    requires SysOk(s)
    ensures SysOk(Apply(s, Enter(t, session, frame)))
  {
    var s' := Apply(s, Enter(t, session, frame));
    if s'.calls != s.calls {
      forall u | u != t
        ensures CallOf(s'.calls, u) == CallOf(s.calls, u)
      {
      }
      forall u, held | Holds(CallOf(s'.calls, u), held)
        ensures Alone(s.live, held)
      {
        assert u != t ==> Holds(CallOf(s.calls, u), held);
      }
      forall u, v, held | Writes(CallOf(s'.calls, u), held) && Writes(CallOf(s'.calls, v), held)
        ensures u == v
      {
        assert Writes(CallOf(s.calls, u), held) && Writes(CallOf(s.calls, v), held);
      }
      forall other
        ensures WireOk(s'.calls, s'.wires, s'.done, other)
      {
        assert WireOk(s.calls, s.wires, s.done, other);
        OtherWireOk(s.calls, s.wires, s.done, s'.calls, s'.wires, s'.done, t, other);
      }
    }
  }

  lemma ApplyKeeps(s: Sys, a: Action)
    requires SysOk(s)
    ensures SysOk(Apply(s, a))
  {
    match a
    case Enter(t, session, frame) => EnterKeeps(s, t, session, frame);
    case Lock(t) => LockKeeps(s, t);
    case Write(t, reply) => WriteKeeps(s, t, reply);
    case GiveUp(t) => GiveUpKeeps(s, t);
    case _ => RegistryKeeps(s, a);
  }

  lemma {:induction false} ExecuteKeepsSysOk(actions: seq<Action>)
    ensures SysOk(Execute(actions))
    decreases |actions|
  {
    if actions == [] {
    } else {
      ExecuteKeepsSysOk(actions[..|actions| - 1]);
      ApplyKeeps(Execute(actions[..|actions| - 1]), actions[|actions| - 1]);
    }
  }

  // ------------------------------------------------------------------ theorems

  lemma WriteOnceGrows(s: Sys, t: Thread, session: Session, frame: string, written: nat, reply: Reply, target: Session)
    requires WireOf(WriteOnce(s, t, session, frame, written, reply).wires, target) != WireOf(s.wires, target)
    ensures target == session && written < written + reply.count <= |frame|
    ensures WireOf(WriteOnce(s, t, session, frame, written, reply).wires, target)
            == WireOf(s.wires, target) + frame[written..written + reply.count]
    ensures WriteOnce(s, t, session, frame, written, reply).live == s.live
  {
  }

  lemma OnlyWritesReachWires(s: Sys, a: Action, session: Session)
    requires WireOf(Apply(s, a).wires, session) != WireOf(s.wires, session)
    ensures a.Write? && Writes(CallOf(s.calls, a.t), session) && Apply(s, a).live == s.live
    ensures var c := CallOf(s.calls, a.t);
            && c.written < c.written + a.reply.count <= |c.frame|
            && WireOf(Apply(s, a).wires, session) == WireOf(s.wires, session)
                 + c.frame[c.written..c.written + a.reply.count]
  {
    if a.Write? && CallOf(s.calls, a.t).Writing? {
      var c := CallOf(s.calls, a.t);
      WriteOnceGrows(s, a.t, c.session, c.frame, c.written, a.reply, session);
    }
  }

  /** The call `t` put the next bytes of its one frame on the wire of the sole live session of an identity. */
  ghost predicate Extends(s: Sys, s': Sys, t: Thread, count: int, session: Session)
  {
    var c := CallOf(s.calls, t);
    && Writes(c, session) && Alone(s.live, session) && Alone(s'.live, session)
    && c.written < c.written + count <= |c.frame|
    && WireOf(s.wires, session) == Flatten(DoneOf(s.done, session)) + c.frame[..c.written]
    && WireOf(s'.wires, session) == Flatten(DoneOf(s.done, session)) + c.frame[..c.written + count]
  }

  lemma WriteExtends(s: Sys, s': Sys, a: Action, session: Session)
    requires SysOk(s) && s' == Apply(s, a) && WireOf(s'.wires, session) != WireOf(s.wires, session)
    ensures a.Write? && Extends(s, s', a.t, a.reply.count, session)
  {
    OnlyWritesReachWires(s, a, session);
    var c := CallOf(s.calls, a.t);
    assert Holds(c, session);
    assert WireOk(s.calls, s.wires, s.done, session);
    var n := c.written + a.reply.count;
    assert c.frame[..n] == c.frame[..c.written] + c.frame[c.written..n];
  }

  lemma ExecuteOneMore(actions: seq<Action>, a: Action)
    ensures Execute(actions + [a]) == Apply(Execute(actions), a)
  {
    assert (actions + [a])[..|actions|] == actions;
  }

  /**
   * In every interleaving a byte reaches a wire only while its session is the sole live one of
   * its identity, and it is the next byte of one frame on top of whole finished prefixes.
   */
  lemma BytesReachOnlyTheSoleSession(actions: seq<Action>, a: Action, session: Session)
    requires WireOf(Execute(actions + [a]).wires, session) != WireOf(Execute(actions).wires, session)
    ensures a.Write? && Extends(Execute(actions), Execute(actions + [a]), a.t, a.reply.count, session)
  {
    ExecuteOneMore(actions, a);
    ExecuteKeepsSysOk(actions);
    WriteExtends(Execute(actions), Execute(actions + [a]), a, session);
  }

  /**
   * What every finished call reports is what its wire got: in every interleaving a session's
   * wire is the counted prefixes of its finished calls, in order and not interleaved, and then
   * the prefix that the one call writing it, if any, has counted so far.
   */
  lemma WiresAreWholePrefixes(actions: seq<Action>, session: Session)
    ensures var s := Execute(actions);
            || (Unlocked(s.calls, session) && WireOf(s.wires, session) == Flatten(DoneOf(s.done, session)))
            || (exists t :: WritesLast(s, t, session))
  {
    ExecuteKeepsSysOk(actions);
    var s := Execute(actions);
    assert WireOk(s.calls, s.wires, s.done, session);
    if t :| Writes(CallOf(s.calls, t), session) {
      assert WritesLast(s, t, session);
    }
  }

  predicate WritesLast(s: Sys, t: Thread, session: Session)
  {
    var c := CallOf(s.calls, t);
    && Writes(c, session) && c.written < |c.frame|
    && WireOf(s.wires, session) == Flatten(DoneOf(s.done, session)) + c.frame[..c.written]
  }

  // ---------------------------------------------------------- what the steps come to

  /** A call that meets nobody writes its whole frame to the sole session, and leaves. */
  lemma AloneCallWritesAll(s: Sys, t: Thread, session: Session, frame: string)
    requires CallOf(s.calls, t).Idle? && frame != "" && Alone(s.live, session) && Unlocked(s.calls, session)
    ensures var s' := Apply(Apply(Apply(s, Enter(t, session, frame)), Lock(t)), Write(t, Reply(|frame|, false)));
            && WireOf(s'.wires, session) == WireOf(s.wires, session) + frame
            && DoneOf(s'.done, session) == DoneOf(s.done, session) + [Done(frame, |frame|)]
            && CallOf(s'.calls, t).Idle? && s'.live == s.live
  {
    var s1 := Apply(s, Enter(t, session, frame));
    assert CallOf(s1.calls, t) == Reading(session, frame);
    forall u
      ensures !Writes(CallOf(s1.calls, u), session)
    {
      assert u != t ==> CallOf(s1.calls, u) == CallOf(s.calls, u);
      assert !Writes(CallOf(s.calls, u), session);
    }
    var s2 := Apply(s1, Lock(t));
    assert CallOf(s2.calls, t) == Writing(session, frame, 0);
    assert frame[0..|frame|] == frame;
  }

  /** While nobody reads an identity, sessions come, under a generation never used before, and go. */
  lemma RegistrationsAct(s: Sys, key: Key, device: nat, project: nat, connection: string, leaving: Session)
    requires SysOk(s)
    ensures Unread(s.calls, key) ==>
              exists g {:trigger Session(key, device, project, connection, g)} ::
                && Apply(s, Register(key, device, project, connection)).live
                   == s.live + {Session(key, device, project, connection, g)}
                && forall other :: other in s.live && other.key == key ==> other.generation < g
    ensures Unread(s.calls, leaving.key) ==> Apply(s, Unregister(leaving)).live == s.live - {leaving}
  {
    if Unread(s.calls, key) {
      var g := (if key in s.generations then s.generations[key] else 0) + 1;
      var joined := Session(key, device, project, connection, g);
      assert Apply(s, Register(key, device, project, connection)).live == s.live + {joined};
    }
  }
}
