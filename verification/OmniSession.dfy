/**
 * The registry of Omni sessions (directdevice/omni/session.go) and what the adapter makes of a
 * write through it (adapter.go).
 */
module OmniSession {
  import opened Prelude
  import opened Lifecycle
  import opened CommandRows
  import opened CommandGuards
  import opened CommandAdapters
  import opened OmniCodec

  datatype Key = Key(profile: Profile, imei: string)

  /** Generations never repeat under one key, so a session is known by its key and generation. */
  datatype Session = Session(key: Key, device: nat, project: nat, connection: string, generation: nat)

  datatype Identity = Identity(sessions: map<nat, Session>, generation: nat)

  datatype LookupResult = Unique(session: Session) | Unavailable | Ambiguous

  datatype WriteError = SessionGone | ContextDone | DeadlineRefused | BadCount | WriterFailed | NoProgress

  datatype WriteResult = WriteResult(bytesWritten: nat, complete: bool, error: Option<WriteError>)

  /** One answer of the connection: how many bytes it took, by its own account, and whether it failed. */
  datatype Reply = Reply(count: int, failed: bool)

  /** What one WriteUnique meets: the context before each write, the deadline call, the connection's answers. */
  datatype Conditions = Conditions(cancelled: nat -> bool, deadlineSet: bool, replies: nat -> Reply)

  predicate ValidKey(key: Key)
  {
    !key.profile.OtherProfile? && ValidImei(key.imei)
  }

  predicate Sole(sessions: map<nat, Session>, s: Session)
  {
    s.generation in sessions && sessions[s.generation] == s && forall g :: g in sessions ==> g == s.generation
  }

  lemma SoleMeansOne(sessions: map<nat, Session>, s: Session)
    requires s.generation in sessions && sessions[s.generation] == s
    ensures |sessions| == 1 <==> Sole(sessions, s)
  {
    var rest := sessions - {s.generation};
    assert sessions == rest[s.generation := s];
    assert |sessions| == |rest| + 1;
    assert forall g :: g in sessions ==> g == s.generation || g in rest;
    if |rest| > 0 {
      var g :| g in rest;
      assert g in sessions && g != s.generation;
    } else {
      assert rest == map[];
    }
  }

  class Registry {
    var identities: map<Key, Identity>

    /** The bytes each session's connection has taken, in order. */
    var wires: map<Session, string>

    constructor ()
      ensures Valid() && identities == map[] && wires == map[]
    {
      identities, wires := map[], map[];
    }

    predicate Valid()
      reads this
    {
      forall key :: key in identities ==>
        forall g :: g in identities[key].sessions ==>
          && g <= identities[key].generation
          && identities[key].sessions[g].key == key && identities[key].sessions[g].generation == g
    }

    function SessionsOf(key: Key): map<nat, Session>
      reads this
    {
      if key in identities then identities[key].sessions else map[]
    }

    function WireOf(s: Session): string
      reads this
    {
      if s in wires then wires[s] else ""
    }

    /** A new session never replaces another one under its key; None is ErrSessionInvalid. */
    method Register(key: Key, device: nat, project: nat, connection: string, present: bool) returns (s: Option<Session>)
      requires Valid()
      modifies this`identities
      ensures Valid()
      ensures s.Some? <==> ValidKey(key) && connection != "" && present
      ensures s.None? ==> identities == old(identities)
      ensures s.Some? ==>
                && s.value.key == key && s.value.device == device && s.value.project == project
                && s.value.generation !in old(SessionsOf(key))
                && SessionsOf(key) == old(SessionsOf(key))[s.value.generation := s.value]
                && forall other :: other != key ==> SessionsOf(other) == old(SessionsOf(other))
    {
      if !ValidKey(key) || connection == "" || !present {
        return None;
      }
      var identity := if key in identities then identities[key] else Identity(map[], 0);
      var generation := identity.generation + 1;
      var session := Session(key, device, project, connection, generation);
      identities := identities[key := Identity(identity.sessions[generation := session], generation)];
      return Some(session);
    }

    /** Removes exactly that session, if it is still the one stored under its generation. */
    method Unregister(s: Session)
      requires Valid()
      modifies this`identities
      ensures Valid()
      ensures forall key :: SessionsOf(key) ==
                if key == s.key && s.generation in old(SessionsOf(key)) && old(SessionsOf(key))[s.generation] == s
                then old(SessionsOf(key)) - {s.generation} else old(SessionsOf(key))
    {
      if s.key !in identities {
        return;
      }
      var identity := identities[s.key];
      if s.generation !in identity.sessions || identity.sessions[s.generation] != s {
        return;
      }
      identities := identities[s.key := identity.(sessions := identity.sessions - {s.generation})];
    }

    method LookupUnique(key: Key) returns (r: LookupResult)
      requires Valid()
      ensures r.Unique? <==>
                ValidKey(key) && exists g :: g in SessionsOf(key) && Sole(SessionsOf(key), SessionsOf(key)[g])
      ensures r.Unique? ==> r.session.key == key && Sole(SessionsOf(key), r.session)
      ensures r.Unavailable? <==> !ValidKey(key) || SessionsOf(key) == map[]
    {
      if !ValidKey(key) || key !in identities {
        return Unavailable;
      }
      var sessions := identities[key].sessions;
      if |sessions| == 0 {
        return Unavailable;
      }
      if |sessions| != 1 {
        forall g | g in sessions
          ensures !Sole(sessions, sessions[g])
        {
          SoleMeansOne(sessions, sessions[g]);
        }
        return Ambiguous;
      }
      var g :| g in sessions;
      SoleMeansOne(sessions, sessions[g]);
      assert g in SessionsOf(key) && Sole(SessionsOf(key), SessionsOf(key)[g]);
      return Unique(sessions[g]);
    }

    /**
     * Writes a frame to the identity's sole session. Whatever the connection does, its wire
     * grows by exactly the prefix of the frame that the result counts, and by nothing else
     * anywhere; a short write is continued, never repeated.
     */
    method WriteUnique(s: Session, frame: string, conditions: Conditions) returns (r: WriteResult)
      requires Valid()
      modifies this`wires
      ensures r.bytesWritten <= |frame|
      ensures r.complete <==> frame != "" && r.bytesWritten == |frame|
      ensures r.error.None? <==> r.complete
      ensures r.bytesWritten > 0 ==> Sole(SessionsOf(s.key), s)
      ensures !Sole(SessionsOf(s.key), s) ==> r.error == Some(SessionGone)
      ensures WireOf(s) == old(WireOf(s)) + frame[..r.bytesWritten]
      ensures forall other :: other != s ==> WireOf(other) == old(WireOf(other))
      ensures (frame != "" && Sole(SessionsOf(s.key), s) && Undisturbed(conditions, frame)) ==> r.complete
      ensures r.error == Some(SessionGone) ==> frame == "" || !Sole(SessionsOf(s.key), s)
      ensures r.error == Some(ContextDone) ==> exists k :: conditions.cancelled(k)
      ensures r.error == Some(DeadlineRefused) ==> !conditions.deadlineSet
      ensures r.error == Some(BadCount) ==>
                exists k :: conditions.replies(k).count < 0 || conditions.replies(k).count > |frame| - r.bytesWritten
      ensures r.error == Some(WriterFailed) ==> exists k :: conditions.replies(k).failed
      ensures r.error == Some(NoProgress) ==>
                exists k :: conditions.replies(k).count == 0 && !conditions.replies(k).failed
    {
      if frame == "" || s.key !in identities {
        return WriteResult(0, false, Some(SessionGone));
      }
      var sessions := identities[s.key].sessions;
      if |sessions| != 1 || s.generation !in sessions || sessions[s.generation] != s {
        if s.generation in sessions && sessions[s.generation] == s {
          SoleMeansOne(sessions, s);
        }
        return WriteResult(0, false, Some(SessionGone));
      }
      SoleMeansOne(sessions, s);
      if conditions.cancelled(0) {
        return WriteResult(0, false, Some(ContextDone));
      }
      if !conditions.deadlineSet {
        return WriteResult(0, false, Some(DeadlineRefused));
      }
      var written, k := 0, 0;
      while written < |frame|
        invariant 0 <= written <= |frame|
        invariant WireOf(s) == old(WireOf(s)) + frame[..written]
        invariant forall other :: other != s ==> WireOf(other) == old(WireOf(other))
        invariant Undisturbed(conditions, frame) ==> k == 0 && written == 0
        decreases |frame| - written
      {
        if conditions.cancelled(k + 1) {
          return WriteResult(written, false, Some(ContextDone));
        }
        var reply := conditions.replies(k);
        k := k + 1;
        if reply.count < 0 || reply.count > |frame| - written {
          return WriteResult(written, false, Some(BadCount));
        }
        assert frame[..written + reply.count] == frame[..written] + frame[written..written + reply.count];
        wires := wires[s := WireOf(s) + frame[written..written + reply.count]];
        written := written + reply.count;
        if written == |frame| {
          return WriteResult(written, true, None);
        }
        if reply.failed {
          return WriteResult(written, false, Some(WriterFailed));
        }
        if reply.count == 0 {
          return WriteResult(written, false, Some(NoProgress));
        }
      }
      return WriteResult(written, true, None);
    }

    /** The adapter's Dispatch: one write, and what it claims to know afterwards. */
    method Dispatch(s: Session, frame: string, conditions: Conditions) returns (r: DispatchResult)
      requires Valid() && frame != ""
      modifies this`wires
      ensures exists n: nat ::
                n <= |frame| && WireTook(old(WireOf(s)), WireOf(s), frame, n) && r == ResultOfWrite(frame, n)
      ensures Persistable(Omni, r)
      ensures r.outcome.FailedBeforeSend? <==> WireOf(s) == old(WireOf(s))
      ensures r.confirmation.TransportSent? <==> WireOf(s) != old(WireOf(s))
      ensures (Sole(SessionsOf(s.key), s) && Undisturbed(conditions, frame)) ==> WireOf(s) == old(WireOf(s)) + frame
    {
      var write := WriteUnique(s, frame, conditions);
      r := Classify(write);
      WriteIsPersistable(frame, write);
      assert WireTook(old(WireOf(s)), WireOf(s), frame, write.bytesWritten);
      assert write.bytesWritten > 0 ==> |WireOf(s)| > |old(WireOf(s))|;
      assert frame[..0] == "";
    }
  }

  /** The context lives, the deadline is set, and the connection takes the whole frame at once. */
  predicate Undisturbed(conditions: Conditions, frame: string)
  {
    && !conditions.cancelled(0) && !conditions.cancelled(1) && conditions.deadlineSet
    && conditions.replies(0) == Reply(|frame|, false)
  }

  predicate WireTook(before: string, after: string, frame: string, n: nat)
    requires n <= |frame|
  {
    after == before + frame[..n]
  }

  function Classify(write: WriteResult): DispatchResult
  {
    if write.complete then DispatchResult(Indeterminate, TransportSent, Verified, Some(ProviderDeliveryUnknown))
    else if write.bytesWritten == 0 then DispatchResult(FailedBeforeSend, Unconfirmed, NoEvidence,
                                                        Some(ProviderTransportError))
    else DispatchResult(Indeterminate, TransportSent, Verified, Some(ProviderDeliveryUnknown))
  }

  /** What the adapter may claim once the wire has taken `n` bytes of the frame: never more than transport. */
  function ResultOfWrite(frame: string, n: nat): DispatchResult
  {
    if n == 0 then DispatchResult(FailedBeforeSend, Unconfirmed, NoEvidence, Some(ProviderTransportError))
    else DispatchResult(Indeterminate, TransportSent, Verified, Some(ProviderDeliveryUnknown))
  }

  lemma WriteIsPersistable(frame: string, write: WriteResult)
    requires frame != "" && (write.complete ==> write.bytesWritten == |frame|)
    ensures Classify(write) == ResultOfWrite(frame, write.bytesWritten)
    ensures Persistable(Omni, Classify(write))
  {
  }

  // ----------------------------------------------------------------- preparation

  datatype OmniRequest = OmniRequest(
    project: nat, device: nat, providerDeviceId: string, profile: Profile, action: string, payload: nat,
    requestKey: string)

  datatype OmniPrepared = ReadyToWrite(session: Session, frame: string) | NotPrepared(reason: Reason)

  /** Why the action is refused under that profile, if it is. */
  function ActionRefusal(profile: Profile, action: string): Option<Reason>
  {
    if action == "query_status" then None
    else if profile.Bike? && action == "unlock" then Some(ProviderMappingUnknown)
    else if profile.Iot? && (action == "unlock" || action == "lock") then Some(ProviderMappingUnknown)
    else Some(ProviderActionUnsupported)
  }

  function Prepare(configured: bool, request: OmniRequest, lookup: LookupResult, timestamp: string): OmniPrepared
  {
    if !configured then NotPrepared(ProviderSessionUnavailable)
    else if request.profile.OtherProfile? || !ValidImei(Trim(request.providerDeviceId))
      || Blank(request.requestKey) then
      NotPrepared(ProviderRequestInvalid)
    else if ActionRefusal(request.profile, request.action).Some? then
      NotPrepared(ActionRefusal(request.profile, request.action).value)
    else if request.payload != 0 then NotPrepared(ProviderRequestInvalid)
    else if !lookup.Unique? then NotPrepared(ProviderSessionUnavailable)
    else if lookup.session.device != request.device || lookup.session.project != request.project then
      NotPrepared(ProviderSessionUnavailable)
    else
      match EncodeQueryStatus(request.profile, request.providerDeviceId, timestamp)
      case Refused(_) => NotPrepared(ProviderRequestInvalid)
      case Encoded(frame) => ReadyToWrite(lookup.session, frame)
  }

  /**
   * The only frame the adapter ever prepares is a status query, to the one session of the Device and
   * Project that own the Command; every refusal is one that ends the Command before any write.
   */
  lemma PreparedIsAStatusQuery(configured: bool, request: OmniRequest, lookup: LookupResult, timestamp: string)
    ensures match Prepare(configured, request, lookup, timestamp)
            case NotPrepared(reason) => PreparationReason(reason)
            case ReadyToWrite(session, frame) =>
              && configured && request.action == "query_status" && request.payload == 0
              && lookup == Unique(session) && session.device == request.device && session.project == request.project
              && frame == EncodeQueryStatus(request.profile, request.providerDeviceId, timestamp).bytes && frame != ""
              && frame == (if request.profile == Bike then
                             "\U{00FF}\U{00FF}*CMDS,OM," + request.providerDeviceId + "," + timestamp + ",S5#\n"
                           else "\U{00FF}\U{00FF}*SCOS,OM," + request.providerDeviceId + ",S6#\n")
  {
    EncodedBytes(request.profile, request.providerDeviceId, timestamp);
  }

  /** Which reason a refusal gives, in the order the adapter asks. */
  lemma RefusalMeaning(configured: bool, request: OmniRequest, lookup: LookupResult, timestamp: string)
    ensures var r := Prepare(configured, request, lookup, timestamp);
            var id := Trim(request.providerDeviceId);
            && (r == NotPrepared(ProviderMappingUnknown) ==>
                  (request.profile == Bike && request.action == "unlock")
                  || (request.profile == Iot && request.action in {"unlock", "lock"}))
            && (r == NotPrepared(ProviderActionUnsupported) ==>
                  request.action !in {"query_status", "unlock"}
                    && !(request.profile == Iot && request.action == "lock"))
            && (r == NotPrepared(ProviderRequestInvalid) ==>
                  || (request.profile != Bike && request.profile != Iot) || |id| != 15 || !Digits(id)
                  || Blank(request.requestKey) || request.payload != 0 || id != request.providerDeviceId)
            && (r == NotPrepared(ProviderSessionUnavailable) ==>
                  || !configured || !lookup.Unique?
                  || lookup.session.device != request.device || lookup.session.project != request.project)
  {
    EncodedBytes(request.profile, request.providerDeviceId, timestamp);
    if ValidImei(request.providerDeviceId) {
      TrimDigits(request.providerDeviceId);
    }
    if Trim(request.providerDeviceId) == request.providerDeviceId {
      EncodedBytes(request.profile, Trim(request.providerDeviceId), timestamp);
    }
  }

  /** Once the lookup found a unique session, only the session's owner can still refuse a well-formed query. */
  lemma WellFormedQueryIsPrepared(request: OmniRequest, session: Session, timestamp: string)
    requires ValidKey(Key(request.profile, request.providerDeviceId)) && !Blank(request.requestKey)
    requires request.action == "query_status" && request.payload == 0
    ensures Prepare(true, request, Unique(session), timestamp).ReadyToWrite?
            <==> session.device == request.device && session.project == request.project
  {
    TrimDigits(request.providerDeviceId);
  }

  lemma TrimDigits(s: string)
    requires Digits(s)
    ensures Trim(s) == s
  {
  }
}
