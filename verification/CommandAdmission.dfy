/**
 * Who may act on a Project (access/scope.go) and which Commands are admitted
 * (commandservice Create): the checks in their order, over what the other tables hold.
 */
module CommandAdmission {
  import opened Prelude
  import opened CommandRows

  datatype Scope = SuperAdmin | Manager(user: nat) | ProjectCredential(project: nat)

  datatype Support = Supported | Unsupported | MappingUnknown

  /** A capability's action; `plainSchema` says that its payload schema is the closed empty object. */
  datatype CapabilityAction = CapabilityAction(identifier: nat, policy: Policy, plainSchema: bool)

  datatype DeviceType = DeviceType(id: nat, actions: seq<CapabilityAction>)

  datatype Device = Device(
    project: nat, active: bool, typeId: nat, typeCode: nat, provider: Provider, adapter: nat, profile: nat,
    online: bool)

  datatype ProviderEntry = ProviderEntry(code: Provider, adapter: nat, configured: bool,
                                         profiles: map<nat, map<nat, Support>>)

  /** The other tables and the Provider registry; a Project is stored with its manager. */
  datatype Catalogue = Catalogue(
    projects: map<nat, nat>, devices: map<nat, Device>, types: map<nat, DeviceType>,
    providers: map<Provider, ProviderEntry>)

  datatype AdmissionError =
    | MalformedRequest | ProjectNotFound | DeviceNotFound | DeviceDisabled | CapabilityUnsupported | PayloadInvalid
    | ProviderUnavailable | ActionUnsupported | ActionUnmapped | DeviceOffline

  datatype Admission = Admitted(provider: Provider, policy: Policy) | Refused(error: AdmissionError)

  predicate CanAccess(scope: Scope, project: nat, manager: nat)
  {
    match scope
    case SuperAdmin => true
    case Manager(user) => user == manager
    case ProjectCredential(own) => own == project
  }

  /** The Project exists and the caller may see it; callers cannot tell the two apart. */
  predicate Visible(scope: Scope, project: nat, catalogue: Catalogue)
  {
    project in catalogue.projects && CanAccess(scope, project, catalogue.projects[project])
  }

  /** A Project credential acts on its own Project and may not name one; everybody else must. */
  function ProjectFor(scope: Scope, requested: Option<nat>): Option<nat>
  {
    match scope
    case ProjectCredential(own) => if requested.Some? then None else Some(own)
    case _ => requested
  }

  function FindAction(actions: seq<CapabilityAction>, identifier: nat): (found: Option<CapabilityAction>)
    ensures found.Some? ==> found.value in actions && found.value.identifier == identifier
    ensures found.None? ==> forall a :: a in actions ==> a.identifier != identifier
  {
    if actions == [] then None
    else if actions[0].identifier == identifier then Some(actions[0])
    else FindAction(actions[1..], identifier)
  }

  function SupportOf(entry: ProviderEntry, profile: nat, action: nat): Option<Support>
  {
    if profile in entry.profiles && action in entry.profiles[profile] then
      Some(entry.profiles[profile][action]) else None
  }

  function Admit(catalogue: Catalogue, project: nat, request: Request): Admission
  {
    if request.device !in catalogue.devices || catalogue.devices[request.device].project != project then
      Refused(DeviceNotFound)
    else
      var device := catalogue.devices[request.device];
      if !device.active then Refused(DeviceDisabled)
      else if device.typeCode !in catalogue.types || catalogue.types[device.typeCode].id != device.typeId then
        Refused(CapabilityUnsupported)
      else
        match FindAction(catalogue.types[device.typeCode].actions, request.action)
        case None => Refused(CapabilityUnsupported)
        case Some(action) =>
          if !action.plainSchema || request.payload != 0 then Refused(PayloadInvalid)
          else AdmitByProvider(catalogue.providers, device, action)
  }

  function AdmitByProvider(providers: map<Provider, ProviderEntry>, device: Device, action: CapabilityAction): Admission
  {
    if device.provider !in providers then Refused(ProviderUnavailable)
    else
      var entry := providers[device.provider];
      if !entry.configured || entry.code != device.provider || entry.adapter != device.adapter then
        Refused(ProviderUnavailable)
      else
        match SupportOf(entry, device.profile, action.identifier)
        case None => Refused(ProviderUnavailable)
        case Some(Unsupported) => Refused(ActionUnsupported)
        case Some(MappingUnknown) => Refused(ActionUnmapped)
        case Some(Supported) =>
          if action.policy.onlineOnly && !device.online then Refused(DeviceOffline)
          else Admitted(device.provider, action.policy)
  }

  // ------------------------------------------------------------ what it comes to

  /** The request names that Project: a credential its own, by silence; anybody else the one it states. */
  predicate Addressed(scope: Scope, requested: Option<nat>, project: nat)
  {
    if scope.ProjectCredential? then requested == None && scope == ProjectCredential(project)
    else requested == Some(project)
  }

  /** A super administrator sees every Project, a manager those it manages, a credential its own. */
  predicate MaySee(scope: Scope, project: nat, catalogue: Catalogue)
  {
    && project in catalogue.projects
    && (scope == SuperAdmin || scope == Manager(catalogue.projects[project]) || scope == ProjectCredential(project))
  }

  lemma ScopeMeaning(scope: Scope, requested: Option<nat>, catalogue: Catalogue)
    ensures forall project: nat :: Addressed(scope, requested, project) <==>
              ProjectFor(scope, requested) == Some(project)
    ensures forall project: nat :: MaySee(scope, project, catalogue) <==> Visible(scope, project, catalogue)
  {
  }

  const CHECKS: nat := 10

  /** What each check refuses with, in their order. */
  const REFUSALS: seq<AdmissionError> :=
    [DeviceNotFound, DeviceDisabled, CapabilityUnsupported, CapabilityUnsupported, PayloadInvalid, ProviderUnavailable,
     ProviderUnavailable, ActionUnsupported, ActionUnmapped, DeviceOffline]

  /** The first entry of that identifier. */
  predicate Listed(actions: seq<CapabilityAction>, identifier: nat, action: CapabilityAction)
  {
    exists i :: 0 <= i < |actions| && IsListed(actions, identifier, action, i)
  }

  predicate IsListed(actions: seq<CapabilityAction>, identifier: nat, action: CapabilityAction, i: nat)
    requires i < |actions|
  {
    actions[i] == action && action.identifier == identifier && forall j :: 0 <= j < i ==>
        actions[j].identifier != identifier
  }

  predicate DeviceHere(catalogue: Catalogue, project: nat, request: Request)
  {
    request.device in catalogue.devices && catalogue.devices[request.device].project == project
  }

  predicate TypeHere(catalogue: Catalogue, project: nat, request: Request)
  {
    && DeviceHere(catalogue, project, request)
    && var d := catalogue.devices[request.device];
       d.typeCode in catalogue.types && catalogue.types[d.typeCode].id == d.typeId
  }

  predicate ActionHere(catalogue: Catalogue, project: nat, request: Request, action: CapabilityAction)
  {
    && TypeHere(catalogue, project, request)
    && Listed(catalogue.types[catalogue.devices[request.device].typeCode].actions, request.action, action)
  }

  /** The Device's Provider is configured, for the Device's own Provider code and adapter. */
  predicate ProviderHere(catalogue: Catalogue, project: nat, request: Request)
  {
    && DeviceHere(catalogue, project, request)
    && var d := catalogue.devices[request.device];
       && d.provider in catalogue.providers
       && catalogue.providers[d.provider].configured
       && catalogue.providers[d.provider].code == d.provider && catalogue.providers[d.provider].adapter == d.adapter
  }

  /** What the Provider says of the action under the Device's profile. */
  predicate ProfileSays(catalogue: Catalogue, project: nat, request: Request, support: Support)
  {
    && ProviderHere(catalogue, project, request)
    && var d := catalogue.devices[request.device];
       var profiles := catalogue.providers[d.provider].profiles;
       && d.profile in profiles && request.action in profiles[d.profile]
       && profiles[d.profile][request.action] == support
  }

  /** The `k`-th thing that is asked, of the listed action if there is one. */
  ghost predicate Check(k: nat, catalogue: Catalogue, project: nat, request: Request)
  {
    match k
    case 0 => DeviceHere(catalogue, project, request)
    case 1 => DeviceHere(catalogue, project, request) && catalogue.devices[request.device].active
    case 2 => TypeHere(catalogue, project, request)
    case 3 => exists action :: ActionHere(catalogue, project, request, action)
    case 4 =>
      (exists action :: ActionHere(catalogue, project, request, action) && action.plainSchema) && request.payload == 0
    case 5 => ProviderHere(catalogue, project, request)
    case 6 => exists support :: ProfileSays(catalogue, project, request, support)
    case 7 => !ProfileSays(catalogue, project, request, Unsupported)
    case 8 => !ProfileSays(catalogue, project, request, MappingUnknown)
    case _ =>
      && DeviceHere(catalogue, project, request)
      && exists action ::
           && ActionHere(catalogue, project, request, action)
           && (action.policy.onlineOnly ==> catalogue.devices[request.device].online)
  }

  /** All of it is in order, and this is the Provider and the policy the Command freezes. */
  ghost predicate Admissible(catalogue: Catalogue, project: nat, request: Request, provider: Provider, policy: Policy)
  {
    && (forall k :: 0 <= k < CHECKS ==> Check(k, catalogue, project, request))
    && DeviceHere(catalogue, project, request) && provider == catalogue.devices[request.device].provider
    && exists action :: ActionHere(catalogue, project, request, action) && policy == action.policy
  }

  /** `error` names the first check that fails. */
  ghost predicate FirstFailing(catalogue: Catalogue, project: nat, request: Request, error: AdmissionError)
  {
    exists k :: 0 <= k < CHECKS && FailsFirstAt(k, catalogue, project, request) && error == REFUSALS[k]
  }

  ghost predicate FailsFirstAt(k: nat, catalogue: Catalogue, project: nat, request: Request)
  {
    && !Check(k, catalogue, project, request)
    && forall j :: 0 <= j < k ==> Check(j, catalogue, project, request)
  }

  lemma {:induction false} FoundIsListed(actions: seq<CapabilityAction>, identifier: nat)
    ensures match FindAction(actions, identifier)
            case Some(action) => Listed(actions, identifier, action)
            case None => forall action :: !Listed(actions, identifier, action)
    decreases |actions|
  {
    if actions == [] {
    } else if actions[0].identifier == identifier {
      assert IsListed(actions, identifier, actions[0], 0);
    } else {
      FoundIsListed(actions[1..], identifier);
      if FindAction(actions[1..], identifier).Some? {
        var action := FindAction(actions[1..], identifier).value;
        var i :| 0 <= i < |actions[1..]| && IsListed(actions[1..], identifier, action, i);
        assert forall j :: 0 <= j < i + 1 ==> actions[j].identifier != identifier by {
          assert forall j :: 1 <= j < i + 1 ==> actions[j] == actions[1..][j - 1];
        }
        assert IsListed(actions, identifier, action, i + 1);
      }
    }
  }

  lemma ListedOnce(actions: seq<CapabilityAction>, identifier: nat, a: CapabilityAction, b: CapabilityAction)
    requires Listed(actions, identifier, a) && Listed(actions, identifier, b)
    ensures a == b
  {
    var i :| 0 <= i < |actions| && IsListed(actions, identifier, a, i);
    var j :| 0 <= j < |actions| && IsListed(actions, identifier, b, j);
  }

  /** What was asked before check `k`, said as one. */
  ghost predicate PassesUpTo(k: nat, catalogue: Catalogue, project: nat, request: Request)
  {
    forall j :: 0 <= j < k ==> Check(j, catalogue, project, request)
  }

  lemma OneMorePassed(k: nat, catalogue: Catalogue, project: nat, request: Request)
    requires PassesUpTo(k, catalogue, project, request)
    ensures Check(k, catalogue, project, request) ==> PassesUpTo(k + 1, catalogue, project, request)
    ensures k < CHECKS && !Check(k, catalogue, project, request) ==>
              FirstFailing(catalogue, project, request, REFUSALS[k])
  {
    if k < CHECKS && !Check(k, catalogue, project, request) {
      assert FailsFirstAt(k, catalogue, project, request);
    }
  }

  /** A Command is admitted exactly if all is in order, and otherwise refused for the first thing that is not. */
  lemma AdmitMeaning(catalogue: Catalogue, project: nat, request: Request)
    ensures match Admit(catalogue, project, request)
            case Admitted(provider, policy) => Admissible(catalogue, project, request, provider, policy)
            case Refused(error) => FirstFailing(catalogue, project, request, error)
  {
    OneMorePassed(0, catalogue, project, request);
    if DeviceHere(catalogue, project, request) {
      var device := catalogue.devices[request.device];
      OneMorePassed(1, catalogue, project, request);
      if device.active {
        OneMorePassed(2, catalogue, project, request);
        if TypeHere(catalogue, project, request) {
          AdmitTyped(catalogue, project, request);
        }
      }
    }
  }

  lemma AdmitTyped(catalogue: Catalogue, project: nat, request: Request)
    requires PassesUpTo(3, catalogue, project, request)
    requires TypeHere(catalogue, project, request) && catalogue.devices[request.device].active
    ensures match Admit(catalogue, project, request)
            case Admitted(provider, policy) => Admissible(catalogue, project, request, provider, policy)
            case Refused(error) => FirstFailing(catalogue, project, request, error)
  {
    var actions := catalogue.types[catalogue.devices[request.device].typeCode].actions;
    var found := FindAction(actions, request.action);
    FoundIsListed(actions, request.action);
    OneMorePassed(3, catalogue, project, request);
    if found.None? {
      assert forall action :: !ActionHere(catalogue, project, request, action);
    } else {
      var action := found.value;
      assert ActionHere(catalogue, project, request, action);
      OneMorePassed(4, catalogue, project, request);
      ActionIsUnique(catalogue, project, request, action);
      if action.plainSchema && request.payload == 0 {
        AdmitListed(catalogue, project, request, action);
      }
    }
  }

  lemma ActionIsUnique(catalogue: Catalogue, project: nat, request: Request, action: CapabilityAction)
    requires ActionHere(catalogue, project, request, action)
    ensures forall other :: ActionHere(catalogue, project, request, other) ==> other == action
  {
    var actions := catalogue.types[catalogue.devices[request.device].typeCode].actions;
    forall other | ActionHere(catalogue, project, request, other)
      ensures other == action
    {
      ListedOnce(actions, request.action, other, action);
    }
  }

  lemma AdmitListed(catalogue: Catalogue, project: nat, request: Request, action: CapabilityAction)
    requires PassesUpTo(5, catalogue, project, request) && ActionHere(catalogue, project, request, action)
    ensures var device := catalogue.devices[request.device];
            match AdmitByProvider(catalogue.providers, device, action)
            case Admitted(provider, policy) => Admissible(catalogue, project, request, provider, policy)
            case Refused(error) => FirstFailing(catalogue, project, request, error)
  {
    var device := catalogue.devices[request.device];
    assert action.identifier == request.action;
    ActionIsUnique(catalogue, project, request, action);
    OneMorePassed(5, catalogue, project, request);
    if ProviderHere(catalogue, project, request) {
      OneMorePassed(6, catalogue, project, request);
      var entry := catalogue.providers[device.provider];
      match SupportOf(entry, device.profile, action.identifier)
      case None =>
        assert forall support :: !ProfileSays(catalogue, project, request, support);
      case Some(support) =>
        assert ProfileSays(catalogue, project, request, support);
        assert forall other :: ProfileSays(catalogue, project, request, other) ==> other == support;
        OneMorePassed(7, catalogue, project, request);
        if !support.Unsupported? {
          OneMorePassed(8, catalogue, project, request);
        }
        if support.Supported? {
          OneMorePassed(9, catalogue, project, request);
        }
    }
  }

  /** No request is both admissible and refused. */
  lemma NotBoth(catalogue: Catalogue, project: nat, request: Request, provider: Provider, policy: Policy,
                error: AdmissionError)
    ensures !(Admissible(catalogue, project, request, provider, policy)
              && FirstFailing(catalogue, project, request, error))
  {
  }
}
