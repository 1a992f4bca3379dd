/** The A2A agent controller. */
module AgentController {
  import opened Wrappers
  import opened SliceUtil
  import opened Remote
  import opened Managed
  import opened Json
  import opened Wire
  import opened NamedRecords
  import opened AgentClient
  import opened AuthResolve
  import TeamResolve

  datatype Params = Params(
    name: Option<string>,
    endpointUrl: string,
    description: Option<string>,
    teamRef: string,
    visibility: string,
    tags: Slice,
    capabilities: Option<string>,
    config: Option<string>,
    passthroughHeaders: Slice,
    agentType: Option<string>,
    protocolVersion: Option<string>,
    auth: Option<AuthConfig>)

  type AgentCr = Cr<Params>

  type Agents = map<string, Agent>

  /** The validation rules of the resource definition. */
  predicate ValidParams(p: Params)
  {
    p.auth.Some? ==> Valid(p.auth.value)
  }

  function ResolvedName(cr: AgentCr): string
  {
    cr.spec.name.GetOr(cr.key.name)
  }

  // ---------- JSON that the spec carries as text ----------

  /** The text that stores a map; an empty or nil map is stored as nothing. */
  function ToRaw(m: Option<JsonMap>): Option<string>
  {
    if m.None? || m.value == map[] then None else Some(Print(Obj(m.value)))
  }

  /** The map that a text stores; nil if there is no text or it is not an object. */
  function FromRaw(raw: Option<string>, read: NumberReader): Option<JsonMap>
  {
    if raw.None? || raw.value == "" then None
    else
      match ReadDocument(raw.value, read)
      case Some(Obj(m)) => Some(m)
      case _ => None
  }

  /** What json.Marshal makes of a map, which may be nil. */
  function Marshal(m: Option<JsonMap>): string
  {
    if m.None? then Print(Json.Null) else Print(Obj(m.value))
  }

  predicate JsonMapsEqual(a: Option<JsonMap>, b: Option<JsonMap>)
  {
    Marshal(a) == Marshal(b)
  }

  // ---------- Payloads and the up-to-date check ----------

  function ToCreate(cr: AgentCr, teamId: string, auth: Auth, read: NumberReader): AgentCreate
  {
    var p := cr.spec;
    AgentCreate(ResolvedName(cr), p.endpointUrl, p.description, p.agentType, p.protocolVersion, teamId, p.visibility,
                p.tags, FromRaw(p.capabilities, read), FromRaw(p.config, read), p.passthroughHeaders, auth)
  }

  function ToUpdate(cr: AgentCr, teamId: string, auth: Auth, read: NumberReader): AgentUpdate
  {
    var p := cr.spec;
    AgentUpdate(Some(ResolvedName(cr)), Some(p.endpointUrl), p.description, p.agentType, p.protocolVersion, Some(teamId),
                Some(p.visibility), p.tags, FromRaw(p.capabilities, read), FromRaw(p.config, read), p.passthroughHeaders, auth)
  }

  predicate ScalarsUpToDate(cr: AgentCr, teamId: string, a: Agent)
  {
    var p, b := cr.spec, a.body;
    ResolvedName(cr) == a.name && teamId == b.teamId &&
    (p.description.Some? ==> p.description.value == b.description) && p.visibility == b.visibility &&
    (p.agentType.Some? ==> p.agentType.value == b.agentType) &&
    (p.protocolVersion.Some? ==> p.protocolVersion.value == b.protocolVersion)
  }

  predicate ListsUpToDate(p: Params, a: Agent, read: NumberReader)
  {
    SameElements(p.tags.List(), Labels(a.body.tags)) &&
    SameElements(p.passthroughHeaders.List(), a.body.passthroughHeaders) &&
    JsonMapsEqual(FromRaw(p.capabilities, read), a.body.capabilities) &&
    JsonMapsEqual(FromRaw(p.config, read), a.body.config)
  }

  predicate IsUpToDate(cr: AgentCr, teamId: string, a: Agent, read: NumberReader)
  {
    ScalarsUpToDate(cr, teamId, a) && ListsUpToDate(cr.spec, a, read)
  }

  // ---------- The four operations, as functions of what they find ----------

  /** Where an operation leaves the resource and the remote, and what it reports. */
  datatype Outcome<T> = Outcome(cr: AgentCr, store: Agents, result: Result<T, Failure>)

  function AfterObserve(cr: AgentCr, store: Agents, read: NumberReader, kube: Kube, net: AgentNet): Outcome<Observation>
  {
    if cr.externalName == "" then Outcome(cr, store, Ok(ABSENT)) else
      match GetOutcome(store, net.hit, net.get)
      case Err(NotFound) => Outcome(cr, store, Ok(ABSENT))
      case Err(e) => Outcome(cr, store, Err(Api(e)))
      case Ok(a) =>
        var seen := cr.(statusId := a.id);
        if cr.deleted then Outcome(seen, store, Ok(Observation(true, false, None)))
        else
          match TeamResolve.Resolve(kube, cr.key.namespace, cr.spec.teamRef)
          case Err(e) => Outcome(seen, store, Err(e))
          case Ok(teamId) => Outcome(seen, store, Ok(Observation(true, IsUpToDate(cr, teamId, a, read), None)))
  }

  function AfterCreate(cr: AgentCr, store: Agents, read: NumberReader, kube: Kube, net: AgentNet): Outcome<()>
    requires ValidParams(cr.spec)
  {
    match TeamResolve.Resolve(kube, cr.key.namespace, cr.spec.teamRef)
    case Err(e) => Outcome(cr, store, Err(e))
    case Ok(teamId) =>
      match Resolved(kube, cr.key.namespace, cr.spec.auth)
      case Err(e) => Outcome(cr, store, Err(e))
      case Ok(auth) =>
        var made := CreateOrAdopt(store, ResolvedName(cr), net.create(ToCreate(cr, teamId, auth, read)), net.hit, net.post, net.get);
        match made.result
        case Err(e) => Outcome(cr, made.store, Err(Api(e)))
        case Ok(a) => Outcome(cr.(externalName := a.id, statusId := a.id), made.store, Ok(()))
  }

  function AfterUpdate(cr: AgentCr, store: Agents, read: NumberReader, kube: Kube, net: AgentNet): Outcome<()>
    requires ValidParams(cr.spec)
  {
    match TeamResolve.Resolve(kube, cr.key.namespace, cr.spec.teamRef)
    case Err(e) => Outcome(cr, store, Err(e))
    case Ok(teamId) =>
      match Resolved(kube, cr.key.namespace, cr.spec.auth)
      case Err(e) => Outcome(cr, store, Err(e))
      case Ok(auth) =>
        var put := PutOutcome(store, cr.externalName, ToUpdate(cr, teamId, auth, read), net.update,
                              NameTakenByOther(store, cr.externalName, ResolvedName(cr)), net.put);
        match put.result
        case Err(e) => Outcome(cr, put.store, Err(Api(e)))
        case Ok(a) => Outcome(cr.(statusId := a.id), put.store, Ok(()))
  }

  function AfterDelete(cr: AgentCr, store: Agents, net: AgentNet): Outcome<()>
  {
    Outcome(cr, StoreAfterDelete(store, cr.externalName, net.delete),
            match DeleteOutcome(net.delete) case Ok(_) => Ok(()) case Err(e) => Err(Api(e)))
  }

  // ---------- The controller ----------

  /** The controller's client of the remote, for one provider configuration. */
  class External {
    const agents: Collection<Agent>

    const read: NumberReader

    constructor (agents: Collection<Agent>, read: NumberReader)
      ensures this.agents == agents && this.read == read
    {
      this.agents := agents;
      this.read := read;
    }

    method Observe(cr: Resource<Params>, kube: Kube, net: AgentNet) returns (r: Result<Observation, Failure>)
      modifies cr`statusId
      ensures Outcome(cr.Value(), agents.records, r) == AfterObserve(old(cr.Value()), old(agents.records), read, kube, net)
    {
      if cr.externalName == "" { return Ok(ABSENT); }
      var got := agents.Get(net.hit, net.get);
      if got == Err(NotFound) { return Ok(ABSENT); }
      if got.Err? { return Err(Api(got.error)); }
      cr.statusId := got.value.id;
      if cr.deleted { return Ok(Observation(true, false, None)); }
      var team := TeamResolve.Resolve(kube, cr.key.namespace, cr.spec.teamRef);
      if team.Err? { return Err(team.error); }
      r := Ok(Observation(true, IsUpToDate(cr.Value(), team.value, got.value, read), None));
    }

    method Create(cr: Resource<Params>, kube: Kube, net: AgentNet) returns (r: Result<(), Failure>)
      requires ValidParams(cr.spec)
      modifies cr`statusId, cr`externalName, agents
      ensures Outcome(cr.Value(), agents.records, r) == AfterCreate(old(cr.Value()), old(agents.records), read, kube, net)
    {
      var team := TeamResolve.Resolve(kube, cr.key.namespace, cr.spec.teamRef);
      if team.Err? { return Err(team.error); }
      var auth := AuthResolve.Resolve(kube, cr.key.namespace, cr.spec.auth);
      if auth.Err? { return Err(auth.error); }
      var stored := net.create(ToCreate(cr.Value(), team.value, auth.value, read));
      var made := agents.Post(stored.id, stored, NameTaken(agents.records, ResolvedName(cr.Value())), net.post);
      if made == Err(Conflict) { made := agents.Get(net.hit, net.get); }
      if made.Err? { return Err(Api(made.error)); }
      cr.externalName := made.value.id;
      cr.statusId := made.value.id;
      r := Ok(());
    }

    method Update(cr: Resource<Params>, kube: Kube, net: AgentNet) returns (r: Result<(), Failure>)
      requires ValidParams(cr.spec)
      modifies cr`statusId, agents
      ensures Outcome(cr.Value(), agents.records, r) == AfterUpdate(old(cr.Value()), old(agents.records), read, kube, net)
    {
      var id := cr.externalName;
      var team := TeamResolve.Resolve(kube, cr.key.namespace, cr.spec.teamRef);
      if team.Err? { return Err(team.error); }
      var auth := AuthResolve.Resolve(kube, cr.key.namespace, cr.spec.auth);
      if auth.Err? { return Err(auth.error); }
      var put := agents.Put(id, ToUpdate(cr.Value(), team.value, auth.value, read), net.update,
                              NameTakenByOther(agents.records, id, ResolvedName(cr.Value())), net.put);
      if put.Err? { return Err(Api(put.error)); }
      cr.statusId := put.value.id;
      r := Ok(());
    }

    method Delete(cr: Resource<Params>, net: AgentNet) returns (r: Result<(), Failure>)
      modifies agents
      ensures Outcome(cr.Value(), agents.records, r) == AfterDelete(old(cr.Value()), old(agents.records), net)
    {
      var gone := agents.Delete(cr.externalName, net.delete);
      if gone.Err? { return Err(Api(gone.error)); }
      r := Ok(());
    }
  }
}
