/** The virtual server controller. */
module ServerController {
  import opened Wrappers
  import opened SliceUtil
  import opened Remote
  import opened Managed
  import opened Wire
  import opened ServerClient
  import ServerIds
  import TeamResolve

  datatype Params = Params(
    name: Option<string>,
    teamRef: string,
    visibility: string,
    description: Option<string>,
    icon: Option<string>,
    tags: Slice,
    tools: Slice,
    resources: Slice,
    prompts: Slice,
    agents: Slice)

  type ServerCr = Cr<Params>

  type Store = map<string, Server>

  // ---------- Payloads and the up-to-date check ----------

  function ResolvedName(cr: ServerCr): string
  {
    cr.spec.name.GetOr(cr.key.name)
  }

  function NonNil(s: Slice): Slice
  {
    if s.Nil? then Items([]) else s
  }

  predicate ScalarsUpToDate(cr: ServerCr, teamId: string, s: Server)
  {
    ResolvedName(cr) == s.name && teamId == s.teamId && cr.spec.visibility == s.visibility &&
    (cr.spec.description.Some? ==> cr.spec.description.value == s.description)
  }

  predicate AssociationsUpToDate(p: Params, s: Server)
  {
    SameElements(p.tags.List(), Labels(s.tags)) &&
    SameElements(p.tools.List(), s.tools) &&
    SameElements(p.resources.List(), s.resources) &&
    SameElements(p.prompts.List(), s.prompts) &&
    SameElements(p.agents.List(), s.agents)
  }

  predicate IsUpToDate(cr: ServerCr, teamId: string, s: Server)
  {
    ScalarsUpToDate(cr, teamId, s) && AssociationsUpToDate(cr.spec, s)
  }

  function ToCreate(cr: ServerCr, id: string): ServerCreate
  {
    var p := cr.spec;
    ServerCreate(id, ResolvedName(cr), p.description, p.icon, p.tags,
                 NonNil(p.tools), NonNil(p.resources), NonNil(p.prompts), NonNil(p.agents))
  }

  function CreateBody(cr: ServerCr, teamId: string, id: string): CreateRequest
  {
    CreateRequest(teamId, cr.spec.visibility, ToCreate(cr, id))
  }

  function ToUpdate(cr: ServerCr, teamId: string): ServerUpdate
  {
    var p := cr.spec;
    ServerUpdate(Some(ResolvedName(cr)), p.description, p.icon, Some(teamId), Some(p.visibility),
                 NonNil(p.tags), NonNil(p.tools), NonNil(p.resources), NonNil(p.prompts), NonNil(p.agents))
  }

  function Details(baseUrl: string, id: string): ConnectionDetails
  {
    ConnectionDetails(baseUrl + "/v1/servers/" + id + "/sse", baseUrl + "/v1/servers/" + id + "/message")
  }

  // ---------- The four operations, as functions of what they find ----------

  /** Where an operation leaves the resource and the remote, and what it reports. */
  datatype Outcome<T> = Outcome(cr: ServerCr, store: Store, result: Result<T, Failure>)

  function ObservedId(cr: ServerCr, id: string): string
  {
    if cr.externalName == "" then id else cr.externalName
  }

  function AfterObserve(cr: ServerCr, id: string, baseUrl: string, store: Store, kube: Kube, net: ServerNet): Outcome<Observation>
  {
    var at := ObservedId(cr, id);
    match GetOutcome(store, Some(at), net.get)
    case Err(NotFound) => Outcome(cr, store, Ok(ABSENT))
    case Err(e) => Outcome(cr, store, Err(Api(e)))
    case Ok(s) =>
      var seen := cr.(statusId := s.id);
      if cr.deleted then Outcome(seen, store, Ok(Observation(true, false, None)))
      else
        match TeamResolve.Resolve(kube, cr.key.namespace, cr.spec.teamRef)
        case Err(e) => Outcome(seen, store, Err(e))
        case Ok(teamId) =>
          Outcome(seen, store, Ok(Observation(true, IsUpToDate(cr, teamId, s), Some(Details(baseUrl, at)))))
  }

  function AfterCreate(cr: ServerCr, id: string, baseUrl: string, store: Store, kube: Kube,
        net: ServerNet): Outcome<ConnectionDetails>
  {
    match TeamResolve.Resolve(kube, cr.key.namespace, cr.spec.teamRef)
    case Err(e) => Outcome(cr, store, Err(e))
    case Ok(teamId) =>
      var posted := PostOutcome(store, id, net.create(CreateBody(cr, teamId, id)), id in store, net.post);
      var result := if posted.result == Err(Conflict) then GetOutcome(posted.store, Some(id), net.get) else posted.result;
      match result
      case Err(e) => Outcome(cr, posted.store, Err(Api(e)))
      case Ok(s) => Outcome(cr.(statusId := s.id, externalName := id), posted.store, Ok(Details(baseUrl, s.id)))
  }

  function AfterUpdate(cr: ServerCr, id: string, baseUrl: string, store: Store, kube: Kube,
        net: ServerNet): Outcome<ConnectionDetails>
  {
    match TeamResolve.Resolve(kube, cr.key.namespace, cr.spec.teamRef)
    case Err(e) => Outcome(cr, store, Err(e))
    case Ok(teamId) =>
      var put := PutOutcome(store, id, ToUpdate(cr, teamId), net.update, false, net.put);
      match put.result
      case Err(e) => Outcome(cr, put.store, Err(Api(e)))
      case Ok(s) => Outcome(cr.(statusId := s.id), put.store, Ok(Details(baseUrl, id)))
  }

  function AfterDelete(cr: ServerCr, id: string, store: Store, net: ServerNet): Outcome<()>
  {
    Outcome(cr, StoreAfterDelete(store, id, net.delete),
            match DeleteOutcome(net.delete) case Ok(_) => Ok(()) case Err(e) => Err(Api(e)))
  }

  // ---------- The controller ----------

  /** The controller's client of the remote, for one provider configuration. */
  class External {
    const servers: Collection<Server>
    const hash: ServerIds.NameHash
    const baseUrl: string

    constructor (servers: Collection<Server>, hash: ServerIds.NameHash, baseUrl: string)
      ensures this.servers == servers && this.hash == hash && this.baseUrl == baseUrl
    {
      this.servers := servers;
      this.hash := hash;
      this.baseUrl := baseUrl;
    }

    method Observe(cr: Resource<Params>, kube: Kube, net: ServerNet) returns (r: Result<Observation, Failure>)
      modifies cr`statusId
      ensures Outcome(cr.Value(), servers.records, r)
           == AfterObserve(old(cr.Value()), ServerIds.DeterministicId(hash, cr.key), baseUrl, old(servers.records), kube, net)
    {
      var id := cr.externalName;
      if id == "" { id := ServerIds.DeterministicId(hash, cr.key); }
      var got := servers.Get(Some(id), net.get);
      if got == Err(NotFound) { return Ok(ABSENT); }
      if got.Err? { return Err(Api(got.error)); }
      cr.statusId := got.value.id;
      if cr.deleted { return Ok(Observation(true, false, None)); }
      var team := TeamResolve.Resolve(kube, cr.key.namespace, cr.spec.teamRef);
      if team.Err? { return Err(team.error); }
      r := Ok(Observation(true, IsUpToDate(cr.Value(), team.value, got.value), Some(Details(baseUrl, id))));
    }

    method Create(cr: Resource<Params>, kube: Kube, net: ServerNet) returns (r: Result<ConnectionDetails, Failure>)
      modifies cr`statusId, cr`externalName, servers
      ensures Outcome(cr.Value(), servers.records, r)
           == AfterCreate(old(cr.Value()), ServerIds.DeterministicId(hash, cr.key), baseUrl, old(servers.records), kube, net)
    {
      var id := ServerIds.DeterministicId(hash, cr.key);
      var team := TeamResolve.Resolve(kube, cr.key.namespace, cr.spec.teamRef);
      if team.Err? { return Err(team.error); }
      var made := servers.Post(id, net.create(CreateBody(cr.Value(), team.value, id)), id in servers.records, net.post);
      if made == Err(Conflict) { made := servers.Get(Some(id), net.get); }
      if made.Err? { return Err(Api(made.error)); }
      cr.statusId := made.value.id;
      cr.externalName := id;
      r := Ok(Details(baseUrl, made.value.id));
    }

    method Update(cr: Resource<Params>, kube: Kube, net: ServerNet) returns (r: Result<ConnectionDetails, Failure>)
      modifies cr`statusId, servers
      ensures Outcome(cr.Value(), servers.records, r)
           == AfterUpdate(old(cr.Value()), ServerIds.DeterministicId(hash, cr.key), baseUrl, old(servers.records), kube, net)
    {
      var id := ServerIds.DeterministicId(hash, cr.key);
      var team := TeamResolve.Resolve(kube, cr.key.namespace, cr.spec.teamRef);
      if team.Err? { return Err(team.error); }
      var put := servers.Put(id, ToUpdate(cr.Value(), team.value), net.update, false, net.put);
      if put.Err? { return Err(Api(put.error)); }
      cr.statusId := put.value.id;
      r := Ok(Details(baseUrl, id));
    }

    method Delete(cr: Resource<Params>, net: ServerNet) returns (r: Result<(), Failure>)
      modifies servers
      ensures Outcome(cr.Value(), servers.records, r)
           == AfterDelete(old(cr.Value()), ServerIds.DeterministicId(hash, cr.key), old(servers.records), net)
    {
      var id := ServerIds.DeterministicId(hash, cr.key);
      var gone := servers.Delete(id, net.delete);
      if gone.Err? { return Err(Api(gone.error)); }
      r := Ok(());
    }
  }
}
