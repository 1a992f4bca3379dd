/** A2A agents as the remote holds them, and the requests about them. */
module AgentClient {
  import opened Wrappers
  import opened Json
  import opened Remote
  import opened Wire
  import opened AuthResolve
  import opened NamedRecords

  /** What an agent holds besides id, name and slug. A map is None when the remote
      answers null or leaves it out. The credentials are write-only. */
  datatype AgentBody = AgentBody(
    endpointUrl: string,
    description: string,
    agentType: string,
    protocolVersion: string,
    capabilities: Option<JsonMap>,
    config: Option<JsonMap>,
    teamId: string,
    visibility: string,
    tags: seq<Tag>,
    passthroughHeaders: seq<string>,
    auth: Auth)

  type Agent = Named<AgentBody>

  datatype AgentCreate = AgentCreate(
    name: string,
    endpointUrl: string,
    description: Option<string>,
    agentType: Option<string>,
    protocolVersion: Option<string>,
    teamId: string,
    visibility: string,
    tags: Slice,
    capabilities: Option<JsonMap>,
    config: Option<JsonMap>,
    passthroughHeaders: Slice,
    auth: Auth)

  datatype AgentUpdate = AgentUpdate(
    name: Option<string>,
    endpointUrl: Option<string>,
    description: Option<string>,
    agentType: Option<string>,
    protocolVersion: Option<string>,
    teamId: Option<string>,
    visibility: Option<string>,
    tags: Slice,
    capabilities: Option<JsonMap>,
    config: Option<JsonMap>,
    passthroughHeaders: Slice,
    auth: Auth)

  type AgentNet = Net<AgentCreate, AgentUpdate, Agent>

  /** The record a remote may keep after accepting a create request. */
  ghost predicate Created(q: AgentCreate, a: Agent)
  {
    var b := a.body;
    a.name == q.name && b.endpointUrl == q.endpointUrl && b.description == q.description.GetOr(b.description) &&
    b.agentType == q.agentType.GetOr(b.agentType) && b.protocolVersion == q.protocolVersion.GetOr(b.protocolVersion) &&
    b.teamId == q.teamId && b.visibility == q.visibility &&
    (OmitEmptyMap(q.capabilities).Some? ==> b.capabilities == q.capabilities) &&
    (OmitEmptyMap(q.config).Some? ==> b.config == q.config) &&
    Keeps(OmitEmpty(q.tags), [], Labels(b.tags)) && Keeps(OmitEmpty(q.passthroughHeaders), [], b.passthroughHeaders) &&
    b.auth == AuthAfter(NO_AUTH, q.auth)
  }

  /** The record a remote may keep after accepting an update of a: exactly the fields in
      the body are overwritten; a slug may follow a new name. */
  ghost predicate Updated(u: AgentUpdate, a: Agent, a': Agent)
  {
    var b, b' := a.body, a'.body;
    a'.id == a.id && a'.name == u.name.GetOr(a.name) && (a'.name == a.name ==> a'.slug == a.slug) &&
    b'.endpointUrl == u.endpointUrl.GetOr(b.endpointUrl) && b'.description == u.description.GetOr(b.description) &&
    b'.agentType == u.agentType.GetOr(b.agentType) && b'.protocolVersion == u.protocolVersion.GetOr(b.protocolVersion) &&
    b'.teamId == u.teamId.GetOr(b.teamId) && b'.visibility == u.visibility.GetOr(b.visibility) &&
    b'.capabilities == (if OmitEmptyMap(u.capabilities).Some? then u.capabilities else b.capabilities) &&
    b'.config == (if OmitEmptyMap(u.config).Some? then u.config else b.config) &&
    Keeps(OmitEmpty(u.tags), Labels(b.tags), Labels(b'.tags)) &&
    Keeps(OmitEmpty(u.passthroughHeaders), b.passthroughHeaders, b'.passthroughHeaders) &&
    b'.auth == AuthAfter(b.auth, u.auth)
  }

  /** The remote does what the requests ask. */
  ghost predicate Honours(net: AgentNet)
  {
    (forall q :: Created(q, net.create(q))) && (forall u, a :: Updated(u, a, net.update(u, a)))
  }
}
