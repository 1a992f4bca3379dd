/** Virtual servers as the remote holds them, and the requests about them. */
module ServerClient {
  import opened Wrappers
  import opened Remote
  import opened Wire

  datatype Server = Server(
    id: string,
    name: string,
    description: string,
    icon: string,
    teamId: string,
    visibility: string,
    tags: seq<Tag>,
    tools: seq<string>,
    resources: seq<string>,
    prompts: seq<string>,
    agents: seq<string>)

  datatype ServerCreate = ServerCreate(
    id: string,
    name: string,
    description: Option<string>,
    icon: Option<string>,
    tags: Slice,
    tools: Slice,
    resources: Slice,
    prompts: Slice,
    agents: Slice)

  datatype ServerUpdate = ServerUpdate(
    name: Option<string>,
    description: Option<string>,
    icon: Option<string>,
    teamId: Option<string>,
    visibility: Option<string>,
    tags: Slice,
    tools: Slice,
    resources: Slice,
    prompts: Slice,
    agents: Slice)

  /** The body of a create request. */
  datatype CreateRequest = CreateRequest(teamId: string, visibility: string, server: ServerCreate)

  type ServerNet = Net<CreateRequest, ServerUpdate, Server>

  /** The record a remote may keep after accepting a create request. */
  ghost predicate Created(q: CreateRequest, s: Server)
  {
    var c := q.server;
    (c.id != "" ==> s.id == c.id) && s.name == c.name && s.teamId == q.teamId && s.visibility == q.visibility &&
    s.description == c.description.GetOr(s.description) && s.icon == c.icon.GetOr(s.icon) &&
    Keeps(Always(c.tags), [], Labels(s.tags)) && Keeps(OmitEmpty(c.tools), [], s.tools) &&
    Keeps(OmitEmpty(c.resources), [], s.resources) && Keeps(OmitEmpty(c.prompts), [], s.prompts) &&
    Keeps(OmitEmpty(c.agents), [], s.agents)
  }

  /** The record a remote may keep after accepting an update of s: exactly the fields
      in the body are overwritten. */
  ghost predicate Updated(u: ServerUpdate, s: Server, t: Server)
  {
    t.id == s.id && t.name == u.name.GetOr(s.name) && t.description == u.description.GetOr(s.description) &&
    t.icon == u.icon.GetOr(s.icon) && t.teamId == u.teamId.GetOr(s.teamId) &&
    t.visibility == u.visibility.GetOr(s.visibility) &&
    Keeps(Always(u.tags), Labels(s.tags), Labels(t.tags)) && Keeps(Always(u.tools), s.tools, t.tools) &&
    Keeps(Always(u.resources), s.resources, t.resources) && Keeps(Always(u.prompts), s.prompts, t.prompts) &&
    Keeps(Always(u.agents), s.agents, t.agents)
  }

  /** The remote does what the requests ask. */
  ghost predicate Honours(net: ServerNet)
  {
    (forall q :: Created(q, net.create(q))) && (forall u, s :: Updated(u, s, net.update(u, s)))
  }

  /** The same record, up to the order of its lists. */
  ghost predicate SameUpToOrder(s: Server, t: Server)
  {
    t == s.(tags := t.tags, tools := t.tools, resources := t.resources, prompts := t.prompts, agents := t.agents) &&
    multiset(Labels(s.tags)) == multiset(Labels(t.tags)) && multiset(s.tools) == multiset(t.tools) &&
    multiset(s.resources) == multiset(t.resources) && multiset(s.prompts) == multiset(t.prompts) &&
    multiset(s.agents) == multiset(t.agents)
  }
}
