/** Gateways as the remote holds them, and the requests about them. */
module GatewayClient {
  import opened Wrappers
  import opened Remote
  import opened Wire
  import opened AuthResolve
  import opened NamedRecords

  /** What a gateway holds besides id, name and slug. The credentials are write-only. */
  datatype GatewayBody = GatewayBody(
    url: string,
    description: string,
    transport: string,
    teamId: string,
    visibility: string,
    tags: seq<string>,
    auth: Auth)

  type Gateway = Named<GatewayBody>

  datatype GatewayCreate = GatewayCreate(
    name: string,
    url: string,
    description: Option<string>,
    transport: string,
    teamId: string,
    visibility: string,
    tags: Slice,
    auth: Auth)

  datatype GatewayUpdate = GatewayUpdate(
    name: Option<string>,
    url: Option<string>,
    description: Option<string>,
    transport: Option<string>,
    teamId: Option<string>,
    visibility: Option<string>,
    tags: Slice,
    auth: Auth)

  type GatewayNet = Net<GatewayCreate, GatewayUpdate, Gateway>

  /** The record a remote may keep after accepting a create request. */
  ghost predicate Created(q: GatewayCreate, g: Gateway)
  {
    g.name == q.name && g.body.url == q.url && g.body.transport == q.transport && g.body.teamId == q.teamId &&
    g.body.visibility == q.visibility && g.body.description == q.description.GetOr(g.body.description) &&
    Keeps(OmitEmpty(q.tags), [], g.body.tags) && g.body.auth == AuthAfter(NO_AUTH, q.auth)
  }

  /** The record a remote may keep after accepting an update of g: exactly the fields in
      the body are overwritten; a slug may follow a new name. */
  ghost predicate Updated(u: GatewayUpdate, g: Gateway, h: Gateway)
  {
    h.id == g.id && h.name == u.name.GetOr(g.name) && (h.name == g.name ==> h.slug == g.slug) &&
    h.body.url == u.url.GetOr(g.body.url) && h.body.description == u.description.GetOr(g.body.description) &&
    h.body.transport == u.transport.GetOr(g.body.transport) && h.body.teamId == u.teamId.GetOr(g.body.teamId) &&
    h.body.visibility == u.visibility.GetOr(g.body.visibility) &&
    Keeps(OmitEmpty(u.tags), g.body.tags, h.body.tags) && h.body.auth == AuthAfter(g.body.auth, u.auth)
  }

  /** The remote does what the requests ask. */
  ghost predicate Honours(net: GatewayNet)
  {
    (forall q :: Created(q, net.create(q))) && (forall u, g :: Updated(u, g, net.update(u, g)))
  }
}
