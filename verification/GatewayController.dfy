/** The gateway controller. */
module GatewayController {
  import opened Wrappers
  import opened SliceUtil
  import opened Remote
  import opened Managed
  import opened Wire
  import opened NamedRecords
  import opened GatewayClient
  import opened AuthResolve
  import TeamResolve

  datatype Params = Params(
    name: Option<string>,
    url: string,
    description: Option<string>,
    transport: string,
    teamRef: string,
    visibility: string,
    tags: Slice,
    auth: Option<AuthConfig>)

  type GatewayCr = Cr<Params>

  type Gateways = map<string, Gateway>

  /** The validation rules of the resource definition. */
  predicate ValidParams(p: Params)
  {
    p.auth.Some? ==> Valid(p.auth.value)
  }

  function ResolvedName(cr: GatewayCr): string
  {
    cr.spec.name.GetOr(cr.key.name)
  }

  function ToCreate(cr: GatewayCr, teamId: string, auth: Auth): GatewayCreate
  {
    var p := cr.spec;
    GatewayCreate(ResolvedName(cr), p.url, p.description, p.transport, teamId, p.visibility, p.tags, auth)
  }

  function ToUpdate(cr: GatewayCr, teamId: string, auth: Auth): GatewayUpdate
  {
    var p := cr.spec;
    GatewayUpdate(Some(ResolvedName(cr)), Some(p.url), p.description, Some(p.transport), Some(teamId),
                  Some(p.visibility), p.tags, auth)
  }

  predicate IsUpToDate(cr: GatewayCr, teamId: string, g: Gateway)
  {
    ResolvedName(cr) == g.name && teamId == g.body.teamId &&
    (cr.spec.description.Some? ==> cr.spec.description.value == g.body.description) &&
    cr.spec.transport == g.body.transport && cr.spec.visibility == g.body.visibility &&
    SameElements(cr.spec.tags.List(), g.body.tags)
  }

  // ---------- The four operations, as functions of what they find ----------

  /** Where an operation leaves the resource and the remote, and what it reports. */
  datatype Outcome<T> = Outcome(cr: GatewayCr, store: Gateways, result: Result<T, Failure>)

  function AfterObserve(cr: GatewayCr, store: Gateways, kube: Kube, net: GatewayNet): Outcome<Observation>
  {
    if cr.externalName == "" then Outcome(cr, store, Ok(ABSENT)) else
      match GetOutcome(store, net.hit, net.get)
      case Err(NotFound) => Outcome(cr, store, Ok(ABSENT))
      case Err(e) => Outcome(cr, store, Err(Api(e)))
      case Ok(g) =>
        var seen := cr.(statusId := g.id);
        if cr.deleted then Outcome(seen, store, Ok(Observation(true, false, None)))
        else
          match TeamResolve.Resolve(kube, cr.key.namespace, cr.spec.teamRef)
          case Err(e) => Outcome(seen, store, Err(e))
          case Ok(teamId) => Outcome(seen, store, Ok(Observation(true, IsUpToDate(cr, teamId, g), None)))
  }

  function AfterCreate(cr: GatewayCr, store: Gateways, kube: Kube, net: GatewayNet): Outcome<()>
    requires ValidParams(cr.spec)
  {
    match TeamResolve.Resolve(kube, cr.key.namespace, cr.spec.teamRef)
    case Err(e) => Outcome(cr, store, Err(e))
    case Ok(teamId) =>
      match Resolved(kube, cr.key.namespace, cr.spec.auth)
      case Err(e) => Outcome(cr, store, Err(e))
      case Ok(auth) =>
        var made := CreateOrAdopt(store, ResolvedName(cr), net.create(ToCreate(cr, teamId, auth)), net.hit, net.post, net.get);
        match made.result
        case Err(e) => Outcome(cr, made.store, Err(Api(e)))
        case Ok(g) => Outcome(cr.(externalName := g.id, statusId := g.id), made.store, Ok(()))
  }

  function AfterUpdate(cr: GatewayCr, store: Gateways, kube: Kube, net: GatewayNet): Outcome<()>
    requires ValidParams(cr.spec)
  {
    match TeamResolve.Resolve(kube, cr.key.namespace, cr.spec.teamRef)
    case Err(e) => Outcome(cr, store, Err(e))
    case Ok(teamId) =>
      match Resolved(kube, cr.key.namespace, cr.spec.auth)
      case Err(e) => Outcome(cr, store, Err(e))
      case Ok(auth) =>
        var put := PutOutcome(store, cr.externalName, ToUpdate(cr, teamId, auth), net.update,
                              NameTakenByOther(store, cr.externalName, ResolvedName(cr)), net.put);
        match put.result
        case Err(e) => Outcome(cr, put.store, Err(Api(e)))
        case Ok(g) => Outcome(cr.(statusId := g.id), put.store, Ok(()))
  }

  function AfterDelete(cr: GatewayCr, store: Gateways, net: GatewayNet): Outcome<()>
  {
    Outcome(cr, StoreAfterDelete(store, cr.externalName, net.delete),
            match DeleteOutcome(net.delete) case Ok(_) => Ok(()) case Err(e) => Err(Api(e)))
  }

  // ---------- The controller ----------

  /** The controller's client of the remote, for one provider configuration. */
  class External {
    const gateways: Collection<Gateway>

    constructor (gateways: Collection<Gateway>)
      ensures this.gateways == gateways
    {
      this.gateways := gateways;
    }

    method Observe(cr: Resource<Params>, kube: Kube, net: GatewayNet) returns (r: Result<Observation, Failure>)
      modifies cr`statusId
      ensures Outcome(cr.Value(), gateways.records, r) == AfterObserve(old(cr.Value()), old(gateways.records), kube, net)
    {
      if cr.externalName == "" { return Ok(ABSENT); }
      var got := gateways.Get(net.hit, net.get);
      if got == Err(NotFound) { return Ok(ABSENT); }
      if got.Err? { return Err(Api(got.error)); }
      cr.statusId := got.value.id;
      if cr.deleted { return Ok(Observation(true, false, None)); }
      var team := TeamResolve.Resolve(kube, cr.key.namespace, cr.spec.teamRef);
      if team.Err? { return Err(team.error); }
      r := Ok(Observation(true, IsUpToDate(cr.Value(), team.value, got.value), None));
    }

    method Create(cr: Resource<Params>, kube: Kube, net: GatewayNet) returns (r: Result<(), Failure>)
      requires ValidParams(cr.spec)
      modifies cr`statusId, cr`externalName, gateways
      ensures Outcome(cr.Value(), gateways.records, r) == AfterCreate(old(cr.Value()), old(gateways.records), kube, net)
    {
      var team := TeamResolve.Resolve(kube, cr.key.namespace, cr.spec.teamRef);
      if team.Err? { return Err(team.error); }
      var auth := AuthResolve.Resolve(kube, cr.key.namespace, cr.spec.auth);
      if auth.Err? { return Err(auth.error); }
      var stored := net.create(ToCreate(cr.Value(), team.value, auth.value));
      var made := gateways.Post(stored.id, stored, NameTaken(gateways.records, ResolvedName(cr.Value())), net.post);
      if made == Err(Conflict) { made := gateways.Get(net.hit, net.get); }
      if made.Err? { return Err(Api(made.error)); }
      cr.externalName := made.value.id;
      cr.statusId := made.value.id;
      r := Ok(());
    }

    method Update(cr: Resource<Params>, kube: Kube, net: GatewayNet) returns (r: Result<(), Failure>)
      requires ValidParams(cr.spec)
      modifies cr`statusId, gateways
      ensures Outcome(cr.Value(), gateways.records, r) == AfterUpdate(old(cr.Value()), old(gateways.records), kube, net)
    {
      var id := cr.externalName;
      var team := TeamResolve.Resolve(kube, cr.key.namespace, cr.spec.teamRef);
      if team.Err? { return Err(team.error); }
      var auth := AuthResolve.Resolve(kube, cr.key.namespace, cr.spec.auth);
      if auth.Err? { return Err(auth.error); }
      var put := gateways.Put(id, ToUpdate(cr.Value(), team.value, auth.value), net.update,
                              NameTakenByOther(gateways.records, id, ResolvedName(cr.Value())), net.put);
      if put.Err? { return Err(Api(put.error)); }
      cr.statusId := put.value.id;
      r := Ok(());
    }

    method Delete(cr: Resource<Params>, net: GatewayNet) returns (r: Result<(), Failure>)
      modifies gateways
      ensures Outcome(cr.Value(), gateways.records, r) == AfterDelete(old(cr.Value()), old(gateways.records), net)
    {
      var gone := gateways.Delete(cr.externalName, net.delete);
      if gone.Err? { return Err(Api(gone.error)); }
      r := Ok(());
    }
  }
}
