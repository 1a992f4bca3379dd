/** The gateway controller is a controller of named records, so what holds for every such
    controller over whole sequences of operations holds for gateways. */
module GatewayRuns {
  import opened Wrappers
  import opened Remote
  import opened Managed
  import opened Wire
  import opened AuthResolve
  import opened NamedRecords
  import opened GatewayClient
  import opened GatewayController
  import opened GatewayProperties
  import TeamResolve
  import R = NamedReconciles
  import N = NamedController

  /** The spec is valid, and the Team and the credentials can be had. */
  predicate Ready(cr: GatewayCr, kube: Kube)
  {
    ValidParams(cr.spec) && TeamResolve.Resolve(kube, cr.key.namespace, cr.spec.teamRef).Ok? &&
    Resolved(kube, cr.key.namespace, cr.spec.auth).Ok?
  }

  function TeamId(cr: GatewayCr, kube: Kube): string
    requires Ready(cr, kube)
  {
    TeamResolve.Resolve(kube, cr.key.namespace, cr.spec.teamRef).value
  }

  function Credentials(cr: GatewayCr, kube: Kube): Auth
    requires Ready(cr, kube)
  {
    Resolved(kube, cr.key.namespace, cr.spec.auth).value
  }

  /** Why the Team is not ready, if it is not. */
  function Waits(cr: GatewayCr, kube: Kube): Option<Failure>
  {
    match TeamResolve.Resolve(kube, cr.key.namespace, cr.spec.teamRef) case Ok(_) => None case Err(e) => Some(e)
  }

  /** What keeps a request from being sent: the Team comes before the credentials. A
      resource whose spec is not valid is not admitted, so it does not matter what stands
      here for it. */
  function Obstacle(cr: GatewayCr, kube: Kube): Failure
  {
    if Waits(cr, kube).Some? then Waits(cr, kube).value
    else if !ValidParams(cr.spec) then KubeFailed
    else match Resolved(kube, cr.key.namespace, cr.spec.auth) case Err(e) => e case Ok(_) => KubeFailed
  }

  function CreateIfReady(cr: GatewayCr, kube: Kube): Result<GatewayCreate, Failure>
  {
    if Ready(cr, kube) then Ok(ToCreate(cr, TeamId(cr, kube), Credentials(cr, kube))) else Err(Obstacle(cr, kube))
  }

  function UpdateIfReady(cr: GatewayCr, kube: Kube): Result<GatewayUpdate, Failure>
  {
    if Ready(cr, kube) then Ok(ToUpdate(cr, TeamId(cr, kube), Credentials(cr, kube))) else Err(Obstacle(cr, kube))
  }

  predicate UpToDateIfReady(cr: GatewayCr, kube: Kube, g: Gateway)
  {
    match TeamResolve.Resolve(kube, cr.key.namespace, cr.spec.teamRef)
    case Ok(teamId) => IsUpToDate(cr, teamId, g)
    case Err(_) => false
  }

  function Observed(cr: GatewayCr, store: Gateways, kube: Kube, net: GatewayNet): (GatewayCr, Result<Observation, Failure>)
  {
    var o := AfterObserve(cr, store, kube, net);
    (o.cr, o.result)
  }

  function CreatedOrNot(cr: GatewayCr, store: Gateways, kube: Kube, net: GatewayNet): (GatewayCr, Gateways, Result<(), Failure>)
  {
    if !ValidParams(cr.spec) then (cr, store, Err(Obstacle(cr, kube))) else
      var o := AfterCreate(cr, store, kube, net);
      (o.cr, o.store, o.result)
  }

  function UpdatedOrNot(cr: GatewayCr, store: Gateways, kube: Kube, net: GatewayNet): (GatewayCr, Gateways, Result<(), Failure>)
  {
    if !ValidParams(cr.spec) then (cr, store, Err(Obstacle(cr, kube))) else
      var o := AfterUpdate(cr, store, kube, net);
      (o.cr, o.store, o.result)
  }

  function DeletedBy(cr: GatewayCr, store: Gateways, net: GatewayNet): (Gateways, Result<(), Failure>)
  {
    var o := AfterDelete(cr, store, net);
    (o.store, o.result)
  }

  /** The gateway controller, as a controller of named records. */
  ghost function Control(): N.Controller<Params, GatewayCreate, GatewayUpdate, GatewayBody>
  {
    N.Controller(
      (cr: GatewayCr) => ResolvedName(cr), (cr, kube) => Waits(cr, kube),
      (cr, kube) => CreateIfReady(cr, kube), (cr, kube) => UpdateIfReady(cr, kube),
      (cr, kube, g) => UpToDateIfReady(cr, kube, g), (cr, g) => CanConverge(cr, g), (net: GatewayNet) => Honours(net),
      (cr, store, kube, net) => Observed(cr, store, kube, net), (cr, store, kube, net) => CreatedOrNot(cr, store, kube, net),
      (cr, store, kube, net) => UpdatedOrNot(cr, store, kube, net), (cr, store, net) => DeletedBy(cr, store, net))
  }

  // ---------- The laws ----------

  lemma CreateIsLawful(cr: GatewayCr, store: Gateways, kube: Kube, net: GatewayNet)
    ensures N.Creates(Control(), cr, store, kube, net)
  {
  }

  lemma UpdateIsLawful(cr: GatewayCr, store: Gateways, kube: Kube, net: GatewayNet)
    ensures N.Updates(Control(), cr, store, kube, net)
  {
  }

  lemma ObserveIsLawful(cr: GatewayCr, store: Gateways, kube: Kube, net: GatewayNet)
    ensures N.Observes(Control(), cr, store, kube, net)
  {
  }

  lemma OperationsAreLawful()
    ensures N.CreatesOrAdopts(Control()) && N.ObservesByExternalName(Control())
    ensures N.UpdatesByExternalName(Control()) && N.DeletesByExternalName(Control())
  {
    forall cr, store, kube, net ensures N.Creates(Control(), cr, store, kube, net) { CreateIsLawful(cr, store, kube, net); }
    forall cr, store, kube, net ensures N.Observes(Control(), cr, store, kube, net) { ObserveIsLawful(cr, store, kube, net); }
    forall cr, store, kube, net ensures N.Updates(Control(), cr, store, kube, net) { UpdateIsLawful(cr, store, kube, net); }
    forall cr, store, net ensures N.Deletes(Control(), cr, store, net) { }
  }

  lemma Asks()
    ensures N.AsksForTheName(Control())
  {
    forall cr, kube, net: GatewayNet | Honours(net) && CreateIfReady(cr, kube).Ok?
      ensures net.create(CreateIfReady(cr, kube).value).name == ResolvedName(cr)
    {
      assert Created(CreateIfReady(cr, kube).value, net.create(CreateIfReady(cr, kube).value));
    }
  }

  lemma Waiting()
    ensures N.WaitsForTheTeam(Control())
  {
  }

  lemma SamePayloads(cr: GatewayCr, base: GatewayCr, kube: Kube)
    requires N.SameResource(cr, base)
    ensures CreateIfReady(cr, kube) == CreateIfReady(base, kube) && UpdateIfReady(cr, kube) == UpdateIfReady(base, kube)
  {
    assert Ready(cr, kube) == Ready(base, kube) && Waits(cr, kube) == Waits(base, kube);
    if Ready(cr, kube) {
      assert TeamId(cr, kube) == TeamId(base, kube) && Credentials(cr, kube) == Credentials(base, kube);
    }
  }

  lemma DependsOnTheResource()
    ensures N.IgnoresIds(Control())
  {
    forall cr: GatewayCr, base: GatewayCr, kube | N.SameResource(cr, base)
      ensures Control().toCreate(cr, kube) == Control().toCreate(base, kube)
    {
      SamePayloads(cr, base, kube);
    }
    forall cr: GatewayCr, base: GatewayCr, kube | N.SameResource(cr, base)
      ensures Control().toUpdate(cr, kube) == Control().toUpdate(base, kube)
    {
      SamePayloads(cr, base, kube);
    }
    assert forall cr: GatewayCr, base: GatewayCr | N.SameResource(cr, base) :: Control().name(cr) == Control().name(base);
  }

  lemma Checks()
    ensures N.ChecksTheName(Control())
  {
  }

  lemma UpdateConverges(cr: GatewayCr, kube: Kube, net: GatewayNet, g: Gateway)
    requires Honours(net) && Ready(cr, kube)
    ensures N.UpdateConverges(Control(), cr, kube, g, net.update(UpdateIfReady(cr, kube).value, g))
  {
    var u := UpdateIfReady(cr, kube).value;
    assert Updated(u, g, net.update(u, g));
    UpdateConvergesExactly(cr, TeamId(cr, kube), Credentials(cr, kube), g, net.update(u, g));
    SameElementsAsNone(g.body.tags);
  }

  /** The gateway controller obeys the laws. */
  lemma IsLawful()
    ensures N.Lawful(Control())
  {
    OperationsAreLawful();
    Asks();
    Waiting();
    DependsOnTheResource();
    Checks();
    forall cr, kube, net: GatewayNet, g | Honours(net) && UpdateIfReady(cr, kube).Ok?
      ensures N.UpdateConverges(Control(), cr, kube, g, net.update(UpdateIfReady(cr, kube).value, g))
    {
      UpdateConverges(cr, kube, net, g);
    }
  }

  // ---------- What follows ----------

  lemma MadeCanConverge(cr: GatewayCr, kube: Kube, net: GatewayNet)
    requires Ready(cr, kube) && Honours(net)
    ensures CanConverge(cr, N.Asked(Control(), cr, kube, net))
  {
    var q := CreateIfReady(cr, kube).value;
    assert Created(q, net.create(q));
    CreatedIsUpToDate(cr, TeamId(cr, kube), Credentials(cr, kube), net.create(q));
    SameElementsAsNone(net.create(q).body.tags);
  }

  /** A gateway that the remote makes as asked can converge, so a resource to whose
      external name no gateway answers settles exactly when the gateway of its name, if
      the remote has one, can converge. */
  lemma {:induction false} LostSettlesExactly(cr: GatewayCr, store: Gateways, kube: Kube,
        passes: seq<N.Pass<GatewayCreate, GatewayUpdate, GatewayBody>>)
    requires Ready(cr, kube) && !cr.deleted && Sound(ResolvedName(cr), store) && R.Lost(cr.externalName, store)
    requires |passes| >= 3 && N.AllCalm(Control(), passes)
    requires R.HonestPasses(ResolvedName(cr), N.UpToDate(Control(), cr, kube), cr.externalName, store,
                            N.RecordPasses(Control(), cr, kube, passes))
    ensures N.LastAction(Control(), cr, store, kube, passes).Rest? <==>
            forall k | k in Holders(store, ResolvedName(cr)) :: CanConverge(cr, store[k])
  {
    IsLawful();
    N.SettlesExactly(Control(), cr, store, kube, passes);
    MadeCanConverge(cr, kube, passes[0].act);
  }
}
