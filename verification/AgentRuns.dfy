/** The agent controller is a controller of named records, so what holds for every such
    controller over whole sequences of operations holds for agents. */
module AgentRuns {
  import opened Wrappers
  import opened Remote
  import opened Managed
  import opened Json
  import opened Wire
  import opened AuthResolve
  import opened NamedRecords
  import opened AgentClient
  import opened AgentController
  import opened AgentProperties
  import TeamResolve
  import N = NamedController

  /** The spec is valid, and the Team and the credentials can be had. */
  predicate Ready(cr: AgentCr, kube: Kube)
  {
    ValidParams(cr.spec) && TeamResolve.Resolve(kube, cr.key.namespace, cr.spec.teamRef).Ok? &&
    Resolved(kube, cr.key.namespace, cr.spec.auth).Ok?
  }

  function TeamId(cr: AgentCr, kube: Kube): string
    requires Ready(cr, kube)
  {
    TeamResolve.Resolve(kube, cr.key.namespace, cr.spec.teamRef).value
  }

  function Credentials(cr: AgentCr, kube: Kube): Auth
    requires Ready(cr, kube)
  {
    Resolved(kube, cr.key.namespace, cr.spec.auth).value
  }

  /** Why the Team is not ready, if it is not. */
  function Waits(cr: AgentCr, kube: Kube): Option<Failure>
  {
    match TeamResolve.Resolve(kube, cr.key.namespace, cr.spec.teamRef) case Ok(_) => None case Err(e) => Some(e)
  }

  /** What keeps a request from being sent: the Team comes before the credentials. A
      resource whose spec is not valid is not admitted, so it does not matter what stands
      here for it. */
  function Obstacle(cr: AgentCr, kube: Kube): Failure
  {
    if Waits(cr, kube).Some? then Waits(cr, kube).value
    else if !ValidParams(cr.spec) then KubeFailed
    else match Resolved(kube, cr.key.namespace, cr.spec.auth) case Err(e) => e case Ok(_) => KubeFailed
  }

  function CreateIfReady(cr: AgentCr, read: NumberReader, kube: Kube): Result<AgentCreate, Failure>
  {
    if Ready(cr, kube) then Ok(ToCreate(cr, TeamId(cr, kube), Credentials(cr, kube), read)) else Err(Obstacle(cr, kube))
  }

  function UpdateIfReady(cr: AgentCr, read: NumberReader, kube: Kube): Result<AgentUpdate, Failure>
  {
    if Ready(cr, kube) then Ok(ToUpdate(cr, TeamId(cr, kube), Credentials(cr, kube), read)) else Err(Obstacle(cr, kube))
  }

  predicate UpToDateIfReady(cr: AgentCr, read: NumberReader, kube: Kube, a: Agent)
  {
    match TeamResolve.Resolve(kube, cr.key.namespace, cr.spec.teamRef)
    case Ok(teamId) => IsUpToDate(cr, teamId, a, read)
    case Err(_) => false
  }

  function Observed(cr: AgentCr, store: Agents, read: NumberReader, kube: Kube, net: AgentNet): (AgentCr, Result<Observation, Failure>)
  {
    var o := AfterObserve(cr, store, read, kube, net);
    (o.cr, o.result)
  }

  function CreatedOrNot(cr: AgentCr, store: Agents, read: NumberReader, kube: Kube, net: AgentNet): (AgentCr, Agents, Result<(), Failure>)
  {
    if !ValidParams(cr.spec) then (cr, store, Err(Obstacle(cr, kube))) else
      var o := AfterCreate(cr, store, read, kube, net);
      (o.cr, o.store, o.result)
  }

  function UpdatedOrNot(cr: AgentCr, store: Agents, read: NumberReader, kube: Kube, net: AgentNet): (AgentCr, Agents, Result<(), Failure>)
  {
    if !ValidParams(cr.spec) then (cr, store, Err(Obstacle(cr, kube))) else
      var o := AfterUpdate(cr, store, read, kube, net);
      (o.cr, o.store, o.result)
  }

  function DeletedBy(cr: AgentCr, store: Agents, net: AgentNet): (Agents, Result<(), Failure>)
  {
    var o := AfterDelete(cr, store, net);
    (o.store, o.result)
  }

  /** The agent controller, as a controller of named records. */
  ghost function Control(read: NumberReader): N.Controller<Params, AgentCreate, AgentUpdate, AgentBody>
  {
    N.Controller(
      (cr: AgentCr) => ResolvedName(cr), (cr, kube) => Waits(cr, kube),
      (cr, kube) => CreateIfReady(cr, read, kube), (cr, kube) => UpdateIfReady(cr, read, kube),
      (cr, kube, a) => UpToDateIfReady(cr, read, kube, a), (cr, a) => CanConverge(cr, a, read), (net: AgentNet) => Honours(net),
      (cr, store, kube, net) => Observed(cr, store, read, kube, net), (cr, store, kube, net) => CreatedOrNot(cr, store, read, kube, net),
      (cr, store, kube, net) => UpdatedOrNot(cr, store, read, kube, net), (cr, store, net) => DeletedBy(cr, store, net))
  }

  // ---------- The laws ----------

  lemma CreateIsLawful(cr: AgentCr, store: Agents, read: NumberReader, kube: Kube, net: AgentNet)
    ensures N.Creates(Control(read), cr, store, kube, net)
  {
  }

  lemma UpdateIsLawful(cr: AgentCr, store: Agents, read: NumberReader, kube: Kube, net: AgentNet)
    ensures N.Updates(Control(read), cr, store, kube, net)
  {
  }

  lemma ObserveIsLawful(cr: AgentCr, store: Agents, read: NumberReader, kube: Kube, net: AgentNet)
    ensures N.Observes(Control(read), cr, store, kube, net)
  {
  }

  lemma OperationsAreLawful(read: NumberReader)
    ensures N.CreatesOrAdopts(Control(read)) && N.ObservesByExternalName(Control(read))
    ensures N.UpdatesByExternalName(Control(read)) && N.DeletesByExternalName(Control(read))
  {
    forall cr, store, kube, net ensures N.Creates(Control(read), cr, store, kube, net) { CreateIsLawful(cr, store, read, kube, net); }
    forall cr, store, kube, net ensures N.Observes(Control(read), cr, store, kube, net) { ObserveIsLawful(cr, store, read, kube, net); }
    forall cr, store, kube, net ensures N.Updates(Control(read), cr, store, kube, net) { UpdateIsLawful(cr, store, read, kube, net); }
    forall cr, store, net ensures N.Deletes(Control(read), cr, store, net) { }
  }

  lemma Asks(read: NumberReader)
    ensures N.AsksForTheName(Control(read))
  {
    forall cr, kube, net: AgentNet | Honours(net) && CreateIfReady(cr, read, kube).Ok?
      ensures net.create(CreateIfReady(cr, read, kube).value).name == ResolvedName(cr)
    {
      assert Created(CreateIfReady(cr, read, kube).value, net.create(CreateIfReady(cr, read, kube).value));
    }
  }

  lemma Waiting(read: NumberReader)
    ensures N.WaitsForTheTeam(Control(read))
  {
  }

  lemma SamePayloads(cr: AgentCr, base: AgentCr, read: NumberReader, kube: Kube)
    requires N.SameResource(cr, base)
    ensures CreateIfReady(cr, read, kube) == CreateIfReady(base, read, kube) && UpdateIfReady(cr, read, kube) == UpdateIfReady(base, read, kube)
  {
    assert Ready(cr, kube) == Ready(base, kube) && Waits(cr, kube) == Waits(base, kube);
    if Ready(cr, kube) {
      assert TeamId(cr, kube) == TeamId(base, kube) && Credentials(cr, kube) == Credentials(base, kube);
    }
  }

  lemma DependsOnTheResource(read: NumberReader)
    ensures N.IgnoresIds(Control(read))
  {
    forall cr: AgentCr, base: AgentCr, kube | N.SameResource(cr, base)
      ensures Control(read).toCreate(cr, kube) == Control(read).toCreate(base, kube)
    {
      SamePayloads(cr, base, read, kube);
    }
    forall cr: AgentCr, base: AgentCr, kube | N.SameResource(cr, base)
      ensures Control(read).toUpdate(cr, kube) == Control(read).toUpdate(base, kube)
    {
      SamePayloads(cr, base, read, kube);
    }
    assert forall cr: AgentCr, base: AgentCr | N.SameResource(cr, base) :: Control(read).name(cr) == Control(read).name(base);
  }

  lemma Checks(read: NumberReader)
    ensures N.ChecksTheName(Control(read))
  {
  }

  lemma UpToDateCanConverge(cr: AgentCr, teamId: string, a: Agent, read: NumberReader)
    requires IsUpToDate(cr, teamId, a, read)
    ensures CanConverge(cr, a, read)
  {
    var tags, headers := Labels(a.body.tags), a.body.passthroughHeaders;
    assert tags != [] ==> tags[0] in multiset(tags);
    assert headers != [] ==> headers[0] in multiset(headers);
  }

  lemma UpdateConverges(cr: AgentCr, read: NumberReader, kube: Kube, net: AgentNet, a: Agent)
    requires Honours(net) && Ready(cr, kube)
    ensures N.UpdateConverges(Control(read), cr, kube, a, net.update(UpdateIfReady(cr, read, kube).value, a))
  {
    var u := UpdateIfReady(cr, read, kube).value;
    assert Updated(u, a, net.update(u, a));
    UpdateConvergesExactly(cr, TeamId(cr, kube), Credentials(cr, kube), read, a, net.update(u, a));
    if IsUpToDate(cr, TeamId(cr, kube), a, read) { UpToDateCanConverge(cr, TeamId(cr, kube), a, read); }
  }

  /** The agent controller obeys the laws. */
  lemma IsLawful(read: NumberReader)
    ensures N.Lawful(Control(read))
  {
    OperationsAreLawful(read);
    Asks(read);
    Waiting(read);
    DependsOnTheResource(read);
    Checks(read);
    forall cr, kube, net: AgentNet, a | Honours(net) && UpdateIfReady(cr, read, kube).Ok?
      ensures N.UpdateConverges(Control(read), cr, kube, a, net.update(UpdateIfReady(cr, read, kube).value, a))
    {
      UpdateConverges(cr, read, kube, net, a);
    }
  }
}
