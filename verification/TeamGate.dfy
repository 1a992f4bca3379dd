/** Teams and their children together: whatever the interleaving of the controllers,
    every request that a child sends carries the id of its Team, as the remote gave it. */
module TeamGate {
  import opened Wrappers
  import opened Remote
  import opened Managed
  import opened AuthResolve
  import opened Json
  import TeamClient
  import T = TeamController
  import SC = ServerClient
  import S = ServerController
  import GC = GatewayClient
  import G = GatewayController
  import AC = AgentClient
  import A = AgentController
  import TeamResolve

  // ---------- What a single operation stores ----------

  /** Every server that a Create makes or changes is stored under the Team's id. */
  lemma CreatedServerIsInItsTeam(cr: S.ServerCr, id: string, store: S.Store, kube: Kube, net: SC.ServerNet, k: string)
    requires SC.Honours(net)
    ensures var after := S.AfterCreate(cr, id, "", store, kube, net).store;
            k in after && (k !in store || after[k] != store[k]) ==>
              TeamResolve.Resolve(kube, cr.key.namespace, cr.spec.teamRef) == Ok(after[k].teamId)
  {
    var team := TeamResolve.Resolve(kube, cr.key.namespace, cr.spec.teamRef);
    if team.Ok? {
      var q := S.CreateBody(cr, team.value, id);
      assert SC.Created(q, net.create(q));
      assert net.create(q).teamId == team.value;
    }
  }

  /** So is every server that an Update changes. */
  lemma UpdatedServerIsInItsTeam(cr: S.ServerCr, id: string, store: S.Store, kube: Kube, net: SC.ServerNet, k: string)
    requires SC.Honours(net)
    ensures var after := S.AfterUpdate(cr, id, "", store, kube, net).store;
            k in after && (k !in store || after[k] != store[k]) ==>
              TeamResolve.Resolve(kube, cr.key.namespace, cr.spec.teamRef) == Ok(after[k].teamId)
  {
    var team := TeamResolve.Resolve(kube, cr.key.namespace, cr.spec.teamRef);
    if team.Ok? && id in store {
      var u := S.ToUpdate(cr, team.value);
      assert SC.Updated(u, store[id], net.update(u, store[id]));
      assert net.update(u, store[id]).teamId == team.value;
    }
  }

  /** So is every gateway that a Create makes or changes. */
  lemma CreatedGatewayIsInItsTeam(cr: G.GatewayCr, store: G.Gateways, kube: Kube, net: GC.GatewayNet, k: string)
    requires G.ValidParams(cr.spec) && GC.Honours(net)
    ensures var after := G.AfterCreate(cr, store, kube, net).store;
            k in after && (k !in store || after[k] != store[k]) ==>
              TeamResolve.Resolve(kube, cr.key.namespace, cr.spec.teamRef) == Ok(after[k].body.teamId)
  {
    var team := TeamResolve.Resolve(kube, cr.key.namespace, cr.spec.teamRef);
    var auth := Resolved(kube, cr.key.namespace, cr.spec.auth);
    if team.Ok? && auth.Ok? {
      var q := G.ToCreate(cr, team.value, auth.value);
      assert GC.Created(q, net.create(q));
      assert net.create(q).body.teamId == team.value;
    }
  }

  /** So is every gateway that an Update changes. */
  lemma UpdatedGatewayIsInItsTeam(cr: G.GatewayCr, store: G.Gateways, kube: Kube, net: GC.GatewayNet, k: string)
    requires G.ValidParams(cr.spec) && GC.Honours(net)
    ensures var after := G.AfterUpdate(cr, store, kube, net).store;
            k in after && (k !in store || after[k] != store[k]) ==>
              TeamResolve.Resolve(kube, cr.key.namespace, cr.spec.teamRef) == Ok(after[k].body.teamId)
  {
    var team := TeamResolve.Resolve(kube, cr.key.namespace, cr.spec.teamRef);
    var auth := Resolved(kube, cr.key.namespace, cr.spec.auth);
    if team.Ok? && auth.Ok? && cr.externalName in store {
      var u := G.ToUpdate(cr, team.value, auth.value);
      assert GC.Updated(u, store[cr.externalName], net.update(u, store[cr.externalName]));
      assert net.update(u, store[cr.externalName]).body.teamId == team.value;
    }
  }

  /** Of what an agent request asks, the team id alone. */
  ghost predicate HonoursTeam(net: AC.AgentNet)
  {
    (forall q :: net.create(q).body.teamId == q.teamId) &&
    (forall u, a :: net.update(u, a).body.teamId == u.teamId.GetOr(a.body.teamId))
  }

  lemma HonoursTeamToo(net: AC.AgentNet)
    requires AC.Honours(net)
    ensures HonoursTeam(net)
  {
    forall q ensures net.create(q).body.teamId == q.teamId { assert AC.Created(q, net.create(q)); }
    forall u, a ensures net.update(u, a).body.teamId == u.teamId.GetOr(a.body.teamId) {
      assert AC.Updated(u, a, net.update(u, a));
    }
  }

  lemma CreatedAgentHelper(cr: A.AgentCr, store: A.Agents, read: NumberReader, kube: Kube, net: AC.AgentNet, k: string)
    requires A.ValidParams(cr.spec) && HonoursTeam(net)
    ensures var after := A.AfterCreate(cr, store, read, kube, net).store;
            k in after && (k !in store || after[k] != store[k]) ==>
              TeamResolve.Resolve(kube, cr.key.namespace, cr.spec.teamRef) == Ok(after[k].body.teamId)
  {
  }

  lemma UpdatedAgentHelper(cr: A.AgentCr, store: A.Agents, read: NumberReader, kube: Kube, net: AC.AgentNet, k: string)
    requires A.ValidParams(cr.spec) && HonoursTeam(net)
    ensures var after := A.AfterUpdate(cr, store, read, kube, net).store;
            k in after && (k !in store || after[k] != store[k]) ==>
              TeamResolve.Resolve(kube, cr.key.namespace, cr.spec.teamRef) == Ok(after[k].body.teamId)
  {
  }

  /** So is every agent that a Create or an Update makes or changes. */
  lemma AgentIsInItsTeam(cr: A.AgentCr, store: A.Agents, read: NumberReader, kube: Kube, net: AC.AgentNet, k: string)
    requires A.ValidParams(cr.spec) && AC.Honours(net)
    ensures var made, changed := A.AfterCreate(cr, store, read, kube, net).store, A.AfterUpdate(cr, store, read, kube, net).store;
            var team := TeamResolve.Resolve(kube, cr.key.namespace, cr.spec.teamRef);
            (k in made && (k !in store || made[k] != store[k]) ==> team == Ok(made[k].body.teamId)) &&
            (k in changed && (k !in store || changed[k] != store[k]) ==> team == Ok(changed[k].body.teamId))
  {
    HonoursTeamToo(net);
    CreatedAgentHelper(cr, store, read, kube, net, k);
    UpdatedAgentHelper(cr, store, read, kube, net, k);
  }

  // ---------- The machine ----------

  /** A child resource that is about to be created or updated. The credentials are
      resolved on the way and do not matter here. */
  datatype Child =
    | Server(server: S.ServerCr, id: string)
    | Gateway(gateway: G.GatewayCr, auth: Auth)
    | Agent(agent: A.AgentCr, auth: Auth, read: NumberReader)
  {
    /** The Team it refers to, in its own namespace. */
    function TeamKey(): Key {
      match this
      case Server(cr, _) => Key(cr.key.namespace, cr.spec.teamRef)
      case Gateway(cr, _) => Key(cr.key.namespace, cr.spec.teamRef)
      case Agent(cr, _, _) => Key(cr.key.namespace, cr.spec.teamRef)
    }
  }

  datatype Request =
    | CreateServer(serverCreate: SC.CreateRequest)
    | UpdateServer(serverUpdate: SC.ServerUpdate)
    | CreateGateway(gatewayCreate: GC.GatewayCreate)
    | UpdateGateway(gatewayUpdate: GC.GatewayUpdate)
    | CreateAgent(agentCreate: AC.AgentCreate)
    | UpdateAgent(agentUpdate: AC.AgentUpdate)
  {
    /** The team id in the body. */
    function Team(): Option<string> {
      match this
      case CreateServer(q) => Some(q.teamId)
      case UpdateServer(u) => u.teamId
      case CreateGateway(q) => Some(q.teamId)
      case UpdateGateway(u) => u.teamId
      case CreateAgent(q) => Some(q.teamId)
      case UpdateAgent(u) => u.teamId
    }
  }

  /** The request that a child's Create or Update sends for a team id. */
  function RequestFor(child: Child, update: bool, teamId: string): Request
  {
    match child
    case Server(cr, id) =>
      if update then UpdateServer(S.ToUpdate(cr, teamId)) else CreateServer(S.CreateBody(cr, teamId, id))
    case Gateway(cr, auth) =>
      if update then UpdateGateway(G.ToUpdate(cr, teamId, auth)) else CreateGateway(G.ToCreate(cr, teamId, auth))
    case Agent(cr, auth, read) =>
      if update then UpdateAgent(A.ToUpdate(cr, teamId, auth, read)) else CreateAgent(A.ToCreate(cr, teamId, auth, read))
  }

  /** A child that has read its Team at a moment of the run and not written yet. */
  datatype Pending = Pending(child: Child, update: bool, teamId: string, readAt: nat)

  datatype Write = Write(request: Request, teamKey: Key, readAt: nat)

  /** returned: the ids of all Team records in answers of the remote so far. pending:
      the operations in progress, each under a name of its own. */
  datatype State = State(
    teams: map<Key, T.TeamCr>,
    remote: T.Teams,
    returned: set<string>,
    pending: map<nat, Pending>,
    writes: seq<Write>,
    now: nat)

  datatype Event =
    | ApplyTeam(key: Key, spec: T.Params)
    | MarkTeamDeleted(key: Key)
    | RemoveTeam(key: Key)
    | ObserveTeam(key: Key, net: TeamClient.TeamNet, saved: bool)
    | CreateTeam(key: Key, listing: TeamClient.Listing, net: TeamClient.TeamNet, saved: bool)
    | UpdateTeam(key: Key, net: TeamClient.TeamNet, saved: bool)
    | DeleteTeam(key: Key, net: TeamClient.TeamNet)
    | ChangeRemote(remote: T.Teams)
    | ReadTeam(op: nat, child: Child, update: bool)
    | SendRequest(op: nat)
    | Crash(op: nat)

  function Answer(r: Result<TeamClient.Team, ApiError>): set<string>
  {
    match r case Ok(t) => {t.id} case Err(_) => {}
  }

  /** The ids of the Team records in the answers to the calls of one operation. */
  function Answers(cr: T.TeamCr, remote: T.Teams, e: Event): set<string>
  {
    match e
    case ObserveTeam(_, net, _) =>
      if cr.externalName == "" then {} else Answer(GetOutcome(remote, Some(cr.externalName), net.get))
    case CreateTeam(_, listing, net, _) =>
      (match TeamClient.LookedUp(listing, cr.spec.name)
       case Ok(id) => Answer(GetOutcome(remote, Some(id), net.get))
       case Err(LookupFailed) => {}
       case Err(NoSuchTeam) =>
         var stored := net.create(T.ToCreate(cr));
         Answer(PostOutcome(remote, stored.id, stored, false, net.post).result))
    case UpdateTeam(_, net, _) =>
      Answer(PutOutcome(remote, cr.externalName, T.ToUpdate(cr), net.update, false, net.put).result)
    case _ => {}
  }

  function View(s: State): Kube
  {
    Cluster(map k | k in s.teams :: s.teams[k].statusId, map[])
  }

  /** The Team operation that an event performs: where it leaves the Team and the remote. */
  function TeamOperation(cr: T.TeamCr, remote: T.Teams, e: Event): (T.TeamCr, T.Teams)
  {
    match e
    case ObserveTeam(_, net, saved) =>
      var o := T.AfterObserve(cr, remote, net);
      (if saved then o.cr else cr, o.store)
    case CreateTeam(_, listing, net, saved) =>
      var o := T.AfterCreate(cr, remote, listing, net);
      (if saved then o.cr else cr, o.store)
    case UpdateTeam(_, net, saved) =>
      var o := T.AfterUpdate(cr, remote, net);
      (if saved then o.cr else cr, o.store)
    case DeleteTeam(_, net) => (cr, T.AfterDelete(cr, remote, net).store)
    case MarkTeamDeleted(_) => (cr.(deleted := true), remote)
    case _ => (cr, remote)
  }

  function Step(s: State, e: Event): State
  {
    var t := s.(now := s.now + 1);
    match e
    case ApplyTeam(key, spec) =>
      t.(teams := s.teams[key := if key in s.teams then s.teams[key].(spec := spec) else Cr(key, spec, "", "", false)])
    case RemoveTeam(key) => t.(teams := s.teams - {key})
    case ChangeRemote(remote) => t.(remote := remote)
    case ReadTeam(op, child, update) =>
      var key := child.TeamKey();
      (match TeamResolve.Resolve(View(s), key.namespace, key.name)
       case Ok(id) => t.(pending := s.pending[op := Pending(child, update, id, s.now)])
       case Err(_) => t)
    case SendRequest(op) =>
      if op !in s.pending then t else
      var p := s.pending[op];
      t.(pending := s.pending - {op},
         writes := s.writes + [Write(RequestFor(p.child, p.update, p.teamId), p.child.TeamKey(), p.readAt)])
    case Crash(op) => t.(pending := s.pending - {op})
    case _ =>
      if e.key !in s.teams then t else
      var (cr, remote) := TeamOperation(s.teams[e.key], s.remote, e);
      t.(teams := s.teams[e.key := cr], remote := remote, returned := s.returned + Answers(s.teams[e.key], s.remote, e))
  }

  /** The state after a sequence of events. */
  function Run(s: State, es: seq<Event>): State
    decreases |es|
  {
    if es == [] then s else Step(Run(s, es[..|es| - 1]), es[|es| - 1])
  }

  /** Nothing has happened yet: no Team has a status id. */
  predicate Initial(s: State)
  {
    s.pending == map[] && s.writes == [] && s.now == 0 && forall k | k in s.teams :: s.teams[k].statusId == ""
  }

  /** At the given moment of the run, the Team held this id in its status, and the remote
      had returned a Team record with this id. */
  predicate HeldAt(s: State, es: seq<Event>, key: Key, teamId: string, at: nat)
  {
    at <= |es| &&
    var past := Run(s, es[..at]);
    key in past.teams && past.teams[key].statusId == teamId && teamId in past.returned
  }

  predicate StatusesWereReturned(t: State)
  {
    forall k | k in t.teams :: t.teams[k].statusId == "" || t.teams[k].statusId in t.returned
  }

  predicate PendingIsHeld(s: State, es: seq<Event>, p: Pending)
  {
    p.teamId != "" && HeldAt(s, es, p.child.TeamKey(), p.teamId, p.readAt)
  }

  predicate WriteIsHeld(s: State, es: seq<Event>, w: Write)
  {
    w.request.Team().Some? && w.request.Team().value != "" && HeldAt(s, es, w.teamKey, w.request.Team().value, w.readAt)
  }

  ghost predicate Invariant(s: State, es: seq<Event>)
  {
    var t := Run(s, es);
    t.now == |es| && StatusesWereReturned(t) &&
    (forall op | op in t.pending :: PendingIsHeld(s, es, t.pending[op])) &&
    (forall w | w in t.writes :: WriteIsHeld(s, es, w))
  }

  /** A Team operation takes a new status id from a record in an answer. */
  lemma StatusComesFromAnswers(cr: T.TeamCr, remote: T.Teams, e: Event)
    ensures var id := TeamOperation(cr, remote, e).0.statusId;
            id == cr.statusId || id in Answers(cr, remote, e)
  {
  }

  lemma HeldStaysHeld(s: State, es: seq<Event>, key: Key, teamId: string, at: nat)
    requires es != [] && HeldAt(s, es[..|es| - 1], key, teamId, at)
    ensures HeldAt(s, es, key, teamId, at)
  {
    assert es[..|es| - 1][..at] == es[..at];
  }

  lemma RequestCarriesTheTeam(child: Child, update: bool, teamId: string)
    ensures RequestFor(child, update, teamId).Team() == Some(teamId)
  {
  }

  lemma StatusesStep(t: State, e: Event)
    requires StatusesWereReturned(t)
    ensures StatusesWereReturned(Step(t, e))
  {
    var u := Step(t, e);
    forall k | k in u.teams ensures u.teams[k].statusId == "" || u.teams[k].statusId in u.returned {
      if k in t.teams { StatusComesFromAnswers(t.teams[k], t.remote, e); }
    }
  }

  /** What is pending after a step was pending before, or was just read. */
  lemma PendingStep(t: State, e: Event, op: nat)
    requires op in Step(t, e).pending
    ensures var p := Step(t, e).pending[op];
            (op in t.pending && p == t.pending[op]) ||
            (p.teamId != "" && p.readAt == t.now && p.child.TeamKey() in t.teams &&
             t.teams[p.child.TeamKey()].statusId == p.teamId)
  {
  }

  /** What is written after a step was written before, or was pending. */
  lemma WriteStep(t: State, e: Event, w: Write)
    requires w in Step(t, e).writes
    ensures w in t.writes ||
            exists op | op in t.pending ::
              var p := t.pending[op];
              w.request.Team() == Some(p.teamId) && w.teamKey == p.child.TeamKey() && w.readAt == p.readAt
  {
    if w !in t.writes {
      var p := t.pending[e.op];
      RequestCarriesTheTeam(p.child, p.update, p.teamId);
    }
  }

  lemma PendingStaysHeld(s: State, es: seq<Event>, t: State, op: nat)
    requires es != [] && t == Run(s, es[..|es| - 1]) && Invariant(s, es[..|es| - 1])
    requires op in Step(t, es[|es| - 1]).pending
    ensures PendingIsHeld(s, es, Step(t, es[|es| - 1]).pending[op])
  {
    var front, e := es[..|es| - 1], es[|es| - 1];
    PendingStep(t, e, op);
    var p := Step(t, e).pending[op];
    if op in t.pending && p == t.pending[op] {
      assert PendingIsHeld(s, front, p);
      HeldStaysHeld(s, es, p.child.TeamKey(), p.teamId, p.readAt);
    } else {
      assert es[..p.readAt] == front;
    }
  }

  lemma WriteStaysHeld(s: State, es: seq<Event>, t: State, w: Write)
    requires es != [] && t == Run(s, es[..|es| - 1]) && Invariant(s, es[..|es| - 1])
    requires w in Step(t, es[|es| - 1]).writes
    ensures WriteIsHeld(s, es, w)
  {
    var front := es[..|es| - 1];
    WriteStep(t, es[|es| - 1], w);
    if w in t.writes {
      assert WriteIsHeld(s, front, w);
    } else {
      var op :| op in t.pending && w.request.Team() == Some(t.pending[op].teamId) &&
                w.teamKey == t.pending[op].child.TeamKey() && w.readAt == t.pending[op].readAt;
      assert PendingIsHeld(s, front, t.pending[op]);
    }
    HeldStaysHeld(s, es, w.teamKey, w.request.Team().value, w.readAt);
  }

  lemma ClockTicks(t: State, e: Event)
    ensures Step(t, e).now == t.now + 1
  {
  }

  lemma {:induction false} RunKeepsInvariant(s: State, es: seq<Event>)
    requires Initial(s)
    ensures Invariant(s, es)
    decreases |es|
  {
    if es != [] {
      var front, e := es[..|es| - 1], es[|es| - 1];
      RunKeepsInvariant(s, front);
      var t := Run(s, front);
      ClockTicks(t, e);
      StatusesStep(t, e);
      forall op | op in Step(t, e).pending ensures PendingIsHeld(s, es, Step(t, e).pending[op]) {
        PendingStaysHeld(s, es, t, op);
      }
      forall w | w in Step(t, e).writes ensures WriteIsHeld(s, es, w) {
        WriteStaysHeld(s, es, t, w);
      }
    }
  }

  /** In every interleaving of Team and child operations, every request of a child carries
      a non-empty team id that its Team, in the child's own namespace, held in its status
      when the child read it, and that a Team record returned by the remote had given. */
  lemma EveryWriteCarriesItsTeam(s: State, es: seq<Event>, w: Write)
    requires Initial(s) && w in Run(s, es).writes
    ensures w.request.Team().Some? && w.request.Team().value != ""
    ensures HeldAt(s, es, w.teamKey, w.request.Team().value, w.readAt)
  {
    RunKeepsInvariant(s, es);
  }

  // ---------- The gate opens ----------

  /** Every Team record has its own id, and no id is empty. */
  predicate KeepsIds(remote: T.Teams)
  {
    forall k | k in remote :: k != "" && remote[k].id == k
  }

  /** Once the Create of a Team succeeds and is saved, its children find its id in their
      namespace, and it is the id of a record on the remote. */
  lemma CreatedTeamOpensTheGate(s: State, key: Key, listing: TeamClient.Listing, net: TeamClient.TeamNet)
    requires key in s.teams && KeepsIds(s.remote) && net.create(T.ToCreate(s.teams[key])).id != ""
    requires T.AfterCreate(s.teams[key], s.remote, listing, net).result.Ok?
    ensures var t := Step(s, CreateTeam(key, listing, net, true));
            key in t.teams && t.teams[key].externalName in t.remote &&
            TeamResolve.Resolve(View(t), key.namespace, key.name) == Ok(t.teams[key].externalName)
  {
    var t := Step(s, CreateTeam(key, listing, net, true));
    assert t.teams[key] == T.AfterCreate(s.teams[key], s.remote, listing, net).cr;
    assert t.teams[key].statusId != "";
  }

  /** So they do once an Observe finds the team and is saved, whatever status was there. */
  lemma ObservedTeamOpensTheGate(s: State, key: Key, net: TeamClient.TeamNet)
    requires key in s.teams && KeepsIds(s.remote) && s.teams[key].externalName in s.remote && net.get.Delivered?
    ensures var t := Step(s, ObserveTeam(key, net, true));
            TeamResolve.Resolve(View(t), key.namespace, key.name) == Ok(s.teams[key].externalName)
  {
    var t := Step(s, ObserveTeam(key, net, true));
    assert t.teams[key] == T.AfterObserve(s.teams[key], s.remote, net).cr;
  }

  /** With the gate open, a child that reads its Team and goes on sends a request for it. */
  lemma OpenGateLetsWritesThrough(s: State, op: nat, child: Child, update: bool, teamId: string)
    requires TeamResolve.Resolve(View(s), child.TeamKey().namespace, child.TeamKey().name) == Ok(teamId)
    ensures var t := Step(Step(s, ReadTeam(op, child, update)), SendRequest(op));
            t.writes == s.writes + [Write(RequestFor(child, update, teamId), child.TeamKey(), s.now)] &&
            RequestFor(child, update, teamId).Team() == Some(teamId)
  {
    RequestCarriesTheTeam(child, update, teamId);
  }
}
