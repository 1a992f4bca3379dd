/** Whole runs of the virtual server controller: a machine of single operations,
    interleaved with crashes, spec edits, changes of the cluster and changes that
    others make to the remote. */
module ServerRuns {
  import opened Wrappers
  import opened SliceUtil
  import opened Remote
  import opened Managed
  import opened Wire
  import opened ServerClient
  import opened ServerController
  import ServerIds
  import TeamResolve

  // ---------- One update ----------

  /** A list that was sent is kept, whichever way it was put on the wire. */
  lemma SentListIsKept(l: Slice, prior: seq<string>, kept: seq<string>)
    ensures Keeps(Always(l), [], kept) ==> SameElements(l.List(), kept)
    ensures Keeps(OmitEmpty(NonNil(l)), [], kept) ==> SameElements(l.List(), kept)
    ensures Keeps(Always(NonNil(l)), prior, kept) ==> SameElements(l.List(), kept)
  {
  }

  /** An accepted update leaves the record up to date, whatever it was before. */
  lemma UpdateMakesUpToDate(cr: ServerCr, teamId: string, s: Server, t: Server)
    requires Updated(ToUpdate(cr, teamId), s, t)
    ensures IsUpToDate(cr, teamId, t) && t.id == s.id
    ensures t.icon == cr.spec.icon.GetOr(s.icon) && t.description == cr.spec.description.GetOr(s.description)
    ensures t.name == if cr.spec.name.Some? then cr.spec.name.value else cr.key.name
  {
    SentListIsKept(cr.spec.tags, Labels(s.tags), Labels(t.tags));
    SentListIsKept(cr.spec.tools, s.tools, t.tools);
    SentListIsKept(cr.spec.resources, s.resources, t.resources);
    SentListIsKept(cr.spec.prompts, s.prompts, t.prompts);
    SentListIsKept(cr.spec.agents, s.agents, t.agents);
  }

  /** So does an accepted create, under the name, description and icon that are given. */
  lemma CreateMakesUpToDate(cr: ServerCr, teamId: string, id: string, s: Server)
    requires Created(CreateBody(cr, teamId, id), s)
    ensures IsUpToDate(cr, teamId, s) && (id != "" ==> s.id == id)
    ensures s.icon == cr.spec.icon.GetOr(s.icon) && s.description == cr.spec.description.GetOr(s.description)
    ensures s.name == if cr.spec.name.Some? then cr.spec.name.value else cr.key.name
  {
    SentListIsKept(cr.spec.tags, [], Labels(s.tags));
    SentListIsKept(cr.spec.tools, [], s.tools);
    SentListIsKept(cr.spec.resources, [], s.resources);
    SentListIsKept(cr.spec.prompts, [], s.prompts);
    SentListIsKept(cr.spec.agents, [], s.agents);
  }

  /** The check passes exactly when an update would change nothing but the icon and the
      order of the lists: it does not look at the icon, which an update sets. */
  lemma UpToDateExactlyWhenUpdateIsNeedless(cr: ServerCr, teamId: string, s: Server, t: Server)
    requires Updated(ToUpdate(cr, teamId), s, t)
    ensures IsUpToDate(cr, teamId, s) <==> SameUpToOrder(s.(icon := t.icon), t)
    ensures t.icon == cr.spec.icon.GetOr(s.icon)
  {
    UpdateMakesUpToDate(cr, teamId, s, t);
  }

  lemma OrderDoesNotMatter(cr: ServerCr, teamId: string, s: Server, t: Server)
    requires SameUpToOrder(s, t)
    ensures IsUpToDate(cr, teamId, s) <==> IsUpToDate(cr, teamId, t)
  {
  }

  /** An update body writes every list out, so that it can empty a list; a create body
      sends null for tags exactly when the spec has none. */
  lemma ListsOnTheWire(cr: ServerCr, teamId: string, id: string)
    ensures var u := ToUpdate(cr, teamId);
            forall l | l in {u.tags, u.tools, u.resources, u.prompts, u.agents} :: Always(l).Listed?
    ensures Always(ToCreate(cr, id).tags).Null? <==> cr.spec.tags.Nil?
  {
  }

  /** Connection details identify the server; the two addresses differ in their last part
      only. */
  lemma DetailsIdentifyTheServer(baseUrl: string, a: string, b: string)
    ensures Details(baseUrl, a) == Details(baseUrl, b) <==> a == b
    ensures var d, n := Details(baseUrl, a), |baseUrl + "/v1/servers/" + a|;
            n <= |d.sse| && n <= |d.message| && d.sse[..n] == d.message[..n] == baseUrl + "/v1/servers/" + a &&
            d.sse[n..] == "/sse" && d.message[n..] == "/message"
  {
    var front := baseUrl + "/v1/servers/";
    assert Details(baseUrl, a).sse == front + a + "/sse" && Details(baseUrl, a).message == front + a + "/message";
    if Details(baseUrl, a) == Details(baseUrl, b) {
      assert Details(baseUrl, a).sse == front + a + "/sse" && Details(baseUrl, b).sse == front + b + "/sse";
      assert |a| == |b|;
      assert (front + a + "/sse")[|front|..|front| + |a|] == a;
      assert (front + b + "/sse")[|front|..|front| + |b|] == b;
    }
  }

  predicate OwnName(id: string, cr: ServerCr)
  {
    cr.externalName == "" || cr.externalName == id
  }

  /** Observe of a live server hands out the details of its own id exactly when it looks
      under that id; Create and Update always do. */
  lemma ObservedDetailsAgreeExactly(cr: ServerCr, id: string, baseUrl: string, store: Store, kube: Kube, net: ServerNet)
    requires !cr.deleted && net.get.Delivered? && ObservedId(cr, id) in store
    requires TeamResolve.Resolve(kube, cr.key.namespace, cr.spec.teamRef).Ok?
    ensures var o := AfterObserve(cr, id, baseUrl, store, kube, net);
            o.result.Ok? && (o.result.value.details == Some(Details(baseUrl, id)) <==> OwnName(id, cr))
  {
    DetailsIdentifyTheServer(baseUrl, ObservedId(cr, id), id);
  }

  // ---------- What single operations report, whatever fails ----------

  /** Observe fails exactly when the lookup fails, or a live resource waits for its Team; a
      failed lookup is never taken for an absence. Otherwise it says whether the record is
      there and up to date, and takes the status from it. */
  lemma ObserveReportsExactly(cr: ServerCr, id: string, baseUrl: string, store: Store, kube: Kube, net: ServerNet)
    ensures var o := AfterObserve(cr, id, baseUrl, store, kube, net);
            var at := ObservedId(cr, id);
            var team := TeamResolve.Resolve(kube, cr.key.namespace, cr.spec.teamRef);
            var found := net.get.Delivered? && at in store;
            o.store == store && o.cr == (if found then cr.(statusId := store[at].id) else cr) &&
            (o.result.Err? <==> !net.get.Delivered? || (found && !cr.deleted && team.Err?)) &&
            (o.result.Err? ==> o.result.error == if !net.get.Delivered? then Api(Failed) else team.error) &&
            (o.result.Ok? ==>
               o.result.value.present == found &&
               o.result.value.upToDate == (found && !cr.deleted && IsUpToDate(cr, team.value, store[at])) &&
               (o.result.value.details.Some? <==> found && !cr.deleted))
  {
  }

  /** Create succeeds exactly when the Team is ready, the remote answers, and so does the
      lookup that follows a conflict. Then the external name is the id and the status is
      that of the record there; otherwise the resource is as it was. */
  lemma CreateReportsExactly(cr: ServerCr, id: string, baseUrl: string, store: Store, kube: Kube, net: ServerNet)
    requires id != "" && Honours(net)
    ensures var o := AfterCreate(cr, id, baseUrl, store, kube, net);
            var team := TeamResolve.Resolve(kube, cr.key.namespace, cr.spec.teamRef);
            (o.result.Ok? <==> team.Ok? && net.post.Delivered? && (id in store ==> net.get.Delivered?)) &&
            (o.result.Ok? ==>
               id in o.store && o.cr == cr.(externalName := id, statusId := o.store[id].id) &&
               o.result.value == Details(baseUrl, o.store[id].id)) &&
            (o.result.Err? ==> o.cr == cr && o.result.error == if team.Err? then team.error else Api(Failed)) &&
            (team.Err? || net.post.Refused? || id in store ==> o.store == store)
  {
    var team := TeamResolve.Resolve(kube, cr.key.namespace, cr.spec.teamRef);
    if team.Ok? {
      var q := CreateBody(cr, team.value, id);
      assert Created(q, net.create(q));
    }
  }

  /** Update succeeds exactly when the Team is ready, the remote answers, and the record is
      there. Then the status is that of what it made of the record; otherwise the resource
      is as it was. */
  lemma UpdateReportsExactly(cr: ServerCr, id: string, baseUrl: string, store: Store, kube: Kube, net: ServerNet)
    ensures var o := AfterUpdate(cr, id, baseUrl, store, kube, net);
            var team := TeamResolve.Resolve(kube, cr.key.namespace, cr.spec.teamRef);
            (o.result.Ok? <==> team.Ok? && net.put.Delivered? && id in store) &&
            (o.result.Ok? ==>
               id in o.store && o.cr == cr.(statusId := o.store[id].id) && o.result.value == Details(baseUrl, id)) &&
            (o.result.Err? ==>
               o.cr == cr &&
               o.result.error == if team.Err? then team.error else if net.put.Delivered? then Api(NotFound) else Api(Failed)) &&
            (team.Err? || net.put.Refused? ==> o.store == store)
  {
  }

  /** Delete succeeds exactly when the remote answers, whether or not the record was there. */
  lemma DeleteReportsExactly(cr: ServerCr, id: string, store: Store, net: ServerNet)
    ensures var o := AfterDelete(cr, id, store, net);
            o.cr == cr && o.result == (if net.delete.Delivered? then Ok(()) else Err(Api(Failed))) &&
            o.store == if net.delete.Refused? then store else store - {id}
  {
  }

  // ---------- The machine ----------

  /** Between operations, or about to act on what Observe reported about the resource
      as it was read. */
  datatype Pc = Idle | Working(action: Action, read: ServerCr)

  /** finished: the finalizer is dropped. made: the ids at which the provider created a
      record. reported: every connection details it handed out. requests: how many
      POST, PUT and DELETE requests it sent. */
  datatype State = State(
    cr: ServerCr,
    finished: bool,
    pc: Pc,
    store: Store,
    kube: Kube,
    made: set<string>,
    reported: set<ConnectionDetails>,
    requests: nat)

  datatype Event =
    | Observe(net: ServerNet)
    | Act(net: ServerNet, saved: bool)
    | Crash
    | EditSpec(spec: Params)
    | MarkDeleted
    | ChangeCluster(kube: Kube)
    | ChangeRemote(store: Store)

  predicate IsProvider(e: Event)
  {
    e.Observe? || e.Act?
  }

  predicate KeepsIds(store: Store)
  {
    forall k | k in store :: store[k].id == k
  }

  /** Which events can happen. The remote does what requests ask; nobody but the
      provider creates a record under its id. */
  ghost predicate Enabled(id: string, s: State, e: Event)
  {
    match e
    case Observe(net) => !s.finished && s.pc.Idle? && Honours(net)
    case Act(net, _) => !s.finished && s.pc.Working? && Honours(net)
    case ChangeRemote(store) => KeepsIds(store) && (id in store ==> id in s.store)
    case _ => true
  }

  function Reported(s: State, d: Option<ConnectionDetails>): set<ConnectionDetails>
  {
    s.reported + if d.Some? then {d.value} else {}
  }

  function OkDetails(r: Result<ConnectionDetails, Failure>): Option<ConnectionDetails>
  {
    match r case Ok(d) => Some(d) case Err(_) => None
  }

  /** What an operation did to the resource is kept only if it is saved. */
  function Saved(s: State, after: ServerCr, saved: bool): ServerCr
  {
    if saved then s.cr.(externalName := after.externalName, statusId := after.statusId) else s.cr
  }

  function Step(id: string, baseUrl: string, s: State, e: Event): State
  {
    match e
    case Observe(net) =>
      var o := AfterObserve(s.cr, id, baseUrl, s.store, s.kube, net);
      var action := Decide(s.cr.deleted, o.result);
      s.(pc := if action.GiveUp? || action.Rest? then Idle else Working(action, o.cr),
         reported := Reported(s, if o.result.Ok? then o.result.value.details else None))
    case Act(net, saved) =>
      if s.pc.Idle? then s else
      var read := s.pc.read;
      (match s.pc.action
       case CallCreate =>
         var o := AfterCreate(read, id, baseUrl, s.store, s.kube, net);
         s.(pc := Idle, cr := Saved(s, o.cr, saved), store := o.store,
            made := s.made + (o.store.Keys - s.store.Keys),
            reported := Reported(s, OkDetails(o.result)), requests := s.requests + 1)
       case CallUpdate =>
         var o := AfterUpdate(read, id, baseUrl, s.store, s.kube, net);
         s.(pc := Idle, cr := Saved(s, o.cr, saved), store := o.store,
            made := s.made + (o.store.Keys - s.store.Keys),
            reported := Reported(s, OkDetails(o.result)), requests := s.requests + 1)
       case CallDelete =>
         var o := AfterDelete(read, id, s.store, net);
         s.(pc := Idle, cr := Saved(s, o.cr, saved), store := o.store, requests := s.requests + 1)
       case DropFinalizer => s.(pc := Idle, finished := saved)
       case _ => s.(pc := Idle))
    case Crash => s.(pc := Idle)
    case EditSpec(spec) => s.(cr := s.cr.(spec := spec))
    case MarkDeleted => s.(cr := s.cr.(deleted := true))
    case ChangeCluster(kube) => s.(kube := kube)
    case ChangeRemote(store) => s.(store := store)
  }

  function Run(id: string, baseUrl: string, s: State, es: seq<Event>): State
    decreases |es|
  {
    if es == [] then s else Run(id, baseUrl, Step(id, baseUrl, s, es[0]), es[1..])
  }

  ghost predicate Legal(id: string, baseUrl: string, s: State, es: seq<Event>)
    decreases |es|
  {
    es == [] || (Enabled(id, s, es[0]) && Legal(id, baseUrl, Step(id, baseUrl, s, es[0]), es[1..]))
  }

  /** A resource that was just made: nothing in progress, and an external name, if any,
      that is its own id. */
  predicate Initial(id: string, s: State)
  {
    OwnName(id, s.cr) && !s.finished && s.pc.Idle? && KeepsIds(s.store) && s.made == {} && s.reported == {}
  }

  ghost predicate Invariant(id: string, baseUrl: string, s: State)
  {
    OwnName(id, s.cr) && KeepsIds(s.store) &&
    s.made <= {id} && s.reported <= {Details(baseUrl, id)} &&
    (s.finished ==> id !in s.store) &&
    (s.pc.Working? ==>
       OwnName(id, s.pc.read) && !s.pc.action.GiveUp? && !s.pc.action.Rest? && s.pc.read.key == s.cr.key &&
       (s.pc.action.CallDelete? || s.pc.action.DropFinalizer? ==> s.cr.deleted) &&
       (s.pc.action.DropFinalizer? ==> id !in s.store))
  }

  // ---------- Safety over every run ----------

  lemma CreateTouchesOnlyItsOwnRecord(cr: ServerCr, id: string, baseUrl: string, store: Store, kube: Kube,
        net: ServerNet, other: string)
    requires other != id
    ensures var after := AfterCreate(cr, id, baseUrl, store, kube, net).store;
            (other in after <==> other in store) && (other in store ==> after[other] == store[other])
  {
  }

  lemma UpdateTouchesOnlyItsOwnRecord(cr: ServerCr, id: string, baseUrl: string, store: Store, kube: Kube,
        net: ServerNet, other: string)
    requires other != id
    ensures var after := AfterUpdate(cr, id, baseUrl, store, kube, net).store;
            (other in after <==> other in store) && (other in store ==> after[other] == store[other])
  {
  }

  /** No operation touches a record other than the one at the resource's own id,
      whatever state it starts in. */
  lemma TouchesOnlyItsOwnRecord(id: string, baseUrl: string, s: State, e: Event, other: string)
    requires IsProvider(e) && other != id
    ensures var t := Step(id, baseUrl, s, e);
            (other in t.store <==> other in s.store) && (other in s.store ==> t.store[other] == s.store[other])
  {
    if e.Act? && s.pc.Working? {
      match s.pc.action
      case CallCreate => CreateTouchesOnlyItsOwnRecord(s.pc.read, id, baseUrl, s.store, s.kube, e.net, other);
      case CallUpdate => UpdateTouchesOnlyItsOwnRecord(s.pc.read, id, baseUrl, s.store, s.kube, e.net, other);
      case _ =>
    }
  }

  lemma CreateKeepsInvariant(cr: ServerCr, id: string, baseUrl: string, store: Store, kube: Kube, net: ServerNet)
    requires id != "" && OwnName(id, cr) && KeepsIds(store) && Honours(net)
    ensures var o := AfterCreate(cr, id, baseUrl, store, kube, net);
            OwnName(id, o.cr) && KeepsIds(o.store) && o.store.Keys <= store.Keys + {id} &&
            (o.result.Ok? ==> o.result.value == Details(baseUrl, id))
  {
    var team := TeamResolve.Resolve(kube, cr.key.namespace, cr.spec.teamRef);
    if team.Ok? {
      var q := CreateBody(cr, team.value, id);
      assert Created(q, net.create(q));
      assert net.create(q).id == id;
    }
  }

  lemma UpdateKeepsInvariant(cr: ServerCr, id: string, baseUrl: string, store: Store, kube: Kube, net: ServerNet)
    requires OwnName(id, cr) && KeepsIds(store) && Honours(net)
    ensures var o := AfterUpdate(cr, id, baseUrl, store, kube, net);
            OwnName(id, o.cr) && KeepsIds(o.store) && o.store.Keys == store.Keys &&
            (o.result.Ok? ==> o.result.value == Details(baseUrl, id))
  {
    var team := TeamResolve.Resolve(kube, cr.key.namespace, cr.spec.teamRef);
    if team.Ok? && id in store {
      var u := ToUpdate(cr, team.value);
      assert Updated(u, store[id], net.update(u, store[id]));
    }
  }

  lemma ObserveKeepsInvariant(id: string, baseUrl: string, s: State, e: Event)
    requires id != "" && Invariant(id, baseUrl, s) && Enabled(id, s, e) && e.Observe?
    ensures Invariant(id, baseUrl, Step(id, baseUrl, s, e))
  {
  }

  lemma ActKeepsInvariant(id: string, baseUrl: string, s: State, e: Event)
    requires id != "" && Invariant(id, baseUrl, s) && Enabled(id, s, e) && e.Act?
    ensures Invariant(id, baseUrl, Step(id, baseUrl, s, e))
  {
    match s.pc.action
    case CallCreate => CreateKeepsInvariant(s.pc.read, id, baseUrl, s.store, s.kube, e.net);
    case CallUpdate => UpdateKeepsInvariant(s.pc.read, id, baseUrl, s.store, s.kube, e.net);
    case _ =>
  }

  lemma StepKeepsInvariant(id: string, baseUrl: string, s: State, e: Event)
    requires id != "" && Invariant(id, baseUrl, s) && Enabled(id, s, e)
    ensures Invariant(id, baseUrl, Step(id, baseUrl, s, e))
  {
    match e
    case Observe(_) => ObserveKeepsInvariant(id, baseUrl, s, e);
    case Act(_, _) => ActKeepsInvariant(id, baseUrl, s, e);
    case _ =>
  }

  lemma {:induction false} RunKeepsInvariant(id: string, baseUrl: string, s: State, es: seq<Event>)
    requires id != "" && Invariant(id, baseUrl, s) && Legal(id, baseUrl, s, es)
    ensures Invariant(id, baseUrl, Run(id, baseUrl, s, es))
    decreases |es|
  {
    if es != [] {
      StepKeepsInvariant(id, baseUrl, s, es[0]);
      RunKeepsInvariant(id, baseUrl, Step(id, baseUrl, s, es[0]), es[1..]);
    }
  }

  lemma IdIsNotEmpty(hash: ServerIds.NameHash, key: Key)
    ensures ServerIds.DeterministicId(hash, key) != ""
  {
    ServerIds.DashlessUuid(ServerIds.Stamp(hash(ServerIds.HashedName(key))));
  }

  /** In every run, with failed calls, lost responses, crashes and lost writes of the
      external name: records are created only at the resource's own id, no record is
      left there once the finalizer is dropped, and all connection details handed out
      are the same. The external name may start out unset or as the own id. No other start
      will do: StrayNameLeaks shows it for a name of no server, and
      ObservedDetailsAgreeExactly for the id of another one. */
  lemma NeverLeaks(hash: ServerIds.NameHash, baseUrl: string, s: State, es: seq<Event>)
    requires Initial(ServerIds.DeterministicId(hash, s.cr.key), s)
    requires Legal(ServerIds.DeterministicId(hash, s.cr.key), baseUrl, s, es)
    ensures var id := ServerIds.DeterministicId(hash, s.cr.key);
            var t := Run(id, baseUrl, s, es);
            t.made <= {id} && (t.finished ==> id !in t.store) && t.reported <= {Details(baseUrl, id)}
  {
    IdIsNotEmpty(hash, s.cr.key);
    RunKeepsInvariant(ServerIds.DeterministicId(hash, s.cr.key), baseUrl, s, es);
  }

  /** An external name that somebody set to an id without a server hides the resource's
      own record: a resource marked deleted is let go in two operations, and its record
      stays. */
  lemma StrayNameLeaks(id: string, baseUrl: string, s: State, observe: ServerNet, act: ServerNet)
    requires s.cr.deleted && !s.finished && s.pc.Idle? && !OwnName(id, s.cr) && s.cr.externalName !in s.store && id in s.store
    requires observe.get.Delivered? && Honours(observe) && Honours(act)
    ensures var es := [Observe(observe), Act(act, true)];
            var t := Run(id, baseUrl, s, es);
            Legal(id, baseUrl, s, es) && t.finished && id in t.store && t.store[id] == s.store[id]
  {
    var t := Step(id, baseUrl, s, Observe(observe));
    assert t.pc == Working(DropFinalizer, s.cr);
    var u := Step(id, baseUrl, t, Act(act, true));
    var es, rest := [Observe(observe), Act(act, true)], [Act(act, true)];
    assert es[1..] == rest && rest[1..] == [];
    assert Run(id, baseUrl, u, []) == u && Run(id, baseUrl, t, rest) == u;
  }
}
