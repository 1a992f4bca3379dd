/** What the gateway controller achieves: when its updates converge, what an update of
    an up-to-date gateway changes, and how creation and deletion fare over retries. */
module GatewayProperties {
  import opened Wrappers
  import opened SliceUtil
  import opened Remote
  import opened Managed
  import opened Wire
  import opened AuthResolve
  import opened NamedRecords
  import opened GatewayClient
  import opened GatewayController
  import TeamResolve

  // ---------- Convergence of updates ----------

  /** An update leaves out an empty list, so it cannot empty the remote's tags. */
  predicate CanConverge(cr: GatewayCr, g: Gateway)
  {
    cr.spec.tags.List() != [] || g.body.tags == []
  }

  lemma SameElementsAsNone(s: seq<string>)
    ensures multiset(s) == multiset([]) <==> s == []
  {
    assert s != [] ==> s[0] in multiset(s);
  }

  /** An accepted update leaves the gateway up to date exactly when it can; if not, the
      next update is no better off. */
  lemma UpdateConvergesExactly(cr: GatewayCr, teamId: string, auth: Auth, g: Gateway, h: Gateway)
    requires Updated(ToUpdate(cr, teamId, auth), g, h)
    ensures IsUpToDate(cr, teamId, h) <==> CanConverge(cr, g)
    ensures CanConverge(cr, h) <==> CanConverge(cr, g)
  {
    if cr.spec.tags.List() == [] {
      SameElementsAsNone(h.body.tags);
      SameElementsAsNone(g.body.tags);
    }
  }

  /** Successive states of a gateway, each made of the one before by an accepted update. */
  ghost predicate UpdateChain(cr: GatewayCr, teamId: string, auths: seq<Auth>, gs: seq<Gateway>)
  {
    |gs| == |auths| + 1 &&
    (auths == [] || (Updated(ToUpdate(cr, teamId, auths[0]), gs[0], gs[1]) && UpdateChain(cr, teamId, auths[1..], gs[1..])))
  }

  /** Any number of accepted updates ends up to date exactly when the first one does. */
  lemma {:induction false} RepeatedUpdatesConvergeExactly(cr: GatewayCr, teamId: string, auths: seq<Auth>, gs: seq<Gateway>)
    requires auths != [] && UpdateChain(cr, teamId, auths, gs)
    ensures IsUpToDate(cr, teamId, gs[|gs| - 1]) <==> CanConverge(cr, gs[0])
  {
    UpdateConvergesExactly(cr, teamId, auths[0], gs[0], gs[1]);
    if |auths| > 1 { RepeatedUpdatesConvergeExactly(cr, teamId, auths[1..], gs[1..]); }
  }

  /** After an Update that succeeds, Observe reports the gateway up to date exactly when
      the update could converge. */
  lemma ObserveAfterUpdate(cr: GatewayCr, store: Gateways, kube: Kube, net: GatewayNet, next: GatewayNet)
    requires ValidParams(cr.spec) && cr.externalName != "" && !cr.deleted && Honours(net)
    requires AfterUpdate(cr, store, kube, net).result.Ok? && next.get.Delivered?
    requires Resolves(AfterUpdate(cr, store, kube, net).store, cr.externalName, next.hit)
    ensures cr.externalName in store
    ensures var o := AfterUpdate(cr, store, kube, net);
            AfterObserve(o.cr, o.store, kube, next).result
            == Ok(Observation(true, CanConverge(cr, store[cr.externalName]), None))
  {
    var g := store[cr.externalName];
    var teamId := TeamResolve.Resolve(kube, cr.key.namespace, cr.spec.teamRef).value;
    var auth := Resolved(kube, cr.key.namespace, cr.spec.auth).value;
    var u := ToUpdate(cr, teamId, auth);
    assert Updated(u, g, net.update(u, g));
    UpdateConvergesExactly(cr, teamId, auth, g, net.update(u, g));
  }

  /** The same record, up to its URL, its credentials and the order of its tags. */
  ghost predicate SameUpToUrlAuthAndOrder(g: Gateway, h: Gateway)
  {
    h == g.(body := g.body.(url := h.body.url, auth := h.body.auth, tags := h.body.tags)) &&
    multiset(h.body.tags) == multiset(g.body.tags)
  }

  /** The check passes exactly when an update can converge and would change nothing but
      the URL, the credentials and the order of the tags: it looks at neither URL nor
      credentials, which an update always sets. */
  lemma UpToDateExactlyWhenUpdateIsNeedless(cr: GatewayCr, teamId: string, auth: Auth, g: Gateway, h: Gateway)
    requires Updated(ToUpdate(cr, teamId, auth), g, h)
    ensures IsUpToDate(cr, teamId, g) <==> CanConverge(cr, g) && SameUpToUrlAuthAndOrder(g, h)
    ensures h.body.url == cr.spec.url && h.body.auth == AuthAfter(g.body.auth, auth)
    ensures h.name == if cr.spec.name.Some? then cr.spec.name.value else cr.key.name
  {
    UpdateConvergesExactly(cr, teamId, auth, g, h);
  }

  // ---------- Creation and deletion ----------

  /** A gateway that the remote made as asked is up to date, with the URL and credentials asked for. */
  lemma CreatedIsUpToDate(cr: GatewayCr, teamId: string, auth: Auth, g: Gateway)
    requires Created(ToCreate(cr, teamId, auth), g)
    ensures IsUpToDate(cr, teamId, g) && g.body.url == cr.spec.url && g.body.auth == AuthAfter(NO_AUTH, auth)
    ensures g.name == if cr.spec.name.Some? then cr.spec.name.value else cr.key.name
  {
    if cr.spec.tags.List() == [] { SameElementsAsNone(g.body.tags); }
  }

  /** After a Create that succeeds, Observe finds the gateway. It is up to date if the
      remote made it; a gateway that was adopted is as it was. */
  lemma ObserveAfterCreate(cr: GatewayCr, store: Gateways, kube: Kube, net: GatewayNet, next: GatewayNet)
    requires ValidParams(cr.spec) && !cr.deleted && Honours(net) && KeepsIds(store)
    requires AfterCreate(cr, store, kube, net).result.Ok? && AfterCreate(cr, store, kube, net).cr.externalName != ""
    requires next.get.Delivered?
    requires var o := AfterCreate(cr, store, kube, net); Resolves(o.store, o.cr.externalName, next.hit)
    ensures var o := AfterCreate(cr, store, kube, net);
            var teamId := TeamResolve.Resolve(kube, cr.key.namespace, cr.spec.teamRef).value;
            o.cr.externalName in o.store &&
            AfterObserve(o.cr, o.store, kube, next).result
            == Ok(Observation(true, IsUpToDate(cr, teamId, o.store[o.cr.externalName]), None)) &&
            if NameTaken(store, ResolvedName(cr)) then o.store == store
            else IsUpToDate(cr, teamId, o.store[o.cr.externalName])
  {
    var teamId := TeamResolve.Resolve(kube, cr.key.namespace, cr.spec.teamRef).value;
    var auth := Resolved(kube, cr.key.namespace, cr.spec.auth).value;
    var q := ToCreate(cr, teamId, auth);
    assert Created(q, net.create(q));
    CreatedIsUpToDate(cr, teamId, auth, net.create(q));
    assert NameTaken(store, ResolvedName(cr)) ==> AfterCreate(cr, store, kube, net).cr.externalName in store;
  }

  /** A Create whose Team and credentials resolve is one attempt at making or adopting
      the record of the resolved name; any other Create does nothing. */
  lemma CreateIsAnAttempt(cr: GatewayCr, store: Gateways, kube: Kube, net: GatewayNet, saved: bool, made: map<string, string>)
    requires ValidParams(cr.spec)
    ensures var o := AfterCreate(cr, store, kube, net);
            var team := TeamResolve.Resolve(kube, cr.key.namespace, cr.spec.teamRef);
            var auth := Resolved(kube, cr.key.namespace, cr.spec.auth);
            if team.Ok? && auth.Ok? then
              var stored := net.create(ToCreate(cr, team.value, auth.value));
              var attempt := Attempt(ResolvedName(cr), stored, net.hit, net.post, net.get, saved);
              var t := Step(Creation(store, cr.externalName, made), attempt);
              o.store == t.store && (if saved then o.cr.externalName else cr.externalName) == t.externalName &&
              (Honours(net) ==> stored.name == ResolvedName(cr))
            else o.store == store && o.cr == cr && o.result.Err?
  {
    var team := TeamResolve.Resolve(kube, cr.key.namespace, cr.spec.teamRef);
    var auth := Resolved(kube, cr.key.namespace, cr.spec.auth);
    if team.Ok? && auth.Ok? && Honours(net) {
      var q := ToCreate(cr, team.value, auth.value);
      assert Created(q, net.create(q));
    }
  }

  /** A reconcile of a gateway marked deleted is a deletion round, whatever fails and whatever
      the cluster holds: its Team may be gone. */
  lemma DeletionIsARound(cr: GatewayCr, store: Gateways, kube: Kube, net: GatewayNet)
    requires cr.deleted && Resolves(store, cr.externalName, net.hit)
    ensures var (next, finished) := DeletionRound(store, cr.externalName, Round(net.hit, net.get, net.delete));
            match Decide(cr.deleted, AfterObserve(cr, store, kube, net).result)
            case DropFinalizer => finished && next == store
            case CallDelete =>
              !finished && AfterDelete(cr, store, net).store == next &&
              AfterDelete(cr, store, net).result == if net.delete.Delivered? then Ok(()) else Err(Api(Failed))
            case GiveUp => !finished && next == store && !net.get.Delivered?
            case _ => false
  {
  }

  /** Unlike a virtual server, a gateway can be left behind. When a Create makes the
      record and the resource is then deleted, the finalizer is dropped at once, with the
      record still there, exactly when the response or the external name was lost. */
  lemma CreateThenDeletionLeaksExactly(cr: GatewayCr, store: Gateways, kube: Kube, net: GatewayNet, saved: bool, next: GatewayNet)
    requires ValidParams(cr.spec) && cr.externalName == "" && !net.post.Refused? && !NameTaken(store, ResolvedName(cr))
    requires TeamResolve.Resolve(kube, cr.key.namespace, cr.spec.teamRef).Ok?
    requires Resolved(kube, cr.key.namespace, cr.spec.auth).Ok?
    requires var q := ToCreate(cr, TeamResolve.Resolve(kube, cr.key.namespace, cr.spec.teamRef).value,
                               Resolved(kube, cr.key.namespace, cr.spec.auth).value);
             net.create(q).id != "" && net.create(q).id !in store
    requires var o := AfterCreate(cr, store, kube, net);
             next.get.Delivered? && Resolves(o.store, if saved then o.cr.externalName else "", next.hit)
    ensures var o := AfterCreate(cr, store, kube, net);
            var gone := (if saved then o.cr else cr).(deleted := true);
            var team := TeamResolve.Resolve(kube, cr.key.namespace, cr.spec.teamRef).value;
            var auth := Resolved(kube, cr.key.namespace, cr.spec.auth).value;
            var made := net.create(ToCreate(cr, team, auth));
            o.store == store[made.id := made] &&
            (Decide(true, AfterObserve(gone, o.store, kube, next).result) == DropFinalizer <==>
             net.post.ResponseLost? || !saved)
  {
  }
}
