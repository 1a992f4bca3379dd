/** What the A2A agent controller achieves: when its updates converge, what an update of
    an up-to-date agent changes, and how creation and deletion fare over retries. */
module AgentProperties {
  import opened Wrappers
  import opened SliceUtil
  import opened Remote
  import opened Managed
  import opened Json
  import opened JsonSyntax
  import opened JsonReading
  import opened JsonRoundTrip
  import opened Wire
  import opened AuthResolve
  import opened NamedRecords
  import opened AgentClient
  import opened AgentController
  import TeamResolve

  // ---------- JSON maps ----------

  /** Storing a map and loading it again gives it back, except that an empty map, like
      a nil one, comes back nil. The one exception is a map nested deeper than
      json.Unmarshal accepts, which is lost. */
  lemma RawRoundTrip(m: Option<JsonMap>, read: NumberReader, deep: nat)
    requires m.Some? ==> Decoded(Obj(m.value), read, deep)
    ensures FromRaw(ToRaw(m), read) == OmitEmptyMap(m) <==>
            (OmitEmptyMap(m).Some? ==> Decoded(Obj(m.value), read, MAX_DEPTH))
  {
    if OmitEmptyMap(m).Some? {
      DocumentRoundTrip(Obj(m.value), read, deep, "", "");
      assert "" + Print(Obj(m.value)) + "" == Print(Obj(m.value));
    }
  }

  /** A map is loaded from every text of an object that is not nested too deep, whatever
      its space and spelling, and from no other text. */
  lemma LoadsObjectsExactly(v: Syntax, before: string, after: string, read: NumberReader)
    requires WellFormed(v, read) && Blank(before) && Blank(after)
    ensures FromRaw(Some(before + ShowValue(v, after)), read) ==
            if v.ObjText? && Fits(v, MAX_DEPTH) then Some(MembersMeaning(v.members, read)) else None
  {
    DocumentReads(v, before, after, read);
    ShowStartsValue(v, read, after);
  }

  lemma FromRawDecodes(raw: Option<string>, read: NumberReader)
    requires ReadsNumbers(read)
    ensures var m := FromRaw(raw, read); m.Some? ==> Decoded(Obj(m.value), read, MAX_DEPTH)
  {
    if raw.Some? { ReadDocumentDecodes(raw.value, read); }
  }

  /** Whatever text is loaded, storing the result and loading it again changes nothing
      but an empty map into nil. */
  lemma RawReloads(raw: Option<string>, read: NumberReader)
    requires ReadsNumbers(read)
    ensures FromRaw(ToRaw(FromRaw(raw, read)), read) == OmitEmptyMap(FromRaw(raw, read))
  {
    FromRawDecodes(raw, read);
    RawRoundTrip(FromRaw(raw, read), read, MAX_DEPTH);
  }

  /** Every map in an answer of the remote, at whatever depth, is stored and loaded
      without loss: an answer that was read is within the depth limit, and so are its
      parts. */
  lemma MapsInAnswersRoundTrip(answer: string, read: NumberReader, m: JsonMap)
    requires ReadsNumbers(read) && ReadDocument(answer, read).Some?
    requires Inside(Obj(m), ReadDocument(answer, read).value)
    ensures FromRaw(ToRaw(Some(m)), read) == OmitEmptyMap(Some(m))
  {
    ReadDocumentDecodes(answer, read);
    PartsDecode(Obj(m), ReadDocument(answer, read).value, read, MAX_DEPTH);
    RawRoundTrip(Some(m), read, MAX_DEPTH);
  }

  /** Comparing maps by their marshalled text is comparing them as values, at every
      depth; a nil map equals only a nil map. */
  lemma JsonMapsEqualExactly(a: Option<JsonMap>, b: Option<JsonMap>, read: NumberReader, deep: nat)
    requires a.Some? ==> Decoded(Obj(a.value), read, deep)
    requires b.Some? ==> Decoded(Obj(b.value), read, deep)
    ensures JsonMapsEqual(a, b) <==> a == b
  {
    var v := if a.Some? then Obj(a.value) else Json.Null;
    var w := if b.Some? then Obj(b.value) else Json.Null;
    PrintIsInjective(v, w, read, deep);
  }

  /** In particular an empty map does not equal a nil one, in either order. */
  lemma EmptyMapIsNotNil()
    ensures !JsonMapsEqual(Some(map[]), None) && !JsonMapsEqual(None, Some(map[]))
  {
    assert Print(Obj(map[]))[0] == '{' && Print(Json.Null)[0] == 'n';
  }

  // ---------- Convergence of updates ----------

  /** A map that is sent, or that the remote already has as the spec gives it. */
  predicate MapCanConverge(sent: Option<JsonMap>, held: Option<JsonMap>)
  {
    OmitEmptyMap(sent).Some? || JsonMapsEqual(sent, held)
  }

  predicate ListCanConverge(sent: Slice, held: seq<string>)
  {
    sent.List() != [] || held == []
  }

  /** An update leaves out empty lists and maps, so each must be non-empty in the spec or
      already equal in the record. */
  predicate CanConverge(cr: AgentCr, a: Agent, read: NumberReader)
  {
    var p, b := cr.spec, a.body;
    ListCanConverge(p.tags, Labels(b.tags)) && ListCanConverge(p.passthroughHeaders, b.passthroughHeaders) &&
    MapCanConverge(FromRaw(p.capabilities, read), b.capabilities) && MapCanConverge(FromRaw(p.config, read), b.config)
  }

  lemma ListConvergesExactly(sent: Slice, prior: seq<string>, kept: seq<string>)
    requires Keeps(OmitEmpty(sent), prior, kept)
    ensures SameElements(sent.List(), kept) <==> ListCanConverge(sent, prior)
    ensures ListCanConverge(sent, kept) <==> ListCanConverge(sent, prior)
  {
    assert prior != [] ==> prior[0] in multiset(prior);
    assert kept != [] ==> kept[0] in multiset(kept);
  }

  lemma MapConvergesExactly(sent: Option<JsonMap>, prior: Option<JsonMap>, kept: Option<JsonMap>)
    requires kept == if OmitEmptyMap(sent).Some? then sent else prior
    ensures JsonMapsEqual(sent, kept) <==> MapCanConverge(sent, prior)
    ensures MapCanConverge(sent, kept) <==> MapCanConverge(sent, prior)
  {
  }

  /** An accepted update leaves the agent up to date exactly when it can; if not, the next
      update is no better off. */
  lemma UpdateConvergesExactly(cr: AgentCr, teamId: string, auth: Auth, read: NumberReader, a: Agent, b: Agent)
    requires Updated(ToUpdate(cr, teamId, auth, read), a, b)
    ensures IsUpToDate(cr, teamId, b, read) <==> CanConverge(cr, a, read)
    ensures CanConverge(cr, b, read) <==> CanConverge(cr, a, read)
  {
    ListConvergesExactly(cr.spec.tags, Labels(a.body.tags), Labels(b.body.tags));
    ListConvergesExactly(cr.spec.passthroughHeaders, a.body.passthroughHeaders, b.body.passthroughHeaders);
    MapConvergesExactly(FromRaw(cr.spec.capabilities, read), a.body.capabilities, b.body.capabilities);
    MapConvergesExactly(FromRaw(cr.spec.config, read), a.body.config, b.body.config);
  }

  /** Successive states of an agent, each made of the one before by an accepted update. */
  ghost predicate UpdateChain(cr: AgentCr, teamId: string, auths: seq<Auth>, read: NumberReader, agents: seq<Agent>)
    decreases |auths|
  {
    |agents| == |auths| + 1 &&
    (auths == [] ||
     (Updated(ToUpdate(cr, teamId, auths[0], read), agents[0], agents[1]) && UpdateChain(cr, teamId, auths[1..], read, agents[1..])))
  }

  /** Any number of accepted updates ends up to date exactly when the first one does. */
  lemma {:induction false} RepeatedUpdatesConvergeExactly(cr: AgentCr, teamId: string, auths: seq<Auth>,
        read: NumberReader, agents: seq<Agent>)
    requires auths != [] && UpdateChain(cr, teamId, auths, read, agents)
    ensures IsUpToDate(cr, teamId, agents[|agents| - 1], read) <==> CanConverge(cr, agents[0], read)
    decreases |auths|
  {
    UpdateConvergesExactly(cr, teamId, auths[0], read, agents[0], agents[1]);
    if |auths| > 1 { RepeatedUpdatesConvergeExactly(cr, teamId, auths[1..], read, agents[1..]); }
  }

  /** What an Update that succeeds leaves behind. */
  lemma SuccessfulUpdate(cr: AgentCr, store: Agents, read: NumberReader, kube: Kube,
        net: AgentNet) returns (teamId: string, auth: Auth, b: Agent)
    requires ValidParams(cr.spec) && Honours(net) && AfterUpdate(cr, store, read, kube, net).result.Ok?
    ensures TeamResolve.Resolve(kube, cr.key.namespace, cr.spec.teamRef) == Ok(teamId)
    ensures cr.externalName in store && Updated(ToUpdate(cr, teamId, auth, read), store[cr.externalName], b)
    ensures var o := AfterUpdate(cr, store, read, kube, net);
            o.cr == cr.(statusId := b.id) && o.store == store[cr.externalName := b]
  {
    teamId := TeamResolve.Resolve(kube, cr.key.namespace, cr.spec.teamRef).value;
    auth := Resolved(kube, cr.key.namespace, cr.spec.auth).value;
    var u := ToUpdate(cr, teamId, auth, read);
    b := net.update(u, store[cr.externalName]);
  }

  lemma StatusDoesNotMatter(cr: AgentCr, teamId: string, a: Agent, read: NumberReader)
    ensures IsUpToDate(cr.(statusId := a.id), teamId, a, read) == IsUpToDate(cr, teamId, a, read)
  {
  }

  /** After an Update that succeeds, Observe reports the agent up to date exactly when the
      update could converge. */
  lemma ObserveAfterUpdate(cr: AgentCr, store: Agents, read: NumberReader, kube: Kube, net: AgentNet, next: AgentNet)
    requires ValidParams(cr.spec) && cr.externalName != "" && !cr.deleted && Honours(net)
    requires AfterUpdate(cr, store, read, kube, net).result.Ok? && next.get.Delivered?
    requires Resolves(AfterUpdate(cr, store, read, kube, net).store, cr.externalName, next.hit)
    ensures cr.externalName in store
    ensures var o := AfterUpdate(cr, store, read, kube, net);
            AfterObserve(o.cr, o.store, read, kube, next).result
            == Ok(Observation(true, CanConverge(cr, store[cr.externalName], read), None))
  {
    var teamId, auth, b := SuccessfulUpdate(cr, store, read, kube, net);
    UpdateConvergesExactly(cr, teamId, auth, read, store[cr.externalName], b);
    StatusDoesNotMatter(cr, teamId, b, read);
  }

  /** An agent whose spec names no capabilities never settles on a remote that answers an
      empty map for them. */
  lemma EmptyCapabilitiesNeverConverge(cr: AgentCr, teamId: string, auths: seq<Auth>, read: NumberReader, agents: seq<Agent>)
    requires cr.spec.capabilities.None? && auths != [] && UpdateChain(cr, teamId, auths, read, agents)
    requires agents[0].body.capabilities == Some(map[])
    ensures !IsUpToDate(cr, teamId, agents[|agents| - 1], read)
  {
    EmptyMapIsNotNil();
    RepeatedUpdatesConvergeExactly(cr, teamId, auths, read, agents);
  }

  /** The same record, up to its endpoint, its credentials and the order of its lists. */
  ghost predicate SameUpToEndpointAuthAndOrder(a: Agent, b: Agent)
  {
    b == a.(body := a.body.(endpointUrl := b.body.endpointUrl, auth := b.body.auth,
                            tags := b.body.tags, passthroughHeaders := b.body.passthroughHeaders)) &&
    multiset(Labels(b.body.tags)) == multiset(Labels(a.body.tags)) &&
    multiset(b.body.passthroughHeaders) == multiset(a.body.passthroughHeaders)
  }

  lemma ListIsNeedlessExactly(sent: Slice, prior: seq<string>, kept: seq<string>)
    requires Keeps(OmitEmpty(sent), prior, kept)
    ensures SameElements(sent.List(), prior) <==> ListCanConverge(sent, prior) && multiset(kept) == multiset(prior)
  {
    assert prior != [] ==> prior[0] in multiset(prior);
  }

  lemma MapIsNeedlessExactly(sent: Option<JsonMap>, prior: Option<JsonMap>, kept: Option<JsonMap>, read: NumberReader)
    requires sent.Some? ==> Decoded(Obj(sent.value), read, MAX_DEPTH)
    requires prior.Some? ==> Decoded(Obj(prior.value), read, MAX_DEPTH)
    requires kept == if OmitEmptyMap(sent).Some? then sent else prior
    ensures JsonMapsEqual(sent, prior) <==> MapCanConverge(sent, prior) && kept == prior
  {
    JsonMapsEqualExactly(sent, prior, read, MAX_DEPTH);
  }

  /** The same name, slug and other single values, except the endpoint and the credentials. */
  predicate SameScalars(a: Agent, b: Agent)
  {
    a.id == b.id && a.name == b.name && a.slug == b.slug && a.body.description == b.body.description &&
    a.body.agentType == b.body.agentType && a.body.protocolVersion == b.body.protocolVersion &&
    a.body.teamId == b.body.teamId && a.body.visibility == b.body.visibility
  }

  lemma ScalarsAreNeedlessExactly(cr: AgentCr, teamId: string, auth: Auth, read: NumberReader, a: Agent, b: Agent)
    requires Updated(ToUpdate(cr, teamId, auth, read), a, b)
    ensures ScalarsUpToDate(cr, teamId, a) <==> SameScalars(a, b)
  {
  }

  lemma SameFieldByField(a: Agent, b: Agent)
    ensures SameUpToEndpointAuthAndOrder(a, b) <==>
            SameScalars(a, b) && a.body.capabilities == b.body.capabilities && a.body.config == b.body.config &&
            multiset(Labels(b.body.tags)) == multiset(Labels(a.body.tags)) &&
            multiset(b.body.passthroughHeaders) == multiset(a.body.passthroughHeaders)
  {
  }

  /** The check passes exactly when an update can converge and would change nothing but
      the endpoint, the credentials and the order of the lists: it looks at neither
      endpoint nor credentials, which an update always sets. */
  lemma UpToDateExactlyWhenUpdateIsNeedless(cr: AgentCr, teamId: string, auth: Auth, read: NumberReader, a: Agent, b: Agent)
    requires ReadsNumbers(read)
    requires a.body.capabilities.Some? ==> Decoded(Obj(a.body.capabilities.value), read, MAX_DEPTH)
    requires a.body.config.Some? ==> Decoded(Obj(a.body.config.value), read, MAX_DEPTH)
    requires Updated(ToUpdate(cr, teamId, auth, read), a, b)
    ensures IsUpToDate(cr, teamId, a, read) <==> CanConverge(cr, a, read) && SameUpToEndpointAuthAndOrder(a, b)
    ensures b.body.endpointUrl == cr.spec.endpointUrl && b.body.auth == AuthAfter(a.body.auth, auth)
    ensures b.name == if cr.spec.name.Some? then cr.spec.name.value else cr.key.name
  {
    FromRawDecodes(cr.spec.capabilities, read);
    FromRawDecodes(cr.spec.config, read);
    ListIsNeedlessExactly(cr.spec.tags, Labels(a.body.tags), Labels(b.body.tags));
    ListIsNeedlessExactly(cr.spec.passthroughHeaders, a.body.passthroughHeaders, b.body.passthroughHeaders);
    MapIsNeedlessExactly(FromRaw(cr.spec.capabilities, read), a.body.capabilities, b.body.capabilities, read);
    MapIsNeedlessExactly(FromRaw(cr.spec.config, read), a.body.config, b.body.config, read);
    ScalarsAreNeedlessExactly(cr, teamId, auth, read, a, b);
    SameFieldByField(a, b);
  }

  // ---------- Creation and deletion ----------

  /** An agent that the remote made as asked has the endpoint and credentials asked for.
      It is up to date exactly when an update could converge: the remote chooses a map
      that the request leaves out. */
  lemma CreatedIsUpToDateExactly(cr: AgentCr, teamId: string, auth: Auth, read: NumberReader, a: Agent)
    requires Created(ToCreate(cr, teamId, auth, read), a)
    ensures IsUpToDate(cr, teamId, a, read) <==> CanConverge(cr, a, read)
    ensures a.body.endpointUrl == cr.spec.endpointUrl && a.body.auth == AuthAfter(NO_AUTH, auth)
    ensures a.name == if cr.spec.name.Some? then cr.spec.name.value else cr.key.name
  {
    ListConvergesExactly(cr.spec.tags, [], Labels(a.body.tags));
    ListConvergesExactly(cr.spec.passthroughHeaders, [], a.body.passthroughHeaders);
  }

  /** What a Create that succeeds leaves behind: a record made as asked, or the one adopted. */
  lemma SuccessfulCreate(cr: AgentCr, store: Agents, read: NumberReader, kube: Kube,
        net: AgentNet) returns (teamId: string, auth: Auth)
    requires ValidParams(cr.spec) && Honours(net) && KeepsIds(store) && AfterCreate(cr, store, read, kube, net).result.Ok?
    ensures TeamResolve.Resolve(kube, cr.key.namespace, cr.spec.teamRef) == Ok(teamId)
    ensures var o := AfterCreate(cr, store, read, kube, net);
            var id := o.cr.externalName;
            o.cr == cr.(externalName := id, statusId := id) && id in o.store && o.store[id].id == id &&
            if NameTaken(store, ResolvedName(cr)) then o.store == store
            else Created(ToCreate(cr, teamId, auth, read), o.store[id])
  {
    teamId := TeamResolve.Resolve(kube, cr.key.namespace, cr.spec.teamRef).value;
    auth := Resolved(kube, cr.key.namespace, cr.spec.auth).value;
  }

  lemma NamesDoNotMatter(cr: AgentCr, teamId: string, a: Agent, read: NumberReader, id: string)
    ensures IsUpToDate(cr.(externalName := id, statusId := id), teamId, a, read) == IsUpToDate(cr, teamId, a, read)
  {
  }

  /** After a Create that succeeds, Observe finds the agent. If the remote made it, it is
      up to date exactly when an update could converge; an agent that was adopted is as
      it was. */
  lemma ObserveAfterCreate(cr: AgentCr, store: Agents, read: NumberReader, kube: Kube, net: AgentNet, next: AgentNet)
    requires ValidParams(cr.spec) && !cr.deleted && Honours(net) && KeepsIds(store)
    requires AfterCreate(cr, store, read, kube, net).result.Ok? && AfterCreate(cr, store, read, kube, net).cr.externalName != ""
    requires next.get.Delivered?
    requires var o := AfterCreate(cr, store, read, kube, net); Resolves(o.store, o.cr.externalName, next.hit)
    ensures var o := AfterCreate(cr, store, read, kube, net);
            var teamId := TeamResolve.Resolve(kube, cr.key.namespace, cr.spec.teamRef).value;
            o.cr.externalName in o.store &&
            var a := o.store[o.cr.externalName];
            AfterObserve(o.cr, o.store, read, kube, next).result
            == Ok(Observation(true, IsUpToDate(cr, teamId, a, read), None)) &&
            if NameTaken(store, ResolvedName(cr)) then o.store == store
            else IsUpToDate(cr, teamId, a, read) <==> CanConverge(cr, a, read)
  {
    var teamId, auth := SuccessfulCreate(cr, store, read, kube, net);
    var o := AfterCreate(cr, store, read, kube, net);
    var a := o.store[o.cr.externalName];
    NamesDoNotMatter(cr, teamId, a, read, a.id);
    if !NameTaken(store, ResolvedName(cr)) { CreatedIsUpToDateExactly(cr, teamId, auth, read, a); }
  }

  /** A Create whose Team and credentials resolve is one attempt at making or adopting
      the record of the resolved name; any other Create does nothing. */
  lemma CreateIsAnAttempt(cr: AgentCr, store: Agents, read: NumberReader, kube: Kube, net: AgentNet, saved: bool,
        made: map<string, string>)
    requires ValidParams(cr.spec)
    ensures var o := AfterCreate(cr, store, read, kube, net);
            var team := TeamResolve.Resolve(kube, cr.key.namespace, cr.spec.teamRef);
            var auth := Resolved(kube, cr.key.namespace, cr.spec.auth);
            if team.Ok? && auth.Ok? then
              var stored := net.create(ToCreate(cr, team.value, auth.value, read));
              var attempt := Attempt(ResolvedName(cr), stored, net.hit, net.post, net.get, saved);
              var t := Step(Creation(store, cr.externalName, made), attempt);
              o.store == t.store && (if saved then o.cr.externalName else cr.externalName) == t.externalName &&
              (Honours(net) ==> stored.name == ResolvedName(cr))
            else o.store == store && o.cr == cr && o.result.Err?
  {
    var team := TeamResolve.Resolve(kube, cr.key.namespace, cr.spec.teamRef);
    var auth := Resolved(kube, cr.key.namespace, cr.spec.auth);
    if team.Ok? && auth.Ok? && Honours(net) {
      var q := ToCreate(cr, team.value, auth.value, read);
      assert Created(q, net.create(q));
    }
  }

  /** A reconcile of an agent marked deleted is a deletion round, whatever fails and whatever
      the cluster holds: its Team may be gone. */
  lemma DeletionIsARound(cr: AgentCr, store: Agents, read: NumberReader, kube: Kube, net: AgentNet)
    requires cr.deleted && Resolves(store, cr.externalName, net.hit)
    ensures var (next, finished) := DeletionRound(store, cr.externalName, Round(net.hit, net.get, net.delete));
            match Decide(cr.deleted, AfterObserve(cr, store, read, kube, net).result)
            case DropFinalizer => finished && next == store
            case CallDelete =>
              !finished && AfterDelete(cr, store, net).store == next &&
              AfterDelete(cr, store, net).result == if net.delete.Delivered? then Ok(()) else Err(Api(Failed))
            case GiveUp => !finished && next == store && !net.get.Delivered?
            case _ => false
  {
  }

  /** Unlike a virtual server, an agent can be left behind. When a Create makes the
      record and the resource is then deleted, the finalizer is dropped at once, with the
      record still there, exactly when the response or the external name was lost. */
  lemma CreateThenDeletionLeaksExactly(cr: AgentCr, store: Agents, read: NumberReader, kube: Kube, net: AgentNet,
        saved: bool, next: AgentNet)
    requires ValidParams(cr.spec) && cr.externalName == "" && !net.post.Refused? && !NameTaken(store, ResolvedName(cr))
    requires TeamResolve.Resolve(kube, cr.key.namespace, cr.spec.teamRef).Ok?
    requires Resolved(kube, cr.key.namespace, cr.spec.auth).Ok?
    requires var q := ToCreate(cr, TeamResolve.Resolve(kube, cr.key.namespace, cr.spec.teamRef).value,
                               Resolved(kube, cr.key.namespace, cr.spec.auth).value, read);
             net.create(q).id != "" && net.create(q).id !in store
    requires var o := AfterCreate(cr, store, read, kube, net);
             next.get.Delivered? && Resolves(o.store, if saved then o.cr.externalName else "", next.hit)
    ensures var o := AfterCreate(cr, store, read, kube, net);
            var gone := (if saved then o.cr else cr).(deleted := true);
            var team := TeamResolve.Resolve(kube, cr.key.namespace, cr.spec.teamRef).value;
            var auth := Resolved(kube, cr.key.namespace, cr.spec.auth).value;
            var made := net.create(ToCreate(cr, team, auth, read));
            o.store == store[made.id := made] &&
            (Decide(true, AfterObserve(gone, o.store, read, kube, next).result) == DropFinalizer <==>
             net.post.ResponseLost? || !saved)
  {
  }
}
