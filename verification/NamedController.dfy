/** A controller of records that the remote finds by id, name or slug, and what every
    such controller achieves over whole sequences of operations. The gateway and the
    agent controller are two of them. */
module NamedController {
  import opened Wrappers
  import opened Remote
  import opened Managed
  import opened NamedRecords
  import N = NamedReconciles

  /** S is the spec, Q and U are the bodies of create and update requests, B is what a
      record holds. waits says why the Team is not ready, if it is not; toCreate and
      toUpdate fail while the Team or the credentials are missing. */
  datatype Controller<!S, !Q, !U, !B> = Controller(
    name: Cr<S> -> string,
    waits: (Cr<S>, Kube) -> Option<Failure>,
    toCreate: (Cr<S>, Kube) -> Result<Q, Failure>,
    toUpdate: (Cr<S>, Kube) -> Result<U, Failure>,
    upToDate: (Cr<S>, Kube, Named<B>) -> bool,
    canConverge: (Cr<S>, Named<B>) -> bool,
    honours: Net<Q, U, Named<B>> -> bool,
    observe: (Cr<S>, Store<B>, Kube, Net<Q, U, Named<B>>) -> (Cr<S>, Result<Observation, Failure>),
    create: (Cr<S>, Store<B>, Kube, Net<Q, U, Named<B>>) -> (Cr<S>, Store<B>, Result<(), Failure>),
    update: (Cr<S>, Store<B>, Kube, Net<Q, U, Named<B>>) -> (Cr<S>, Store<B>, Result<(), Failure>),
    delete: (Cr<S>, Store<B>, Net<Q, U, Named<B>>) -> (Store<B>, Result<(), Failure>))

  // ---------- What makes a controller one of these ----------

  /** The same resource, up to what the controller keeps about the remote. */
  predicate SameResource<S(==)>(cr: Cr<S>, base: Cr<S>)
  {
    cr == base.(externalName := cr.externalName, statusId := cr.statusId)
  }

  /** Names and payloads depend on the resource alone. */
  ghost predicate IgnoresIds<S(!new), Q(!new), U(!new), B(!new)>(c: Controller<S, Q, U, B>)
  {
    (forall cr, base | SameResource(cr, base) :: c.name(cr) == c.name(base)) &&
    (forall cr, base, kube | SameResource(cr, base) :: c.toCreate(cr, kube) == c.toCreate(base, kube)) &&
    (forall cr, base, kube | SameResource(cr, base) :: c.toUpdate(cr, kube) == c.toUpdate(base, kube))
  }

  /** Nor does the check depend on them, and it looks at the name. */
  ghost predicate ChecksTheName<S(!new), Q(!new), U(!new), B(!new)>(c: Controller<S, Q, U, B>)
  {
    (forall cr, base, kube, g | SameResource(cr, base) :: c.upToDate(cr, kube, g) == c.upToDate(base, kube, g)) &&
    forall cr, kube, g | c.upToDate(cr, kube, g) :: g.name == c.name(cr)
  }

  /** What an operation reports of the answer to its call. */
  function Reported<R>(answer: Result<R, ApiError>): Result<(), Failure>
  {
    match answer case Ok(_) => Ok(()) case Err(e) => Err(Api(e))
  }

  /** Create posts, adopts by name on a conflict, and takes external name and status from
      the record it ends up with; if it fails it takes nothing, and without Team or
      credentials it sends nothing. */
  ghost predicate Creates<S, Q, U, B>(c: Controller<S, Q, U, B>, cr: Cr<S>, store: Store<B>, kube: Kube,
        net: Net<Q, U, Named<B>>)
  {
    var (after, next, result) := c.create(cr, store, kube, net);
    match c.toCreate(cr, kube)
    case Err(e) => after == cr && next == store && result == Err(e)
    case Ok(q) =>
      var made := CreateOrAdopt(store, c.name(cr), net.create(q), net.hit, net.post, net.get);
      next == made.store && result == Reported(made.result) &&
      after == if made.result.Ok? then cr.(externalName := made.result.value.id, statusId := made.result.value.id) else cr
  }

  /** Observe looks the external name up. A failed lookup is an error, not an absence. What
      is found is compared unless the resource is deleted or waits for its Team. */
  ghost predicate Observes<S, Q, U, B>(c: Controller<S, Q, U, B>, cr: Cr<S>, store: Store<B>, kube: Kube,
        net: Net<Q, U, Named<B>>)
  {
    var (after, seen) := c.observe(cr, store, kube, net);
    var found := cr.externalName != "" && net.get.Delivered? && net.hit.Some? && net.hit.value in store;
    after == (if found then cr.(statusId := store[net.hit.value].id) else cr) &&
    if cr.externalName != "" && !net.get.Delivered? then seen == Err(Api(Failed))
    else if !found then seen == Ok(ABSENT)
    else if cr.deleted then seen == Ok(Observation(true, false, None))
    else if c.waits(cr, kube).Some? then seen == Err(c.waits(cr, kube).value)
    else seen == Ok(Observation(true, c.upToDate(cr, kube, store[net.hit.value]), None))
  }

  /** Update sends a partial update to the external name, and takes the status from the
      record that comes back. */
  ghost predicate Updates<S, Q, U, B>(c: Controller<S, Q, U, B>, cr: Cr<S>, store: Store<B>, kube: Kube,
        net: Net<Q, U, Named<B>>)
  {
    var (after, next, result) := c.update(cr, store, kube, net);
    match c.toUpdate(cr, kube)
    case Err(e) => after == cr && next == store && result == Err(e)
    case Ok(u) =>
      var put := PutOutcome(store, cr.externalName, u, net.update, NameTakenByOther(store, cr.externalName, c.name(cr)), net.put);
      next == put.store && result == Reported(put.result) &&
      after == if put.result.Ok? then cr.(statusId := put.result.value.id) else cr
  }

  /** Delete removes the record under the external name, and succeeds if the call is answered. */
  ghost predicate Deletes<S, Q, U, B>(c: Controller<S, Q, U, B>, cr: Cr<S>, store: Store<B>, net: Net<Q, U, Named<B>>)
  {
    c.delete(cr, store, net) ==
    (StoreAfterDelete(store, cr.externalName, net.delete), if net.delete.Delivered? then Ok(()) else Err(Api(Failed)))
  }

  ghost predicate CreatesOrAdopts<S(!new), Q(!new), U(!new), B(!new)>(c: Controller<S, Q, U, B>)
  {
    forall cr, store, kube, net :: Creates(c, cr, store, kube, net)
  }

  ghost predicate ObservesByExternalName<S(!new), Q(!new), U(!new), B(!new)>(c: Controller<S, Q, U, B>)
  {
    forall cr, store, kube, net :: Observes(c, cr, store, kube, net)
  }

  ghost predicate UpdatesByExternalName<S(!new), Q(!new), U(!new), B(!new)>(c: Controller<S, Q, U, B>)
  {
    forall cr, store, kube, net :: Updates(c, cr, store, kube, net)
  }

  ghost predicate DeletesByExternalName<S(!new), Q(!new), U(!new), B(!new)>(c: Controller<S, Q, U, B>)
  {
    forall cr, store, net :: Deletes(c, cr, store, net)
  }

  /** Whoever waits for the Team sends nothing. */
  ghost predicate WaitsForTheTeam<S(!new), Q(!new), U(!new), B(!new)>(c: Controller<S, Q, U, B>)
  {
    forall cr, kube | c.waits(cr, kube).Some? ::
      c.toCreate(cr, kube) == Err(c.waits(cr, kube).value) && c.toUpdate(cr, kube) == Err(c.waits(cr, kube).value)
  }

  /** What an update makes of a record keeps its id, and is up to date exactly when the
      record can converge. */
  predicate UpdateConverges<S, Q, U, B>(c: Controller<S, Q, U, B>, cr: Cr<S>, kube: Kube, g: Named<B>, h: Named<B>)
  {
    h.id == g.id && (c.upToDate(cr, kube, h) <==> c.canConverge(cr, g)) && (c.canConverge(cr, h) <==> c.canConverge(cr, g)) &&
    (c.upToDate(cr, kube, g) ==> c.canConverge(cr, g))
  }

  /** Where the remote does what is asked, updates obey convergence. */
  ghost predicate UpdatesObeyConvergence<S(!new), Q(!new), U(!new), B(!new)>(c: Controller<S, Q, U, B>)
  {
    forall cr, kube, net: Net<Q, U, Named<B>>, g | c.honours(net) && c.toUpdate(cr, kube).Ok? ::
      UpdateConverges(c, cr, kube, g, net.update(c.toUpdate(cr, kube).value, g))
  }

  /** Where the remote does what is asked, records are made under the name. */
  ghost predicate AsksForTheName<S(!new), Q(!new), U(!new), B(!new)>(c: Controller<S, Q, U, B>)
  {
    forall cr, kube, net: Net<Q, U, Named<B>> | c.honours(net) && c.toCreate(cr, kube).Ok? ::
      net.create(c.toCreate(cr, kube).value).name == c.name(cr)
  }

  ghost predicate Lawful<S(!new), Q(!new), U(!new), B(!new)>(c: Controller<S, Q, U, B>)
  {
    IgnoresIds(c) && ChecksTheName(c) && CreatesOrAdopts(c) && ObservesByExternalName(c) && UpdatesByExternalName(c) &&
    DeletesByExternalName(c) && WaitsForTheTeam(c) && UpdatesObeyConvergence(c) && AsksForTheName(c)
  }

  // ---------- What single operations promise, whatever fails ----------

  /** The finalizer is dropped, or a Create follows, only if no record answers to the
      external name: a failed lookup leads to neither. */
  lemma {:induction false} FailedLookupsDecideNothing<S(!new), Q(!new), U(!new), B(!new)>(c: Controller<S, Q, U, B>, cr: Cr<S>,
        store: Store<B>, kube: Kube, net: Net<Q, U, Named<B>>)
    requires ObservesByExternalName(c)
    ensures var action := Decide(cr.deleted, c.observe(cr, store, kube, net).1);
            (action.DropFinalizer? || action.CallCreate? ==>
               cr.externalName == "" || (net.get.Delivered? && !(net.hit.Some? && net.hit.value in store))) &&
            (action.CallDelete? || action.CallUpdate? ==> net.get.Delivered? && net.hit.Some? && net.hit.value in store) &&
            (cr.externalName != "" && !net.get.Delivered? ==> action.GiveUp?)
  {
    assert Observes(c, cr, store, kube, net);
  }

  /** Create succeeds exactly when the payload is there, the remote answers, and a record
      is made or found. Then the external name and the status are the id of a record that
      is there; otherwise the resource is as it was, and the failure is that of the call. */
  lemma {:induction false} CreateReportsExactly<S(!new), Q(!new), U(!new), B(!new)>(c: Controller<S, Q, U, B>, cr: Cr<S>,
        store: Store<B>, kube: Kube, net: Net<Q, U, Named<B>>)
    requires CreatesOrAdopts(c) && KeepsIds(store)
    ensures var (after, next, result) := c.create(cr, store, kube, net);
            (result.Ok? <==>
               c.toCreate(cr, kube).Ok? && net.post.Delivered? &&
               (NameTaken(store, c.name(cr)) ==> net.get.Delivered? && net.hit.Some? && net.hit.value in store)) &&
            (result.Ok? ==>
               after.externalName in next && next[after.externalName].id == after.externalName == after.statusId) &&
            (result.Err? ==>
               after == cr &&
               result.error == if c.toCreate(cr, kube).Err? then c.toCreate(cr, kube).error
                               else Api(if net.post.Delivered? && net.get.Delivered? then NotFound else Failed))
  {
    assert Creates(c, cr, store, kube, net);
  }

  /** Update succeeds exactly when the payload is there, the remote answers, and the record
      is there and can take the name. Then the status is the id of what it made of it;
      otherwise the resource is as it was, and the failure tells which was missing. */
  lemma {:induction false} UpdateReportsExactly<S(!new), Q(!new), U(!new), B(!new)>(c: Controller<S, Q, U, B>, cr: Cr<S>,
        store: Store<B>, kube: Kube, net: Net<Q, U, Named<B>>)
    requires UpdatesByExternalName(c)
    ensures var (after, next, result) := c.update(cr, store, kube, net);
            var id := cr.externalName;
            (result.Ok? <==>
               c.toUpdate(cr, kube).Ok? && net.put.Delivered? && id in store && !NameTakenByOther(store, id, c.name(cr))) &&
            (result.Ok? ==> id in next && after.statusId == next[id].id && next[id] == net.update(c.toUpdate(cr, kube).value, store[id])) &&
            (result.Err? ==>
               after == cr &&
               result.error == if c.toUpdate(cr, kube).Err? then c.toUpdate(cr, kube).error
                               else Api(if !net.put.Delivered? then Failed else if id in store then Conflict else NotFound)) &&
            next.Keys == store.Keys && forall k | k in store && k != id :: next[k] == store[k]
  {
    assert Updates(c, cr, store, kube, net);
  }

  // ---------- Creations ----------

  /** A Create, whose external name is saved or lost, an edit of the spec, or a change of
      the remote by others. */
  datatype Happening<!S, !Q, !U, !B> =
    | Creating(kube: Kube, net: Net<Q, U, Named<B>>, saved: bool)
    | Editing(spec: S)
    | Changing(store: Store<B>)

  function Creations<S, Q, U, B>(c: Controller<S, Q, U, B>, cr: Cr<S>, store: Store<B>,
        hs: seq<Happening<S, Q, U, B>>): (Cr<S>, Store<B>)
    decreases |hs|
  {
    if hs == [] then (cr, store) else
      match hs[0]
      case Creating(kube, net, saved) =>
        var (after, next, _) := c.create(cr, store, kube, net);
        Creations(c, cr.(externalName := if saved then after.externalName else cr.externalName), next, hs[1..])
      case Editing(spec) => Creations(c, cr.(spec := spec), store, hs[1..])
      case Changing(next) => Creations(c, cr, next, hs[1..])
  }

  /** The attempt that a Create makes, under the name that is resolved at the time; none
      without Team or credentials. */
  function AttemptOf<S, Q, U, B>(c: Controller<S, Q, U, B>, cr: Cr<S>, kube: Kube, net: Net<Q, U, Named<B>>,
        saved: bool): seq<Event<B>>
  {
    match c.toCreate(cr, kube)
    case Err(_) => []
    case Ok(q) => [Attempt(c.name(cr), net.create(q), net.hit, net.post, net.get, saved)]
  }

  /** The attempts that these operations make. */
  function Attempts<S, Q, U, B>(c: Controller<S, Q, U, B>, cr: Cr<S>, hs: seq<Happening<S, Q, U, B>>): seq<Event<B>>
    decreases |hs|
  {
    if hs == [] then [] else
      match hs[0]
      case Creating(kube, net, saved) => AttemptOf(c, cr, kube, net, saved) + Attempts(c, cr, hs[1..])
      case Editing(spec) => Attempts(c, cr.(spec := spec), hs[1..])
      case Changing(next) => [Others(next)] + Attempts(c, cr, hs[1..])
  }

  lemma {:induction false} AttemptsIgnoreTheExternalName<S(!new), Q(!new), U(!new), B(!new)>(c: Controller<S, Q, U, B>,
        cr: Cr<S>, hs: seq<Happening<S, Q, U, B>>, externalName: string)
    requires IgnoresIds(c)
    ensures Attempts(c, cr.(externalName := externalName), hs) == Attempts(c, cr, hs)
    decreases |hs|
  {
    if hs != [] {
      match hs[0]
      case Creating(kube, net, saved) =>
        assert SameResource(cr.(externalName := externalName), cr);
        AttemptsIgnoreTheExternalName(c, cr, hs[1..], externalName);
      case Editing(spec) => AttemptsIgnoreTheExternalName(c, cr.(spec := spec), hs[1..], externalName);
      case Changing(_) => AttemptsIgnoreTheExternalName(c, cr, hs[1..], externalName);
    }
  }

  /** A Create runs as the attempt that it makes. */
  lemma {:induction false} CreateRunsItsAttempt<S(!new), Q(!new), U(!new), B(!new)>(c: Controller<S, Q, U, B>, cr: Cr<S>, store: Store<B>,
        kube: Kube, net: Net<Q, U, Named<B>>, saved: bool, made: map<string, string>)
    requires CreatesOrAdopts(c)
    ensures var t := Run(Creation(store, cr.externalName, made), AttemptOf(c, cr, kube, net, saved));
            var (after, next, _) := c.create(cr, store, kube, net);
            t.store == next && t.externalName == if saved then after.externalName else cr.externalName
  {
    assert Creates(c, cr, store, kube, net);
    var s, es := Creation(store, cr.externalName, made), AttemptOf(c, cr, kube, net, saved);
    if es != [] {
      assert es[1..] == [];
      assert Run(Step(s, es[0]), []) == Step(s, es[0]);
    }
  }

  /** A sequence of Creates and edits runs as the attempts that it makes. */
  lemma {:induction false} CreationsAreAttempts<S(!new), Q(!new), U(!new), B(!new)>(c: Controller<S, Q, U, B>,
        cr: Cr<S>, store: Store<B>, hs: seq<Happening<S, Q, U, B>>, made: map<string, string>)
    requires IgnoresIds(c) && CreatesOrAdopts(c)
    ensures var t := Run(Creation(store, cr.externalName, made), Attempts(c, cr, hs));
            var (after, next) := Creations(c, cr, store, hs);
            after.externalName == t.externalName && next == t.store && after.deleted == cr.deleted
    decreases |hs|
  {
    if hs != [] {
      match hs[0]
      case Changing(next) =>
        CreationsAreAttempts(c, cr, next, hs[1..], made);
        assert Attempts(c, cr, hs)[1..] == Attempts(c, cr, hs[1..]);
      case Editing(spec) => CreationsAreAttempts(c, cr.(spec := spec), store, hs[1..], made);
      case Creating(kube, net, saved) =>
        var s, es := Creation(store, cr.externalName, made), AttemptOf(c, cr, kube, net, saved);
        var t := Run(s, es);
        CreateRunsItsAttempt(c, cr, store, kube, net, saved, made);
        AttemptsIgnoreTheExternalName(c, cr, hs[1..], t.externalName);
        CreationsAreAttempts(c, cr.(externalName := t.externalName), t.store, hs[1..], t.made);
        RunConcat(s, es, Attempts(c, cr, hs[1..]));
    }
  }

  /** The ids of the records that the remote made for a sequence of Creates and edits,
      each with the name it was made under. */
  function Made<S, Q, U, B>(c: Controller<S, Q, U, B>, cr: Cr<S>, store: Store<B>,
        hs: seq<Happening<S, Q, U, B>>): map<string, string>
  {
    Run(Creation(store, cr.externalName, map[]), Attempts(c, cr, hs)).made
  }

  ghost predicate NeverEdits<S, Q, U, B>(hs: seq<Happening<S, Q, U, B>>)
  {
    forall i | 0 <= i < |hs| :: !hs[i].Editing?
  }

  lemma {:induction false} AttemptsAreUnderTheName<S, Q, U, B>(c: Controller<S, Q, U, B>, cr: Cr<S>,
        hs: seq<Happening<S, Q, U, B>>)
    requires NeverEdits(hs)
    ensures AllUnder(c.name(cr), Attempts(c, cr, hs))
    decreases |hs|
  {
    if hs != [] { AttemptsAreUnderTheName(c, cr, hs[1..]); }
  }

  // ---------- Deletion ----------

  /** What one reconcile meets. */
  datatype Meeting<!Q, !U, !B> = Meeting(kube: Kube, net: Net<Q, U, Named<B>>)

  /** Reconciles of a resource marked deleted, until the finalizer is dropped. */
  function Deletions<S, Q, U, B>(c: Controller<S, Q, U, B>, cr: Cr<S>, store: Store<B>,
        rounds: seq<Meeting<Q, U, B>>): (Store<B>, bool)
    decreases |rounds|
  {
    if rounds == [] then (store, false) else
      match Decide(cr.deleted, c.observe(cr, store, rounds[0].kube, rounds[0].net).1)
      case DropFinalizer => (store, true)
      case CallDelete => Deletions(c, cr, c.delete(cr, store, rounds[0].net).0, rounds[1..])
      case _ => Deletions(c, cr, store, rounds[1..])
  }

  /** What the reconciles meet, in terms of the records alone. */
  function RecordRounds<Q, U, B>(rounds: seq<Meeting<Q, U, B>>): seq<Round>
  {
    if rounds == [] then [] else
      [Round(rounds[0].net.hit, rounds[0].net.get, rounds[0].net.delete)] + RecordRounds(rounds[1..])
  }

  /** The reconciles of a deleted resource are the rounds of deletion that their calls
      make, whatever faults they meet. */
  lemma {:induction false} DeletionsAreRounds<S(!new), Q(!new), U(!new), B(!new)>(c: Controller<S, Q, U, B>, cr: Cr<S>,
        store: Store<B>, rounds: seq<Meeting<Q, U, B>>)
    requires ObservesByExternalName(c) && DeletesByExternalName(c) && cr.deleted
    requires RoundsResolve(store, cr.externalName, RecordRounds(rounds))
    ensures Deletions(c, cr, store, rounds) == DeletionRounds(store, cr.externalName, RecordRounds(rounds))
    decreases |rounds|
  {
    if rounds != [] {
      var net := rounds[0].net;
      var rs := RecordRounds(rounds);
      assert rs[0] == Round(net.hit, net.get, net.delete) && rs[1..] == RecordRounds(rounds[1..]);
      assert Resolves(store, cr.externalName, net.hit);
      assert Observes(c, cr, store, rounds[0].kube, net) && Deletes(c, cr, store, net);
      var (next, finished) := DeletionRound(store, cr.externalName, rs[0]);
      if !finished { DeletionsAreRounds(c, cr, next, rounds[1..]); }
    }
  }

  /** Creates of a new resource in any sequence, among edits of its spec and changes by
      others, then deletion by reconciles of which two meet no fault. Deletion finishes
      unless another record has the external name as its name or slug. Then what is left of the records
      that the remote made is all of them but the one whose id was stored. */
  lemma {:induction false} LeavesNothingBehindExactly<S(!new), Q(!new), U(!new), B(!new)>(c: Controller<S, Q, U, B>, cr: Cr<S>,
        store: Store<B>, hs: seq<Happening<S, Q, U, B>>, rounds: seq<Meeting<Q, U, B>>)
    requires Lawful(c) && cr.externalName == "" && Clean(RecordRounds(rounds)) >= 2
    requires Legal(Creation(store, "", map[]), Attempts(c, cr, hs)) && SparesMade(Creation(store, "", map[]), Attempts(c, cr, hs))
    requires var (after, next) := Creations(c, cr, store, hs); RoundsResolve(next, after.externalName, RecordRounds(rounds))
    ensures var (after, next) := Creations(c, cr, store, hs);
            var (left, finished) := Deletions(c, after.(deleted := true), next, rounds);
            var made := Made(c, cr, store, hs).Keys;
            (finished <==> after.externalName == "" || !Shadowed(next, after.externalName)) &&
            (finished ==>
               made * left.Keys == made - {after.externalName} && (made !! left.Keys <==> made <= {after.externalName}))
  {
    CreationsAreAttempts(c, cr, store, hs, map[]);
    var (after, next) := Creations(c, cr, store, hs);
    DeletionsAreRounds(c, after.(deleted := true), next, rounds);
    NamedRecords.LeavesNothingBehindExactly(Creation(store, "", map[]), Attempts(c, cr, hs), RecordRounds(rounds));
  }

  /** If the spec is never edited, no record of the name is left exactly when the external
      name was stored, or there was none before and the remote made none. */
  lemma {:induction false} LeavesNoneOfTheNameExactly<S(!new), Q(!new), U(!new), B(!new)>(c: Controller<S, Q, U, B>, cr: Cr<S>,
        store: Store<B>, hs: seq<Happening<S, Q, U, B>>, rounds: seq<Meeting<Q, U, B>>)
    requires Lawful(c) && cr.externalName == "" && NeverEdits(hs)
    requires var s := Creation(store, "", map[]);
             Sound(c.name(cr), store) && Legal(s, Attempts(c, cr, hs)) && Spares(c.name(cr), s, Attempts(c, cr, hs))
    requires var (after, next) := Creations(c, cr, store, hs); RoundsResolve(next, after.externalName, RecordRounds(rounds))
    ensures var (after, next) := Creations(c, cr, store, hs);
            var (left, finished) := Deletions(c, after.(deleted := true), next, rounds);
            finished ==>
              (Holders(left, c.name(cr)) == {} <==>
               after.externalName != "" || (Holders(store, c.name(cr)) == {} && Made(c, cr, store, hs) == map[]))
  {
    CreationsAreAttempts(c, cr, store, hs, map[]);
    AttemptsAreUnderTheName(c, cr, hs);
    var (after, next) := Creations(c, cr, store, hs);
    DeletionsAreRounds(c, after.(deleted := true), next, rounds);
    var s, es := Creation(store, "", map[]), Attempts(c, cr, hs);
    if DeletionRounds(next, after.externalName, RecordRounds(rounds)).1 {
      NamedRecords.LeavesNoneOfTheNameExactly(c.name(cr), s, es, RecordRounds(rounds));
      MadeUnderTheName(c.name(cr), s, es);
    }
  }

  // ---------- An edited name ----------

  /** The record that a Create leads to if the remote makes one. */
  function Asked<S, Q, U, B>(c: Controller<S, Q, U, B>, cr: Cr<S>, kube: Kube, net: Net<Q, U, Named<B>>): Named<B>
    requires c.toCreate(cr, kube).Ok?
  {
    net.create(c.toCreate(cr, kube).value)
  }

  /** Two names that are free on the remote, and records of theirs with fresh ids. */
  ghost predicate FreshPair<B(!new)>(store: Store<B>, x: Named<B>, y: Named<B>)
  {
    KeepsIds(store) && !NameTaken(store, x.name) && !NameTaken(store, y.name) && x.name != y.name && x.id != y.id &&
    x.id != "" && x.id != x.name && x.id !in store && y.id != "" && y.id != y.name && y.id !in store
  }

  /** A Create, an edit of the spec, and another Create whose external name is saved. */
  function AroundAnEdit<S, Q, U, B>(kube: Kube, first: Net<Q, U, Named<B>>, saved: bool, spec: S,
        second: Net<Q, U, Named<B>>): seq<Happening<S, Q, U, B>>
  {
    [Creating(kube, first, saved), Editing(spec), Creating(kube, second, true)]
  }

  lemma {:induction false} AttemptsAroundAnEdit<S, Q, U, B>(c: Controller<S, Q, U, B>, cr: Cr<S>, spec: S, kube: Kube,
        first: Net<Q, U, Named<B>>, second: Net<Q, U, Named<B>>, saved: bool)
    returns (a: Event<B>, b: Event<B>)
    requires c.toCreate(cr, kube).Ok? && c.toCreate(cr.(spec := spec), kube).Ok?
    ensures a == Attempt(c.name(cr), Asked(c, cr, kube, first), first.hit, first.post, first.get, saved)
    ensures var edited := cr.(spec := spec);
            b == Attempt(c.name(edited), Asked(c, edited, kube, second), second.hit, second.post, second.get, true)
    ensures Attempts(c, cr, AroundAnEdit(kube, first, saved, spec, second)) == [a, b]
  {
    var edited := cr.(spec := spec);
    a := Attempt(c.name(cr), Asked(c, cr, kube, first), first.hit, first.post, first.get, saved);
    b := Attempt(c.name(edited), Asked(c, edited, kube, second), second.hit, second.post, second.get, true);
    var hs := AroundAnEdit(kube, first, saved, spec, second);
    var last: seq<Happening<S, Q, U, B>> := [Creating(kube, second, true)];
    var more := hs[1..];
    assert more[1..] == last && last[1..] == [];
    assert Attempts(c, edited, last) == [b] + [];
    assert Attempts(c, cr, more) == [b];
    assert Attempts(c, cr, hs) == [a] + [b];
  }

  /** An edited name leaks a record although an external name is stored: the first Create
      makes one and loses the response, the name is edited, the second Create makes
      another and its external name is saved, and deletion takes the second only. */
  lemma {:induction false} EditedNameLeaks<S(!new), Q(!new), U(!new), B(!new)>(c: Controller<S, Q, U, B>, cr: Cr<S>, spec: S,
        store: Store<B>, kube: Kube, first: Net<Q, U, Named<B>>, second: Net<Q, U, Named<B>>, saved: bool,
        rounds: seq<Meeting<Q, U, B>>)
    requires Lawful(c) && c.honours(first) && c.honours(second) && cr.externalName == ""
    requires c.toCreate(cr, kube).Ok? && c.toCreate(cr.(spec := spec), kube).Ok?
    requires first.post.ResponseLost? && second.post.Delivered?
    requires var x, y := Asked(c, cr, kube, first), Asked(c, cr.(spec := spec), kube, second);
             FreshPair(store, x, y) && Resolves(store, x.name, first.hit) && Resolves(store[x.id := x], y.name, second.hit) &&
             !Shadowed(store[x.id := x][y.id := y], y.id) && RoundsResolve(store[x.id := x][y.id := y], y.id, RecordRounds(rounds))
    requires Clean(RecordRounds(rounds)) >= 2
    ensures var (after, next) := Creations(c, cr, store, AroundAnEdit(kube, first, saved, spec, second));
            var (left, finished) := Deletions(c, after.(deleted := true), next, rounds);
            var x, y := Asked(c, cr, kube, first), Asked(c, cr.(spec := spec), kube, second);
            after.externalName == y.id && finished && x.id in left && x.id !in store && y.id !in left
  {
    var edited := cr.(spec := spec);
    var x, y := Asked(c, cr, kube, first), Asked(c, edited, kube, second);
    var hs := AroundAnEdit(kube, first, saved, spec, second);
    var a, b := AttemptsAroundAnEdit(c, cr, spec, kube, first, second, saved);
    assert x.name == c.name(cr) && y.name == c.name(edited);
    EditedNameMakesTwo(store, x, y, a, b);
    CreationsAreAttempts(c, cr, store, hs, map[]);
    var (after, next) := Creations(c, cr, store, hs);
    DeletionsAreRounds(c, after.(deleted := true), next, rounds);
    FirstOfTwoStays(store, x, y, RecordRounds(rounds));
  }

  // ---------- Reconciles until nothing is left to do ----------

  /** A failure-free reconcile: what its Observe and what its other operation meet. */
  datatype Pass<!Q, !U, !B> = Pass(seen: Net<Q, U, Named<B>>, act: Net<Q, U, Named<B>>)

  function Reconcile<S, Q, U, B>(c: Controller<S, Q, U, B>, cr: Cr<S>, store: Store<B>, kube: Kube,
        pass: Pass<Q, U, B>): (Cr<S>, Store<B>, Action)
  {
    var (seen, result) := c.observe(cr, store, kube, pass.seen);
    var action := Decide(cr.deleted, result);
    match action
    case CallCreate => var (after, next, _) := c.create(seen, store, kube, pass.act); (after, next, action)
    case CallUpdate => var (after, next, _) := c.update(seen, store, kube, pass.act); (after, next, action)
    case CallDelete => (seen, c.delete(seen, store, pass.act).0, action)
    case _ => (seen, store, action)
  }

  /** The action that the last of these reconciles decides on. */
  function LastAction<S, Q, U, B>(c: Controller<S, Q, U, B>, cr: Cr<S>, store: Store<B>, kube: Kube,
        passes: seq<Pass<Q, U, B>>): Action
    requires passes != []
    decreases |passes|
  {
    var (after, next, action) := Reconcile(c, cr, store, kube, passes[0]);
    if |passes| == 1 then action else LastAction(c, after, next, kube, passes[1..])
  }

  /** The resource is wanted, and its Team and credentials can be had. */
  predicate Wanted<S, Q, U, B>(c: Controller<S, Q, U, B>, cr: Cr<S>, kube: Kube)
  {
    !cr.deleted && c.toCreate(cr, kube).Ok? && c.toUpdate(cr, kube).Ok?
  }

  function UpToDate<S, Q, U, B>(c: Controller<S, Q, U, B>, cr: Cr<S>, kube: Kube): Named<B> -> bool
  {
    g => c.upToDate(cr, kube, g)
  }

  function Converging<S, Q, U, B>(c: Controller<S, Q, U, B>, cr: Cr<S>): Named<B> -> bool
  {
    g => c.canConverge(cr, g)
  }

  /** What a reconcile meets, in terms of the records alone. */
  function RecordPass<S, Q, U, B>(c: Controller<S, Q, U, B>, cr: Cr<S>, kube: Kube, pass: Pass<Q, U, B>): N.Pass<B>
    requires Wanted(c, cr, kube)
  {
    var u := c.toUpdate(cr, kube).value;
    N.Pass(pass.seen.hit, pass.act.hit, Asked(c, cr, kube, pass.act), g => pass.act.update(u, g))
  }

  function RecordPasses<S, Q, U, B>(c: Controller<S, Q, U, B>, cr: Cr<S>, kube: Kube,
        passes: seq<Pass<Q, U, B>>): (ps: seq<N.Pass<B>>)
    requires Wanted(c, cr, kube)
    ensures |ps| == |passes|
  {
    if passes == [] then [] else [RecordPass(c, cr, kube, passes[0])] + RecordPasses(c, cr, kube, passes[1..])
  }

  lemma {:induction false} ObserveIsALookup<S(!new), Q(!new), U(!new), B(!new)>(c: Controller<S, Q, U, B>, base: Cr<S>, cr: Cr<S>,
        store: Store<B>, kube: Kube, pass: Pass<Q, U, B>)
    requires IgnoresIds(c) && ObservesByExternalName(c) && ChecksTheName(c) && WaitsForTheTeam(c)
    requires Wanted(c, base, kube) && SameResource(cr, base) && pass.seen.Faultless()
    ensures var (after, seen) := c.observe(cr, store, kube, pass.seen);
            var found := N.Found(cr.externalName, store, RecordPass(c, base, kube, pass));
            SameResource(after, base) && after.externalName == cr.externalName &&
            seen == Ok(if found.None? then ABSENT else Observation(true, UpToDate(c, base, kube)(store[found.value]), None))
  {
    assert Observes(c, cr, store, kube, pass.seen);
    assert c.toCreate(cr, kube) == c.toCreate(base, kube);
  }

  lemma {:induction false} CreateMakesOrAdopts<S(!new), Q(!new), U(!new), B(!new)>(c: Controller<S, Q, U, B>, base: Cr<S>, cr: Cr<S>,
        store: Store<B>, kube: Kube, pass: Pass<Q, U, B>)
    requires IgnoresIds(c) && CreatesOrAdopts(c) && Wanted(c, base, kube) && SameResource(cr, base) && pass.act.Faultless()
    ensures var (after, next, _) := c.create(cr, store, kube, pass.act);
            var p := RecordPass(c, base, kube, pass);
            var made := CreateOrAdopt(store, c.name(base), p.stored, p.adopted, Delivered, Delivered);
            next == made.store && SameResource(after, base) &&
            after.externalName == if made.result.Ok? then made.result.value.id else cr.externalName
  {
    assert Creates(c, cr, store, kube, pass.act);
    assert c.toCreate(cr, kube) == c.toCreate(base, kube);
  }

  lemma {:induction false} UpdateAppliesTheRequest<S(!new), Q(!new), U(!new), B(!new)>(c: Controller<S, Q, U, B>, base: Cr<S>, cr: Cr<S>,
        store: Store<B>, kube: Kube, pass: Pass<Q, U, B>)
    requires IgnoresIds(c) && UpdatesByExternalName(c) && Wanted(c, base, kube) && SameResource(cr, base) && pass.act.Faultless()
    ensures var (after, next, _) := c.update(cr, store, kube, pass.act);
            var p, id := RecordPass(c, base, kube, pass), cr.externalName;
            SameResource(after, base) && after.externalName == id &&
            next == if id in store && !NameTakenByOther(store, id, c.name(base)) then store[id := p.update(store[id])] else store
  {
    assert Updates(c, cr, store, kube, pass.act);
    assert c.toUpdate(cr, kube) == c.toUpdate(base, kube);
  }

  /** A failure-free reconcile is a reconcile of the records. */
  lemma {:induction false} PassIsARecordPass<S(!new), Q(!new), U(!new), B(!new)>(c: Controller<S, Q, U, B>, base: Cr<S>, cr: Cr<S>,
        store: Store<B>, kube: Kube, pass: Pass<Q, U, B>)
    requires Lawful(c) && Wanted(c, base, kube) && SameResource(cr, base)
    requires pass.seen.Faultless() && pass.act.Faultless()
    ensures var (after, next, action) := Reconcile(c, cr, store, kube, pass);
            SameResource(after, base) &&
            (after.externalName, next, action) ==
            N.Reconcile(c.name(base), UpToDate(c, base, kube), cr.externalName, store, RecordPass(c, base, kube, pass))
  {
    ObserveIsALookup(c, base, cr, store, kube, pass);
    var seen := c.observe(cr, store, kube, pass.seen).0;
    CreateMakesOrAdopts(c, base, seen, store, kube, pass);
    UpdateAppliesTheRequest(c, base, seen, store, kube, pass);
  }

  /** The remote answers and does what is asked. */
  ghost predicate AllCalm<S, Q, U, B>(c: Controller<S, Q, U, B>, passes: seq<Pass<Q, U, B>>)
  {
    forall i | 0 <= i < |passes| :: passes[i].seen.Faultless() && passes[i].act.Faultless() && c.honours(passes[i].act)
  }

  /** Failure-free reconciles are reconciles of the records. */
  lemma {:induction false} PassesAreRecordPasses<S(!new), Q(!new), U(!new), B(!new)>(c: Controller<S, Q, U, B>,
        base: Cr<S>, cr: Cr<S>, store: Store<B>, kube: Kube, passes: seq<Pass<Q, U, B>>)
    requires Lawful(c) && Wanted(c, base, kube) && SameResource(cr, base) && passes != [] && AllCalm(c, passes)
    ensures LastAction(c, cr, store, kube, passes) ==
            N.LastAction(c.name(base), UpToDate(c, base, kube), cr.externalName, store, RecordPasses(c, base, kube, passes))
    decreases |passes|
  {
    PassIsARecordPass(c, base, cr, store, kube, passes[0]);
    if |passes| > 1 {
      var (after, next, _) := Reconcile(c, cr, store, kube, passes[0]);
      PassesAreRecordPasses(c, base, after, next, kube, passes[1..]);
      assert RecordPasses(c, base, kube, passes)[1..] == RecordPasses(c, base, kube, passes[1..]);
    }
  }

  lemma {:induction false} PassIsLawful<S(!new), Q(!new), U(!new), B(!new)>(c: Controller<S, Q, U, B>, cr: Cr<S>, kube: Kube, pass: Pass<Q, U, B>)
    requires UpdatesObeyConvergence(c) && Wanted(c, cr, kube) && c.honours(pass.act)
    ensures N.Lawful(UpToDate(c, cr, kube), Converging(c, cr), RecordPass(c, cr, kube, pass))
  {
    var p := RecordPass(c, cr, kube, pass);
    forall g ensures UpdateConverges(c, cr, kube, g, p.update(g)) {
      assert p.update(g) == pass.act.update(c.toUpdate(cr, kube).value, g);
    }
  }

  lemma {:induction false} PassesAreLawful<S(!new), Q(!new), U(!new), B(!new)>(c: Controller<S, Q, U, B>, cr: Cr<S>,
        kube: Kube, passes: seq<Pass<Q, U, B>>)
    requires UpdatesObeyConvergence(c) && Wanted(c, cr, kube) && AllCalm(c, passes)
    ensures N.AllLawful(UpToDate(c, cr, kube), Converging(c, cr), RecordPasses(c, cr, kube, passes))
    decreases |passes|
  {
    if passes != [] {
      PassIsLawful(c, cr, kube, passes[0]);
      PassesAreLawful(c, cr, kube, passes[1..]);
    }
  }

  lemma {:induction false} EndsOfPasses<S, Q, U, B>(c: Controller<S, Q, U, B>, cr: Cr<S>, kube: Kube, passes: seq<Pass<Q, U, B>>)
    requires Wanted(c, cr, kube) && passes != []
    ensures var ps := RecordPasses(c, cr, kube, passes);
            ps[0].stored == Asked(c, cr, kube, passes[0].act) && ps[|ps| - 1].seen == passes[|passes| - 1].seen.hit
    decreases |passes|
  {
    if |passes| > 1 { EndsOfPasses(c, cr, kube, passes[1..]); }
  }

  /** A record whose name another one holds has another name, and is not up to date. */
  lemma {:induction false} WithoutTheNameNotUpToDate<S(!new), Q(!new), U(!new), B(!new)>(c: Controller<S, Q, U, B>, cr: Cr<S>,
        store: Store<B>, kube: Kube, id: string)
    requires ChecksTheName(c) && Sound(c.name(cr), store) && id in store && NameTakenByOther(store, id, c.name(cr))
    ensures !c.upToDate(cr, kube, store[id])
  {
    var k :| k in store && k != id && store[k].name == c.name(cr);
    assert k in Holders(store, c.name(cr));
    assert store[id].name == c.name(cr) ==> id in Holders(store, c.name(cr));
  }

  /** When the last of three reconciles or more is at rest, given how the resource starts. */
  ghost predicate Settles<S, Q, U, B>(c: Controller<S, Q, U, B>, cr: Cr<S>, store: Store<B>, kube: Kube, made: Named<B>,
        lastSeen: Option<string>)
  {
    var name := c.name(cr);
    if N.Lost(cr.externalName, store) then
      (Holders(store, name) == {} ==> c.canConverge(cr, made)) && forall k | k in Holders(store, name) :: c.canConverge(cr, store[k])
    else if N.Bound(name, cr.externalName, store) then c.canConverge(cr, store[cr.externalName])
    else cr.externalName !in store && lastSeen.Some? && lastSeen.value in store && c.upToDate(cr, kube, store[lastSeen.value])
  }

  lemma {:induction false} RecordsSettleExactly<S(!new), Q(!new), U(!new), B(!new)>(c: Controller<S, Q, U, B>, cr: Cr<S>, store: Store<B>,
        kube: Kube, ps: seq<N.Pass<B>>, made: Named<B>, last: Option<string>)
    requires ChecksTheName(c) && Sound(c.name(cr), store) && |ps| >= 3 && made == ps[0].stored && last == ps[|ps| - 1].seen
    requires N.AllLawful(UpToDate(c, cr, kube), Converging(c, cr), ps)
    requires N.HonestPasses(c.name(cr), UpToDate(c, cr, kube), cr.externalName, store, ps)
    ensures N.LastAction(c.name(cr), UpToDate(c, cr, kube), cr.externalName, store, ps).Rest? <==>
            Settles(c, cr, store, kube, made, last)
  {
    var name, up, can := c.name(cr), UpToDate(c, cr, kube), Converging(c, cr);
    N.EveryStartIsOneOfThese(name, cr.externalName, store);
    N.SettlesExactly(name, up, can, cr.externalName, store, ps);
    assert forall g :: can(g) == c.canConverge(cr, g);
    if N.Stuck(name, cr.externalName, store) && cr.externalName in store {
      N.LastPassSeesTheRecord(name, up, cr.externalName, store, ps);
      WithoutTheNameNotUpToDate(c, cr, store, kube, cr.externalName);
    }
  }

  lemma {:induction false} PassesInRecords<S(!new), Q(!new), U(!new), B(!new)>(c: Controller<S, Q, U, B>, cr: Cr<S>, store: Store<B>,
        kube: Kube, passes: seq<Pass<Q, U, B>>, ps: seq<N.Pass<B>>)
    requires Lawful(c) && Wanted(c, cr, kube) && passes != [] && AllCalm(c, passes) && ps == RecordPasses(c, cr, kube, passes)
    ensures |ps| == |passes| && N.AllLawful(UpToDate(c, cr, kube), Converging(c, cr), ps)
    ensures ps[0].stored == Asked(c, cr, kube, passes[0].act) && ps[|ps| - 1].seen == passes[|passes| - 1].seen.hit
    ensures LastAction(c, cr, store, kube, passes) == N.LastAction(c.name(cr), UpToDate(c, cr, kube), cr.externalName, store, ps)
  {
    PassesAreRecordPasses(c, cr, cr, store, kube, passes);
    PassesAreLawful(c, cr, kube, passes);
    EndsOfPasses(c, cr, kube, passes);
  }

  lemma {:induction false} PassesSettleExactly<S(!new), Q(!new), U(!new), B(!new)>(c: Controller<S, Q, U, B>, cr: Cr<S>, store: Store<B>,
        kube: Kube, passes: seq<Pass<Q, U, B>>, ps: seq<N.Pass<B>>)
    requires Lawful(c) && Wanted(c, cr, kube) && Sound(c.name(cr), store) && |passes| >= 3 && AllCalm(c, passes)
    requires ps == RecordPasses(c, cr, kube, passes) && N.HonestPasses(c.name(cr), UpToDate(c, cr, kube), cr.externalName, store, ps)
    ensures LastAction(c, cr, store, kube, passes).Rest? <==>
            Settles(c, cr, store, kube, Asked(c, cr, kube, passes[0].act), passes[|passes| - 1].seen.hit)
  {
    PassesInRecords(c, cr, store, kube, passes, ps);
    RecordsSettleExactly(c, cr, store, kube, ps, Asked(c, cr, kube, passes[0].act), passes[|passes| - 1].seen.hit);
  }

  /** Three failure-free reconciles or more, from any external name, end at rest exactly
      when: if no record answers to the external name, the record of the resolved name, or
      the one made if there is none, can converge; if the own record can have the name, it
      can converge; otherwise, another record answers to the external name and is up to
      date. A record whose name another one holds never settles. */
  lemma {:induction false} SettlesExactly<S(!new), Q(!new), U(!new), B(!new)>(c: Controller<S, Q, U, B>, cr: Cr<S>, store: Store<B>,
        kube: Kube, passes: seq<Pass<Q, U, B>>)
    requires Lawful(c) && Wanted(c, cr, kube) && Sound(c.name(cr), store) && |passes| >= 3 && AllCalm(c, passes)
    requires N.HonestPasses(c.name(cr), UpToDate(c, cr, kube), cr.externalName, store, RecordPasses(c, cr, kube, passes))
    ensures LastAction(c, cr, store, kube, passes).Rest? <==>
            Settles(c, cr, store, kube, Asked(c, cr, kube, passes[0].act), passes[|passes| - 1].seen.hit)
  {
    PassesSettleExactly(c, cr, store, kube, passes, RecordPasses(c, cr, kube, passes));
  }
}
