/** Failure-free reconciles of a gateway or an agent in terms of the records alone: from
    which starts they settle, and where the others get stuck. */
module NamedReconciles {
  import opened Wrappers
  import opened Remote
  import opened Managed
  import opened NamedRecords

  /** What one reconcile meets: what its lookups resolve to, the record that a create
      request would lead to, and what an update request makes of a record. */
  datatype Pass<!R> = Pass(seen: Option<string>, adopted: Option<string>, stored: Named<R>, update: Named<R> -> Named<R>)

  /** The record that Observe finds. */
  function Found<R>(externalName: string, store: Store<R>, p: Pass<R>): Option<string>
  {
    if externalName != "" && p.seen.Some? && p.seen.value in store then p.seen else None
  }

  /** Where a reconcile leaves the external name and the records, and what it decided on. */
  function Reconcile<R>(name: string, upToDate: Named<R> -> bool, externalName: string, store: Store<R>,
        p: Pass<R>): (string, Store<R>, Action)
  {
    var found := Found(externalName, store, p);
    if found.None? then
      var made := CreateOrAdopt(store, name, p.stored, p.adopted, Delivered, Delivered);
      (if made.result.Ok? then made.result.value.id else externalName, made.store, CallCreate)
    else if upToDate(store[found.value]) then (externalName, store, Rest)
    else if externalName in store && !NameTakenByOther(store, externalName, name) then
      (externalName, store[externalName := p.update(store[externalName])], CallUpdate)
    else (externalName, store, CallUpdate)
  }

  /** The action that the last of these reconciles decides on. */
  function LastAction<R>(name: string, upToDate: Named<R> -> bool, externalName: string, store: Store<R>,
        ps: seq<Pass<R>>): Action
    requires ps != []
    decreases |ps|
  {
    var (next, after, action) := Reconcile(name, upToDate, externalName, store, ps[0]);
    if |ps| == 1 then action else LastAction(name, upToDate, next, after, ps[1..])
  }

  /** The remote looks up as it should, and makes records of the name under fresh ids. */
  ghost predicate Honest<R(!new)>(name: string, externalName: string, store: Store<R>, p: Pass<R>)
  {
    (externalName != "" ==> Resolves(store, externalName, p.seen)) && Resolves(store, name, p.adopted) &&
    p.stored.name == name && p.stored.id != "" && p.stored.id != name && p.stored.id !in store
  }

  ghost predicate HonestPasses<R(!new)>(name: string, upToDate: Named<R> -> bool, externalName: string, store: Store<R>,
        ps: seq<Pass<R>>)
    decreases |ps|
  {
    ps == [] ||
    (Honest(name, externalName, store, ps[0]) &&
     var (next, after, _) := Reconcile(name, upToDate, externalName, store, ps[0]);
     HonestPasses(name, upToDate, next, after, ps[1..]))
  }

  /** An update keeps ids, ends up to date exactly when the record can converge, and does
      not change whether it can. */
  ghost predicate Lawful<R(!new)>(upToDate: Named<R> -> bool, canConverge: Named<R> -> bool, p: Pass<R>)
  {
    forall g ::
      var h := p.update(g);
      h.id == g.id && (upToDate(h) <==> canConverge(g)) && (canConverge(h) <==> canConverge(g)) && (upToDate(g) ==> canConverge(g))
  }

  ghost predicate AllLawful<R(!new)>(upToDate: Named<R> -> bool, canConverge: Named<R> -> bool, ps: seq<Pass<R>>)
  {
    forall i | 0 <= i < |ps| :: Lawful(upToDate, canConverge, ps[i])
  }

  // ---------- The four kinds of start ----------

  /** No record answers to the external name: it is unset, or its record is gone. */
  predicate Lost<R>(externalName: string, store: Store<R>)
  {
    externalName == "" || (externalName !in store && !Shadowed(store, externalName))
  }

  /** The resource has a record, and no other record has its name. */
  predicate Bound<R>(name: string, externalName: string, store: Store<R>)
  {
    KeepsIds(store) && externalName in store && !NameTakenByOther(store, externalName, name)
  }

  /** A record is found, but none can be updated: the own record cannot take the name,
      or the one found is another record, by its name or slug. */
  predicate Stuck<R>(name: string, externalName: string, store: Store<R>)
  {
    externalName != "" &&
    if externalName in store then NameTakenByOther(store, externalName, name) else Shadowed(store, externalName)
  }

  lemma EveryStartIsOneOfThese<R>(name: string, externalName: string, store: Store<R>)
    requires KeepsIds(store)
    ensures Lost(externalName, store) || Bound(name, externalName, store) || Stuck(name, externalName, store)
    ensures !(Lost(externalName, store) && Bound(name, externalName, store)) && !(Lost(externalName, store) && Stuck(name, externalName, store)) &&
            !(Bound(name, externalName, store) && Stuck(name, externalName, store))
  {
  }

  // ---------- One reconcile ----------

  /** A reconcile of a lost resource binds it: to the one record of its name if there is
      one, which stays as it is, and otherwise to the record it makes. */
  lemma LostPass<R(!new)>(name: string, upToDate: Named<R> -> bool, externalName: string, store: Store<R>, p: Pass<R>)
    requires Sound(name, store) && Lost(externalName, store) && Honest(name, externalName, store, p)
    ensures var (id, after, action) := Reconcile(name, upToDate, externalName, store, p);
            action.CallCreate? && Bound(name, id, after) &&
            if Holders(store, name) != {} then after == store && Holders(store, name) == {id}
            else id == p.stored.id && after == store[id := p.stored]
  {
    AttemptMakesOrAdopts(name, store, p.stored, p.adopted, Delivered, Delivered);
    TakenMeansHeld(store, name);
    var made := CreateOrAdopt(store, name, p.stored, p.adopted, Delivered, Delivered);
    if NameTaken(store, name) { AdoptsTheNamedRecord(store, name, p.adopted); }
    OnlyHolder(name, made.store, made.result.value.id);
    assert Found(externalName, store, p).None?;
  }

  /** A reconcile of a bound resource rests if its record is up to date, and otherwise
      updates that record and no other. */
  lemma BoundPass<R(!new)>(name: string, upToDate: Named<R> -> bool, externalName: string, store: Store<R>, p: Pass<R>)
    requires Bound(name, externalName, store) && Honest(name, externalName, store, p) && forall g :: p.update(g).id == g.id
    ensures var (id, after, action) := Reconcile(name, upToDate, externalName, store, p);
            var g := store[externalName];
            id == externalName && Bound(name, id, after) &&
            if upToDate(g) then action.Rest? && after == store
            else action.CallUpdate? && after == store[id := p.update(g)]
  {
  }

  /** A reconcile of a stuck resource changes nothing, and rests only if the record that
      it finds happens to be up to date. */
  lemma StuckPass<R(!new)>(name: string, upToDate: Named<R> -> bool, externalName: string, store: Store<R>, p: Pass<R>)
    requires Stuck(name, externalName, store) && Honest(name, externalName, store, p)
    ensures var (id, after, action) := Reconcile(name, upToDate, externalName, store, p);
            id == externalName && after == store && p.seen.Some? && p.seen.value in store &&
            action == if upToDate(store[p.seen.value]) then Rest else CallUpdate
  {
  }

  // ---------- Sequences of reconciles ----------

  lemma {:induction false} BoundReconcilesSettleExactly<R(!new)>(name: string, upToDate: Named<R> -> bool,
        canConverge: Named<R> -> bool, externalName: string, store: Store<R>, ps: seq<Pass<R>>)
    requires ps != [] && Bound(name, externalName, store)
    requires HonestPasses(name, upToDate, externalName, store, ps) && AllLawful(upToDate, canConverge, ps)
    ensures LastAction(name, upToDate, externalName, store, ps).Rest? <==>
            if |ps| == 1 then upToDate(store[externalName]) else canConverge(store[externalName])
    decreases |ps|
  {
    var g := store[externalName];
    assert Lawful(upToDate, canConverge, ps[0]);
    assert ps[0].update(g).id == g.id;
    BoundPass(name, upToDate, externalName, store, ps[0]);
    if |ps| > 1 {
      var (id, after, _) := Reconcile(name, upToDate, externalName, store, ps[0]);
      BoundReconcilesSettleExactly(name, upToDate, canConverge, id, after, ps[1..]);
    }
  }

  lemma {:induction false} StuckReconcilesChangeNothing<R(!new)>(name: string, upToDate: Named<R> -> bool,
        externalName: string, store: Store<R>, ps: seq<Pass<R>>)
    requires ps != [] && Stuck(name, externalName, store) && HonestPasses(name, upToDate, externalName, store, ps)
    ensures var found := ps[|ps| - 1].seen;
            found.Some? && found.value in store &&
            LastAction(name, upToDate, externalName, store, ps) == if upToDate(store[found.value]) then Rest else CallUpdate
    decreases |ps|
  {
    StuckPass(name, upToDate, externalName, store, ps[0]);
    if |ps| > 1 { StuckReconcilesChangeNothing(name, upToDate, externalName, store, ps[1..]); }
  }

  /** While the own record is there, it is what Observe finds. */
  lemma {:induction false} LastPassSeesTheRecord<R(!new)>(name: string, upToDate: Named<R> -> bool,
        externalName: string, store: Store<R>, ps: seq<Pass<R>>)
    requires ps != [] && Stuck(name, externalName, store) && HonestPasses(name, upToDate, externalName, store, ps)
    requires externalName in store
    ensures ps[|ps| - 1].seen == Some(externalName)
    decreases |ps|
  {
    StuckPass(name, upToDate, externalName, store, ps[0]);
    if |ps| > 1 { LastPassSeesTheRecord(name, upToDate, externalName, store, ps[1..]); }
  }

  /** Three reconciles or more, from any start, end at rest exactly when: a lost resource
      finds or makes a record that can converge; a bound one has a record that can
      converge; the record that a stuck one finds is up to date. */
  lemma SettlesExactly<R(!new)>(name: string, upToDate: Named<R> -> bool, canConverge: Named<R> -> bool,
        externalName: string, store: Store<R>, ps: seq<Pass<R>>)
    requires Sound(name, store) && |ps| >= 3
    requires HonestPasses(name, upToDate, externalName, store, ps) && AllLawful(upToDate, canConverge, ps)
    ensures Stuck(name, externalName, store) ==> ps[|ps| - 1].seen.Some? && ps[|ps| - 1].seen.value in store
    ensures LastAction(name, upToDate, externalName, store, ps).Rest? <==>
            if Lost(externalName, store) then
              (Holders(store, name) == {} ==> canConverge(ps[0].stored)) && forall k | k in Holders(store, name) :: canConverge(store[k])
            else if Bound(name, externalName, store) then canConverge(store[externalName])
            else upToDate(store[ps[|ps| - 1].seen.value])
  {
    EveryStartIsOneOfThese(name, externalName, store);
    if Lost(externalName, store) {
      LostPass(name, upToDate, externalName, store, ps[0]);
      var (id, after, _) := Reconcile(name, upToDate, externalName, store, ps[0]);
      BoundReconcilesSettleExactly(name, upToDate, canConverge, id, after, ps[1..]);
      assert Holders(store, name) != {} ==> id in Holders(store, name);
    } else if Bound(name, externalName, store) {
      BoundReconcilesSettleExactly(name, upToDate, canConverge, externalName, store, ps);
    } else {
      StuckReconcilesChangeNothing(name, upToDate, externalName, store, ps);
    }
  }
}
