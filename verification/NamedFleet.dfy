/** Any number of gateways, or of agents, on one remote. They leave each other alone
    exactly when no two of them resolve to the same name: resources of one name adopt one
    record, and the deletion of one takes the record of the other. */
module NamedFleet {
  import opened Wrappers
  import opened Remote
  import opened Managed
  import opened NamedRecords

  /** A resource: the name it resolves to, and its external name. */
  datatype Member = Member(name: string, externalName: string)

  datatype Fleet<R> = Fleet(store: Store<R>, members: map<Key, Member>)

  /** One request of one resource, or a change of the remote by somebody else. */
  datatype Request<R> =
    | Creating(key: Key, stored: Named<R>, hit: Option<string>, post: Fault, get: Fault, saved: bool)
    | Updating(key: Key, to: Named<R>, put: Fault)
    | Deleting(key: Key, delete: Fault)
    | Changing(store: Store<R>)

  function Next<R>(f: Fleet<R>, e: Request<R>): Fleet<R>
  {
    match e
    case Changing(store) => f.(store := store)
    case _ =>
      if e.key !in f.members then f else
      var m := f.members[e.key];
      match e
      case Creating(key, stored, hit, post, get, saved) =>
        var reply := CreateOrAdopt(f.store, m.name, stored, hit, post, get);
        Fleet(reply.store, if reply.result.Ok? && saved then f.members[key := m.(externalName := reply.result.value.id)] else f.members)
      case Updating(_, to, put) =>
        if put.Refused? || m.externalName !in f.store || NameTakenByOther(f.store, m.externalName, m.name) then f
        else f.(store := f.store[m.externalName := to])
      case Deleting(_, delete) => f.(store := StoreAfterDelete(f.store, m.externalName, delete))
  }

  /** An id that no record has, and that is no name or external name of a resource. */
  predicate FreeId<R>(f: Fleet<R>, id: string)
  {
    id != "" && id !in f.store && forall k | k in f.members :: id != f.members[k].name && id != f.members[k].externalName
  }

  /** The remote makes records under fresh ids that look like no name, updates keep ids,
      and nobody else makes or removes a record of these names. */
  ghost predicate Allowed<R(!new)>(f: Fleet<R>, e: Request<R>)
  {
    match e
    case Creating(key, stored, hit, _, _, _) =>
      key in f.members && stored.name == f.members[key].name && FreeId(f, stored.id) && Resolves(f.store, stored.name, hit)
    case Updating(key, to, _) => key in f.members && to.id == f.members[key].externalName && to.name == f.members[key].name
    case Deleting(key, _) => key in f.members
    case Changing(store) =>
      forall l | l in f.members ::
        var m := f.members[l];
        Sound(m.name, store) && Holders(store, m.name) == Holders(f.store, m.name) && (m.externalName in store ==> m.externalName in f.store)
  }

  /** Names are unique on the remote, and each external name that names a record names one
      of the own name. */
  ghost predicate Healthy<R>(f: Fleet<R>)
  {
    forall k | k in f.members ::
      var m := f.members[k];
      Sound(m.name, f.store) && (m.externalName in f.store ==> f.store[m.externalName].name == m.name)
  }

  predicate DistinctNames(members: map<Key, Member>)
  {
    forall k, l | k in members && l in members && k != l :: members[k].name != members[l].name
  }

  predicate SameNames(members: map<Key, Member>, others: map<Key, Member>)
  {
    members.Keys == others.Keys && forall k | k in members :: members[k].name == others[k].name
  }

  /** A request leaves a resource alone: its external name and the records of its name. */
  ghost predicate LeavesAlone<R>(f: Fleet<R>, g: Fleet<R>, l: Key)
    requires l in f.members
  {
    var name := f.members[l].name;
    l in g.members && g.members[l] == f.members[l] && Holders(g.store, name) == Holders(f.store, name) &&
    forall id | id in Holders(f.store, name) :: g.store[id] == f.store[id]
  }

  ghost predicate LeavesOthersAlone<R>(f: Fleet<R>, e: Request<R>)
  {
    !e.Changing? ==> forall l | l in f.members && l != e.key :: LeavesAlone(f, Next(f, e), l)
  }

  ghost predicate AllAllowed<R(!new)>(f: Fleet<R>, es: seq<Request<R>>)
    decreases |es|
  {
    es == [] || (Allowed(f, es[0]) && AllAllowed(Next(f, es[0]), es[1..]))
  }

  ghost predicate NobodyIsDisturbed<R>(f: Fleet<R>, es: seq<Request<R>>)
    decreases |es|
  {
    es == [] || (LeavesOthersAlone(f, es[0]) && NobodyIsDisturbed(Next(f, es[0]), es[1..]))
  }

  // ---------- Distinct names ----------

  /** A change of at most one record, of the given name, leaves other names alone. */
  lemma OtherNamesUntouched<R>(store: Store<R>, next: Store<R>, id: string, mine: string, name: string)
    requires name != mine
    requires next == store || next == store - {id} || (id in next && next == store[id := next[id]] && next[id].name == mine)
    requires id in store ==> store[id].name == mine
    ensures Holders(next, name) == Holders(store, name) && forall k | k in Holders(store, name) :: next[k] == store[k]
  {
  }

  lemma CreatingStep<R(!new)>(f: Fleet<R>, e: Request<R>)
    requires Healthy(f) && DistinctNames(f.members) && e.Creating? && Allowed(f, e)
    ensures Healthy(Next(f, e)) && SameNames(f.members, Next(f, e).members) && LeavesOthersAlone(f, e)
  {
    var m := f.members[e.key];
    var g := Next(f, e);
    AttemptMakesOrAdopts(m.name, f.store, e.stored, e.hit, e.post, e.get);
    forall l | l in f.members && l != e.key ensures LeavesAlone(f, g, l) && Sound(f.members[l].name, g.store) {
      OtherNamesUntouched(f.store, g.store, e.stored.id, m.name, f.members[l].name);
    }
    var reply := CreateOrAdopt(f.store, m.name, e.stored, e.hit, e.post, e.get);
    assert reply.result.Ok? ==> reply.result.value.id in Holders(g.store, m.name);
  }

  lemma UpdatingStep<R(!new)>(f: Fleet<R>, e: Request<R>)
    requires Healthy(f) && DistinctNames(f.members) && e.Updating? && Allowed(f, e)
    ensures Healthy(Next(f, e)) && SameNames(f.members, Next(f, e).members) && LeavesOthersAlone(f, e)
  {
    var m := f.members[e.key];
    var g := Next(f, e);
    assert g.store != f.store ==> Holders(g.store, m.name) == Holders(f.store, m.name);
    forall l | l in f.members && l != e.key ensures LeavesAlone(f, g, l) && Sound(f.members[l].name, g.store) {
      OtherNamesUntouched(f.store, g.store, m.externalName, m.name, f.members[l].name);
    }
  }

  lemma DeletingStep<R(!new)>(f: Fleet<R>, e: Request<R>)
    requires Healthy(f) && DistinctNames(f.members) && e.Deleting? && Allowed(f, e)
    ensures Healthy(Next(f, e)) && SameNames(f.members, Next(f, e).members) && LeavesOthersAlone(f, e)
  {
    var m := f.members[e.key];
    var g := Next(f, e);
    assert Holders(g.store, m.name) <= Holders(f.store, m.name);
    forall l | l in f.members && l != e.key ensures LeavesAlone(f, g, l) && Sound(f.members[l].name, g.store) {
      OtherNamesUntouched(f.store, g.store, m.externalName, m.name, f.members[l].name);
    }
  }

  lemma ChangingStep<R(!new)>(f: Fleet<R>, e: Request<R>)
    requires Healthy(f) && e.Changing? && Allowed(f, e)
    ensures Healthy(Next(f, e)) && SameNames(f.members, Next(f, e).members)
  {
    forall k | k in f.members && f.members[k].externalName in e.store
      ensures e.store[f.members[k].externalName].name == f.members[k].name
    {
      assert f.members[k].externalName in Holders(f.store, f.members[k].name);
      assert f.members[k].externalName in Holders(e.store, f.members[k].name);
    }
  }

  /** Resources of distinct names never disturb each other, in any sequence of requests. */
  lemma {:induction false} DistinctNamesAreUndisturbed<R(!new)>(f: Fleet<R>, es: seq<Request<R>>)
    requires Healthy(f) && DistinctNames(f.members) && AllAllowed(f, es)
    ensures NobodyIsDisturbed(f, es)
    decreases |es|
  {
    if es != [] {
      match es[0] {
        case Creating(_, _, _, _, _, _) => CreatingStep(f, es[0]);
        case Updating(_, _, _) => UpdatingStep(f, es[0]);
        case Deleting(_, _) => DeletingStep(f, es[0]);
        case Changing(_) => ChangingStep(f, es[0]);
      }
      DistinctNamesAreUndisturbed(Next(f, es[0]), es[1..]);
    }
  }

  // ---------- A shared name ----------

  /** A GET always has something that it may resolve to. */
  lemma SomeHit<R(!new)>(store: Store<R>, key: string) returns (hit: Option<string>)
    ensures Resolves(store, key, hit)
  {
    if key in store {
      hit := Some(key);
    } else if NameTaken(store, key) {
      var k :| k in store && store[k].name == key;
      hit := Some(k);
    } else if exists k | k in store :: store[k].slug == key {
      var k :| k in store && store[k].slug == key;
      hit := Some(k);
    } else {
      hit := None;
    }
  }

  /** Two new resources of one name: the first makes the record, the second adopts it, and
      the deletion of the first takes it from the second. */
  lemma SharedNameDisturbs<R(!new)>(f: Fleet<R>, k: Key, l: Key, x: Named<R>, y: Named<R>) returns (es: seq<Request<R>>)
    requires Healthy(f) && k in f.members && l in f.members && k != l && f.members[k].name == f.members[l].name
    requires Holders(f.store, f.members[k].name) == {}
    requires x.name == y.name == f.members[k].name && x.id != y.id && FreeId(f, x.id) && FreeId(f, y.id)
    ensures AllAllowed(f, es) && !NobodyIsDisturbed(f, es)
  {
    var name := f.members[k].name;
    var hit := SomeHit(f.store, name);
    var e1 := Creating(k, x, hit, Delivered, Delivered, true);
    TakenMeansHeld(f.store, name);
    var f1 := Next(f, e1);
    assert f1 == Fleet(f.store[x.id := x], f.members[k := Member(name, x.id)]);
    var e2 := Creating(l, y, Some(x.id), Delivered, Delivered, true);
    assert Resolves(f1.store, name, Some(x.id));
    var f2 := Next(f1, e2);
    assert NameTaken(f1.store, name);
    assert f2 == Fleet(f1.store, f1.members[l := Member(name, x.id)]);
    var e3 := Deleting(k, Delivered);
    var f3 := Next(f2, e3);
    assert x.id in Holders(f2.store, name) && x.id !in Holders(f3.store, name);
    assert !LeavesAlone(f2, f3, l);
    var last := [e3];
    var more := [e2] + last;
    es := [e1] + more;
    assert es[1..] == more && more[1..] == last && last[1..] == [];
    assert AllAllowed(f2, last) && AllAllowed(f1, more);
    assert !NobodyIsDisturbed(f2, last) && !NobodyIsDisturbed(f1, more);
  }

  /** New resources leave each other alone, whatever happens, exactly when no two of them
      resolve to the same name. a and b are any two ids that are still free. */
  lemma UndisturbedExactly<R(!new)>(f: Fleet<R>, a: string, b: string, body: R)
    requires Healthy(f) && forall k | k in f.members :: Holders(f.store, f.members[k].name) == {}
    requires a != b && FreeId(f, a) && FreeId(f, b)
    ensures DistinctNames(f.members) <==> forall es | AllAllowed(f, es) :: NobodyIsDisturbed(f, es)
  {
    if DistinctNames(f.members) {
      forall es | AllAllowed(f, es) ensures NobodyIsDisturbed(f, es) { DistinctNamesAreUndisturbed(f, es); }
    } else {
      var k, l :| k in f.members && l in f.members && k != l && f.members[k].name == f.members[l].name;
      var x, y := Named(a, f.members[k].name, "", body), Named(b, f.members[k].name, "", body);
      var es := SharedNameDisturbs(f, k, l, x, y);
    }
  }
}
