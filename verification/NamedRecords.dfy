/** Records that the remote identifies by an id of its own choosing and also finds by
    name or slug: gateways and agents. Creation retried over a faulty network, and
    deletion, in terms of the records alone. */
module NamedRecords {
  import opened Wrappers
  import opened Remote

  datatype Named<R> = Named(id: string, name: string, slug: string, body: R)

  type Store<R> = map<string, Named<R>>

  predicate KeepsIds<R>(store: Store<R>)
  {
    forall k | k in store :: k != "" && store[k].id == k
  }

  /** The ids of the records with a name. */
  function Holders<R>(store: Store<R>, name: string): set<string>
  {
    set k | k in store && store[k].name == name
  }

  predicate NameTaken<R>(store: Store<R>, name: string)
  {
    exists k | k in store :: store[k].name == name
  }

  /** Whether another record than the one with this id has the name. */
  predicate NameTakenByOther<R>(store: Store<R>, id: string, name: string)
  {
    exists k | k in store :: k != id && store[k].name == name
  }

  predicate MatchesNameOrSlug<R>(r: Named<R>, key: string)
  {
    r.name == key || r.slug == key
  }

  /** How the remote resolves the key of a GET: an id comes before a name, and a name
      before a slug. */
  ghost predicate Resolves<R(!new)>(store: Store<R>, key: string, hit: Option<string>)
  {
    match hit
    case None => key !in store && forall k | k in store :: !MatchesNameOrSlug(store[k], key)
    case Some(k) =>
      k in store &&
      (k == key || (key !in store && (store[k].name == key || (!NameTaken(store, key) && store[k].slug == key))))
  }

  /** POST, and GET by name when the remote reports a conflict. */
  function CreateOrAdopt<R>(store: Store<R>, name: string, stored: Named<R>, hit: Option<string>, post: Fault,
        get: Fault): Reply<Named<R>>
  {
    var posted := PostOutcome(store, stored.id, stored, NameTaken(store, name), post);
    if posted.result == Err(Conflict) then Reply(posted.store, GetOutcome(posted.store, hit, get)) else posted
  }

  // ---------- Creation, retried ----------

  /** Adoption by name finds a record of that name exactly when no record of another
      name has the name as its id. */
  lemma AdoptsTheNamedRecord<R(!new)>(store: Store<R>, name: string, hit: Option<string>)
    requires NameTaken(store, name) && Resolves(store, name, hit)
    ensures hit.Some? && (hit.value in Holders(store, name) <==> name !in store || name in Holders(store, name))
  {
    var k :| k in store && store[k].name == name;
    assert MatchesNameOrSlug(store[k], name);
  }

  /** made: the ids of the records that the remote made for these attempts, each with the
      name it was made under. */
  datatype Creation<R> = Creation(store: Store<R>, externalName: string, made: map<string, string>)

  /** One attempt to create a record of a name, whose external name may get lost; or
      anything that others do to the remote. The name may differ from attempt to attempt. */
  datatype Event<R> =
    | Attempt(name: string, stored: Named<R>, hit: Option<string>, post: Fault, get: Fault, saved: bool)
    | Others(store: Store<R>)

  function Step<R>(s: Creation<R>, e: Event<R>): Creation<R>
  {
    match e
    case Attempt(name, stored, hit, post, get, saved) =>
      var reply := CreateOrAdopt(s.store, name, stored, hit, post, get);
      Creation(reply.store,
               if reply.result.Ok? && saved then reply.result.value.id else s.externalName,
               if reply.store.Keys == s.store.Keys then s.made else s.made[stored.id := name])
    case Others(store) => s.(store := store)
  }

  /** Names are unique for this name, ids are kept, and no id looks like the name. */
  ghost predicate Sound<R>(name: string, store: Store<R>)
  {
    KeepsIds(store) && name !in store && forall k, l | k in Holders(store, name) && l in Holders(store, name) :: k == l
  }

  /** An attempt gets a fresh id and an honest lookup. */
  ghost predicate Enabled<R(!new)>(s: Creation<R>, e: Event<R>)
  {
    match e
    case Attempt(name, stored, hit, _, _, _) =>
      stored.name == name && stored.id != "" && stored.id != name && stored.id !in s.store && stored.id !in s.made &&
      Resolves(s.store, name, hit)
    case Others(store) => KeepsIds(store)
  }

  function Run<R>(s: Creation<R>, es: seq<Event<R>>): Creation<R>
    decreases |es|
  {
    if es == [] then s else Run(Step(s, es[0]), es[1..])
  }

  /** An attempt ends up with a record, and its external name is saved. */
  predicate Succeeds<R>(s: Creation<R>, e: Event<R>)
    requires e.Attempt?
  {
    e.saved && CreateOrAdopt(s.store, e.name, e.stored, e.hit, e.post, e.get).result.Ok?
  }

  predicate SomeSaved<R>(s: Creation<R>, es: seq<Event<R>>)
    decreases |es|
  {
    es != [] && ((es[0].Attempt? && Succeeds(s, es[0])) || SomeSaved(Step(s, es[0]), es[1..]))
  }

  lemma {:induction false} RunConcat<R>(s: Creation<R>, es: seq<Event<R>>, more: seq<Event<R>>)
    ensures Run(s, es + more) == Run(Run(s, es), more)
    decreases |es|
  {
    if es == [] {
      assert es + more == more;
    } else {
      assert (es + more)[1..] == es[1..] + more;
      RunConcat(Step(s, es[0]), es[1..], more);
    }
  }

  ghost predicate Legal<R(!new)>(s: Creation<R>, es: seq<Event<R>>)
    decreases |es|
  {
    es == [] || (Enabled(s, es[0]) && Legal(Step(s, es[0]), es[1..]))
  }

  /** Others neither make nor remove a record of the name, and no new id is the name. */
  ghost predicate Spares<R>(name: string, s: Creation<R>, es: seq<Event<R>>)
    decreases |es|
  {
    es == [] ||
    ((match es[0]
      case Attempt(_, stored, _, _, _, _) => stored.id != name
      case Others(store) => Sound(name, store) && Holders(store, name) == Holders(s.store, name)) &&
     Spares(name, Step(s, es[0]), es[1..]))
  }

  /** Others leave the records alone that the remote made for these attempts. */
  predicate SparesMade<R>(s: Creation<R>, es: seq<Event<R>>)
    decreases |es|
  {
    es == [] || ((es[0].Others? ==> s.made.Keys <= es[0].store.Keys) && SparesMade(Step(s, es[0]), es[1..]))
  }

  ghost predicate AllUnder<R>(name: string, es: seq<Event<R>>)
  {
    forall e | e in es && e.Attempt? :: e.name == name
  }

  function MadeUnder<R>(s: Creation<R>, name: string): set<string>
  {
    set k | k in s.made && s.made[k] == name
  }

  lemma TakenMeansHeld<R>(store: Store<R>, name: string)
    ensures NameTaken(store, name) <==> Holders(store, name) != {}
  {
    if NameTaken(store, name) {
      var k :| k in store && store[k].name == name;
      assert k in Holders(store, name);
    }
  }

  /** The only record of a name leaves the name free for itself. */
  lemma OnlyHolder<R>(name: string, store: Store<R>, id: string)
    requires Holders(store, name) == {id}
    ensures id in store && store[id].name == name && !NameTakenByOther(store, id, name)
  {
    assert id in Holders(store, name);
    assert forall k | k in store && store[k].name == name :: k in Holders(store, name);
  }

  /** What one attempt does: it makes the record if there is none, changes nothing if
      there is one, and reports, if anything, the one record there then is. */
  lemma AttemptMakesOrAdopts<R(!new)>(name: string, store: Store<R>, stored: Named<R>, hit: Option<string>, post: Fault,
        get: Fault)
    requires Sound(name, store) && stored.name == name && stored.id != "" && stored.id != name && stored.id !in store
    requires Resolves(store, name, hit)
    ensures var reply := CreateOrAdopt(store, name, stored, hit, post, get);
            Sound(name, reply.store) &&
            reply.store == (if Holders(store, name) == {} && !post.Refused? then store[stored.id := stored] else store) &&
            (reply.result.Ok? ==> Holders(reply.store, name) == {reply.result.value.id})
  {
    var reply := CreateOrAdopt(store, name, stored, hit, post, get);
    TakenMeansHeld(store, name);
    if NameTaken(store, name) {
      AdoptsTheNamedRecord(store, name, hit);
      assert reply.store == store;
      assert Holders(store, name) == {hit.value};
    } else if !post.Refused? {
      assert Holders(reply.store, name) == {stored.id};
    }
  }

  /** An attempt under another name does not touch the records of this one. */
  lemma AttemptElsewhere<R(!new)>(name: string, s: Creation<R>, e: Event<R>)
    requires Sound(name, s.store) && e.Attempt? && Enabled(s, e) && e.name != name && e.stored.id != name
    ensures var t := Step(s, e);
            Sound(name, t.store) && Holders(t.store, name) == Holders(s.store, name) && MadeUnder(t, name) == MadeUnder(s, name)
  {
    var t := Step(s, e);
    assert t.store == s.store || t.store == s.store[e.stored.id := e.stored];
    assert Holders(t.store, name) == Holders(s.store, name);
  }

  lemma AttemptIsCounted<R(!new)>(name: string, s: Creation<R>, e: Event<R>)
    requires Sound(name, s.store) && e.Attempt? && Enabled(s, e) && e.name == name
    ensures var t := Step(s, e);
            var before, after := Holders(s.store, name), Holders(t.store, name);
            Sound(name, t.store) && before <= after && (before != {} ==> before == after) &&
            MadeUnder(t, name) == MadeUnder(s, name) + (after - before) &&
            (if Succeeds(s, e) then after == {t.externalName} else t.externalName == s.externalName)
  {
    AttemptMakesOrAdopts(name, s.store, e.stored, e.hit, e.post, e.get);
    var t := Step(s, e);
    if t.store != s.store {
      assert Holders(t.store, name) == {e.stored.id};
    }
  }

  /** Over any sequence of attempts under any names, with lost responses and lost external
      names, and whatever others do to other records: at most one record ever carries a
      name, one that was there stays, and the remote makes at most one under the name. If
      the name never changes and an attempt succeeds and is saved, the external name is the
      id of that one record. */
  lemma {:induction false} CreatesAtMostOnce<R(!new)>(name: string, s: Creation<R>, es: seq<Event<R>>)
    requires Sound(name, s.store) && Legal(s, es) && Spares(name, s, es)
    ensures var t := Run(s, es);
            var before, after := Holders(s.store, name), Holders(t.store, name);
            Sound(name, t.store) && before <= after && (before != {} ==> before == after) &&
            MadeUnder(t, name) == MadeUnder(s, name) + (after - before) &&
            (AllUnder(name, es) ==> if SomeSaved(s, es) then after == {t.externalName} else t.externalName == s.externalName)
    decreases |es|
  {
    if es != [] {
      if es[0].Attempt? {
        if es[0].name == name { AttemptIsCounted(name, s, es[0]); } else { AttemptElsewhere(name, s, es[0]); }
      }
      assert AllUnder(name, es) ==> AllUnder(name, es[1..]) && (es[0].Attempt? ==> es[0].name == name);
      CreatesAtMostOnce(name, Step(s, es[0]), es[1..]);
    }
  }

  /** If the name never changes, every record was made under it. */
  lemma {:induction false} MadeUnderTheName<R>(name: string, s: Creation<R>, es: seq<Event<R>>)
    requires AllUnder(name, es) && MadeUnder(s, name) == s.made.Keys
    ensures MadeUnder(Run(s, es), name) == Run(s, es).made.Keys
    decreases |es|
  {
    if es != [] {
      assert es[0] in es && AllUnder(name, es[1..]);
      MadeUnderTheName(name, Step(s, es[0]), es[1..]);
    }
  }

  lemma {:induction false} MadeRecordsStay<R(!new)>(s: Creation<R>, es: seq<Event<R>>)
    requires Legal(s, es) && SparesMade(s, es) && s.made.Keys <= s.store.Keys && "" !in s.made
    ensures var t := Run(s, es); t.made.Keys <= t.store.Keys && "" !in t.made
    decreases |es|
  {
    if es != [] { MadeRecordsStay(Step(s, es[0]), es[1..]); }
  }

  // ---------- Deletion ----------

  /** What the two calls of one reconcile of a deleted resource meet. */
  datatype Round = Round(hit: Option<string>, get: Fault, delete: Fault) {
    predicate Faultless() {
      get.Delivered? && delete.Delivered?
    }
  }

  /** A reconcile of a resource marked deleted. A failed lookup leaves everything as it
      is; nothing is left to do if the record is not found; otherwise a DELETE is sent to
      the external name. */
  function DeletionRound<R>(store: Store<R>, externalName: string, r: Round): (Store<R>, bool)
  {
    if externalName == "" then (store, true)
    else if !r.get.Delivered? then (store, false)
    else if r.hit.None? then (store, true)
    else (StoreAfterDelete(store, externalName, r.delete), false)
  }

  /** Reconciles until the finalizer is dropped, at most once for each round. */
  function DeletionRounds<R>(store: Store<R>, externalName: string, rounds: seq<Round>): (Store<R>, bool)
    decreases |rounds|
  {
    if rounds == [] then (store, false) else
      var (next, finished) := DeletionRound(store, externalName, rounds[0]);
      if finished then (next, true) else DeletionRounds(next, externalName, rounds[1..])
  }

  ghost predicate RoundsResolve<R(!new)>(store: Store<R>, externalName: string, rounds: seq<Round>)
    decreases |rounds|
  {
    rounds == [] ||
    (Resolves(store, externalName, rounds[0].hit) &&
     RoundsResolve(DeletionRound(store, externalName, rounds[0]).0, externalName, rounds[1..]))
  }

  /** How many of the rounds meet no fault. */
  function Clean(rounds: seq<Round>): nat
  {
    if rounds == [] then 0 else (if rounds[0].Faultless() then 1 else 0) + Clean(rounds[1..])
  }

  /** Another record that the remote finds under the external name once the resource's own is gone. */
  predicate Shadowed<R>(store: Store<R>, externalName: string)
  {
    exists k | k in store :: k != externalName && MatchesNameOrSlug(store[k], externalName)
  }

  lemma DeletingKeepsShadow<R>(store: Store<R>, externalName: string)
    ensures Shadowed(store - {externalName}, externalName) <==> Shadowed(store, externalName)
  {
    if Shadowed(store, externalName) {
      var k :| k in store && k != externalName && MatchesNameOrSlug(store[k], externalName);
      assert k in store - {externalName};
    }
  }

  /** Whatever faults deletion meets: it does not finish while another record has the
      external name as its name or slug, and otherwise it has finished after two faultless
      rounds, or one if the record is gone already. Where it finishes, exactly the record
      under the external name is gone. */
  lemma {:induction false} DeletionFinishesUnlessShadowed<R(!new)>(store: Store<R>, externalName: string,
        rounds: seq<Round>)
    requires RoundsResolve(store, externalName, rounds)
    ensures var (left, finished) := DeletionRounds(store, externalName, rounds);
            (Clean(rounds) >= 2 || (Clean(rounds) >= 1 && externalName !in store) ==>
               (finished <==> externalName == "" || !Shadowed(store, externalName))) &&
            (Shadowed(store, externalName) && externalName != "" ==> !finished) &&
            (left == store || left == store - {externalName}) &&
            (finished ==> left == if externalName == "" then store else store - {externalName})
    decreases |rounds|
  {
    if rounds != [] && externalName != "" {
      var (next, finished) := DeletionRound(store, externalName, rounds[0]);
      if finished {
        assert store - {externalName} == store;
      } else {
        DeletingKeepsShadow(store, externalName);
        assert (store - {externalName}) - {externalName} == store - {externalName};
        assert externalName !in store ==> store - {externalName} == store;
        DeletionFinishesUnlessShadowed(next, externalName, rounds[1..]);
      }
    }
  }

  /** Attempts at creation in any run, under any names, and then deletion among faults. Once the
      finalizer is dropped, what is left of the records that the remote made is all of
      them but the one whose id is the external name. So a record leaks when its id was
      never stored: the response to its creation was lost, or the external name was, or
      the name was edited and another record took its place. */
  lemma LeavesNothingBehindExactly<R(!new)>(s: Creation<R>, es: seq<Event<R>>, rounds: seq<Round>)
    requires s.externalName == "" && s.made == map[] && Legal(s, es) && SparesMade(s, es) && Clean(rounds) >= 2
    requires var t := Run(s, es); RoundsResolve(t.store, t.externalName, rounds)
    ensures var t := Run(s, es);
            var (left, finished) := DeletionRounds(t.store, t.externalName, rounds);
            (finished <==> t.externalName == "" || !Shadowed(t.store, t.externalName)) &&
            (finished ==>
               t.made.Keys * left.Keys == t.made.Keys - {t.externalName} &&
               (t.made.Keys !! left.Keys <==> t.made.Keys <= {t.externalName}))
  {
    MadeRecordsStay(s, es);
    var t := Run(s, es);
    DeletionFinishesUnlessShadowed(t.store, t.externalName, rounds);
  }

  /** If the name never changes, no record of the name is left exactly when the external
      name was stored, or no record had the name and the remote made none. */
  lemma LeavesNoneOfTheNameExactly<R(!new)>(name: string, s: Creation<R>, es: seq<Event<R>>, rounds: seq<Round>)
    requires Sound(name, s.store) && Legal(s, es) && Spares(name, s, es) && AllUnder(name, es)
    requires s.externalName == "" && s.made == map[]
    requires var t := Run(s, es);
             RoundsResolve(t.store, t.externalName, rounds) && DeletionRounds(t.store, t.externalName, rounds).1
    ensures var t := Run(s, es);
            var (left, _) := DeletionRounds(t.store, t.externalName, rounds);
            Holders(left, name) == {} <==>
            t.externalName != "" || (Holders(s.store, name) == {} && MadeUnder(t, name) == {})
  {
    CreatesAtMostOnce(name, s, es);
    var t := Run(s, es);
    DeletionFinishesUnlessShadowed(t.store, t.externalName, rounds);
    if t.externalName != "" {
      var left := t.store - {t.externalName};
      forall k | k in left ensures left[k].name != name {
        assert left[k].name == name ==> k in Holders(t.store, name);
      }
      assert Holders(left, name) == {};
    }
  }

  /** A run in which a name edit makes two records: the response to making the first is
      lost, the name is edited, and the second is made and stored. */
  lemma EditedNameMakesTwo<R(!new)>(store: Store<R>, x: Named<R>, y: Named<R>, a: Event<R>, b: Event<R>)
    requires KeepsIds(store) && x.name != y.name && !NameTaken(store, x.name) && !NameTaken(store, y.name)
    requires x.id != y.id && a.Attempt? && a.name == x.name && a.stored == x && a.post.ResponseLost?
    requires b.Attempt? && b.name == y.name && b.stored == y && b.post.Delivered? && b.saved
    requires Enabled(Creation(store, "", map[]), a) && Resolves(store[x.id := x], y.name, b.hit)
    requires y.id != "" && y.id != y.name && y.id !in store
    ensures var s := Creation(store, "", map[]);
            Legal(s, [a, b]) && SparesMade(s, [a, b]) &&
            Run(s, [a, b]) == Creation(store[x.id := x][y.id := y], y.id, map[x.id := x.name, y.id := y.name])
  {
    var s := Creation(store, "", map[]);
    var t := Step(s, a);
    assert t == Creation(store[x.id := x], "", map[x.id := x.name]) by { assert x.id in t.store.Keys && x.id !in store.Keys; }
    var u := Step(t, b);
    assert u == Creation(t.store[y.id := y], y.id, t.made[y.id := y.name]) by {
      assert !NameTaken(t.store, y.name);
      assert y.id in u.store.Keys && y.id !in t.store.Keys;
    }
    var es, rest := [a, b], [b];
    assert es[1..] == rest && rest[1..] == [];
    assert Run(u, []) == u && Run(t, rest) == u && Run(s, es) == u;
    assert Legal(u, []) && Legal(t, rest) && SparesMade(u, []) && SparesMade(t, rest);
  }

  /** Deletion then takes the second only. */
  lemma FirstOfTwoStays<R(!new)>(store: Store<R>, x: Named<R>, y: Named<R>, rounds: seq<Round>)
    requires x.id != y.id && y.id != "" && Clean(rounds) >= 2
    requires var after := store[x.id := x][y.id := y]; !Shadowed(after, y.id) && RoundsResolve(after, y.id, rounds)
    ensures var (left, finished) := DeletionRounds(store[x.id := x][y.id := y], y.id, rounds);
            finished && x.id in left && y.id !in left
  {
    var after := store[x.id := x][y.id := y];
    DeletionFinishesUnlessShadowed(after, y.id, rounds);
  }
}
