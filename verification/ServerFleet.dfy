/** Any number of virtual servers on one remote. Their controllers do not disturb each
    other, so what holds for one resource among arbitrary changes by others holds for
    all of them together. */
module ServerFleet {
  import opened Wrappers
  import opened Remote
  import opened Managed
  import opened ServerClient
  import opened ServerController
  import opened ServerRuns
  import opened ServerConvergence
  import ServerIds

  function Id(hash: ServerIds.NameHash, key: Key): string
  {
    ServerIds.DeterministicId(hash, key)
  }

  /** Namespaces have no slash, and no two of the names that are hashed collide. */
  ghost predicate NoCollision(hash: ServerIds.NameHash, keys: set<Key>)
  {
    (forall k | k in keys :: ServerIds.SlashFree(k.namespace)) &&
    forall k, l | k in keys && l in keys && k != l ::
      ServerIds.Stamp(hash(ServerIds.HashedName(k))) != ServerIds.Stamp(hash(ServerIds.HashedName(l)))
  }

  /** What the controller does for one virtual server is, to another one, a calm change of
      the remote by somebody else. */
  lemma OthersStepIsACalmChange(id: string, other: string, baseUrl: string, s: State, e: Event, t: State)
    requires id != "" && id != other && Invariant(id, baseUrl, s) && Enabled(id, s, e) && IsProvider(e)
    requires t.store == s.store
    ensures var change := ChangeRemote(Step(id, baseUrl, s, e).store);
            Enabled(other, t, change) && Calm(other, t, change)
  {
    StepKeepsInvariant(id, baseUrl, s, e);
    TouchesOnlyItsOwnRecord(id, baseUrl, s, e, other);
  }

  /** The virtual servers by their keys. Each state holds the one remote. */
  type Fleet = map<Key, State>

  /** Something that happens to one resource, or to all of them at once. */
  datatype FleetEvent = Own(key: Key, e: Event) | Shared(e: Event)

  predicate IsShared(e: Event)
  {
    e.ChangeRemote? || e.ChangeCluster?
  }

  ghost predicate FleetEnabled(hash: ServerIds.NameHash, f: Fleet, e: FleetEvent)
  {
    match e
    case Own(key, e) => key in f && !IsShared(e) && Enabled(Id(hash, key), f[key], e)
    case Shared(e) => IsShared(e) && forall k | k in f :: Enabled(Id(hash, k), f[k], e)
  }

  function FleetStep(hash: ServerIds.NameHash, baseUrl: string, f: Fleet, e: FleetEvent): Fleet
  {
    match e
    case Own(key, e) =>
      if key !in f then f else
      var t := Step(Id(hash, key), baseUrl, f[key], e);
      map k | k in f :: if k == key then t else f[k].(store := t.store)
    case Shared(e) => map k | k in f :: Step(Id(hash, k), baseUrl, f[k], e)
  }

  function FleetRun(hash: ServerIds.NameHash, baseUrl: string, f: Fleet, es: seq<FleetEvent>): Fleet
    decreases |es|
  {
    if es == [] then f else FleetRun(hash, baseUrl, FleetStep(hash, baseUrl, f, es[0]), es[1..])
  }

  ghost predicate FleetLegal(hash: ServerIds.NameHash, baseUrl: string, f: Fleet, es: seq<FleetEvent>)
    decreases |es|
  {
    es == [] ||
    (FleetEnabled(hash, f, es[0]) && FleetLegal(hash, baseUrl, FleetStep(hash, baseUrl, f, es[0]), es[1..]))
  }

  predicate OneRemote(f: Fleet)
  {
    forall k, l | k in f && l in f :: f[k].store == f[l].store
  }

  ghost predicate FleetInvariant(hash: ServerIds.NameHash, baseUrl: string, f: Fleet)
  {
    OneRemote(f) && forall k | k in f :: f[k].cr.key == k && Invariant(Id(hash, k), baseUrl, f[k])
  }

  lemma StepKeepsKey(id: string, baseUrl: string, s: State, e: Event)
    ensures Step(id, baseUrl, s, e).cr.key == s.cr.key
  {
  }

  lemma QuietStepKeepsRemote(id: string, baseUrl: string, s: State, e: Event)
    requires !IsProvider(e) && !IsShared(e)
    ensures Step(id, baseUrl, s, e).store == s.store
  {
  }

  lemma BystanderKeepsInvariant(hash: ServerIds.NameHash, baseUrl: string, f: Fleet, e: FleetEvent, k: Key)
    requires NoCollision(hash, f.Keys) && FleetInvariant(hash, baseUrl, f) && FleetEnabled(hash, f, e)
    requires e.Own? && k in f && k != e.key
    ensures var g := FleetStep(hash, baseUrl, f, e);
            g[k].cr.key == k && Invariant(Id(hash, k), baseUrl, g[k])
  {
    var s := f[e.key];
    var t := Step(Id(hash, e.key), baseUrl, s, e.e);
    if IsProvider(e.e) {
      ServerIds.IdsCollideOnlyWithTheHash(hash, k, e.key);
      IdIsNotEmpty(hash, e.key);
      OthersStepIsACalmChange(Id(hash, e.key), Id(hash, k), baseUrl, s, e.e, f[k]);
      IdIsNotEmpty(hash, k);
      StepKeepsInvariant(Id(hash, k), baseUrl, f[k], ChangeRemote(t.store));
    } else {
      QuietStepKeepsRemote(Id(hash, e.key), baseUrl, s, e.e);
    }
    assert FleetStep(hash, baseUrl, f, e)[k] == f[k].(store := t.store);
  }

  lemma OwnerKeepsInvariant(hash: ServerIds.NameHash, baseUrl: string, f: Fleet, e: FleetEvent, k: Key)
    requires FleetInvariant(hash, baseUrl, f) && FleetEnabled(hash, f, e) && k in f && (e.Own? ==> k == e.key)
    ensures var g := FleetStep(hash, baseUrl, f, e);
            g[k].cr.key == k && Invariant(Id(hash, k), baseUrl, g[k])
  {
    IdIsNotEmpty(hash, k);
    StepKeepsKey(Id(hash, k), baseUrl, f[k], e.e);
    StepKeepsInvariant(Id(hash, k), baseUrl, f[k], e.e);
    assert FleetStep(hash, baseUrl, f, e)[k] == Step(Id(hash, k), baseUrl, f[k], e.e);
  }

  /** The remote after an event, given the remote before it. */
  function NextStore(hash: ServerIds.NameHash, baseUrl: string, f: Fleet, e: FleetEvent, store: Store): Store
  {
    match e
    case Own(key, e) => if key in f then Step(Id(hash, key), baseUrl, f[key], e).store else store
    case Shared(ChangeRemote(next)) => next
    case Shared(_) => store
  }

  lemma SharedStepSetsTheRemote(id: string, baseUrl: string, s: State, e: Event)
    requires IsShared(e)
    ensures Step(id, baseUrl, s, e).store == if e.ChangeRemote? then e.store else s.store
  {
  }

  lemma MemberSeesNextStore(hash: ServerIds.NameHash, baseUrl: string, f: Fleet, e: FleetEvent, k: Key, store: Store)
    requires FleetEnabled(hash, f, e) && k in f && f[k].store == store
    ensures FleetStep(hash, baseUrl, f, e)[k].store == NextStore(hash, baseUrl, f, e, store)
  {
    if e.Shared? { SharedStepSetsTheRemote(Id(hash, k), baseUrl, f[k], e.e); }
  }

  lemma StepKeepsOneRemote(hash: ServerIds.NameHash, baseUrl: string, f: Fleet, e: FleetEvent)
    requires OneRemote(f) && FleetEnabled(hash, f, e)
    ensures OneRemote(FleetStep(hash, baseUrl, f, e)) && FleetStep(hash, baseUrl, f, e).Keys == f.Keys
  {
    var g := FleetStep(hash, baseUrl, f, e);
    assert g.Keys == f.Keys;
    forall k, l | k in g && l in g ensures g[k].store == g[l].store {
      MemberSeesNextStore(hash, baseUrl, f, e, k, f[k].store);
      MemberSeesNextStore(hash, baseUrl, f, e, l, f[k].store);
    }
  }

  lemma FleetStepKeepsInvariant(hash: ServerIds.NameHash, baseUrl: string, f: Fleet, e: FleetEvent)
    requires NoCollision(hash, f.Keys) && FleetInvariant(hash, baseUrl, f) && FleetEnabled(hash, f, e)
    ensures FleetInvariant(hash, baseUrl, FleetStep(hash, baseUrl, f, e))
    ensures FleetStep(hash, baseUrl, f, e).Keys == f.Keys
  {
    StepKeepsOneRemote(hash, baseUrl, f, e);
    var g := FleetStep(hash, baseUrl, f, e);
    forall k | k in g ensures g[k].cr.key == k && Invariant(Id(hash, k), baseUrl, g[k]) {
      if e.Own? && k != e.key {
        BystanderKeepsInvariant(hash, baseUrl, f, e, k);
      } else {
        OwnerKeepsInvariant(hash, baseUrl, f, e, k);
      }
    }
  }

  lemma {:induction false} FleetRunKeepsInvariant(hash: ServerIds.NameHash, baseUrl: string, f: Fleet, es: seq<FleetEvent>)
    requires NoCollision(hash, f.Keys) && FleetInvariant(hash, baseUrl, f) && FleetLegal(hash, baseUrl, f, es)
    ensures FleetInvariant(hash, baseUrl, FleetRun(hash, baseUrl, f, es))
    ensures FleetRun(hash, baseUrl, f, es).Keys == f.Keys
    decreases |es|
  {
    if es != [] {
      FleetStepKeepsInvariant(hash, baseUrl, f, es[0]);
      FleetRunKeepsInvariant(hash, baseUrl, FleetStep(hash, baseUrl, f, es[0]), es[1..]);
    }
  }

  /** In every interleaving of the operations for any number of virtual servers whose
      hashed names do not collide, none of them leaks a record, creates one at another's
      id, or is handed another's connection details. */
  lemma FleetNeverLeaks(hash: ServerIds.NameHash, baseUrl: string, f: Fleet, es: seq<FleetEvent>, k: Key)
    requires NoCollision(hash, f.Keys) && OneRemote(f) && FleetLegal(hash, baseUrl, f, es) && k in f
    requires forall l | l in f :: f[l].cr.key == l && Initial(Id(hash, l), f[l])
    ensures var g := FleetRun(hash, baseUrl, f, es);
            g.Keys == f.Keys && OneRemote(g) && g[k].made <= {Id(hash, k)} &&
            (g[k].finished ==> Id(hash, k) !in g[k].store) && g[k].reported <= {Details(baseUrl, Id(hash, k))}
  {
    FleetRunKeepsInvariant(hash, baseUrl, f, es);
    assert Invariant(Id(hash, k), baseUrl, FleetRun(hash, baseUrl, f, es)[k]);
  }
}
