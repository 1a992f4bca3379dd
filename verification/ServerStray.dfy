/** A virtual server whose external name may be anything: from which starts it settles. */
module ServerStray {
  import opened Wrappers
  import opened SliceUtil
  import opened Remote
  import opened Managed
  import opened Wire
  import opened ServerClient
  import opened ServerController
  import opened ServerRuns
  import opened ServerConvergence
  import TeamResolve

  /** The record that Observe looks at is there and up to date, and nothing is in progress. */
  predicate AtRest(id: string, s: State)
    requires Wanted(s)
  {
    var at := ObservedId(s.cr, id);
    s.pc.Idle? && at in s.store && IsUpToDate(s.cr, TeamId(s), s.store[at])
  }

  /** A calm event that saves what it does, and leaves the record under the given name
      alone up to the order of its lists. */
  ghost predicate CalmAt(id: string, x: string, s: State, e: Event)
  {
    Enabled(id, s, e) && Calm(id, s, e) && (e.Act? ==> e.saved) &&
    (e.ChangeRemote? ==> (x in e.store <==> x in s.store) && (x in e.store ==> SameUpToOrder(s.store[x], e.store[x])))
  }

  ghost predicate CalmRunAt(id: string, baseUrl: string, x: string, s: State, es: seq<Event>)
    decreases |es|
  {
    es == [] || (CalmAt(id, x, s, es[0]) && CalmRunAt(id, baseUrl, x, Step(id, baseUrl, s, es[0]), es[1..]))
  }

  lemma {:induction false} CalmRunAtIsCalm(id: string, baseUrl: string, x: string, s: State, es: seq<Event>)
    requires CalmRunAt(id, baseUrl, x, s, es)
    ensures CalmRun(id, baseUrl, s, es)
    decreases |es|
  {
    if es != [] { CalmRunAtIsCalm(id, baseUrl, x, Step(id, baseUrl, s, es[0]), es[1..]); }
  }

  // ---------- The external name is the id of another server ----------

  /** The external name is the id of another server, and the operation in progress, if
      any, is an update. */
  predicate Elsewhere(id: string, x: string, s: State)
  {
    Wanted(s) && s.cr.externalName == x && x != "" && x != id && x in s.store &&
    (s.pc.Working? ==> s.pc.action.CallUpdate? && s.pc.read.externalName == x)
  }

  lemma UpdateKeepsExternalName(cr: ServerCr, id: string, baseUrl: string, store: Store, kube: Kube, net: ServerNet)
    ensures var o := AfterUpdate(cr, id, baseUrl, store, kube, net);
            o.cr.externalName == cr.externalName && o.store.Keys == store.Keys
  {
  }

  /** A calm step neither binds the resource to its own server nor changes the other one.
      While the other one is not up to date, every second operation is a request. */
  lemma ElsewhereStep(id: string, baseUrl: string, x: string, s: State, e: Event)
    requires Elsewhere(id, x, s) && CalmAt(id, x, s, e)
    requires s.pc.Working? ==> !IsUpToDate(s.cr, TeamId(s), s.store[x])
    ensures var t := Step(id, baseUrl, s, e);
            var drifted := !IsUpToDate(s.cr, TeamId(s), s.store[x]);
            Elsewhere(id, x, t) && (IsUpToDate(t.cr, TeamId(t), t.store[x]) <==> !drifted) && (t.pc.Working? ==> drifted) &&
            (id in t.store <==> id in s.store) &&
            2 * t.requests + (if t.pc.Working? then 1 else 0) ==
            2 * s.requests + (if s.pc.Working? then 1 else 0) + (if IsProvider(e) && drifted then 1 else 0)
  {
    match e
    case Act(net, _) =>
      TouchesOnlyItsOwnRecord(id, baseUrl, s, e, x);
      UpdateKeepsExternalName(s.pc.read, id, baseUrl, s.store, s.kube, net);
    case ChangeRemote(store) => OrderDoesNotMatter(s.cr, TeamId(s), s.store[x], store[x]);
    case _ =>
  }

  lemma {:induction false} ElsewhereRun(id: string, baseUrl: string, x: string, s: State, es: seq<Event>)
    requires Elsewhere(id, x, s) && CalmRunAt(id, baseUrl, x, s, es)
    requires s.pc.Working? ==> !IsUpToDate(s.cr, TeamId(s), s.store[x])
    ensures var t := Run(id, baseUrl, s, es);
            var drifted := !IsUpToDate(s.cr, TeamId(s), s.store[x]);
            Elsewhere(id, x, t) && (IsUpToDate(t.cr, TeamId(t), t.store[x]) <==> !drifted) && (t.pc.Working? ==> drifted) &&
            (id in t.store <==> id in s.store) &&
            2 * t.requests + (if t.pc.Working? then 1 else 0) ==
            2 * s.requests + (if s.pc.Working? then 1 else 0) + (if drifted then Operations(es) else 0)
    decreases |es|
  {
    if es != [] {
      ElsewhereStep(id, baseUrl, x, s, es[0]);
      ElsewhereRun(id, baseUrl, x, Step(id, baseUrl, s, es[0]), es[1..]);
    }
  }

  // ---------- The external name names no server ----------

  /** The external name names no server, and the operation in progress, if any, is a create. */
  predicate Nowhere(id: string, x: string, s: State)
  {
    Wanted(s) && s.cr.externalName == x && x != "" && x != id && x !in s.store && KeepsIds(s.store) &&
    (s.pc.Working? ==> s.pc.action.CallCreate? && s.pc.read.spec == s.cr.spec && s.pc.read.key == s.cr.key && s.pc.read.externalName == x)
  }

  /** What the resource has done so far concerns its own id. */
  predicate OwnTraces(id: string, baseUrl: string, s: State)
  {
    s.made <= {id} && s.reported <= {Details(baseUrl, id)}
  }

  /** The Create that follows takes the own id for the external name, whether it makes the
      record or finds it there. */
  lemma NowhereAct(id: string, baseUrl: string, x: string, s: State, e: Event)
    requires id != "" && Nowhere(id, x, s) && OwnTraces(id, baseUrl, s) && e.Act? && s.pc.Working? && CalmAt(id, x, s, e)
    ensures var t := Step(id, baseUrl, s, e);
            Wanted(t) && t.cr.externalName == id && t.pc.Idle? && Invariant(id, baseUrl, t)
  {
    var read := s.pc.read;
    var q := CreateBody(read, TeamId(s), id);
    assert Created(q, e.net.create(q));
  }

  lemma NowhereStep(id: string, baseUrl: string, x: string, s: State, e: Event)
    requires Nowhere(id, x, s) && OwnTraces(id, baseUrl, s) && !e.Act? && CalmAt(id, x, s, e)
    ensures var t := Step(id, baseUrl, s, e);
            Nowhere(id, x, t) && OwnTraces(id, baseUrl, t) && (if e.Observe? then t.pc.Working? else t.pc == s.pc)
  {
  }

  /** Two operations bind the resource to its own id, and two more settle it. */
  lemma {:induction false} NowhereRun(id: string, baseUrl: string, x: string, s: State, es: seq<Event>)
    requires id != "" && Nowhere(id, x, s) && OwnTraces(id, baseUrl, s) && CalmRunAt(id, baseUrl, x, s, es)
    requires Operations(es) >= if s.pc.Idle? then 4 else 3
    ensures var t := Run(id, baseUrl, s, es); Wanted(t) && OwnName(id, t.cr) && AtRest(id, t)
    decreases |es|
  {
    var e := es[0];
    var t := Step(id, baseUrl, s, e);
    if e.Act? {
      NowhereAct(id, baseUrl, x, s, e);
      CalmRunAtIsCalm(id, baseUrl, x, t, es[1..]);
      CalmRunProgresses(id, baseUrl, t, es[1..]);
    } else {
      NowhereStep(id, baseUrl, x, s, e);
      NowhereRun(id, baseUrl, x, t, es[1..]);
    }
  }

  // ---------- Every start ----------

  lemma KeepsOwnName(id: string, baseUrl: string, s: State, es: seq<Event>)
    requires id != "" && Invariant(id, baseUrl, s) && Wanted(s) && CalmRun(id, baseUrl, s, es)
    ensures OwnName(id, Run(id, baseUrl, s, es).cr)
  {
    CalmRunProgresses(id, baseUrl, s, es);
  }

  /** After a calm run of four operations or more, from any external name, the resource is
      at rest exactly when the external name was its own or unset, or named no server, or
      named a server that happens to be up to date. Where it was the id of a server that
      is not, the controller sends a request in every reconcile, for ever, and makes no
      server of its own. */
  lemma SettlesExactly(id: string, baseUrl: string, s: State, es: seq<Event>)
    requires id != "" && Wanted(s) && s.pc.Idle? && KeepsIds(s.store) && OwnTraces(id, baseUrl, s)
    requires CalmRunAt(id, baseUrl, s.cr.externalName, s, es) && Operations(es) >= 4
    ensures var x := s.cr.externalName;
            var t := Run(id, baseUrl, s, es);
            Wanted(t) &&
            (AtRest(id, t) <==> OwnName(id, s.cr) || x !in s.store || IsUpToDate(s.cr, TeamId(s), s.store[x])) &&
            (!AtRest(id, t) ==>
               2 * t.requests + (if t.pc.Working? then 1 else 0) == 2 * s.requests + Operations(es) &&
               (id in t.store <==> id in s.store))
  {
    var x := s.cr.externalName;
    if OwnName(id, s.cr) {
      CalmRunAtIsCalm(id, baseUrl, x, s, es);
      CalmRunProgresses(id, baseUrl, s, es);
      KeepsOwnName(id, baseUrl, s, es);
    } else if x in s.store {
      ElsewhereRun(id, baseUrl, x, s, es);
    } else {
      NowhereRun(id, baseUrl, x, s, es);
    }
  }
}
