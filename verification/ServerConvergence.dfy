/** Once nothing fails and nobody interferes, the virtual server settles. */
module ServerConvergence {
  import opened Wrappers
  import opened Remote
  import opened Managed
  import opened ServerClient
  import opened ServerController
  import opened ServerRuns
  import ServerIds
  import TeamResolve

  /** The resource is wanted and its Team is ready. */
  predicate Wanted(s: State)
  {
    !s.cr.deleted && !s.finished && TeamResolve.Resolve(s.kube, s.cr.key.namespace, s.cr.spec.teamRef).Ok?
  }

  function TeamId(s: State): string
    requires Wanted(s)
  {
    TeamResolve.Resolve(s.kube, s.cr.key.namespace, s.cr.spec.teamRef).value
  }

  /** Faultless operations, while the remote may at any time rearrange the lists of the
      record and do what it likes with other records. */
  ghost predicate Calm(id: string, s: State, e: Event)
  {
    match e
    case Observe(net) => net.Faultless()
    case Act(net, _) => net.Faultless()
    case ChangeRemote(store) => (id in store <==> id in s.store) && (id in store ==> SameUpToOrder(s.store[id], store[id]))
    case _ => false
  }

  ghost predicate CalmRun(id: string, baseUrl: string, s: State, es: seq<Event>)
    decreases |es|
  {
    es == [] ||
    (Enabled(id, s, es[0]) && Calm(id, s, es[0]) && CalmRun(id, baseUrl, Step(id, baseUrl, s, es[0]), es[1..]))
  }

  function Operations(es: seq<Event>): nat
  {
    if es == [] then 0 else (if IsProvider(es[0]) then 1 else 0) + Operations(es[1..])
  }

  predicate UpToDate(id: string, s: State)
    requires Wanted(s)
  {
    id in s.store && IsUpToDate(s.cr, TeamId(s), s.store[id])
  }

  predicate Settled(id: string, s: State)
    requires Wanted(s)
  {
    s.pc.Idle? && UpToDate(id, s)
  }

  /** The operation in progress was decided on the present spec and the present
      existence of the record. A decision taken before an interruption may be stale. */
  predicate Current(id: string, s: State)
    requires Wanted(s) && s.pc.Working?
  {
    s.pc.read.spec == s.cr.spec && if s.pc.action.CallCreate? then id !in s.store else id in s.store
  }

  /** How many operations it takes to settle. */
  function Distance(id: string, s: State): nat
    requires Wanted(s)
  {
    if s.pc.Idle? then if UpToDate(id, s) then 0 else 2
    else if Current(id, s) then 1
    else 3
  }

  /** How many requests it takes to settle. */
  function Owed(id: string, s: State): nat
    requires Wanted(s)
  {
    if s.pc.Idle? then if UpToDate(id, s) then 0 else 1
    else if Current(id, s) then 1
    else 2
  }

  lemma ObserveDecides(id: string, baseUrl: string, s: State, e: Event)
    requires id != "" && Invariant(id, baseUrl, s) && Wanted(s) && e.Observe? && Enabled(id, s, e) && Calm(id, s, e)
    ensures var t := Step(id, baseUrl, s, e);
            Wanted(t) && t.requests == s.requests &&
            (if Settled(id, s) then Settled(id, t) else t.pc.Working? && Current(id, t))
  {
  }

  lemma CurrentCreateSettles(id: string, baseUrl: string, s: State, e: Event)
    requires Wanted(s) && s.pc.Working? && s.pc.action.CallCreate? && Current(id, s) && s.pc.read.key == s.cr.key
    requires e.Act? && Honours(e.net) && e.net.Faultless()
    ensures var t := Step(id, baseUrl, s, e); Wanted(t) && Settled(id, t)
  {
    var q := CreateBody(s.pc.read, TeamId(s), id);
    assert Created(q, e.net.create(q));
    CreateMakesUpToDate(s.pc.read, TeamId(s), id, e.net.create(q));
    assert AfterCreate(s.pc.read, id, baseUrl, s.store, s.kube, e.net).store == s.store[id := e.net.create(q)];
  }

  lemma CurrentUpdateSettles(id: string, baseUrl: string, s: State, e: Event)
    requires Wanted(s) && s.pc.Working? && s.pc.action.CallUpdate? && Current(id, s) && s.pc.read.key == s.cr.key
    requires e.Act? && Honours(e.net) && e.net.Faultless()
    ensures var t := Step(id, baseUrl, s, e); Wanted(t) && Settled(id, t)
  {
    var u := ToUpdate(s.pc.read, TeamId(s));
    assert Updated(u, s.store[id], e.net.update(u, s.store[id]));
    UpdateMakesUpToDate(s.pc.read, TeamId(s), s.store[id], e.net.update(u, s.store[id]));
  }

  lemma ActSettles(id: string, baseUrl: string, s: State, e: Event)
    requires id != "" && Invariant(id, baseUrl, s) && Wanted(s) && e.Act? && Enabled(id, s, e) && Calm(id, s, e)
    ensures var t := Step(id, baseUrl, s, e);
            Wanted(t) && t.requests == s.requests + 1 && t.pc.Idle? && (Current(id, s) ==> Settled(id, t))
  {
    var read := s.pc.read;
    var team := TeamResolve.Resolve(s.kube, read.key.namespace, read.spec.teamRef);
    if Current(id, s) {
      assert team == Ok(TeamId(s));
      if s.pc.action.CallCreate? {
        CurrentCreateSettles(id, baseUrl, s, e);
      } else {
        CurrentUpdateSettles(id, baseUrl, s, e);
      }
    }
  }

  /** A calm step moves closer, and pays for every request it sends. */
  lemma CalmStepProgresses(id: string, baseUrl: string, s: State, e: Event)
    requires id != "" && Invariant(id, baseUrl, s) && Wanted(s) && Enabled(id, s, e) && Calm(id, s, e)
    ensures var t := Step(id, baseUrl, s, e);
            Wanted(t) && Invariant(id, baseUrl, t) &&
            Owed(id, t) + t.requests <= Owed(id, s) + s.requests &&
            Distance(id, t) <= Distance(id, s) - (if IsProvider(e) && Distance(id, s) > 0 then 1 else 0)
  {
    StepKeepsInvariant(id, baseUrl, s, e);
    match e
    case Observe(_) => ObserveDecides(id, baseUrl, s, e);
    case Act(_, _) => ActSettles(id, baseUrl, s, e);
    case ChangeRemote(store) =>
      if id in store { OrderDoesNotMatter(s.cr, TeamId(s), s.store[id], store[id]); }
  }

  lemma {:induction false} CalmRunProgresses(id: string, baseUrl: string, s: State, es: seq<Event>)
    requires id != "" && Invariant(id, baseUrl, s) && Wanted(s) && CalmRun(id, baseUrl, s, es)
    ensures var t := Run(id, baseUrl, s, es);
            Wanted(t) && Invariant(id, baseUrl, t) &&
            Owed(id, t) + t.requests <= Owed(id, s) + s.requests &&
            (Operations(es) >= Distance(id, s) ==> Settled(id, t))
    decreases |es|
  {
    if es != [] {
      CalmStepProgresses(id, baseUrl, s, es[0]);
      CalmRunProgresses(id, baseUrl, Step(id, baseUrl, s, es[0]), es[1..]);
    }
  }

  lemma {:induction false} RequestsGrow(id: string, baseUrl: string, s: State, es: seq<Event>)
    ensures Run(id, baseUrl, s, es).requests >= s.requests
    decreases |es|
  {
    if es != [] { RequestsGrow(id, baseUrl, Step(id, baseUrl, s, es[0]), es[1..]); }
  }

  /** After any run at all, however it failed, a calm run sends at most two requests;
      three operations are enough to settle; and from then on no request is sent. */
  lemma Converges(hash: ServerIds.NameHash, baseUrl: string, s: State, before: seq<Event>, calm: seq<Event>, after: seq<Event>)
    requires var id := ServerIds.DeterministicId(hash, s.cr.key);
             Initial(id, s) && Legal(id, baseUrl, s, before) && Wanted(Run(id, baseUrl, s, before)) &&
             CalmRun(id, baseUrl, Run(id, baseUrl, s, before), calm) &&
             CalmRun(id, baseUrl, Run(id, baseUrl, Run(id, baseUrl, s, before), calm), after)
    ensures var id := ServerIds.DeterministicId(hash, s.cr.key);
            var r := Run(id, baseUrl, s, before);
            var t := Run(id, baseUrl, r, calm);
            var u := Run(id, baseUrl, t, after);
            t.requests <= r.requests + 2 &&
            (Operations(calm) >= 3 ==> Wanted(t) && Settled(id, t) && Wanted(u) && Settled(id, u) && u.requests == t.requests)
  {
    var id := ServerIds.DeterministicId(hash, s.cr.key);
    IdIsNotEmpty(hash, s.cr.key);
    RunKeepsInvariant(id, baseUrl, s, before);
    var r := Run(id, baseUrl, s, before);
    CalmRunProgresses(id, baseUrl, r, calm);
    var t := Run(id, baseUrl, r, calm);
    CalmRunProgresses(id, baseUrl, t, after);
    RequestsGrow(id, baseUrl, t, after);
  }
}
