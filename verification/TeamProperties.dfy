/** What the team controller achieves: when its updates converge, and how creation and
    deletion fare over retries. */
module TeamProperties {
  import opened Wrappers
  import opened Remote
  import opened Managed
  import opened TeamClient
  import opened TeamController

  // ---------- Convergence of updates ----------

  /** An update never sends the name, and leaves out an unset member limit. */
  predicate CanConverge(cr: TeamCr, t: Team)
  {
    t.name == cr.spec.name && (cr.spec.maxMembers.Some? || t.maxMembers.None?)
  }

  /** An accepted update leaves the team up to date exactly when it can; if not, the next
      update is no better off. */
  lemma UpdateConvergesExactly(cr: TeamCr, t: Team, t': Team)
    requires Updated(ToUpdate(cr), t, t')
    ensures IsUpToDate(cr, t') <==> CanConverge(cr, t)
    ensures CanConverge(cr, t') <==> CanConverge(cr, t)
  {
    if cr.spec.description.Some? { assert t'.description == cr.spec.description.value; }
  }

  /** Successive states of a team, each made of the one before by an accepted update. */
  ghost predicate UpdateChain(cr: TeamCr, ts: seq<Team>)
  {
    ts != [] && (|ts| == 1 || (Updated(ToUpdate(cr), ts[0], ts[1]) && UpdateChain(cr, ts[1..])))
  }

  /** Any positive number of accepted updates ends up to date exactly when the first one does. */
  lemma {:induction false} RepeatedUpdatesConvergeExactly(cr: TeamCr, ts: seq<Team>)
    requires |ts| > 1 && UpdateChain(cr, ts)
    ensures IsUpToDate(cr, ts[|ts| - 1]) <==> CanConverge(cr, ts[0])
  {
    UpdateConvergesExactly(cr, ts[0], ts[1]);
    if |ts| > 2 { RepeatedUpdatesConvergeExactly(cr, ts[1..]); }
  }

  /** The check passes exactly when an update can converge and would change nothing. */
  lemma UpToDateExactlyWhenUpdateIsNeedless(cr: TeamCr, t: Team, t': Team)
    requires Updated(ToUpdate(cr), t, t')
    ensures IsUpToDate(cr, t) <==> CanConverge(cr, t) && t' == t
  {
    UpdateConvergesExactly(cr, t, t');
  }

  /** After an Update that succeeds, Observe reports the team up to date exactly when the
      update could converge. */
  lemma ObserveAfterUpdate(cr: TeamCr, store: Teams, net: TeamNet, next: TeamNet)
    requires cr.externalName != "" && Honours(net) && AfterUpdate(cr, store, net).result.Ok? && next.get.Delivered?
    ensures cr.externalName in store
    ensures var o := AfterUpdate(cr, store, net);
            AfterObserve(o.cr, o.store, next).result == Ok(Observation(true, CanConverge(cr, store[cr.externalName]), None))
  {
    var t := store[cr.externalName];
    assert Updated(ToUpdate(cr), t, net.update(ToUpdate(cr), t));
    UpdateConvergesExactly(cr, t, net.update(ToUpdate(cr), t));
  }

  /** Adopting a team by its slug leaves it as it is, so a team that is adopted and then
      updated is up to date exactly when the team found could converge. */
  lemma AdoptedTeamConvergesExactly(cr: TeamCr, store: Teams, listing: Listing, made: TeamNet, net: TeamNet, next: TeamNet)
    requires LookedUp(listing, cr.spec.name).Ok? && LookedUp(listing, cr.spec.name).value != ""
    requires AfterCreate(cr, store, listing, made).result.Ok? && Honours(net) && net.Faultless() && next.get.Delivered?
    ensures var id := LookedUp(listing, cr.spec.name).value;
            var o := AfterCreate(cr, store, listing, made);
            id in store && o.store == store && o.cr.externalName == id &&
            var u := AfterUpdate(o.cr, o.store, net);
            u.result.Ok? &&
            AfterObserve(u.cr, u.store, next).result == Ok(Observation(true, CanConverge(cr, store[id]), None))
  {
    var o := AfterCreate(cr, store, listing, made);
    ObserveAfterUpdate(o.cr, o.store, net, next);
  }

  /** A team that was just made is up to date unless the remote chose a member limit that
      the spec leaves unset. */
  lemma CreatedTeamIsUpToDateExactly(cr: TeamCr, t: Team)
    requires Created(ToCreate(cr), t)
    ensures IsUpToDate(cr, t) <==> CanConverge(cr, t)
    ensures t.name == cr.spec.name
  {
    if cr.spec.description.Some? { assert t.description == cr.spec.description.value; }
  }

  // ---------- Listings ----------

  predicate KeepsIds(store: Teams)
  {
    forall k | k in store :: k != "" && store[k].id == k
  }

  /** The ids of the teams with a slug. */
  function Holders(store: Teams, slug: string): set<string>
  {
    set k | k in store && store[k].slug == slug
  }

  function PageIds(page: seq<Team>): set<string>
  {
    set t | t in page :: t.id
  }

  /** A listing shows different teams as they are, and as many as fit on its page. */
  ghost predicate Shows(store: Teams, page: seq<Team>)
  {
    (forall t | t in page :: t.id in store && store[t.id] == t) &&
    (forall i, j | 0 <= i < j < |page| :: page[i].id != page[j].id) &&
    |page| == if |store| <= PAGE_LIMIT then |store| else PAGE_LIMIT
  }

  lemma {:induction false} DistinctPageIds(page: seq<Team>)
    requires forall i, j | 0 <= i < j < |page| :: page[i].id != page[j].id
    ensures |PageIds(page)| == |page|
  {
    if page != [] {
      var others := page[1..];
      assert forall i | 0 <= i < |others| :: others[i] == page[i + 1];
      DistinctPageIds(others);
      assert page[0].id !in PageIds(others);
      assert page == [page[0]] + others;
      assert PageIds(page) == {page[0].id} + PageIds(others);
    }
  }

  lemma SubsetOfSameSize(a: set<string>, b: set<string>)
    requires a <= b && |a| == |b|
    ensures a == b
  {
    assert b == a + (b - a);
    assert |b - a| == 0;
  }

  /** With no more teams than fit on a page, the listing shows every team. */
  lemma PageIsComplete(store: Teams, page: seq<Team>, k: string)
    requires KeepsIds(store) && Shows(store, page) && |store| <= PAGE_LIMIT && k in store
    ensures store[k] in page
  {
    DistinctPageIds(page);
    assert |store.Keys| == |store|;
    SubsetOfSameSize(PageIds(page), store.Keys);
    assert k in PageIds(page);
    var t :| t in page && t.id == k;
  }

  /** A Create asks for a new team exactly when no team on the page has the name as its slug. */
  lemma PostsExactlyWhenThePageHasNoSuchSlug(cr: TeamCr, store: Teams, listing: Listing, net: TeamNet)
    requires listing.fault.Delivered? && !net.post.Refused? && net.create(ToCreate(cr)).id !in store
    ensures AfterCreate(cr, store, listing, net).store ==
            if exists t | t in listing.page :: t.slug == cr.spec.name then store
            else store[net.create(ToCreate(cr)).id := net.create(ToCreate(cr))]
  {
    FirstWithSlugExact(listing.page, cr.spec.name);
  }

  predicate ShowsSlug(page: seq<Team>, slug: string)
  {
    exists t | t in page :: t.slug == slug
  }

  // ---------- What single operations report, whatever fails ----------

  /** Observe fails exactly when the lookup of a set external name fails. Otherwise it says
      whether the team is there and up to date, and takes the status from it. */
  lemma ObserveReportsExactly(cr: TeamCr, store: Teams, net: TeamNet)
    ensures var o := AfterObserve(cr, store, net);
            var id := cr.externalName;
            var found := id != "" && net.get.Delivered? && id in store;
            o.store == store && o.cr == (if found then cr.(statusId := store[id].id) else cr) &&
            (o.result == Err(Api(Failed)) <==> id != "" && !net.get.Delivered?) &&
            (o.result.Ok? <==> id == "" || net.get.Delivered?) &&
            (o.result.Ok? ==> o.result.value.present == found && o.result.value.upToDate == (found && IsUpToDate(cr, store[id])))
  {
  }

  /** Create succeeds exactly when the listing arrives and the team that it shows can be
      read, or the team is made and the answer arrives. Then external name and status are
      the id of a team that is there; otherwise the resource is as it was. Without a
      listing nothing is made. */
  lemma CreateReportsExactly(cr: TeamCr, store: Teams, listing: Listing, net: TeamNet)
    requires KeepsIds(store)
    ensures var o := AfterCreate(cr, store, listing, net);
            var shown, first := ShowsSlug(listing.page, cr.spec.name), FirstWithSlug(listing.page, cr.spec.name);
            (first.Ok? <==> shown) &&
            (o.result.Ok? <==>
               listing.fault.Delivered? &&
               if first.Ok? then net.get.Delivered? && first.value in store else net.post.Delivered?) &&
            (o.result.Ok? ==>
               o.cr.externalName in o.store && o.store[o.cr.externalName].id == o.cr.externalName == o.cr.statusId &&
               o.cr == cr.(externalName := o.cr.externalName, statusId := o.cr.statusId)) &&
            (o.result.Err? ==>
               o.cr == cr &&
               o.result.error == Api(if listing.fault.Delivered? && first.Ok? && net.get.Delivered? then NotFound else Failed)) &&
            (!listing.fault.Delivered? || shown ==> o.store == store)
  {
    FirstWithSlugExact(listing.page, cr.spec.name);
  }

  /** Update succeeds exactly when the remote answers and the team is there. Then the status
      is that of what it made of the team; otherwise the resource is as it was. */
  lemma UpdateReportsExactly(cr: TeamCr, store: Teams, net: TeamNet)
    ensures var o := AfterUpdate(cr, store, net);
            var id := cr.externalName;
            (o.result.Ok? <==> net.put.Delivered? && id in store) &&
            (o.result.Ok? ==> id in o.store && o.cr == cr.(statusId := o.store[id].id)) &&
            (o.result.Err? ==> o.cr == cr && o.result.error == Api(if net.put.Delivered? then NotFound else Failed)) &&
            (net.put.Refused? ==> o.store == store) && o.store.Keys == store.Keys
  {
  }

  /** Delete succeeds exactly when the remote answers, whether or not the team was there. */
  lemma DeleteReportsExactly(cr: TeamCr, store: Teams, net: TeamNet)
    ensures var o := AfterDelete(cr, store, net);
            o.cr == cr && o.result == (if net.delete.Delivered? then Ok(()) else Err(Api(Failed))) &&
            o.store == if net.delete.Refused? then store else store - {cr.externalName}
  {
  }

  // ---------- What one page can hide ----------

  /** A page of any n of the given teams. */
  lemma {:induction false} PageOf(store: Teams, ids: set<string>, n: nat) returns (page: seq<Team>)
    requires KeepsIds(store) && ids <= store.Keys && n <= |ids|
    ensures |page| == n && forall t | t in page :: t.id in ids && store[t.id] == t
    ensures forall i, j | 0 <= i < j < |page| :: page[i].id != page[j].id
  {
    page := [];
    if n > 0 {
      var k :| k in ids;
      var others := PageOf(store, ids - {k}, n - 1);
      page := [store[k]] + others;
      assert forall i | 0 <= i < |others| :: others[i] in others;
    }
  }

  /** An honest listing that shows none of the teams with a slug. */
  lemma HidingPage(store: Teams, slug: string) returns (page: seq<Team>)
    requires KeepsIds(store) && (Holders(store, slug) == {} || |store| - |Holders(store, slug)| >= PAGE_LIMIT)
    ensures Shows(store, page) && !ShowsSlug(page, slug)
  {
    var others := store.Keys - Holders(store, slug);
    assert |store.Keys| == |store|;
    assert store.Keys == others + Holders(store, slug);
    page := PageOf(store, others, if |store| <= PAGE_LIMIT then |store| else PAGE_LIMIT);
  }

  lemma SubsetIsNoLarger(a: set<string>, b: set<string>)
    requires a <= b
    ensures |a| <= |b|
  {
    assert b == a + (b - a);
  }

  /** An honest listing can miss a slug exactly when no team has it, or the other teams
      fill a page. */
  lemma CanHideExactly(store: Teams, slug: string)
    requires KeepsIds(store)
    ensures (exists page :: Shows(store, page) && !ShowsSlug(page, slug)) <==>
            Holders(store, slug) == {} || |store| - |Holders(store, slug)| >= PAGE_LIMIT
  {
    if Holders(store, slug) == {} || |store| - |Holders(store, slug)| >= PAGE_LIMIT {
      var page := HidingPage(store, slug);
    }
    forall page | Shows(store, page) && !ShowsSlug(page, slug)
      ensures Holders(store, slug) == {} || |store| - |Holders(store, slug)| >= PAGE_LIMIT
    {
      var others := store.Keys - Holders(store, slug);
      assert store.Keys == others + Holders(store, slug) && |store.Keys| == |store|;
      DistinctPageIds(page);
      SubsetIsNoLarger(PageIds(page), others);
    }
  }

  // ---------- Creation, retried ----------

  /** accepted: how many teams the remote made for these attempts. */
  datatype Creation = Creation(cr: TeamCr, store: Teams, accepted: nat)

  /** A Create, whose external name may get lost; or anything that others do to the remote. */
  datatype Event = Attempt(listing: Listing, net: TeamNet, saved: bool) | Others(store: Teams)

  function Step(s: Creation, e: Event): Creation
  {
    match e
    case Attempt(listing, net, saved) =>
      var o := AfterCreate(s.cr, s.store, listing, net);
      Creation(if saved then o.cr else s.cr, o.store, s.accepted + if o.store.Keys == s.store.Keys then 0 else 1)
    case Others(store) => s.(store := store)
  }

  /** The remote lists honestly, names a fresh team as asked and derives its slug; others
      neither make nor remove a team whose slug is the name. */
  ghost predicate Enabled(slugify: string -> string, s: Creation, e: Event)
  {
    match e
    case Attempt(listing, net, _) =>
      Shows(s.store, listing.page) && Honours(net) &&
      var t := net.create(ToCreate(s.cr));
      t.id != "" && t.id !in s.store && t.slug == slugify(s.cr.spec.name)
    case Others(store) => KeepsIds(store) && Holders(store, s.cr.spec.name) == Holders(s.store, s.cr.spec.name)
  }

  function Run(s: Creation, es: seq<Event>): Creation
    decreases |es|
  {
    if es == [] then s else Run(Step(s, es[0]), es[1..])
  }

  ghost predicate Legal(slugify: string -> string, s: Creation, es: seq<Event>)
    decreases |es|
  {
    es == [] || (Enabled(slugify, s, es[0]) && Legal(slugify, Step(s, es[0]), es[1..]))
  }

  /** No listing can hide a team whose slug is the name. */
  predicate Complete(s: Creation)
  {
    var held := Holders(s.store, s.cr.spec.name);
    held == {} || |s.store| - |held| < PAGE_LIMIT
  }

  predicate StaysComplete(s: Creation, es: seq<Event>)
    decreases |es|
  {
    es == [] || ((es[0].Attempt? ==> Complete(s)) && StaysComplete(Step(s, es[0]), es[1..]))
  }

  predicate Succeeds(s: Creation, e: Event)
    requires e.Attempt?
  {
    e.saved && AfterCreate(s.cr, s.store, e.listing, e.net).result.Ok?
  }

  /** Some attempt succeeds, and its external name is saved. */
  predicate SomeSaved(s: Creation, es: seq<Event>)
    decreases |es|
  {
    es != [] && ((es[0].Attempt? && Succeeds(s, es[0])) || SomeSaved(Step(s, es[0]), es[1..]))
  }

  function AttemptCount(es: seq<Event>): nat
  {
    if es == [] then 0 else (if es[0].Attempt? then 1 else 0) + AttemptCount(es[1..])
  }

  ghost predicate AtMostOne(ids: set<string>)
  {
    forall k, l | k in ids && l in ids :: k == l
  }

  /** A slug that no team has is not found on an honest page. */
  lemma UnheldSlugIsNotFound(store: Teams, page: seq<Team>, slug: string)
    requires Shows(store, page) && Holders(store, slug) == {}
    ensures FirstWithSlug(page, slug) == Err(NoSuchTeam)
  {
    FirstWithSlugExact(page, slug);
    forall t | t in page ensures t.slug != slug {
      assert t.id in Holders(store, slug) <==> t.slug == slug;
    }
  }

  /** The team that has the slug is found on a complete page. */
  lemma HeldSlugIsFound(store: Teams, page: seq<Team>, slug: string, k: string)
    requires KeepsIds(store) && Shows(store, page) && |store| <= PAGE_LIMIT && Holders(store, slug) == {k}
    ensures FirstWithSlug(page, slug) == Ok(k)
  {
    assert k in Holders(store, slug);
    PageIsComplete(store, page, k);
    FirstWithSlugExact(page, slug);
    assert forall t | t in page :: t.slug == slug ==> t.id in Holders(store, slug);
  }

  /** One attempt when no team has the slug: the remote makes it, or nothing happens. */
  lemma FreshAttempt(slugify: string -> string, s: Creation, e: Event)
    requires e.Attempt? && Enabled(slugify, s, e) && Holders(s.store, s.cr.spec.name) == {}
    requires slugify(s.cr.spec.name) == s.cr.spec.name
    ensures var t := Step(s, e);
            var stored := e.net.create(ToCreate(s.cr));
            t.cr.spec == s.cr.spec &&
            if t.store == s.store then t.accepted == s.accepted && t.cr.externalName == s.cr.externalName
            else t.store == s.store[stored.id := stored] && Holders(t.store, s.cr.spec.name) == {stored.id} &&
                 t.accepted == s.accepted + 1 &&
                 t.cr.externalName == (if Succeeds(s, e) then stored.id else s.cr.externalName)
    ensures Succeeds(s, e) ==> Step(s, e).store != s.store
  {
    UnheldSlugIsNotFound(s.store, e.listing.page, s.cr.spec.name);
    var t := e.net.create(ToCreate(s.cr));
    var grown := s.store[t.id := t];
    assert Holders(grown, s.cr.spec.name) == {t.id};
    assert t.id in grown.Keys && t.id !in s.store.Keys;
  }

  /** One attempt, when the listing is complete and the slug is the name. */
  lemma AttemptMakesOrAdopts(slugify: string -> string, s: Creation, e: Event)
    requires e.Attempt? && KeepsIds(s.store) && Complete(s) && Enabled(slugify, s, e)
    requires slugify(s.cr.spec.name) == s.cr.spec.name && AtMostOne(Holders(s.store, s.cr.spec.name))
    ensures var t := Step(s, e);
            var name := s.cr.spec.name;
            var before, after := Holders(s.store, name), Holders(t.store, name);
            KeepsIds(t.store) && t.cr.spec == s.cr.spec && before <= after && AtMostOne(after) &&
            (before != {} ==> t.store == s.store) &&
            t.accepted == s.accepted + (if before == after then 0 else 1) &&
            (if Succeeds(s, e) then after == {t.cr.externalName} else t.cr.externalName == s.cr.externalName)
  {
    var before := Holders(s.store, s.cr.spec.name);
    if before != {} {
      var k :| k in before;
      assert before == {k};
      HeldSlugIsFound(s.store, e.listing.page, s.cr.spec.name, k);
    } else {
      FreshAttempt(slugify, s, e);
    }
  }

  lemma {:induction false} CountIsBounded(es: seq<Event>)
    ensures AttemptCount(es) <= |es|
  {
    if es != [] { CountIsBounded(es[1..]); }
  }

  /** Over any sequence of Create attempts, with lost responses and lost external names,
      and whatever others do to other teams: if the remote makes the slug of a team its
      name and no listing can hide that team, at most one team ever has that slug, one
      that was there stays, the remote makes at most one, and once an attempt succeeds
      and is saved the external name is the id of that one team. */
  lemma {:induction false} CreatesAtMostOnce(slugify: string -> string, s: Creation, es: seq<Event>)
    requires KeepsIds(s.store) && Legal(slugify, s, es) && StaysComplete(s, es)
    requires slugify(s.cr.spec.name) == s.cr.spec.name && AtMostOne(Holders(s.store, s.cr.spec.name))
    ensures var t := Run(s, es);
            var name := s.cr.spec.name;
            var before, after := Holders(s.store, name), Holders(t.store, name);
            before <= after && AtMostOne(after) && (before != {} ==> before == after) &&
            (before != {} && AttemptCount(es) == |es| ==> t.store == s.store) &&
            t.accepted == s.accepted + (if before == after then 0 else 1) &&
            (if SomeSaved(s, es) then after == {t.cr.externalName} else t.cr.externalName == s.cr.externalName)
    decreases |es|
  {
    if es != [] {
      if es[0].Attempt? { AttemptMakesOrAdopts(slugify, s, es[0]); }
      CountIsBounded(es[1..]);
      CreatesAtMostOnce(slugify, Step(s, es[0]), es[1..]);
    }
  }

  /** If the remote derives another slug from the name and no team has the name as its
      slug, every attempt that reaches the remote makes one more team. */
  lemma {:induction false} OtherSlugDuplicatesForever(slugify: string -> string, s: Creation, es: seq<Event>)
    requires KeepsIds(s.store) && Legal(slugify, s, es)
    requires slugify(s.cr.spec.name) != s.cr.spec.name && Holders(s.store, s.cr.spec.name) == {}
    requires forall e | e in es && e.Attempt? :: e.listing.fault.Delivered? && !e.net.post.Refused?
    ensures Run(s, es).accepted == s.accepted + AttemptCount(es)
    decreases |es|
  {
    if es != [] {
      var e, name := es[0], s.cr.spec.name;
      var t := Step(s, e);
      if e.Attempt? {
        var stored := e.net.create(ToCreate(s.cr));
        UnheldSlugIsNotFound(s.store, e.listing.page, name);
        assert t.store == s.store[stored.id := stored];
        assert Holders(t.store, name) == {};
      }
      OtherSlugDuplicatesForever(slugify, t, es[1..]);
    }
  }

  /** One attempt on a listing that hides the slug makes one more team that has it. */
  lemma HiddenAttempt(slugify: string -> string, s: Creation, net: TeamNet) returns (e: Event)
    requires KeepsIds(s.store) && slugify(s.cr.spec.name) == s.cr.spec.name
    requires |s.store| - |Holders(s.store, s.cr.spec.name)| >= PAGE_LIMIT
    requires var t := net.create(ToCreate(s.cr)); t.id != "" && t.id !in s.store && t.slug == s.cr.spec.name
    requires Honours(net) && !net.post.Refused?
    ensures e.Attempt? && Enabled(slugify, s, e)
    ensures var stored := net.create(ToCreate(s.cr));
            var t := Step(s, e);
            var held := Holders(s.store, s.cr.spec.name);
            t.cr == s.cr && t.store == s.store[stored.id := stored] && KeepsIds(t.store) &&
            Holders(t.store, s.cr.spec.name) == held + {stored.id} && stored.id !in held &&
            |t.store| == |s.store| + 1 && t.accepted == s.accepted + 1
  {
    var name := s.cr.spec.name;
    var page := HidingPage(s.store, name);
    e := Attempt(Listing(page, Delivered), net, false);
    FirstWithSlugExact(page, name);
    var stored := net.create(ToCreate(s.cr));
    var grown := s.store[stored.id := stored];
    assert stored.id in grown.Keys && stored.id !in s.store.Keys;
    assert Holders(grown, name) == Holders(s.store, name) + {stored.id};
  }

  /** Once the teams with other slugs fill a page, there is a run of honest listings in
      which every attempt makes one more team with the same slug, for as many attempts as
      there are. */
  lemma {:induction false} BeyondOnePageDuplicatesForever(slugify: string -> string, s: Creation,
        nets: seq<TeamNet>) returns (es: seq<Event>)
    requires KeepsIds(s.store) && slugify(s.cr.spec.name) == s.cr.spec.name
    requires |s.store| - |Holders(s.store, s.cr.spec.name)| >= PAGE_LIMIT
    requires forall i | 0 <= i < |nets| :: Honours(nets[i]) && !nets[i].post.Refused?
    requires forall i | 0 <= i < |nets| ::
               var t := nets[i].create(ToCreate(s.cr)); t.id != "" && t.id !in s.store && t.slug == s.cr.spec.name
    requires forall i, j | 0 <= i < j < |nets| :: nets[i].create(ToCreate(s.cr)).id != nets[j].create(ToCreate(s.cr)).id
    ensures Legal(slugify, s, es) && |es| == |nets| && forall e | e in es :: e.Attempt?
    ensures var t := Run(s, es);
            t.accepted == s.accepted + |nets| &&
            |Holders(t.store, s.cr.spec.name)| == |Holders(s.store, s.cr.spec.name)| + |nets|
    decreases |nets|
  {
    es := [];
    if nets != [] {
      var e := HiddenAttempt(slugify, s, nets[0]);
      var t := Step(s, e);
      var rest := nets[1..];
      assert forall i | 0 <= i < |rest| :: rest[i] == nets[i + 1];
      var later := BeyondOnePageDuplicatesForever(slugify, t, rest);
      es := [e] + later;
      assert es[0] == e && es[1..] == later;
    }
  }

  // ---------- Deletion ----------

  /** A reconcile of a team marked deleted. */
  function DeletionRound(cr: TeamCr, store: Teams, net: TeamNet): (Teams, Action)
  {
    var action := Decide(true, AfterObserve(cr, store, net).result);
    (if action.CallDelete? then AfterDelete(cr, store, net).store else store, action)
  }

  /** Deletion of a team finishes in at most two failure-free reconciles, and takes exactly
      the record under its external name. */
  lemma DeletionFinishesInTwoRounds(cr: TeamCr, store: Teams, net: TeamNet, next: TeamNet)
    requires net.Faultless() && next.Faultless()
    ensures var (left, first) := DeletionRound(cr, store, net);
            var (after, second) := DeletionRound(cr, left, next);
            second == DropFinalizer && after == (if cr.externalName == "" then store else store - {cr.externalName}) &&
            AfterDelete(cr, left, next).result == Ok(())
  {
    assert cr.externalName !in store ==> store - {cr.externalName} == store;
  }

  function DeletionRounds(cr: TeamCr, store: Teams, nets: seq<TeamNet>): (Teams, bool)
    decreases |nets|
  {
    if nets == [] then (store, false) else
      var (left, action) := DeletionRound(cr, store, nets[0]);
      if action.DropFinalizer? then (left, true) else DeletionRounds(cr, left, nets[1..])
  }

  /** How many of the reconciles meet no fault. */
  function Clean(nets: seq<TeamNet>): nat
  {
    if nets == [] then 0 else (if nets[0].Faultless() then 1 else 0) + Clean(nets[1..])
  }

  /** Whatever faults deletion meets, it has finished after two faultless reconciles, or one
      if the team is gone already, and it finishes only when the team is gone. */
  lemma {:induction false} DeletionIsSafe(cr: TeamCr, store: Teams, nets: seq<TeamNet>)
    ensures var (left, finished) := DeletionRounds(cr, store, nets);
            (Clean(nets) >= 2 || (Clean(nets) >= 1 && (cr.externalName == "" || cr.externalName !in store)) ==> finished) &&
            (left == store || left == store - {cr.externalName}) &&
            (finished ==> left == if cr.externalName == "" then store else store - {cr.externalName})
    decreases |nets|
  {
    if nets != [] {
      var (left, action) := DeletionRound(cr, store, nets[0]);
      assert cr.externalName !in store ==> store - {cr.externalName} == store;
      assert (store - {cr.externalName}) - {cr.externalName} == store - {cr.externalName};
      if !action.DropFinalizer? { DeletionIsSafe(cr, left, nets[1..]); }
    }
  }

  /** Attempts at creation and then deletion. No team of the slug is left exactly when the
      external name was stored, or no team had the slug and the remote made none. */
  lemma LeavesNothingBehindExactly(slugify: string -> string, s: Creation, es: seq<Event>, net: TeamNet, next: TeamNet)
    requires KeepsIds(s.store) && Legal(slugify, s, es) && StaysComplete(s, es) && s.cr.externalName == ""
    requires slugify(s.cr.spec.name) == s.cr.spec.name && AtMostOne(Holders(s.store, s.cr.spec.name))
    requires net.Faultless() && next.Faultless()
    ensures var t := Run(s, es);
            var (left, _) := DeletionRound(t.cr, t.store, net);
            var (after, last) := DeletionRound(t.cr, left, next);
            last == DropFinalizer &&
            (Holders(after, s.cr.spec.name) == {} <==>
             t.cr.externalName != "" || (Holders(s.store, s.cr.spec.name) == {} && t.accepted == s.accepted))
  {
    CreatesAtMostOnce(slugify, s, es);
    var t, name := Run(s, es), s.cr.spec.name;
    DeletionFinishesInTwoRounds(t.cr, t.store, net, next);
    if t.cr.externalName != "" {
      var left := t.store - {t.cr.externalName};
      forall k | k in left ensures left[k].slug != name {
        assert left[k].slug == name ==> k in Holders(t.store, name);
      }
      assert Holders(left, name) == {};
    }
  }
}
