/** Teams as the remote holds them, and the requests about them. */
module TeamClient {
  import opened Wrappers
  import opened Remote

  datatype Team = Team(id: string, name: string, description: string, slug: string, maxMembers: Option<int>)

  datatype TeamCreate = TeamCreate(name: string, description: Option<string>, maxMembers: Option<int>)

  datatype TeamUpdate = TeamUpdate(name: Option<string>, description: Option<string>, maxMembers: Option<int>)

  type TeamNet = Net<TeamCreate, TeamUpdate, Team>

  /** The record a remote may keep after accepting a create request. */
  ghost predicate Created(q: TeamCreate, t: Team)
  {
    t.name == q.name && t.description == q.description.GetOr(t.description) &&
    (q.maxMembers.Some? ==> t.maxMembers == q.maxMembers)
  }

  /** The record a remote may keep after accepting an update of t: exactly the fields in
      the body are overwritten; a slug may follow a new name. */
  ghost predicate Updated(u: TeamUpdate, t: Team, t': Team)
  {
    t'.id == t.id && t'.name == u.name.GetOr(t.name) && (t'.name == t.name ==> t'.slug == t.slug) &&
    t'.description == u.description.GetOr(t.description) &&
    t'.maxMembers == if u.maxMembers.Some? then u.maxMembers else t.maxMembers
  }

  /** The remote does what the requests ask. */
  ghost predicate Honours(net: TeamNet)
  {
    (forall q :: Created(q, net.create(q))) && (forall u, t :: Updated(u, t, net.update(u, t)))
  }

  // ---------- Looking a team up by slug ----------

  /** The most teams that one listing returns. */
  const PAGE_LIMIT: nat := 500

  /** The answer to a listing: the teams on its one page, and whether it arrives. */
  datatype Listing = Listing(page: seq<Team>, fault: Fault)

  datatype LookupError = NoSuchTeam | LookupFailed

  /** The first team on the page that has the slug. */
  function FirstWithSlug(page: seq<Team>, slug: string): Result<string, LookupError>
  {
    if page == [] then Err(NoSuchTeam)
    else if page[0].slug == slug then Ok(page[0].id)
    else FirstWithSlug(page[1..], slug)
  }

  function LookedUp(listing: Listing, slug: string): Result<string, LookupError>
  {
    if listing.fault.Delivered? then FirstWithSlug(listing.page, slug) else Err(LookupFailed)
  }

  /** The lookup succeeds exactly when a team on the page has the slug, and then gives
      the id of the first one. */
  lemma {:induction false} FirstWithSlugExact(page: seq<Team>, slug: string)
    ensures match FirstWithSlug(page, slug)
            case Ok(id) => exists i :: 0 <= i < |page| && page[i].slug == slug && page[i].id == id &&
                             forall j | 0 <= j < i :: page[j].slug != slug
            case Err(e) => e == NoSuchTeam && forall i | 0 <= i < |page| :: page[i].slug != slug
  {
    if page != [] && page[0].slug != slug {
      FirstWithSlugExact(page[1..], slug);
      if FirstWithSlug(page, slug).Ok? {
        var i :| 0 <= i < |page| - 1 && page[1..][i].slug == slug && page[1..][i].id == FirstWithSlug(page, slug).value &&
                 forall j | 0 <= j < i :: page[1..][j].slug != slug;
        assert page[i + 1] == page[1..][i];
        forall j | 0 <= j < i + 1 ensures page[j].slug != slug {
          if j > 0 { assert page[j] == page[1..][j - 1]; }
        }
      } else {
        forall i | 0 <= i < |page| ensures page[i].slug != slug {
          if i > 0 { assert page[i] == page[1..][i - 1]; }
        }
      }
    }
  }

  /** Scans the page until a team has the slug. */
  method ResolveTeamBySlug(listing: Listing, slug: string) returns (r: Result<string, LookupError>)
    ensures r == LookedUp(listing, slug)
  {
    if listing.fault != Delivered { return Err(LookupFailed); }
    for i := 0 to |listing.page|
      invariant FirstWithSlug(listing.page, slug) == FirstWithSlug(listing.page[i..], slug)
    {
      if listing.page[i].slug == slug { return Ok(listing.page[i].id); }
    }
    r := Err(NoSuchTeam);
  }
}
