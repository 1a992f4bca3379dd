/** The team controller. */
module TeamController {
  import opened Wrappers
  import opened Remote
  import opened Managed
  import opened TeamClient

  datatype Params = Params(name: string, description: Option<string>, maxMembers: Option<int>)

  type TeamCr = Cr<Params>

  type Teams = map<string, Team>

  function ToCreate(cr: TeamCr): TeamCreate
  {
    TeamCreate(cr.spec.name, cr.spec.description, cr.spec.maxMembers)
  }

  /** An update never sends the name. */
  function ToUpdate(cr: TeamCr): TeamUpdate
  {
    TeamUpdate(None, cr.spec.description, cr.spec.maxMembers)
  }

  predicate IntPtrEqual(a: Option<int>, b: Option<int>)
  {
    if a.None? || b.None? then a.None? && b.None? else a.value == b.value
  }

  predicate IsUpToDate(cr: TeamCr, t: Team)
  {
    cr.spec.name == t.name && (cr.spec.description.Some? ==> cr.spec.description.value == t.description) &&
    IntPtrEqual(cr.spec.maxMembers, t.maxMembers)
  }

  // ---------- The four operations, as functions of what they find ----------

  /** Where an operation leaves the resource and the remote, and what it reports. */
  datatype Outcome<T> = Outcome(cr: TeamCr, store: Teams, result: Result<T, Failure>)

  function AfterObserve(cr: TeamCr, store: Teams, net: TeamNet): Outcome<Observation>
  {
    if cr.externalName == "" then Outcome(cr, store, Ok(ABSENT)) else
      match GetOutcome(store, Some(cr.externalName), net.get)
      case Err(NotFound) => Outcome(cr, store, Ok(ABSENT))
      case Err(e) => Outcome(cr, store, Err(Api(e)))
      case Ok(t) => Outcome(cr.(statusId := t.id), store, Ok(Observation(true, IsUpToDate(cr, t), None)))
  }

  function AfterCreate(cr: TeamCr, store: Teams, listing: Listing, net: TeamNet): Outcome<()>
  {
    match LookedUp(listing, cr.spec.name)
    case Err(LookupFailed) => Outcome(cr, store, Err(Api(Failed)))
    case Ok(id) =>
      (match GetOutcome(store, Some(id), net.get)
       case Err(e) => Outcome(cr, store, Err(Api(e)))
       case Ok(t) => Outcome(cr.(externalName := id, statusId := t.id), store, Ok(())))
    case Err(NoSuchTeam) =>
      var stored := net.create(ToCreate(cr));
      var posted := PostOutcome(store, stored.id, stored, false, net.post);
      match posted.result
      case Err(e) => Outcome(cr, posted.store, Err(Api(e)))
      case Ok(t) => Outcome(cr.(externalName := t.id, statusId := t.id), posted.store, Ok(()))
  }

  function AfterUpdate(cr: TeamCr, store: Teams, net: TeamNet): Outcome<()>
  {
    var put := PutOutcome(store, cr.externalName, ToUpdate(cr), net.update, false, net.put);
    match put.result
    case Err(e) => Outcome(cr, put.store, Err(Api(e)))
    case Ok(t) => Outcome(cr.(statusId := t.id), put.store, Ok(()))
  }

  function AfterDelete(cr: TeamCr, store: Teams, net: TeamNet): Outcome<()>
  {
    Outcome(cr, StoreAfterDelete(store, cr.externalName, net.delete),
            match DeleteOutcome(net.delete) case Ok(_) => Ok(()) case Err(e) => Err(Api(e)))
  }

  // ---------- The controller ----------

  /** The controller's client of the remote, for one provider configuration. */
  class External {
    const teams: Collection<Team>

    constructor (teams: Collection<Team>)
      ensures this.teams == teams
    {
      this.teams := teams;
    }

    method Observe(cr: Resource<Params>, net: TeamNet) returns (r: Result<Observation, Failure>)
      modifies cr`statusId
      ensures Outcome(cr.Value(), teams.records, r) == AfterObserve(old(cr.Value()), old(teams.records), net)
    {
      var id := cr.externalName;
      if id == "" { return Ok(ABSENT); }
      var got := teams.Get(Some(id), net.get);
      if got == Err(NotFound) { return Ok(ABSENT); }
      if got.Err? { return Err(Api(got.error)); }
      cr.statusId := got.value.id;
      r := Ok(Observation(true, IsUpToDate(cr.Value(), got.value), None));
    }

    method Create(cr: Resource<Params>, listing: Listing, net: TeamNet) returns (r: Result<(), Failure>)
      modifies cr`statusId, cr`externalName, teams
      ensures Outcome(cr.Value(), teams.records, r) == AfterCreate(old(cr.Value()), old(teams.records), listing, net)
    {
      var found := ResolveTeamBySlug(listing, cr.spec.name);
      if found == Err(LookupFailed) { return Err(Api(Failed)); }
      if found.Ok? {
        var got := teams.Get(Some(found.value), net.get);
        if got.Err? { return Err(Api(got.error)); }
        cr.externalName := found.value;
        cr.statusId := got.value.id;
        return Ok(());
      }
      var stored := net.create(ToCreate(cr.Value()));
      var made := teams.Post(stored.id, stored, false, net.post);
      if made.Err? { return Err(Api(made.error)); }
      cr.externalName := made.value.id;
      cr.statusId := made.value.id;
      r := Ok(());
    }

    method Update(cr: Resource<Params>, net: TeamNet) returns (r: Result<(), Failure>)
      modifies cr`statusId, teams
      ensures Outcome(cr.Value(), teams.records, r) == AfterUpdate(old(cr.Value()), old(teams.records), net)
    {
      var put := teams.Put(cr.externalName, ToUpdate(cr.Value()), net.update, false, net.put);
      if put.Err? { return Err(Api(put.error)); }
      cr.statusId := put.value.id;
      r := Ok(());
    }

    method Delete(cr: Resource<Params>, net: TeamNet) returns (r: Result<(), Failure>)
      modifies teams
      ensures Outcome(cr.Value(), teams.records, r) == AfterDelete(old(cr.Value()), old(teams.records), net)
    {
      var gone := teams.Delete(cr.externalName, net.delete);
      if gone.Err? { return Err(Api(gone.error)); }
      r := Ok(());
    }
  }
}
