# Verified model of provider-contextforge

This project models the four controllers of provider-contextforge (teams,
gateways, A2A agents and virtual servers), the part of the ContextForge API they
use, and the reconciler that drives them. It proves what the controllers achieve
over whole runs on a network that drops requests and loses responses.

## What is modelled

**The controllers.** Each controller is a class `External` with the methods
`Observe`, `Create`, `Update` and `Delete`. They change a managed resource
(`Managed.Resource`: spec, external name, status id, deletion mark) and the remote
records (`Remote.Collection`) in place. Each method is proved against a function
`AfterObserve`, `AfterCreate`, ... that gives the new resource, the new records and
the result; the theorems are about these functions.

**The remote.** A map from id to record for each kind. `Remote.Net` collects what
the network and the remote choose during one operation: each call is answered, fails
before it takes effect, or takes effect and loses its answer. Every theorem is for
all such choices. What an accepted request may leave behind is given by a relation,
`Created` or `Updated`, for each kind: exactly the fields that are present in the body
are overwritten, and lists may be stored in any order. Which Go values leave a field
out (`omitempty`), write `null`, or write an empty list is in `Wire`.

**The reconciler.** `Managed.Decide` says which operation follows an observation. The
reconciler is a library that is not part of this model; this is the contract that the
comments at `internal/controller/virtualserver/virtualserver.go:256-264` state.

**The main theorems.**

- *Virtual servers never leak* (`ServerRuns.NeverLeaks`). In every run of single
  operations, interleaved with crashes, lost responses, lost external names, edits,
  deletion and changes by others, the provider creates a record at the deterministic
  id only, none is left once the finalizer is dropped, and all connection details
  handed out are the same. `ServerFleet.FleetNeverLeaks` carries this to any number of
  virtual servers on one remote whose hashed names do not collide.
- *Virtual servers converge* (`ServerConvergence.Converges`). After any such run, once
  nothing fails, at most two more requests are sent, three operations are enough, and
  then no request is sent again, even if the remote keeps rearranging lists.
  `ServerStray.SettlesExactly` says from which external names a server settles at all.
- *Exact convergence of partial updates.* For gateways, agents and teams an update
  converges if and only if a stated condition on the spec and the prior record holds,
  and no number of further updates helps where it fails
  (`UpdateConvergesExactly`, `RepeatedUpdatesConvergeExactly`).
- *The up-to-date check is exact.* It passes if and only if an update would converge
  and would change nothing but a listed few fields (`UpToDateExactlyWhenUpdateIsNeedless`,
  one for each kind).
- *Gateways and agents, once for both.* `NamedController` describes a controller of
  records that the remote finds by id, name or slug by a few laws, and proves what every
  such controller achieves; `GatewayRuns.IsLawful` and `AgentRuns.IsLawful` show that the
  two controllers obey the laws.
- *Reconciles settle exactly when they can* (`NamedController.SettlesExactly`). From any
  external name, failure-free reconciles end at rest if and only if: the record that a
  lost resource adopts or makes can converge; the record of a bound one can converge;
  the record that a stuck one finds is up to date.
- *Creation at most once* over retries, under any one name (`NamedRecords.CreatesAtMostOnce`,
  `TeamProperties.CreatesAtMostOnce`). A gateway or an agent whose name is edited between
  retries gets at most one record for each name; the name of a team cannot be edited.
- *Gateways leave each other alone*, and agents do, if and only if no two of them resolve
  to the same name (`NamedFleet.UndisturbedExactly`).
- *Deletion finishes*, among any faults, exactly when (`ServerDeletion.DeletionFinishesExactly`,
  `NamedRecords.DeletionFinishesUnlessShadowed`, `TeamProperties.DeletionIsSafe`),
  and what it leaves behind, exactly (`ServerDeletion.DeletionIsCleanExactly`,
  `NamedController.LeavesNothingBehindExactly`).
- *Every child write carries its Team's id* in every interleaving of the four
  controllers (`TeamGate.EveryWriteCarriesItsTeam`), and a Team that is made or observed
  lets its children through (`TeamGate.CreatedTeamOpensTheGate`, `OpenGateLetsWritesThrough`).
- *What one operation reports*, for every network: when it succeeds, what it then stores
  and, if it fails, that nothing is stored and why (`ObserveReportsExactly`,
  `CreateReportsExactly`, `UpdateReportsExactly`). A failed lookup never leads to a
  dropped finalizer or a Create (`NamedController.FailedLookupsDecideNothing`).
- *The JSON reader accepts exactly the JSON texts* within its depth limit, and yields what
  they mean (`JsonReading.DocumentReads`, `JsonReading.DocumentIsSyntax`).
- *The helpers below them*: sorting decides equality up to order; JSON printing is
  injective and reading undoes it at every depth; server ids are the version 5 UUIDs and
  collide only with the hash; credentials are resolved exactly.

**Where the code falls short of what it is meant to do.** Each is a theorem with the
exact condition or a family of runs.

- The comment at `internal/controller/a2aagent/a2aagent.go:97-99` says that a nil map
  and an empty one marshal identically. The code writes `null` for one and `{}` for the
  other (`AgentProperties.EmptyMapIsNotNil`), so an agent without capabilities never
  settles on a remote that answers `{}` (`EmptyCapabilitiesNeverConverge`).
- Gateway, agent and team updates cannot empty a list, a map or a member limit, and a
  team update never sends the name.
- No check looks at a gateway's URL, an agent's endpoint, credentials, or a server's
  icon, so drift there is not repaired until something else drifts.
- A gateway or an agent can be left behind. After any sequence of creations, among edits
  of the spec, and then deletion, what is left of the records that the remote made is all
  of them but the one whose id was stored (`NamedController.LeavesNothingBehindExactly`).
  A record leaks when the response to its creation is lost, when the response arrives and
  the external name is not saved (`CreateThenDeletionLeaksExactly`), and when the name is
  edited and another record is made and stored instead (`NamedController.EditedNameLeaks`).
  A team leaks in the first two ways (`TeamProperties.LeavesNothingBehindExactly`).
- Two gateways, or two agents, of one resolved name in different namespaces share one
  record, and the deletion of one takes it from the other (`NamedFleet.SharedNameDisturbs`).
- A gateway or an agent whose name another record has asks for an update in every
  reconcile, and gets a conflict each time (`NamedReconciles.StuckPass`).
- A virtual server whose external name is the id of another server never finishes
  deleting: `Observe` looks under the external name, `Delete` under the deterministic id.
  Unless that other server happens to be up to date, the resource never settles either: it
  sends an update in every reconcile and makes no server of its own (`ServerStray.SettlesExactly`).
- A virtual server whose external name was set to an id that no server has is let go
  while its own record stays (`DeletionIsCleanExactly`, `StrayNameLeaks`).
- If the remote derives a slug other than the name, every team creation that reaches the
  remote makes one more team (`OtherSlugDuplicatesForever`).
- The lookup of a team reads one listing of at most 500 teams. An honest listing can miss
  a slug if and only if no team has it or at least 500 teams have another one
  (`CanHideExactly`); beyond that, creation can duplicate a team without end
  (`BeyondOnePageDuplicatesForever`).

**Assumptions.** The effect of a call happens during the call or never. The remote
keeps the id a server is created with, answers a server create with 409 exactly when
the id is taken, and a gateway or agent create or update with 409 exactly when another
record has the name; nobody else creates a server under the deterministic id. A GET
resolves an id before a name and a name before a slug. New gateways, agents and teams
get fresh ids. An absent or null list in a create request is not given. SHA-1, the
reading of a number into a float64, and the derivation of a slug are parameters of the
theorems. The order of strings is by code point, and the library sort is replaced by
an insertion sort, which is proved to sort.

## Model

| member | source | states |
|---|---|---|
| SliceUtil.EqualUnordered | internal/controller/sliceutil/sliceutil.go:12-21 | the result is true if and only if the slices are equal as multisets; copies are sorted in place and both inputs stay as they were |
| SliceUtil.SortInPlace | internal/controller/sliceutil/sliceutil.go:18-19 | the array ends up as the sorted arrangement of its old contents |
| SliceUtil.SortSorts | internal/controller/sliceutil/sliceutil.go:17-19 | sorting rearranges and puts in ascending order |
| SliceUtil.AscendingIsUnique | internal/controller/sliceutil/sliceutil.go:17-20 | a multiset of strings has one ascending arrangement only |
| SliceUtil.SortDecidesPermutation | internal/controller/sliceutil/sliceutil.go:10-21 | two slices sort alike if and only if they are permutations of each other |
| JsonReading.LiteralReads | internal/controller/a2aagent/a2aagent.go:86-95 | a string literal reads as the characters it means, however each is written: itself, a short escape, a UTF-16 unit or a surrogate pair; a lone surrogate means U+FFFD |
| JsonReading.ValueReads | internal/controller/a2aagent/a2aagent.go:86-95 | every well-formed text, wherever it has space and whichever member repeats a name, reads as what it means and leaves the rest if it fits the depth limit, and does not read otherwise |
| JsonReading.DocumentReads | internal/controller/a2aagent/a2aagent.go:86-95 | a whole document, with any space around it, reads as what it means, or as nothing, the latter if and only if it is nested more than 10000 levels deep |
| JsonReading.DocumentIsSyntax | internal/controller/a2aagent/a2aagent.go:91 | nothing else is read: every accepted text is that of a well-formed document within the depth limit |
| JsonRoundTrip.EscapesExactly | internal/controller/a2aagent/a2aagent.go:73-84 | a character is written as itself if and only if it is no quote, backslash, control character or character with a meaning in HTML or JavaScript; seven have a short escape, and the rest are written as their number |
| JsonRoundTrip.PrintIsHarmless | internal/controller/a2aagent/a2aagent.go:73-84 | no character of a printed value, at any depth, has a meaning in HTML or JavaScript |
| JsonRoundTrip.PrintReads | internal/controller/a2aagent/a2aagent.go:73-95 | a printed value, followed by anything that cannot prolong it, reads back as that value and leaves the rest if it fits the depth limit, and does not read at all otherwise, wherever the excess depth is |
| JsonRoundTrip.DocumentRoundTrip | internal/controller/a2aagent/a2aagent.go:73-95 | a printed document, with any space around it, reads back as its value, or as nothing, the latter if and only if it is nested more than 10000 levels deep |
| JsonRoundTrip.PrintIsInjective | internal/controller/a2aagent/a2aagent.go:97-107 | two values print alike if and only if they are equal at every depth |
| JsonRoundTrip.PrintIgnoresMapOrder | internal/controller/a2aagent/a2aagent.go:97-99 | printing an object from its keys collected in any order and then sorted gives the same text |
| JsonRoundTrip.ReadDocumentDecodes | internal/controller/a2aagent/a2aagent.go:91 | whatever is accepted on reading is a decoded value within the depth limit |
| AgentProperties.RawRoundTrip | internal/controller/a2aagent/a2aagent.go:71-95 | storing a map and loading it gives it back, an empty map as nil, if and only if a map that is stored is within the depth limit |
| AgentProperties.LoadsObjectsExactly | internal/controller/a2aagent/a2aagent.go:86-95 | a stored text loads as a map if and only if it is that of an object within the depth limit, whatever its space and spelling, and the map is what the text means |
| AgentProperties.RawReloads | internal/controller/a2aagent/a2aagent.go:71-95 | whatever text is loaded, storing the result and loading it again changes at most an empty map into nil |
| AgentProperties.MapsInAnswersRoundTrip | internal/controller/a2aagent/a2aagent.go:109-125 | every map at any depth of an answer that was read is stored and loaded without loss, an empty one as nil |
| AgentProperties.JsonMapsEqualExactly | internal/controller/a2aagent/a2aagent.go:97-107 | comparing by marshalled text holds if and only if both maps are nil or both are non-nil and equal at every depth |
| AgentProperties.EmptyMapIsNotNil | internal/controller/a2aagent/a2aagent.go:97-107 | an empty map does not equal a nil one, against the comment |
| Wire.TagLabels | internal/clients/contextforge/server.go:71-77 | the labels of the tags, in order, in a fresh array |
| Remote.Collection.Get | internal/clients/contextforge/gateway.go:73-79 | the record resolved to, not found if there is none, and a failure if the call fails |
| Remote.Collection.Post | internal/clients/contextforge/server.go:127-139 | the record is stored unless the call fails before its effect or clashes; the answer may be lost after the effect |
| Remote.Collection.Put | internal/clients/contextforge/server.go:141-147 | an existing record is updated, an absent one is not found; the answer may be lost after the effect |
| Remote.Collection.Delete | internal/clients/contextforge/server.go:149-154 | the record is gone unless the call fails before its effect, and a 404 counts as success |
| Remote.LostResponsesHideEffects | internal/clients/contextforge/server.go:127-154 | a refused call has no effect; a call whose answer is lost has the effect of an answered one and reports a failure that does not tell |
| TeamResolve.OpensExactlyWhenReady | internal/controller/teamresolve/teamresolve.go:20-34 | the gate yields an id if and only if the Team of that name in the namespace has that non-empty id in its status; an unreachable cluster, a missing Team and one without an id fail differently |
| AuthResolve.ResolveHeaders | internal/controller/authresolve/authresolve.go:96-109 | the loop yields the pairs of all headers or the failure of the first that has none |
| AuthResolve.ResolveOAuth | internal/controller/authresolve/authresolve.go:123-159 | filling the map key by key yields the specified settings, or the failure of the client secret |
| AuthResolve.Resolve | internal/controller/authresolve/authresolve.go:24-44 | the resolver of the named type decides; no block and an unknown type give no credentials |
| AuthResolve.SucceedsExactly | internal/controller/authresolve/authresolve.go:24-159 | resolution succeeds if and only if every Secret key that the block reads is present; without a block, or with one of an unknown type, it always succeeds |
| AuthResolve.FailureTellsWhy | internal/controller/authresolve/authresolve.go:46-94 | a failure names an unreachable cluster, a Secret that the block refers to and that is missing, or a key that such a Secret lacks |
| Wire.NoBlockKeepsCredentials | internal/controller/authresolve/authresolve.go:25-43 | no block, or one of an unknown type, resolves on every cluster, an unreachable one too, and a request then leaves the remote's credentials as they are |
| AuthResolve.HeaderPairsExact | internal/controller/authresolve/authresolve.go:96-109 | headers resolve if and only if every key is present, and entry i is the pair for header i |
| AuthResolve.SetsExactlyItsFields | internal/controller/authresolve/authresolve.go:24-159 | credentials carry the type and that type's Secret values and settings in their places, every OAuth setting under its own name, and nothing of another type |
| AuthResolve.OAuthSettingsExact | internal/controller/authresolve/authresolve.go:123-159 | the settings hold a key if and only if its source is set, with the value of its source |
| AuthResolve.KeyNamesDiffer | internal/controller/authresolve/authresolve.go:124-153 | distinct settings go under distinct names, so none overwrites another |
| AuthResolve.OAuthSettingsInjective | internal/controller/authresolve/authresolve.go:123-159 | equal settings come from blocks that agree in every non-secret field and in the secret's value |
| ServerIds.DashlessUuid | internal/controller/virtualserver/virtualserver.go:170-173 | removing the dashes of a UUID's text leaves exactly its 32 digits |
| ServerIds.DashesSeparateTheGroups | internal/controller/virtualserver/virtualserver.go:171-172 | the text of a UUID has 36 characters, with dashes at places 8, 13, 18 and 23 only |
| ServerIds.IdIsTheUuid | internal/controller/virtualserver/virtualserver.go:168-173 | the id has 32 digits: digits 2i and 2i + 1 are the high and the low half of byte i of the digest of namespace, slash and name, with the version and variant bits in bytes 6 and 8 |
| ServerIds.HashedNameInjective | internal/controller/virtualserver/virtualserver.go:171 | joining by a slash loses nothing, as a namespace has none |
| ServerIds.IdsCollideOnlyWithTheHash | internal/controller/virtualserver/virtualserver.go:168-173 | two resources share an id if and only if they are the same or the stamped digests of their different names coincide |
| ServerController.External.Observe | internal/controller/virtualserver/virtualserver.go:225-270 | looks under the external name or else the deterministic id; not found is absent; a deleted resource needs no Team; reports drift and details |
| ServerController.External.Create | internal/controller/virtualserver/virtualserver.go:321-348 | creates under the deterministic id, adopts what is there on a conflict, and only then sets the external name |
| ServerController.External.Update | internal/controller/virtualserver/virtualserver.go:350-371 | updates the record at the deterministic id once the Team is ready |
| ServerController.External.Delete | internal/controller/virtualserver/virtualserver.go:373-383 | deletes the record at the deterministic id, and no other |
| ServerRuns.UpdateMakesUpToDate | internal/controller/virtualserver/virtualserver.go:288-305 | an accepted update leaves any prior record up to date, with the name, the description and the icon that the spec gives, whatever order its lists are stored in |
| ServerRuns.CreateMakesUpToDate | internal/controller/virtualserver/virtualserver.go:272-286 | an accepted create leaves a record of that id up to date, with the name, the description and the icon that the spec gives |
| ServerRuns.UpToDateExactlyWhenUpdateIsNeedless | internal/controller/virtualserver/virtualserver.go:189-216 | the check passes if and only if an update would change at most the icon and the order of lists |
| ServerRuns.OrderDoesNotMatter | internal/controller/virtualserver/virtualserver.go:210-216 | rearranging a record's lists does not change the check |
| ServerRuns.ListsOnTheWire | internal/clients/contextforge/server.go:20-45 | an update writes every list out, even an empty one; a create sends null tags if and only if the spec has none |
| ServerRuns.DetailsIdentifyTheServer | internal/controller/virtualserver/virtualserver.go:218-223 | the details are the SSE and the message URL of the server of that id, and they are equal if and only if the ids are |
| ServerRuns.ObservedDetailsAgreeExactly | internal/controller/virtualserver/virtualserver.go:225-270 | Observe hands out the details of the deterministic id if and only if the external name is unset or is that id |
| ServerRuns.ObserveReportsExactly | internal/controller/virtualserver/virtualserver.go:225-270 | whatever fails: Observe fails if and only if the lookup fails or a live server that is found has no ready Team; otherwise it says whether a record is there and up to date, and takes the status from it |
| ServerRuns.CreateReportsExactly | internal/controller/virtualserver/virtualserver.go:321-348 | Create succeeds if and only if the Team is ready, the POST is answered, and so is the GET after a conflict; then external name and status are those of a record that is there, and otherwise the resource is as it was |
| ServerRuns.UpdateReportsExactly | internal/controller/virtualserver/virtualserver.go:350-371 | Update succeeds if and only if the Team is ready, the PUT is answered and the record is there; a failure leaves the resource as it was and tells which of them was missing |
| ServerRuns.DeleteReportsExactly | internal/controller/virtualserver/virtualserver.go:373-383 | Delete succeeds if and only if the DELETE is answered, whether or not the record was there |
| ServerRuns.TouchesOnlyItsOwnRecord | internal/controller/virtualserver/virtualserver.go:321-383 | from any state, no operation changes a record other than the one at the deterministic id |
| ServerRuns.StepKeepsInvariant | internal/controller/virtualserver/virtualserver.go:225-383 | every enabled event keeps the safety invariant: own name, own records, one set of details, no record behind a dropped finalizer |
| ServerRuns.RunKeepsInvariant | internal/controller/virtualserver/virtualserver.go:225-383 | every run keeps it |
| ServerRuns.NeverLeaks | internal/controller/virtualserver/virtualserver.go:225-383 | in every run from a resource whose external name is unset or its own id, records are made at the deterministic id only, none is left there once the finalizer is dropped, and all details handed out are the same |
| ServerRuns.StrayNameLeaks | internal/controller/virtualserver/virtualserver.go:225-248 | a deleted resource whose external name is neither unset nor its own id, and names no server, is let go in two operations while its record stays |
| ServerFleet.OthersStepIsACalmChange | internal/controller/virtualserver/virtualserver.go:321-383 | what a controller does for one virtual server neither makes, removes nor changes the record of another id |
| ServerFleet.FleetNeverLeaks | internal/controller/virtualserver/virtualserver.go:168-383 | in every interleaving for any number of virtual servers without hash collisions, none leaks a record, makes one at another's id, or is handed another's details |
| ServerConvergence.ObserveDecides | internal/controller/virtualserver/virtualserver.go:225-270 | a faultless Observe leaves a settled resource alone and otherwise decides on an operation that fits |
| ServerConvergence.ActSettles | internal/controller/virtualserver/virtualserver.go:321-371 | a faultless Create or Update that fits the present state settles the resource, with one request |
| ServerConvergence.CalmStepProgresses | internal/controller/virtualserver/virtualserver.go:225-371 | each calm step lowers the distance to the settled state and pays for every request |
| ServerConvergence.Converges | internal/controller/virtualserver/virtualserver.go:189-371 | after any run, a calm run sends at most two requests, three operations settle the resource, and then no request is sent |
| ServerStray.ElsewhereRun | internal/controller/virtualserver/virtualserver.go:225-371 | while the external name is the id of another server, that server never changes, no own server is made, and every second operation is a request unless the other one is up to date |
| ServerStray.NowhereRun | internal/controller/virtualserver/virtualserver.go:225-348 | an external name of no server is replaced by the own id, and the resource settles in four operations |
| ServerStray.SettlesExactly | internal/controller/virtualserver/virtualserver.go:225-371 | after four calm operations or more, from any external name, the resource is at rest if and only if the external name was unset or its own, named no server, or named one that is up to date; otherwise it sends a request in every reconcile for ever |
| ServerDeletion.DeletionFinishesExactly | internal/controller/virtualserver/virtualserver.go:225-383 | whatever faults deletion meets, it has finished after two faultless reconciles if and only if the external name is unset, is the deterministic id or names no server, and otherwise never; it finishes only when nothing is found; the own record goes unless the external name is a stray one that names no server, and every other record stays |
| ServerDeletion.DeletionIsCleanExactly | internal/controller/virtualserver/virtualserver.go:225-383 | after reconciles of which two are faultless, the resource is let go with no record of its own left if and only if Observe looks under the deterministic id, or there is a server under neither id |
| ServerDeletion.DeleteIsIdempotent | internal/clients/contextforge/server.go:149-154 | a repeated delete succeeds and changes nothing |
| NamedRecords.AdoptsTheNamedRecord | internal/controller/gateway/gateway.go:327-330 | adoption after a conflict finds the record of that name if and only if no record of another name has it as its id |
| NamedRecords.AttemptMakesOrAdopts | internal/controller/gateway/gateway.go:327-333 | one attempt makes the record if there is none, changes nothing if there is one, and reports only the one there is |
| NamedRecords.DeletionFinishesUnlessShadowed | internal/controller/gateway/gateway.go:282-375 | whatever faults deletion meets, it has finished after two faultless reconciles if and only if no other record has the external name as its name or slug, never finishes otherwise, and removes exactly the one record |
| NamedRecords.CreatesAtMostOnce | internal/controller/a2aagent/a2aagent.go:378-403 | over any attempts under any names with lost responses and external names, at most one record ever has a name and at most one is made under it; if the name never changes, the external name is the id of that record once an attempt succeeds and is saved, and is what it was until then |
| NamedRecords.LeavesNothingBehindExactly | internal/controller/gateway/gateway.go:282-375 | after any attempts under any names and then deletion among faults, the finalizer is dropped unless another record answers to the external name, and then all records made are left but the one whose id was stored |
| NamedRecords.LeavesNoneOfTheNameExactly | internal/controller/gateway/gateway.go:282-375 | if the name never changes, no record of the name is left if and only if the external name was stored, or there was none before and none was made |
| NamedRecords.EditedNameMakesTwo | internal/controller/gateway/gateway.go:327-335 | a lost response and an edited name make two records for one resource, of which the second is stored |
| NamedReconciles.LostPass | internal/controller/gateway/gateway.go:282-339 | a failure-free reconcile of a resource to whose external name no record answers adopts the one record of its name unchanged, or makes one |
| NamedReconciles.BoundPass | internal/controller/gateway/gateway.go:282-362 | a failure-free reconcile of a resource that has its record rests if it is up to date, and otherwise updates that record alone |
| NamedReconciles.StuckPass | internal/controller/gateway/gateway.go:282-362 | a failure-free reconcile changes nothing if another record has the name, or another one answers to the external name; it rests only if the record found is up to date |
| NamedReconciles.SettlesExactly | internal/controller/a2aagent/a2aagent.go:339-426 | three reconciles of the records or more end at rest if and only if the record adopted, made or had can converge, or the one found by a stuck resource is up to date |
| NamedController.FailedLookupsDecideNothing | internal/controller/gateway/gateway.go:282-312 | for every network: the finalizer is dropped, or a Create follows, only if the external name is unset or the lookup was answered and found nothing; a failed lookup of a set external name leads to no operation |
| NamedController.CreateReportsExactly | internal/controller/gateway/gateway.go:314-339 | Create succeeds if and only if Team and credentials resolve, the POST is answered, and after a conflict the GET finds a record; then external name and status are the id of a record that is there, and otherwise the resource is as it was |
| NamedController.UpdateReportsExactly | internal/controller/a2aagent/a2aagent.go:405-426 | Update succeeds if and only if Team and credentials resolve, the PUT is answered, the record is there and no other has the name; only that record changes, to what the remote makes of the request |
| NamedController.CreationsAreAttempts | internal/controller/gateway/gateway.go:314-339 | any sequence of Creates, saved or not, among edits of the spec and changes by others, runs as attempts, each under the name resolved at the time |
| NamedController.DeletionsAreRounds | internal/controller/gateway/gateway.go:282-375 | reconciles of a deleted resource run as the rounds of the deletion theorem, whatever faults they meet |
| NamedController.LeavesNothingBehindExactly | internal/controller/gateway/gateway.go:282-375 | after any sequence of Creates and edits and then deletion among faults, it finishes unless another record answers to the external name; then all records that the remote made are left but the one whose id was stored, and nothing is left if and only if all made are that one |
| NamedController.LeavesNoneOfTheNameExactly | internal/controller/a2aagent/a2aagent.go:339-437 | if the spec is never edited, no record of the name is left if and only if the external name was stored, or there was none before and none was made |
| NamedController.EditedNameLeaks | internal/controller/gateway/gateway.go:60-65 | a Create whose response is lost, an edit of the name, a second Create that is saved, and deletion: the finalizer is dropped and the first record stays |
| NamedController.PassIsARecordPass | internal/controller/a2aagent/a2aagent.go:339-426 | a failure-free reconcile of a lawful controller is a reconcile of the records |
| NamedController.SettlesExactly | internal/controller/a2aagent/a2aagent.go:339-426 | three failure-free reconciles or more, from any external name, end at rest if and only if the record adopted, made or had can converge, or another record answers to the external name and is up to date |
| NamedFleet.DistinctNamesAreUndisturbed | internal/controller/gateway/gateway.go:314-375 | resources of pairwise distinct resolved names never change each other's external name or record |
| NamedFleet.SharedNameDisturbs | internal/controller/gateway/gateway.go:327-375 | two new resources of one resolved name adopt one record, and the deletion of one takes it from the other |
| NamedFleet.UndisturbedExactly | internal/controller/a2aagent/a2aagent.go:378-437 | new resources leave each other alone in every run if and only if their resolved names are pairwise distinct |
| GatewayController.External.Observe | internal/controller/gateway/gateway.go:282-312 | an unset external name or a missing record is absent; a deleted resource needs no Team; otherwise reports drift |
| GatewayController.External.Create | internal/controller/gateway/gateway.go:314-339 | Team, then credentials, then create or adopt by name; external name and status come from the record |
| GatewayController.External.Update | internal/controller/gateway/gateway.go:341-362 | Team, then credentials, then a partial update of the record under the external name |
| GatewayController.External.Delete | internal/controller/gateway/gateway.go:364-375 | deletes the record under the external name |
| GatewayProperties.UpdateConvergesExactly | internal/controller/gateway/gateway.go:129-176 | after an accepted update the gateway is up to date if and only if the spec has a tag or the record had none, and that does not change by updating |
| GatewayProperties.RepeatedUpdatesConvergeExactly | internal/clients/contextforge/gateway.go:53-71 | any number of accepted updates is up to date if and only if the first one is |
| GatewayProperties.ObserveAfterUpdate | internal/controller/gateway/gateway.go:282-362 | after a successful Update, Observe reports up to date if and only if the update could converge |
| GatewayProperties.UpToDateExactlyWhenUpdateIsNeedless | internal/controller/gateway/gateway.go:129-176 | the check passes if and only if an update could converge and would change at most the URL, the credentials and the order of tags |
| GatewayProperties.CreatedIsUpToDate | internal/controller/gateway/gateway.go:108-127 | a gateway made as asked is up to date and has the URL, the credentials and the name asked for, which is the one in the spec if there is one |
| GatewayProperties.ObserveAfterCreate | internal/controller/gateway/gateway.go:282-339 | after a successful Create, Observe finds the record; one that was made is up to date, one that was adopted is unchanged |
| GatewayProperties.CreateIsAnAttempt | internal/controller/gateway/gateway.go:314-339 | a Create whose Team and credentials resolve is one attempt of the retry theorem; any other changes nothing and fails |
| GatewayProperties.DeletionIsARound | internal/controller/gateway/gateway.go:282-375 | a reconcile of a deleted gateway is one round of the deletion theorem, whatever the cluster holds and the network does |
| GatewayProperties.CreateThenDeletionLeaksExactly | internal/controller/gateway/gateway.go:282-339 | when a Create makes the record and the resource is then deleted, the finalizer is dropped with the record still there if and only if the response or the external name was lost |
| GatewayRuns.IsLawful | internal/controller/gateway/gateway.go:60-375 | for every network, the gateway controller is a controller of named records: it sends nothing without Team and credentials, creates or adopts by name, observes, updates and deletes by external name, reports every failed call, and its updates obey convergence |
| GatewayRuns.LostSettlesExactly | internal/controller/gateway/gateway.go:282-362 | a gateway resource to whose external name nothing answers settles if and only if the gateway of its name, if there is one, can converge |
| AgentController.External.Observe | internal/controller/a2aagent/a2aagent.go:339-376 | an unset external name or a missing record is absent; a deleted resource needs no Team; otherwise reports drift |
| AgentController.External.Create | internal/controller/a2aagent/a2aagent.go:378-403 | Team, then credentials, then create or adopt by name; external name and status come from the record |
| AgentController.External.Update | internal/controller/a2aagent/a2aagent.go:405-426 | Team, then credentials, then a partial update of the record under the external name |
| AgentController.External.Delete | internal/controller/a2aagent/a2aagent.go:428-437 | deletes the record under the external name |
| AgentProperties.UpdateConvergesExactly | internal/controller/a2aagent/a2aagent.go:152-213 | after an accepted update the agent is up to date if and only if each list and map was sent or already compared equal, and that does not change by updating |
| AgentProperties.RepeatedUpdatesConvergeExactly | internal/clients/contextforge/a2aagent.go:53-73 | any number of accepted updates is up to date if and only if the first one is |
| AgentProperties.ObserveAfterUpdate | internal/controller/a2aagent/a2aagent.go:339-426 | after a successful Update, Observe reports up to date if and only if the update could converge |
| AgentProperties.EmptyCapabilitiesNeverConverge | internal/controller/a2aagent/a2aagent.go:97-107 | an agent whose spec has no capabilities is never up to date on a remote that answers an empty map |
| AgentProperties.UpToDateExactlyWhenUpdateIsNeedless | internal/controller/a2aagent/a2aagent.go:152-213 | the check passes if and only if an update could converge and would change at most the endpoint, the credentials and the order of lists |
| AgentProperties.CreatedIsUpToDateExactly | internal/controller/a2aagent/a2aagent.go:127-150 | an agent made as asked has the endpoint and credentials asked for, and is up to date if and only if an update could converge |
| AgentProperties.ObserveAfterCreate | internal/controller/a2aagent/a2aagent.go:339-403 | after a successful Create, Observe finds the record and reports its drift; one that was adopted is unchanged |
| AgentProperties.CreateIsAnAttempt | internal/controller/a2aagent/a2aagent.go:378-403 | a Create whose Team and credentials resolve is one attempt of the retry theorem; any other changes nothing and fails |
| AgentProperties.DeletionIsARound | internal/controller/a2aagent/a2aagent.go:339-437 | a reconcile of a deleted agent is one round of the deletion theorem, whatever the cluster holds and the network does |
| AgentProperties.CreateThenDeletionLeaksExactly | internal/controller/a2aagent/a2aagent.go:339-403 | when a Create makes the record and the resource is then deleted, the finalizer is dropped with the record still there if and only if the response or the external name was lost |
| AgentRuns.IsLawful | internal/controller/a2aagent/a2aagent.go:64-437 | for every network, the agent controller is a controller of named records: it sends nothing without Team and credentials, creates or adopts by name, observes, updates and deletes by external name, reports every failed call, and its updates obey convergence |
| TeamClient.ResolveTeamBySlug | internal/clients/contextforge/team.go:51-68 | the scan returns what the specified lookup gives, and a failed listing is told from no match |
| TeamClient.FirstWithSlugExact | internal/clients/contextforge/team.go:61-67 | the lookup gives the id of the first match, and not found if and only if there is none |
| TeamController.External.Observe | internal/controller/team/team.go:201-229 | an unset external name or a missing record is absent; otherwise takes the status id over and reports drift |
| TeamController.External.Create | internal/controller/team/team.go:231-259 | adopts the team whose slug is the name, and creates one only if the listing has none |
| TeamController.External.Update | internal/controller/team/team.go:261-276 | sends description and member limit, never the name, to the record under the external name |
| TeamController.External.Delete | internal/controller/team/team.go:278-287 | deletes the record under the external name |
| TeamProperties.UpdateConvergesExactly | internal/controller/team/team.go:78-95 | after an accepted update the team is up to date if and only if the name already was and the member limit is set or absent on both sides, and that does not change by updating |
| TeamProperties.RepeatedUpdatesConvergeExactly | internal/clients/contextforge/team.go:37-41 | any number of accepted updates is up to date if and only if the first one is |
| TeamProperties.UpToDateExactlyWhenUpdateIsNeedless | internal/controller/team/team.go:261-276 | the check passes if and only if an update could converge and would change nothing |
| TeamProperties.ObserveAfterUpdate | internal/controller/team/team.go:201-276 | after a successful Update, Observe reports up to date if and only if the update could converge |
| TeamProperties.AdoptedTeamConvergesExactly | internal/controller/team/team.go:236-276 | adoption changes no record, and an adopted and updated team is up to date if and only if the team found could converge |
| TeamProperties.CreatedTeamIsUpToDateExactly | internal/controller/team/team.go:68-76 | a team made as asked is up to date unless the remote chose a member limit that the spec leaves unset |
| TeamProperties.ObserveReportsExactly | internal/controller/team/team.go:201-229 | Observe fails if and only if the lookup of a set external name fails; otherwise it says whether the team is there and up to date, and takes the status id over from it |
| TeamProperties.CreateReportsExactly | internal/controller/team/team.go:231-259 | Create succeeds if and only if the listing arrives and the team it shows can be read, or it shows none and the POST is answered; then external name and status are the id of a team that is there, and otherwise the resource is as it was and nothing is made without a listing |
| TeamProperties.UpdateReportsExactly | internal/controller/team/team.go:261-276 | Update succeeds if and only if the PUT is answered and the team is there; then the status id is that of what the remote made of it |
| TeamProperties.DeleteReportsExactly | internal/controller/team/team.go:278-287 | Delete succeeds if and only if the DELETE is answered, whether or not the team was there |
| TeamProperties.PageIsComplete | internal/clients/contextforge/team.go:53-59 | with at most 500 teams, an honest listing shows every team |
| TeamProperties.PostsExactlyWhenThePageHasNoSuchSlug | internal/controller/team/team.go:231-259 | Create makes a team if and only if no team on the page has the name as its slug |
| TeamProperties.AttemptMakesOrAdopts | internal/controller/team/team.go:231-259 | one attempt makes the team if there is none and adopts it otherwise; one that succeeds and is saved stores its id |
| TeamProperties.CreatesAtMostOnce | internal/controller/team/team.go:231-259 | over any attempts with lost responses and external names, among changes by others to other teams, if the slug is the name and no listing can hide the team, at most one team ever has the slug and at most one is made; the external name is its id once an attempt succeeds and is saved, and is what it was until then |
| TeamProperties.CanHideExactly | internal/clients/contextforge/team.go:53-67 | an honest listing can miss a slug if and only if no team has it or at least 500 teams have another one |
| TeamProperties.BeyondOnePageDuplicatesForever | internal/controller/team/team.go:231-259 | once 500 teams have other slugs, there is a run of honest listings in which every attempt makes one more team of the same slug |
| TeamProperties.OtherSlugDuplicatesForever | internal/controller/team/team.go:231-259 | if the remote derives another slug, every attempt that reaches it makes one more team, whatever others do to other teams |
| TeamProperties.DeletionFinishesInTwoRounds | internal/controller/team/team.go:201-287 | deletion finishes in at most two failure-free reconciles and removes exactly the record under the external name |
| TeamProperties.DeletionIsSafe | internal/controller/team/team.go:201-287 | whatever faults deletion meets, it has finished after two faultless reconciles, removes nothing but the record under the external name, and finishes only when that is gone |
| TeamProperties.LeavesNothingBehindExactly | internal/controller/team/team.go:201-287 | after any attempts and then two failure-free reconciles of deletion, no team of the slug is left if and only if the external name was stored, or there was none before and the remote made none |
| TeamGate.CreatedServerIsInItsTeam | internal/controller/virtualserver/virtualserver.go:326-332 | every server that a Create makes or changes is stored under the Team's id |
| TeamGate.UpdatedServerIsInItsTeam | internal/controller/virtualserver/virtualserver.go:353-358 | so is every server that an Update changes |
| TeamGate.CreatedGatewayIsInItsTeam | internal/controller/gateway/gateway.go:317-327 | so is every gateway that a Create makes |
| TeamGate.UpdatedGatewayIsInItsTeam | internal/controller/gateway/gateway.go:344-354 | so is every gateway that an Update changes |
| TeamGate.AgentIsInItsTeam | internal/controller/a2aagent/a2aagent.go:381-426 | so is every agent that a Create or an Update makes or changes |
| TeamGate.StatusComesFromAnswers | internal/controller/team/team.go:201-276 | a Team's status id changes only to the id of a Team record that the remote answered with |
| TeamGate.RunKeepsInvariant | internal/controller/teamresolve/teamresolve.go:20-34 | in every interleaving, status ids were answered by the remote, and pending and sent requests carry ids that their Teams held when read |
| TeamGate.EveryWriteCarriesItsTeam | internal/controller/gateway/gateway.go:67-81 | every request of a child carries a non-empty id that its Team, in the child's namespace, held in status when read, and that the remote had answered with |
| TeamGate.CreatedTeamOpensTheGate | internal/controller/team/team.go:231-259 | after a successful Create of a Team that is saved, its children resolve its id in their namespace, and a record of that id is on the remote |
| TeamGate.ObservedTeamOpensTheGate | internal/controller/team/team.go:217-219 | so they do after an Observe that finds the team and is saved, whatever the status was |
| TeamGate.OpenGateLetsWritesThrough | internal/controller/teamresolve/teamresolve.go:20-34 | once the gate is open, a child that reads its Team and goes on sends its request, with that id |

## Left out

- HTTP: URL building, escaping, headers, the size limit on answers and the decoding of answers; a call is an answer, a 404, a 409 or another failure.
- The JSON text of request bodies: only which fields are present, and with which value.
- Error messages and their wrapping; a failure is told only by its kind.
- Controller set-up, `Connect`, provider configurations and credentials of the provider.
- Conditions, and status fields that are only copied; the status id is kept, as it gates the children.
- Fields that no decision and no request depends on, such as time stamps, versions, tool counts and a team's constant visibility.
- The reconciler's own bookkeeping: its create annotations, finalizer retries, rate limits and cached reads. An external name that is not saved is covered.
- Steps finer than one operation: the remote changes between operations, not between the calls of one.
- Invalid UTF-8 in strings; the printer and the order of strings are for valid text.
- NamedRecords.CreatesAtMostOnce: says nothing about a remote that lets two records share a name, which the code relies on a 409 to prevent, or where a record's id is the name; NamedRecords.AdoptsTheNamedRecord says exactly what adoption finds then.
- NamedController.LeavesNothingBehindExactly: others do not remove records that were made for the resource, and do not change the remote between the reconciles of a deletion; a spec that is not valid is never admitted, so a Create for one does nothing.
- NamedFleet.UndisturbedExactly: names are fixed over the run.
- TeamProperties.CreatesAtMostOnce: others neither make nor remove a team with that slug, as nothing in the code keeps two writers from creating the same team.
- ServerRuns.NeverLeaks: for an external name that starts unset or as the own id and that nobody else sets; ServerDeletion.DeletionIsCleanExactly and ServerRuns.ObservedDetailsAgreeExactly say exactly what happens otherwise.
- Generated code, resource definitions and manifests.
