/** What every managed resource has in common, and the contract between a
    controller and the reconciler that drives it. */
module Managed {
  import opened Wrappers
  import opened Remote

  /** A namespaced object. */
  datatype Key = Key(namespace: string, name: string)

  /** What a read of the cluster finds: the status id of every Team and the data of
      every Secret. */
  datatype Kube = Unreachable | Cluster(teams: map<Key, string>, secrets: map<Key, map<string, string>>)

  datatype Failure =
    | KubeFailed
    | TeamMissing
    | TeamNotReady
    | SecretMissing
    | KeyMissing(key: string)
    | Api(e: ApiError)

  /** A managed resource as a value. An empty external name or status id is unset. */
  datatype Cr<S> = Cr(key: Key, spec: S, externalName: string, statusId: string, deleted: bool)

  /** A managed resource as the object that the controllers update. */
  class Resource<S> {
    const key: Key
    var spec: S
    var externalName: string
    var statusId: string
    var deleted: bool

    constructor (key: Key, spec: S)
      ensures Value() == Cr(key, spec, "", "", false)
    {
      this.key := key;
      this.spec := spec;
      externalName, statusId, deleted := "", "", false;
    }

    function Value(): Cr<S>
      reads this
    {
      Cr(key, spec, externalName, statusId, deleted)
    }
  }

  datatype ConnectionDetails = ConnectionDetails(sse: string, message: string)

  datatype Observation = Observation(present: bool, upToDate: bool, details: Option<ConnectionDetails>)

  const ABSENT := Observation(false, false, None)

  /** What the reconciler does next, given what Observe reported. The reconciler is a
      library; this is the contract that the controllers are written against. */
  datatype Action = GiveUp | DropFinalizer | CallDelete | CallCreate | CallUpdate | Rest

  function Decide(deleted: bool, seen: Result<Observation, Failure>): Action
  {
    match seen
    case Err(_) => GiveUp
    case Ok(o) =>
      if deleted then if o.present then CallDelete else DropFinalizer
      else if !o.present then CallCreate
      else if !o.upToDate then CallUpdate
      else Rest
  }
}
