/** The gate that keeps a child resource waiting until its Team has an id. */
module TeamResolve {
  import opened Wrappers
  import opened Managed

  function Resolve(kube: Kube, namespace: string, teamRef: string): (r: Result<string, Failure>)
    ensures r.Ok? ==> r.value != ""
  {
    if kube.Unreachable? then Err(KubeFailed)
    else
      var key := Key(namespace, teamRef);
      if key !in kube.teams then Err(TeamMissing)
      else if kube.teams[key] == "" then Err(TeamNotReady)
      else Ok(kube.teams[key])
  }

  /** The team a child writes is the status id of the Team it refers to in its own
      namespace, and the gate opens exactly when that Team has one. The failure tells an
      unreachable cluster, a missing Team and one that is not ready apart. */
  lemma OpensExactlyWhenReady(kube: Kube, namespace: string, teamRef: string, id: string)
    ensures Resolve(kube, namespace, teamRef) == Ok(id) <==>
            kube.Cluster? && Key(namespace, teamRef) in kube.teams &&
            kube.teams[Key(namespace, teamRef)] == id && id != ""
    ensures Resolve(kube, namespace, teamRef) == Err(KubeFailed) <==> kube.Unreachable?
    ensures Resolve(kube, namespace, teamRef) == Err(TeamMissing) <==> kube.Cluster? && Key(namespace, teamRef) !in kube.teams
    ensures Resolve(kube, namespace, teamRef) == Err(TeamNotReady) <==>
            kube.Cluster? && Key(namespace, teamRef) in kube.teams && kube.teams[Key(namespace, teamRef)] == ""
  {
  }
}
