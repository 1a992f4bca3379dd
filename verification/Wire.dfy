/** What of a Go value reaches the wire, and what the remote does with it. */
module Wire {
  import opened Wrappers
  import opened Json
  import opened Managed
  import opened AuthResolve

  /** A Go slice of strings, which may be nil. */
  datatype Slice = Nil | Items(elems: seq<string>) {
    function List(): seq<string> {
      match this
      case Nil => []
      case Items(elems) => elems
    }
  }

  /** A list in a JSON body: left out, null, or written out. */
  datatype WireList = Absent | Null | Listed(elems: seq<string>)

  /** A field without omitempty. */
  function Always(s: Slice): WireList
  {
    match s
    case Nil => WireList.Null
    case Items(elems) => Listed(elems)
  }

  /** A field with omitempty. */
  function OmitEmpty(s: Slice): WireList
  {
    if s.List() == [] then Absent else Listed(s.List())
  }

  /** A map field with omitempty. */
  function OmitEmptyMap(m: Option<JsonMap>): Option<JsonMap>
  {
    if m.Some? && m.value != map[] then m else None
  }

  /** The remote takes over a list that is written out and keeps its own otherwise. It
      may keep the elements in any order. */
  ghost predicate Keeps(sent: WireList, prior: seq<string>, kept: seq<string>)
  {
    multiset(kept) == multiset(if sent.Listed? then sent.elems else prior)
  }

  /** Write-only credentials: each part that is sent replaces the one before. */
  function AuthAfter(prior: Auth, sent: Auth): Auth
  {
    Auth(if sent.kind.Some? then sent.kind else prior.kind,
         if sent.username.Some? then sent.username else prior.username,
         if sent.password.Some? then sent.password else prior.password,
         if sent.token.Some? then sent.token else prior.token,
         if sent.headers != [] then sent.headers else prior.headers,
         if sent.queryKey.Some? then sent.queryKey else prior.queryKey,
         if sent.queryValue.Some? then sent.queryValue else prior.queryValue,
         if sent.oauth != map[] then sent.oauth else prior.oauth)
  }

  /** A resource without an auth block, or with one of a type unknown to the provider,
      resolves without reading anything, and leaves the credentials that the remote holds. */
  lemma NoBlockKeepsCredentials(kube: Kube, namespace: string, config: Option<AuthConfig>, prior: Auth)
    requires config.Some? ==> config.value.kind !in {"basic", "bearer", "headers", "queryParam", "oauth"}
    ensures Resolved(kube, namespace, config).Ok? && AuthAfter(prior, Resolved(kube, namespace, config).value) == prior
  {
  }

  datatype Tag = Tag(id: string, text: string)

  function Labels(tags: seq<Tag>): (labels: seq<string>)
    ensures |labels| == |tags|
    ensures forall i | 0 <= i < |tags| :: labels[i] == tags[i].text
  {
    if tags == [] then [] else [tags[0].text] + Labels(tags[1..])
  }

  /** The labels of a list of tags, in order. */
  method TagLabels(tags: seq<Tag>) returns (labels: array<string>)
    ensures fresh(labels) && labels[..] == Labels(tags)
  {
    labels := new string[|tags|];
    for i := 0 to |tags|
      invariant forall j | 0 <= j < i :: labels[j] == tags[j].text
    {
      labels[i] := tags[i].text;
    }
  }
}
