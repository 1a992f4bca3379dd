/** Turning an auth block and the Secrets it names into the credentials of a request. */
module AuthResolve {
  import opened Wrappers
  import opened Managed

  datatype SecretRef = SecretRef(name: string, key: string)

  datatype HeaderEntry = HeaderEntry(name: string, secret: SecretRef)

  datatype OAuth = OAuth(
    grantType: string,
    clientId: string,
    clientSecret: Option<SecretRef>,
    tokenUrl: string,
    authorizationUrl: string,
    issuer: string,
    jwksUri: string,
    redirectUri: string,
    scopes: seq<string>)

  datatype AuthConfig = AuthConfig(
    kind: string,
    basic: Option<string>,
    bearer: Option<SecretRef>,
    headers: Option<seq<HeaderEntry>>,
    queryParam: Option<HeaderEntry>,
    oauth: Option<OAuth>)

  /** The validation rules of the resource definition: the block that the type names is there. */
  predicate Valid(c: AuthConfig)
  {
    (c.kind == "basic" ==> c.basic.Some?) &&
    (c.kind == "bearer" ==> c.bearer.Some?) &&
    (c.kind == "headers" ==> c.headers.Some?) &&
    (c.kind == "queryParam" ==> c.queryParam.Some?) &&
    (c.kind == "oauth" ==> c.oauth.Some?)
  }

  datatype OAuthValue = Text(s: string) | Texts(ss: seq<string>)

  /** The keys of the OAuth settings; Name gives the key as it is sent. */
  datatype OAuthKey =
    | GrantType | ClientId | ClientSecret | TokenUrl | AuthorizationUrl | Issuer | JwksUri | RedirectUri | Scopes
  {
    function Name(): string {
      match this
      case GrantType => "grant_type"
      case ClientId => "client_id"
      case ClientSecret => "client_secret"
      case TokenUrl => "token_url"
      case AuthorizationUrl => "authorization_url"
      case Issuer => "issuer"
      case JwksUri => "jwks_uri"
      case RedirectUri => "redirect_uri"
      case Scopes => "scopes"
    }
  }

  type OAuthMap = map<OAuthKey, OAuthValue>

  datatype Auth = Auth(
    kind: Option<string>,
    username: Option<string>,
    password: Option<string>,
    token: Option<string>,
    headers: seq<map<string, string>>,
    queryKey: Option<string>,
    queryValue: Option<string>,
    oauth: OAuthMap)

  const NO_AUTH := Auth(None, None, None, None, [], None, None, map[])

  /** The data of a Secret. */
  function GetSecret(kube: Kube, namespace: string, name: string): Result<map<string, string>, Failure>
  {
    if kube.Unreachable? then Err(KubeFailed)
    else if Key(namespace, name) in kube.secrets then Ok(kube.secrets[Key(namespace, name)])
    else Err(SecretMissing)
  }

  /** One key of a Secret. */
  function GetKey(kube: Kube, namespace: string, secret: SecretRef): Result<string, Failure>
  {
    match GetSecret(kube, namespace, secret.name)
    case Err(e) => Err(e)
    case Ok(data) => if secret.key in data then Ok(data[secret.key]) else Err(KeyMissing(secret.key))
  }

  function BasicAuth(kube: Kube, namespace: string, secretName: string): Result<Auth, Failure>
  {
    match GetSecret(kube, namespace, secretName)
    case Err(e) => Err(e)
    case Ok(data) =>
      if "username" !in data then Err(KeyMissing("username"))
      else if "password" !in data then Err(KeyMissing("password"))
      else Ok(NO_AUTH.(kind := Some("basic"), username := Some(data["username"]), password := Some(data["password"])))
  }

  function BearerAuth(kube: Kube, namespace: string, secret: SecretRef): Result<Auth, Failure>
  {
    match GetKey(kube, namespace, secret)
    case Err(e) => Err(e)
    case Ok(token) => Ok(NO_AUTH.(kind := Some("bearer"), token := Some(token)))
  }

  function QueryParamAuth(kube: Kube, namespace: string, q: HeaderEntry): Result<Auth, Failure>
  {
    match GetKey(kube, namespace, q.secret)
    case Err(e) => Err(e)
    case Ok(v) => Ok(NO_AUTH.(kind := Some("queryParam"), queryKey := Some(q.name), queryValue := Some(v)))
  }

  /** The pairs for a list of headers, or the failure of the first header that has none. */
  function HeaderPairs(kube: Kube, namespace: string, headers: seq<HeaderEntry>): Result<seq<map<string, string>>, Failure>
  {
    if headers == [] then Ok([])
    else
      match GetKey(kube, namespace, headers[0].secret)
      case Err(e) => Err(e)
      case Ok(v) =>
        match HeaderPairs(kube, namespace, headers[1..])
        case Err(e) => Err(e)
        case Ok(pairs) => Ok([map[headers[0].name := v]] + pairs)
  }

  function HeadersAuth(kube: Kube, namespace: string, headers: seq<HeaderEntry>): Result<Auth, Failure>
  {
    match HeaderPairs(kube, namespace, headers)
    case Err(e) => Err(e)
    case Ok(pairs) => Ok(NO_AUTH.(kind := Some("headers"), headers := pairs))
  }

  function With(cfg: OAuthMap, key: OAuthKey, value: Option<OAuthValue>): OAuthMap
  {
    if value.Some? then cfg[key := value.value] else cfg
  }

  function Given(s: string): Option<OAuthValue>
  {
    if s != "" then Some(Text(s)) else None
  }

  function SecretGiven(secret: Option<string>): Option<OAuthValue>
  {
    if secret.Some? then Some(Text(secret.value)) else None
  }

  function ScopesGiven(scopes: seq<string>): Option<OAuthValue>
  {
    if scopes != [] then Some(Texts(scopes)) else None
  }

  function WithEndpoints(cfg: OAuthMap, o: OAuth): OAuthMap
  {
    var c1 := With(cfg, TokenUrl, Given(o.tokenUrl));
    var c2 := With(c1, AuthorizationUrl, Given(o.authorizationUrl));
    var c3 := With(c2, Issuer, Given(o.issuer));
    var c4 := With(c3, JwksUri, Given(o.jwksUri));
    With(c4, RedirectUri, Given(o.redirectUri))
  }

  /** The OAuth settings sent to the remote, given the client secret. */
  function OAuthSettings(o: OAuth, secret: Option<string>): OAuthMap
  {
    var c0 := With(map[GrantType := Text(o.grantType), ClientId := Text(o.clientId)], ClientSecret, SecretGiven(secret));
    With(WithEndpoints(c0, o), Scopes, ScopesGiven(o.scopes))
  }

  function OAuthAuth(kube: Kube, namespace: string, o: OAuth): Result<Auth, Failure>
  {
    match o.clientSecret
    case None => Ok(NO_AUTH.(kind := Some("oauth"), oauth := OAuthSettings(o, None)))
    case Some(secret) =>
      match GetKey(kube, namespace, secret)
      case Err(e) => Err(e)
      case Ok(v) => Ok(NO_AUTH.(kind := Some("oauth"), oauth := OAuthSettings(o, Some(v))))
  }

  function Resolved(kube: Kube, namespace: string, config: Option<AuthConfig>): Result<Auth, Failure>
    requires config.Some? ==> Valid(config.value)
  {
    match config
    case None => Ok(NO_AUTH)
    case Some(c) =>
      if c.kind == "basic" then BasicAuth(kube, namespace, c.basic.value)
      else if c.kind == "bearer" then BearerAuth(kube, namespace, c.bearer.value)
      else if c.kind == "headers" then HeadersAuth(kube, namespace, c.headers.value)
      else if c.kind == "queryParam" then QueryParamAuth(kube, namespace, c.queryParam.value)
      else if c.kind == "oauth" then OAuthAuth(kube, namespace, c.oauth.value)
      else Ok(NO_AUTH)
  }

  // ---------- The resolvers that build their result step by step ----------

  lemma {:induction false} HeaderPairsConcat(kube: Kube, namespace: string, done: seq<HeaderEntry>, more: seq<HeaderEntry>)
    ensures HeaderPairs(kube, namespace, done + more) ==
            match HeaderPairs(kube, namespace, done)
            case Err(e) => Err(e)
            case Ok(first) =>
              match HeaderPairs(kube, namespace, more)
              case Err(e) => Err(e)
              case Ok(second) => Ok(first + second)
  {
    if done == [] {
      assert done + more == more;
      match HeaderPairs(kube, namespace, more) {
        case Ok(second) => assert [] + second == second;
        case _ =>
      }
    } else {
      assert (done + more)[1..] == done[1..] + more;
      HeaderPairsConcat(kube, namespace, done[1..], more);
      match (HeaderPairs(kube, namespace, done), HeaderPairs(kube, namespace, more)) {
        case (Ok(first), Ok(second)) => assert [first[0]] + (first[1..] + second) == first + second;
        case _ =>
      }
    }
  }

  /** Looks up the headers one after the other and stops at the first failure. */
  method ResolveHeaders(kube: Kube, namespace: string, headers: seq<HeaderEntry>) returns (r: Result<Auth, Failure>)
    ensures r == HeadersAuth(kube, namespace, headers)
  {
    var entries := [];
    for i := 0 to |headers|
      invariant HeaderPairs(kube, namespace, headers[..i]) == Ok(entries)
    {
      var h := headers[i];
      var v := GetKey(kube, namespace, h.secret);
      if v.Err? {
        HeaderPairsConcat(kube, namespace, headers[..i], headers[i..]);
        assert headers == headers[..i] + headers[i..];
        return Err(v.error);
      }
      HeaderPairsConcat(kube, namespace, headers[..i], [h]);
      assert headers[..i + 1] == headers[..i] + [h];
      assert [map[h.name := v.value]] + [] == [map[h.name := v.value]];
      entries := entries + [map[h.name := v.value]];
    }
    assert headers[..|headers|] == headers;
    r := Ok(NO_AUTH.(kind := Some("headers"), headers := entries));
  }

  /** Fills the OAuth settings key by key. */
  method ResolveOAuth(kube: Kube, namespace: string, o: OAuth) returns (r: Result<Auth, Failure>)
    ensures r == OAuthAuth(kube, namespace, o)
  {
    var cfg: OAuthMap := map[GrantType := Text(o.grantType), ClientId := Text(o.clientId)];
    ghost var secret: Option<string> := None;
    if o.clientSecret.Some? {
      var v := GetKey(kube, namespace, o.clientSecret.value);
      if v.Err? { return Err(v.error); }
      cfg := cfg[ClientSecret := Text(v.value)];
      secret := Some(v.value);
    }
    if o.tokenUrl != "" { cfg := cfg[TokenUrl := Text(o.tokenUrl)]; }
    if o.authorizationUrl != "" { cfg := cfg[AuthorizationUrl := Text(o.authorizationUrl)]; }
    if o.issuer != "" { cfg := cfg[Issuer := Text(o.issuer)]; }
    if o.jwksUri != "" { cfg := cfg[JwksUri := Text(o.jwksUri)]; }
    if o.redirectUri != "" { cfg := cfg[RedirectUri := Text(o.redirectUri)]; }
    if |o.scopes| > 0 { cfg := cfg[Scopes := Texts(o.scopes)]; }
    r := Ok(NO_AUTH.(kind := Some("oauth"), oauth := cfg));
  }

  method Resolve(kube: Kube, namespace: string, config: Option<AuthConfig>) returns (r: Result<Auth, Failure>)
    requires config.Some? ==> Valid(config.value)
    ensures r == Resolved(kube, namespace, config)
  {
    if config.None? { return Ok(NO_AUTH); }
    var c := config.value;
    match c.kind {
      case "basic" => r := BasicAuth(kube, namespace, c.basic.value);
      case "bearer" => r := BearerAuth(kube, namespace, c.bearer.value);
      case "headers" => r := ResolveHeaders(kube, namespace, c.headers.value);
      case "queryParam" => r := QueryParamAuth(kube, namespace, c.queryParam.value);
      case "oauth" => r := ResolveOAuth(kube, namespace, c.oauth.value);
      case _ => r := Ok(NO_AUTH);
    }
  }

  // ---------- What resolution promises ----------

  /** The Secret keys that an auth block of each type reads. */
  function References(c: AuthConfig): set<SecretRef>
    requires Valid(c)
  {
    if c.kind == "basic" then {SecretRef(c.basic.value, "username"), SecretRef(c.basic.value, "password")}
    else if c.kind == "bearer" then {c.bearer.value}
    else if c.kind == "headers" then set h | h in c.headers.value :: h.secret
    else if c.kind == "queryParam" then {c.queryParam.value.secret}
    else if c.kind == "oauth" && c.oauth.value.clientSecret.Some? then {c.oauth.value.clientSecret.value}
    else {}
  }

  ghost predicate Present(kube: Kube, namespace: string, secret: SecretRef)
  {
    kube.Cluster? && Key(namespace, secret.name) in kube.secrets &&
    secret.key in kube.secrets[Key(namespace, secret.name)]
  }

  function Value(kube: Kube, namespace: string, secret: SecretRef): string
    requires Present(kube, namespace, secret)
  {
    kube.secrets[Key(namespace, secret.name)][secret.key]
  }

  lemma {:induction false} HeaderPairsExact(kube: Kube, namespace: string, headers: seq<HeaderEntry>)
    ensures HeaderPairs(kube, namespace, headers).Ok? <==>
            forall i | 0 <= i < |headers| :: Present(kube, namespace, headers[i].secret)
    ensures HeaderPairs(kube, namespace, headers).Ok? ==>
              var pairs := HeaderPairs(kube, namespace, headers).value;
              |pairs| == |headers| &&
              forall i | 0 <= i < |headers| ::
                Present(kube, namespace, headers[i].secret) &&
                pairs[i] == map[headers[i].name := Value(kube, namespace, headers[i].secret)]
  {
    if headers != [] {
      HeaderPairsExact(kube, namespace, headers[1..]);
      assert forall i | 0 < i < |headers| :: headers[i] == headers[1..][i - 1];
    }
  }

  lemma BlockSucceedsExactly(kube: Kube, namespace: string, c: AuthConfig)
    requires Valid(c)
    ensures Resolved(kube, namespace, Some(c)).Ok? <==>
            forall ref | ref in References(c) :: Present(kube, namespace, ref)
  {
    if c.kind == "headers" {
      var hs := c.headers.value;
      HeaderPairsExact(kube, namespace, hs);
      assert forall i | 0 <= i < |hs| :: hs[i] in hs && hs[i].secret in References(c);
      assert forall ref | ref in References(c) :: exists i :: 0 <= i < |hs| && hs[i].secret == ref;
    } else if c.kind == "basic" {
      assert SecretRef(c.basic.value, "username") in References(c);
      assert SecretRef(c.basic.value, "password") in References(c);
    } else if c.kind == "bearer" {
      assert c.bearer.value in References(c);
    } else if c.kind == "queryParam" {
      assert c.queryParam.value.secret in References(c);
    } else if c.kind == "oauth" && c.oauth.value.clientSecret.Some? {
      assert c.oauth.value.clientSecret.value in References(c);
    }
  }

  /** Resolution succeeds exactly when every Secret key that the block reads is there; a
      resource without a block reads none. */
  lemma SucceedsExactly(kube: Kube, namespace: string, config: Option<AuthConfig>)
    requires config.Some? ==> Valid(config.value)
    ensures Resolved(kube, namespace, config).Ok? <==>
            forall ref | config.Some? && ref in References(config.value) :: Present(kube, namespace, ref)
  {
    if config.Some? { BlockSucceedsExactly(kube, namespace, config.value); }
  }

  /** The header whose failure stands for the whole: the first that has no value. */
  lemma {:induction false} FirstHeaderWithout(kube: Kube, namespace: string, headers: seq<HeaderEntry>) returns (h: HeaderEntry)
    requires HeaderPairs(kube, namespace, headers).Err?
    ensures h in headers && GetKey(kube, namespace, h.secret).Err?
    ensures HeaderPairs(kube, namespace, headers).error == GetKey(kube, namespace, h.secret).error
    ensures exists i :: 0 <= i < |headers| && headers[i] == h && forall j | 0 <= j < i :: Present(kube, namespace, headers[j].secret)
  {
    if GetKey(kube, namespace, headers[0].secret).Err? {
      h := headers[0];
    } else {
      h := FirstHeaderWithout(kube, namespace, headers[1..]);
      var i :| 0 <= i < |headers[1..]| && headers[1..][i] == h && forall j | 0 <= j < i :: Present(kube, namespace, headers[1..][j].secret);
      assert headers[i + 1] == h;
      assert forall j | 0 < j < i + 1 :: headers[j] == headers[1..][j - 1];
    }
  }

  /** A failure tells why: the cluster cannot be read, a Secret that the block names is
      not there, or it lacks a key that the block reads. */
  lemma FailureTellsWhy(kube: Kube, namespace: string, c: AuthConfig)
    requires Valid(c) && Resolved(kube, namespace, Some(c)).Err?
    ensures match Resolved(kube, namespace, Some(c)).error
            case KubeFailed => kube.Unreachable?
            case SecretMissing =>
              kube.Cluster? && exists ref :: ref in References(c) && Key(namespace, ref.name) !in kube.secrets
            case KeyMissing(key) =>
              kube.Cluster? && exists ref ::
                ref in References(c) && ref.key == key && Key(namespace, ref.name) in kube.secrets &&
                key !in kube.secrets[Key(namespace, ref.name)]
            case _ => false
  {
    if c.kind == "headers" {
      var h := FirstHeaderWithout(kube, namespace, c.headers.value);
      assert h.secret in References(c);
    } else if c.kind == "basic" {
      assert SecretRef(c.basic.value, "username") in References(c);
      assert SecretRef(c.basic.value, "password") in References(c);
    } else if c.kind == "bearer" {
      assert c.bearer.value in References(c);
    } else if c.kind == "queryParam" {
      assert c.queryParam.value.secret in References(c);
    } else if c.kind == "oauth" && c.oauth.value.clientSecret.Some? {
      assert c.oauth.value.clientSecret.value in References(c);
    }
  }

  /** What an OAuth block gives for a key; an unset source gives None. */
  function OAuthSource(o: OAuth, secret: Option<string>, key: OAuthKey): Option<OAuthValue>
  {
    match key
    case GrantType => Some(Text(o.grantType))
    case ClientId => Some(Text(o.clientId))
    case ClientSecret => SecretGiven(secret)
    case TokenUrl => Given(o.tokenUrl)
    case AuthorizationUrl => Given(o.authorizationUrl)
    case Issuer => Given(o.issuer)
    case JwksUri => Given(o.jwksUri)
    case RedirectUri => Given(o.redirectUri)
    case Scopes => ScopesGiven(o.scopes)
  }

  predicate IsEndpoint(key: OAuthKey)
  {
    key.TokenUrl? || key.AuthorizationUrl? || key.Issuer? || key.JwksUri? || key.RedirectUri?
  }

  lemma EndpointsExact(cfg: OAuthMap, o: OAuth, key: OAuthKey)
    ensures var given := if IsEndpoint(key) then OAuthSource(o, None, key) else None;
            (key in WithEndpoints(cfg, o) <==> given.Some? || key in cfg) &&
            (key in WithEndpoints(cfg, o) ==>
               WithEndpoints(cfg, o)[key] == if given.Some? then given.value else cfg[key])
  {
  }

  /** The settings hold exactly the keys whose source is set, each with its source's value. */
  lemma OAuthSettingsExact(o: OAuth, secret: Option<string>, key: OAuthKey)
    ensures key in OAuthSettings(o, secret) <==> OAuthSource(o, secret, key).Some?
    ensures key in OAuthSettings(o, secret) ==> OAuthSettings(o, secret)[key] == OAuthSource(o, secret, key).value
  {
    var c0 := With(map[GrantType := Text(o.grantType), ClientId := Text(o.clientId)], ClientSecret, SecretGiven(secret));
    EndpointsExact(c0, o, key);
  }

  /** A text is sent under the key, or not at all if it is empty. */
  predicate Carries(cfg: OAuthMap, key: OAuthKey, text: string)
  {
    if text == "" then key !in cfg else key in cfg && cfg[key] == Text(text)
  }

  /** Every setting of the block under its key, and no other. */
  predicate CarriesAll(cfg: OAuthMap, o: OAuth, secret: Option<string>)
  {
    GrantType in cfg && cfg[GrantType] == Text(o.grantType) && ClientId in cfg && cfg[ClientId] == Text(o.clientId) &&
    (ClientSecret in cfg <==> secret.Some?) && (secret.Some? ==> cfg[ClientSecret] == Text(secret.value)) &&
    Carries(cfg, TokenUrl, o.tokenUrl) && Carries(cfg, AuthorizationUrl, o.authorizationUrl) &&
    Carries(cfg, Issuer, o.issuer) && Carries(cfg, JwksUri, o.jwksUri) && Carries(cfg, RedirectUri, o.redirectUri) &&
    (Scopes in cfg <==> o.scopes != []) && (o.scopes != [] ==> cfg[Scopes] == Texts(o.scopes))
  }

  predicate HasSource(cfg: OAuthMap, o: OAuth, secret: Option<string>, key: OAuthKey)
  {
    var source := OAuthSource(o, secret, key);
    (key in cfg <==> source.Some?) && (key in cfg ==> cfg[key] == source.value)
  }

  lemma SourcesCarryAll(cfg: OAuthMap, o: OAuth, secret: Option<string>)
    requires forall key: OAuthKey :: HasSource(cfg, o, secret, key)
    ensures CarriesAll(cfg, o, secret)
  {
    assert HasSource(cfg, o, secret, GrantType) && HasSource(cfg, o, secret, ClientId) && HasSource(cfg, o, secret, ClientSecret);
    assert HasSource(cfg, o, secret, TokenUrl) && HasSource(cfg, o, secret, AuthorizationUrl) && HasSource(cfg, o, secret, Issuer);
    assert HasSource(cfg, o, secret, JwksUri) && HasSource(cfg, o, secret, RedirectUri) && HasSource(cfg, o, secret, Scopes);
  }

  lemma SettingsCarryAll(o: OAuth, secret: Option<string>)
    ensures CarriesAll(OAuthSettings(o, secret), o, secret)
  {
    forall key: OAuthKey ensures HasSource(OAuthSettings(o, secret), o, secret, key) {
      OAuthSettingsExact(o, secret, key);
    }
    SourcesCarryAll(OAuthSettings(o, secret), o, secret);
  }

  /** The credentials carry the type, the Secret values of that type in their places,
      and nothing that belongs to another type. */
  lemma SetsExactlyItsFields(kube: Kube, namespace: string, c: AuthConfig)
    requires Valid(c) && Resolved(kube, namespace, Some(c)).Ok?
    ensures var a := Resolved(kube, namespace, Some(c)).value;
            match c.kind
            case "basic" =>
              var name := c.basic.value;
              Present(kube, namespace, SecretRef(name, "username")) && Present(kube, namespace, SecretRef(name, "password")) &&
              a == NO_AUTH.(kind := Some(c.kind),
                            username := Some(Value(kube, namespace, SecretRef(name, "username"))),
                            password := Some(Value(kube, namespace, SecretRef(name, "password"))))
            case "bearer" =>
              Present(kube, namespace, c.bearer.value) &&
              a == NO_AUTH.(kind := Some(c.kind), token := Some(Value(kube, namespace, c.bearer.value)))
            case "headers" =>
              a == NO_AUTH.(kind := Some(c.kind), headers := a.headers) && |a.headers| == |c.headers.value| &&
              forall i | 0 <= i < |a.headers| ::
                Present(kube, namespace, c.headers.value[i].secret) &&
                a.headers[i] == map[c.headers.value[i].name := Value(kube, namespace, c.headers.value[i].secret)]
            case "queryParam" =>
              Present(kube, namespace, c.queryParam.value.secret) &&
              a == NO_AUTH.(kind := Some(c.kind), queryKey := Some(c.queryParam.value.name),
                            queryValue := Some(Value(kube, namespace, c.queryParam.value.secret)))
            case "oauth" =>
              var o := c.oauth.value;
              a == NO_AUTH.(kind := Some(c.kind), oauth := a.oauth) &&
              (o.clientSecret.Some? ==> Present(kube, namespace, o.clientSecret.value)) &&
              CarriesAll(a.oauth, o, if o.clientSecret.Some? then Some(Value(kube, namespace, o.clientSecret.value)) else None)
            case _ => a == NO_AUTH
  {
    if c.kind == "headers" {
      HeaderPairsExact(kube, namespace, c.headers.value);
    } else if c.kind == "oauth" {
      var o := c.oauth.value;
      var secret := if o.clientSecret.Some? then Some(GetKey(kube, namespace, o.clientSecret.value).value) else None;
      SettingsCarryAll(o, secret);
    }
  }

  lemma KeyNamesDiffer(k: OAuthKey, l: OAuthKey)
    ensures k.Name() == l.Name() <==> k == l
  {
    assert |"grant_type"| == 10 && |"client_id"| == 9 && |"client_secret"| == 13 && |"token_url"| == 9;
    assert |"authorization_url"| == 17 && |"issuer"| == 6 && |"jwks_uri"| == 8 && |"redirect_uri"| == 12 && |"scopes"| == 6;
    assert "client_id"[0] != "token_url"[0] && "issuer"[0] != "scopes"[0];
  }

  /** Blocks that send the same settings agree in every field that is not a Secret,
      and in the value of the client secret. */
  lemma OAuthSettingsInjective(o: OAuth, p: OAuth, s: Option<string>, t: Option<string>)
    requires OAuthSettings(o, s) == OAuthSettings(p, t)
    ensures o == p.(clientSecret := o.clientSecret) && s == t
  {
    forall key: OAuthKey ensures OAuthSource(o, s, key) == OAuthSource(p, t, key) {
      OAuthSettingsExact(o, s, key);
      OAuthSettingsExact(p, t, key);
    }
    assert OAuthSource(o, s, GrantType) == OAuthSource(p, t, GrantType);
    assert OAuthSource(o, s, ClientId) == OAuthSource(p, t, ClientId);
    assert OAuthSource(o, s, ClientSecret) == OAuthSource(p, t, ClientSecret);
    assert OAuthSource(o, s, TokenUrl) == OAuthSource(p, t, TokenUrl);
    assert OAuthSource(o, s, AuthorizationUrl) == OAuthSource(p, t, AuthorizationUrl);
    assert OAuthSource(o, s, Issuer) == OAuthSource(p, t, Issuer);
    assert OAuthSource(o, s, JwksUri) == OAuthSource(p, t, JwksUri);
    assert OAuthSource(o, s, RedirectUri) == OAuthSource(p, t, RedirectUri);
    assert OAuthSource(o, s, Scopes) == OAuthSource(p, t, Scopes);
  }
}
