/** What an authenticator adds to config.properties and to the container, and how its scope
    strings are read back. */
module Contributions {
  import opened Outcomes
  import opened Spec
  import opened Text
  import opened Authentication

  /** A property value: literal text, a reference written as `${ENV:name}`, a URL whose escaping
      is left to the URL library, or the path of a file. */
  datatype PropertyValue =
    | Literal(text: string)
    | EnvRef(name: string)
    | Url(scheme: string, host: string, path: string)
    | FilePath(directory: Path, file: string)

  type Properties = map<string, PropertyValue>

  datatype EnvVar = EnvVar(name: string, secret: string, key: string)

  datatype VolumeSource =
    | ConfigMapSource(name: string)
    | EmptyDir(sizeLimit: string)
    | SecretClassVolume(secretClass: string, scope: string)
    | SecretSource(name: string)

  datatype Volume = Volume(name: string, source: VolumeSource)

  datatype VolumeMount = VolumeMount(name: string, path: Path)

  /** A start-up command `export variable=$(cat directory/file)`. */
  datatype Export = Export(variable: string, directory: Path, file: string)

  const AUTHENTICATION_TYPE := "http-server.authentication.type"

  /* ----- OIDC ----- */

  function OidcScopes(config: OidcSpec): seq<string> {
    ["openid", "email", "profile"] + config.extraScopes
  }

  function OidcHost(provider: OidcProvider): string {
    if provider.port != 80 then provider.hostname + ":" + Itoa(provider.port) else provider.hostname
  }

  function OidcProperties(config: OidcSpec, provider: OidcProvider): Properties {
    map[
      AUTHENTICATION_TYPE := Literal("OAUTH2"),
      "http-server.authentication.oauth2.scopes" := Literal(Join(OidcScopes(config), ' ')),
      "http-server.authentication.oauth2.client-id" := EnvRef("OIDC_CLIENT_ID"),
      "http-server.authentication.oauth2.client-secret" := EnvRef("OIDC_CLIENT_SECRET"),
      "http-server.authentication.oauth2.issuer" := Url("http", OidcHost(provider), provider.rootPath),
      "http-server.authentication.oauth2.principal-field" := Literal(provider.principalClaim)]
  }

  const OIDC_KEYS: set<string> := {
    AUTHENTICATION_TYPE,
    "http-server.authentication.oauth2.scopes",
    "http-server.authentication.oauth2.client-id",
    "http-server.authentication.oauth2.client-secret",
    "http-server.authentication.oauth2.issuer",
    "http-server.authentication.oauth2.principal-field"}

  /** A reader that splits the scope string on spaces recovers the default scopes followed by
      the configured ones exactly when no configured scope holds a space. */
  lemma OidcScopesDecode(config: OidcSpec, provider: OidcProvider)
    ensures var written := OidcProperties(config, provider)["http-server.authentication.oauth2.scopes"].text;
            Split(written, ' ') == ["openid", "email", "profile"] + config.extraScopes
            <==> forall s <- config.extraScopes :: ' ' !in s
  {
    SplitUndoesJoin(OidcScopes(config), ' ');
  }

  /** A reader of the issuer's host: the port follows a colon and is 80 without one. */
  function ReadHost(host: string): Option<(string, int)> {
    var parts := Split(host, ':');
    if |parts| == 1 then Some((parts[0], 80))
    else if |parts| == 2 && ParseInt(parts[1]).Some? then Some((parts[0], ParseInt(parts[1]).value))
    else None
  }

  /** The issuer is an http URL under the provider's root path; its host gives back the provider's
      host name and port exactly when the host name holds no colon. */
  lemma OidcIssuerDecode(config: OidcSpec, provider: OidcProvider)
    ensures var issuer := OidcProperties(config, provider)["http-server.authentication.oauth2.issuer"];
            issuer.Url? && issuer.scheme == "http" && issuer.path == provider.rootPath
            && (ReadHost(issuer.host) == Some((provider.hostname, provider.port)) <==> ':' !in provider.hostname)
  {
    var parts := [provider.hostname] + if provider.port != 80 then [Itoa(provider.port)] else [];
    ParseOfItoa(provider.port);
    assert OidcHost(provider) == Join(parts, ':') by {
      assert parts[1..] == if provider.port != 80 then [Itoa(provider.port)] else [];
    }
    SplitUndoesJoin(parts, ':');
  }

  /* ----- LDAP ----- */

  const BIND_CREDENTIALS_VOLUME := "ldap-bind-credentials"

  function BindCredentialsMountPath(provider: LdapProvider): Path {
    PathJoin(KUBEDOOP_TLS_DIR, provider.secretClass)
  }

  function LdapEndpoint(provider: LdapProvider): string {
    (if provider.tls then "ldaps" else "ldap") + "://" + provider.hostname
    + (if provider.port != 0 then ":" + Itoa(provider.port) else "")
  }

  datatype Endpoint = Endpoint(tls: bool, hostname: string, port: int)

  /** A reader of the LDAP server URL; no port reads as 0. */
  function ReadEndpoint(url: string): Option<Endpoint> {
    var parts := Split(url, ':');
    if |parts| < 2 || |parts| > 3 || parts[0] !in ["ldap", "ldaps"] || !("//" <= parts[1]) then None
    else if |parts| == 2 then Some(Endpoint(parts[0] == "ldaps", parts[1][2..], 0))
    else if ParseInt(parts[2]).Some? then Some(Endpoint(parts[0] == "ldaps", parts[1][2..], ParseInt(parts[2]).value))
    else None
  }

  lemma EndpointParts(provider: LdapProvider) returns (parts: seq<string>)
    ensures parts == [if provider.tls then "ldaps" else "ldap", "//" + provider.hostname]
                     + if provider.port != 0 then [Itoa(provider.port)] else []
    ensures LdapEndpoint(provider) == Join(parts, ':')
  {
    var scheme, host, port := if provider.tls then "ldaps" else "ldap", provider.hostname, Itoa(provider.port);
    JoinFew(scheme, "//" + host, port, ':');
    SchemeHostPort(scheme, host, port);
    parts := if provider.port != 0 then [scheme, "//" + host, port] else [scheme, "//" + host];
  }

  lemma SchemeHostPort(scheme: string, host: string, port: string)
    ensures scheme + "://" + host + "" == scheme + [':'] + ("//" + host)
    ensures scheme + "://" + host + (":" + port) == scheme + [':'] + ("//" + host + [':'] + port)
  {
    assert "://" == [':'] + "//";
  }

  lemma ReadEndpointHasNoColon(url: string)
    ensures ReadEndpoint(url).Some? ==> ':' !in ReadEndpoint(url).value.hostname
  {
    var parts := Split(url, ':');
    if ReadEndpoint(url).Some? {
      assert ':' !in parts[1] && parts[1] == parts[1][..2] + parts[1][2..];
    }
  }

  /** The server URL gives back the TLS flag, the host name and the port exactly when the host name
      holds no colon. */
  lemma LdapEndpointDecode(provider: LdapProvider)
    ensures ReadEndpoint(LdapEndpoint(provider)) == Some(Endpoint(provider.tls, provider.hostname, provider.port))
            <==> ':' !in provider.hostname
  {
    var parts := EndpointParts(provider);
    if ':' in provider.hostname {
      ReadEndpointHasNoColon(LdapEndpoint(provider));
    } else {
      ParseOfItoa(provider.port);
      SplitUndoesJoin(parts, ':');
      assert parts[1][2..] == provider.hostname;
    }
  }

  function LdapProperties(provider: LdapProvider): Properties {
    map[
      AUTHENTICATION_TYPE := Literal("PASSWORD"),
      "http-server.authentication.ldap.server" := Literal(LdapEndpoint(provider)),
      "password-authenticator.name" := Literal("ldap"),
      "ldap.user-base-dn" := Literal(provider.searchBase),
      "ldap.group-auth-pattern" := Literal("(&(" + provider.uidField + "={user}))"),
      "ldap.bind-dn" := EnvRef("LDAP_USER"),
      "ldap.bind-password" := EnvRef("LDAP_PASSWORD")]
  }

  const LDAP_KEYS: set<string> := {
    AUTHENTICATION_TYPE,
    "http-server.authentication.ldap.server",
    "password-authenticator.name",
    "ldap.user-base-dn",
    "ldap.group-auth-pattern",
    "ldap.bind-dn",
    "ldap.bind-password"}

  const SERVICE_PREFIX := "service="

  function ServiceTokens(services: seq<string>): seq<string> {
    seq(|services|, i requires 0 <= i < |services| => SERVICE_PREFIX + services[i])
  }

  function ScopeTokens(scope: SecretScope): seq<string> {
    (if scope.pod then ["pod"] else []) + (if scope.node then ["node"] else []) + ServiceTokens(scope.services)
  }

  function ScopeAnnotation(scope: Option<SecretScope>): string {
    if scope.Some? then Join(ScopeTokens(scope.value), ',') else ""
  }

  /** The append loop of the LDAP volume builder. */
  method CollectScopes(scope: Option<SecretScope>) returns (annotation: string)
    ensures annotation == ScopeAnnotation(scope)
  {
    var scopes: seq<string> := [];
    if scope.Some? {
      if scope.value.pod {
        scopes := scopes + ["pod"];
      }
      if scope.value.node {
        scopes := scopes + ["node"];
      }
      ghost var flags := scopes;
      for i := 0 to |scope.value.services|
        invariant scopes == flags + ServiceTokens(scope.value.services)[..i]
      {
        scopes := scopes + [SERVICE_PREFIX + scope.value.services[i]];
      }
      assert scopes == ScopeTokens(scope.value);
    }
    annotation := Join(scopes, ',');
  }

  /** The secret provider's reading of the annotation. */
  function DecodeScope(annotation: string): SecretScope {
    var tokens := if annotation == "" then [] else Split(annotation, ',');
    SecretScope("pod" in tokens, "node" in tokens, ServicesIn(tokens))
  }

  function ServicesIn(tokens: seq<string>): seq<string> {
    if tokens == [] then []
    else (if SERVICE_PREFIX <= tokens[0] then [tokens[0][|SERVICE_PREFIX|..]] else []) + ServicesIn(tokens[1..])
  }

  lemma {:induction false} ServicesOfTokens(services: seq<string>)
    ensures ServicesIn(ServiceTokens(services)) == services
  {
    if services != [] {
      var tokens := ServiceTokens(services);
      assert tokens[1..] == ServiceTokens(services[1..]);
      assert tokens[0][|SERVICE_PREFIX|..] == services[0];
      ServicesOfTokens(services[1..]);
    }
  }

  lemma {:induction false} ServicesAvoid(tokens: seq<string>, c: char)
    requires forall t <- tokens :: c !in t
    ensures forall s <- ServicesIn(tokens) :: c !in s
  {
    if tokens != [] {
      ServicesAvoid(tokens[1..], c);
      assert c !in tokens[0];
      if SERVICE_PREFIX <= tokens[0] {
        assert tokens[0] == SERVICE_PREFIX + tokens[0][|SERVICE_PREFIX|..];
      }
    }
  }

  lemma JoinedTokensNonEmpty(tokens: seq<string>)
    requires tokens != [] && tokens[0] != ""
    ensures Join(tokens, ',') != ""
  {
  }

  /** The annotation gives back the pod flag, the node flag and the services in order exactly
      when no service name holds the delimiter. */
  lemma LdapScopeDecode(scope: SecretScope)
    ensures DecodeScope(ScopeAnnotation(Some(scope))) == scope <==> forall s <- scope.services :: ',' !in s
  {
    var tokens := ScopeTokens(scope);
    var services := ServiceTokens(scope.services);
    var annotation := ScopeAnnotation(Some(scope));
    if forall s <- scope.services :: ',' !in s {
      forall t | t in tokens
        ensures ',' !in t && t != ""
      {
        assert t in services ==> exists i :: 0 <= i < |scope.services| && t == SERVICE_PREFIX + scope.services[i];
      }
      if tokens != [] {
        SplitOfJoin(tokens, ',');
        JoinedTokensNonEmpty(tokens);
      }
      ServicesOfTokens(scope.services);
      FlagsCarryNoService(scope);
      FlagsInTokens(scope);
    } else {
      ServicesAvoid(if annotation == "" then [] else Split(annotation, ','), ',');
    }
  }

  lemma {:induction false} FlagsSkipped(flags: seq<string>, tokens: seq<string>)
    requires forall f <- flags :: !(SERVICE_PREFIX <= f)
    ensures ServicesIn(flags + tokens) == ServicesIn(tokens)
  {
    if flags == [] {
      assert flags + tokens == tokens;
    } else {
      assert (flags + tokens)[1..] == flags[1..] + tokens;
      assert flags[0] in flags && forall f <- flags[1..] :: f in flags;
      FlagsSkipped(flags[1..], tokens);
    }
  }

  lemma FlagsAreNoServices()
    ensures !(SERVICE_PREFIX <= "pod") && !(SERVICE_PREFIX <= "node")
  {
  }

  lemma FlagsCarryNoService(scope: SecretScope)
    ensures ServicesIn(ScopeTokens(scope)) == ServicesIn(ServiceTokens(scope.services))
  {
    FlagsAreNoServices();
    var flags := (if scope.pod then ["pod"] else []) + (if scope.node then ["node"] else []);
    FlagsSkipped(flags, ServiceTokens(scope.services));
  }

  lemma ServiceTokenIsNoFlag(services: seq<string>, flag: string)
    requires !(SERVICE_PREFIX <= flag)
    ensures flag !in ServiceTokens(services)
  {
    if i :| 0 <= i < |services| && SERVICE_PREFIX + services[i] == flag {
      assert false;
    }
  }

  lemma FlagsInTokens(scope: SecretScope)
    ensures "pod" in ScopeTokens(scope) <==> scope.pod
    ensures "node" in ScopeTokens(scope) <==> scope.node
  {
    FlagsAreNoServices();
    ServiceTokenIsNoFlag(scope.services, "pod");
    ServiceTokenIsNoFlag(scope.services, "node");
  }
}
