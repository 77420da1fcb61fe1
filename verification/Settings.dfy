/** What a cluster's spec and its AuthenticationClasses say arrives in the objects the operator
    builds: in config.properties, in the other files of the ConfigMap, and in the pod's volumes. */
module Settings {
  import opened Outcomes
  import opened Orders
  import opened Spec
  import opened Text
  import opened Names
  import opened Authentication
  import opened Contributions
  import opened Aggregation
  import opened ConfigMaps
  import opened StatefulSets
  import opened CatalogFiles
  import opened CrossObject

  /* ----- From an AuthenticationClass to config.properties ----- */

  predicate HasText(p: Properties, key: string, text: string) {
    key in p && p[key] == Literal(text)
  }

  lemma Asked(api: Snapshot, specs: seq<AuthenticationSpec>, i: nat, a: Authenticator)
    requires i < |specs| && AsksFor(api, specs[i], a)
    ensures AskedFor(api, specs, a)
  {
  }

  lemma LdapValues(ldap: LdapProvider)
    ensures var q := LdapProperties(ldap);
            && HasText(q, "http-server.authentication.ldap.server", LdapEndpoint(ldap))
            && HasText(q, "password-authenticator.name", "ldap")
            && HasText(q, "ldap.user-base-dn", ldap.searchBase)
            && HasText(q, "ldap.group-auth-pattern", "(&(" + ldap.uidField + "={user}))")
  {
  }

  lemma TextArrives(b: ConfigInput, api: Snapshot, p: Properties, a: Authenticator, key: string, text: string)
    requires PossibleProperties(b, api, p) && b.roleName == COORDINATOR
    requires AskedFor(api, AuthenticationSpecs(b.clusterConfig), a)
    requires HasText(ConfigProperties(a), key, text) && key != AUTHENTICATION_TYPE
    ensures HasText(p, key, text)
  {
    AskedPropertiesArrive(b, api, p, a, key);
  }

  lemma LdapKeysAreNotType()
    ensures AUTHENTICATION_TYPE !in {"http-server.authentication.ldap.server", "password-authenticator.name",
                                     "ldap.user-base-dn", "ldap.group-auth-pattern"}
  {
  }

  /** An entry whose class has an LDAP provider alone puts that provider's settings into every
      coordinator's config.properties; the server URL reads back as TLS flag, host and port exactly
      when the host name holds no colon. */
  lemma LdapSettingsArrive(b: ConfigInput, api: Snapshot, p: Properties, i: nat, ldap: LdapProvider)
    returns (server: string)
    requires PossibleProperties(b, api, p) && b.roleName == "coordinator"
    requires b.clusterConfig.Some? && i < |b.clusterConfig.value.authentication|
    requires AsksFor(api, b.clusterConfig.value.authentication[i], Ldap(ldap))
    ensures HasText(p, "http-server.authentication.ldap.server", server)
    ensures ReadEndpoint(server) == Some(Endpoint(ldap.tls, ldap.hostname, ldap.port)) <==> ':' !in ldap.hostname
    ensures HasText(p, "password-authenticator.name", "ldap")
    ensures HasText(p, "ldap.user-base-dn", ldap.searchBase)
    ensures HasText(p, "ldap.group-auth-pattern", "(&(" + ldap.uidField + "={user}))")
  {
    var a := Ldap(ldap);
    Asked(api, b.clusterConfig.value.authentication, i, a);
    server := LdapEndpoint(ldap);
    LdapEndpointDecode(ldap);
    LdapValues(ldap);
    LdapKeysAreNotType();
    TextArrives(b, api, p, a, "http-server.authentication.ldap.server", server);
    TextArrives(b, api, p, a, "password-authenticator.name", "ldap");
    TextArrives(b, api, p, a, "ldap.user-base-dn", ldap.searchBase);
    TextArrives(b, api, p, a, "ldap.group-auth-pattern", "(&(" + ldap.uidField + "={user}))");
  }

  lemma OidcValues(config: OidcSpec, oidc: OidcProvider)
    ensures var q := OidcProperties(config, oidc);
            && HasText(q, "http-server.authentication.oauth2.scopes", Join(OidcScopes(config), ' '))
            && HasText(q, "http-server.authentication.oauth2.principal-field", oidc.principalClaim)
            && "http-server.authentication.oauth2.issuer" in q
  {
  }

  lemma OidcKeysAreNotType()
    ensures AUTHENTICATION_TYPE !in {
              "http-server.authentication.oauth2.scopes", "http-server.authentication.oauth2.principal-field",
              "http-server.authentication.oauth2.issuer"}
  {
  }

  lemma ScopesReadBack(config: OidcSpec)
    ensures Split(Join(OidcScopes(config), ' '), ' ') == ["openid", "email", "profile"] + config.extraScopes
            <==> forall s <- config.extraScopes :: ' ' !in s
  {
    SplitUndoesJoin(OidcScopes(config), ' ');
  }

  /** An entry whose class has an OIDC provider puts that provider's principal field and the entry's
      own scopes into every coordinator's config.properties. */
  lemma OidcSettingsArrive(b: ConfigInput, api: Snapshot, p: Properties, i: nat, config: OidcSpec, oidc: OidcProvider)
    returns (scopes: string)
    requires PossibleProperties(b, api, p) && b.roleName == "coordinator"
    requires b.clusterConfig.Some? && i < |b.clusterConfig.value.authentication|
    requires AsksFor(api, b.clusterConfig.value.authentication[i], Oidc(Some(config), oidc))
    ensures HasText(p, "http-server.authentication.oauth2.scopes", scopes)
    ensures Split(scopes, ' ') == ["openid", "email", "profile"] + config.extraScopes
            <==> forall s <- config.extraScopes :: ' ' !in s
    ensures HasText(p, "http-server.authentication.oauth2.principal-field", oidc.principalClaim)
  {
    var a := Oidc(Some(config), oidc);
    Asked(api, b.clusterConfig.value.authentication, i, a);
    scopes := Join(OidcScopes(config), ' ');
    ScopesReadBack(config);
    OidcValues(config, oidc);
    OidcKeysAreNotType();
    TextArrives(b, api, p, a, "http-server.authentication.oauth2.scopes", scopes);
    TextArrives(b, api, p, a, "http-server.authentication.oauth2.principal-field", oidc.principalClaim);
  }

  /** And the issuer is an http URL under the provider's root path, whose host reads back as the
      provider's host name and port exactly when the host name holds no colon. */
  lemma OidcIssuerArrives(b: ConfigInput, api: Snapshot, p: Properties, i: nat, config: OidcSpec, oidc: OidcProvider)
    returns (issuer: PropertyValue)
    requires PossibleProperties(b, api, p) && b.roleName == "coordinator"
    requires b.clusterConfig.Some? && i < |b.clusterConfig.value.authentication|
    requires AsksFor(api, b.clusterConfig.value.authentication[i], Oidc(Some(config), oidc))
    ensures "http-server.authentication.oauth2.issuer" in p && p["http-server.authentication.oauth2.issuer"] == issuer
    ensures issuer.Url? && issuer.scheme == "http" && issuer.path == oidc.rootPath
    ensures ReadHost(issuer.host) == Some((oidc.hostname, oidc.port)) <==> ':' !in oidc.hostname
  {
    Asked(api, b.clusterConfig.value.authentication, i, Oidc(Some(config), oidc));
    OidcValues(config, oidc);
    OidcKeysAreNotType();
    AskedPropertiesArrive(b, api, p, Oidc(Some(config), oidc), "http-server.authentication.oauth2.issuer");
    issuer := OidcProperties(config, oidc)["http-server.authentication.oauth2.issuer"];
    OidcIssuerDecode(config, oidc);
  }

  /** Every credential of an authenticator the spec asks for is a reference in every coordinator's
      config.properties, to a variable that every container fills from that credential's own place. */
  lemma CredentialsArrive(b: ConfigInput, api: Snapshot, p: Properties, s: StatefulSetInput, built: StatefulSet,
                          a: Authenticator, key: string)
    requires PossibleProperties(b, api, p) && b.roleName == COORDINATOR
    requires PossibleStatefulSet(s, api, built) && s.clusterConfig == b.clusterConfig
    requires AskedFor(api, AuthenticationSpecs(b.clusterConfig), a) && CredentialSource(a, key).Some?
    ensures key in p && p[key].EnvRef?
    ensures Defines(built.container.envVars, built.container.commands, p[key].name, CredentialSource(a, key).value)
  {
    ResolvedExactly(api, AuthenticationSpecs(b.clusterConfig), a);
    CredentialsResolve(s, api, built, a, key);
    AskedPropertiesArrive(b, api, p, a, key);
    CredentialIsNotType(a, key);
  }

  lemma CredentialIsNotType(a: Authenticator, key: string)
    requires CredentialSource(a, key).Some?
    ensures key != AUTHENTICATION_TYPE
  {
    assert AUTHENTICATION_TYPE !in {
        "http-server.authentication.oauth2.client-id", "http-server.authentication.oauth2.client-secret",
        "ldap.bind-dn", "ldap.bind-password"};
  }

  /** The type that config.properties announces is one the spec asks for. */
  lemma AnnouncedTypeWasAsked(b: ConfigInput, api: Snapshot, p: Properties) returns (a: Authenticator)
    requires PossibleProperties(b, api, p) && AUTHENTICATION_TYPE in p
    ensures AskedFor(api, AuthenticationSpecs(b.clusterConfig), a) && !a.Static?
    ensures p[AUTHENTICATION_TYPE] == Literal(if a.Oidc? then "OAUTH2" else "PASSWORD")
  {
    a := ArrivedPropertiesWereAsked(b, api, p, AUTHENTICATION_TYPE);
    AnnouncedType(a);
  }

  lemma AnnouncedType(a: Authenticator)
    requires AUTHENTICATION_TYPE in ConfigProperties(a)
    ensures !a.Static?
    ensures ConfigProperties(a)[AUTHENTICATION_TYPE] == Literal(if a.Oidc? then "OAUTH2" else "PASSWORD")
  {
  }

  /* ----- The rest of config.properties ----- */

  lemma PlainKeysAreNotTls()
    ensures PLAIN_KEYS !! TLS_KEYS
  {
  }

  lemma PlainArrives(b: ConfigInput, api: Snapshot, p: Properties, key: string)
    requires PossibleProperties(b, api, p) && key in PlainProperties(b) && key in PLAIN_KEYS
    requires key != "http-server.http.port"
    ensures key in p && p[key] == PlainProperties(b)[key]
  {
    MergeKeepsBase(b, api, p);
    PlainKeysAreNotTls();
    assert TlsProperties().Keys <= TLS_KEYS;
  }

  lemma LogValues(b: ConfigInput)
    ensures var q := PlainProperties(b);
            && HasText(q, "log.format", "json") && HasText(q, "log.compression", "none")
            && HasText(q, "log.max-size", "5MB") && HasText(q, "log.max-total-size", "10MB")
            && "log.path" in q
            && q["log.path"] == FilePath(["kubedoop", "log", "trino"], b.roleName + ".airlift.json")
  {
    assert KUBEDOOP_LOG_DIR + ["trino"] == ["kubedoop", "log", "trino"];
  }

  /** Every role logs json of bounded size, uncompressed, into the file that bears its name. */
  lemma LogSettingsArrive(b: ConfigInput, api: Snapshot, p: Properties)
    requires PossibleProperties(b, api, p)
    ensures HasText(p, "log.format", "json") && HasText(p, "log.compression", "none")
    ensures HasText(p, "log.max-size", "5MB") && HasText(p, "log.max-total-size", "10MB")
    ensures "log.path" in p && p["log.path"] == FilePath(["kubedoop", "log", "trino"], b.roleName + ".airlift.json")
  {
    LogValues(b);
    forall key | key in {"log.format", "log.compression", "log.max-size", "log.max-total-size", "log.path"}
      ensures key in p && p[key] == PlainProperties(b)[key]
    {
      PlainArrives(b, api, p, key);
    }
  }

  lemma NodeValues(b: ConfigInput)
    ensures var q := PlainProperties(b);
            && HasText(q, "node-scheduler.include-coordinator", "false")
            && HasText(q, "node.internal-address-source", "FQDN") && HasText(q, "http-server.log.enabled", "false")
  {
  }

  /** No coordinator schedules work on itself, nodes find each other by name, and request logs are off. */
  lemma NodeSettingsArrive(b: ConfigInput, api: Snapshot, p: Properties)
    requires PossibleProperties(b, api, p)
    ensures HasText(p, "node-scheduler.include-coordinator", "false")
    ensures HasText(p, "node.internal-address-source", "FQDN") && HasText(p, "http-server.log.enabled", "false")
  {
    NodeValues(b);
    forall key | key in {"node-scheduler.include-coordinator", "node.internal-address-source",
                         "http-server.log.enabled"}
      ensures key in p && p[key] == PlainProperties(b)[key]
    {
      PlainArrives(b, api, p, key);
    }
  }

  lemma TransportKeys(b: ConfigInput, key: string)
    requires key in TLS_KEYS
    ensures key in BaseProperties(b) <==> EnabledTls(b.clusterConfig)
    ensures EnabledTls(b.clusterConfig) ==> BaseProperties(b)[key] == TlsProperties()[key]
  {
    PlainKeysAreNotTls();
    HttpPortIsPlain();
    assert PlainProperties(b).Keys <= PLAIN_KEYS;
    assert TlsProperties().Keys == TLS_KEYS;
  }

  lemma HttpPortIsPlain()
    ensures "http-server.http.port" in PLAIN_KEYS
  {
  }

  lemma TlsKeysAreNotAuthentication(key: string)
    requires key in TLS_KEYS
    ensures key !in OIDC_KEYS && key !in LDAP_KEYS
  {
    if key in OIDC_KEYS || key in LDAP_KEYS {
      AuthenticationKeysAreNew(key);
    }
  }

  /** The twelve TLS properties are in config.properties exactly under TLS. */
  lemma TlsSettingsExactlyUnderTls(b: ConfigInput, api: Snapshot, p: Properties, key: string)
    requires PossibleProperties(b, api, p) && key in TLS_KEYS
    ensures key in p <==> b.clusterConfig.Some? && b.clusterConfig.value.tls.Some?
    ensures key in p ==> p[key] == TlsProperties()[key]
  {
    MergeKeepsBase(b, api, p);
    TransportKeys(b, key);
    TlsKeysAreNotAuthentication(key);
    var list :| PossibleList(api, MergedSpecs(b), list) && Mergeable(list) && p == BaseProperties(b) + Merge(list);
    if key in Merge(list) {
      MergedKeyIsAuthentication(list, key);
    }
  }

  predicate HasFile(p: Properties, key: string, directory: Path, file: string) {
    key in p && p[key] == FilePath(directory, file)
  }

  lemma StoreValues()
    ensures var q, server := TlsProperties(), ["kubedoop", "tls", "server"];
            && HasFile(q, "http-server.https.keystore.path", server, "keystore.p12")
            && HasFile(q, "http-server.https.truststore.path", server, "truststore.p12")
            && HasFile(q, "internal-communication.https.keystore.path", server, "keystore.p12")
            && HasFile(q, "internal-communication.https.truststore.path", server, "truststore.p12")
            && HasText(q, "http-server.https.keystore.key", "changeit")
            && HasText(q, "http-server.https.truststore.key", "changeit")
            && HasText(q, "internal-communication.https.keystore.key", "changeit")
            && HasText(q, "internal-communication.https.truststore.key", "changeit")
            && HasText(q, "internal-communication.https.required", "true")
            && HasText(q, "http-server.https.enabled", "true")
  {
    assert SERVER_TLS_MOUNT_PATH == ["kubedoop", "tls", "server"];
    assert TlsProperties().Keys == TLS_KEYS;
  }

  /** Under TLS the server and its internal client use the keystore and the truststore of the server
      volume, all with one passphrase, and internal traffic is encrypted. */
  lemma TlsSettingsArrive(b: ConfigInput, api: Snapshot, p: Properties)
    requires PossibleProperties(b, api, p) && b.clusterConfig.Some? && b.clusterConfig.value.tls.Some?
    ensures var server := ["kubedoop", "tls", "server"];
            && HasFile(p, "http-server.https.keystore.path", server, "keystore.p12")
            && HasFile(p, "http-server.https.truststore.path", server, "truststore.p12")
            && HasFile(p, "internal-communication.https.keystore.path", server, "keystore.p12")
            && HasFile(p, "internal-communication.https.truststore.path", server, "truststore.p12")
    ensures HasText(p, "http-server.https.keystore.key", "changeit")
            && HasText(p, "http-server.https.truststore.key", "changeit")
            && HasText(p, "internal-communication.https.keystore.key", "changeit")
            && HasText(p, "internal-communication.https.truststore.key", "changeit")
    ensures HasText(p, "internal-communication.https.required", "true")
            && HasText(p, "http-server.https.enabled", "true")
  {
    StoreValues();
    TlsKeysListed();
    forall key | key in TLS_KEYS
      ensures key in p && p[key] == TlsProperties()[key]
    {
      TlsSettingsExactlyUnderTls(b, api, p, key);
    }
  }

  lemma TlsKeysListed()
    ensures TlsProperties().Keys == TLS_KEYS
  {
  }

  /* ----- The other files of the ConfigMap ----- */

  lemma FixedFileKept(b: ConfigInput, env: Environment, p: Properties, catalogs: Items, f: string)
    requires HasHeap(b.trinoConfig) && IsCatalogItems(Catalogs(b.clusterConfig), env.marshals, catalogs)
    requires f in FIXED_NAMES
    ensures var fixed := FixedItems(b, p, VectorText(b, env));
            (f in fixed + catalogs <==> f in fixed) && (f in fixed ==> (fixed + catalogs)[f] == fixed[f])
  {
    FixedNameStays(f);
    forall c
      ensures IsCatalogFile(CatalogFileName(c))
    {
      CatalogFileMoves(c);
    }
    assert f !in catalogs;
  }

  lemma FixedFiles(b: ConfigInput, p: Properties, text: string)
    requires HasHeap(b.trinoConfig)
    ensures var fixed := FixedItems(b, p, text);
            && "config.properties" in fixed && fixed["config.properties"] == PropertiesItem(p)
            && "node.properties" in fixed && fixed["node.properties"] == PropertiesItem(NodeProperties(b))
            && "secret.properties" in fixed && fixed["secret.properties"] == PropertiesItem(SecurityProperties())
            && "log.properties" in fixed && fixed["log.properties"] == TextItem("=info\n")
            && ("vector.yaml" in fixed <==> UsesVector(b.clusterConfig))
            && ("vector.yaml" in fixed ==> fixed["vector.yaml"] == TextItem(text))
  {
  }

  lemma SmallFiles(b: ConfigInput)
    ensures NodeProperties(b).Keys == {"node.environment"}
    ensures HasText(NodeProperties(b), "node.environment", Underscored(b.clusterName))
    ensures SecurityProperties().Keys == {"networkaddress.cache.negative.ttl", "networkaddress.cache.ttl"}
    ensures HasText(SecurityProperties(), "networkaddress.cache.negative.ttl", "0")
    ensures HasText(SecurityProperties(), "networkaddress.cache.ttl", "30")
  {
  }

  /** A built ConfigMap holds the config.properties of the build, node.properties with the cluster's name,
      the name-lookup times, the log level, and Vector's file exactly when an aggregator is named;
      no catalog ever takes one of these names. */
  lemma BuiltFiles(b: ConfigInput, env: Environment, items: Items)
    returns (p: Properties, node: Properties, lookup: Properties)
    requires PossibleItems(b, env, items)
    ensures PossibleProperties(b, env.api, p)
    ensures "config.properties" in items && items["config.properties"] == PropertiesItem(p)
    ensures "node.properties" in items && items["node.properties"] == PropertiesItem(node)
    ensures node.Keys == {"node.environment"} && HasText(node, "node.environment", Underscored(b.clusterName))
    ensures "secret.properties" in items && items["secret.properties"] == PropertiesItem(lookup)
    ensures HasText(lookup, "networkaddress.cache.negative.ttl", "0")
            && HasText(lookup, "networkaddress.cache.ttl", "30")
    ensures "log.properties" in items && items["log.properties"] == TextItem("=info\n")
    ensures "vector.yaml" in items
            <==> b.clusterConfig.Some? && b.clusterConfig.value.vectorAggregatorConfigMapName != ""
    ensures "vector.yaml" in items ==> env.vectorYaml.Some? && items["vector.yaml"] == TextItem(env.vectorYaml.value)
  {
    var properties, catalogs :| PossibleProperties(b, env.api, properties) && env.marshals(properties)
                                && IsCatalogItems(Catalogs(b.clusterConfig), env.marshals, catalogs)
                                && items == FixedItems(b, properties, VectorText(b, env)) + catalogs;
    p, node, lookup := properties, NodeProperties(b), SecurityProperties();
    FixedFiles(b, p, VectorText(b, env));
    SmallFiles(b);
    forall f | f in FIXED_NAMES
      ensures var fixed := FixedItems(b, p, VectorText(b, env));
              (f in items <==> f in fixed) && (f in fixed ==> items[f] == fixed[f])
    {
      FixedFileKept(b, env, p, catalogs, f);
    }
    FixedNamesListed();
  }

  lemma FixedNamesListed()
    ensures {"config.properties", "node.properties", "secret.properties", "log.properties",
             "vector.yaml"} <= FIXED_NAMES
  {
  }

  /* ----- From the spec to the pod's volumes ----- */

  lemma AskedVolumes(b: StatefulSetInput, api: Snapshot, s: StatefulSet, a: Authenticator)
    requires PossibleStatefulSet(b, api, s) && AskedFor(api, AuthenticationSpecs(b.clusterConfig), a)
    ensures forall v <- Volumes(a) :: v in s.volumes
    ensures forall m <- VolumeMounts(a) :: m in s.container.mounts
  {
    var list := Resolved(api, AuthenticationSpecs(b.clusterConfig));
    var v, c, m, e :| BuiltFrom(b, api, s, v, c, m, e);
    ResolvedExactly(api, AuthenticationSpecs(b.clusterConfig), a);
    PermutationKeepsElements(v, list);
    PermutationKeepsElements(m, list);
    forall x | x in Volumes(a)
      ensures x in s.volumes
    {
      FlatMapMembers(Volumes, v, x);
    }
    forall x | x in VolumeMounts(a)
      ensures x in s.container.mounts
    {
      FlatMapMembers(VolumeMounts, m, x);
    }
  }

  /** The users of a Static class are mounted from the secret the class names. */
  lemma StaticUsersAreMounted(b: StatefulSetInput, api: Snapshot, s: StatefulSet, i: nat, users: StaticProvider)
    returns (name: string)
    requires PossibleStatefulSet(b, api, s)
    requires b.clusterConfig.Some? && i < |b.clusterConfig.value.authentication|
    requires AsksFor(api, b.clusterConfig.value.authentication[i], Static(users))
    ensures Volume(name, SecretSource(users.userCredentialsSecret)) in s.volumes
    ensures VolumeMount(name, ["kubedoop", "auth-secrets"]) in s.container.mounts
  {
    var a := Static(users);
    Asked(api, b.clusterConfig.value.authentication, i, a);
    AskedVolumes(b, api, s, a);
    name := Volumes(a)[0].name;
    JoinSegment(KUBEDOOP_ROOT, "auth-secrets");
    assert KUBEDOOP_ROOT + ["auth-secrets"] == ["kubedoop", "auth-secrets"];
    assert Volumes(a)[0] in Volumes(a) && VolumeMounts(a)[0] in VolumeMounts(a);
  }

  /** The bind credentials of an LDAP class are mounted, below the TLS directory, from a volume of the
      secret class it names, whose scope annotation reads back as the class's scope exactly when no
      service name holds a comma. */
  lemma LdapCredentialsAreMounted(b: StatefulSetInput, api: Snapshot, s: StatefulSet, i: nat, ldap: LdapProvider)
    returns (v: Volume)
    requires PossibleStatefulSet(b, api, s)
    requires b.clusterConfig.Some? && i < |b.clusterConfig.value.authentication|
    requires AsksFor(api, b.clusterConfig.value.authentication[i], Ldap(ldap))
    ensures v in s.volumes && v.source.SecretClassVolume? && v.source.secretClass == ldap.secretClass
    ensures ldap.scope.None? ==> v.source.scope == ""
    ensures ldap.scope.Some? ==> (DecodeScope(v.source.scope) == ldap.scope.value
                                  <==> forall name <- ldap.scope.value.services :: ',' !in name)
    ensures VolumeMount(v.name, PathJoin(["kubedoop", "tls"], ldap.secretClass)) in s.container.mounts
  {
    var a := Ldap(ldap);
    Asked(api, b.clusterConfig.value.authentication, i, a);
    AskedVolumes(b, api, s, a);
    v := Volumes(a)[0];
    assert Volumes(a)[0] in Volumes(a) && VolumeMounts(a)[0] in VolumeMounts(a);
    if ldap.scope.Some? {
      LdapScopeDecode(ldap.scope.value);
    }
  }

  lemma PodAndNode()
    ensures DecodeScope("pod,node") == SecretScope(true, true, [])
  {
    var scope := SecretScope(true, true, []);
    assert ScopeTokens(scope) == ["pod", "node"];
    assert ["pod", "node"][1..] == ["node"];
    assert Join(["pod", "node"], ',') == "pod,node";
    LdapScopeDecode(scope);
  }

  lemma TlsVolumeNamed(tls: bool, list: seq<Authenticator>, name: string)
    requires name in ["server-tls", "internal-tls"]
    ensures name in OwnNames(tls, list) <==> tls
    ensures name != DATA_CLAIM
  {
    assert name[0] == 's' || name[0] == 'i';
    if tls {
      assert PlainVolumeNames(true) == ["log", "client-tls", "server-tls", "internal-tls"];
    } else {
      assert forall n <- OwnNames(tls, list) :: n[0] != 's' && n[0] != 'i';
    }
  }

  /** The pod has the volumes for the server's and the internal keystore exactly under TLS. */
  lemma TlsVolumesExactlyUnderTls(b: StatefulSetInput, api: Snapshot, s: StatefulSet, name: string)
    requires PossibleStatefulSet(b, api, s) && name in ["server-tls", "internal-tls"]
    ensures name in VolumeNames(s.volumes) <==> b.clusterConfig.Some? && b.clusterConfig.value.tls.Some?
  {
    OwnName(b, api, s, name);
    TlsVolumeNamed(EnabledTls(b.clusterConfig), Resolved(api, AuthenticationSpecs(b.clusterConfig)), name);
    var v, c, m, e :| BuiltFrom(b, api, s, v, c, m, e);
    assert s.claims == [DATA_CLAIM];
  }

  /** Both are of the secret class the spec names for the server, `tls` if it names none, are scoped to
      pod and node, and are mounted where config.properties expects the keystores. */
  lemma TlsClassIsMounted(b: StatefulSetInput, api: Snapshot, s: StatefulSet, internal: bool) returns (v: Volume)
    requires PossibleStatefulSet(b, api, s)
    requires b.clusterConfig.Some? && b.clusterConfig.value.tls.Some?
    ensures v in s.volumes && v.name == (if internal then "internal-tls" else "server-tls")
    ensures v.source.SecretClassVolume? && DecodeScope(v.source.scope) == SecretScope(true, true, [])
    ensures var named := b.clusterConfig.value.tls.value.serverSecretClass;
            v.source.secretClass == (if named == "" then "tls" else named)
    ensures VolumeMount(v.name, ["kubedoop", "tls", if internal then "internal" else "server"]) in s.container.mounts
  {
    var i := if internal then 1 else 0;
    v := TlsVolumes(b.clusterConfig.value.tls.value)[i];
    assert s.volumes[3 + i] == v;
    assert s.container.mounts[4 + i] == BaseMounts(true)[4 + i];
    assert KUBEDOOP_TLS_DIR + ["server"] == ["kubedoop", "tls", "server"];
    assert KUBEDOOP_TLS_DIR + ["internal"] == ["kubedoop", "tls", "internal"];
    PodAndNode();
  }

  /** The directories the start-up script reads and writes are mounted from the volumes meant for them:
      the ConfigMap to copy from, the data directory, the logs with the shutdown marker, and the
      client truststore. */
  lemma ScriptDirectoriesAreMounted(b: StatefulSetInput, api: Snapshot, s: StatefulSet)
    requires PossibleStatefulSet(b, api, s)
    ensures VolumeMount("config", ["kubedoop", "mount", "config"]) in s.container.mounts
    ensures VolumeMount("log", ["kubedoop", "log"]) in s.container.mounts
    ensures VolumeMount("client-tls", ["kubedoop", "tls", "client"]) in s.container.mounts
    ensures s.claims == ["data"] && VolumeMount("data", ["kubedoop", "data"]) in s.container.mounts
    ensures Volume("config", ConfigMapSource(GroupFullName(b.clusterName, b.roleName, b.roleGroupName))) in s.volumes
    ensures exists v <- s.volumes :: v.name == "log" && v.source.EmptyDir?
    ensures exists v <- s.volumes :: v.name == "client-tls" && v.source.EmptyDir?
    ensures s.container.name == b.roleName
  {
    assert s.container.mounts[0].name == "config" && s.container.mounts[1].name == "data";
    assert s.container.mounts[2].name == "log" && s.container.mounts[3].name == "client-tls";
    assert KUBEDOOP_TLS_DIR + ["client"] == ["kubedoop", "tls", "client"];
    assert s.volumes[0].name == "config" && s.volumes[1].name == "log" && s.volumes[2].name == "client-tls";
  }
}
