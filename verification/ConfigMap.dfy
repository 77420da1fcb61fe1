/** The ConfigMap of a role group: config.properties with the merged authentication
    properties, the fixed items and one file per catalog. */
module ConfigMaps {
  import opened Outcomes
  import opened Orders
  import opened Spec
  import opened Text
  import opened Names
  import opened HeapSize
  import opened Authentication
  import opened Contributions
  import opened Aggregation

  /** Properties are compared as maps; how they are laid out in a file is not part of this model. */
  datatype Item =
    | PropertiesItem(properties: Properties)
    | JvmConfig(xmx: string, xms: string)
    | TextItem(text: string)

  type Items = map<string, Item>

  type CatalogSpecs = map<string, map<string, string>>

  /** The fields of a ConfigMap builder. */
  datatype ConfigInput = ConfigInput(
    clusterName: string,
    roleName: string,
    roleGroupName: string,
    coordinatorFqdn: string,
    clusterConfig: Option<ClusterConfigSpec>,
    trinoConfig: Option<ConfigSpec>)

  /** What a build reads from outside: the API snapshot, which property objects can be
      marshalled, and the outcome of rendering the Vector configuration. */
  datatype Environment = Environment(
    api: Snapshot,
    marshals: Properties -> bool,
    vectorYaml: Option<string>)

  const VECTOR_FILE := "vector.yaml"

  /** The default limit, `2G`, read as a decimal quantity. */
  const DEFAULT_JVM_MEMORY: int := 2_000_000_000

  /* ----- Specification ----- */

  function Scheme(tls: bool): string { if tls then "https" else "http" }

  function ServerPort(tls: bool): nat { if tls then HTTPS_PORT else HTTP_PORT }

  function DiscoveryUri(b: ConfigInput): string {
    var tls := EnabledTls(b.clusterConfig);
    Scheme(tls) + "://" + b.coordinatorFqdn + ":" + Itoa(ServerPort(tls))
  }

  const SERVER_TLS_MOUNT_PATH: Path := KUBEDOOP_TLS_DIR + ["server"]
  const SERVER_KEYSTORE := FilePath(SERVER_TLS_MOUNT_PATH, "keystore.p12")
  const SERVER_TRUSTSTORE := FilePath(SERVER_TLS_MOUNT_PATH, "truststore.p12")
  const DEFAULT_TLS_PASSPHRASE := "changeit"

  function TlsProperties(): Properties {
    map[
      "internal-communication.https.required" := Literal("true"),
      "internal-communication.shared-secret" := EnvRef(INTERNAL_SHARED_SECRET_ENV),
      "http-server.https.enabled" := Literal("true"),
      "http-server.https.port" := Literal(Itoa(HTTPS_PORT)),
      "http-server.https.keystore.path" := SERVER_KEYSTORE,
      "http-server.https.keystore.key" := Literal(DEFAULT_TLS_PASSPHRASE),
      "http-server.https.truststore.path" := SERVER_TRUSTSTORE,
      "http-server.https.truststore.key" := Literal(DEFAULT_TLS_PASSPHRASE),
      "internal-communication.https.keystore.path" := SERVER_KEYSTORE,
      "internal-communication.https.keystore.key" := Literal(DEFAULT_TLS_PASSPHRASE),
      "internal-communication.https.truststore.path" := SERVER_TRUSTSTORE,
      "internal-communication.https.truststore.key" := Literal(DEFAULT_TLS_PASSPHRASE)]
  }

  function MemoryProperties(trinoConfig: Option<ConfigSpec>): Properties {
    if trinoConfig.Some? then
      map["query.max-memory" := Literal(trinoConfig.value.queryMaxMemory),
          "query.max-memory-per-node" := Literal(trinoConfig.value.queryMaxMemoryPerNode)]
    else map["query.max-memory" := Literal("50GB")]
  }

  /** The properties every role group has, whether or not TLS is enabled. */
  function PlainProperties(b: ConfigInput): Properties {
    MemoryProperties(b.trinoConfig)
    + map["coordinator" := Literal(if b.roleName == COORDINATOR then "true" else "false"),
          "node-scheduler.include-coordinator" := Literal("false"),
          "node.internal-address-source" := Literal("FQDN"),
          "http-server.log.enabled" := Literal("false"),
          "discovery.uri" := Literal(DiscoveryUri(b)),
          "log.compression" := Literal("none"),
          "log.format" := Literal("json"),
          "log.max-size" := Literal("5MB"),
          "log.max-total-size" := Literal("10MB"),
          "log.path" := FilePath(KUBEDOOP_LOG_DIR + ["trino"], b.roleName + ".airlift.json")]
  }

  function TransportProperties(tls: bool): Properties {
    if tls then TlsProperties() else map["http-server.http.port" := Literal(Itoa(HTTP_PORT))]
  }

  /** config.properties before authentication. */
  function BaseProperties(b: ConfigInput): Properties {
    PlainProperties(b) + TransportProperties(EnabledTls(b.clusterConfig))
  }

  /** Only the coordinator merges authentication properties. */
  function MergedSpecs(b: ConfigInput): seq<AuthenticationSpec> {
    if b.roleName == COORDINATOR then AuthenticationSpecs(b.clusterConfig) else []
  }

  predicate CanConfigure(b: ConfigInput, api: Snapshot) {
    (forall i :: 0 <= i < |MergedSpecs(b)| ==> !Stops(api, MergedSpecs(b), i))
    && forall a <- Resolved(api, MergedSpecs(b)) :: Configurable(a)
  }

  /** The config.properties a build may produce with the authenticators in one order. */
  ghost predicate PossibleProperties(b: ConfigInput, api: Snapshot, p: Properties) {
    exists list :: PossibleList(api, MergedSpecs(b), list) && Mergeable(list) && p == BaseProperties(b) + Merge(list)
  }

  function NodeProperties(b: ConfigInput): Properties {
    map["node.environment" := Literal(Underscored(b.clusterName))]
  }

  /** Every dash becomes an underscore and nothing else changes. */
  function Underscored(s: string): (r: string)
    ensures |r| == |s| && '-' !in r
    ensures forall i :: 0 <= i < |s| && s[i] == '-' ==> r[i] == '_'
    ensures forall i :: 0 <= i < |s| && s[i] != '-' ==> r[i] == s[i]
  {
    seq(|s|, i requires 0 <= i < |s| => if s[i] == '-' then '_' else s[i])
  }

  function SecurityProperties(): Properties {
    map["networkaddress.cache.negative.ttl" := Literal("0"), "networkaddress.cache.ttl" := Literal("30")]
  }

  /** The limit in force; None when the configuration's embedded pointer is nil, which the code
      follows without a test. */
  function MemoryLimit(trinoConfig: Option<ConfigSpec>): Option<int> {
    match trinoConfig
    case None => Some(DEFAULT_JVM_MEMORY)
    case Some(config) =>
      match config.roleGroupConfig
      case None => None
      case Some(RoleGroupConfigSpec(limit)) => if limit.Some? then limit else Some(DEFAULT_JVM_MEMORY)
  }

  predicate HasHeap(trinoConfig: Option<ConfigSpec>) {
    MemoryLimit(trinoConfig).Some? && MemoryLimit(trinoConfig).value >= MI
  }

  const CATALOG_PREFIX := "catalog-"
  const PROPERTIES_SUFFIX := ".properties"

  function CatalogFileName(catalog: string): string {
    CATALOG_PREFIX + catalog + PROPERTIES_SUFFIX
  }

  function CatalogProperties(entries: map<string, string>): Properties {
    map key <- entries :: Literal(entries[key])
  }

  function Catalogs(clusterConfig: Option<ClusterConfigSpec>): CatalogSpecs {
    if clusterConfig.Some? then clusterConfig.value.catalogProperties else map[]
  }

  predicate ItemsFor(catalogs: CatalogSpecs, names: set<string>, marshals: Properties -> bool, items: Items)
    requires names <= catalogs.Keys
  {
    (forall c <- names :: marshals(CatalogProperties(catalogs[c])) ==>
       CatalogFileName(c) in items && items[CatalogFileName(c)] == PropertiesItem(CatalogProperties(catalogs[c])))
    && (forall f <- items :: exists c <- names :: marshals(CatalogProperties(catalogs[c])) && f == CatalogFileName(c))
  }

  /** `items` has one entry per catalog that can be marshalled, under the catalog's file name,
      and nothing else. */
  predicate IsCatalogItems(catalogs: CatalogSpecs, marshals: Properties -> bool, items: Items) {
    ItemsFor(catalogs, catalogs.Keys, marshals, items)
  }

  function FixedItems(b: ConfigInput, p: Properties, vectorYaml: string): Items
    requires HasHeap(b.trinoConfig)
  {
    var heap := HeapOption(MemoryLimit(b.trinoConfig).value);
    var fixed :=
      map["config.properties" := PropertiesItem(p),
          "node.properties" := PropertiesItem(NodeProperties(b)),
          "secret.properties" := PropertiesItem(SecurityProperties()),
          "jvm.config" := JvmConfig(heap, heap),
          "log.properties" := TextItem("=info\n")];
    if UsesVector(b.clusterConfig) then fixed[VECTOR_FILE := TextItem(vectorYaml)] else fixed
  }

  predicate VectorReady(b: ConfigInput, env: Environment) {
    UsesVector(b.clusterConfig) ==> env.vectorYaml.Some?
  }

  /** The fixed items other than config.properties can be made. */
  predicate CanFix(b: ConfigInput, env: Environment) {
    env.marshals(NodeProperties(b)) && env.marshals(SecurityProperties())
    && HasHeap(b.trinoConfig) && VectorReady(b, env)
  }

  /** Every content of the ConfigMap one successful build may produce. */
  ghost predicate PossibleItems(b: ConfigInput, env: Environment, items: Items) {
    CanFix(b, env)
    && exists p, catalogs ::
      PossibleProperties(b, env.api, p) && env.marshals(p)
      && IsCatalogItems(Catalogs(b.clusterConfig), env.marshals, catalogs)
      && items == FixedItems(b, p, VectorText(b, env)) + catalogs
  }

  function VectorText(b: ConfigInput, env: Environment): string {
    if env.vectorYaml.Some? then env.vectorYaml.value else ""
  }

  /* ----- The builder ----- */

  class ConfigMapBuilder {
    const input: ConfigInput
    var items: Items

    constructor (input: ConfigInput)
      ensures this.input == input && items == map[]
    {
      this.input := input;
      items := map[];
    }

    method GetConfigProperties(api: Snapshot) returns (r: Outcome<Properties>)
      ensures r.Ok? <==> CanConfigure(input, api)
      ensures r.Ok? ==> PossibleProperties(input, api, r.value)
    {
      var b := input;
      var p := BaseProperties(b);
      var list := [];
      if b.clusterConfig.Some? && b.roleName == COORDINATOR {
        assert MergedSpecs(b) == b.clusterConfig.value.authentication;
        var authentication := NewAuthentication(api, b.clusterConfig.value.authentication);
        if !authentication.Ok? {
          return Propagate(authentication);
        }
        list := authentication.value;
      }
      var merged := Aggregation.GetConfigProperties(list);
      PermutationKeepsElements(list, Resolved(api, MergedSpecs(b)));
      if !merged.Ok? {
        return Panic;
      }
      p := AddAll(p, merged.value);
      r := Ok(p);
    }

    /** `added` tracks what this build has put into the items so far. */
    method AddItem(name: string, item: Item, ghost before: Items, ghost added: Items)
      requires items == before + added
      modifies this
      ensures items == old(items)[name := item] == before + added[name := item]
    {
      items := items[name := item];
    }

    /** Adds the fixed items one by one; an error or a crash leaves the earlier ones added. */
    method AddFixedItems(env: Environment, p: Properties) returns (r: Outcome<bool>)
      modifies this
      ensures r.Ok? <==> env.marshals(p) && CanFix(input, env)
      ensures r.Ok? ==> items == old(items) + FixedItems(input, p, VectorText(input, env))
      ensures old(items).Keys <= items.Keys
    {
      ghost var before, added := items, map[];
      if !env.marshals(p) {
        return Err(MarshalFailed);
      }
      AddItem("config.properties", PropertiesItem(p), before, added);
      added := added["config.properties" := PropertiesItem(p)];
      if !env.marshals(NodeProperties(input)) {
        return Err(MarshalFailed);
      }
      AddItem("node.properties", PropertiesItem(NodeProperties(input)), before, added);
      added := added["node.properties" := PropertiesItem(NodeProperties(input))];
      if !env.marshals(SecurityProperties()) {
        return Err(MarshalFailed);
      }
      AddItem("secret.properties", PropertiesItem(SecurityProperties()), before, added);
      added := added["secret.properties" := PropertiesItem(SecurityProperties())];
      if MemoryLimit(input.trinoConfig).None? {
        return Panic;
      }
      var heap := GetHeapSize(MemoryLimit(input.trinoConfig).value, JVM_HEAP_FACTOR);
      if heap.Panic? {
        return Panic;
      }
      AddItem("jvm.config", JvmConfig(heap.value, heap.value), before, added);
      added := added["jvm.config" := JvmConfig(heap.value, heap.value)];
      AddItem("log.properties", TextItem("=info\n"), before, added);
      added := added["log.properties" := TextItem("=info\n")];
      if UsesVector(input.clusterConfig) {
        if env.vectorYaml.None? {
          return Err(VectorFailed);
        }
        AddItem(VECTOR_FILE, TextItem(env.vectorYaml.value), before, added);
      }
      r := Ok(true);
    }

    method Build(env: Environment) returns (r: Outcome<Items>)
      modifies this
      ensures r.Ok? ==> items == r.value
                        && exists built :: PossibleItems(input, env, built) && items == old(items) + built
      ensures r.Ok? ==> CanConfigure(input, env.api) && CanFix(input, env)
      ensures Buildable(input, env) ==> r.Ok?
      ensures old(items).Keys <= items.Keys
    {
      var configProperties := GetConfigProperties(env.api);
      if !configProperties.Ok? {
        return Propagate(configProperties);
      }
      var added := AddFixedItems(env, configProperties.value);
      if !added.Ok? {
        return Propagate(added);
      }
      var catalogs := GetCatalogProperties(env.marshals);
      items := AddAll(items, catalogs);
      ghost var built := PossibleBuild(input, env, configProperties.value, catalogs, old(items));
      r := Ok(items);
    }

    /** Nested loops over catalogs and their keys, each in any order; a catalog that cannot be
        marshalled is skipped. */
    method GetCatalogProperties(marshals: Properties -> bool) returns (catalogData: Items)
      ensures IsCatalogItems(Catalogs(input.clusterConfig), marshals, catalogData)
    {
      var catalogs := Catalogs(input.clusterConfig);
      catalogData := map[];
      var todo := catalogs.Keys;
      while todo != {}
        invariant todo <= catalogs.Keys
        invariant ItemsFor(catalogs, catalogs.Keys - todo, marshals, catalogData)
        decreases |todo|
      {
        var catalog :| catalog in todo;
        var p := AddAll(map[], CatalogProperties(catalogs[catalog]));
        assert p == CatalogProperties(catalogs[catalog]);
        assert catalogs.Keys - (todo - {catalog}) == catalogs.Keys - todo + {catalog};
        AddingCatalog(catalogs, catalogs.Keys - todo, catalog, marshals, catalogData);
        if marshals(p) {
          catalogData := catalogData[CatalogFileName(catalog) := PropertiesItem(p)];
        }
        todo := todo - {catalog};
      }
      assert catalogs.Keys - {} == catalogs.Keys;
    }
  }

  /** No step of the build can fail, whatever the order of the authenticators. */
  ghost predicate Buildable(b: ConfigInput, env: Environment) {
    CanConfigure(b, env.api) && CanFix(b, env)
    && forall p :: PossibleProperties(b, env.api, p) ==> env.marshals(p)
  }

  /* ----- Authentication never overwrites a base key ----- */

  const PLAIN_KEYS: set<string> := {
    "query.max-memory", "query.max-memory-per-node", "coordinator", "node-scheduler.include-coordinator",
    "node.internal-address-source", "http-server.log.enabled", "discovery.uri", "log.compression",
    "log.format", "log.max-size", "log.max-total-size", "log.path", "http-server.http.port"}

  const TLS_KEYS: set<string> := {
    "internal-communication.https.required", "internal-communication.shared-secret",
    "http-server.https.enabled", "http-server.https.port",
    "http-server.https.keystore.path", "http-server.https.keystore.key",
    "http-server.https.truststore.path", "http-server.https.truststore.key",
    "internal-communication.https.keystore.path", "internal-communication.https.keystore.key",
    "internal-communication.https.truststore.path", "internal-communication.https.truststore.key"}

  lemma BaseKeys(b: ConfigInput)
    ensures BaseProperties(b).Keys <= PLAIN_KEYS + TLS_KEYS
  {
    assert PlainProperties(b).Keys <= PLAIN_KEYS;
    assert TlsProperties().Keys <= TLS_KEYS;
  }

  lemma AuthenticationKeysAreNew(key: string)
    requires key in OIDC_KEYS || key in LDAP_KEYS
    ensures key !in PLAIN_KEYS && key !in TLS_KEYS
  {
    assert key !in PLAIN_KEYS;
  }

  lemma MergedKeyIsAuthentication(list: seq<Authenticator>, key: string)
    requires Mergeable(list) && key in Merge(list)
    ensures key in OIDC_KEYS || key in LDAP_KEYS
  {
    KindsShareOnlyType(list);
    MergeLookup(ConfigProperties, list, AUTHENTICATION_TYPE, key);
    var a :| a in list && key in ConfigProperties(a);
    PropertyKeys(a);
  }

  lemma MergedKeysAreNew(b: ConfigInput, list: seq<Authenticator>, key: string)
    requires Mergeable(list) && key in Merge(list)
    ensures key !in BaseProperties(b)
  {
    MergedKeyIsAuthentication(list, key);
    AuthenticationKeysAreNew(key);
    BaseKeys(b);
  }

  /** Whatever the order of the authenticators, every base key keeps its base value. */
  lemma MergeKeepsBase(b: ConfigInput, api: Snapshot, p: Properties)
    requires PossibleProperties(b, api, p)
    ensures forall key <- BaseProperties(b) :: key in p && p[key] == BaseProperties(b)[key]
  {
    var list :| PossibleList(api, MergedSpecs(b), list) && Mergeable(list) && p == BaseProperties(b) + Merge(list);
    forall key | key in Merge(list)
      ensures key !in BaseProperties(b)
    {
      MergedKeysAreNew(b, list, key);
    }
  }

  /* ----- Who gets authentication ----- */

  lemma PossibleMembers(b: ConfigInput, api: Snapshot, list: seq<Authenticator>)
    requires PossibleList(api, MergedSpecs(b), list)
    ensures forall a ::
              a in list <==> b.roleName == COORDINATOR && AskedFor(api, AuthenticationSpecs(b.clusterConfig), a)
  {
    PermutationKeepsElements(list, Resolved(api, MergedSpecs(b)));
    forall a
      ensures a in list <==> b.roleName == COORDINATOR && AskedFor(api, AuthenticationSpecs(b.clusterConfig), a)
    {
      ResolvedExactly(api, MergedSpecs(b), a);
    }
  }

  lemma TypeIsNotBase(b: ConfigInput)
    ensures AUTHENTICATION_TYPE !in BaseProperties(b)
  {
    AuthenticationKeysAreNew(AUTHENTICATION_TYPE);
    BaseKeys(b);
  }

  lemma MergedHasType(list: seq<Authenticator>)
    requires Mergeable(list)
    ensures AUTHENTICATION_TYPE in Merge(list) <==> list != []
  {
    if list != [] {
      MergedTypeIsLast(list);
    }
  }

  /** Exactly a coordinator whose spec asks for an authenticator has authentication switched on, and no
      other role has any authentication key. */
  lemma AuthenticationExactlyOnCoordinator(b: ConfigInput, api: Snapshot, p: Properties)
    requires PossibleProperties(b, api, p)
    ensures AUTHENTICATION_TYPE in p
            <==> b.roleName == COORDINATOR && exists a :: AskedFor(api, AuthenticationSpecs(b.clusterConfig), a)
    ensures b.roleName != COORDINATOR ==> forall key <- p :: key !in OIDC_KEYS && key !in LDAP_KEYS
  {
    var list :| PossibleList(api, MergedSpecs(b), list) && Mergeable(list) && p == BaseProperties(b) + Merge(list);
    PossibleMembers(b, api, list);
    TypeIsNotBase(b);
    MergedHasType(list);
    assert list != [] ==> list[0] in list;
    forall key | key in p && (key in OIDC_KEYS || key in LDAP_KEYS)
      ensures list != []
    {
      AuthenticationKeysAreNew(key);
      BaseKeys(b);
    }
  }

  /** A coordinator's config.properties has every property of every authenticator its spec asks for, with
      that authenticator's value off the shared type key. */
  lemma AskedPropertiesArrive(b: ConfigInput, api: Snapshot, p: Properties, a: Authenticator, key: string)
    requires PossibleProperties(b, api, p) && b.roleName == COORDINATOR
    requires AskedFor(api, AuthenticationSpecs(b.clusterConfig), a) && key in ConfigProperties(a)
    ensures key in p && (key != AUTHENTICATION_TYPE ==> p[key] == ConfigProperties(a)[key])
  {
    var list :| PossibleList(api, MergedSpecs(b), list) && Mergeable(list) && p == BaseProperties(b) + Merge(list);
    PossibleMembers(b, api, list);
    KindsShareOnlyType(list);
    MergeLookup(ConfigProperties, list, AUTHENTICATION_TYPE, key);
  }

  /** And every authentication key it has is one that such an authenticator gave it. */
  lemma ArrivedPropertiesWereAsked(b: ConfigInput, api: Snapshot, p: Properties, key: string) returns (a: Authenticator)
    requires PossibleProperties(b, api, p) && key in p && (key in OIDC_KEYS || key in LDAP_KEYS)
    ensures AskedFor(api, AuthenticationSpecs(b.clusterConfig), a)
    ensures key in ConfigProperties(a) && p[key] == ConfigProperties(a)[key]
  {
    var list :| PossibleList(api, MergedSpecs(b), list) && Mergeable(list) && p == BaseProperties(b) + Merge(list);
    PossibleMembers(b, api, list);
    AuthenticationKeysAreNew(key);
    BaseKeys(b);
    a := MergedSource(list, key);
  }

  /** Every merged property is what some member gave it. */
  lemma MergedSource(list: seq<Authenticator>, key: string) returns (a: Authenticator)
    requires Mergeable(list) && key in Merge(list)
    ensures a in list && key in ConfigProperties(a) && Merge(list)[key] == ConfigProperties(a)[key]
  {
    KindsShareOnlyType(list);
    MergeLookup(ConfigProperties, list, AUTHENTICATION_TYPE, key);
    if key == AUTHENTICATION_TYPE {
      a := list[|list| - 1];
      TypeValue(a);
      TypeKeyFromLast(ConfigProperties, list, key);
    } else {
      a :| a in list && key in ConfigProperties(a);
    }
  }

  /** Building config.properties fails on no order exactly when the role is not the coordinator, or the
      classes were read, ask for at most one authenticator of each type, for no Static one, and
      for OIDC only with a client configuration. */
  lemma CanConfigureExactly(b: ConfigInput, api: Snapshot)
    ensures var specs := AuthenticationSpecs(b.clusterConfig);
            CanConfigure(b, api)
            <==> (b.roleName == COORDINATOR ==>
                    (forall i :: 0 <= i < |specs| ==> WasRead(api, specs[i])) && !TwoOfOneType(api, specs)
                    && forall a :: AskedFor(api, specs, a) ==> !a.Static? && (a.Oidc? ==> a.config.Some?))
  {
    var specs := AuthenticationSpecs(b.clusterConfig);
    AcceptedExactly(api, specs);
    assert Resolved(api, []) == [];
    assert MergedSpecs(b) == if b.roleName == COORDINATOR then specs else [];
    if forall a <- Resolved(api, specs) :: Configurable(a) {
      forall a | AskedFor(api, specs, a)
        ensures !a.Static? && (a.Oidc? ==> a.config.Some?)
      {
        ResolvedExactly(api, specs, a);
        assert Configurable(a);
      }
    } else {
      var a :| a in Resolved(api, specs) && !Configurable(a);
      ResolvedExactly(api, specs, a);
    }
  }

  lemma PlainRoleAndLimits(b: ConfigInput)
    ensures "coordinator" in PlainProperties(b)
            && (PlainProperties(b)["coordinator"] == Literal("true") <==> b.roleName == COORDINATOR)
    ensures "query.max-memory" in PlainProperties(b)
    ensures PlainProperties(b)["query.max-memory"]
            == Literal(if b.trinoConfig.Some? then b.trinoConfig.value.queryMaxMemory else "50GB")
    ensures "query.max-memory-per-node" in PlainProperties(b) <==> b.trinoConfig.Some?
    ensures b.trinoConfig.Some? ==>
            PlainProperties(b)["query.max-memory-per-node"] == Literal(b.trinoConfig.value.queryMaxMemoryPerNode)
  {
  }

  lemma RoleAndLimitKeys()
    ensures {"coordinator", "query.max-memory", "query.max-memory-per-node"} !! TLS_KEYS
  {
  }

  lemma PerNodeLimitIsBase(b: ConfigInput, api: Snapshot, p: Properties)
    requires PossibleProperties(b, api, p)
    ensures "query.max-memory-per-node" in p ==> "query.max-memory-per-node" in BaseProperties(b)
  {
    var key := "query.max-memory-per-node";
    var list :| PossibleList(api, MergedSpecs(b), list) && Mergeable(list) && p == BaseProperties(b) + Merge(list);
    if key in Merge(list) {
      MergedKeyIsAuthentication(list, key);
      AuthenticationKeysAreNew(key);
      assert false;
    }
  }

  /** Whatever is merged in, config.properties marks exactly the coordinator as one and carries the
      group's own query limits, or the default overall limit alone when none are configured. */
  lemma RoleAndLimits(b: ConfigInput, api: Snapshot, p: Properties)
    requires PossibleProperties(b, api, p)
    ensures "coordinator" in p && (p["coordinator"] == Literal("true") <==> b.roleName == COORDINATOR)
    ensures "query.max-memory" in p
    ensures p["query.max-memory"] == Literal(if b.trinoConfig.Some? then b.trinoConfig.value.queryMaxMemory else "50GB")
    ensures "query.max-memory-per-node" in p <==> b.trinoConfig.Some?
    ensures b.trinoConfig.Some? ==>
              p["query.max-memory-per-node"] == Literal(b.trinoConfig.value.queryMaxMemoryPerNode)
  {
    MergeKeepsBase(b, api, p);
    PerNodeLimitIsBase(b, api, p);
    PlainRoleAndLimits(b);
    RoleAndLimitKeys();
    assert TlsProperties().Keys <= TLS_KEYS;
    assert forall key <- {"coordinator", "query.max-memory", "query.max-memory-per-node"} ::
        key !in TransportProperties(EnabledTls(b.clusterConfig));
  }

  lemma PossibleBuild(b: ConfigInput, env: Environment, p: Properties, catalogs: Items, before: Items)
    returns (built: Items)
    requires CanFix(b, env) && PossibleProperties(b, env.api, p) && env.marshals(p)
    requires IsCatalogItems(Catalogs(b.clusterConfig), env.marshals, catalogs)
    ensures before + FixedItems(b, p, VectorText(b, env)) + catalogs == before + built
    ensures built == FixedItems(b, p, VectorText(b, env)) + catalogs
    ensures PossibleItems(b, env, built)
  {
    var fixed := FixedItems(b, p, VectorText(b, env));
    built := fixed + catalogs;
    SumAssociative(before, fixed, catalogs);
  }

  lemma SumAssociative<V>(a: map<string, V>, b: map<string, V>, c: map<string, V>)
    ensures a + b + c == a + (b + c)
  {
  }

  lemma ConfigItem(b: ConfigInput, p: Properties, vectorYaml: string)
    requires HasHeap(b.trinoConfig)
    ensures var fixed := FixedItems(b, p, vectorYaml);
            "config.properties" in fixed && fixed["config.properties"] == PropertiesItem(p)
  {
  }

  lemma JvmItem(b: ConfigInput, p: Properties, vectorYaml: string)
    requires HasHeap(b.trinoConfig)
    ensures var fixed := FixedItems(b, p, vectorYaml); var heap := HeapOption(MemoryLimit(b.trinoConfig).value);
            "jvm.config" in fixed && fixed["jvm.config"] == JvmConfig(heap, heap)
  {
  }

  lemma CatalogNameIsNotJvm(c: string)
    ensures CatalogFileName(c) != "jvm.config"
  {
    assert CatalogFileName(c)[0] == 'c';
  }

  /** More than 4/5 - 1/1024 and at most 4/5 of the limit. */
  predicate HeapFits(text: string, limit: int) {
    IsHeapText(text) && 5 * Denoted(text) <= 4 * limit && 5 * 1024 * Denoted(text) > (4 * 1024 - 5) * limit
  }

  lemma OptionFits(limit: int)
    requires limit >= MI
    ensures HeapFits(HeapOption(limit), limit)
  {
    HeapFraction(limit);
  }

  lemma BuiltHeap(b: ConfigInput, env: Environment, items: Items)
    requires PossibleItems(b, env, items)
    ensures HasHeap(b.trinoConfig)
    ensures var heap := HeapOption(MemoryLimit(b.trinoConfig).value);
            "jvm.config" in items && items["jvm.config"] == JvmConfig(heap, heap)
  {
    var p, catalogs :| PossibleProperties(b, env.api, p) && env.marshals(p)
                       && IsCatalogItems(Catalogs(b.clusterConfig), env.marshals, catalogs)
                       && items == FixedItems(b, p, VectorText(b, env)) + catalogs;
    forall c
      ensures CatalogFileName(c) != "jvm.config"
    {
      CatalogNameIsNotJvm(c);
    }
    JvmItem(b, p, VectorText(b, env));
    assert "jvm.config" !in catalogs;
  }

  /** Every built ConfigMap starts the JVM with equal initial and maximal heap, fitting the memory
      limit that the group's configuration sets, or 2G without a configuration or a limit in it. */
  lemma BuiltHeapFitsLimit(b: ConfigInput, env: Environment, items: Items) returns (limit: int)
    requires PossibleItems(b, env, items)
    ensures "jvm.config" in items && items["jvm.config"].JvmConfig?
            && items["jvm.config"].xmx == items["jvm.config"].xms
    ensures b.trinoConfig.Some? ==> b.trinoConfig.value.roleGroupConfig.Some?
    ensures if b.trinoConfig.Some? && b.trinoConfig.value.roleGroupConfig.value.memoryLimit.Some?
            then limit == b.trinoConfig.value.roleGroupConfig.value.memoryLimit.value
            else limit == 2_000_000_000
    ensures HeapFits(items["jvm.config"].xmx, limit)
  {
    BuiltHeap(b, env, items);
    limit := MemoryLimit(b.trinoConfig).value;
    OptionFits(limit);
  }

  lemma DiscoveryProperty(b: ConfigInput)
    ensures "discovery.uri" in BaseProperties(b) && BaseProperties(b)["discovery.uri"] == Literal(DiscoveryUri(b))
  {
    assert TlsProperties().Keys <= TLS_KEYS;
    DiscoveryKeyIsPlain();
  }

  lemma DiscoveryKeyIsPlain()
    ensures "discovery.uri" !in TLS_KEYS
  {
  }

  lemma AddingCatalog(catalogs: CatalogSpecs, done: set<string>, c: string, marshals: Properties -> bool, items: Items)
    requires done <= catalogs.Keys && c in catalogs && c !in done
    requires ItemsFor(catalogs, done, marshals, items)
    ensures var p := CatalogProperties(catalogs[c]);
            ItemsFor(catalogs, done + {c}, marshals,
                     if marshals(p) then items[CatalogFileName(c) := PropertiesItem(p)] else items)
  {
    forall c' | c' in done && CatalogFileName(c') == CatalogFileName(c)
      ensures false
    {
      CatalogNameInjective(c', c);
    }
  }

  lemma CatalogNameInjective(c: string, c': string)
    requires CatalogFileName(c) == CatalogFileName(c')
    ensures c == c'
  {
    CancelSuffix(CATALOG_PREFIX + c, CATALOG_PREFIX + c', PROPERTIES_SUFFIX);
    CancelPrefix(CATALOG_PREFIX, c, c');
  }
}
