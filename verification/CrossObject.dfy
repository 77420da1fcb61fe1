/** How the registered objects of one cluster fit together: names, endpoints and
    environment references. */
module CrossObject {
  import opened Outcomes
  import opened Orders
  import opened Spec
  import opened Text
  import opened Names
  import opened Authentication
  import opened Contributions
  import opened Aggregation
  import opened ConfigMaps
  import opened StatefulSets
  import opened Registration

  /* ----- Names ----- */

  predicate HasRoles(c: ClusterInput) {
    c.spec.coordinators.Some? && c.spec.workers.Some?
  }

  predicate IsService(r: Resource) {
    r.ServiceResource? || r.MetricsServiceResource?
  }

  predicate RoleGroupsOf(c: ClusterInput, role: string, g: string)
    requires HasRoles(c)
  {
    (role == COORDINATOR && g in CoordinatorGroups(c)) || (role == WORKER && g in WorkerGroups(c))
  }

  function RoleInputOf(c: ClusterInput, role: string, host: string): RoleInput
    requires HasRoles(c)
  {
    if role == COORDINATOR then CoordinatorRole(c, host) else WorkerRole(c, host)
  }

  /** Every resource of the inventory is the cluster Service, the secret, or one of a group's four. */
  lemma InventoryMember(c: ClusterInput, host: string, r: Resource) returns (role: string, g: string)
    requires HasRoles(c) && r in ClusterInventory(c, host)
    ensures r == ClusterService(c) || (r == SharedSecretResource(c) && EnabledTls(c.spec.clusterConfig))
            || (RoleGroupsOf(c, role, g) && r in GroupResources(RoleInputOf(c, role, host), g))
  {
    role, g := "", "";
    if r in RoleInventory(CoordinatorRole(c, host), CoordinatorGroups(c)) {
      role := COORDINATOR;
      g :| g in CoordinatorGroups(c) && r in GroupResources(CoordinatorRole(c, host), g);
    } else if r in RoleInventory(WorkerRole(c, host), WorkerGroups(c)) {
      role := WORKER;
      g :| g in WorkerGroups(c) && r in GroupResources(WorkerRole(c, host), g);
    }
  }

  lemma GroupMember(c: ClusterInput, host: string, role: string, g: string, r: Resource)
    requires HasRoles(c) && RoleGroupsOf(c, role, g) && r in GroupResources(RoleInputOf(c, role, host), g)
    ensures r in ClusterInventory(c, host)
  {
    assert r in ResourcesOf(RoleInputOf(c, role, host))(g);
  }

  /** No group of a role carries the name of another group of that role with the metrics suffix. */
  predicate NoMetricsSuffixClash(c: ClusterInput)
    requires HasRoles(c)
  {
    (forall g <- CoordinatorGroups(c) :: g + "-metrics" !in CoordinatorGroups(c))
    && (forall g <- WorkerGroups(c) :: g + "-metrics" !in WorkerGroups(c))
  }

  predicate ServiceNamesDistinct(c: ClusterInput, host: string)
    requires HasRoles(c)
  {
    forall x <- ClusterInventory(c, host), y <- ClusterInventory(c, host) ::
      IsService(x) && IsService(y) && x.name == y.name ==> x == y
  }

  lemma ClashingServices(c: ClusterInput, host: string, role: string, g: string)
    requires HasRoles(c) && RoleGroupsOf(c, role, g) && RoleGroupsOf(c, role, g + "-metrics")
    ensures !ServiceNamesDistinct(c, host)
  {
    var x := GroupResources(RoleInputOf(c, role, host), g)[2];
    var y := GroupResources(RoleInputOf(c, role, host), g + "-metrics")[1];
    GroupMember(c, host, role, g, x);
    GroupMember(c, host, role, g + "-metrics", y);
    MetricsNameCollides(c.clusterName, role, g, role, g + "-metrics");
  }

  lemma GroupServicesDistinct(c: ClusterInput, host: string, r: string, g: string, x: Resource, r': string, g': string,
                              y: Resource)
    requires HasRoles(c) && NoMetricsSuffixClash(c)
    requires RoleGroupsOf(c, r, g) && x in GroupResources(RoleInputOf(c, r, host), g)
    requires RoleGroupsOf(c, r', g') && y in GroupResources(RoleInputOf(c, r', host), g')
    requires IsService(x) && IsService(y) && x.name == y.name
    ensures x == y
  {
    MetricsNameCollides(c.clusterName, r, g, r', g');
    MetricsNameCollides(c.clusterName, r', g', r, g);
    if x.ServiceResource? && y.ServiceResource? {
      GroupNameInjective(c.clusterName, r, g, r', g');
    } else if x.MetricsServiceResource? && y.MetricsServiceResource? {
      CancelSuffix(GroupFullName(c.clusterName, r, g), GroupFullName(c.clusterName, r', g'), "-metrics");
      GroupNameInjective(c.clusterName, r, g, r', g');
    }
  }

  lemma ClusterServiceDistinct(c: ClusterInput, host: string, r: string, g: string, x: Resource)
    requires HasRoles(c) && RoleGroupsOf(c, r, g) && x in GroupResources(RoleInputOf(c, r, host), g) && IsService(x)
    ensures x.name != ClusterService(c).name
  {
    ClusterServiceNameUnique(c.clusterName, r, g);
    ClusterServiceNameUnique(c.clusterName, r, g + "-metrics");
    assert MetricsServiceName(c.clusterName, r, g) == GroupFullName(c.clusterName, r, g + "-metrics");
  }

  /** All Service names of a cluster are distinct exactly when no role has both g and g-metrics. */
  lemma ServiceNamesDistinctExactly(c: ClusterInput, host: string)
    requires HasRoles(c)
    ensures ServiceNamesDistinct(c, host) <==> NoMetricsSuffixClash(c)
  {
    if g :| g in CoordinatorGroups(c) && g + "-metrics" in CoordinatorGroups(c) {
      ClashingServices(c, host, COORDINATOR, g);
    } else if g :| g in WorkerGroups(c) && g + "-metrics" in WorkerGroups(c) {
      ClashingServices(c, host, WORKER, g);
    } else {
      forall x, y | x in ClusterInventory(c, host) && y in ClusterInventory(c, host) && IsService(x) && IsService(y)
        && x.name == y.name
        ensures x == y
      {
        var r, g := InventoryMember(c, host, x);
        var r', g' := InventoryMember(c, host, y);
        if x == ClusterService(c) || y == ClusterService(c) {
          if x != y {
            if x == ClusterService(c) {
              ClusterServiceDistinct(c, host, r', g', y);
            } else {
              ClusterServiceDistinct(c, host, r, g, x);
            }
          }
        } else {
          GroupServicesDistinct(c, host, r, g, x, r', g', y);
        }
      }
    }
  }

  function ConfigMapName(b: ConfigInput): string { GroupFullName(b.clusterName, b.roleName, b.roleGroupName) }

  function StatefulSetName(b: StatefulSetInput): string { GroupFullName(b.clusterName, b.roleName, b.roleGroupName) }

  /** ConfigMap names are always distinct. */
  lemma ConfigMapNamesDistinct(c: ClusterInput, host: string, x: ConfigInput, y: ConfigInput)
    requires HasRoles(c) && ConfigMapResource(x) in ClusterInventory(c, host)
             && ConfigMapResource(y) in ClusterInventory(c, host)
    requires ConfigMapName(x) == ConfigMapName(y)
    ensures x == y
  {
    var r, g := InventoryMember(c, host, ConfigMapResource(x));
    var r', g' := InventoryMember(c, host, ConfigMapResource(y));
    GroupNameInjective(c.clusterName, r, g, r', g');
  }

  /** StatefulSet names are always distinct. */
  lemma StatefulSetNamesDistinct(c: ClusterInput, host: string, x: StatefulSetInput, y: StatefulSetInput)
    requires HasRoles(c) && StatefulSetResource(x) in ClusterInventory(c, host)
             && StatefulSetResource(y) in ClusterInventory(c, host)
    requires StatefulSetName(x) == StatefulSetName(y)
    ensures x == y
  {
    var r, g := InventoryMember(c, host, StatefulSetResource(x));
    var r', g' := InventoryMember(c, host, StatefulSetResource(y));
    GroupNameInjective(c.clusterName, r, g, r', g');
  }

  /* ----- The inventory, read off the spec ----- */

  /** The spec has this group under this role. */
  predicate SpecGroup(c: ClusterInput, role: string, g: string, group: RoleGroupSpec) {
    (role == "coordinator" && c.spec.coordinators.Some?
     && g in c.spec.coordinators.value.roleGroups && c.spec.coordinators.value.roleGroups[g] == Some(group))
    || (role == "worker" && c.spec.workers.Some?
        && g in c.spec.workers.value.roleGroups && c.spec.workers.value.roleGroups[g] == Some(group))
  }

  lemma SpecGroupOf(c: ClusterInput, role: string, g: string) returns (group: RoleGroupSpec)
    requires ClusterRegistrable(c) && RoleGroupsOf(c, role, g)
    ensures SpecGroup(c, role, g, group)
    ensures forall host :: MergedConfig(RoleInputOf(c, role, host), g) == group.mergedConfig.config
    ensures group.mergedConfig.Merged?
  {
    var spec := RoleInputOf(c, role, "").spec;
    assert GroupRegistrable(RoleInputOf(c, role, ""), g);
    group := spec.roleGroups[g].value;
    forall host
      ensures MergedConfig(RoleInputOf(c, role, host), g) == group.mergedConfig.config
    {
      assert GroupRegistrable(RoleInputOf(c, role, host), g);
    }
  }

  lemma GroupOfSpec(c: ClusterInput, role: string, g: string, group: RoleGroupSpec)
    requires ClusterRegistrable(c) && SpecGroup(c, role, g, group)
    ensures RoleGroupsOf(c, role, g)
    ensures forall host :: RoleInputOf(c, role, host).roleName == role
                           && MergedConfig(RoleInputOf(c, role, host), g) == group.mergedConfig.config
    ensures group.mergedConfig.Merged?
  {
    assert COORDINATOR == "coordinator" && WORKER == "worker";
    var group' := SpecGroupOf(c, role, g);
    assert group' == group;
  }

  /** A ConfigMap is registered exactly for each group of each role of the spec, with the
      configuration that merging gave that group, the cluster's own configuration and the one host. */
  lemma ConfigMapRegisteredExactly(c: ClusterInput, host: string, b: ConfigInput)
    requires ClusterRegistrable(c)
    ensures ConfigMapResource(b) in ClusterInventory(c, host)
            <==> b.clusterName == c.clusterName && b.clusterConfig == c.spec.clusterConfig && b.coordinatorFqdn == host
                 && exists group :: SpecGroup(c, b.roleName, b.roleGroupName, group)
                                    && group.mergedConfig == Merged(b.trinoConfig)
  {
    if ConfigMapResource(b) in ClusterInventory(c, host) {
      var r, g := InventoryMember(c, host, ConfigMapResource(b));
      var group := SpecGroupOf(c, r, g);
      assert SpecGroup(c, b.roleName, b.roleGroupName, group);
    }
    if b.clusterName == c.clusterName && b.clusterConfig == c.spec.clusterConfig && b.coordinatorFqdn == host {
      if group :| SpecGroup(c, b.roleName, b.roleGroupName, group) && group.mergedConfig == Merged(b.trinoConfig) {
        GroupOfSpec(c, b.roleName, b.roleGroupName, group);
        assert GroupResources(RoleInputOf(c, b.roleName, host), b.roleGroupName)[0] == ConfigMapResource(b);
        GroupMember(c, host, b.roleName, b.roleGroupName, ConfigMapResource(b));
      }
    }
  }

  /** The port every server of the cluster listens on. */
  function SpecPorts(c: ClusterInput): seq<ContainerPort> {
    if c.spec.clusterConfig.Some? && c.spec.clusterConfig.value.tls.Some? then [ContainerPort("https", 8443)]
    else [ContainerPort("http", 8080)]
  }

  /** A StatefulSet is registered exactly for each group of each role of the spec. */
  lemma StatefulSetRegisteredExactly(c: ClusterInput, host: string, s: StatefulSetInput)
    requires ClusterRegistrable(c)
    ensures StatefulSetResource(s) in ClusterInventory(c, host)
            <==> s.clusterName == c.clusterName && s.clusterConfig == c.spec.clusterConfig && s.ports == SpecPorts(c)
                 && exists group :: SpecGroup(c, s.roleName, s.roleGroupName, group)
  {
    if StatefulSetResource(s) in ClusterInventory(c, host) {
      var r, g := InventoryMember(c, host, StatefulSetResource(s));
      var group := SpecGroupOf(c, r, g);
      assert SpecGroup(c, s.roleName, s.roleGroupName, group);
    }
    if s.clusterName == c.clusterName && s.clusterConfig == c.spec.clusterConfig && s.ports == SpecPorts(c) {
      if group :| SpecGroup(c, s.roleName, s.roleGroupName, group) {
        GroupOfSpec(c, s.roleName, s.roleGroupName, group);
        assert GroupResources(RoleInputOf(c, s.roleName, host), s.roleGroupName)[3] == StatefulSetResource(s);
        GroupMember(c, host, s.roleName, s.roleGroupName, StatefulSetResource(s));
      }
    }
  }

  /** The Services registered are exactly the coordinator role's and one per group. */
  lemma ServiceRegisteredExactly(c: ClusterInput, host: string, name: string, ports: seq<ContainerPort>)
    requires ClusterRegistrable(c)
    ensures ServiceResource(name, ports) in ClusterInventory(c, host)
            <==> ports == SpecPorts(c)
                 && (name == c.clusterName + "-coordinator"
                     || exists role, g, group :: SpecGroup(c, role, g, group)
                                                 && name == GroupFullName(c.clusterName, role, g))
  {
    var service := ServiceResource(name, ports);
    assert ClusterService(c).name == c.clusterName + "-coordinator" by {
      assert c.clusterName + "-" + "coordinator" == c.clusterName + "-coordinator";
    }
    if service in ClusterInventory(c, host) && service != ClusterService(c) {
      var r, g := InventoryMember(c, host, service);
      var group := SpecGroupOf(c, r, g);
    }
    if ports == SpecPorts(c) {
      assert name == c.clusterName + "-coordinator" ==> service == ClusterService(c);
      if role, g, group :| SpecGroup(c, role, g, group) && name == GroupFullName(c.clusterName, role, g) {
        GroupOfSpec(c, role, g, group);
        assert GroupResources(RoleInputOf(c, role, host), g)[1] == service;
        GroupMember(c, host, role, g, service);
      }
    }
  }

  /** And one metrics Service per group. */
  lemma MetricsRegisteredExactly(c: ClusterInput, host: string, name: string, ports: seq<ContainerPort>)
    requires ClusterRegistrable(c)
    ensures MetricsServiceResource(name, ports) in ClusterInventory(c, host)
            <==> ports == [ContainerPort("metrics", 8081)]
                 && exists role, g, group :: SpecGroup(c, role, g, group)
                                             && name == GroupFullName(c.clusterName, role, g) + "-metrics"
  {
    var service := MetricsServiceResource(name, ports);
    if service in ClusterInventory(c, host) {
      var r, g := InventoryMember(c, host, service);
      var group := SpecGroupOf(c, r, g);
      assert name == GroupFullName(c.clusterName, r, g) + "-metrics";
    }
    if ports == [ContainerPort("metrics", 8081)] {
      if role, g, group :|
        SpecGroup(c, role, g, group) && name == GroupFullName(c.clusterName, role, g) + "-metrics"
      {
        GroupOfSpec(c, role, g, group);
        assert GroupResources(RoleInputOf(c, role, host), g)[2] == service;
        GroupMember(c, host, role, g, service);
      }
    }
  }

  /** The shared secret is registered exactly under TLS, with the key the containers read. */
  lemma SecretRegisteredExactly(c: ClusterInput, host: string, name: string, key: string)
    requires ClusterRegistrable(c)
    ensures SecretResource(name, key) in ClusterInventory(c, host)
            <==> c.spec.clusterConfig.Some? && c.spec.clusterConfig.value.tls.Some?
                 && name == c.clusterName + "-internal-shared-secret" && key == "INTERNAL_SHARED_SECRET"
  {
    if SecretResource(name, key) in ClusterInventory(c, host) {
      var r, g := InventoryMember(c, host, SecretResource(name, key));
    }
  }

  /* ----- Endpoints ----- */

  /** The discovery host names a Service of the coordinator role, whichever group came first. */
  lemma DiscoveryHostIsRegistered(c: ClusterInput, host: string) returns (service: Resource)
    requires HasRoles(c) && CoordinatorGroups(c) != {}
    requires PossibleHost(c.clusterName, c.namespace, CoordinatorGroups(c), host)
    ensures service in ClusterInventory(c, host) && service.ServiceResource?
    ensures host == service.name + ServiceDomain(c.namespace)
  {
    var g :| g in CoordinatorGroups(c) && host == CoordinatorFqdn(c.clusterName, c.namespace, g);
    service := GroupResources(CoordinatorRole(c, host), g)[1];
    GroupMember(c, host, COORDINATOR, g, service);
    FqdnText(c.clusterName, c.namespace, g);
  }

  lemma ConfigMapMember(c: ClusterInput, host: string, b: ConfigInput)
    requires HasRoles(c) && ConfigMapResource(b) in ClusterInventory(c, host)
    ensures b.coordinatorFqdn == host && b.clusterConfig == c.spec.clusterConfig && b.clusterName == c.clusterName
  {
    var r, g := InventoryMember(c, host, ConfigMapResource(b));
  }

  lemma StatefulSetMember(c: ClusterInput, host: string, b: StatefulSetInput)
    requires HasRoles(c) && StatefulSetResource(b) in ClusterInventory(c, host)
    ensures b.clusterConfig == c.spec.clusterConfig && b.clusterName == c.clusterName
    ensures b.ports == ServerPorts(EnabledTls(c.spec.clusterConfig))
  {
    var r, g := InventoryMember(c, host, StatefulSetResource(b));
  }

  lemma ServiceMember(c: ClusterInput, host: string, service: Resource)
    requires HasRoles(c) && service in ClusterInventory(c, host)
    ensures service.ServiceResource? ==> service.ports == ServerPorts(EnabledTls(c.spec.clusterConfig))
    ensures service.MetricsServiceResource? ==> service.ports == [ContainerPort("metrics", METRICS_PORT)]
  {
    var r, g := InventoryMember(c, host, service);
  }

  lemma PortProperty(tls: bool)
    ensures var key := "http-server." + Scheme(tls) + ".port";
            key in TransportProperties(tls) && TransportProperties(tls)[key] == Literal(Itoa(ServerPort(tls)))
  {
    assert "http-server." + "https" + ".port" == "http-server.https.port";
    assert "http-server." + "http" + ".port" == "http-server.http.port";
  }

  lemma ConfigEndpoint(b: ConfigInput, api: Snapshot, p: Properties)
    requires PossibleProperties(b, api, p)
    ensures "discovery.uri" in p && p["discovery.uri"] == Literal(DiscoveryUri(b))
    ensures var tls := EnabledTls(b.clusterConfig);
            var key := "http-server." + Scheme(tls) + ".port"; key in p && p[key] == Literal(Itoa(ServerPort(tls)))
  {
    MergeKeepsBase(b, api, p);
    DiscoveryProperty(b);
    PortProperty(EnabledTls(b.clusterConfig));
  }

  lemma ContainerEndpoint(s: StatefulSetInput, api: Snapshot, built: StatefulSet)
    requires PossibleStatefulSet(s, api, built)
    ensures built.container.ports == s.ports && built.container.probe == MainProbe(EnabledTls(s.clusterConfig))
  {
  }

  lemma ServerPortShape(tls: bool)
    ensures ServerPorts(tls) == [ContainerPort(Scheme(tls), ServerPort(tls))]
    ensures MainProbe(tls).portName == Scheme(tls) && (MainProbe(tls).scheme == "HTTPS" <==> Scheme(tls) == "https")
  {
  }

  /** Any ConfigMap, StatefulSet and Service of the cluster agree: the configuration names the one
      host, and URI scheme, URI port, server port, container port, probe and Service port all
      follow the one TLS flag. */
  lemma EndpointsAgree(c: ClusterInput, host: string, api: Snapshot, b: ConfigInput, p: Properties, s: StatefulSetInput,
                       built: StatefulSet, service: Resource)
    requires HasRoles(c)
    requires ConfigMapResource(b) in ClusterInventory(c, host) && PossibleProperties(b, api, p)
    requires StatefulSetResource(s) in ClusterInventory(c, host) && PossibleStatefulSet(s, api, built)
    requires service in ClusterInventory(c, host) && service.ServiceResource?
    ensures built.container.ports == service.ports == SpecPorts(c)
    ensures var port, probe := service.ports[0], built.container.probe;
            && probe.portName == port.name
            && (probe.scheme == "HTTPS" <==> port.name == "https")
            && "discovery.uri" in p && p["discovery.uri"] == Literal(port.name + "://" + host + ":" + Itoa(port.port))
            && var key := "http-server." + port.name + ".port";
               key in p && p[key] == Literal(Itoa(port.port))
  {
    ConfigMapMember(c, host, b);
    StatefulSetMember(c, host, s);
    ServiceMember(c, host, service);
    ConfigEndpoint(b, api, p);
    ContainerEndpoint(s, api, built);
    ServerPortShape(EnabledTls(c.spec.clusterConfig));
  }

  /** The metrics Service selects a port that no container of the cluster declares. */
  lemma MetricsPortUndeclared(c: ClusterInput, host: string, api: Snapshot, s: StatefulSetInput, built: StatefulSet,
                              service: Resource)
    requires HasRoles(c)
    requires StatefulSetResource(s) in ClusterInventory(c, host) && PossibleStatefulSet(s, api, built)
    requires service in ClusterInventory(c, host) && service.MetricsServiceResource?
    ensures service.ports != []
            && forall q <- built.container.ports, m <- service.ports :: q.port != m.port && q.name != m.name
  {
    StatefulSetMember(c, host, s);
    ServiceMember(c, host, service);
  }

  /* ----- Environment references ----- */

  predicate NamesVariable(envVars: seq<EnvVar>, name: string) {
    exists v <- envVars :: v.name == name
  }

  predicate FromSharedSecret(inventory: set<Resource>, secrets: seq<string>, name: string) {
    exists secret <- secrets :: SecretResource(secret, name) in inventory
  }

  /** A start-up command exports the variable from a file in a mounted, declared volume. */
  predicate ExportedFromMount(s: StatefulSet, name: string) {
    exists x <- s.container.commands, m <- s.container.mounts ::
      x.variable == name && m.path == x.directory && m.name in VolumeNames(s.volumes) + s.claims
  }

  predicate Provided(inventory: set<Resource>, s: StatefulSet, name: string) {
    FromSharedSecret(inventory, s.container.envFromSecrets, name)
    || NamesVariable(s.container.envVars, name)
    || ExportedFromMount(s, name)
  }

  lemma PlainHasNoReference(b: ConfigInput, key: string)
    requires key in PlainProperties(b)
    ensures !PlainProperties(b)[key].EnvRef?
  {
  }

  lemma TlsReference(key: string)
    requires key in TlsProperties() && TlsProperties()[key].EnvRef?
    ensures TlsProperties()[key].name == INTERNAL_SHARED_SECRET_ENV
  {
  }

  lemma BaseReference(b: ConfigInput, key: string)
    requires key in BaseProperties(b) && BaseProperties(b)[key].EnvRef?
    ensures EnabledTls(b.clusterConfig) && BaseProperties(b)[key].name == INTERNAL_SHARED_SECRET_ENV
  {
    var tls := EnabledTls(b.clusterConfig);
    if key in TransportProperties(tls) {
      if tls {
        TlsReference(key);
      }
    } else {
      PlainHasNoReference(b, key);
    }
  }

  lemma AuthenticatorReference(a: Authenticator, key: string)
    requires Configurable(a) && key in ConfigProperties(a) && ConfigProperties(a)[key].EnvRef?
    ensures NamesVariable(EnvVars(a), ConfigProperties(a)[key].name)
            || exists x <- Commands(a) :: x.variable == ConfigProperties(a)[key].name
  {
    var name := ConfigProperties(a)[key].name;
    if a.Oidc? {
      OidcReference(a.config.value, a.oidc, key);
      assert EnvVars(a)[0].name == "OIDC_CLIENT_ID" && EnvVars(a)[1].name == "OIDC_CLIENT_SECRET";
    } else {
      LdapReference(a.ldap, key);
      assert Commands(a)[0].variable == "LDAP_USER" && Commands(a)[1].variable == "LDAP_PASSWORD";
    }
  }

  lemma OidcReference(config: OidcSpec, provider: OidcProvider, key: string)
    requires key in OidcProperties(config, provider) && OidcProperties(config, provider)[key].EnvRef?
    ensures OidcProperties(config, provider)[key].name in ["OIDC_CLIENT_ID", "OIDC_CLIENT_SECRET"]
  {
  }

  lemma LdapReference(provider: LdapProvider, key: string)
    requires key in LdapProperties(provider) && LdapProperties(provider)[key].EnvRef?
    ensures LdapProperties(provider)[key].name in ["LDAP_USER", "LDAP_PASSWORD"]
  {
  }

  /** A reference in the merged properties stems from one authenticator of the list. */
  lemma MergedReference(list: seq<Authenticator>, key: string) returns (a: Authenticator)
    requires Mergeable(list) && key in Merge(list) && Merge(list)[key].EnvRef?
    ensures a in list && key in ConfigProperties(a) && ConfigProperties(a)[key] == Merge(list)[key]
  {
    KindsShareOnlyType(list);
    MergeLookup(ConfigProperties, list, AUTHENTICATION_TYPE, key);
    a :| a in list && key in ConfigProperties(a);
    MergedTypeIsLast(list);
  }

  lemma AuthenticatorProvides(a: Authenticator, e: seq<Authenticator>, c: seq<Authenticator>, m: seq<Authenticator>,
                              s: StatefulSet, name: string)
    requires a in e && a in c && a in m
    requires s.container.envVars == FlatMap(EnvVars, e) && s.container.commands == FlatMap(Commands, c)
    requires forall mount <- FlatMap(VolumeMounts, m) :: mount in s.container.mounts
    requires forall mount <- s.container.mounts :: mount.name in VolumeNames(s.volumes) + s.claims
    requires NamesVariable(EnvVars(a), name) || exists x <- Commands(a) :: x.variable == name
    ensures NamesVariable(s.container.envVars, name) || ExportedFromMount(s, name)
  {
    if v :| v in EnvVars(a) && v.name == name {
      FlatMapMembers(EnvVars, e, v);
    } else {
      var x :| x in Commands(a) && x.variable == name;
      FlatMapMembers(Commands, c, x);
      var mount := VolumeMount(BIND_CREDENTIALS_VOLUME, x.directory);
      assert a.Ldap? && mount in VolumeMounts(a);
      FlatMapMembers(VolumeMounts, m, mount);
    }
  }

  /** A reference an authenticator of the spec writes is provided by the container's own copy of
      that authenticator, whatever the orders of the separate builds. */
  lemma ReferenceFromAuthenticator(b: StatefulSetInput, api: Snapshot, s: StatefulSet, a: Authenticator, key: string)
    requires PossibleStatefulSet(b, api, s)
    requires a in Resolved(api, AuthenticationSpecs(b.clusterConfig)) && Configurable(a)
    requires key in ConfigProperties(a) && ConfigProperties(a)[key].EnvRef?
    ensures NamesVariable(s.container.envVars, ConfigProperties(a)[key].name)
            || ExportedFromMount(s, ConfigProperties(a)[key].name)
  {
    var specs := AuthenticationSpecs(b.clusterConfig);
    var v, c, m, e :| BuiltFrom(b, api, s, v, c, m, e);
    PermutationKeepsElements(c, Resolved(api, specs));
    PermutationKeepsElements(m, Resolved(api, specs));
    PermutationKeepsElements(e, Resolved(api, specs));
    MountsAreDeclared(b, api, s);
    AuthenticatorReference(a, key);
    AuthenticatorProvides(a, e, c, m, s, ConfigProperties(a)[key].name);
  }

  /** No dangling reference: every `${ENV:name}` the operator writes into a role group's
      config.properties is provided in the container of any StatefulSet of the cluster, for every
      order of every build. */
  lemma EveryReferenceIsProvided(c: ClusterInput, host: string, api: Snapshot, b: ConfigInput, p: Properties,
                                 s: StatefulSetInput, built: StatefulSet, key: string)
    requires HasRoles(c)
    requires ConfigMapResource(b) in ClusterInventory(c, host) && PossibleProperties(b, api, p)
    requires StatefulSetResource(s) in ClusterInventory(c, host) && PossibleStatefulSet(s, api, built)
    requires key in p && p[key].EnvRef?
    ensures Provided(ClusterInventory(c, host), built, p[key].name)
  {
    ConfigMapMember(c, host, b);
    StatefulSetMember(c, host, s);
    var a := ReferenceSource(b, api, p, key);
    if a.Some? {
      ReferenceFromAuthenticator(s, api, built, a.value, key);
    } else {
      SecretReference(c, host, s, api, built);
    }
  }

  /** A reference in config.properties stems from an authenticator of the spec or is the shared secret. */
  lemma ReferenceSource(b: ConfigInput, api: Snapshot, p: Properties, key: string)
    returns (source: Option<Authenticator>)
    requires PossibleProperties(b, api, p) && key in p && p[key].EnvRef?
    ensures source.Some? ==> var a := source.value;
                             a in Resolved(api, AuthenticationSpecs(b.clusterConfig)) && Configurable(a)
                             && key in ConfigProperties(a) && ConfigProperties(a)[key] == p[key]
    ensures source.None? ==> EnabledTls(b.clusterConfig) && p[key].name == INTERNAL_SHARED_SECRET_ENV
  {
    var list :| PossibleList(api, MergedSpecs(b), list) && Mergeable(list) && p == BaseProperties(b) + Merge(list);
    if key in Merge(list) {
      var a := MergedReference(list, key);
      PermutationKeepsElements(list, Resolved(api, MergedSpecs(b)));
      assert Resolved(api, []) == [];
      source := Some(a);
    } else {
      BaseReference(b, key);
      source := None;
    }
  }

  lemma SecretReference(c: ClusterInput, host: string, s: StatefulSetInput, api: Snapshot, built: StatefulSet)
    requires HasRoles(c) && EnabledTls(c.spec.clusterConfig)
    requires s.clusterConfig == c.spec.clusterConfig && s.clusterName == c.clusterName
             && PossibleStatefulSet(s, api, built)
    ensures FromSharedSecret(ClusterInventory(c, host), built.container.envFromSecrets, INTERNAL_SHARED_SECRET_ENV)
  {
    assert SharedSecretResource(c) in ClusterInventory(c, host);
    assert built.container.envFromSecrets == [SharedSecretName(c.clusterName)];
  }

  /** Where the documentation puts each credential: the two keys of the OIDC client secret, and the
      two files of the LDAP bind credentials. */
  datatype Source = SecretKey(secret: string, key: string) | MountedFile(directory: Path, file: string)

  function CredentialSource(a: Authenticator, key: string): Option<Source> {
    match a
    case Oidc(Some(config), _) =>
      if key == "http-server.authentication.oauth2.client-id" then
        Some(SecretKey(config.clientCredentialsSecret, "CLIENT_ID"))
      else if key == "http-server.authentication.oauth2.client-secret" then
        Some(SecretKey(config.clientCredentialsSecret, "CLIENT_SECRET"))
      else None
    case Ldap(ldap) =>
      if key == "ldap.bind-dn" then Some(MountedFile(BindCredentialsMountPath(ldap), "user"))
      else if key == "ldap.bind-password" then Some(MountedFile(BindCredentialsMountPath(ldap), "password"))
      else None
    case _ => None
  }

  predicate Defines(envVars: seq<EnvVar>, commands: seq<Export>, name: string, source: Source) {
    match source
    case SecretKey(secret, key) => EnvVar(name, secret, key) in envVars
    case MountedFile(directory, file) => Export(name, directory, file) in commands
  }

  lemma CredentialOfKind(a: Authenticator, key: string)
    requires CredentialSource(a, key).Some?
    ensures key in ConfigProperties(a) && ConfigProperties(a)[key].EnvRef?
    ensures Defines(EnvVars(a), Commands(a), ConfigProperties(a)[key].name, CredentialSource(a, key).value)
  {
  }

  /** Every credential property refers to a variable that the container fills from that
      credential's own secret key or file. */
  lemma CredentialsResolve(b: StatefulSetInput, api: Snapshot, s: StatefulSet, a: Authenticator, key: string)
    requires PossibleStatefulSet(b, api, s)
    requires a in Resolved(api, AuthenticationSpecs(b.clusterConfig)) && CredentialSource(a, key).Some?
    ensures key in ConfigProperties(a) && ConfigProperties(a)[key].EnvRef?
    ensures Defines(s.container.envVars, s.container.commands, ConfigProperties(a)[key].name,
                    CredentialSource(a, key).value)
  {
    var specs := AuthenticationSpecs(b.clusterConfig);
    var v, c, m, e :| BuiltFrom(b, api, s, v, c, m, e);
    PermutationKeepsElements(c, Resolved(api, specs));
    PermutationKeepsElements(e, Resolved(api, specs));
    CredentialOfKind(a, key);
    DefinesInAggregate(e, c, a, ConfigProperties(a)[key].name, CredentialSource(a, key).value);
  }

  lemma DefinesInAggregate(e: seq<Authenticator>, c: seq<Authenticator>, a: Authenticator, name: string, source: Source)
    requires a in e && a in c && Defines(EnvVars(a), Commands(a), name, source)
    ensures Defines(FlatMap(EnvVars, e), FlatMap(Commands, c), name, source)
  {
    match source {
      case SecretKey(secret, key) => FlatMapMembers(EnvVars, e, EnvVar(name, secret, key));
      case MountedFile(directory, file) => FlatMapMembers(Commands, c, Export(name, directory, file));
    }
  }

  /* ----- Files and volumes ----- */

  lemma PlainFile(b: ConfigInput, key: string)
    requires key in PlainProperties(b) && PlainProperties(b)[key].FilePath?
    ensures PlainProperties(b)[key].directory == KUBEDOOP_LOG_DIR + ["trino"]
  {
  }

  lemma TlsFile(key: string)
    requires key in TlsProperties() && TlsProperties()[key].FilePath?
    ensures TlsProperties()[key].directory == SERVER_TLS_MOUNT_PATH
  {
  }

  lemma BaseFile(b: ConfigInput, key: string)
    requires key in BaseProperties(b) && BaseProperties(b)[key].FilePath?
    ensures BaseProperties(b)[key].directory == KUBEDOOP_LOG_DIR + ["trino"]
            || (EnabledTls(b.clusterConfig) && BaseProperties(b)[key].directory == SERVER_TLS_MOUNT_PATH)
  {
    var tls := EnabledTls(b.clusterConfig);
    if key in TransportProperties(tls) {
      if tls {
        TlsFile(key);
      }
    } else {
      PlainFile(b, key);
    }
  }

  lemma MergedHasNoFile(list: seq<Authenticator>, key: string)
    requires Mergeable(list) && key in Merge(list)
    ensures !Merge(list)[key].FilePath?
  {
    KindsShareOnlyType(list);
    MergeLookup(ConfigProperties, list, AUTHENTICATION_TYPE, key);
    var a :| a in list && key in ConfigProperties(a);
    AuthenticatorHasNoFile(a, key);
    MergedTypeIsLast(list);
  }

  lemma AuthenticatorHasNoFile(a: Authenticator, key: string)
    requires key in ConfigProperties(a)
    ensures !ConfigProperties(a)[key].FilePath?
  {
  }

  lemma BaseDirectoriesMounted(tls: bool)
    ensures VolumeMount("log", KUBEDOOP_LOG_DIR) in BaseMounts(tls)
    ensures tls ==> VolumeMount("server-tls", SERVER_TLS_MOUNT_PATH) in BaseMounts(tls)
  {
    assert BaseMounts(tls)[2] == VolumeMount("log", KUBEDOOP_LOG_DIR);
    assert tls ==> BaseMounts(tls)[4] == VolumeMount("server-tls", SERVER_TLS_MOUNT_PATH);
  }

  /** Every file path the operator writes into config.properties lies in a directory that the
      container mounts from a declared volume or the claim. */
  lemma EveryFileIsMounted(c: ClusterInput, host: string, api: Snapshot, b: ConfigInput, p: Properties,
                           s: StatefulSetInput, built: StatefulSet, key: string)
    returns (mount: VolumeMount)
    requires HasRoles(c)
    requires ConfigMapResource(b) in ClusterInventory(c, host) && PossibleProperties(b, api, p)
    requires StatefulSetResource(s) in ClusterInventory(c, host) && PossibleStatefulSet(s, api, built)
    requires key in p && p[key].FilePath?
    ensures mount in built.container.mounts && mount.path <= p[key].directory
    ensures mount.name in VolumeNames(built.volumes) + built.claims
  {
    ConfigMapMember(c, host, b);
    StatefulSetMember(c, host, s);
    var tls := EnabledTls(c.spec.clusterConfig);
    FileProperty(b, api, p, key);
    BaseDirectoriesMounted(tls);
    MountsAreDeclared(s, api, built);
    BaseMountsKept(s, api, built);
    mount := if p[key].directory == KUBEDOOP_LOG_DIR + ["trino"] then VolumeMount("log", KUBEDOOP_LOG_DIR)
             else VolumeMount("server-tls", SERVER_TLS_MOUNT_PATH);
  }

  lemma FileProperty(b: ConfigInput, api: Snapshot, p: Properties, key: string)
    requires PossibleProperties(b, api, p) && key in p && p[key].FilePath?
    ensures p[key].directory == KUBEDOOP_LOG_DIR + ["trino"]
            || (EnabledTls(b.clusterConfig) && p[key].directory == SERVER_TLS_MOUNT_PATH)
  {
    var list :| PossibleList(api, MergedSpecs(b), list) && Mergeable(list) && p == BaseProperties(b) + Merge(list);
    if key in Merge(list) {
      MergedHasNoFile(list, key);
    } else {
      BaseFile(b, key);
    }
  }

  lemma BaseMountsKept(s: StatefulSetInput, api: Snapshot, built: StatefulSet)
    requires PossibleStatefulSet(s, api, built)
    ensures forall m <- BaseMounts(EnabledTls(s.clusterConfig)) :: m in built.container.mounts
  {
  }

  /** The configuration volume of a StatefulSet mounts the ConfigMap registered for the same group. */
  lemma ConfigVolumeIsRegistered(c: ClusterInput, host: string, api: Snapshot, s: StatefulSetInput, built: StatefulSet)
    returns (b: ConfigInput)
    requires HasRoles(c)
    requires StatefulSetResource(s) in ClusterInventory(c, host) && PossibleStatefulSet(s, api, built)
    ensures ConfigMapResource(b) in ClusterInventory(c, host)
    ensures b.roleName == s.roleName && b.roleGroupName == s.roleGroupName
    ensures Volume("config", ConfigMapSource(ConfigMapName(b))) in built.volumes
  {
    var r, g := InventoryMember(c, host, StatefulSetResource(s));
    b := GroupResources(RoleInputOf(c, r, host), g)[0].config;
    GroupMember(c, host, r, g, ConfigMapResource(b));
    assert built.volumes[0] == Volume("config", ConfigMapSource(ConfigMapName(b)));
  }
}
