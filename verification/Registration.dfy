/** Registering the resources of a cluster: the coordinator and worker roles, the cluster
    reconciler and the controller that runs it. */
module Registration {
  import opened Outcomes
  import opened Orders
  import opened Spec
  import opened Names
  import opened ConfigMaps
  import opened StatefulSets

  datatype Resource =
    | ConfigMapResource(config: ConfigInput)
    | ServiceResource(name: string, ports: seq<ContainerPort>)
    | MetricsServiceResource(name: string, ports: seq<ContainerPort>)
    | StatefulSetResource(statefulSet: StatefulSetInput)
    | SecretResource(name: string, key: string)

  function ServerPorts(tls: bool): seq<ContainerPort> {
    if tls then [ContainerPort("https", HTTPS_PORT)] else [ContainerPort("http", HTTP_PORT)]
  }

  /** The fields of a role reconciler. */
  datatype RoleInput = RoleInput(
    clusterName: string,
    roleName: string,
    clusterConfig: Option<ClusterConfigSpec>,
    coordinatorFqdn: string,
    spec: RoleSpec)

  predicate GroupRegistrable(role: RoleInput, g: string)
    requires g in role.spec.roleGroups
  {
    var group := role.spec.roleGroups[g];
    group.Some? && group.value.mergedConfig.Merged? && group.value.overridesMerge
  }

  predicate Registrable(role: RoleInput) {
    forall g <- role.spec.roleGroups :: GroupRegistrable(role, g)
  }

  function MergedConfig(role: RoleInput, g: string): Option<ConfigSpec> {
    if g in role.spec.roleGroups && GroupRegistrable(role, g)
    then role.spec.roleGroups[g].value.mergedConfig.config
    else None
  }

  /** The four resources of one role group. */
  function GroupResources(role: RoleInput, g: string): seq<Resource> {
    var name := GroupFullName(role.clusterName, role.roleName, g);
    var ports := ServerPorts(EnabledTls(role.clusterConfig));
    [ConfigMapResource(ConfigInput(role.clusterName, role.roleName, g, role.coordinatorFqdn, role.clusterConfig,
                                   MergedConfig(role, g))),
     ServiceResource(name, ports),
     MetricsServiceResource(MetricsServiceName(role.clusterName, role.roleName, g),
                            [ContainerPort("metrics", METRICS_PORT)]),
     StatefulSetResource(StatefulSetInput(role.clusterName, role.roleName, g, role.clusterConfig, ports))]
  }

  function ResourcesOf(role: RoleInput): string -> seq<Resource> {
    (g: string) => GroupResources(role, g)
  }

  function RoleInventory(role: RoleInput, groups: set<string>): set<Resource> {
    Union(ResourcesOf(role), groups)
  }

  lemma GroupsShareNothing(role: RoleInput, g: string, g': string, r: Resource)
    requires r in GroupResources(role, g) && r in GroupResources(role, g')
    ensures g == g'
  {
    if r.ServiceResource? {
      CancelPrefix(RoleFullName(role.clusterName, role.roleName) + "-", g, g');
    } else if r.MetricsServiceResource? {
      CancelSuffix(GroupFullName(role.clusterName, role.roleName, g),
                   GroupFullName(role.clusterName, role.roleName, g'), "-metrics");
      CancelPrefix(RoleFullName(role.clusterName, role.roleName) + "-", g, g');
    }
  }

  lemma AddingGroup(role: RoleInput, groups: set<string>, g: string)
    requires g !in groups
    ensures multiset(RoleInventory(role, groups + {g}))
            == multiset(RoleInventory(role, groups)) + multiset(GroupResources(role, g))
  {
    GroupIsNew(role, groups, g);
    FourResources(role, g);
    UnionAdd(ResourcesOf(role), groups, g);
  }

  lemma AddingGroupSize(role: RoleInput, groups: set<string>, g: string)
    requires g !in groups
    ensures |RoleInventory(role, groups + {g})| == |RoleInventory(role, groups)| + 4
  {
    GroupIsNew(role, groups, g);
    FourResources(role, g);
    UnionAdd(ResourcesOf(role), groups, g);
  }

  lemma GroupIsNew(role: RoleInput, groups: set<string>, g: string)
    requires g !in groups
    ensures forall r <- GroupResources(role, g) :: r !in RoleInventory(role, groups)
  {
    forall r | r in GroupResources(role, g)
      ensures r !in RoleInventory(role, groups)
    {
      if r in RoleInventory(role, groups) {
        var g' :| g' in groups && r in GroupResources(role, g');
        GroupsShareNothing(role, g, g', r);
      }
    }
  }

  lemma FourResources(role: RoleInput, g: string)
    ensures NoDuplicates(GroupResources(role, g)) && |GroupResources(role, g)| == 4
  {
  }

  lemma OneMoreDone(groups: set<string>, done: set<string>, todo: set<string>, name: string)
    requires done !! todo && done + todo == groups && name in todo
    ensures done + {name} !! todo - {name} && done + {name} + (todo - {name}) == groups
    ensures |todo - {name}| < |todo|
  {
  }

  class RoleReconciler {
    const input: RoleInput
    var resources: seq<Resource>

    constructor (input: RoleInput)
      ensures this.input == input && resources == []
    {
      this.input := input;
      resources := [];
    }

    /** Merges the group's configuration and adds its four resources. */
    method RegisterGroup(name: string) returns (r: Outcome<bool>)
      requires name in input.spec.roleGroups
      modifies this
      ensures r.Ok? <==> GroupRegistrable(input, name)
      ensures resources == if r.Ok? then old(resources) + GroupResources(input, name) else old(resources)
      ensures r.Ok? ==> var first := resources[|old(resources)|];
                        first.ConfigMapResource?
                        && input.spec.roleGroups[name].value.mergedConfig == Merged(first.config.trinoConfig)
    {
      var group := input.spec.roleGroups[name];
      if group.None? {
        return Panic;
      }
      if group.value.mergedConfig.MergeError? || !group.value.overridesMerge {
        return Err(MergeFailed(name));
      }
      resources := resources + GroupResources(input, name);
      r := Ok(true);
    }

    /** One turn of the loop; `start` is what was there before it and `done` the groups so far. */
    method RegisterNext(name: string, ghost start: multiset<Resource>, ghost done: set<string>)
      returns (r: Outcome<bool>)
      requires name in input.spec.roleGroups && name !in done
      requires multiset(resources) == start + multiset(RoleInventory(input, done))
      modifies this
      ensures r.Ok? <==> GroupRegistrable(input, name)
      ensures r.Ok? ==> multiset(resources) == start + multiset(RoleInventory(input, done + {name}))
    {
      r := RegisterGroup(name);
      AddingGroup(input, done, name);
    }

    /** Registers the groups in arbitrary order, stopping at the first that fails. */
    method RegisterResources() returns (r: Outcome<bool>)
      modifies this
      ensures r.Ok? <==> Registrable(input)
      ensures r.Ok? ==> multiset(resources)
                        == multiset(old(resources)) + multiset(RoleInventory(input, input.spec.roleGroups.Keys))
    {
      var groups := input.spec.roleGroups.Keys;
      ghost var start := multiset(resources);
      ghost var done := {};
      var todo := groups;
      while todo != {}
        invariant done !! todo && done + todo == groups
        invariant forall g <- done :: GroupRegistrable(input, g)
        invariant multiset(resources) == start + multiset(RoleInventory(input, done))
        decreases |todo|
      {
        var name :| name in todo;
        OneMoreDone(groups, done, todo, name);
        r := RegisterNext(name, start, done);
        if !r.Ok? {
          return;
        }
        done, todo := done + {name}, todo - {name};
      }
      assert done == groups;
      r := Ok(true);
    }
  }

  /* ----- The cluster ----- */

  datatype ClusterInput = ClusterInput(clusterName: string, namespace: string, spec: TrinoClusterSpec)

  function RoleOf(c: ClusterInput, roleName: string, host: string, spec: RoleSpec): RoleInput {
    RoleInput(c.clusterName, roleName, c.spec.clusterConfig, host, spec)
  }

  predicate ClusterRegistrable(c: ClusterInput) {
    c.spec.image.Some? && c.spec.coordinators.Some? && c.spec.workers.Some?
    && Registrable(RoleOf(c, COORDINATOR, "", c.spec.coordinators.value))
    && Registrable(RoleOf(c, WORKER, "", c.spec.workers.value))
  }

  function CoordinatorRole(c: ClusterInput, host: string): RoleInput
    requires c.spec.coordinators.Some?
  {
    RoleOf(c, COORDINATOR, host, c.spec.coordinators.value)
  }

  function WorkerRole(c: ClusterInput, host: string): RoleInput
    requires c.spec.workers.Some?
  {
    RoleOf(c, WORKER, host, c.spec.workers.value)
  }

  function CoordinatorGroups(c: ClusterInput): set<string>
    requires c.spec.coordinators.Some?
  {
    c.spec.coordinators.value.roleGroups.Keys
  }

  function WorkerGroups(c: ClusterInput): set<string>
    requires c.spec.workers.Some?
  {
    c.spec.workers.value.roleGroups.Keys
  }

  function ClusterService(c: ClusterInput): Resource {
    ServiceResource(RoleFullName(c.clusterName, COORDINATOR), ServerPorts(EnabledTls(c.spec.clusterConfig)))
  }

  function SharedSecretResource(c: ClusterInput): Resource {
    SecretResource(SharedSecretName(c.clusterName), INTERNAL_SHARED_SECRET_ENV)
  }

  function ClusterInventory(c: ClusterInput, host: string): set<Resource>
    requires c.spec.coordinators.Some? && c.spec.workers.Some?
  {
    RoleInventory(CoordinatorRole(c, host), CoordinatorGroups(c))
    + RoleInventory(WorkerRole(c, host), WorkerGroups(c))
    + {ClusterService(c)}
    + if EnabledTls(c.spec.clusterConfig) then {SharedSecretResource(c)} else {}
  }

  lemma RegistrableWithAnyHost(c: ClusterInput, roleName: string, host: string, spec: RoleSpec)
    ensures Registrable(RoleOf(c, roleName, host, spec)) <==> Registrable(RoleOf(c, roleName, "", spec))
  {
    forall g | g in spec.roleGroups
      ensures GroupRegistrable(RoleOf(c, roleName, host, spec), g)
              <==> GroupRegistrable(RoleOf(c, roleName, "", spec), g)
    {
    }
  }

  lemma RolesShareNothing(c: ClusterInput, host: string, g: string, g': string, r: Resource)
    requires c.spec.coordinators.Some? && c.spec.workers.Some?
    requires r in GroupResources(CoordinatorRole(c, host), g)
    ensures r !in GroupResources(WorkerRole(c, host), g')
  {
    if r in GroupResources(WorkerRole(c, host), g') {
      if r.ServiceResource? {
        GroupNameInjective(c.clusterName, COORDINATOR, g, WORKER, g');
      } else if r.MetricsServiceResource? {
        CancelSuffix(GroupFullName(c.clusterName, COORDINATOR, g), GroupFullName(c.clusterName, WORKER, g'),
                     "-metrics");
        GroupNameInjective(c.clusterName, COORDINATOR, g, WORKER, g');
      }
    }
  }

  lemma ClusterServiceIsNew(c: ClusterInput, role: RoleInput, g: string)
    requires IsRole(role.roleName) && role.clusterName == c.clusterName
    ensures ClusterService(c) !in GroupResources(role, g) && SharedSecretResource(c) !in GroupResources(role, g)
  {
    ClusterServiceNameUnique(c.clusterName, role.roleName, g);
  }

  /** The parts of the inventory do not overlap. */
  lemma InventoryParts(c: ClusterInput, host: string)
    requires c.spec.coordinators.Some? && c.spec.workers.Some?
    ensures var coordinators := RoleInventory(CoordinatorRole(c, host), CoordinatorGroups(c));
            var workers := RoleInventory(WorkerRole(c, host), WorkerGroups(c));
            coordinators !! workers
            && ClusterService(c) !in coordinators + workers && SharedSecretResource(c) !in coordinators + workers
  {
    var coordinators := RoleInventory(CoordinatorRole(c, host), CoordinatorGroups(c));
    var workers := RoleInventory(WorkerRole(c, host), WorkerGroups(c));
    forall r | r in coordinators
      ensures r !in workers && r != ClusterService(c) && r != SharedSecretResource(c)
    {
      var g :| g in CoordinatorGroups(c) && r in GroupResources(CoordinatorRole(c, host), g);
      forall g'
        ensures r !in GroupResources(WorkerRole(c, host), g')
      {
        RolesShareNothing(c, host, g, g', r);
      }
      ClusterServiceIsNew(c, CoordinatorRole(c, host), g);
    }
    forall r | r in workers
      ensures r != ClusterService(c) && r != SharedSecretResource(c)
    {
      var g :| g in WorkerGroups(c) && r in GroupResources(WorkerRole(c, host), g);
      ClusterServiceIsNew(c, WorkerRole(c, host), g);
    }
  }

  lemma InventoryMultiset(c: ClusterInput, host: string)
    requires c.spec.coordinators.Some? && c.spec.workers.Some?
    ensures multiset(ClusterInventory(c, host))
            == multiset(RoleInventory(CoordinatorRole(c, host), CoordinatorGroups(c)))
               + multiset(RoleInventory(WorkerRole(c, host), WorkerGroups(c)))
               + multiset{ClusterService(c)}
               + if EnabledTls(c.spec.clusterConfig) then multiset{SharedSecretResource(c)} else multiset{}
  {
    InventoryParts(c, host);
    DisjointSum(RoleInventory(CoordinatorRole(c, host), CoordinatorGroups(c)),
                RoleInventory(WorkerRole(c, host), WorkerGroups(c)),
                ClusterService(c), SharedSecretResource(c));
  }

  lemma DisjointSum(a: set<Resource>, b: set<Resource>, x: Resource, y: Resource)
    requires a !! b && x !in a + b && y !in a + b && x != y
    ensures multiset(a + b + {x} + {}) == multiset(a) + multiset(b) + multiset{x} + multiset{}
    ensures multiset(a + b + {x} + {y}) == multiset(a) + multiset(b) + multiset{x} + multiset{y}
  {
  }

  lemma {:induction false} RoleInventorySize(role: RoleInput, groups: set<string>)
    ensures |RoleInventory(role, groups)| == 4 * |groups|
  {
    if groups == {} {
      assert RoleInventory(role, groups) == {};
    } else {
      var g :| g in groups;
      RoleInventorySize(role, groups - {g});
      assert |RoleInventory(role, groups)| == |RoleInventory(role, groups - {g})| + 4 by {
        AddingGroupSize(role, groups - {g}, g);
        assert groups - {g} + {g} == groups;
      }
    }
  }

  /** Four resources per role group, one cluster Service, and the secret exactly under TLS. */
  lemma InventorySize(c: ClusterInput, host: string)
    requires c.spec.coordinators.Some? && c.spec.workers.Some?
    ensures |ClusterInventory(c, host)|
            == 4 * (|CoordinatorGroups(c)| + |WorkerGroups(c)|) + 1
               + (if EnabledTls(c.spec.clusterConfig) then 1 else 0)
  {
    InventoryMultiset(c, host);
    RoleInventorySize(CoordinatorRole(c, host), CoordinatorGroups(c));
    RoleInventorySize(WorkerRole(c, host), WorkerGroups(c));
    assert |multiset(ClusterInventory(c, host))| == |ClusterInventory(c, host)|;
  }

  class ClusterReconciler {
    const input: ClusterInput
    var resources: seq<Resource>

    constructor (input: ClusterInput)
      ensures this.input == input && resources == []
    {
      this.input := input;
      resources := [];
    }

    /** Collects the host of every coordinator group, in any order, and takes the first. */
    method GetCoordinatorSvcFqdn() returns (host: string)
      requires input.spec.coordinators.Some?
      ensures PossibleHost(input.clusterName, input.namespace, CoordinatorGroups(input), host)
    {
      var fqdns: seq<string> := [];
      var todo := CoordinatorGroups(input);
      while todo != {}
        invariant todo <= CoordinatorGroups(input)
        invariant |fqdns| == |CoordinatorGroups(input)| - |todo|
        invariant forall f <- fqdns :: PossibleHost(input.clusterName, input.namespace, CoordinatorGroups(input), f)
        decreases |todo|
      {
        var name :| name in todo;
        fqdns := fqdns + [CoordinatorFqdn(input.clusterName, input.namespace, name)];
        todo := todo - {name};
      }
      host := if |fqdns| > 0 then fqdns[0] else "";
    }

    /** Registers one role and adds its reconciler. */
    method RegisterRole(role: RoleInput) returns (r: Outcome<bool>)
      modifies this
      ensures r.Ok? <==> Registrable(role)
      ensures r.Ok? ==> multiset(resources)
                        == multiset(old(resources)) + multiset(RoleInventory(role, role.spec.roleGroups.Keys))
      ensures !r.Ok? ==> resources == old(resources)
    {
      var reconciler := new RoleReconciler(role);
      r := reconciler.RegisterResources();
      if r.Ok? {
        resources := resources + reconciler.resources;
      }
    }

    /** Registers everything or fails; on success the resources are exactly the inventory for one
        possible coordinator host. */
    method RegisterResources() returns (r: Outcome<bool>)
      modifies this
      ensures r.Ok? <==> ClusterRegistrable(input)
      ensures r.Ok? ==> exists host ::
                          PossibleHost(input.clusterName, input.namespace, CoordinatorGroups(input), host)
                          && multiset(resources) == multiset(old(resources)) + multiset(ClusterInventory(input, host))
    {
      if input.spec.coordinators.None? || input.spec.image.None? {
        return Panic;
      }
      var host := GetCoordinatorSvcFqdn();
      RegistrableWithAnyHost(input, COORDINATOR, host, input.spec.coordinators.value);
      r := RegisterRole(CoordinatorRole(input, host));
      if !r.Ok? {
        return;
      }
      if input.spec.workers.None? {
        return Panic;
      }
      RegistrableWithAnyHost(input, WORKER, host, input.spec.workers.value);
      r := RegisterRole(WorkerRole(input, host));
      if !r.Ok? {
        return;
      }
      AddClusterObjects(host, multiset(old(resources)));
    }

    /** The secret, under TLS only, and the cluster Service complete the inventory. */
    method AddClusterObjects(host: string, ghost start: multiset<Resource>)
      requires input.spec.coordinators.Some? && input.spec.workers.Some?
      requires multiset(resources)
               == start + multiset(RoleInventory(CoordinatorRole(input, host), CoordinatorGroups(input)))
                                      + multiset(RoleInventory(WorkerRole(input, host), WorkerGroups(input)))
      modifies this
      ensures multiset(resources) == start + multiset(ClusterInventory(input, host))
    {
      if EnabledTls(input.spec.clusterConfig) {
        resources := resources + [SharedSecretResource(input)];
      }
      resources := resources + [ClusterService(input)];
      InventoryMultiset(input, host);
    }
  }

  /* ----- The controller ----- */

  datatype ClusterRead = ClusterFound(input: ClusterInput) | ClusterNotFound | ClusterReadError

  /** `Ran` is the cluster reconciler's `Run` over the registered resources. */
  datatype ReconcileResult = NothingToDo | Failed(failure: Outcome<bool>) | Ran(resources: seq<Resource>)

  /** The group is there, and its configuration and overrides merge with the role's. */
  predicate GroupInOrder(group: Option<RoleGroupSpec>) {
    group.Some? && group.value.mergedConfig.Merged? && group.value.overridesMerge
  }

  predicate SpecInOrder(spec: TrinoClusterSpec) {
    spec.image.Some? && spec.coordinators.Some? && spec.workers.Some?
    && (forall g <- spec.coordinators.value.roleGroups :: GroupInOrder(spec.coordinators.value.roleGroups[g]))
    && (forall g <- spec.workers.value.roleGroups :: GroupInOrder(spec.workers.value.roleGroups[g]))
  }

  lemma RegistrableExactly(c: ClusterInput)
    ensures ClusterRegistrable(c) <==> SpecInOrder(c.spec)
  {
  }

  /** `Run` is reached exactly when the cluster exists and every role group of both roles is in
      order; it then gets the whole inventory, each resource once. */
  method Reconcile(read: ClusterRead) returns (r: ReconcileResult)
    ensures r.Ran? <==> read.ClusterFound? && SpecInOrder(read.input.spec)
    ensures r.Ran? ==> exists host ::
                         PossibleHost(read.input.clusterName, read.input.namespace, CoordinatorGroups(read.input), host)
                         && multiset(r.resources) == multiset(ClusterInventory(read.input, host))
    ensures r.NothingToDo? <==> read.ClusterNotFound?
  {
    match read {
      case ClusterReadError => return Failed(Err(ApiReadFailed));
      case ClusterNotFound => return NothingToDo;
      case ClusterFound(input) =>
        var reconciler := new ClusterReconciler(input);
        var registered := reconciler.RegisterResources();
        RegistrableExactly(input);
        if !registered.Ok? {
          return Failed(registered);
        }
        r := Ran(reconciler.resources);
    }
  }
}
