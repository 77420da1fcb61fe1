# A verified model of the Trino operator

The operator turns a `TrinoCluster` spec into Kubernetes objects and a start-up script. This project
models how those independently built pieces come about and proves how they fit together, whatever order
Go's map iteration takes, and what survives whole runs of reconciles, signals and restarts.

| file | what it holds |
|---|---|
| `Outcomes.dfy`, `Text.dfy`, `Orders.dfy` | results (value, error or crash), string and decimal encodings, folds over arbitrary orders |
| `Spec.dfy`, `Names.dfy` | the spec as values, paths, object names, ports |
| `Authentication.dfy`, `Contributions.dfy`, `Aggregation.dfy` | resolving AuthenticationClasses; what OIDC, LDAP and Static contribute; aggregation in any order |
| `HeapSize.dfy` | JVM heap sizing |
| `ConfigMap.dfy`, `Determinism.dfy` | the ConfigMap builder, and exactly when two builds agree |
| `StatefulSet.dfy` | volumes, mounts, main container and sidecar, and exactly when two builds agree |
| `Registration.dfy`, `CrossObject.dfy` | role, cluster and controller; names, endpoints, environment references, files |
| `Settings.dfy` | what spec and AuthenticationClasses say arrives in properties, files and volumes |
| `SharedSecret.dfy` | the internal shared secret over whole runs |
| `TermScript.dfy`, `CatalogFiles.dfy` | the container script: TERM forwarding and shutdown marker; catalog file moves |
| `DeepCopy.dfy` | deep copies over the spec's heap graph |

Conventions:

- A Go `range` over a map is a loop that picks any remaining key, or a duplicate-free sequence in any
  order. `Possible...` predicates describe every result some order can give; theorems about them hold for
  all orders, and the iff-theorems exhibit the orders that disagree.
- A nil dereference or an explicit `panic` is the outcome `Panic`, not a precondition. This covers an
  AuthenticationClass that is not found, an OIDC entry without client configuration, the nil property
  object of a Static authenticator, a nil role group, a spec without `coordinators`, `workers` or `image`,
  a role-group configuration whose embedded `RoleGroupConfigSpec` is nil (the CRD default of
  `gracefulShutdownTimeout` normally fills it), and a memory limit below 2^20 bytes (where the panic
  message speaks of 1K; the code is followed).
- Classes model the objects the code updates in place; their methods are proved against specification
  functions or `Possible...` predicates, about which the lemmas speak.

Assumptions about code outside the repository: adding a property or an item overwrites; a group's full name
is `cluster-role-group` and a role's is `cluster-role`; a resource reconcile creates or updates; API reads
during one build see one snapshot; the kubedoop directories are `/kubedoop/{tls,data,log,config,mount/config}/`;
the Vector file is `vector.yaml`; scopes are `pod`, `node`, `service` joined by commas; the shell is bash, runs
a pending trap before its next command, defers it during a foreground command, and returns from `wait` on a
trapped signal.

Facts the proofs bring out: config.properties is not a function of the spec with two coordinator groups or
with OIDC and LDAP together, nor is the StatefulSet with Static and LDAP together; a group `g` beside
`g-metrics` makes two Services share a name; coordinator group `b-coordinator-c` of cluster `a` and
coordinator group `c` of cluster `a-coordinator-b` have one full name; an LDAP secret class named `client`
(or `server`, `internal` under TLS) mounts over an operator directory; the metrics Service selects a port no container declares; the heap can shrink when the limit grows past 2^30 or 2^40;
the script as written never forwards TERM, because the launcher runs in the foreground; overlapping
reconciles could overwrite the shared secret.

## Model

| member | source | states |
|---|---|---|
| `HeapSize.HeapIsWholeUnits` | internal/controller/common/configmap.go:280-298 | the JVM reads the printed option back as the largest whole number of band units not above 4/5 of the limit |
| `HeapSize.HeapFraction` | internal/controller/common/configmap.go:274-299 | for every limit from 2^20 bytes, the heap is at most 4/5 of it, short by less than one printed unit, and that unit is at most 1/1024 of the limit |
| `HeapSize.HeapAlmostMonotone` | internal/controller/common/configmap.go:280-298 | within a band a larger limit never shrinks the heap; across bands it shrinks by less than one printed unit of the larger limit |
| `HeapSize.HeapMonotoneExactly` | internal/controller/common/configmap.go:285-298 | for every pair of limits, monotonicity holds if and only if the pair avoids two explicit windows around 2^30 and 2^40 |
| `HeapSize.HeapDropWitness` | internal/controller/common/configmap.go:285-298 | 2^30 - 1 bytes give 838860K while 2^30 bytes give 819M, which is less |
| `Spec.JoinSegment` | internal/controller/common/authz/ldap.go:43-45 | joining a plain name to a directory appends that one segment, through the cleaning that path joining performs |
| `Authentication.CollectByType` | internal/controller/common/authz/authentication.go:56-77 | the first entry that stops the loop decides the error or crash; otherwise the authenticator each supported entry resolves to sits under its own type |
| `Authentication.ListAuthenticators` | internal/controller/common/authz/authentication.go:79-82 | in any order, the list holds every collected authenticator, of distinct types, at most three |
| `Authentication.KindsAskForOne` | internal/controller/common/authz/authentication.go:33-43 | a class asks for an authenticator if and only if its provider has one of the three kinds, and then for exactly one |
| `Authentication.ResolvedExactly` | internal/controller/common/authz/authentication.go:33-43 | the resolved authenticators are exactly those the entries ask for, each with its own kind's data and, for OIDC, the entry's own client configuration |
| `Authentication.AcceptedExactly` | internal/controller/common/authz/authentication.go:56-77 | no entry stops the loop if and only if all classes were read and no two entries ask for one type |
| `Authentication.NewAuthentication` | internal/controller/common/authz/authentication.go:51-84 | succeeds if and only if every class was read with a provider and no two entries ask for one type; the list then holds exactly the authenticators the entries ask for, in any order; each failure is explained by the class or the pair that caused it |
| `Contributions.OidcScopesDecode` | internal/controller/common/authz/oidc.go:33-51 | splitting the scope string on spaces gives the three default scopes and the configured ones in order if and only if no configured scope holds a space |
| `Contributions.OidcIssuerDecode` | internal/controller/common/authz/oidc.go:37-46 | the issuer is an http URL under the provider's root path whose host reads back as host name and port if and only if the host name holds no colon |
| `Contributions.CollectScopes` | internal/controller/common/authz/ldap.go:107-130 | the append loop produces the annotation that the decoding theorem is about |
| `Contributions.LdapScopeDecode` | internal/controller/common/authz/ldap.go:104-130 | the annotation gives back pod flag, node flag and services in order if and only if no service name holds a comma |
| `Contributions.LdapEndpointDecode` | internal/controller/common/authz/ldap.go:47-58 | the server URL reads back as TLS flag, host name and port if and only if the host name holds no colon |
| `Aggregation.Gather` | internal/controller/common/authz/authentication.go:96-137 | volumes, mounts and commands are the members' lists appended in list order |
| `Aggregation.GetEnvVars` | internal/controller/common/authz/authentication.go:86-94 | crashes exactly when an OIDC member lacks its client configuration, otherwise appends in list order |
| `Aggregation.GetConfigProperties` | internal/controller/common/authz/authentication.go:116-127 | crashes exactly when a Static member or an OIDC member without configuration is present; otherwise later members overwrite earlier ones, for any key order |
| `Aggregation.MergeLookup` | internal/controller/common/authz/authentication.go:116-127 | the merged keys are exactly the members' keys, and outside the one shared key each keeps its own member's value |
| `Aggregation.MergedTypeIsLast` | internal/controller/common/authz/authentication.go:119-124 | the authentication type is that of the last member in the list |
| `Aggregation.AggregationOrderIndependent` | internal/controller/common/authz/authentication.go:79-137 | for any two orders, variables, volumes, mounts and commands agree as multisets, and properties agree on every key but the type, which differs only if OIDC and LDAP are both present |
| `Aggregation.MergeDeterministicExactly` | internal/controller/common/authz/authentication.go:79-83 | all orders merge to the same properties if and only if OIDC and LDAP are not both present |
| `ConfigMaps.ConfigMapBuilder.GetConfigProperties` | internal/controller/common/configmap.go:196-257 | succeeds exactly when no entry stops the lookup loop and every resolved authenticator has properties; the result is one of the possible ones |
| `ConfigMaps.CanConfigureExactly` | internal/controller/common/configmap.go:245-254 | no order fails if and only if the role is not the coordinator, or all classes were read and ask for at most one authenticator per type, no Static one, and OIDC only with client configuration |
| `ConfigMaps.AuthenticationExactlyOnCoordinator` | internal/controller/common/configmap.go:245-254 | config.properties switches authentication on if and only if the role is the coordinator and the spec asks for an authenticator; other roles have no authentication key |
| `ConfigMaps.AskedPropertiesArrive` | internal/controller/common/configmap.go:245-254 | every property of every authenticator asked for is in a coordinator's config.properties, with its own value off the type key |
| `ConfigMaps.ArrivedPropertiesWereAsked` | internal/controller/common/configmap.go:245-254 | every authentication property there was given by an authenticator the spec asks for |
| `ConfigMaps.ConfigMapBuilder.GetCatalogProperties` | internal/controller/common/configmap.go:163-180 | for any order of catalogs and keys: one item per marshallable catalog under its file name, with its properties, and nothing else |
| `ConfigMaps.ConfigMapBuilder.AddFixedItems` | internal/controller/common/configmap.go:116-153 | succeeds exactly under the listed conditions and then adds exactly the fixed items; nothing already present is removed |
| `ConfigMaps.ConfigMapBuilder.Build` | internal/controller/common/configmap.go:111-160 | a successful build adds one of the possible contents and means that authentication resolved, every properties file marshalled, a heap size exists and Vector's text is there if wanted; it succeeds whenever no order can make a step fail |
| `ConfigMaps.CatalogNameInjective` | internal/controller/common/configmap.go:175-176 | different catalogs get different file names |
| `ConfigMaps.MergeKeepsBase` | internal/controller/common/configmap.go:199-254 | for every order of the authenticators, merging never overwrites a base key |
| `ConfigMaps.RoleAndLimits` | internal/controller/common/configmap.go:199-214 | after merging, exactly the coordinator is marked as one; both query limits are the group's own, and without a configuration there is the default overall limit and no per-node one |
| `ConfigMaps.Underscored` | internal/controller/common/configmap.go:259-264 | the node environment is the cluster name with an underscore for every dash and no other change |
| `ConfigMaps.BuiltHeapFitsLimit` | internal/controller/common/configmap.go:274-307 | in every built ConfigMap initial and maximal heap are equal and lie within (4/5 - 1/1024, 4/5] of the limit the group's configuration sets, or of 2G without one |
| `Determinism.BuildsAgree` | internal/controller/common/configmap.go:111-160 | with at most one coordinator group and not both OIDC and LDAP merged, any two builds give equal items |
| `Determinism.ManyGroupsDisagree` | internal/controller/cluster/cluster.go:57-74 | with two coordinator groups and no way to fail, two successful builds with different items exist |
| `Determinism.BothKindsDisagree` | internal/controller/common/configmap.go:245-254 | with OIDC and LDAP merged and no way to fail, two successful builds with different items exist |
| `Determinism.ConfigMapDeterministicExactly` | internal/controller/common/configmap.go:111-257 | where no host and no order makes a build fail, all builds agree if and only if there is at most one coordinator group and the group does not merge both OIDC and LDAP |
| `StatefulSets.StatefulSetBuilder.GetMainContainer` | internal/controller/common/statefulset.go:166-214 | succeeds exactly when authentication resolves and every OIDC member is configured; each aggregate is taken over its own order |
| `StatefulSets.StatefulSetBuilder.GetVolumes` | internal/controller/common/statefulset.go:351-398 | succeeds exactly when no entry stops the lookup loop, with the operator's volumes followed by the authenticators' in one possible order |
| `StatefulSets.StatefulSetBuilder.Build` | internal/controller/common/statefulset.go:131-160 | adds claim, volumes and container of one possible StatefulSet, keeps them all in the object and appends Vector's to it if it is wanted, or fails with the container list untouched |
| `StatefulSets.PodHasBothParts` | internal/controller/common/statefulset.go:149-158 | the pod has the operator's claim, volumes and container, and beside them exactly Vector's if and only if an aggregator is named |
| `StatefulSets.CanBuildExactly` | internal/controller/common/statefulset.go:131-148 | no order fails if and only if all classes were read and ask for at most one authenticator per type, and OIDC only with client configuration |
| `StatefulSets.VolumesAndMountsMatch` | internal/controller/common/statefulset.go:308-412 | the operator's volume and claim names are pairwise distinct, and the main container's mounts name each of them exactly once and nothing else, for all orders on both sides |
| `StatefulSets.PodVolumesDistinctExactly` | internal/controller/common/statefulset.go:149-158 | with the Vector sidecar, pod volume names are distinct if and only if its names are distinct and none of the operator's, and all mounts are declared if and only if its own are |
| `StatefulSets.MountPathsDistinctExactly` | internal/controller/common/statefulset.go:308-349 | for every secret class, mount paths are distinct if and only if the path joined from the LDAP secret class is none of the other mounted directories, the Static credentials' included |
| `StatefulSets.ReservedClasses` | internal/controller/common/authz/ldap.go:43-45 | a class that is one path segment is mounted over another directory if and only if it is `client`, or under TLS `server` or `internal` |
| `StatefulSets.StatefulSetsAgree` | internal/controller/common/statefulset.go:131-148 | without both Static and LDAP, any two builds give the same object, order of every list included |
| `StatefulSets.StatefulSetDeterministicExactly` | internal/controller/common/statefulset.go:308-398 | for every spec that can be built, all builds give the same object if and only if it does not resolve to both a Static and an LDAP authenticator |
| `Registration.RoleReconciler.RegisterGroup` | internal/controller/coordinator/role.go:46-65 | a group whose merges succeed adds its four resources, the ConfigMap with the merged configuration; any other adds none |
| `Registration.RoleReconciler.RegisterResources` | internal/controller/worker/role.go:44-69 | succeeds if and only if every group registers, and then adds exactly four resources per group for any order |
| `Registration.RoleInventorySize` | internal/controller/coordinator/role.go:71-141 | a role with n groups has 4n different resources |
| `Registration.InventoryParts` | internal/controller/cluster/cluster.go:85-138 | coordinator, worker, cluster Service and secret resources never coincide |
| `Registration.InventorySize` | internal/controller/cluster/cluster.go:76-141 | four resources per group of both roles, one cluster Service, and one more exactly under TLS |
| `Registration.ClusterReconciler.GetCoordinatorSvcFqdn` | internal/controller/cluster/cluster.go:57-74 | the host of some coordinator group, or the empty text if and only if there is none |
| `Registration.ClusterReconciler.RegisterRole` | internal/controller/cluster/cluster.go:86-113 | a role is added whole or not at all |
| `Registration.ClusterReconciler.AddClusterObjects` | internal/controller/cluster/cluster.go:115-138 | the secret under TLS and the cluster Service complete the inventory |
| `Registration.ClusterReconciler.RegisterResources` | internal/controller/cluster/cluster.go:76-141 | succeeds if and only if image, both roles and all their groups are in order; the resources are then exactly the inventory for one possible host |
| `Registration.Reconcile` | internal/controller/trino_controller.go:61-99 | the run is reached if and only if the cluster exists, image and both roles are set and every group's merges succeed, and it gets each resource of the inventory once |
| `Names.GroupNameInjective` | internal/controller/common/statefulset.go:64-66 | a full name determines its role and its group |
| `Names.GroupNamedCluster` | internal/controller/common/statefulset.go:64-66 | the colliding family across clusters: a group named like the rest of another cluster's role and group |
| `Names.ClustersCollideExactly` | internal/controller/common/statefulset.go:64-66 | two clusters can have groups of one name if and only if one cluster is named like a role of the other, or like a group of it |
| `Names.MetricsNameCollides` | internal/controller/common/service.go:72-74 | a metrics Service has a group Service's name if and only if that group of the same role carries the suffix |
| `CrossObject.ServiceNamesDistinctExactly` | internal/controller/common/service.go:72-74 | all Service names of a cluster are distinct if and only if no role has both g and g-metrics |
| `CrossObject.ConfigMapRegisteredExactly` | internal/controller/coordinator/role.go:46-91 | a ConfigMap is registered if and only if the spec has its group under its role, with the configuration merging gave that group, the cluster's configuration and the one host |
| `CrossObject.StatefulSetRegisteredExactly` | internal/controller/coordinator/role.go:79-137 | a StatefulSet is registered if and only if the spec has its group under its role, with the port of the cluster's TLS setting |
| `CrossObject.ServiceRegisteredExactly` | internal/controller/cluster/cluster.go:115-138 | the Services are exactly the coordinator role's and one per group, on that port |
| `CrossObject.MetricsRegisteredExactly` | internal/controller/common/service.go:21-33 | the metrics Services are exactly one per group, on port 8081 |
| `CrossObject.SecretRegisteredExactly` | internal/controller/cluster/cluster.go:115-123 | the shared secret is registered if and only if TLS is set, with the key the containers read |
| `CrossObject.ConfigMapNamesDistinct` | internal/controller/common/configmap.go:43-46 | two registered ConfigMaps with one name are the same |
| `CrossObject.StatefulSetNamesDistinct` | internal/controller/common/statefulset.go:64-66 | two registered StatefulSets with one name are the same |
| `CrossObject.DiscoveryHostIsRegistered` | internal/controller/cluster/cluster.go:57-74 | whichever coordinator group came first, the discovery host is the domain name of a registered Service |
| `CrossObject.EndpointsAgree` | internal/controller/common/configmap.go:182-237 | any ConfigMap, StatefulSet and Service of the cluster agree on host, URI scheme and port, server port, container port, probe and Service port |
| `CrossObject.MetricsPortUndeclared` | internal/controller/common/service.go:21-30 | the metrics Service's port is declared by no container |
| `CrossObject.ReferenceFromAuthenticator` | internal/controller/common/authz/ldap.go:26-41 | a reference an authenticator writes is an environment variable of the container or exported from a file in a declared, mounted volume |
| `CrossObject.EveryReferenceIsProvided` | internal/controller/common/statefulset.go:181-188 | every environment reference in any group's config.properties is provided in any container of the cluster, the shared one by a registered secret with that key |
| `CrossObject.CredentialsResolve` | internal/controller/common/authz/oidc.go:52-84 | each credential property refers to the variable filled from that credential's own secret key or file |
| `CrossObject.EveryFileIsMounted` | internal/controller/common/configmap.go:226-243 | every file path written into config.properties lies in a directory mounted from a declared volume or the claim |
| `CrossObject.ConfigVolumeIsRegistered` | internal/controller/common/statefulset.go:352-362 | the configuration volume mounts the ConfigMap registered for the same role and group |
| `Settings.LdapSettingsArrive` | internal/controller/common/authz/ldap.go:65-81 | an entry with an LDAP class puts that class's server, search base and user pattern into every coordinator's config.properties |
| `Settings.OidcSettingsArrive` | internal/controller/common/authz/oidc.go:33-60 | an entry with an OIDC class puts its own scopes and the class's principal field there |
| `Settings.OidcIssuerArrives` | internal/controller/common/authz/oidc.go:37-56 | and the issuer, which reads back as the class's host, port and root path |
| `Settings.CredentialsArrive` | internal/controller/common/authz/oidc.go:53-84 | each credential asked for is a reference in every coordinator's config.properties to a variable every container fills from that credential's own key or file |
| `Settings.AnnouncedTypeWasAsked` | internal/controller/common/authz/authentication.go:116-127 | the announced authentication type is that of an authenticator the spec asks for |
| `Settings.TlsSettingsExactlyUnderTls` | internal/controller/common/configmap.go:220-237 | the twelve TLS properties are in config.properties if and only if TLS is set |
| `Settings.TlsSettingsArrive` | internal/controller/common/configmap.go:220-235 | under TLS, server and internal client use the server volume's stores with one passphrase and internal traffic is encrypted |
| `Settings.LogSettingsArrive` | internal/controller/common/configmap.go:239-243 | every role logs bounded, uncompressed json into the file bearing its name |
| `Settings.NodeSettingsArrive` | internal/controller/common/configmap.go:204-217 | scheduling on the coordinator and request logs are off and nodes find each other by name, whatever is merged |
| `Settings.BuiltFiles` | internal/controller/common/configmap.go:111-153 | every built ConfigMap has the build's config.properties, the cluster's node environment, lookup times, log level, and Vector's text if and only if an aggregator is named; no catalog takes these names |
| `Settings.StaticUsersAreMounted` | internal/controller/common/authz/static.go:31-59 | the users of a Static class are mounted from the secret the class names |
| `Settings.LdapCredentialsAreMounted` | internal/controller/common/authz/ldap.go:93-148 | the bind credentials of an LDAP class are mounted from a volume of its secret class whose scope annotation reads back as its scope if and only if no service name holds a comma |
| `Settings.TlsVolumesExactlyUnderTls` | internal/controller/common/statefulset.go:380-386 | the keystore volumes are there if and only if TLS is set |
| `Settings.TlsClassIsMounted` | internal/controller/common/statefulset.go:380-386 | both are of the server's secret class, `tls` by default, scoped to pod and node, and mounted at their own directories |
| `Settings.ScriptDirectoriesAreMounted` | internal/controller/common/statefulset.go:308-378 | the directories the script reads and writes are mounted from the volumes meant for them, the configuration from the group's ConfigMap |
| `SharedSecret.InternalSharedSecretReconciler.Build` | internal/controller/common/secret.go:30-40 | stores the freshly drawn value under the shared key, or fails and stores nothing |
| `SharedSecret.InternalSharedSecretReconciler.Reconcile` | internal/controller/common/secret.go:75-88 | writes only if the secret is absent, leaves every other secret alone, and writes nothing on any failure |
| `SharedSecret.ReconcileIsSteps` | internal/controller/common/secret.go:75-88 | one undisturbed reconcile is one or two steps of the transition system |
| `SharedSecret.StoredValueStays` | internal/controller/common/secret.go:73-88 | without overlapping reconciles, a stored value is the same at any later point before a deletion |
| `SharedSecret.OverwritingRun` | internal/controller/common/secret.go:75-88 | two overlapping reconciles can overwrite a stored value without a deletion |
| `SharedSecret.StableExactlyWithoutOverlap` | internal/controller/common/secret.go:73-88 | over all runs the stored value survives until a deletion if and only if at most one reconcile of the cluster is in flight |
| `SharedSecret.PodsReadTheSameSecret` | internal/controller/common/statefulset.go:181-183 | all TLS pods that start between two deletions read the same value, across reconciles and TLS toggles |
| `SharedSecret.PodsReadTheLastWrite` | internal/controller/common/secret.go:30-40 | a stored value was drawn by the latest write, with no write or deletion since, or was there from the start |
| `SharedSecret.PodCanAlwaysStart` | internal/controller/common/secret.go:73-88 | from every reachable state TLS can be enabled, a missing secret provided and a pod started that reads it, and a stored value is the one it reads |
| `TermScript.MarkerMeansLauncherExited` | internal/controller/common/statefulset.go:273-303 | in every reachable state after the marker was cleared, in either mode, a present marker means the launcher has exited, even when a TERM cut the first wait short |
| `TermScript.MarkerExactlyWhenFinished` | internal/controller/common/statefulset.go:284-303 | in every reachable state, a script that finished has left the marker, and once cleared it is there only then |
| `TermScript.CanAlwaysFinish` | internal/controller/common/statefulset.go:257-303 | from every reachable state in which the shell lives, whatever signals came, the script can run to its end once the launcher exits |
| `TermScript.TrapStaysWhileChildRuns` | internal/controller/common/statefulset.go:273-283 | the trap is removed under a running background child only after a received TERM cut the first wait short |
| `TermScript.TermWaitsForLauncher` | internal/controller/common/statefulset.go:301-302 | as the launcher is called, a TERM that arrives while it runs stays pending for as long as it runs |
| `TermScript.TermForwardedExactlyToBackgroundChild` | internal/controller/common/statefulset.go:257-302 | for every interleaving, a TERM that arrives while the trap is installed is forwarded before the script has removed the trap if and only if the functions got a background child's pid |
| `TermScript.NothingForwardedInForeground` | internal/controller/common/statefulset.go:301-302 | as the launcher is called, no TERM is ever sent to it |
| `TermScript.ForwardedWasReceived` | internal/controller/common/statefulset.go:264-279 | every TERM the script sends answers an earlier one |
| `CatalogFiles.ConfigDirectory.MoveCatalogFiles` | internal/controller/common/statefulset.go:248-255 | in any order, every matching file moves to its stripped name and every other file stays |
| `CatalogFiles.ConfigDirectory.Prepare` | internal/controller/common/statefulset.go:243-255 | both directories after copy and moves, as functions of the mount and what was there |
| `CatalogFiles.CatalogRoundTrip` | internal/controller/common/configmap.go:155-180 | from spec to catalog directory: exactly one properties file per catalog whose entries marshal, with exactly those entries, no prefixed file left behind, every other item unchanged |
| `CatalogFiles.HiddenFilesStay` | internal/controller/common/statefulset.go:243-245 | hidden entries of the mounted ConfigMap are not copied and hidden files already there stay |
| `CatalogFiles.PrepareIsIdempotent` | internal/controller/common/statefulset.go:243-255 | running the moves again on the same ConfigMap changes nothing, whatever was there before |
| `DeepCopy.CopyStringMap` | api/v1alpha1/zz_generated.deepcopy.go:139-142 | a nil map stays nil, any other becomes a fresh equal one |
| `DeepCopy.OidcSpec.DeepCopy` | api/v1alpha1/zz_generated.deepcopy.go:462-480 | equal value, fresh struct and slice |
| `DeepCopy.CopyAuthentications` | api/v1alpha1/zz_generated.deepcopy.go:117-123 | the slice of structs holding pointers is equal position by position and reaches only fresh objects, and no two entries of the copy share one even if the original's do |
| `DeepCopy.CopyCatalogs` | api/v1alpha1/zz_generated.deepcopy.go:129-146 | the map of maps, nil inner maps included, is equal and fresh, and no two catalogs share a map |
| `DeepCopy.CatalogLabelSelectorSpec.DeepCopy` | api/v1alpha1/zz_generated.deepcopy.go:86-112 | equal value, fresh struct, map and slice |
| `DeepCopy.ClusterConfigSpec.DeepCopy` | api/v1alpha1/zz_generated.deepcopy.go:115-162 | equal value, everything reachable fresh, and no sharing between its parts, entries or catalogs |
| `DeepCopy.RoleGroupSpec.DeepCopy` | api/v1alpha1/zz_generated.deepcopy.go:502-530 | equal value, everything reachable fresh, configuration and overrides apart |
| `DeepCopy.CopyGroups` | api/v1alpha1/zz_generated.deepcopy.go:270-285 | the map of pointers is equal and fresh, and no two groups of the copy share an object even if the original's do |
| `DeepCopy.CopyBase` | api/v1alpha1/zz_generated.deepcopy.go:51-73 | equal value, everything reachable fresh, its pointers apart |
| `DeepCopy.RoleSpec.DeepCopy` | api/v1alpha1/zz_generated.deepcopy.go:268-297 | coordinators and workers alike: equal value, everything reachable fresh, no sharing between groups or between a group and the role's own configuration |
| `DeepCopy.TrinoClusterSpec.DeepCopy` | api/v1alpha1/zz_generated.deepcopy.go:733-770 | for every heap graph: equal value, no object in common with the original, and no object reached through two parts of the copy |
| `DeepCopy.EqualValuesExactly` | api/v1alpha1/zz_generated.deepcopy.go:733-760 | two specs stand for the same value if and only if they agree in every field through every pointer, map and slice |
| `DeepCopy.TrinoClusterSpec.WriteToCopy` | api/v1alpha1/zz_generated.deepcopy.go:762-770 | after a copy and arbitrary writes to everything the copy reaches, the original stands for its old value |
| `DeepCopy.TrinoClusterSpec.WriteToOriginal` | api/v1alpha1/zz_generated.deepcopy.go:762-770 | after a copy and arbitrary writes to everything the original reaches, the copy stands for the original's old value |
| `DeepCopy.Independence` | api/v1alpha1/zz_generated.deepcopy.go:733-770 | between any two states, a spec whose reachable objects are unchanged reaches the same objects and stands for the same value |
| `DeepCopy.WritesToOneLeaveTheOther` | api/v1alpha1/zz_generated.deepcopy.go:762-770 | while two specs reach no common object, any writes within one, and any allocations, leave the other's value unchanged |

## Left out

- HeapFraction: float64 rounding is not modelled; limits are whole bytes and the factor 0.8 is exact.
- ConfigMapBuilder.AddFixedItems: of `jvm.config` only the two heap options are kept; its other lines are fixed flags and agent paths.
- StatefulSetBuilder.GetMainContainer: the command line and the probe's timings are fixed values and not part of the container; the script's effects are in `TermScript.dfy` and `CatalogFiles.dfy`.
- StatefulSetBuilder.Build: replicas, labels, overrides and affinity, which the library's builder sets, are not part of the object; what the library's Vector factory makes is a parameter.
- CopyCatalogs: the new map is assembled as a value and then placed in its cell, rather than written entry by entry through the cell; the same holds for the role-group map and the authentication slice.
- TrinoClusterSpec.DeepCopy: structs of other packages are one cell with a value each, under the contract that the library's own copy is fresh and equal.
- StableExactlyWithoutOverlap: reads are current; a stale cache that reports a stored secret as missing is not modelled.
- EndpointsAgree: the metrics Service is treated separately in MetricsPortUndeclared.
- The metrics Service's labels and annotations: it copies the role group's and adds fixed scrape entries.
- `DeepCopy` of catalog resources, list and object wrappers, and structs without pointers: these copy plain values or repeat the shapes above.
- TrinoCatalog types, the catalog label selector's meaning, `getDataStorageSize`, `InternalSecretClass`: nothing reads them, or the field that drives them is never set.
- Object merging, property marshalling layout, image names, stop and pause handling, random bytes, base64, URL escaping, `keytool`: foreign code, present only as parameters or not at all.
- `cmd/main.go`, manager set-up, RBAC, CRDs, Helm and end-to-end files: process start-up and deployment configuration.
