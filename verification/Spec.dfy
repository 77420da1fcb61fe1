/** The parts of a TrinoCluster spec and of the API server that the builders read.
    A nil pointer is None; a nil slice or map is an empty one, which the code treats alike. */
module Spec {
  import opened Outcomes
  import opened Text

  datatype OidcSpec = OidcSpec(clientCredentialsSecret: string, extraScopes: seq<string>)

  datatype AuthenticationSpec = AuthenticationSpec(authenticationClass: string, oidc: Option<OidcSpec>)

  datatype TlsSpec = TlsSpec(serverSecretClass: string, internalSecretClass: string)

  datatype ClusterConfigSpec = ClusterConfigSpec(
    authentication: seq<AuthenticationSpec>,
    catalogProperties: map<string, map<string, string>>,
    tls: Option<TlsSpec>,
    vectorAggregatorConfigMapName: string)

  /** The part of the library's role-group configuration that the builders read. */
  datatype RoleGroupConfigSpec = RoleGroupConfigSpec(memoryLimit: Option<int>)

  /** The library's part is an embedded pointer. */
  datatype ConfigSpec = ConfigSpec(
    roleGroupConfig: Option<RoleGroupConfigSpec>,
    queryMaxMemory: string,
    queryMaxMemoryPerNode: string)

  /** What the library's object merge yields for a role's and a role group's configuration. */
  datatype MergeResult = Merged(config: Option<ConfigSpec>) | MergeError

  /** A role group with the outcome of merging the role's configuration and overrides into it. */
  datatype RoleGroupSpec = RoleGroupSpec(mergedConfig: MergeResult, overridesMerge: bool)

  datatype RoleSpec = RoleSpec(roleGroups: map<string, Option<RoleGroupSpec>>)

  datatype ImageSpec = ImageSpec(custom: string, repo: string, productVersion: string)

  datatype TrinoClusterSpec = TrinoClusterSpec(
    clusterConfig: Option<ClusterConfigSpec>,
    image: Option<ImageSpec>,
    coordinators: Option<RoleSpec>,
    workers: Option<RoleSpec>)

  /** Both builders and the cluster reconciler test the same two pointers. */
  predicate EnabledTls(clusterConfig: Option<ClusterConfigSpec>) {
    clusterConfig.Some? && clusterConfig.value.tls.Some?
  }

  predicate UsesVector(clusterConfig: Option<ClusterConfigSpec>) {
    clusterConfig.Some? && clusterConfig.value.vectorAggregatorConfigMapName != ""
  }

  function AuthenticationSpecs(clusterConfig: Option<ClusterConfigSpec>): seq<AuthenticationSpec> {
    if clusterConfig.Some? then clusterConfig.value.authentication else []
  }

  /** Directories as lists of path segments. */
  type Path = seq<string>

  const KUBEDOOP_ROOT: Path := ["kubedoop"]
  const KUBEDOOP_TLS_DIR: Path := ["kubedoop", "tls"]
  const KUBEDOOP_DATA_DIR: Path := ["kubedoop", "data"]
  const KUBEDOOP_LOG_DIR: Path := ["kubedoop", "log"]
  const KUBEDOOP_CONFIG_DIR_MOUNT: Path := ["kubedoop", "mount", "config"]

  /** `path.Join(base, elem)`: empty and "." segments vanish, ".." removes its predecessor. */
  function PathJoin(base: Path, elem: string): Path {
    Clean(base, Split(elem, '/'))
  }

  function Clean(base: Path, segments: seq<string>): Path
    decreases |segments|
  {
    if segments == [] then base
    else
      var s := segments[0];
      var next :=
        if s == "" || s == "." then base
        else if s == ".." then (if base == [] then [] else base[..|base| - 1])
        else base + [s];
      Clean(next, segments[1..])
  }

  predicate IsSegment(s: string) {
    s != "" && s != "." && s != ".." && '/' !in s
  }

  lemma JoinSegment(base: Path, s: string)
    requires IsSegment(s)
    ensures PathJoin(base, s) == base + [s]
  {
    SplitToken(s, '/');
    assert Clean(base, [s]) == Clean(base + [s], [s][1..]);
  }
}
