/** Names the operator derives from a cluster, a role and a role group. */
module Names {
  import opened Text

  const COORDINATOR := "coordinator"
  const WORKER := "worker"

  const HTTP_PORT: nat := 8080
  const HTTPS_PORT: nat := 8443
  const METRICS_PORT: nat := 8081

  const INTERNAL_SHARED_SECRET_ENV := "INTERNAL_SHARED_SECRET"

  predicate IsRole(role: string) {
    role == COORDINATOR || role == WORKER
  }

  function RoleFullName(cluster: string, role: string): string {
    cluster + "-" + role
  }

  function GroupFullName(cluster: string, role: string, group: string): string {
    RoleFullName(cluster, role) + "-" + group
  }

  function MetricsServiceName(cluster: string, role: string, group: string): string {
    GroupFullName(cluster, role, group) + "-metrics"
  }

  function SharedSecretName(cluster: string): string {
    cluster + "-internal-shared-secret"
  }

  function CoordinatorFqdn(cluster: string, namespace: string, group: string): string {
    Join([GroupFullName(cluster, COORDINATOR, group), namespace, "svc.cluster.local"], '.')
  }

  /** The host the cluster reconciler may pick: that of whichever coordinator group comes first. */
  predicate PossibleHost(cluster: string, namespace: string, groups: set<string>, host: string) {
    (groups == {} && host == "") || exists g <- groups :: host == CoordinatorFqdn(cluster, namespace, g)
  }

  lemma CancelPrefix(prefix: string, x: string, y: string)
    requires prefix + x == prefix + y
    ensures x == y
  {
    assert (prefix + x)[|prefix|..] == x;
    assert (prefix + y)[|prefix|..] == y;
  }

  lemma CancelSuffix(x: string, y: string, suffix: string)
    requires x + suffix == y + suffix
    ensures x == y
  {
    assert |x| == |y|;
    assert (x + suffix)[..|x|] == x;
    assert (y + suffix)[..|y|] == y;
  }

  /** A group name determines its role and group, for a fixed cluster. */
  lemma GroupNameInjective(cluster: string, r: string, g: string, r': string, g': string)
    requires IsRole(r) && IsRole(r')
    requires GroupFullName(cluster, r, g) == GroupFullName(cluster, r', g')
    ensures r == r' && g == g'
  {
    assert GroupFullName(cluster, r, g) == (cluster + "-") + (r + "-" + g);
    assert GroupFullName(cluster, r', g') == (cluster + "-") + (r' + "-" + g');
    CancelPrefix(cluster + "-", r + "-" + g, r' + "-" + g');
    assert (r + "-" + g)[0] == r[0] && (r' + "-" + g')[0] == r'[0];
    assert r == r';
    CancelPrefix(r + "-", g, g');
  }

  /** Some groups of the two clusters get one name. */
  ghost predicate GroupsCollide(c: string, c': string) {
    exists r, g, r', g' :: IsRole(r) && IsRole(r') && GroupFullName(c, r, g) == GroupFullName(c', r', g')
  }

  /** `c'` is the full name of a role of `c`, or of a group of one. */
  predicate Extends(c: string, c': string) {
    exists r <- [COORDINATOR, WORKER] :: c' == RoleFullName(c, r) || RoleFullName(c, r) + "-" <= c'
  }

  lemma RoleHasNoDash(r: string)
    requires IsRole(r)
    ensures '-' !in r && r != ""
  {
  }

  /** Where the shorter cluster name ends, the longer one goes on with a role. */
  lemma CollisionExtends(c: string, r: string, g: string, c': string, r': string, g': string)
    requires IsRole(r) && |c| < |c'| && GroupFullName(c, r, g) == GroupFullName(c', r', g')
    ensures c' == RoleFullName(c, r) || RoleFullName(c, r) + "-" <= c'
  {
    RoleHasNoDash(r);
    var full, start := GroupFullName(c, r, g), RoleFullName(c, r) + "-";
    assert full == start + g && full == c' + ("-" + r' + "-" + g');
    assert full[|c'|] == '-' && start[..|c| + 1] == c + "-";
    if |c'| < |c| + 1 + |r| {
      assert false;
    } else if |c'| == |c| + 1 + |r| {
      assert c' == full[..|c'|] == RoleFullName(c, r);
    } else {
      assert c'[..|start|] == full[..|start|] == start;
    }
  }

  lemma RoleNamedCluster(c: string, r: string, r': string, g': string)
    ensures GroupFullName(c, r, r' + "-" + g') == GroupFullName(RoleFullName(c, r), r', g')
  {
    Regroup(RoleFullName(c, r) + "-", r', "-", g');
  }

  /** The colliding family: group `b-coordinator-c` of cluster `a` and group `c` of cluster
      `a-coordinator-b`, and every pair like it. */
  lemma GroupNamedCluster(c: string, r: string, b: string, r': string, g': string)
    ensures GroupFullName(c, r, b + ("-" + r' + "-" + g')) == GroupFullName(GroupFullName(c, r, b), r', g')
  {
    var full := GroupFullName(c, r, b);
    Regroup(RoleFullName(c, r), "-", b, "-" + r' + "-" + g');
    Regroup(full, "-", r' + "-", g');
    Regroup(full, "-", r', "-");
  }

  lemma Regroup(x: string, y: string, z: string, w: string)
    ensures x + y + (z + w) == x + y + z + w && x + (y + z + w) == x + y + z + w
    ensures x + (y + z) == x + y + z
  {
  }

  lemma ExtensionCollides(c: string, c': string, r': string, g': string) returns (r: string, g: string)
    requires Extends(c, c')
    ensures IsRole(r) && GroupFullName(c, r, g) == GroupFullName(c', r', g')
  {
    r :| r in [COORDINATOR, WORKER] && (c' == RoleFullName(c, r) || RoleFullName(c, r) + "-" <= c');
    if c' == RoleFullName(c, r) {
      g := r' + "-" + g';
      RoleNamedCluster(c, r, r', g');
    } else {
      var b := c'[|RoleFullName(c, r) + "-"|..];
      assert c' == GroupFullName(c, r, b);
      g := b + ("-" + r' + "-" + g');
      GroupNamedCluster(c, r, b, r', g');
    }
  }

  /** Two clusters of one namespace can have groups of one name exactly when one cluster is named
      like a role or a group of the other. */
  lemma ClustersCollideExactly(c: string, c': string)
    requires c != c'
    ensures GroupsCollide(c, c') <==> Extends(c, c') || Extends(c', c)
  {
    if r, g, r', g' :| IsRole(r) && IsRole(r') && GroupFullName(c, r, g) == GroupFullName(c', r', g') {
      var full := GroupFullName(c, r, g);
      assert full[..|c|] == c && full[..|c'|] == c';
      if |c| < |c'| {
        CollisionExtends(c, r, g, c', r', g');
      } else if |c'| < |c| {
        CollisionExtends(c', r', g', c, r, g);
      }
    }
    if Extends(c, c') {
      var r, g := ExtensionCollides(c, c', WORKER, "default");
    }
    if Extends(c', c) {
      var r, g := ExtensionCollides(c', c, WORKER, "default");
    }
  }

  /** A metrics Service takes the name of a group Service exactly when the other group of the
      same role carries the suffix. */
  lemma MetricsNameCollides(cluster: string, r: string, g: string, r': string, g': string)
    requires IsRole(r) && IsRole(r')
    ensures MetricsServiceName(cluster, r, g) == GroupFullName(cluster, r', g') <==> r == r' && g' == g + "-metrics"
  {
    assert MetricsServiceName(cluster, r, g) == GroupFullName(cluster, r, g + "-metrics");
    if MetricsServiceName(cluster, r, g) == GroupFullName(cluster, r', g') {
      GroupNameInjective(cluster, r, g + "-metrics", r', g');
    }
  }

  /** The cluster Service never takes the name of a group or metrics Service. */
  lemma ClusterServiceNameUnique(cluster: string, r: string, g: string)
    requires IsRole(r)
    ensures RoleFullName(cluster, COORDINATOR) != GroupFullName(cluster, r, g)
  {
    assert GroupFullName(cluster, r, g) == (cluster + "-") + (r + "-" + g);
    assert (r + "-" + g)[0] == r[0];
    assert COORDINATOR != r + "-" + g;
    if RoleFullName(cluster, COORDINATOR) == GroupFullName(cluster, r, g) {
      CancelPrefix(cluster + "-", COORDINATOR, r + "-" + g);
    }
  }

  lemma FqdnInjective(cluster: string, namespace: string, g: string, g': string)
    requires CoordinatorFqdn(cluster, namespace, g) == CoordinatorFqdn(cluster, namespace, g')
    ensures g == g'
  {
    FqdnText(cluster, namespace, g);
    FqdnText(cluster, namespace, g');
    CancelSuffix(GroupFullName(cluster, COORDINATOR, g), GroupFullName(cluster, COORDINATOR, g'),
                 ServiceDomain(namespace));
    GroupNameInjective(cluster, COORDINATOR, g, COORDINATOR, g');
  }

  function ServiceDomain(namespace: string): string {
    "." + namespace + ".svc.cluster.local"
  }

  lemma FqdnText(cluster: string, namespace: string, g: string)
    ensures CoordinatorFqdn(cluster, namespace, g) == GroupFullName(cluster, COORDINATOR, g) + ServiceDomain(namespace)
  {
    var parts := [GroupFullName(cluster, COORDINATOR, g), namespace, "svc.cluster.local"];
    assert parts[1..][1..] == ["svc.cluster.local"];
    assert Join(parts[1..], '.') == namespace + "." + "svc.cluster.local";
    assert "." + "svc.cluster.local" == ".svc.cluster.local";
  }
}
