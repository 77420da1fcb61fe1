/** The StatefulSet of a role group: volumes, the main container and its probe, and what the
    Vector sidecar adds. */
module StatefulSets {
  import opened Outcomes
  import opened Orders
  import opened Spec
  import opened Names
  import opened Authentication
  import opened Contributions
  import opened Aggregation

  datatype ContainerPort = ContainerPort(name: string, port: nat)

  datatype Probe = Probe(portName: string, scheme: string)

  datatype StatefulSetInput = StatefulSetInput(
    clusterName: string,
    roleName: string,
    roleGroupName: string,
    clusterConfig: Option<ClusterConfigSpec>,
    ports: seq<ContainerPort>)

  datatype Container = Container(
    name: string,
    commands: seq<Export>,
    mounts: seq<VolumeMount>,
    envFromSecrets: seq<string>,
    envVars: seq<EnvVar>,
    ports: seq<ContainerPort>,
    probe: Probe)

  /** What the operator itself puts into the StatefulSet. */
  datatype StatefulSet = StatefulSet(claims: seq<string>, volumes: seq<Volume>, container: Container)

  /** What the library's Vector factory makes. */
  datatype Vector = Vector(volumes: seq<Volume>, container: Container)

  datatype PodTemplate = PodTemplate(claims: seq<string>, volumes: seq<Volume>, containers: seq<Container>)

  /* ----- Specification ----- */

  const DATA_CLAIM := "data"

  function BaseVolumes(b: StatefulSetInput): seq<Volume> {
    [Volume("config", ConfigMapSource(GroupFullName(b.clusterName, b.roleName, b.roleGroupName))),
     Volume("log", EmptyDir("1Gi")),
     Volume("client-tls", EmptyDir("1Mi"))]
    + if EnabledTls(b.clusterConfig) then TlsVolumes(b.clusterConfig.value.tls.value) else []
  }

  function TlsVolumes(tls: TlsSpec): seq<Volume> {
    var secretClass := if tls.serverSecretClass == "" then "tls" else tls.serverSecretClass;
    [Volume("server-tls", SecretClassVolume(secretClass, "pod,node")),
     Volume("internal-tls", SecretClassVolume(secretClass, "pod,node"))]
  }

  function BaseMounts(tls: bool): seq<VolumeMount> {
    [VolumeMount("config", KUBEDOOP_CONFIG_DIR_MOUNT),
     VolumeMount(DATA_CLAIM, KUBEDOOP_DATA_DIR),
     VolumeMount("log", KUBEDOOP_LOG_DIR),
     VolumeMount("client-tls", KUBEDOOP_TLS_DIR + ["client"])]
    + if tls then [VolumeMount("server-tls", KUBEDOOP_TLS_DIR + ["server"]),
                   VolumeMount("internal-tls", KUBEDOOP_TLS_DIR + ["internal"])]
      else []
  }

  function MainProbe(tls: bool): Probe {
    if tls then Probe("https", "HTTPS") else Probe("http", "HTTP")
  }

  function SharedSecrets(b: StatefulSetInput): seq<string> {
    if EnabledTls(b.clusterConfig) then [SharedSecretName(b.clusterName)] else []
  }

  /** The container with each aggregate taken over its own order of the authenticators. */
  function MainContainer(b: StatefulSetInput, forCommands: seq<Authenticator>, forMounts: seq<Authenticator>,
                         forEnv: seq<Authenticator>): Container
  {
    Container(
      b.roleName,
      FlatMap(Commands, forCommands),
      BaseMounts(EnabledTls(b.clusterConfig)) + FlatMap(VolumeMounts, forMounts),
      SharedSecrets(b),
      FlatMap(EnvVars, forEnv),
      b.ports,
      MainProbe(EnabledTls(b.clusterConfig)))
  }

  /** The StatefulSet that four calls yield which return the authenticators in these orders. */
  predicate BuiltFrom(b: StatefulSetInput, api: Snapshot, s: StatefulSet,
                      v: seq<Authenticator>, c: seq<Authenticator>, m: seq<Authenticator>, e: seq<Authenticator>)
  {
    IsListOf(b, api, v) && IsListOf(b, api, c) && IsListOf(b, api, m) && IsListOf(b, api, e)
    && s == StatefulSet([DATA_CLAIM], BaseVolumes(b) + FlatMap(Volumes, v), MainContainer(b, c, m, e))
  }

  predicate IsListOf(b: StatefulSetInput, api: Snapshot, list: seq<Authenticator>) {
    PossibleList(api, AuthenticationSpecs(b.clusterConfig), list) && DistinctTypes(list)
  }

  /** Every StatefulSet one build may produce: four calls, each with its own order. */
  ghost predicate PossibleStatefulSet(b: StatefulSetInput, api: Snapshot, s: StatefulSet) {
    exists v, c, m, e :: BuiltFrom(b, api, s, v, c, m, e)
  }

  function WithVector(b: StatefulSetInput, pod: PodTemplate, vector: Vector): PodTemplate {
    if UsesVector(b.clusterConfig) then
      PodTemplate(pod.claims, pod.volumes + vector.volumes, pod.containers + [vector.container])
    else pod
  }

  /** The pod template a new builder yields when the operator's part is `s`. */
  function PodOf(b: StatefulSetInput, s: StatefulSet, vector: Vector): PodTemplate {
    WithVector(b, PodTemplate(s.claims, s.volumes, [s.container]), vector)
  }

  predicate CanBuild(b: StatefulSetInput, api: Snapshot) {
    var specs := AuthenticationSpecs(b.clusterConfig);
    (forall i :: 0 <= i < |specs| ==> !Stops(api, specs, i))
    && forall a <- Resolved(api, specs) :: HasConfig(a)
  }

  /* ----- The builder ----- */

  class StatefulSetBuilder {
    const input: StatefulSetInput
    var claims: seq<string>
    var volumes: seq<Volume>
    var containers: seq<Container>

    constructor (input: StatefulSetInput)
      ensures this.input == input && claims == [] && volumes == [] && containers == []
    {
      this.input := input;
      claims, volumes, containers := [], [], [];
    }

    method Authenticators(api: Snapshot) returns (r: Outcome<seq<Authenticator>>)
      ensures r.Ok? <==> forall i :: 0 <= i < |AuthenticationSpecs(input.clusterConfig)|
                                     ==> !Stops(api, AuthenticationSpecs(input.clusterConfig), i)
      ensures r.Ok? ==> IsListOf(input, api, r.value)
    {
      r := NewAuthentication(api, AuthenticationSpecs(input.clusterConfig));
    }

    method GetVolumes(api: Snapshot) returns (r: Outcome<seq<Volume>>, ghost v: seq<Authenticator>)
      ensures r.Ok? <==> forall i :: 0 <= i < |AuthenticationSpecs(input.clusterConfig)|
                                     ==> !Stops(api, AuthenticationSpecs(input.clusterConfig), i)
      ensures r.Ok? ==> IsListOf(input, api, v) && r.value == BaseVolumes(input) + FlatMap(Volumes, v)
    {
      v := [];
      var forVolumes := Authenticators(api);
      if !forVolumes.Ok? {
        r := Propagate(forVolumes);
        return;
      }
      v := forVolumes.value;
      var added := Gather(forVolumes.value, Volumes);
      r := Ok(BaseVolumes(input) + added);
    }

    method GetMainContainer(api: Snapshot)
      returns (r: Outcome<Container>, ghost c: seq<Authenticator>, ghost m: seq<Authenticator>,
               ghost e: seq<Authenticator>)
      ensures r.Ok? <==> CanBuild(input, api)
      ensures r.Ok? ==> IsListOf(input, api, c) && IsListOf(input, api, m) && IsListOf(input, api, e)
                        && r.value == MainContainer(input, c, m, e)
    {
      c, m, e := [], [], [];
      var tls := EnabledTls(input.clusterConfig);
      var forCommands := Authenticators(api);
      if !forCommands.Ok? {
        r := Propagate(forCommands);
        return;
      }
      var commands := Gather(forCommands.value, Commands);
      var forMounts := Authenticators(api);
      if !forMounts.Ok? {
        r := Propagate(forMounts);
        return;
      }
      var mounts := Gather(forMounts.value, VolumeMounts);
      var forEnv := Authenticators(api);
      if !forEnv.Ok? {
        r := Propagate(forEnv);
        return;
      }
      var envVars := GetEnvVars(forEnv.value);
      PermutationKeepsElements(forEnv.value, Resolved(api, AuthenticationSpecs(input.clusterConfig)));
      if !envVars.Ok? {
        r := Panic;
        return;
      }
      c, m, e := forCommands.value, forMounts.value, forEnv.value;
      var container :=
        Container(input.roleName, commands, BaseMounts(tls) + mounts, SharedSecrets(input), envVars.value, input.ports,
                  MainProbe(tls));
      r := Ok(container);
    }

    /** The claim is added before anything can fail; the volumes before the container is made. The
        builder keeps its own volumes and containers; Vector's go into the resulting object. */
    method Build(api: Snapshot, vector: Vector) returns (r: Outcome<PodTemplate>)
      modifies this
      ensures r.Ok? <==> CanBuild(input, api)
      ensures r.Ok? ==> exists built ::
                          PossibleStatefulSet(input, api, built)
                          && claims == old(claims) + built.claims && volumes == old(volumes) + built.volumes
                          && containers == old(containers) + [built.container]
      ensures r.Ok? ==> r.value == WithVector(input, PodTemplate(claims, volumes, containers), vector)
      ensures r.Ok? ==> r.value.claims == claims && volumes <= r.value.volumes && containers <= r.value.containers
      ensures !r.Ok? ==> containers == old(containers) && claims == old(claims) + [DATA_CLAIM]
    {
      claims := claims + [DATA_CLAIM];
      ghost var v, c, m, e;
      var added, container;
      added, v := GetVolumes(api);
      if !added.Ok? {
        return Propagate(added);
      }
      volumes := volumes + added.value;
      container, c, m, e := GetMainContainer(api);
      if !container.Ok? {
        return Propagate(container);
      }
      containers := containers + [container.value];
      ghost var built := StatefulSet([DATA_CLAIM], added.value, container.value);
      assert BuiltFrom(input, api, built, v, c, m, e);
      var pod := PodTemplate(claims, volumes, containers);
      if UsesVector(input.clusterConfig) {
        pod := PodTemplate(claims, pod.volumes + vector.volumes, pod.containers + [vector.container]);
      }
      r := Ok(pod);
    }
  }

  /* ----- Volumes and mounts fit together ----- */

  function NameOfVolume(v: Volume): string { v.name }

  function NameOfMount(m: VolumeMount): string { m.name }

  function PathOfMount(m: VolumeMount): Path { m.path }

  function VolumeNames(volumes: seq<Volume>): seq<string> { Map(NameOfVolume, volumes) }

  function MountNames(mounts: seq<VolumeMount>): seq<string> { Map(NameOfMount, mounts) }

  function MountPaths(mounts: seq<VolumeMount>): seq<Path> { Map(PathOfMount, mounts) }

  /** Constant names: at most one volume per kind. */
  function AuthenticatorVolumeName(a: Authenticator): seq<string> {
    match a
    case Oidc(_, _) => []
    case Static(_) => [AUTH_SECRETS_VOLUME]
    case Ldap(_) => [BIND_CREDENTIALS_VOLUME]
  }

  lemma AggregatedNames(list: seq<Authenticator>)
    ensures VolumeNames(FlatMap(Volumes, list)) == FlatMap(AuthenticatorVolumeName, list)
    ensures MountNames(FlatMap(VolumeMounts, list)) == FlatMap(AuthenticatorVolumeName, list)
  {
    forall a | a in list
      ensures Map(NameOfVolume, Volumes(a)) == AuthenticatorVolumeName(a) == Map(NameOfMount, VolumeMounts(a))
    {
      OneVolumeOneMount(a);
    }
    MapOfFlatMap(Volumes, NameOfVolume, AuthenticatorVolumeName, list);
    MapOfFlatMap(VolumeMounts, NameOfMount, AuthenticatorVolumeName, list);
  }

  lemma OneVolumeOneMount(a: Authenticator)
    ensures Map(NameOfVolume, Volumes(a)) == AuthenticatorVolumeName(a)
    ensures Map(NameOfMount, VolumeMounts(a)) == AuthenticatorVolumeName(a)
  {
  }

  lemma {:induction false} AggregatedNamesDistinct(list: seq<Authenticator>)
    requires DistinctTypes(list)
    ensures NoDuplicates(FlatMap(AuthenticatorVolumeName, list))
    ensures forall n <- FlatMap(AuthenticatorVolumeName, list) :: exists a <- list :: AuthenticatorVolumeName(a) == [n]
  {
    if list != [] {
      AggregatedNamesDistinct(list[1..]);
      var names := FlatMap(AuthenticatorVolumeName, list[1..]);
      assert list == [list[0]] + list[1..];
      forall n | n in names
        ensures AuthenticatorVolumeName(list[0]) != [n]
      {
        var a :| a in list[1..] && AuthenticatorVolumeName(a) == [n];
        assert TypeOf(a) != TypeOf(list[0]);
      }
    }
  }

  function PlainVolumeNames(tls: bool): seq<string> {
    ["log", "client-tls"] + if tls then ["server-tls", "internal-tls"] else []
  }

  lemma BaseNames(b: StatefulSetInput)
    ensures VolumeNames(BaseVolumes(b)) == ["config"] + PlainVolumeNames(EnabledTls(b.clusterConfig))
    ensures MountNames(BaseMounts(EnabledTls(b.clusterConfig)))
            == ["config"] + [DATA_CLAIM] + PlainVolumeNames(EnabledTls(b.clusterConfig))
  {
  }

  lemma BaseNamesDistinct(tls: bool)
    ensures NoDuplicates(["config"] + PlainVolumeNames(tls) + [DATA_CLAIM])
    ensures AUTH_SECRETS_VOLUME !in ["config"] + PlainVolumeNames(tls) + [DATA_CLAIM]
    ensures BIND_CREDENTIALS_VOLUME !in ["config"] + PlainVolumeNames(tls) + [DATA_CLAIM]
  {
  }

  /** For every order of the authenticators on either side: the names of volumes and claim are
      pairwise distinct, and the mounts name each of them exactly once and nothing else. */
  lemma VolumesAndMountsMatch(b: StatefulSetInput, api: Snapshot, s: StatefulSet)
    requires PossibleStatefulSet(b, api, s)
    ensures NoDuplicates(VolumeNames(s.volumes) + s.claims)
    ensures multiset(MountNames(s.container.mounts)) == multiset(VolumeNames(s.volumes) + s.claims)
  {
    var specs := AuthenticationSpecs(b.clusterConfig);
    var v, c, m, e :| BuiltFrom(b, api, s, v, c, m, e);
    VolumeNameList(b, v);
    MountNameList(b, m);
    BaseNamesDistinct(EnabledTls(b.clusterConfig));
    NamesMatch(["config"], PlainVolumeNames(EnabledTls(b.clusterConfig)), v, m);
  }

  lemma VolumeNameList(b: StatefulSetInput, v: seq<Authenticator>)
    ensures VolumeNames(BaseVolumes(b) + FlatMap(Volumes, v))
            == ["config"] + PlainVolumeNames(EnabledTls(b.clusterConfig)) + FlatMap(AuthenticatorVolumeName, v)
  {
    BaseNames(b);
    AggregatedNames(v);
    MapConcat(NameOfVolume, BaseVolumes(b), FlatMap(Volumes, v));
  }

  lemma MountNameList(b: StatefulSetInput, m: seq<Authenticator>)
    ensures MountNames(BaseMounts(EnabledTls(b.clusterConfig)) + FlatMap(VolumeMounts, m))
            == ["config"] + [DATA_CLAIM] + PlainVolumeNames(EnabledTls(b.clusterConfig))
               + FlatMap(AuthenticatorVolumeName, m)
  {
    BaseNames(b);
    AggregatedNames(m);
    MapConcat(NameOfMount, BaseMounts(EnabledTls(b.clusterConfig)), FlatMap(VolumeMounts, m));
  }

  lemma NamesMatch(first: seq<string>, plain: seq<string>, v: seq<Authenticator>, m: seq<Authenticator>)
    requires multiset(v) == multiset(m) && DistinctTypes(v)
    requires NoDuplicates(first + plain + [DATA_CLAIM])
    requires AUTH_SECRETS_VOLUME !in first + plain + [DATA_CLAIM]
             && BIND_CREDENTIALS_VOLUME !in first + plain + [DATA_CLAIM]
    ensures NoDuplicates(first + plain + FlatMap(AuthenticatorVolumeName, v) + [DATA_CLAIM])
    ensures multiset(first + [DATA_CLAIM] + plain + FlatMap(AuthenticatorVolumeName, m))
            == multiset(first + plain + FlatMap(AuthenticatorVolumeName, v) + [DATA_CLAIM])
  {
    FlatMapOrderIndependent(AuthenticatorVolumeName, v, m);
    AggregatedNamesDistinct(v);
    AggregatedNamesKnown(v);
    NamesLineUp(first, plain, FlatMap(AuthenticatorVolumeName, v), FlatMap(AuthenticatorVolumeName, m), DATA_CLAIM);
  }

  lemma AggregatedNamesKnown(list: seq<Authenticator>)
    ensures forall n <- FlatMap(AuthenticatorVolumeName, list) ::
              n == AUTH_SECRETS_VOLUME || n == BIND_CREDENTIALS_VOLUME
  {
    forall n | n in FlatMap(AuthenticatorVolumeName, list)
      ensures n == AUTH_SECRETS_VOLUME || n == BIND_CREDENTIALS_VOLUME
    {
      FlatMapMembers(AuthenticatorVolumeName, list, n);
    }
  }

  lemma NamesLineUp(first: seq<string>, plain: seq<string>, added: seq<string>, mounted: seq<string>, claim: string)
    requires NoDuplicates(first + plain + [claim]) && NoDuplicates(added)
    requires forall n <- added :: n !in first + plain + [claim]
    requires multiset(added) == multiset(mounted)
    ensures NoDuplicates(first + plain + added + [claim])
    ensures multiset(first + [claim] + plain + mounted) == multiset(first + plain + added + [claim])
  {
    var base := first + plain;
    NoDuplicatesConcat(base, [claim]);
    NoDuplicatesConcat(base, added);
    NoDuplicatesConcat(base + added, [claim]);
  }

  /* ----- With the Vector sidecar ----- */

  /** The names the operator's own volumes and claim have. */
  function OwnNames(tls: bool, list: seq<Authenticator>): seq<string> {
    ["config", DATA_CLAIM] + PlainVolumeNames(tls)
    + (if HasType(list, STATIC) then [AUTH_SECRETS_VOLUME] else [])
    + (if HasType(list, LDAP) then [BIND_CREDENTIALS_VOLUME] else [])
  }

  lemma OwnName(b: StatefulSetInput, api: Snapshot, s: StatefulSet, name: string)
    requires PossibleStatefulSet(b, api, s)
    ensures name in VolumeNames(s.volumes) + s.claims
            <==> name in OwnNames(EnabledTls(b.clusterConfig), Resolved(api, AuthenticationSpecs(b.clusterConfig)))
  {
    var list := Resolved(api, AuthenticationSpecs(b.clusterConfig));
    var v, c, m, e :| BuiltFrom(b, api, s, v, c, m, e);
    VolumeNameList(b, v);
    PermutationKeepsElements(v, list);
    FlatMapMembers(AuthenticatorVolumeName, v, name);
    AuthenticatorNames(v, list, name);
  }

  lemma AuthenticatorNames(v: seq<Authenticator>, list: seq<Authenticator>, name: string)
    requires forall a :: a in v <==> a in list
    ensures (exists a <- v :: name in AuthenticatorVolumeName(a))
            <==> (HasType(list, STATIC) && name == AUTH_SECRETS_VOLUME)
                 || (HasType(list, LDAP) && name == BIND_CREDENTIALS_VOLUME)
  {
    forall a | a in list
      ensures name in AuthenticatorVolumeName(a)
              <==> (TypeOf(a) == STATIC && name == AUTH_SECRETS_VOLUME)
                   || (TypeOf(a) == LDAP && name == BIND_CREDENTIALS_VOLUME)
    {
    }
  }

  /** The pod has the operator's claim, volumes and container, and beside them exactly what Vector
      brings, which it does exactly when an aggregator is named. */
  lemma PodHasBothParts(b: StatefulSetInput, s: StatefulSet, vector: Vector)
    ensures var pod := PodOf(b, s, vector);
            var uses := b.clusterConfig.Some? && b.clusterConfig.value.vectorAggregatorConfigMapName != "";
            pod.claims == s.claims && s.container in pod.containers
            && multiset(pod.volumes) == multiset(s.volumes) + multiset(if uses then vector.volumes else [])
            && |pod.containers| == (if uses then 2 else 1) && (uses ==> vector.container in pod.containers)
  {
    assert s.container in [s.container] && vector.container in [vector.container];
  }

  /** The build fails on no order exactly when the classes were read, ask for at most one
      authenticator of each type, and for OIDC only with a client configuration. */
  lemma CanBuildExactly(b: StatefulSetInput, api: Snapshot)
    ensures var specs := AuthenticationSpecs(b.clusterConfig);
            CanBuild(b, api)
            <==> (forall i :: 0 <= i < |specs| ==> WasRead(api, specs[i])) && !TwoOfOneType(api, specs)
                 && forall a :: AskedFor(api, specs, a) ==> a.Oidc? ==> a.config.Some?
  {
    var specs := AuthenticationSpecs(b.clusterConfig);
    AcceptedExactly(api, specs);
    if forall a <- Resolved(api, specs) :: HasConfig(a) {
      forall a | AskedFor(api, specs, a)
        ensures a.Oidc? ==> a.config.Some?
      {
        ResolvedExactly(api, specs, a);
        assert HasConfig(a);
      }
    } else {
      var a :| a in Resolved(api, specs) && !HasConfig(a);
      ResolvedExactly(api, specs, a);
    }
  }

  /** Pod volume names stay distinct exactly when Vector brings distinct names that the operator does
      not use; and every mount of every container is declared exactly when Vector's own are. */
  lemma PodVolumesDistinctExactly(b: StatefulSetInput, api: Snapshot, s: StatefulSet, vector: Vector)
    requires PossibleStatefulSet(b, api, s)
    ensures var own := OwnNames(EnabledTls(b.clusterConfig), Resolved(api, AuthenticationSpecs(b.clusterConfig)));
            var pod, names := PodOf(b, s, vector), VolumeNames(vector.volumes);
            (NoDuplicates(VolumeNames(pod.volumes) + pod.claims)
             <==> (UsesVector(b.clusterConfig) ==> NoDuplicates(names) && forall n <- names :: n !in own))
            && ((forall c <- pod.containers, m <- c.mounts :: m.name in VolumeNames(pod.volumes) + pod.claims)
                <==> (UsesVector(b.clusterConfig) ==>
                      forall m <- vector.container.mounts :: m.name in own || m.name in names))
  {
    VolumesAndMountsMatch(b, api, s);
    MountsAreDeclared(b, api, s);
    forall n
      ensures n in VolumeNames(s.volumes) + s.claims
              <==> n in OwnNames(EnabledTls(b.clusterConfig), Resolved(api, AuthenticationSpecs(b.clusterConfig)))
    {
      OwnName(b, api, s, n);
    }
    if UsesVector(b.clusterConfig) {
      MapConcat(NameOfVolume, s.volumes, vector.volumes);
      MoreNames(VolumeNames(s.volumes), VolumeNames(vector.volumes), s.claims);
      MoreMounts(s.container, vector.container, VolumeNames(s.volumes), VolumeNames(vector.volumes), s.claims);
    }
  }

  lemma MoreNames(mine: seq<string>, more: seq<string>, claims: seq<string>)
    requires NoDuplicates(mine + claims)
    ensures NoDuplicates(mine + more + claims) <==> NoDuplicates(more) && forall n <- more :: n !in mine + claims
  {
    NoDuplicatesConcat(mine, claims);
    NoDuplicatesConcat(mine, more);
    NoDuplicatesConcat(mine + more, claims);
  }

  lemma MoreMounts(x: Container, y: Container, mine: seq<string>, more: seq<string>, claims: seq<string>)
    requires forall m <- x.mounts :: m.name in mine + claims
    ensures (forall c <- [x] + [y], m <- c.mounts :: m.name in mine + more + claims)
            <==> forall m <- y.mounts :: m.name in mine + claims || m.name in more
  {
    assert y in [x] + [y];
  }

  lemma MountsAreDeclared(b: StatefulSetInput, api: Snapshot, s: StatefulSet)
    requires PossibleStatefulSet(b, api, s)
    ensures forall mount <- s.container.mounts :: mount.name in VolumeNames(s.volumes) + s.claims
  {
    VolumesAndMountsMatch(b, api, s);
    PermutationKeepsElements(MountNames(s.container.mounts), VolumeNames(s.volumes) + s.claims);
    forall mount | mount in s.container.mounts
      ensures mount.name in MountNames(s.container.mounts)
    {
      var i :| 0 <= i < |s.container.mounts| && s.container.mounts[i] == mount;
      assert MountNames(s.container.mounts)[i] == mount.name;
    }
  }

  /* ----- Mount paths ----- */

  const AUTH_SECRETS_PATH: Path := KUBEDOOP_ROOT + ["auth-secrets"]

  function AuthenticatorMountPath(a: Authenticator): seq<Path> {
    match a
    case Oidc(_, _) => []
    case Static(_) => [AUTH_SECRETS_PATH]
    case Ldap(ldap) => [BindCredentialsMountPath(ldap)]
  }

  lemma OneMountPath(a: Authenticator)
    ensures Map(PathOfMount, VolumeMounts(a)) == AuthenticatorMountPath(a)
  {
    JoinSegment(KUBEDOOP_ROOT, "auth-secrets");
  }

  lemma AggregatedPaths(list: seq<Authenticator>)
    ensures MountPaths(FlatMap(VolumeMounts, list)) == FlatMap(AuthenticatorMountPath, list)
  {
    forall a | a in list
      ensures Map(PathOfMount, VolumeMounts(a)) == AuthenticatorMountPath(a)
    {
      OneMountPath(a);
    }
    MapOfFlatMap(VolumeMounts, PathOfMount, AuthenticatorMountPath, list);
  }

  /** The LDAP credentials are mounted where the Static ones are. */
  predicate Clash(x: Authenticator, y: Authenticator) {
    (x.Ldap? && y.Static? && BindCredentialsMountPath(x.ldap) == AUTH_SECRETS_PATH)
    || (x.Static? && y.Ldap? && BindCredentialsMountPath(y.ldap) == AUTH_SECRETS_PATH)
  }

  predicate CredentialsApart(list: seq<Authenticator>) {
    forall x, y :: x in list && y in list ==> !Clash(x, y)
  }

  lemma ClashIsSharedPath(x: Authenticator, y: Authenticator)
    requires TypeOf(x) != TypeOf(y)
    ensures Clash(x, y) <==> exists p <- AuthenticatorMountPath(x) :: p in AuthenticatorMountPath(y)
  {
    if Clash(x, y) {
      assert AUTH_SECRETS_PATH in AuthenticatorMountPath(x);
    }
  }

  lemma {:induction false} AggregatedPathsDistinct(list: seq<Authenticator>)
    requires DistinctTypes(list)
    ensures NoDuplicates(FlatMap(AuthenticatorMountPath, list)) <==> CredentialsApart(list)
  {
    if list != [] {
      var first, rest := list[0], list[1..];
      assert list == [first] + rest;
      AggregatedPathsDistinct(rest);
      NoDuplicatesConcat(AuthenticatorMountPath(first), FlatMap(AuthenticatorMountPath, rest));
      forall p
        ensures p in FlatMap(AuthenticatorMountPath, rest) <==> exists a <- rest :: p in AuthenticatorMountPath(a)
      {
        FlatMapMembers(AuthenticatorMountPath, rest, p);
      }
      FirstPathApart(first, rest);
    }
  }

  lemma FirstPathApart(first: Authenticator, rest: seq<Authenticator>)
    requires DistinctTypes([first] + rest)
    ensures CredentialsApart([first] + rest)
            <==> CredentialsApart(rest)
                 && forall a <- rest :: forall p <- AuthenticatorMountPath(first) :: p !in AuthenticatorMountPath(a)
  {
    var list := [first] + rest;
    assert forall x :: x in list <==> x == first || x in rest;
    forall a | a in rest
      ensures Clash(first, a) <==> exists p <- AuthenticatorMountPath(first) :: p in AuthenticatorMountPath(a)
    {
      var i :| 0 <= i < |rest| && rest[i] == a;
      assert list[i + 1] == a && list[0] == first;
      ClashIsSharedPath(first, a);
    }
  }

  /** Where the container mounts something apart from the LDAP credentials. */
  function OperatorPaths(tls: bool, users: bool): set<Path> {
    {KUBEDOOP_CONFIG_DIR_MOUNT, KUBEDOOP_DATA_DIR, KUBEDOOP_LOG_DIR, KUBEDOOP_TLS_DIR + ["client"]}
    + (if tls then {KUBEDOOP_TLS_DIR + ["server"], KUBEDOOP_TLS_DIR + ["internal"]} else {})
    + (if users then {AUTH_SECRETS_PATH} else {})
  }

  lemma BasePaths(tls: bool)
    ensures NoDuplicates(MountPaths(BaseMounts(tls)))
    ensures AUTH_SECRETS_PATH !in MountPaths(BaseMounts(tls))
  {
    var plain := [["kubedoop", "mount", "config"], ["kubedoop", "data"], ["kubedoop", "log"],
                  ["kubedoop", "tls", "client"]];
    var secure := [["kubedoop", "tls", "server"], ["kubedoop", "tls", "internal"]];
    assert KUBEDOOP_TLS_DIR + ["client"] == plain[3];
    assert KUBEDOOP_TLS_DIR + ["server"] == secure[0] && KUBEDOOP_TLS_DIR + ["internal"] == secure[1];
    assert MountPaths(BaseMounts(tls)) == plain + if tls then secure else [];
    assert AUTH_SECRETS_PATH[1] == "auth-secrets";
  }

  lemma BasePathMembers(tls: bool, p: Path)
    ensures p in OperatorPaths(tls, false) <==> p in MountPaths(BaseMounts(tls))
  {
    var paths := MountPaths(BaseMounts(tls));
    assert paths[..4]
           == [KUBEDOOP_CONFIG_DIR_MOUNT, KUBEDOOP_DATA_DIR, KUBEDOOP_LOG_DIR, KUBEDOOP_TLS_DIR + ["client"]];
    assert paths[4..] == if tls then [KUBEDOOP_TLS_DIR + ["server"], KUBEDOOP_TLS_DIR + ["internal"]] else [];
    assert paths == paths[..4] + paths[4..];
  }

  /** The container's mount paths are pairwise distinct exactly when the path joined from the LDAP
      secret class, if any, is none of the other directories the container mounts. */
  lemma MountPathsDistinctExactly(b: StatefulSetInput, api: Snapshot, s: StatefulSet)
    requires PossibleStatefulSet(b, api, s)
    ensures var list := Resolved(api, AuthenticationSpecs(b.clusterConfig));
            NoDuplicates(MountPaths(s.container.mounts))
            <==> forall a <- list :: a.Ldap? ==>
                   PathJoin(KUBEDOOP_TLS_DIR, a.ldap.secretClass)
                   !in OperatorPaths(EnabledTls(b.clusterConfig), HasType(list, STATIC))
  {
    var specs := AuthenticationSpecs(b.clusterConfig);
    var v, c, m, e :| BuiltFrom(b, api, s, v, c, m, e);
    PermutationKeepsElements(m, Resolved(api, specs));
    assert HasType(m, STATIC) == HasType(Resolved(api, specs), STATIC);
    AggregatedPaths(m);
    MapConcat(PathOfMount, BaseMounts(EnabledTls(b.clusterConfig)), FlatMap(VolumeMounts, m));
    PathsDistinctExactly(EnabledTls(b.clusterConfig), m);
  }

  lemma PathsDistinctExactly(tls: bool, list: seq<Authenticator>)
    requires DistinctTypes(list)
    ensures NoDuplicates(MountPaths(BaseMounts(tls)) + FlatMap(AuthenticatorMountPath, list))
            <==> forall a <- list :: a.Ldap? ==>
                   BindCredentialsMountPath(a.ldap) !in OperatorPaths(tls, HasType(list, STATIC))
  {
    var base, added := MountPaths(BaseMounts(tls)), FlatMap(AuthenticatorMountPath, list);
    NoDuplicatesConcat(base, added);
    BasePaths(tls);
    AggregatedPathsDistinct(list);
    forall p
      ensures p in added <==> exists a <- list :: p in AuthenticatorMountPath(a)
      ensures p in OperatorPaths(tls, HasType(list, STATIC))
              <==> p in base || (HasType(list, STATIC) && p == AUTH_SECRETS_PATH)
    {
      FlatMapMembers(AuthenticatorMountPath, list, p);
      BasePathMembers(tls, p);
    }
    PathsApart(base, added, list);
  }

  lemma PathsApart(base: seq<Path>, added: seq<Path>, list: seq<Authenticator>)
    requires AUTH_SECRETS_PATH !in base
    requires forall p :: p in added <==> exists a <- list :: p in AuthenticatorMountPath(a)
    ensures (forall p <- base :: p !in added) && CredentialsApart(list)
            <==> forall a <- list :: a.Ldap? ==> var p := BindCredentialsMountPath(a.ldap);
                                                 p !in base && !(HasType(list, STATIC) && p == AUTH_SECRETS_PATH)
  {
    forall a | a in list && a.Ldap?
      ensures BindCredentialsMountPath(a.ldap) in added
    {
      assert BindCredentialsMountPath(a.ldap) in AuthenticatorMountPath(a);
    }
    if HasType(list, STATIC) {
      var b :| b in list && TypeOf(b) == STATIC;
      assert b.Static?;
    }
  }

  /** For a class that is one path segment, the condition is on its name alone. */
  lemma ReservedClasses(tls: bool, users: bool, secretClass: string)
    requires IsSegment(secretClass)
    ensures PathJoin(KUBEDOOP_TLS_DIR, secretClass) in OperatorPaths(tls, users)
            <==> secretClass == "client" || (tls && secretClass in ["server", "internal"])
  {
    JoinSegment(KUBEDOOP_TLS_DIR, secretClass);
    var p := KUBEDOOP_TLS_DIR + [secretClass];
    assert |p| == 3 && p[1] == "tls" && p[2] == secretClass;
    assert |AUTH_SECRETS_PATH| == 2 && KUBEDOOP_CONFIG_DIR_MOUNT[1] == "mount";
  }

  /* ----- Order independence ----- */

  /** Only Static and LDAP authenticators bring volumes; the spec asks for both. */
  ghost predicate BothWithVolumes(b: StatefulSetInput, api: Snapshot) {
    (exists a :: AskedFor(api, AuthenticationSpecs(b.clusterConfig), a) && a.Static?)
    && (exists a :: AskedFor(api, AuthenticationSpecs(b.clusterConfig), a) && a.Ldap?)
  }

  lemma BothWithVolumesResolved(b: StatefulSetInput, api: Snapshot)
    ensures var list := Resolved(api, AuthenticationSpecs(b.clusterConfig));
            BothWithVolumes(b, api) <==> HasType(list, STATIC) && HasType(list, LDAP)
  {
    forall a
      ensures a in Resolved(api, AuthenticationSpecs(b.clusterConfig))
              <==> AskedFor(api, AuthenticationSpecs(b.clusterConfig), a)
    {
      ResolvedExactly(api, AuthenticationSpecs(b.clusterConfig), a);
    }
    assert forall a: Authenticator :: (a.Static? <==> TypeOf(a) == STATIC) && (a.Ldap? <==> TypeOf(a) == LDAP);
  }

  lemma SameVolumes(xs: seq<Authenticator>, ys: seq<Authenticator>)
    requires multiset(xs) == multiset(ys) && DistinctTypes(xs) && DistinctTypes(ys)
    requires !(HasType(xs, STATIC) && HasType(xs, LDAP))
    ensures FlatMap(Volumes, xs) == FlatMap(Volumes, ys) && FlatMap(VolumeMounts, xs) == FlatMap(VolumeMounts, ys)
  {
    DistinctTypesNoDuplicates(xs);
    DistinctTypesNoDuplicates(ys);
    forall x, y | x in xs && y in xs && !x.Oidc? && !y.Oidc?
      ensures x == y
    {
      assert TypeOf(x) == TypeOf(y);
    }
    OneContributorAnyOrder(Volumes, xs, ys);
    OneContributorAnyOrder(VolumeMounts, xs, ys);
  }

  /** Only OIDC adds variables and only LDAP adds commands. */
  lemma SameVariablesAndCommands(xs: seq<Authenticator>, ys: seq<Authenticator>)
    requires multiset(xs) == multiset(ys) && DistinctTypes(xs) && DistinctTypes(ys)
    ensures FlatMap(EnvVars, xs) == FlatMap(EnvVars, ys) && FlatMap(Commands, xs) == FlatMap(Commands, ys)
  {
    DistinctTypesNoDuplicates(xs);
    DistinctTypesNoDuplicates(ys);
    forall x, y | x in xs && y in xs && TypeOf(x) == TypeOf(y)
      ensures x == y
    {
    }
    OneContributorAnyOrder(EnvVars, xs, ys);
    OneContributorAnyOrder(Commands, xs, ys);
  }

  lemma StatefulSetsAgree(b: StatefulSetInput, api: Snapshot, s: StatefulSet, s': StatefulSet)
    requires PossibleStatefulSet(b, api, s) && PossibleStatefulSet(b, api, s')
    requires !BothWithVolumes(b, api)
    ensures s == s'
  {
    var list := Resolved(api, AuthenticationSpecs(b.clusterConfig));
    var v, c, m, e :| BuiltFrom(b, api, s, v, c, m, e);
    var v', c', m', e' :| BuiltFrom(b, api, s', v', c', m', e');
    BothWithVolumesResolved(b, api);
    PermutationKeepsElements(v, list);
    PermutationKeepsElements(m, list);
    SameVolumes(v, v');
    SameVolumes(m, m');
    SameVariablesAndCommands(c, c');
    SameVariablesAndCommands(e, e');
  }

  /** With both kinds that have volumes present, they can come in either order. */
  lemma BothVolumeOrders(list: seq<Authenticator>) returns (xs: seq<Authenticator>, ys: seq<Authenticator>)
    requires DistinctTypes(list) && HasType(list, STATIC) && HasType(list, LDAP)
    ensures multiset(xs) == multiset(list) == multiset(ys) && DistinctTypes(xs) && DistinctTypes(ys)
    ensures FlatMap(Volumes, xs) != FlatMap(Volumes, ys)
  {
    var s :| s in list && TypeOf(s) == STATIC;
    var l :| l in list && TypeOf(l) == LDAP;
    var front := [];
    if HasType(list, OIDC) {
      var o :| o in list && TypeOf(o) == OIDC;
      front := [o];
    }
    xs, ys := front + [s, l], front + [l, s];
    TheThreeKinds(list, front, s, l);
    OrderOfThree(list, front, s, l);
    OrderOfThree(list, front, l, s);
    VolumesOfOrder(front, s, l);
    VolumesOfOrder(front, l, s);
    VolumeNamesDiffer(s, l);
  }

  lemma TheThreeKinds(list: seq<Authenticator>, front: seq<Authenticator>, s: Authenticator, l: Authenticator)
    requires DistinctTypes(list) && s in list && l in list && s.Static? && l.Ldap?
    requires if HasType(list, OIDC) then |front| == 1 && front[0] in list && front[0].Oidc? else front == []
    ensures forall a :: a in list <==> a in front + [s, l]
    ensures forall a :: a in list <==> a in front + [l, s]
  {
    forall a | a in list
      ensures a in front || a == s || a == l
    {
      if a.Oidc? {
        assert TypeOf(a) == OIDC;
        assert TypeOf(front[0]) == TypeOf(a);
      } else {
        assert TypeOf(a) == TypeOf(s) || TypeOf(a) == TypeOf(l);
      }
    }
  }

  lemma OrderOfThree(list: seq<Authenticator>, front: seq<Authenticator>, x: Authenticator, y: Authenticator)
    requires DistinctTypes(list) && |front| <= 1 && (forall a <- front :: a.Oidc?)
    requires !x.Oidc? && !y.Oidc? && TypeOf(x) != TypeOf(y)
    requires forall a :: a in list <==> a in front + [x, y]
    ensures multiset(front + [x, y]) == multiset(list) && DistinctTypes(front + [x, y])
  {
    DistinctTypesNoDuplicates(list);
    DistinctTypesNoDuplicates(front + [x, y]);
    SameElementsSameMultiset(front + [x, y], list);
  }

  lemma VolumesOfOrder(front: seq<Authenticator>, x: Authenticator, y: Authenticator)
    requires forall a <- front :: a.Oidc?
    ensures FlatMap(Volumes, front + [x, y]) == Volumes(x) + Volumes(y)
  {
    FlatMapConcat(Volumes, front, [x, y]);
    FlatMapOfNone(Volumes, front);
    FlatMapConcat(Volumes, [x], [y]);
    assert [x, y] == [x] + [y];
  }

  lemma VolumeNamesDiffer(s: Authenticator, l: Authenticator)
    requires s.Static? && l.Ldap?
    ensures Volumes(s) + Volumes(l) != Volumes(l) + Volumes(s)
  {
    assert (Volumes(s) + Volumes(l))[0].name[0] == 'a';
    assert (Volumes(l) + Volumes(s))[0].name[0] == 'l';
  }

  lemma StatefulSetsDisagree(b: StatefulSetInput, api: Snapshot) returns (s: StatefulSet, s': StatefulSet)
    requires CanBuild(b, api)
    requires BothWithVolumes(b, api)
    ensures PossibleStatefulSet(b, api, s) && PossibleStatefulSet(b, api, s') && s != s'
  {
    var specs := AuthenticationSpecs(b.clusterConfig);
    ResolvedDistinct(api, specs);
    BothWithVolumesResolved(b, api);
    var xs, ys := BothVolumeOrders(Resolved(api, specs));
    s := StatefulSet([DATA_CLAIM], BaseVolumes(b) + FlatMap(Volumes, xs), MainContainer(b, xs, xs, xs));
    s' := StatefulSet([DATA_CLAIM], BaseVolumes(b) + FlatMap(Volumes, ys), MainContainer(b, ys, ys, ys));
    assert BuiltFrom(b, api, s, xs, xs, xs, xs) && BuiltFrom(b, api, s', ys, ys, ys, ys);
    TailsDiffer(BaseVolumes(b), FlatMap(Volumes, xs), FlatMap(Volumes, ys));
  }

  lemma TailsDiffer<T>(base: seq<T>, xs: seq<T>, ys: seq<T>)
    requires xs != ys
    ensures base + xs != base + ys
  {
    assert (base + xs)[|base|..] == xs && (base + ys)[|base|..] == ys;
  }

  /** All builds of a role group's StatefulSet give the same object, order of volumes and mounts
      included, exactly when the spec does not resolve to both a Static and an LDAP authenticator. */
  lemma StatefulSetDeterministicExactly(b: StatefulSetInput, api: Snapshot)
    requires CanBuild(b, api)
    ensures (forall s, s' :: PossibleStatefulSet(b, api, s) && PossibleStatefulSet(b, api, s') ==> s == s')
            <==> !BothWithVolumes(b, api)
  {
    if BothWithVolumes(b, api) {
      var s, s' := StatefulSetsDisagree(b, api);
    } else {
      forall s, s' | PossibleStatefulSet(b, api, s) && PossibleStatefulSet(b, api, s')
        ensures s == s'
      {
        StatefulSetsAgree(b, api, s, s');
      }
    }
  }
}
