/** Aggregating the contributions of a list of authenticators whose order is arbitrary. */
module Aggregation {
  import opened Outcomes
  import opened Orders
  import opened Spec
  import opened Authentication
  import opened Contributions

  /** An OIDC authenticator dereferences its client configuration. */
  predicate HasConfig(a: Authenticator) {
    a.Oidc? ==> a.config.Some?
  }

  /** A Static authenticator returns a nil property object, on which `Keys` cannot be called. */
  predicate Configurable(a: Authenticator) {
    !a.Static? && HasConfig(a)
  }

  function EnvVars(a: Authenticator): seq<EnvVar> {
    if a.Oidc? && a.config.Some? then
      var secret := a.config.value.clientCredentialsSecret;
      [EnvVar("OIDC_CLIENT_ID", secret, "CLIENT_ID"), EnvVar("OIDC_CLIENT_SECRET", secret, "CLIENT_SECRET")]
    else []
  }

  /** The class name a Static volume name ends in is never filled in. */
  const AUTH_SECRETS_VOLUME := "auth-secrets-"

  function Volumes(a: Authenticator): seq<Volume> {
    match a
    case Oidc(_, _) => []
    case Static(users) => [Volume(AUTH_SECRETS_VOLUME, SecretSource(users.userCredentialsSecret))]
    case Ldap(ldap) => [Volume(BIND_CREDENTIALS_VOLUME,
                               SecretClassVolume(ldap.secretClass, ScopeAnnotation(ldap.scope)))]
  }

  function VolumeMounts(a: Authenticator): seq<VolumeMount> {
    match a
    case Oidc(_, _) => []
    case Static(_) => [VolumeMount(AUTH_SECRETS_VOLUME, PathJoin(KUBEDOOP_ROOT, "auth-secrets"))]
    case Ldap(ldap) => [VolumeMount(BIND_CREDENTIALS_VOLUME, BindCredentialsMountPath(ldap))]
  }

  function Commands(a: Authenticator): seq<Export> {
    match a
    case Ldap(ldap) =>
      var directory := BindCredentialsMountPath(ldap);
      [Export("LDAP_USER", directory, "user"), Export("LDAP_PASSWORD", directory, "password")]
    case _ => []
  }

  function ConfigProperties(a: Authenticator): Properties {
    match a
    case Oidc(Some(config), oidc) => OidcProperties(config, oidc)
    case Ldap(ldap) => LdapProperties(ldap)
    case _ => map[]
  }

  /** The append loops of the volume, mount and command getters. */
  method Gather<T>(list: seq<Authenticator>, get: Authenticator -> seq<T>) returns (all: seq<T>)
    ensures all == FlatMap(get, list)
  {
    all := [];
    for i := 0 to |list|
      invariant all == FlatMap(get, list[..i])
    {
      assert list[..i + 1] == list[..i] + [list[i]];
      FlatMapConcat(get, list[..i], [list[i]]);
      all := all + get(list[i]);
    }
    assert list[..|list|] == list;
  }

  method GetEnvVars(list: seq<Authenticator>) returns (r: Outcome<seq<EnvVar>>)
    ensures r == if forall a <- list :: HasConfig(a) then Ok(FlatMap(EnvVars, list)) else Panic
  {
    for i := 0 to |list|
      invariant forall j :: 0 <= j < i ==> HasConfig(list[j])
    {
      if !HasConfig(list[i]) {
        return Panic;
      }
    }
    var all := Gather(list, EnvVars);
    r := Ok(all);
  }

  /** Property objects added one after the other: later additions overwrite earlier ones. */
  function MergeOf(f: Authenticator -> Properties, list: seq<Authenticator>): Properties {
    if list == [] then map[]
    else MergeOf(f, list[..|list| - 1]) + f(list[|list| - 1])
  }

  function Merge(list: seq<Authenticator>): Properties {
    MergeOf(ConfigProperties, list)
  }

  /** Adding every entry of `extra` to `p`, one at a time and in any order. */
  method AddAll<V>(p: map<string, V>, extra: map<string, V>) returns (q: map<string, V>)
    ensures q == p + extra
  {
    q := p;
    var todo := extra.Keys;
    while todo != {}
      invariant todo <= extra.Keys && q.Keys == p.Keys + (extra.Keys - todo)
      invariant forall k <- q :: q[k] == if k in extra && k !in todo then extra[k] else p[k]
      decreases |todo|
    {
      var key :| key in todo;
      q := q[key := extra[key]];
      todo := todo - {key};
    }
  }

  method GetConfigProperties(list: seq<Authenticator>) returns (r: Outcome<Properties>)
    ensures r.Ok? <==> forall a <- list :: Configurable(a)
    ensures r.Ok? ==> r.value == Merge(list)
    ensures !r.Err?
  {
    var p: Properties := map[];
    for i := 0 to |list|
      invariant forall a <- list[..i] :: Configurable(a)
      invariant p == Merge(list[..i])
    {
      assert list[i] in list;
      if !Configurable(list[i]) {
        return Panic;
      }
      p := AddAll(p, ConfigProperties(list[i]));
      assert list[..i + 1][..i] == list[..i];
    }
    assert list[..|list|] == list;
    r := Ok(p);
  }

  predicate HasType(list: seq<Authenticator>, t: AuthenticationType) {
    exists a <- list :: TypeOf(a) == t
  }

  predicate Mergeable(list: seq<Authenticator>) {
    DistinctTypes(list) && forall a <- list :: Configurable(a)
  }

  /** Any two members share no key but `shared`. */
  predicate ShareOnly(f: Authenticator -> Properties, list: seq<Authenticator>, shared: string) {
    forall i, j, key :: 0 <= i < j < |list| && key in f(list[i]) && key in f(list[j]) ==> key == shared
  }

  /** The merged properties hold exactly the keys of the members; outside the shared key, each
      has the value its own authenticator gave it. */
  lemma {:induction false} MergeLookup(f: Authenticator -> Properties, list: seq<Authenticator>, shared: string,
                                       key: string)
    requires ShareOnly(f, list, shared)
    ensures key in MergeOf(f, list) <==> exists a <- list :: key in f(a)
    ensures forall a <- list :: key in f(a) && key != shared ==> MergeOf(f, list)[key] == f(a)[key]
  {
    if list != [] {
      var n := |list| - 1;
      MergeLookup(f, list[..n], shared, key);
      assert list == list[..n] + [list[n]];
    }
  }

  lemma KindsShareOnlyType(list: seq<Authenticator>)
    requires Mergeable(list)
    ensures ShareOnly(ConfigProperties, list, AUTHENTICATION_TYPE)
  {
    forall i, j, key | 0 <= i < j < |list| && key in ConfigProperties(list[i]) && key in ConfigProperties(list[j])
      ensures key == AUTHENTICATION_TYPE
    {
      var x, y := list[i], list[j];
      assert Configurable(x) && Configurable(y) && TypeOf(x) != TypeOf(y);
      KindsShareType(x, y, key);
    }
  }

  function KeysOf(t: AuthenticationType): set<string> {
    match t
    case OIDC => OIDC_KEYS
    case LDAP => LDAP_KEYS
    case STATIC => {}
  }

  lemma PropertyKeys(a: Authenticator)
    requires Configurable(a)
    ensures ConfigProperties(a).Keys == KeysOf(TypeOf(a))
  {
  }

  lemma KindsShareType(x: Authenticator, y: Authenticator, key: string)
    requires Configurable(x) && Configurable(y) && TypeOf(x) != TypeOf(y)
    requires key in ConfigProperties(x) && key in ConfigProperties(y)
    ensures key == AUTHENTICATION_TYPE
  {
    PropertyKeys(x);
    PropertyKeys(y);
    CommonKey(key);
  }

  lemma CommonKey(key: string)
    ensures key in OIDC_KEYS && key in LDAP_KEYS ==> key == AUTHENTICATION_TYPE
  {
  }

  lemma TypeValue(a: Authenticator)
    requires Configurable(a)
    ensures AUTHENTICATION_TYPE in ConfigProperties(a)
    ensures ConfigProperties(a)[AUTHENTICATION_TYPE] == Literal(if a.Oidc? then "OAUTH2" else "PASSWORD")
  {
  }

  lemma TypeKeyFromLast(f: Authenticator -> Properties, list: seq<Authenticator>, key: string)
    requires list != [] && key in f(list[|list| - 1])
    ensures key in MergeOf(f, list) && MergeOf(f, list)[key] == f(list[|list| - 1])[key]
  {
  }

  lemma MergedTypeIsLast(list: seq<Authenticator>)
    requires Mergeable(list) && list != []
    ensures AUTHENTICATION_TYPE in Merge(list)
    ensures Merge(list)[AUTHENTICATION_TYPE] == Literal(if list[|list| - 1].Oidc? then "OAUTH2" else "PASSWORD")
  {
    TypeValue(list[|list| - 1]);
    TypeKeyFromLast(ConfigProperties, list, AUTHENTICATION_TYPE);
  }

  lemma CountTwice(ys: seq<Authenticator>, i: nat, j: nat)
    requires i < j < |ys| && ys[i] == ys[j]
    ensures multiset(ys)[ys[j]] >= 2
  {
    assert ys == ys[..j] + [ys[j]] + ys[j + 1..];
    assert ys[i] in ys[..j];
  }

  lemma DistinctTypesPermuted(xs: seq<Authenticator>, ys: seq<Authenticator>)
    requires multiset(xs) == multiset(ys) && DistinctTypes(xs)
    ensures DistinctTypes(ys)
  {
    PermutationKeepsElements(xs, ys);
    forall i, j | 0 <= i < j < |ys|
      ensures TypeOf(ys[i]) != TypeOf(ys[j])
    {
      if TypeOf(ys[i]) == TypeOf(ys[j]) {
        assert ys[i] in xs && ys[j] in xs;
        CountTwice(ys, i, j);
        CountAtMostOne(xs, ys[j]);
        assert false;
      }
    }
  }

  /** For any two orders: environment variables, volumes, mounts and commands agree as multisets,
      and the merged properties agree on every key but the authentication type, which can differ
      only when OIDC and LDAP are both present. */
  lemma AggregationOrderIndependent(xs: seq<Authenticator>, ys: seq<Authenticator>)
    requires multiset(xs) == multiset(ys) && DistinctTypes(xs)
    ensures multiset(FlatMap(EnvVars, xs)) == multiset(FlatMap(EnvVars, ys))
    ensures multiset(FlatMap(Volumes, xs)) == multiset(FlatMap(Volumes, ys))
    ensures multiset(FlatMap(VolumeMounts, xs)) == multiset(FlatMap(VolumeMounts, ys))
    ensures multiset(FlatMap(Commands, xs)) == multiset(FlatMap(Commands, ys))
    ensures (forall a <- xs :: Configurable(a)) <==> forall a <- ys :: Configurable(a)
    ensures (forall a <- xs :: Configurable(a)) ==>
              && Merge(xs) - {AUTHENTICATION_TYPE} == Merge(ys) - {AUTHENTICATION_TYPE}
              && (Merge(xs) == Merge(ys) || (HasType(xs, OIDC) && HasType(xs, LDAP)))
  {
    FlatMapOrderIndependent(EnvVars, xs, ys);
    FlatMapOrderIndependent(Volumes, xs, ys);
    FlatMapOrderIndependent(VolumeMounts, xs, ys);
    FlatMapOrderIndependent(Commands, xs, ys);
    PermutationKeepsElements(xs, ys);
    DistinctTypesPermuted(xs, ys);
    if forall a <- xs :: Configurable(a) {
      MergeOrderIndependent(xs, ys);
    }
  }

  lemma MergeOfOrderIndependent(f: Authenticator -> Properties, xs: seq<Authenticator>, ys: seq<Authenticator>,
                                shared: string)
    requires multiset(xs) == multiset(ys) && ShareOnly(f, xs, shared) && ShareOnly(f, ys, shared)
    ensures MergeOf(f, xs) - {shared} == MergeOf(f, ys) - {shared}
    ensures MergeOf(f, xs).Keys == MergeOf(f, ys).Keys
    ensures (shared in MergeOf(f, xs) ==> MergeOf(f, xs)[shared] == MergeOf(f, ys)[shared]) ==>
            MergeOf(f, xs) == MergeOf(f, ys)
  {
    PermutationKeepsElements(xs, ys);
    forall key
      ensures key in MergeOf(f, xs) <==> key in MergeOf(f, ys)
      ensures key in MergeOf(f, xs) && key != shared ==> MergeOf(f, xs)[key] == MergeOf(f, ys)[key]
    {
      MergeLookup(f, xs, shared, key);
      MergeLookup(f, ys, shared, key);
    }
  }

  lemma MergeOrderIndependent(xs: seq<Authenticator>, ys: seq<Authenticator>)
    requires multiset(xs) == multiset(ys) && Mergeable(xs) && Mergeable(ys)
    ensures Merge(xs) - {AUTHENTICATION_TYPE} == Merge(ys) - {AUTHENTICATION_TYPE}
    ensures Merge(xs) == Merge(ys) || (HasType(xs, OIDC) && HasType(xs, LDAP))
  {
    KindsShareOnlyType(xs);
    KindsShareOnlyType(ys);
    MergeOfOrderIndependent(ConfigProperties, xs, ys, AUTHENTICATION_TYPE);
    PermutationKeepsElements(xs, ys);
    if xs != [] {
      MergedTypeIsLast(xs);
      MergedTypeIsLast(ys);
      assert xs[|xs| - 1] in xs && ys[|ys| - 1] in xs;
    }
  }

  predicate IsOrderOf(order: seq<Authenticator>, list: seq<Authenticator>) {
    multiset(order) == multiset(list)
  }

  /** The merged properties are the same for every order exactly when OIDC and LDAP are not both present. */
  lemma MergeDeterministicExactly(list: seq<Authenticator>)
    requires Mergeable(list)
    ensures (forall xs, ys :: IsOrderOf(xs, list) && IsOrderOf(ys, list) && Mergeable(xs) && Mergeable(ys) ==>
             Merge(xs) == Merge(ys))
            <==> !(HasType(list, OIDC) && HasType(list, LDAP))
  {
    if HasType(list, OIDC) && HasType(list, LDAP) {
      var xs, ys := OpposingOrders(list);
    } else {
      forall xs, ys | IsOrderOf(xs, list) && IsOrderOf(ys, list) && Mergeable(xs) && Mergeable(ys)
        ensures Merge(xs) == Merge(ys)
      {
        PermutationKeepsElements(xs, list);
        MergeOrderIndependent(xs, ys);
      }
    }
  }

  lemma OnlyTwoKinds(list: seq<Authenticator>, o: Authenticator, l: Authenticator)
    requires Mergeable(list) && o in list && l in list && o.Oidc? && l.Ldap?
    ensures forall a :: a in list <==> a == o || a == l
  {
    forall a | a in list
      ensures a == o || a == l
    {
      assert Configurable(a);
      assert TypeOf(a) == TypeOf(o) || TypeOf(a) == TypeOf(l);
    }
  }

  lemma ReversedOrders(list: seq<Authenticator>) returns (xs: seq<Authenticator>, ys: seq<Authenticator>)
    requires Mergeable(list) && HasType(list, OIDC) && HasType(list, LDAP)
    ensures IsOrderOf(xs, list) && IsOrderOf(ys, list) && Mergeable(xs) && Mergeable(ys)
    ensures |xs| == |ys| == 2 && xs[1].Ldap? && ys[1].Oidc?
  {
    var o :| o in list && TypeOf(o) == OIDC;
    var l :| l in list && TypeOf(l) == LDAP;
    xs, ys := [o, l], [l, o];
    DistinctTypesNoDuplicates(list);
    OnlyTwoKinds(list, o, l);
    SameElementsSameMultiset(list, xs);
    SameElementsSameMultiset(list, ys);
  }

  /** With both kinds present, one order ends in LDAP and the reverse order ends in OIDC. */
  lemma OpposingOrders(list: seq<Authenticator>) returns (xs: seq<Authenticator>, ys: seq<Authenticator>)
    requires Mergeable(list) && HasType(list, OIDC) && HasType(list, LDAP)
    ensures IsOrderOf(xs, list) && IsOrderOf(ys, list) && Mergeable(xs) && Mergeable(ys)
    ensures AUTHENTICATION_TYPE in Merge(xs) && AUTHENTICATION_TYPE in Merge(ys)
    ensures Merge(xs)[AUTHENTICATION_TYPE] != Merge(ys)[AUTHENTICATION_TYPE]
  {
    xs, ys := ReversedOrders(list);
    MergedTypeIsLast(xs);
    MergedTypeIsLast(ys);
  }
}
