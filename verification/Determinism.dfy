/** When two builds of the same ConfigMap are sure to agree, although the coordinator host,
    the authenticators, the catalogs and the catalog keys come in arbitrary orders. */
module Determinism {
  import opened Orders
  import opened Spec
  import opened Text
  import opened Names
  import opened Authentication
  import opened Contributions
  import opened Aggregation
  import opened ConfigMaps

  /** Every ConfigMap content a reconcile may write for one role group. */
  ghost predicate PossibleConfigMap(b: ConfigInput, namespace: string, groups: set<string>, env: Environment,
                                    items: Items)
  {
    exists host :: PossibleHost(b.clusterName, namespace, groups, host)
                   && PossibleItems(b.(coordinatorFqdn := host), env, items)
  }

  /** Whichever coordinator host is picked, no order makes the build fail. */
  ghost predicate AlwaysBuildable(b: ConfigInput, namespace: string, groups: set<string>, env: Environment) {
    forall host :: PossibleHost(b.clusterName, namespace, groups, host) ==> Buildable(b.(coordinatorFqdn := host), env)
  }

  /** A coordinator whose spec asks for both OIDC and LDAP. */
  ghost predicate BothKinds(b: ConfigInput, api: Snapshot) {
    b.roleName == COORDINATOR
    && (exists a :: AskedFor(api, AuthenticationSpecs(b.clusterConfig), a) && a.Oidc?)
    && (exists a :: AskedFor(api, AuthenticationSpecs(b.clusterConfig), a) && a.Ldap?)
  }

  lemma BothKindsResolved(b: ConfigInput, api: Snapshot)
    ensures BothKinds(b, api)
            <==> HasType(Resolved(api, MergedSpecs(b)), OIDC) && HasType(Resolved(api, MergedSpecs(b)), LDAP)
  {
    forall a
      ensures a in Resolved(api, MergedSpecs(b))
              <==> b.roleName == COORDINATOR && AskedFor(api, AuthenticationSpecs(b.clusterConfig), a)
    {
      ResolvedExactly(api, MergedSpecs(b), a);
    }
    assert forall a: Authenticator :: (a.Oidc? <==> TypeOf(a) == OIDC) && (a.Ldap? <==> TypeOf(a) == LDAP);
  }

  lemma UniqueHost(cluster: string, namespace: string, groups: set<string>, x: string, y: string)
    requires |groups| <= 1
    requires PossibleHost(cluster, namespace, groups, x) && PossibleHost(cluster, namespace, groups, y)
    ensures x == y
  {
    if g, g' :| g in groups && g' in groups
                && x == CoordinatorFqdn(cluster, namespace, g) && y == CoordinatorFqdn(cluster, namespace, g')
    {
      if g != g' {
        SubsetSize({g, g'}, groups);
      }
    }
  }

  lemma UniqueCatalogItems(catalogs: CatalogSpecs, marshals: Properties -> bool, x: Items, y: Items)
    requires IsCatalogItems(catalogs, marshals, x) && IsCatalogItems(catalogs, marshals, y)
    ensures x == y
  {
    assert x.Keys == y.Keys;
  }

  lemma UniqueProperties(b: ConfigInput, api: Snapshot, x: Properties, y: Properties)
    requires PossibleProperties(b, api, x) && PossibleProperties(b, api, y)
    requires !BothKinds(b, api)
    ensures x == y
  {
    var lx :| PossibleList(api, MergedSpecs(b), lx) && Mergeable(lx) && x == BaseProperties(b) + Merge(lx);
    var ly :| PossibleList(api, MergedSpecs(b), ly) && Mergeable(ly) && y == BaseProperties(b) + Merge(ly);
    BothKindsResolved(b, api);
    MergeOrderIndependent(lx, ly);
    PermutationKeepsElements(lx, Resolved(api, MergedSpecs(b)));
  }

  lemma UniqueItems(b: ConfigInput, env: Environment, x: Items, y: Items)
    requires PossibleItems(b, env, x) && PossibleItems(b, env, y)
    requires !BothKinds(b, env.api)
    ensures x == y
  {
    var px, cx :| PossibleProperties(b, env.api, px) && env.marshals(px)
                  && IsCatalogItems(Catalogs(b.clusterConfig), env.marshals, cx)
                  && x == FixedItems(b, px, VectorText(b, env)) + cx;
    var py, cy :| PossibleProperties(b, env.api, py) && env.marshals(py)
                  && IsCatalogItems(Catalogs(b.clusterConfig), env.marshals, cy)
                  && y == FixedItems(b, py, VectorText(b, env)) + cy;
    UniqueProperties(b, env.api, px, py);
    UniqueCatalogItems(Catalogs(b.clusterConfig), env.marshals, cx, cy);
  }

  /* ----- Witnesses of disagreement ----- */

  lemma CatalogItemsExist(catalogs: CatalogSpecs, names: set<string>, marshals: Properties -> bool)
    returns (items: Items)
    requires names <= catalogs.Keys
    ensures ItemsFor(catalogs, names, marshals, items)
  {
    if names == {} {
      items := map[];
    } else {
      var c :| c in names;
      var rest := CatalogItemsExist(catalogs, names - {c}, marshals);
      AddingCatalog(catalogs, names - {c}, c, marshals, rest);
      assert names - {c} + {c} == names;
      var p := CatalogProperties(catalogs[c]);
      items := if marshals(p) then rest[CatalogFileName(c) := PropertiesItem(p)] else rest;
    }
  }

  lemma CatalogNameIsNotConfig(c: string)
    ensures CatalogFileName(c) != "config.properties"
  {
    assert CatalogFileName(c)[1] == 'a';
  }

  lemma CatalogItemsAvoidConfig(catalogs: CatalogSpecs, marshals: Properties -> bool, items: Items)
    requires IsCatalogItems(catalogs, marshals, items)
    ensures "config.properties" !in items
  {
    forall c
      ensures CatalogFileName(c) != "config.properties"
    {
      CatalogNameIsNotConfig(c);
    }
  }

  /** Any possible config.properties occurs in some build. */
  lemma Realize(b: ConfigInput, namespace: string, groups: set<string>, env: Environment, host: string, p: Properties)
    returns (items: Items)
    requires AlwaysBuildable(b, namespace, groups, env)
    requires PossibleHost(b.clusterName, namespace, groups, host)
    requires PossibleProperties(b.(coordinatorFqdn := host), env.api, p)
    ensures PossibleConfigMap(b, namespace, groups, env, items)
    ensures "config.properties" in items && items["config.properties"] == PropertiesItem(p)
  {
    var b' := b.(coordinatorFqdn := host);
    var catalogs := CatalogItemsExist(Catalogs(b.clusterConfig), Catalogs(b.clusterConfig).Keys, env.marshals);
    CatalogItemsAvoidConfig(Catalogs(b.clusterConfig), env.marshals, catalogs);
    items := PossibleBuild(b', env, p, catalogs, map[]);
    ConfigItem(b', p, VectorText(b', env));
  }

  /** Different possible properties give different possible ConfigMaps. */
  lemma RealizeBoth(b: ConfigInput, namespace: string, groups: set<string>, env: Environment, h: string, p: Properties,
                    h': string, p': Properties)
    returns (x: Items, y: Items)
    requires AlwaysBuildable(b, namespace, groups, env) && p != p'
    requires PossibleHost(b.clusterName, namespace, groups, h)
             && PossibleProperties(b.(coordinatorFqdn := h), env.api, p)
    requires PossibleHost(b.clusterName, namespace, groups, h')
             && PossibleProperties(b.(coordinatorFqdn := h'), env.api, p')
    ensures PossibleConfigMap(b, namespace, groups, env, x) && PossibleConfigMap(b, namespace, groups, env, y) && x != y
  {
    x := Realize(b, namespace, groups, env, h, p);
    y := Realize(b, namespace, groups, env, h', p');
  }

  lemma DiscoveryUriInjective(b: ConfigInput, h: string, h': string)
    requires DiscoveryUri(b.(coordinatorFqdn := h)) == DiscoveryUri(b.(coordinatorFqdn := h'))
    ensures h == h'
  {
    var tls := EnabledTls(b.clusterConfig);
    var prefix, suffix := Scheme(tls) + "://", ":" + Itoa(ServerPort(tls));
    assert DiscoveryUri(b.(coordinatorFqdn := h)) == prefix + h + suffix;
    assert DiscoveryUri(b.(coordinatorFqdn := h')) == prefix + h' + suffix;
    CancelSuffix(prefix + h, prefix + h', suffix);
    CancelPrefix(prefix, h, h');
  }

  lemma HostsDisagree(b: ConfigInput, api: Snapshot, h: string, h': string, p: Properties, p': Properties)
    requires h != h'
    requires PossibleProperties(b.(coordinatorFqdn := h), api, p)
    requires PossibleProperties(b.(coordinatorFqdn := h'), api, p')
    ensures p != p'
  {
    MergeKeepsBase(b.(coordinatorFqdn := h), api, p);
    MergeKeepsBase(b.(coordinatorFqdn := h'), api, p');
    if DiscoveryUri(b.(coordinatorFqdn := h)) == DiscoveryUri(b.(coordinatorFqdn := h')) {
      DiscoveryUriInjective(b, h, h');
    }
    DiscoveryProperty(b.(coordinatorFqdn := h));
    DiscoveryProperty(b.(coordinatorFqdn := h'));
  }

  lemma ResolvedMergeable(b: ConfigInput, api: Snapshot)
    requires CanConfigure(b, api)
    ensures Mergeable(Resolved(api, MergedSpecs(b)))
    ensures PossibleList(api, MergedSpecs(b), Resolved(api, MergedSpecs(b)))
  {
    ResolvedDistinct(api, MergedSpecs(b));
  }

  lemma ListIsPossible(b: ConfigInput, api: Snapshot, list: seq<Authenticator>)
    requires CanConfigure(b, api) && Mergeable(list) && IsOrderOf(list, Resolved(api, MergedSpecs(b)))
    ensures PossibleProperties(b, api, BaseProperties(b) + Merge(list))
  {
    assert PossibleList(api, MergedSpecs(b), list);
  }

  lemma TwoGroups(groups: set<string>) returns (g: string, g': string)
    requires |groups| > 1
    ensures g in groups && g' in groups && g != g'
  {
    g :| g in groups;
    assert |groups - {g}| == |groups| - 1;
    g' :| g' in groups - {g};
  }

  lemma ManyGroupsDisagree(b: ConfigInput, namespace: string, groups: set<string>, env: Environment)
    returns (x: Items, y: Items)
    requires AlwaysBuildable(b, namespace, groups, env)
    requires |groups| > 1
    ensures PossibleConfigMap(b, namespace, groups, env, x) && PossibleConfigMap(b, namespace, groups, env, y) && x != y
  {
    var g, g' := TwoGroups(groups);
    var h, h' := CoordinatorFqdn(b.clusterName, namespace, g), CoordinatorFqdn(b.clusterName, namespace, g');
    if h == h' {
      FqdnInjective(b.clusterName, namespace, g, g');
    }
    var list := Resolved(env.api, MergedSpecs(b));
    var bh, bh' := b.(coordinatorFqdn := h), b.(coordinatorFqdn := h');
    assert Buildable(bh, env) && Buildable(bh', env);
    ResolvedMergeable(bh, env.api);
    ListIsPossible(bh, env.api, list);
    ListIsPossible(bh', env.api, list);
    var p, p' := BaseProperties(bh) + Merge(list), BaseProperties(bh') + Merge(list);
    HostsDisagree(b, env.api, h, h', p, p');
    x, y := RealizeBoth(b, namespace, groups, env, h, p, h', p');
  }

  lemma SomeHost(cluster: string, namespace: string, groups: set<string>) returns (host: string)
    ensures PossibleHost(cluster, namespace, groups, host)
  {
    if groups == {} {
      host := "";
    } else {
      var g :| g in groups;
      host := CoordinatorFqdn(cluster, namespace, g);
    }
  }

  lemma SumsDiffer(base: Properties, x: Properties, y: Properties, key: string)
    requires key in x && key in y && x[key] != y[key]
    ensures base + x != base + y
  {
    assert (base + x)[key] != (base + y)[key];
  }

  lemma BothKindsDiffer(b: ConfigInput, api: Snapshot) returns (p: Properties, p': Properties)
    requires CanConfigure(b, api) && BothKinds(b, api)
    ensures PossibleProperties(b, api, p) && PossibleProperties(b, api, p') && p != p'
  {
    ResolvedMergeable(b, api);
    BothKindsResolved(b, api);
    var xs, ys := OpposingOrders(Resolved(api, MergedSpecs(b)));
    ListIsPossible(b, api, xs);
    ListIsPossible(b, api, ys);
    p, p' := BaseProperties(b) + Merge(xs), BaseProperties(b) + Merge(ys);
    SumsDiffer(BaseProperties(b), Merge(xs), Merge(ys), AUTHENTICATION_TYPE);
  }

  lemma BothKindsDisagree(b: ConfigInput, namespace: string, groups: set<string>, env: Environment)
    returns (x: Items, y: Items)
    requires AlwaysBuildable(b, namespace, groups, env)
    requires BothKinds(b, env.api)
    ensures PossibleConfigMap(b, namespace, groups, env, x) && PossibleConfigMap(b, namespace, groups, env, y) && x != y
  {
    var host := SomeHost(b.clusterName, namespace, groups);
    var p, p' := BothKindsDiffer(b.(coordinatorFqdn := host), env.api);
    x, y := RealizeBoth(b, namespace, groups, env, host, p, host, p');
  }

  lemma BuildsAgree(b: ConfigInput, namespace: string, groups: set<string>, env: Environment, x: Items, y: Items)
    requires |groups| <= 1 && !BothKinds(b, env.api)
    requires PossibleConfigMap(b, namespace, groups, env, x) && PossibleConfigMap(b, namespace, groups, env, y)
    ensures x == y
  {
    var h :| PossibleHost(b.clusterName, namespace, groups, h) && PossibleItems(b.(coordinatorFqdn := h), env, x);
    var h' :| PossibleHost(b.clusterName, namespace, groups, h') && PossibleItems(b.(coordinatorFqdn := h'), env, y);
    UniqueHost(b.clusterName, namespace, groups, h, h');
    UniqueItems(b.(coordinatorFqdn := h), env, x, y);
  }

  /** Where no build can fail, all builds of a role group's ConfigMap agree, whatever the orders,
      exactly when there is at most one coordinator group and the group does not merge both OIDC
      and LDAP properties. */
  lemma ConfigMapDeterministicExactly(b: ConfigInput, namespace: string, groups: set<string>, env: Environment)
    requires AlwaysBuildable(b, namespace, groups, env)
    ensures (forall x, y ::
               PossibleConfigMap(b, namespace, groups, env, x) && PossibleConfigMap(b, namespace, groups, env, y)
               ==> x == y)
            <==> |groups| <= 1 && !BothKinds(b, env.api)
  {
    if |groups| > 1 {
      var x, y := ManyGroupsDisagree(b, namespace, groups, env);
    } else if BothKinds(b, env.api) {
      var x, y := BothKindsDisagree(b, namespace, groups, env);
    } else {
      forall x, y | PossibleConfigMap(b, namespace, groups, env, x) && PossibleConfigMap(b, namespace, groups, env, y)
        ensures x == y
      {
        BuildsAgree(b, namespace, groups, env, x, y);
      }
    }
  }
}
