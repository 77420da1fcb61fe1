/** Deep copies over the spec graph. Structs that Go holds by pointer are classes, a pointer to
    a value and a Go map are cells, a slice is an array, and a struct stored in a slice is a
    value. The input may share pointers; the copy shares nothing with it, and no two of its
    parts, role groups, catalogs or authentication entries share anything. */
module DeepCopy {
  import opened Outcomes

  /** What a pointer to a plain value, or a Go map, refers to. */
  class Cell<T> {
    var value: T

    constructor (value: T)
      ensures this.value == value
    {
      this.value := value;
    }
  }

  /** The contents of a struct of another package; its own deep copy yields a fresh, equal one. */
  datatype Foreign = Foreign(content: string)

  type StringMap = map<string, string>

  ghost function Opt(o: object?): set<object> {
    if o == null then {} else {o}
  }

  ghost function CellView<T>(c: Cell?<T>): Option<T>
    reads c
  {
    if c == null then None else Some(c.value)
  }

  ghost function SliceView<T>(a: array?<T>): Option<seq<T>>
    reads a
  {
    if a == null then None else Some(a[..])
  }

  /** `new(T)` followed by a plain or a library copy. */
  method CopyCell<T>(c: Cell?<T>) returns (d: Cell?<T>)
    ensures CellView(d) == old(CellView(c))
    ensures fresh(Opt(d))
  {
    if c == null {
      d := null;
    } else {
      d := new Cell(c.value);
    }
  }

  method CopyStringMap(c: Cell?<StringMap>) returns (d: Cell?<StringMap>)
    ensures CellView(d) == old(CellView(c))
    ensures fresh(Opt(d))
  {
    if c == null {
      return null;
    }
    d := new Cell(map[]);
    var todo := c.value.Keys;
    while todo != {}
      invariant todo <= c.value.Keys
      invariant d.value == c.value - todo
      decreases |todo|
    {
      var key :| key in todo;
      AddingOne(c.value, todo, key);
      d.value := d.value[key := c.value[key]];
      todo := todo - {key};
    }
    assert c.value - {} == c.value;
  }

  lemma AddingOne(m: StringMap, todo: set<string>, key: string)
    requires todo <= m.Keys && key in todo
    ensures (m - todo)[key := m[key]] == m - (todo - {key})
  {
  }

  method CopySlice<T(0)>(a: array?<T>) returns (b: array?<T>)
    ensures SliceView(b) == old(SliceView(a))
    ensures fresh(Opt(b))
  {
    if a == null {
      return null;
    }
    b := new T[a.Length];
    for i := 0 to a.Length
      invariant b[..i] == a[..i]
    {
      b[i] := a[i];
    }
    assert b[..] == b[..a.Length] && a[..] == a[..a.Length];
  }

  /* ----- Authentication ----- */

  datatype OidcValue = OidcValue(clientCredentialsSecret: string, extraScopes: Option<seq<string>>)

  class OidcSpec {
    var clientCredentialsSecret: string
    var extraScopes: array?<string>

    constructor (clientCredentialsSecret: string, extraScopes: array?<string>)
      ensures this.clientCredentialsSecret == clientCredentialsSecret && this.extraScopes == extraScopes
    {
      this.clientCredentialsSecret, this.extraScopes := clientCredentialsSecret, extraScopes;
    }

    ghost function Reach(): set<object>
      reads this
    {
      {this} + Opt(extraScopes)
    }

    ghost function View(): OidcValue
      reads this, extraScopes
    {
      OidcValue(clientCredentialsSecret, SliceView(extraScopes))
    }

    method DeepCopy() returns (out: OidcSpec)
      ensures out.View() == old(View()) && fresh(out.Reach())
    {
      var scopes := CopySlice(extraScopes);
      out := new OidcSpec(clientCredentialsSecret, scopes);
    }
  }

  /** Stored by value in the authentication slice. */
  datatype AuthenticationSpec = AuthenticationSpec(authenticationClass: string, oidc: OidcSpec?)

  datatype AuthenticationValue = AuthenticationValue(authenticationClass: string, oidc: Option<OidcValue>)

  ghost function AuthenticationReach(a: AuthenticationSpec): set<object>
    reads a.oidc
  {
    if a.oidc == null then {} else a.oidc.Reach()
  }

  ghost function AuthenticationView(a: AuthenticationSpec): AuthenticationValue
    reads a.oidc, AuthenticationReach(a)
  {
    AuthenticationValue(a.authenticationClass, if a.oidc == null then None else Some(a.oidc.View()))
  }

  method CopyAuthentication(a: AuthenticationSpec) returns (b: AuthenticationSpec)
    ensures AuthenticationView(b) == old(AuthenticationView(a))
    ensures fresh(AuthenticationReach(b))
  {
    b := a;
    if a.oidc != null {
      var oidc := a.oidc.DeepCopy();
      b := b.(oidc := oidc);
    }
  }

  /* ----- Role groups ----- */

  datatype ConfigValue = ConfigValue(roleGroupConfig: Option<Foreign>, queryMaxMemory: string,
                                     queryMaxMemoryPerNode: string)

  class ConfigSpec {
    var roleGroupConfig: Cell?<Foreign>
    var queryMaxMemory: string
    var queryMaxMemoryPerNode: string

    constructor (roleGroupConfig: Cell?<Foreign>, queryMaxMemory: string, queryMaxMemoryPerNode: string)
      ensures this.roleGroupConfig == roleGroupConfig
      ensures this.queryMaxMemory == queryMaxMemory && this.queryMaxMemoryPerNode == queryMaxMemoryPerNode
    {
      this.roleGroupConfig := roleGroupConfig;
      this.queryMaxMemory, this.queryMaxMemoryPerNode := queryMaxMemory, queryMaxMemoryPerNode;
    }

    ghost function Reach(): set<object>
      reads this
    {
      {this} + Opt(roleGroupConfig)
    }

    ghost function View(): ConfigValue
      reads this, roleGroupConfig
    {
      ConfigValue(CellView(roleGroupConfig), queryMaxMemory, queryMaxMemoryPerNode)
    }

    method DeepCopy() returns (out: ConfigSpec)
      ensures out.View() == old(View()) && fresh(out.Reach())
    {
      var embedded := CopyCell(roleGroupConfig);
      out := new ConfigSpec(embedded, queryMaxMemory, queryMaxMemoryPerNode);
    }
  }

  ghost function ConfigReach(c: ConfigSpec?): set<object>
    reads c
  {
    if c == null then {} else c.Reach()
  }

  ghost function ConfigView(c: ConfigSpec?): Option<ConfigValue>
    reads c, ConfigReach(c)
  {
    if c == null then None else Some(c.View())
  }

  method CopyConfig(c: ConfigSpec?) returns (d: ConfigSpec?)
    ensures ConfigView(d) == old(ConfigView(c)) && fresh(ConfigReach(d))
  {
    if c == null {
      d := null;
    } else {
      d := c.DeepCopy();
    }
  }

  datatype RoleGroupValue = RoleGroupValue(replicas: Option<int>, config: Option<ConfigValue>,
                                           overrides: Option<Foreign>)

  class RoleGroupSpec {
    var replicas: Cell?<int>
    var config: ConfigSpec?
    var overrides: Cell?<Foreign>

    constructor (replicas: Cell?<int>, config: ConfigSpec?, overrides: Cell?<Foreign>)
      ensures this.replicas == replicas && this.config == config && this.overrides == overrides
    {
      this.replicas, this.config, this.overrides := replicas, config, overrides;
    }

    ghost function Reach(): set<object>
      reads this, config
    {
      {this} + Opt(replicas) + ConfigReach(config) + Opt(overrides)
    }

    ghost function View(): RoleGroupValue
      reads this, config, Reach()
    {
      RoleGroupValue(CellView(replicas), ConfigView(config), CellView(overrides))
    }

    /** The configuration and the overrides share nothing. */
    ghost predicate Apart()
      reads this, config
    {
      ConfigReach(config) !! Opt(overrides)
    }

    method DeepCopy() returns (out: RoleGroupSpec)
      ensures out.View() == old(View()) && fresh(out.Reach()) && out.Apart()
    {
      var r := CopyCell(replicas);
      var c := CopyConfig(config);
      var o := CopyCell(overrides);
      out := new RoleGroupSpec(r, c, o);
    }
  }

  type GroupMap = map<string, RoleGroupSpec?>

  type GroupValues = map<string, Option<RoleGroupValue>>

  ghost function ConfigOf(g: RoleGroupSpec?): set<ConfigSpec?>
    reads g
  {
    if g == null then {} else {g.config}
  }

  ghost function GroupReach(g: RoleGroupSpec?): set<object>
    reads g, ConfigOf(g)
  {
    if g == null then {} else g.Reach()
  }

  ghost function GroupView(g: RoleGroupSpec?): Option<RoleGroupValue>
    reads g, ConfigOf(g), GroupReach(g)
  {
    if g == null then None else Some(g.View())
  }

  ghost predicate GroupApart(g: RoleGroupSpec?)
    reads g, ConfigOf(g)
  {
    g == null || g.Apart()
  }

  method CopyGroup(g: RoleGroupSpec?) returns (h: RoleGroupSpec?)
    ensures GroupView(h) == old(GroupView(g)) && fresh(GroupReach(h)) && GroupApart(h)
  {
    if g == null {
      h := null;
    } else {
      h := g.DeepCopy();
    }
  }

  ghost function GroupConfigs(m: GroupMap): set<ConfigSpec?>
    reads m.Values
  {
    set k, c | k in m && c in ConfigOf(m[k]) :: c
  }

  ghost function GroupsReach(m: GroupMap): set<object>
    reads m.Values, GroupConfigs(m)
  {
    set k, o | k in m && o in GroupReach(m[k]) :: o
  }

  ghost function GroupsView(m: GroupMap): GroupValues
    reads m.Values, GroupConfigs(m), GroupsReach(m)
  {
    map k | k in m :: GroupView(m[k])
  }

  /** No two role groups have an object in common. */
  ghost predicate NoSharing(m: GroupMap)
    reads m.Values, GroupConfigs(m)
  {
    forall k, k' :: k in m && k' in m && k != k' ==> GroupReach(m[k]) !! GroupReach(m[k'])
  }

  /** Nor have two parts of one group. */
  ghost predicate GroupsApart(m: GroupMap)
    reads m.Values, GroupConfigs(m)
  {
    NoSharing(m) && forall k <- m :: GroupApart(m[k])
  }

  /** What a role group stands for depends only on the objects it reaches. */
  twostate lemma GroupUnchanged(g: RoleGroupSpec?)
    requires forall o: object :: old(allocated(o)) && o in old(GroupReach(g)) ==> unchanged(o)
    ensures GroupReach(g) == old(GroupReach(g)) && GroupView(g) == old(GroupView(g))
            && GroupApart(g) == old(GroupApart(g))
  {
  }

  twostate lemma GroupsUnchanged(m: GroupMap)
    requires forall o: object :: old(allocated(o)) && o in old(GroupsReach(m)) ==> unchanged(o)
    ensures GroupsReach(m) == old(GroupsReach(m)) && GroupsView(m) == old(GroupsView(m))
            && GroupsApart(m) == old(GroupsApart(m))
  {
    forall k | k in m
      ensures GroupReach(m[k]) == old(GroupReach(m[k])) && GroupView(m[k]) == old(GroupView(m[k]))
      ensures GroupApart(m[k]) == old(GroupApart(m[k]))
    {
      assert old(GroupReach(m[k])) <= old(GroupsReach(m)) by {
        forall o | o in old(GroupReach(m[k]))
          ensures o in old(GroupsReach(m))
        {
          assert k in m;
        }
      }
      GroupUnchanged(m[k]);
    }
  }

  ghost predicate StandsFor(m: GroupMap, views: GroupValues)
    reads m.Values, GroupConfigs(m), GroupsReach(m)
  {
    forall k <- m :: k in views && GroupView(m[k]) == views[k]
  }

  /** The groups copied so far: apart from each other and made of objects in `repr`. */
  ghost predicate Copied(done: GroupMap, views: GroupValues, repr: set<object>)
    reads done.Values, GroupConfigs(done), GroupsReach(done)
  {
    StandsFor(done, views) && GroupsApart(done) && forall k <- done :: GroupReach(done[k]) <= repr
  }

  lemma OneMoreCopied(done: GroupMap, views: GroupValues, repr: set<object>, key: string, g: RoleGroupSpec?)
    requires Copied(done, views, repr) && key in views && key !in done
    requires GroupView(g) == views[key] && GroupApart(g) && GroupReach(g) !! repr
    ensures Copied(done[key := g], views, repr + GroupReach(g))
  {
  }

  lemma AllCopied(done: GroupMap, views: GroupValues, repr: set<object>)
    requires Copied(done, views, repr) && done.Keys == views.Keys
    ensures GroupsView(done) == views && GroupsReach(done) <= repr
  {
  }

  /** One turn of the loop; the original and the groups copied so far stay as they are. */
  method CopyNextGroup(m: GroupMap, key: string, done: GroupMap, ghost views: GroupValues, ghost repr: set<object>)
    returns (n: GroupMap, ghost added: set<object>)
    requires StandsFor(m, views) && Copied(done, views, repr) && key in m && key !in done
    ensures StandsFor(m, views) && Copied(n, views, repr + added)
    ensures n.Keys == done.Keys + {key} && fresh(added)
  {
    var h := CopyGroup(m[key]);
    forall k | k in m
      ensures GroupView(m[k]) == old(GroupView(m[k]))
    {
      GroupUnchanged(m[k]);
    }
    forall k | k in done
      ensures GroupReach(done[k]) == old(GroupReach(done[k])) && GroupView(done[k]) == old(GroupView(done[k]))
      ensures GroupApart(done[k]) == old(GroupApart(done[k]))
    {
      GroupUnchanged(done[k]);
    }
    OneMoreCopied(done, views, repr, key, h);
    n, added := done[key := h], GroupReach(h);
  }

  lemma OneFewer(all: set<string>, todo: set<string>, key: string)
    requires todo <= all && key in todo
    ensures all - todo + {key} == all - (todo - {key}) && |todo - {key}| < |todo|
  {
  }

  method CopyGroups(m: GroupMap) returns (n: GroupMap)
    ensures GroupsView(n) == old(GroupsView(m))
    ensures fresh(GroupsReach(n)) && GroupsApart(n)
  {
    n := map[];
    ghost var repr: set<object> := {};
    ghost var views := GroupsView(m);
    var todo := m.Keys;
    while todo != {}
      invariant todo <= m.Keys && n.Keys == m.Keys - todo
      invariant fresh(repr) && StandsFor(m, views) && Copied(n, views, repr)
      decreases |todo|
    {
      var key :| key in todo;
      ghost var added;
      OneFewer(m.Keys, todo, key);
      n, added := CopyNextGroup(m, key, n, views, repr);
      repr, todo := repr + added, todo - {key};
    }
    AllCopied(n, views, repr);
  }

  ghost function GroupsIn(c: Cell?<GroupMap>): GroupMap
    reads c
  {
    if c == null then map[] else c.value
  }

  ghost function GroupMapReach(c: Cell?<GroupMap>): set<object>
    reads c, GroupsIn(c).Values, GroupConfigs(GroupsIn(c))
  {
    Opt(c) + GroupsReach(GroupsIn(c))
  }

  ghost function GroupMapView(c: Cell?<GroupMap>): Option<GroupValues>
    reads c, GroupsIn(c).Values, GroupConfigs(GroupsIn(c)), GroupMapReach(c)
  {
    if c == null then None else Some(GroupsView(c.value))
  }

  method CopyGroupMap(c: Cell?<GroupMap>) returns (d: Cell?<GroupMap>)
    ensures GroupMapView(d) == old(GroupMapView(c))
    ensures fresh(GroupMapReach(d)) && GroupsApart(GroupsIn(d))
  {
    if c == null {
      return null;
    }
    var groups := CopyGroups(c.value);
    ghost var repr: set<object> :| repr == GroupsReach(groups);
    label L:
    d := new Cell(groups);
    GroupsUnchanged@L(groups);
  }

  twostate lemma GroupMapUnchanged(c: Cell?<GroupMap>)
    requires forall o: object :: old(allocated(o)) && o in old(GroupMapReach(c)) ==> unchanged(o)
    ensures GroupMapReach(c) == old(GroupMapReach(c)) && GroupMapView(c) == old(GroupMapView(c))
    ensures GroupsApart(GroupsIn(c)) == old(GroupsApart(GroupsIn(c)))
  {
    assert old(GroupsReach(GroupsIn(c))) <= old(GroupMapReach(c));
    GroupsUnchanged(old(GroupsIn(c)));
  }

  /* ----- Roles: coordinators and workers have the same shape ----- */

  /** Embedded by value in both role specs. */
  datatype BaseRoleSpec = BaseRoleSpec(replicas: Cell?<int>, overrides: Cell?<Foreign>, roleConfig: Cell?<Foreign>,
                                       config: ConfigSpec?)

  datatype BaseRoleValue = BaseRoleValue(replicas: Option<int>, overrides: Option<Foreign>, roleConfig: Option<Foreign>,
                                         config: Option<ConfigValue>)

  ghost function BaseReach(b: BaseRoleSpec): set<object>
    reads b.config
  {
    Opt(b.replicas) + Opt(b.overrides) + Opt(b.roleConfig) + ConfigReach(b.config)
  }

  ghost function BaseView(b: BaseRoleSpec): BaseRoleValue
    reads b.config, BaseReach(b)
  {
    BaseRoleValue(CellView(b.replicas), CellView(b.overrides), CellView(b.roleConfig), ConfigView(b.config))
  }

  ghost predicate BaseApart(b: BaseRoleSpec)
    reads b.config
  {
    Opt(b.overrides) !! Opt(b.roleConfig) !! ConfigReach(b.config)
  }

  method CopyBase(b: BaseRoleSpec) returns (d: BaseRoleSpec)
    ensures BaseView(d) == old(BaseView(b)) && fresh(BaseReach(d)) && BaseApart(d)
  {
    var r := CopyCell(b.replicas);
    var o := CopyCell(b.overrides);
    var rc := CopyCell(b.roleConfig);
    var c := CopyConfig(b.config);
    d := BaseRoleSpec(r, o, rc, c);
  }

  twostate lemma BaseUnchanged(b: BaseRoleSpec)
    requires forall o: object :: old(allocated(o)) && o in old(BaseReach(b)) ==> unchanged(o)
    ensures BaseReach(b) == old(BaseReach(b)) && BaseView(b) == old(BaseView(b)) && BaseApart(b) == old(BaseApart(b))
  {
  }

  datatype RoleValue = RoleValue(roleGroups: Option<GroupValues>, base: BaseRoleValue)

  class RoleSpec {
    var roleGroups: Cell?<GroupMap>
    var base: BaseRoleSpec

    constructor (roleGroups: Cell?<GroupMap>, base: BaseRoleSpec)
      ensures this.roleGroups == roleGroups && this.base == base
    {
      this.roleGroups, this.base := roleGroups, base;
    }

    ghost function Reach(): set<object>
      reads *
    {
      {this} + GroupMapReach(roleGroups) + BaseReach(base)
    }

    ghost function View(): RoleValue
      reads *
    {
      RoleValue(GroupMapView(roleGroups), BaseView(base))
    }

    /** No two groups, no two parts of the role's own configuration, and no group and the role's
        own configuration share an object. */
    ghost predicate Apart()
      reads *
    {
      GroupsApart(GroupsIn(roleGroups)) && BaseApart(base) && GroupMapReach(roleGroups) !! BaseReach(base)
    }

    method CopyRoleParts() returns (g: Cell?<GroupMap>, b: BaseRoleSpec)
      ensures GroupMapView(g) == old(GroupMapView(roleGroups)) && fresh(GroupMapReach(g)) && GroupsApart(GroupsIn(g))
      ensures BaseView(b) == old(BaseView(base)) && fresh(BaseReach(b)) && BaseApart(b)
      ensures GroupMapReach(g) !! BaseReach(b)
    {
      g := CopyGroupMap(roleGroups);
      ghost var groupObjects: set<object> :| groupObjects == GroupMapReach(g);
      label G:
      b := CopyBase(base);
      GroupMapUnchanged@G(g);
    }

    method DeepCopy() returns (out: RoleSpec)
      ensures out.View() == old(View()) && fresh(out.Reach()) && out.Apart()
    {
      var g, b := CopyRoleParts();
      ghost var objects: set<object> :| objects == GroupMapReach(g) + BaseReach(b);
      label B:
      out := new RoleSpec(g, b);
      GroupMapUnchanged@B(g);
      BaseUnchanged@B(b);
    }
  }

  /* ----- Cluster configuration ----- */

  type CatalogMap = map<string, Cell?<StringMap>>

  ghost function CatalogsReach(m: CatalogMap): set<object> {
    set k, o | k in m && o in Opt(m[k]) :: o
  }

  ghost function CatalogsView(m: CatalogMap): map<string, Option<StringMap>>
    reads m.Values
  {
    map k | k in m :: CellView(m[k])
  }

  /** No two catalogs share their properties. */
  ghost predicate CatalogsApart(m: CatalogMap) {
    forall k, k' :: k in m && k' in m && k != k' ==> Opt(m[k]) !! Opt(m[k'])
  }

  method CopyCatalogs(m: CatalogMap) returns (n: CatalogMap)
    ensures CatalogsView(n) == old(CatalogsView(m))
    ensures fresh(CatalogsReach(n)) && CatalogsApart(n)
  {
    n := map[];
    ghost var repr: set<object> := {};
    ghost var views := CatalogsView(m);
    var todo := m.Keys;
    while todo != {}
      invariant todo <= m.Keys && n.Keys == m.Keys - todo
      invariant fresh(repr)
      invariant forall k <- n :: Opt(n[k]) <= repr
      invariant forall k <- n :: CellView(n[k]) == views[k]
      invariant CatalogsApart(n)
      decreases |todo|
    {
      var key :| key in todo;
      assert CellView(m[key]) == old(CellView(m[key]));
      var outVal := CopyStringMap(m[key]);
      n := n[key := outVal];
      repr := repr + Opt(outVal);
      todo := todo - {key};
    }
  }

  ghost function CatalogsIn(c: Cell?<CatalogMap>): CatalogMap
    reads c
  {
    if c == null then map[] else c.value
  }

  ghost function CatalogMapReach(c: Cell?<CatalogMap>): set<object>
    reads c
  {
    Opt(c) + CatalogsReach(CatalogsIn(c))
  }

  ghost function CatalogMapView(c: Cell?<CatalogMap>): Option<map<string, Option<StringMap>>>
    reads c, CatalogsIn(c).Values
  {
    if c == null then None else Some(CatalogsView(c.value))
  }

  method CopyCatalogMap(c: Cell?<CatalogMap>) returns (d: Cell?<CatalogMap>)
    ensures CatalogMapView(d) == old(CatalogMapView(c))
    ensures fresh(CatalogMapReach(d)) && CatalogsApart(CatalogsIn(d))
  {
    if c == null {
      return null;
    }
    var catalogs := CopyCatalogs(c.value);
    d := new Cell(catalogs);
  }

  type Authentications = seq<AuthenticationSpec>

  ghost function OidcsOf(xs: Authentications): set<OidcSpec?> {
    set i | 0 <= i < |xs| :: xs[i].oidc
  }

  ghost function AuthenticationsReach(xs: Authentications): set<object>
    reads OidcsOf(xs)
  {
    set i, o | 0 <= i < |xs| && o in AuthenticationReach(xs[i]) :: o
  }

  /** The values of the slice by position. */
  ghost function AuthenticationsView(xs: Authentications): map<int, AuthenticationValue>
    reads OidcsOf(xs), AuthenticationsReach(xs)
  {
    map i | 0 <= i < |xs| :: AuthenticationView(xs[i])
  }

  twostate lemma AuthenticationUnchanged(a: AuthenticationSpec)
    requires forall o: object :: old(allocated(o)) && o in old(AuthenticationReach(a)) ==> unchanged(o)
    ensures AuthenticationReach(a) == old(AuthenticationReach(a)) && AuthenticationView(a) == old(AuthenticationView(a))
  {
  }

  /** No two entries share an object. */
  ghost predicate AuthenticationsApart(xs: Authentications)
    reads OidcsOf(xs)
  {
    forall i, j :: 0 <= i < j < |xs| ==> AuthenticationReach(xs[i]) !! AuthenticationReach(xs[j])
  }

  method CopyAuthentications(xs: Authentications) returns (ys: Authentications)
    ensures |ys| == |xs| && AuthenticationsView(ys) == old(AuthenticationsView(xs))
    ensures fresh(AuthenticationsReach(ys)) && AuthenticationsApart(ys)
  {
    ys := [];
    ghost var repr: set<object> := {};
    ghost var views := AuthenticationsView(xs);
    for i := 0 to |xs|
      invariant |ys| == i
      invariant fresh(repr)
      invariant forall j :: 0 <= j < i ==> AuthenticationReach(ys[j]) <= repr
      invariant forall j :: 0 <= j < i ==> AuthenticationView(ys[j]) == views[j]
      invariant AuthenticationsApart(ys)
    {
      assert AuthenticationView(xs[i]) == old(AuthenticationView(xs[i]));
      label L:
      var y := CopyAuthentication(xs[i]);
      forall j | 0 <= j < i
        ensures AuthenticationReach(ys[j]) == old@L(AuthenticationReach(ys[j]))
                && AuthenticationView(ys[j]) == old@L(AuthenticationView(ys[j]))
      {
        AuthenticationUnchanged@L(ys[j]);
      }
      ys := ys + [y];
      repr := repr + AuthenticationReach(y);
    }
  }

  ghost function SpecsIn(a: array?<AuthenticationSpec>): Authentications
    reads a
  {
    if a == null then [] else a[..]
  }

  ghost function AuthenticationSliceReach(a: array?<AuthenticationSpec>): set<object>
    reads a, OidcsOf(SpecsIn(a))
  {
    Opt(a) + AuthenticationsReach(SpecsIn(a))
  }

  ghost function AuthenticationSliceView(a: array?<AuthenticationSpec>): Option<map<int, AuthenticationValue>>
    reads a, OidcsOf(SpecsIn(a)), AuthenticationSliceReach(a)
  {
    if a == null then None else Some(AuthenticationsView(a[..]))
  }

  twostate lemma AuthenticationsUnchanged(xs: Authentications)
    requires forall o: object :: old(allocated(o)) && o in old(AuthenticationsReach(xs)) ==> unchanged(o)
    ensures AuthenticationsReach(xs) == old(AuthenticationsReach(xs))
            && AuthenticationsView(xs) == old(AuthenticationsView(xs))
    ensures AuthenticationsApart(xs) == old(AuthenticationsApart(xs))
  {
    forall i | 0 <= i < |xs|
      ensures AuthenticationReach(xs[i]) == old(AuthenticationReach(xs[i]))
              && AuthenticationView(xs[i]) == old(AuthenticationView(xs[i]))
    {
      forall o | o in old(AuthenticationReach(xs[i]))
        ensures o in old(AuthenticationsReach(xs))
      {
        assert 0 <= i < |xs|;
      }
      AuthenticationUnchanged(xs[i]);
    }
  }

  method CopyAuthenticationSlice(a: array?<AuthenticationSpec>) returns (b: array?<AuthenticationSpec>)
    ensures AuthenticationSliceView(b) == old(AuthenticationSliceView(a))
    ensures fresh(AuthenticationSliceReach(b)) && AuthenticationsApart(SpecsIn(b))
  {
    if a == null {
      return null;
    }
    var ys := CopyAuthentications(a[..]);
    ghost var repr: set<object> :| repr == AuthenticationsReach(ys);
    label L:
    b := new AuthenticationSpec[|ys|](i requires 0 <= i < |ys| => ys[i]);
    AuthenticationsUnchanged@L(ys);
    assert b[..] == ys;
  }

  datatype SelectorValue = SelectorValue(matchLabels: Option<StringMap>, matchExpressions: Option<seq<Foreign>>)

  class CatalogLabelSelectorSpec {
    var matchLabels: Cell?<StringMap>
    var matchExpressions: array?<Foreign>

    constructor (matchLabels: Cell?<StringMap>, matchExpressions: array?<Foreign>)
      ensures this.matchLabels == matchLabels && this.matchExpressions == matchExpressions
    {
      this.matchLabels, this.matchExpressions := matchLabels, matchExpressions;
    }

    ghost function Reach(): set<object>
      reads this
    {
      {this} + Opt(matchLabels) + Opt(matchExpressions)
    }

    ghost function View(): SelectorValue
      reads this, matchLabels, matchExpressions
    {
      SelectorValue(CellView(matchLabels), SliceView(matchExpressions))
    }

    method DeepCopy() returns (out: CatalogLabelSelectorSpec)
      ensures out.View() == old(View()) && fresh(out.Reach())
    {
      var labels := CopyStringMap(matchLabels);
      var expressions := CopySlice(matchExpressions);
      out := new CatalogLabelSelectorSpec(labels, expressions);
    }
  }

  ghost function SelectorReach(c: CatalogLabelSelectorSpec?): set<object>
    reads c
  {
    if c == null then {} else c.Reach()
  }

  ghost function SelectorView(c: CatalogLabelSelectorSpec?): Option<SelectorValue>
    reads c, SelectorReach(c)
  {
    if c == null then None else Some(c.View())
  }

  method CopySelector(c: CatalogLabelSelectorSpec?) returns (d: CatalogLabelSelectorSpec?)
    ensures SelectorView(d) == old(SelectorView(c)) && fresh(SelectorReach(d))
  {
    if c == null {
      d := null;
    } else {
      d := c.DeepCopy();
    }
  }

  datatype TlsSpec = TlsSpec(serverSecretClass: string, internalSecretClass: string)

  datatype ClusterConfigValue = ClusterConfigValue(
    authentication: Option<map<int, AuthenticationValue>>, catalogLabelSelector: Option<SelectorValue>,
    catalogProperties: Option<map<string, Option<StringMap>>>, listenerClass: string,
    tls: Option<TlsSpec>, vectorAggregatorConfigMapName: string)

  class ClusterConfigSpec {
    var authentication: array?<AuthenticationSpec>
    var catalogLabelSelector: CatalogLabelSelectorSpec?
    var catalogProperties: Cell?<CatalogMap>
    var listenerClass: string
    var tls: Cell?<TlsSpec>
    var vectorAggregatorConfigMapName: string

    constructor (authentication: array?<AuthenticationSpec>, catalogLabelSelector: CatalogLabelSelectorSpec?,
                 catalogProperties: Cell?<CatalogMap>, listenerClass: string, tls: Cell?<TlsSpec>,
                 vectorAggregatorConfigMapName: string)
      ensures this.authentication == authentication && this.catalogLabelSelector == catalogLabelSelector
      ensures this.catalogProperties == catalogProperties && this.listenerClass == listenerClass
      ensures this.tls == tls && this.vectorAggregatorConfigMapName == vectorAggregatorConfigMapName
    {
      this.authentication, this.catalogLabelSelector := authentication, catalogLabelSelector;
      this.catalogProperties, this.listenerClass := catalogProperties, listenerClass;
      this.tls, this.vectorAggregatorConfigMapName := tls, vectorAggregatorConfigMapName;
    }

    ghost function Reach(): set<object>
      reads *
    {
      {this} + AuthenticationSliceReach(authentication) + SelectorReach(catalogLabelSelector)
      + CatalogMapReach(catalogProperties) + Opt(tls)
    }

    ghost function View(): ClusterConfigValue
      reads *
    {
      ClusterConfigValue(
        AuthenticationSliceView(authentication), SelectorView(catalogLabelSelector), CatalogMapView(catalogProperties),
        listenerClass, CellView(tls), vectorAggregatorConfigMapName)
    }

    /** The parts share no object, nor do two authentication entries or two catalogs. */
    ghost predicate Apart()
      reads *
    {
      AuthenticationSliceReach(authentication) !! SelectorReach(catalogLabelSelector)
      !! CatalogMapReach(catalogProperties) !! Opt(tls)
      && AuthenticationsApart(SpecsIn(authentication)) && CatalogsApart(CatalogsIn(catalogProperties))
    }

    method CopyCatalogParts() returns (s: CatalogLabelSelectorSpec?, c: Cell?<CatalogMap>, t: Cell?<TlsSpec>)
      ensures SelectorView(s) == old(SelectorView(catalogLabelSelector)) && fresh(SelectorReach(s))
      ensures CatalogMapView(c) == old(CatalogMapView(catalogProperties)) && fresh(CatalogMapReach(c))
              && CatalogsApart(CatalogsIn(c))
      ensures CellView(t) == old(CellView(tls)) && fresh(Opt(t))
      ensures SelectorReach(s) !! CatalogMapReach(c) !! Opt(t)
    {
      s := CopySelector(catalogLabelSelector);
      ghost var selectorObjects: set<object> :| selectorObjects == SelectorReach(s);
      label S:
      c := CopyCatalogMap(catalogProperties);
      ghost var catalogObjects: set<object> :| catalogObjects == CatalogMapReach(c);
      label C:
      t := CopyCell(tls);
      SelectorUnchanged@S(s);
      CatalogMapUnchanged@C(c);
    }

    method CopyConfigParts()
      returns (a: array?<AuthenticationSpec>, s: CatalogLabelSelectorSpec?, c: Cell?<CatalogMap>, t: Cell?<TlsSpec>)
      ensures AuthenticationSliceView(a) == old(AuthenticationSliceView(authentication))
      ensures fresh(AuthenticationSliceReach(a)) && AuthenticationsApart(SpecsIn(a))
      ensures SelectorView(s) == old(SelectorView(catalogLabelSelector)) && fresh(SelectorReach(s))
      ensures CatalogMapView(c) == old(CatalogMapView(catalogProperties)) && fresh(CatalogMapReach(c))
              && CatalogsApart(CatalogsIn(c))
      ensures CellView(t) == old(CellView(tls)) && fresh(Opt(t))
      ensures AuthenticationSliceReach(a) !! SelectorReach(s) !! CatalogMapReach(c) !! Opt(t)
    {
      a := CopyAuthenticationSlice(authentication);
      ghost var authenticationObjects: set<object> :| authenticationObjects == AuthenticationSliceReach(a);
      label A:
      assert SelectorView(catalogLabelSelector) == old(SelectorView(catalogLabelSelector));
      assert CatalogMapView(catalogProperties) == old(CatalogMapView(catalogProperties));
      s, c, t := CopyCatalogParts();
      AuthenticationSliceUnchanged@A(a);
    }

    method DeepCopy() returns (out: ClusterConfigSpec)
      ensures out.View() == old(View()) && fresh(out.Reach()) && out.Apart()
    {
      var a, s, c, t := CopyConfigParts();
      ghost var objects: set<object>
        :| objects == AuthenticationSliceReach(a) + SelectorReach(s) + CatalogMapReach(c) + Opt(t);
      label C:
      out := new ClusterConfigSpec(a, s, c, listenerClass, t, vectorAggregatorConfigMapName);
      AuthenticationSliceUnchanged@C(a);
      SelectorUnchanged@C(s);
      CatalogMapUnchanged@C(c);
      assert out.Reach() == {out} + objects;
    }
  }

  twostate lemma AuthenticationSliceUnchanged(a: array?<AuthenticationSpec>)
    requires forall o: object :: old(allocated(o)) && o in old(AuthenticationSliceReach(a)) ==> unchanged(o)
    ensures AuthenticationSliceReach(a) == old(AuthenticationSliceReach(a))
    ensures AuthenticationSliceView(a) == old(AuthenticationSliceView(a))
    ensures AuthenticationsApart(SpecsIn(a)) == old(AuthenticationsApart(SpecsIn(a)))
  {
    assert a != null ==> a in old(AuthenticationSliceReach(a));
    assert SpecsIn(a) == old(SpecsIn(a));
    assert old(AuthenticationsReach(SpecsIn(a))) <= old(AuthenticationSliceReach(a));
    AuthenticationsUnchanged(old(SpecsIn(a)));
  }

  twostate lemma SelectorUnchanged(c: CatalogLabelSelectorSpec?)
    requires forall o: object :: old(allocated(o)) && o in old(SelectorReach(c)) ==> unchanged(o)
    ensures SelectorReach(c) == old(SelectorReach(c)) && SelectorView(c) == old(SelectorView(c))
  {
  }

  twostate lemma CatalogMapUnchanged(c: Cell?<CatalogMap>)
    requires forall o: object :: old(allocated(o)) && o in old(CatalogMapReach(c)) ==> unchanged(o)
    ensures CatalogMapReach(c) == old(CatalogMapReach(c)) && CatalogMapView(c) == old(CatalogMapView(c))
  {
    assert c != null ==> c in old(CatalogMapReach(c));
    forall k | k in CatalogsIn(c)
      ensures CellView(CatalogsIn(c)[k]) == old(CellView(CatalogsIn(c)[k]))
    {
      assert Opt(CatalogsIn(c)[k]) <= old(CatalogMapReach(c)) by {
        forall o | o in Opt(CatalogsIn(c)[k])
          ensures o in old(CatalogsReach(CatalogsIn(c)))
        {
          assert k in CatalogsIn(c);
        }
      }
    }
    assert c != null ==> CatalogsView(c.value) == old(CatalogsView(c.value));
  }

  /* ----- Nil pointers to roles and to the cluster configuration ----- */

  ghost function RoleReach(r: RoleSpec?): set<object>
    reads *
  {
    if r == null then {} else r.Reach()
  }

  ghost function RoleView(r: RoleSpec?): Option<RoleValue>
    reads *
  {
    if r == null then None else Some(r.View())
  }

  ghost predicate RoleApart(r: RoleSpec?)
    reads *
  {
    r == null || r.Apart()
  }

  method CopyRole(r: RoleSpec?) returns (d: RoleSpec?)
    ensures RoleView(d) == old(RoleView(r)) && fresh(RoleReach(d)) && RoleApart(d)
  {
    if r == null {
      d := null;
    } else {
      d := r.DeepCopy();
    }
  }

  twostate lemma RoleUnchanged(r: RoleSpec?)
    requires forall o: object :: old(allocated(o)) && o in old(RoleReach(r)) ==> unchanged(o)
    ensures RoleReach(r) == old(RoleReach(r)) && RoleView(r) == old(RoleView(r)) && RoleApart(r) == old(RoleApart(r))
  {
    if r != null {
      assert r in old(RoleReach(r));
      GroupMapUnchanged(old(r.roleGroups));
      BaseUnchanged(old(r.base));
    }
  }

  ghost function ClusterConfigReach(c: ClusterConfigSpec?): set<object>
    reads *
  {
    if c == null then {} else c.Reach()
  }

  ghost function ClusterConfigView(c: ClusterConfigSpec?): Option<ClusterConfigValue>
    reads *
  {
    if c == null then None else Some(c.View())
  }

  ghost predicate ClusterConfigApart(c: ClusterConfigSpec?)
    reads *
  {
    c == null || c.Apart()
  }

  method CopyClusterConfig(c: ClusterConfigSpec?) returns (d: ClusterConfigSpec?)
    ensures ClusterConfigView(d) == old(ClusterConfigView(c)) && fresh(ClusterConfigReach(d)) && ClusterConfigApart(d)
  {
    if c == null {
      d := null;
    } else {
      d := c.DeepCopy();
    }
  }

  twostate lemma ClusterConfigUnchanged(c: ClusterConfigSpec?)
    requires forall o: object :: old(allocated(o)) && o in old(ClusterConfigReach(c)) ==> unchanged(o)
    ensures ClusterConfigReach(c) == old(ClusterConfigReach(c)) && ClusterConfigView(c) == old(ClusterConfigView(c))
    ensures ClusterConfigApart(c) == old(ClusterConfigApart(c))
  {
    if c != null {
      assert c in old(ClusterConfigReach(c)) && old(Opt(c.tls)) <= old(ClusterConfigReach(c));
      AuthenticationSliceUnchanged(old(c.authentication));
      SelectorUnchanged(old(c.catalogLabelSelector));
      CatalogMapUnchanged(old(c.catalogProperties));
    }
  }

  /* ----- The roles, and the roles with the cluster configuration ----- */

  datatype Roles = Roles(coordinators: RoleSpec?, workers: RoleSpec?)

  datatype RolesValue = RolesValue(coordinators: Option<RoleValue>, workers: Option<RoleValue>)

  ghost function RolesView(r: Roles): RolesValue
    reads *
  {
    RolesValue(RoleView(r.coordinators), RoleView(r.workers))
  }

  ghost function RolesReach(r: Roles): set<object>
    reads *
  {
    RoleReach(r.coordinators) + RoleReach(r.workers)
  }

  /** The two roles share no object, nor do the parts of one of them. */
  ghost predicate RolesApart(r: Roles)
    reads *
  {
    RoleReach(r.coordinators) !! RoleReach(r.workers) && RoleApart(r.coordinators) && RoleApart(r.workers)
  }

  twostate lemma RolesUnchanged(r: Roles)
    requires forall o: object :: old(allocated(o)) && o in old(RolesReach(r)) ==> unchanged(o)
    ensures RolesView(r) == old(RolesView(r)) && RolesReach(r) == old(RolesReach(r))
            && RolesApart(r) == old(RolesApart(r))
  {
    assert old(RoleReach(r.coordinators)) <= old(RolesReach(r)) && old(RoleReach(r.workers)) <= old(RolesReach(r));
    RoleUnchanged(r.coordinators);
    RoleUnchanged(r.workers);
  }

  method CopyRoles(r: Roles) returns (s: Roles)
    ensures RolesView(s) == old(RolesView(r)) && fresh(RolesReach(s)) && RolesApart(s)
  {
    var c := CopyRole(r.coordinators);
    ghost var coordinatorObjects: set<object> :| coordinatorObjects == RoleReach(c);
    label C:
    RoleUnchanged(r.workers);
    var w := CopyRole(r.workers);
    assert coordinatorObjects !! RoleReach(w);
    RoleUnchanged@C(c);
    s := Roles(c, w);
  }

  datatype SpecParts = SpecParts(config: ClusterConfigSpec?, roles: Roles)

  datatype PartsValue = PartsValue(config: Option<ClusterConfigValue>, roles: RolesValue)

  ghost function PartsView(p: SpecParts): PartsValue
    reads *
  {
    PartsValue(ClusterConfigView(p.config), RolesView(p.roles))
  }

  ghost function PartsReach(p: SpecParts): set<object>
    reads *
  {
    ClusterConfigReach(p.config) + RolesReach(p.roles)
  }

  ghost predicate PartsApart(p: SpecParts)
    reads *
  {
    ClusterConfigReach(p.config) !! RolesReach(p.roles) && ClusterConfigApart(p.config) && RolesApart(p.roles)
  }

  twostate lemma PartsUnchanged(p: SpecParts)
    requires forall o: object :: old(allocated(o)) && o in old(PartsReach(p)) ==> unchanged(o)
    ensures PartsView(p) == old(PartsView(p)) && PartsReach(p) == old(PartsReach(p))
            && PartsApart(p) == old(PartsApart(p))
  {
    assert old(ClusterConfigReach(p.config)) <= old(PartsReach(p)) && old(RolesReach(p.roles)) <= old(PartsReach(p));
    ClusterConfigUnchanged(p.config);
    RolesUnchanged(p.roles);
  }

  /** The roles, still to be copied, stay as they are. */
  method CopyConfigBefore(c: ClusterConfigSpec?, ghost roles: Roles) returns (d: ClusterConfigSpec?)
    ensures ClusterConfigView(d) == old(ClusterConfigView(c)) && fresh(ClusterConfigReach(d)) && ClusterConfigApart(d)
    ensures RolesView(roles) == old(RolesView(roles))
  {
    d := CopyClusterConfig(c);
    RolesUnchanged(roles);
  }

  /** The configuration, already copied, stays as it is. */
  method CopyRolesAfter(r: Roles, ghost config: ClusterConfigSpec?) returns (s: Roles)
    ensures RolesView(s) == old(RolesView(r)) && fresh(RolesReach(s)) && RolesApart(s)
    ensures ClusterConfigView(config) == old(ClusterConfigView(config))
    ensures ClusterConfigReach(config) == old(ClusterConfigReach(config))
    ensures ClusterConfigApart(config) == old(ClusterConfigApart(config))
    ensures ClusterConfigReach(config) !! RolesReach(s)
  {
    ghost var older: set<object> :| older == ClusterConfigReach(config);
    s := CopyRoles(r);
    ClusterConfigUnchanged(config);
    assert older !! RolesReach(s);
  }

  method CopyEachPart(p: SpecParts) returns (q: SpecParts)
    ensures ClusterConfigView(q.config) == old(ClusterConfigView(p.config)) && fresh(ClusterConfigReach(q.config))
    ensures RolesView(q.roles) == old(RolesView(p.roles)) && fresh(RolesReach(q.roles))
    ensures PartsApart(q)
  {
    var config := CopyConfigBefore(p.config, p.roles);
    var roles := CopyRolesAfter(p.roles, config);
    q := SpecParts(config, roles);
  }

  method CopyParts(p: SpecParts) returns (q: SpecParts)
    ensures PartsView(q) == old(PartsView(p)) && fresh(PartsReach(q)) && PartsApart(q)
  {
    q := CopyEachPart(p);
  }

  /* ----- The whole spec ----- */

  datatype TrinoClusterValue = TrinoClusterValue(parts: PartsValue, clusterOperation: Option<Foreign>,
                                                 image: Option<Foreign>)

  class TrinoClusterSpec {
    var clusterConfig: ClusterConfigSpec?
    var clusterOperation: Cell?<Foreign>
    var image: Cell?<Foreign>
    var coordinators: RoleSpec?
    var workers: RoleSpec?

    constructor (clusterConfig: ClusterConfigSpec?, clusterOperation: Cell?<Foreign>, image: Cell?<Foreign>,
                 coordinators: RoleSpec?, workers: RoleSpec?)
      ensures this.clusterConfig == clusterConfig && this.clusterOperation == clusterOperation && this.image == image
      ensures this.coordinators == coordinators && this.workers == workers
    {
      this.clusterConfig, this.clusterOperation, this.image := clusterConfig, clusterOperation, image;
      this.coordinators, this.workers := coordinators, workers;
    }

    ghost function Parts(): SpecParts
      reads this
    {
      SpecParts(clusterConfig, Roles(coordinators, workers))
    }

    /** Every object the spec reaches. */
    ghost function Reach(): set<object>
      reads *
    {
      {this} + PartsReach(Parts()) + Opt(clusterOperation) + Opt(image)
    }

    ghost function View(): TrinoClusterValue
      reads *
    {
      TrinoClusterValue(PartsView(Parts()), CellView(clusterOperation), CellView(image))
    }

    /** No object is reached through two parts of the spec, or through two parts of one of them. */
    ghost predicate Apart()
      reads *
    {
      PartsReach(Parts()) !! Opt(clusterOperation) !! Opt(image) && PartsApart(Parts())
    }

    method CopyPointers() returns (q: SpecParts, operation: Cell?<Foreign>, i: Cell?<Foreign>)
      ensures PartsView(q) == old(PartsView(Parts())) && fresh(PartsReach(q)) && PartsApart(q)
      ensures CellView(operation) == old(CellView(clusterOperation)) && CellView(i) == old(CellView(image))
      ensures fresh(Opt(operation)) && fresh(Opt(i)) && PartsReach(q) !! Opt(operation) !! Opt(i)
    {
      q := CopyParts(SpecParts(clusterConfig, Roles(coordinators, workers)));
      ghost var objects: set<object> :| objects == PartsReach(q);
      label B:
      operation := CopyCell(clusterOperation);
      i := CopyCell(image);
      PartsUnchanged@B(q);
    }

    /** The copy stands for the same value; every object it reaches is new, so none is the
        original's; and within it nothing is shared, whatever the original shares. */
    method DeepCopy() returns (out: TrinoClusterSpec)
      ensures out.View() == old(View())
      ensures fresh(out.Reach()) && old(Reach()) !! out.Reach()
      ensures out.Apart()
    {
      ghost var mine: set<object> :| mine == Reach();
      var q, operation, i := CopyPointers();
      ghost var objects: set<object> :| objects == PartsReach(q);
      label B:
      out := new TrinoClusterSpec(q.config, operation, i, q.roles.coordinators, q.roles.workers);
      PartsUnchanged@B(q);
      ghost var all: set<object> := {out} + objects + Opt(operation) + Opt(i);
      assert fresh(all);
      assert out.Reach() == all;
    }

    /** Copy, then write anything anywhere within the copy: the original stands for the same value. */
    method WriteToCopy() returns (out: TrinoClusterSpec)
      ensures View() == old(View())
    {
      out := DeepCopy();
      Independence(this);
      label L:
      modify out.Reach();
      Independence@L(this);
    }

    /** Copy, then write anything anywhere within the original: the copy keeps the original's old value. */
    method WriteToOriginal() returns (out: TrinoClusterSpec)
      modifies Reach()
      ensures out.View() == old(View())
    {
      out := DeepCopy();
      Independence(this);
      label L:
      modify Reach();
      Independence@L(out);
    }
  }

  /** What a spec stands for depends only on the objects it reaches: any sequence of writes and
      allocations that leaves those alone leaves the value alone. */
  twostate lemma Independence(s: TrinoClusterSpec)
    requires forall o: object :: old(allocated(o)) && o in old(s.Reach()) ==> unchanged(o)
    ensures s.Reach() == old(s.Reach()) && s.View() == old(s.View())
  {
    assert s in old(s.Reach());
    PartsUnchanged(old(s.Parts()));
  }

  /** While the two specs reach no common object, writes that touch only what `written` reaches, or
      newly allocated objects, leave `other` standing for the same value. */
  twostate lemma WritesToOneLeaveTheOther(written: TrinoClusterSpec, other: TrinoClusterSpec)
    requires old(written.Reach()) !! old(other.Reach())
    requires forall o: object :: old(allocated(o)) && o !in old(written.Reach()) ==> unchanged(o)
    ensures other.View() == old(other.View())
  {
    Independence(other);
  }

  /* ----- What equal values mean, field by field ----- */

  ghost predicate SameCell<T(!new)>(c: Cell?<T>, d: Cell?<T>)
    reads c, d
  {
    (c == null <==> d == null) && (c != null ==> c.value == d.value)
  }

  ghost predicate SameSlice<T(!new)>(a: array?<T>, b: array?<T>)
    reads a, b
  {
    (a == null <==> b == null) && (a != null ==> a[..] == b[..])
  }

  ghost predicate SameOidc(x: OidcSpec?, y: OidcSpec?)
    reads *
  {
    (x == null <==> y == null)
    && (x != null ==> x.clientCredentialsSecret == y.clientCredentialsSecret && SameSlice(x.extraScopes, y.extraScopes))
  }

  ghost predicate SameAuthentications(a: array?<AuthenticationSpec>, b: array?<AuthenticationSpec>)
    reads *
  {
    (a == null <==> b == null)
    && (a != null ==> a.Length == b.Length
                      && forall i :: 0 <= i < a.Length ==>
                           a[i].authenticationClass == b[i].authenticationClass && SameOidc(a[i].oidc, b[i].oidc))
  }

  ghost predicate SameSelector(x: CatalogLabelSelectorSpec?, y: CatalogLabelSelectorSpec?)
    reads *
  {
    (x == null <==> y == null)
    && (x != null ==> SameCell(x.matchLabels, y.matchLabels) && SameSlice(x.matchExpressions, y.matchExpressions))
  }

  ghost predicate SameCatalogs(c: Cell?<CatalogMap>, d: Cell?<CatalogMap>)
    reads *
  {
    (c == null <==> d == null)
    && (c != null ==> c.value.Keys == d.value.Keys && forall k <- c.value :: SameCell(c.value[k], d.value[k]))
  }

  ghost predicate SameClusterConfig(x: ClusterConfigSpec?, y: ClusterConfigSpec?)
    reads *
  {
    (x == null <==> y == null)
    && (x != null ==>
          SameAuthentications(x.authentication, y.authentication)
          && SameSelector(x.catalogLabelSelector, y.catalogLabelSelector)
          && SameCatalogs(x.catalogProperties, y.catalogProperties) && SameCell(x.tls, y.tls)
          && x.listenerClass == y.listenerClass
          && x.vectorAggregatorConfigMapName == y.vectorAggregatorConfigMapName)
  }

  ghost predicate SameConfig(x: ConfigSpec?, y: ConfigSpec?)
    reads *
  {
    (x == null <==> y == null)
    && (x != null ==> SameCell(x.roleGroupConfig, y.roleGroupConfig)
                      && x.queryMaxMemory == y.queryMaxMemory && x.queryMaxMemoryPerNode == y.queryMaxMemoryPerNode)
  }

  ghost predicate SameGroup(x: RoleGroupSpec?, y: RoleGroupSpec?)
    reads *
  {
    (x == null <==> y == null)
    && (x != null ==> SameCell(x.replicas, y.replicas) && SameConfig(x.config, y.config)
                      && SameCell(x.overrides, y.overrides))
  }

  ghost predicate SameGroups(c: Cell?<GroupMap>, d: Cell?<GroupMap>)
    reads *
  {
    (c == null <==> d == null)
    && (c != null ==> c.value.Keys == d.value.Keys && forall k <- c.value :: SameGroup(c.value[k], d.value[k]))
  }

  ghost predicate SameRole(x: RoleSpec?, y: RoleSpec?)
    reads *
  {
    (x == null <==> y == null)
    && (x != null ==>
          SameGroups(x.roleGroups, y.roleGroups) && SameCell(x.base.replicas, y.base.replicas)
          && SameCell(x.base.overrides, y.base.overrides) && SameCell(x.base.roleConfig, y.base.roleConfig)
          && SameConfig(x.base.config, y.base.config))
  }

  ghost predicate SameSpec(x: TrinoClusterSpec, y: TrinoClusterSpec)
    reads *
  {
    SameClusterConfig(x.clusterConfig, y.clusterConfig) && SameCell(x.clusterOperation, y.clusterOperation)
    && SameCell(x.image, y.image) && SameRole(x.coordinators, y.coordinators) && SameRole(x.workers, y.workers)
  }

  lemma CellValues<T(!new)>(c: Cell?<T>, d: Cell?<T>)
    ensures CellView(c) == CellView(d) <==> SameCell(c, d)
  {
  }

  lemma SliceValues<T(!new)>(a: array?<T>, b: array?<T>)
    ensures SliceView(a) == SliceView(b) <==> SameSlice(a, b)
  {
  }

  lemma AuthenticationEntryValues(a: AuthenticationSpec, b: AuthenticationSpec)
    ensures AuthenticationView(a) == AuthenticationView(b)
            <==> a.authenticationClass == b.authenticationClass && SameOidc(a.oidc, b.oidc)
  {
    if a.oidc != null && b.oidc != null {
      SliceValues(a.oidc.extraScopes, b.oidc.extraScopes);
    }
  }

  lemma AuthenticationSliceValues(a: array?<AuthenticationSpec>, b: array?<AuthenticationSpec>)
    ensures AuthenticationSliceView(a) == AuthenticationSliceView(b) <==> SameAuthentications(a, b)
  {
    if a != null && b != null {
      var v, w := AuthenticationsView(a[..]), AuthenticationsView(b[..]);
      if a.Length != b.Length {
        var n := if a.Length < b.Length then a.Length else b.Length;
        assert n in v <==> n !in w;
      } else {
        forall i | 0 <= i < a.Length
          ensures v[i] == w[i]
                  <==> a[i].authenticationClass == b[i].authenticationClass && SameOidc(a[i].oidc, b[i].oidc)
        {
          AuthenticationEntryValues(a[i], b[i]);
        }
        assert v == w <==> forall i :: 0 <= i < a.Length ==> v[i] == w[i];
      }
    }
  }

  lemma SelectorValues(x: CatalogLabelSelectorSpec?, y: CatalogLabelSelectorSpec?)
    ensures SelectorView(x) == SelectorView(y) <==> SameSelector(x, y)
  {
    if x != null && y != null {
      CellValues(x.matchLabels, y.matchLabels);
      SliceValues(x.matchExpressions, y.matchExpressions);
    }
  }

  lemma CatalogMapValues(c: Cell?<CatalogMap>, d: Cell?<CatalogMap>)
    ensures CatalogMapView(c) == CatalogMapView(d) <==> SameCatalogs(c, d)
  {
    if c != null && d != null {
      var v, w := CatalogsView(c.value), CatalogsView(d.value);
      assert v.Keys == c.value.Keys && w.Keys == d.value.Keys;
      forall k | k in c.value && k in d.value
        ensures v[k] == w[k] <==> SameCell(c.value[k], d.value[k])
      {
        CellValues(c.value[k], d.value[k]);
      }
      assert v == w <==> v.Keys == w.Keys && forall k <- v :: v[k] == w[k];
    }
  }

  lemma ClusterConfigValues(x: ClusterConfigSpec?, y: ClusterConfigSpec?)
    ensures ClusterConfigView(x) == ClusterConfigView(y) <==> SameClusterConfig(x, y)
  {
    if x != null && y != null {
      AuthenticationSliceValues(x.authentication, y.authentication);
      SelectorValues(x.catalogLabelSelector, y.catalogLabelSelector);
      CatalogMapValues(x.catalogProperties, y.catalogProperties);
      CellValues(x.tls, y.tls);
    }
  }

  lemma ConfigValues(x: ConfigSpec?, y: ConfigSpec?)
    ensures ConfigView(x) == ConfigView(y) <==> SameConfig(x, y)
  {
    if x != null && y != null {
      CellValues(x.roleGroupConfig, y.roleGroupConfig);
    }
  }

  lemma GroupEntryValues(x: RoleGroupSpec?, y: RoleGroupSpec?)
    ensures GroupView(x) == GroupView(y) <==> SameGroup(x, y)
  {
    if x != null && y != null {
      CellValues(x.replicas, y.replicas);
      ConfigValues(x.config, y.config);
      CellValues(x.overrides, y.overrides);
    }
  }

  lemma GroupMapValues(c: Cell?<GroupMap>, d: Cell?<GroupMap>)
    ensures GroupMapView(c) == GroupMapView(d) <==> SameGroups(c, d)
  {
    if c != null && d != null {
      var v, w := GroupsView(c.value), GroupsView(d.value);
      assert v.Keys == c.value.Keys && w.Keys == d.value.Keys;
      forall k | k in c.value && k in d.value
        ensures v[k] == w[k] <==> SameGroup(c.value[k], d.value[k])
      {
        GroupEntryValues(c.value[k], d.value[k]);
      }
      assert v == w <==> v.Keys == w.Keys && forall k <- v :: v[k] == w[k];
    }
  }

  lemma RoleValues(x: RoleSpec?, y: RoleSpec?)
    ensures RoleView(x) == RoleView(y) <==> SameRole(x, y)
  {
    if x != null && y != null {
      GroupMapValues(x.roleGroups, y.roleGroups);
      CellValues(x.base.replicas, y.base.replicas);
      CellValues(x.base.overrides, y.base.overrides);
      CellValues(x.base.roleConfig, y.base.roleConfig);
      ConfigValues(x.base.config, y.base.config);
    }
  }

  /** Two specs stand for the same value exactly when they agree in every field, through every pointer,
      map and slice; nothing that a spec holds is left out of the value. */
  lemma EqualValuesExactly(x: TrinoClusterSpec, y: TrinoClusterSpec)
    ensures x.View() == y.View() <==> SameSpec(x, y)
  {
    ClusterConfigValues(x.clusterConfig, y.clusterConfig);
    CellValues(x.clusterOperation, y.clusterOperation);
    CellValues(x.image, y.image);
    RoleValues(x.coordinators, y.coordinators);
    RoleValues(x.workers, y.workers);
  }
}
