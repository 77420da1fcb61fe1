/** Authenticators: the three kinds the operator supports, and how the AuthenticationClasses a
    spec names resolve to a list of them. */
module Authentication {
  import opened Outcomes
  import opened Orders
  import opened Spec

  /* ----- What an AuthenticationClass provides ----- */

  datatype OidcProvider = OidcProvider(hostname: string, port: int, rootPath: string, principalClaim: string)

  datatype StaticProvider = StaticProvider(userCredentialsSecret: string)

  datatype SecretScope = SecretScope(pod: bool, node: bool, services: seq<string>)

  datatype LdapProvider = LdapProvider(
    hostname: string, port: int, tls: bool, searchBase: string, uidField: string,
    secretClass: string, scope: Option<SecretScope>)

  datatype Provider = Provider(
    oidc: Option<OidcProvider>, users: Option<StaticProvider>, ldap: Option<LdapProvider>)

  /** One API read. A class that is not found leaves the zero object, whose provider is nil. */
  datatype Lookup = Read(provider: Option<Provider>) | ReadError

  /** The API server during one build; a missing name is a class that is not found. */
  type Snapshot = map<string, Lookup>

  datatype AuthenticationType = OIDC | STATIC | LDAP

  datatype Authenticator =
    | Oidc(config: Option<OidcSpec>, oidc: OidcProvider)
    | Static(users: StaticProvider)
    | Ldap(ldap: LdapProvider)

  function TypeOf(a: Authenticator): AuthenticationType {
    match a
    case Oidc(_, _) => OIDC
    case Static(_) => STATIC
    case Ldap(_) => LDAP
  }

  function AuthenticatorFactory(config: Option<OidcSpec>, provider: Provider): Option<Authenticator> {
    if provider.oidc.Some? then Some(Oidc(config, provider.oidc.value))
    else if provider.users.Some? then Some(Static(provider.users.value))
    else if provider.ldap.Some? then Some(Ldap(provider.ldap.value))
    else None
  }

  /* ----- Building the list of authenticators ----- */

  datatype Resolution = LookupError | NilProvider | Unsupported | Supported(authenticator: Authenticator)

  function Resolve(api: Snapshot, spec: AuthenticationSpec): Resolution {
    if spec.authenticationClass !in api then NilProvider
    else
      match api[spec.authenticationClass]
      case ReadError => LookupError
      case Read(None) => NilProvider
      case Read(Some(provider)) =>
        match AuthenticatorFactory(spec.oidc, provider)
        case None => Unsupported
        case Some(a) => Supported(a)
  }

  predicate SameType(api: Snapshot, specs: seq<AuthenticationSpec>, i: nat, j: nat)
    requires i < |specs| && j < |specs|
  {
    var x, y := Resolve(api, specs[i]), Resolve(api, specs[j]);
    x.Supported? && y.Supported? && TypeOf(x.authenticator) == TypeOf(y.authenticator)
  }

  predicate LookupStops(api: Snapshot, spec: AuthenticationSpec) {
    Resolve(api, spec).LookupError? || Resolve(api, spec).NilProvider?
  }

  /** Entry `i` ends the loop: its lookup fails, its provider is nil, or its type came before. */
  predicate Stops(api: Snapshot, specs: seq<AuthenticationSpec>, i: nat)
    requires i < |specs|
  {
    LookupStops(api, specs[i]) || exists j: nat :: j < i && SameType(api, specs, j, i)
  }

  function StopOutcome(api: Snapshot, spec: AuthenticationSpec): Outcome<seq<Authenticator>> {
    match Resolve(api, spec)
    case LookupError => Err(LookupFailed(spec.authenticationClass))
    case NilProvider => Panic
    case _ => Err(DuplicateAuthenticator(spec.authenticationClass))
  }

  /** The supported authenticators in the order the spec names them. */
  function Resolved(api: Snapshot, specs: seq<AuthenticationSpec>): seq<Authenticator> {
    if specs == [] then []
    else
      var last := |specs| - 1;
      var before := Resolved(api, specs[..last]);
      match Resolve(api, specs[last])
      case Supported(a) => before + [a]
      case _ => before
  }

  predicate DistinctTypes(list: seq<Authenticator>) {
    forall i, j :: 0 <= i < j < |list| ==> TypeOf(list[i]) != TypeOf(list[j])
  }

  /** The lists one call may return: no entry stops the loop, and the order is arbitrary. */
  predicate PossibleList(api: Snapshot, specs: seq<AuthenticationSpec>, list: seq<Authenticator>) {
    (forall i :: 0 <= i < |specs| ==> !Stops(api, specs, i))
    && multiset(list) == multiset(Resolved(api, specs))
  }

  lemma {:induction false} ResolvedMembers(api: Snapshot, specs: seq<AuthenticationSpec>, a: Authenticator)
    ensures a in Resolved(api, specs)
            <==> exists i :: 0 <= i < |specs| && Resolve(api, specs[i]) == Supported(a)
  {
    if specs != [] {
      var last := |specs| - 1;
      ResolvedMembers(api, specs[..last], a);
      assert forall i :: 0 <= i < last ==> specs[..last][i] == specs[i];
      if a in Resolved(api, specs) && a !in Resolved(api, specs[..last]) {
        assert Resolve(api, specs[last]) == Supported(a);
      }
    }
  }

  /** The map the first loop fills: each supported authenticator under its own type. */
  predicate ByType(list: seq<Authenticator>, m: map<AuthenticationType, Authenticator>) {
    DistinctTypes(list)
    && (forall t <- m :: TypeOf(m[t]) == t && m[t] in list)
    && (forall a <- list :: TypeOf(a) in m && m[TypeOf(a)] == a)
  }

  lemma EarlierSameType(api: Snapshot, specs: seq<AuthenticationSpec>, n: nat, a: Authenticator)
    requires n < |specs| && a in Resolved(api, specs[..n])
    requires Resolve(api, specs[n]).Supported? && TypeOf(Resolve(api, specs[n]).authenticator) == TypeOf(a)
    ensures Stops(api, specs, n)
  {
    ResolvedMembers(api, specs[..n], a);
    var j :| 0 <= j < n && Resolve(api, specs[..n][j]) == Supported(a);
    assert SameType(api, specs, j, n);
  }

  lemma NoEarlierSameType(api: Snapshot, specs: seq<AuthenticationSpec>, n: nat)
    requires n < |specs| && !LookupStops(api, specs[n])
    requires forall a <- Resolved(api, specs[..n]) :: Resolve(api, specs[n]).Supported? ==>
             TypeOf(a) != TypeOf(Resolve(api, specs[n]).authenticator)
    ensures !Stops(api, specs, n)
  {
    if j: nat :| j < n && SameType(api, specs, j, n) {
      assert specs[..n][j] == specs[j];
      ResolvedMembers(api, specs[..n], Resolve(api, specs[j]).authenticator);
    }
  }

  lemma {:induction false} ResolvedDistinct(api: Snapshot, specs: seq<AuthenticationSpec>)
    requires forall i :: 0 <= i < |specs| ==> !Stops(api, specs, i)
    ensures DistinctTypes(Resolved(api, specs))
  {
    if specs != [] {
      var n := |specs| - 1;
      forall i | 0 <= i < n
        ensures !Stops(api, specs[..n], i)
      {
        assert !Stops(api, specs, i);
        if j: nat :| j < i && SameType(api, specs[..n], j, i) {
          assert SameType(api, specs, j, i);
        }
      }
      ResolvedDistinct(api, specs[..n]);
      if Resolve(api, specs[n]).Supported? {
        var a := Resolve(api, specs[n]).authenticator;
        forall x | x in Resolved(api, specs[..n])
          ensures TypeOf(x) != TypeOf(a)
        {
          if TypeOf(x) == TypeOf(a) {
            EarlierSameType(api, specs, n, x);
          }
        }
      }
    }
  }

  lemma StopsGivenLookups(api: Snapshot, specs: seq<AuthenticationSpec>)
    requires forall i :: 0 <= i < |specs| ==> !LookupStops(api, specs[i])
    ensures (exists i :: 0 <= i < |specs| && Stops(api, specs, i))
            <==> exists i: nat, j: nat :: i < j < |specs| && SameType(api, specs, i, j)
  {
    if i: nat, j: nat :| i < j < |specs| && SameType(api, specs, i, j) {
      assert Stops(api, specs, j);
    }
    if j :| 0 <= j < |specs| && Stops(api, specs, j) {
      var i: nat :| i < j && SameType(api, specs, i, j);
    }
  }

  /* ----- What the entries of a spec ask for ----- */

  /** The entry's class was read and has a provider. */
  predicate WasRead(api: Snapshot, spec: AuthenticationSpec) {
    spec.authenticationClass in api && api[spec.authenticationClass].Read?
    && api[spec.authenticationClass].provider.Some?
  }

  /** The class is not found, or names no provider at all. */
  predicate NoProvider(api: Snapshot, name: string) {
    name !in api || api[name] == Read(None)
  }

  /** The entry asks for `a`: the provider of its class has that kind and, where it has several, OIDC
      comes before Static and Static before LDAP. The entry's own OIDC part goes with it. */
  predicate AsksFor(api: Snapshot, spec: AuthenticationSpec, a: Authenticator) {
    WasRead(api, spec)
    && var provider := api[spec.authenticationClass].provider.value;
       match a
       case Oidc(config, oidc) => provider.oidc == Some(oidc) && config == spec.oidc
       case Static(users) => provider.oidc.None? && provider.users == Some(users)
       case Ldap(ldap) => provider.oidc.None? && provider.users.None? && provider.ldap == Some(ldap)
  }

  predicate AskedFor(api: Snapshot, specs: seq<AuthenticationSpec>, a: Authenticator) {
    exists i :: 0 <= i < |specs| && AsksFor(api, specs[i], a)
  }

  /** A class whose provider has any of the three kinds asks for exactly one authenticator. */
  lemma KindsAskForOne(api: Snapshot, spec: AuthenticationSpec)
    requires WasRead(api, spec)
    ensures var provider := api[spec.authenticationClass].provider.value;
            (exists a :: AsksFor(api, spec, a)) <==> provider.oidc.Some? || provider.users.Some? || provider.ldap.Some?
    ensures forall a, a' :: AsksFor(api, spec, a) && AsksFor(api, spec, a') ==> a == a'
  {
    var provider := api[spec.authenticationClass].provider.value;
    if provider.oidc.Some? {
      assert AsksFor(api, spec, Oidc(spec.oidc, provider.oidc.value));
    } else if provider.users.Some? {
      assert AsksFor(api, spec, Static(provider.users.value));
    } else if provider.ldap.Some? {
      assert AsksFor(api, spec, Ldap(provider.ldap.value));
    }
  }

  lemma ResolvesToWhatItAsksFor(api: Snapshot, spec: AuthenticationSpec)
    ensures LookupStops(api, spec) <==> !WasRead(api, spec)
    ensures forall a :: Resolve(api, spec) == Supported(a) <==> AsksFor(api, spec, a)
  {
  }

  /** The resolved authenticators are exactly those the entries ask for. */
  lemma ResolvedExactly(api: Snapshot, specs: seq<AuthenticationSpec>, a: Authenticator)
    ensures a in Resolved(api, specs) <==> AskedFor(api, specs, a)
  {
    ResolvedMembers(api, specs, a);
    forall i | 0 <= i < |specs|
      ensures Resolve(api, specs[i]) == Supported(a) <==> AsksFor(api, specs[i], a)
    {
      ResolvesToWhatItAsksFor(api, specs[i]);
    }
  }

  ghost predicate TwoOfOneType(api: Snapshot, specs: seq<AuthenticationSpec>) {
    exists i, j, a, a' :: 0 <= i < j < |specs| && AsksFor(api, specs[i], a) && AsksFor(api, specs[j], a')
                          && TypeOf(a) == TypeOf(a')
  }

  lemma SameTypeAsked(api: Snapshot, specs: seq<AuthenticationSpec>, i: nat, j: nat)
    requires i < |specs| && j < |specs|
    ensures SameType(api, specs, i, j)
            <==> exists a, a' :: AsksFor(api, specs[i], a) && AsksFor(api, specs[j], a') && TypeOf(a) == TypeOf(a')
  {
    ResolvesToWhatItAsksFor(api, specs[i]);
    ResolvesToWhatItAsksFor(api, specs[j]);
    if SameType(api, specs, i, j) {
      var x, y := Resolve(api, specs[i]), Resolve(api, specs[j]);
      assert AsksFor(api, specs[i], x.authenticator) && AsksFor(api, specs[j], y.authenticator);
    }
  }

  /** No entry stops the loop exactly when every class was read and no two entries ask for
      authenticators of one type. */
  lemma AcceptedExactly(api: Snapshot, specs: seq<AuthenticationSpec>)
    ensures (forall i :: 0 <= i < |specs| ==> !Stops(api, specs, i))
            <==> (forall i :: 0 <= i < |specs| ==> WasRead(api, specs[i])) && !TwoOfOneType(api, specs)
  {
    forall i | 0 <= i < |specs|
      ensures LookupStops(api, specs[i]) <==> !WasRead(api, specs[i])
    {
      ResolvesToWhatItAsksFor(api, specs[i]);
    }
    if forall i :: 0 <= i < |specs| ==> WasRead(api, specs[i]) {
      StopsGivenLookups(api, specs);
      forall i: nat, j: nat | i < j < |specs|
        ensures SameType(api, specs, i, j)
                <==> exists a, a' :: AsksFor(api, specs[i], a) && AsksFor(api, specs[j], a') && TypeOf(a) == TypeOf(a')
      {
        SameTypeAsked(api, specs, i, j);
      }
    } else {
      var i :| 0 <= i < |specs| && !WasRead(api, specs[i]);
      assert Stops(api, specs, i);
    }
  }

  /** A crash means a class without provider, a lookup error a class that could not be read, and a
      duplicate two entries that ask for one type. */
  ghost predicate FailureExplained<T>(api: Snapshot, specs: seq<AuthenticationSpec>, r: Outcome<T>) {
    match r
    case Ok(_) => true
    case Panic => exists i :: 0 <= i < |specs| && NoProvider(api, specs[i].authenticationClass)
    case Err(LookupFailed(name)) => name in api && api[name].ReadError?
    case Err(DuplicateAuthenticator(_)) => TwoOfOneType(api, specs)
    case Err(_) => false
  }

  lemma StopExplained(api: Snapshot, specs: seq<AuthenticationSpec>, i: nat)
    requires i < |specs| && Stops(api, specs, i)
    ensures FailureExplained(api, specs, StopOutcome(api, specs[i]))
  {
    if !LookupStops(api, specs[i]) {
      var j: nat :| j < i && SameType(api, specs, j, i);
      SameTypeAsked(api, specs, j, i);
    }
  }

  /* ----- The call ----- */

  method CollectByType(api: Snapshot, specs: seq<AuthenticationSpec>)
    returns (r: Outcome<map<AuthenticationType, Authenticator>>)
    ensures r.Ok? ==> (forall i :: 0 <= i < |specs| ==> !Stops(api, specs, i)) && ByType(Resolved(api, specs), r.value)
    ensures !r.Ok? ==> exists i :: 0 <= i < |specs| && Stops(api, specs, i)
                                   && (forall j :: 0 <= j < i ==> !Stops(api, specs, j))
                                   && StopOutcome(api, specs[i]) == Propagate(r)
  {
    var authenticators: map<AuthenticationType, Authenticator> := map[];
    for n := 0 to |specs|
      invariant forall i :: 0 <= i < n ==> !Stops(api, specs, i)
      invariant ByType(Resolved(api, specs[..n]), authenticators)
    {
      assert specs[..n + 1][..n] == specs[..n];
      var name := specs[n].authenticationClass;
      if name in api && api[name].ReadError? {
        return Err(LookupFailed(name));
      }
      if name !in api || api[name].provider.None? {
        return Panic;
      }
      var authenticator := AuthenticatorFactory(specs[n].oidc, api[name].provider.value);
      if authenticator.Some? {
        var authType := TypeOf(authenticator.value);
        if authType in authenticators {
          EarlierSameType(api, specs, n, authenticators[authType]);
          return Err(DuplicateAuthenticator(name));
        }
        authenticators := authenticators[authType := authenticator.value];
      }
      NoEarlierSameType(api, specs, n);
    }
    assert specs[..|specs|] == specs;
    r := Ok(authenticators);
  }

  /** The call succeeds exactly when every class was read and no two entries ask for one type; the
      list then holds exactly what the entries ask for, in an arbitrary order. Otherwise the first
      entry that stops the loop decides between the two errors and the crash on a nil provider. */
  method NewAuthentication(api: Snapshot, specs: seq<AuthenticationSpec>) returns (r: Outcome<seq<Authenticator>>)
    ensures r.Ok? ==> PossibleList(api, specs, r.value) && DistinctTypes(r.value) && |r.value| <= 3
    ensures !r.Ok? ==> exists i :: 0 <= i < |specs| && Stops(api, specs, i)
                                   && (forall j :: 0 <= j < i ==> !Stops(api, specs, j))
                                   && r == StopOutcome(api, specs[i])
    ensures r.Ok? <==> (forall i :: 0 <= i < |specs| ==> WasRead(api, specs[i])) && !TwoOfOneType(api, specs)
    ensures r.Ok? ==> forall a :: a in r.value <==> AskedFor(api, specs, a)
    ensures FailureExplained(api, specs, r)
  {
    AcceptedExactly(api, specs);
    var authenticators := CollectByType(api, specs);
    if !authenticators.Ok? {
      ghost var i :|
        0 <= i < |specs| && Stops(api, specs, i) && StopOutcome(api, specs[i]) == Propagate(authenticators);
      StopExplained(api, specs, i);
      return Propagate(authenticators);
    }
    var list := ListAuthenticators(authenticators.value);
    DistinctTypesNoDuplicates(list);
    DistinctTypesNoDuplicates(Resolved(api, specs));
    SameElementsSameMultiset(list, Resolved(api, specs));
    forall a
      ensures a in list <==> AskedFor(api, specs, a)
    {
      ResolvedExactly(api, specs, a);
    }
    r := Ok(list);
  }

  lemma DistinctTypesNoDuplicates(list: seq<Authenticator>)
    requires DistinctTypes(list)
    ensures NoDuplicates(list)
  {
  }

  /** `for _, authenticator := range authenticators`, in whatever order the map yields. */
  method ListAuthenticators(authenticators: map<AuthenticationType, Authenticator>)
    returns (list: seq<Authenticator>)
    requires forall t <- authenticators :: TypeOf(authenticators[t]) == t
    ensures DistinctTypes(list) && |list| <= 3
    ensures forall a :: a in list <==> exists t :: t in authenticators && authenticators[t] == a
  {
    list := [];
    var todo := authenticators.Keys;
    while todo != {}
      invariant todo <= authenticators.Keys
      invariant forall a <- list :: TypeOf(a) in authenticators && TypeOf(a) !in todo && authenticators[TypeOf(a)] == a
      invariant forall t <- authenticators :: t in todo || authenticators[t] in list
      invariant DistinctTypes(list)
      invariant |list| + |todo| == |authenticators.Keys|
      decreases |todo|
    {
      var t :| t in todo;
      list := list + [authenticators[t]];
      todo := todo - {t};
    }
    AtMostThreeTypes(authenticators.Keys);
  }

  lemma AtMostThreeTypes(types: set<AuthenticationType>)
    ensures |types| <= 3
  {
    assert forall t <- types :: t == OIDC || t == STATIC || t == LDAP;
    SubsetSize(types, {OIDC, STATIC, LDAP});
  }

  lemma {:induction false} SubsetSize<T>(a: set<T>, b: set<T>)
    requires a <= b
    ensures |a| <= |b|
  {
    if a != {} {
      var x :| x in a;
      SubsetSize(a - {x}, b - {x});
    }
  }
}
