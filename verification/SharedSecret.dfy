/** The internal shared secret: created once, then left alone, although every build draws
    fresh random bytes. Runs interleave reconciles, TLS toggles, pod starts and deletions. */
module SharedSecret {
  import opened Outcomes
  import opened Names

  /* ----- The reconciler ----- */

  /** The value pods would read from the named secret. */
  function Stored(secrets: map<string, map<string, string>>, name: string): Option<string> {
    if name in secrets && INTERNAL_SHARED_SECRET_ENV in secrets[name]
    then Some(secrets[name][INTERNAL_SHARED_SECRET_ENV])
    else None
  }

  /** One undisturbed reconcile, as a function of the stored value. */
  function AfterReconcile(stored: Option<string>, readFails: bool, random: Option<string>): Option<string> {
    if readFails || stored.Some? then stored else random
  }

  /** The Secrets of one namespace, by name, each a map of keys to values. */
  class ApiServer {
    var secrets: map<string, map<string, string>>

    constructor ()
      ensures secrets == map[]
    {
      secrets := map[];
    }
  }

  class InternalSharedSecretReconciler {
    const api: ApiServer
    const name: string
    var items: map<string, string>

    constructor (api: ApiServer, clusterName: string)
      ensures this.api == api && name == SharedSecretName(clusterName) && items == map[]
    {
      this.api := api;
      name := SharedSecretName(clusterName);
      items := map[];
    }

    /** `random` is the encoded result of reading 512 random bytes, or None when that fails. */
    method Build(random: Option<string>) returns (r: Outcome<map<string, string>>)
      modifies this
      ensures random.None? ==> r == Err(RandomFailed) && items == old(items)
      ensures random.Some? ==> items == old(items)[INTERNAL_SHARED_SECRET_ENV := random.value] && r == Ok(items)
    {
      if random.None? {
        return Err(RandomFailed);
      }
      items := items[INTERNAL_SHARED_SECRET_ENV := random.value];
      r := Ok(items);
    }

    /** Reads the secret and writes it only if it is absent; every other secret is untouched. */
    method Reconcile(readFails: bool, random: Option<string>) returns (r: Outcome<bool>)
      modifies this, api
      ensures r.Ok? <==> !readFails && (name in old(api.secrets) || random.Some?)
      ensures name in old(api.secrets) || !r.Ok? ==> api.secrets == old(api.secrets)
      ensures r.Ok? && name !in old(api.secrets) ==>
                api.secrets == old(api.secrets)[name := old(items)[INTERNAL_SHARED_SECRET_ENV := random.value]]
      ensures (name in old(api.secrets) ==> INTERNAL_SHARED_SECRET_ENV in old(api.secrets)[name]) ==>
                Stored(api.secrets, name) == AfterReconcile(old(Stored(api.secrets, name)), readFails, random)
    {
      if readFails {
        return Err(ApiReadFailed);
      }
      if name in api.secrets {
        return Ok(true);
      }
      var built := Build(random);
      if !built.Ok? {
        return Propagate(built);
      }
      api.secrets := api.secrets[name := built.value];
      r := Ok(true);
    }
  }

  /* ----- Runs ----- */

  /** `secret` is the stored value, `writers` the reconciles that have read NotFound and not yet
      written. A reconcile that finds the secret has no further effect on it. */
  datatype State = State(tls: bool, secret: Option<string>, writers: nat)

  datatype Event =
    | ReadSecret               // a reconcile, with TLS registered, reads the secret
    | ReadFails                // the read returns another error
    | WriteSecret(drawn: string) // the same reconcile creates or updates it with what it drew
    | DrawFails                // the random source fails, so it returns without writing
    | SetTls(enabled: bool)
    | PodStarts(value: string) // a TLS pod starts and reads the secret
    | Delete                   // someone else deletes the secret

  /** `limit` is how many reconciles of one cluster may be in flight at once. */
  predicate Step(limit: nat, s: State, e: Event, s': State) {
    match e
    case ReadSecret =>
      s.tls && s.writers < limit && s' == if s.secret.None? then s.(writers := s.writers + 1) else s
    case ReadFails => s' == s
    case WriteSecret(drawn) => s.writers > 0 && s' == s.(writers := s.writers - 1, secret := Some(drawn))
    case DrawFails => s.writers > 0 && s' == s.(writers := s.writers - 1)
    case SetTls(enabled) => s' == s.(tls := enabled)
    case PodStarts(value) => s.tls && s.secret == Some(value) && s' == s
    case Delete => s' == s.(secret := None)
  }

  /** An undisturbed reconcile is one or two steps of the transition system. */
  lemma ReconcileIsSteps(s: State, readFails: bool, random: Option<string>)
    returns (read: Event, write: Event, middle: State)
    requires s.tls && s.writers == 0
    ensures Step(1, s, read, middle)
    ensures middle == s.(secret := AfterReconcile(s.secret, readFails, random))
            || Step(1, middle, write, s.(secret := AfterReconcile(s.secret, readFails, random)))
  {
    read := if readFails then ReadFails else ReadSecret;
    write := if random.Some? then WriteSecret(random.value) else DrawFails;
    middle := if !readFails && s.secret.None? then s.(writers := 1) else s;
  }

  datatype Run = Run(states: seq<State>, events: seq<Event>)

  predicate IsRun(limit: nat, run: Run) {
    |run.states| == |run.events| + 1
    && run.states[0].writers == 0
    && forall i :: 0 <= i < |run.events| ==> Step(limit, run.states[i], run.events[i], run.states[i + 1])
  }

  predicate NoDeletion(run: Run, i: nat, j: nat)
    requires i <= j <= |run.events|
  {
    forall k :: i <= k < j ==> !run.events[k].Delete?
  }

  /** A stored value stays until it is deleted. */
  predicate Stable(run: Run)
    requires |run.states| == |run.events| + 1
  {
    forall i: nat, j: nat :: i <= j <= |run.events| && run.states[i].secret.Some? && NoDeletion(run, i, j)
      ==> run.states[j].secret == run.states[i].secret
  }

  lemma {:induction false} NoWriterWhileStored(limit: nat, run: Run, i: nat)
    requires limit <= 1 && IsRun(limit, run) && i <= |run.events|
    ensures run.states[i].writers <= limit
    ensures run.states[i].secret.Some? ==> run.states[i].writers == 0
  {
    if i > 0 {
      NoWriterWhileStored(limit, run, i - 1);
      assert Step(limit, run.states[i - 1], run.events[i - 1], run.states[i]);
    }
  }

  lemma {:induction false} StoredValueStays(limit: nat, run: Run, i: nat, j: nat)
    requires limit <= 1 && IsRun(limit, run) && i <= j <= |run.events|
    requires run.states[i].secret.Some? && NoDeletion(run, i, j)
    ensures run.states[j].secret == run.states[i].secret
  {
    if i < j {
      StoredValueStays(limit, run, i, j - 1);
      NoWriterWhileStored(limit, run, j - 1);
      assert Step(limit, run.states[j - 1], run.events[j - 1], run.states[j]);
      assert !run.events[j - 1].Delete?;
    }
  }

  /** Two reconciles that both read NotFound: the second overwrites what the first stored. */
  lemma OverwritingRun(limit: nat) returns (run: Run)
    requires limit >= 2
    ensures IsRun(limit, run) && !Stable(run)
  {
    var s0 := State(true, None, 0);
    var s1, s2 := s0.(writers := 1), s0.(writers := 2);
    var s3, s4 := State(true, Some("a"), 1), State(true, Some("b"), 0);
    run := Run([s0, s1, s2, s3, s4], [ReadSecret, ReadSecret, WriteSecret("a"), WriteSecret("b")]);
    assert NoDeletion(run, 3, 4);
    assert run.states[3].secret.Some? && run.states[4].secret != run.states[3].secret;
  }

  /** Over every run the stored value survives until a deletion exactly when reconciles of one
      cluster do not overlap. */
  lemma StableExactlyWithoutOverlap(limit: nat)
    ensures (forall run :: IsRun(limit, run) ==> Stable(run)) <==> limit <= 1
  {
    if limit <= 1 {
      forall run | IsRun(limit, run)
        ensures Stable(run)
      {
        forall i: nat, j: nat | i <= j <= |run.events| && run.states[i].secret.Some? && NoDeletion(run, i, j)
          ensures run.states[j].secret == run.states[i].secret
        {
          StoredValueStays(limit, run, i, j);
        }
      }
    } else {
      var run := OverwritingRun(limit);
    }
  }

  /** All TLS pods that start between two deletions read the same value, across any number of
      reconciles and TLS toggles in between. */
  lemma PodsReadTheSameSecret(limit: nat, run: Run, i: nat, j: nat)
    requires limit <= 1 && IsRun(limit, run)
    requires i <= j < |run.events| && run.events[i].PodStarts? && run.events[j].PodStarts?
    requires NoDeletion(run, i, j)
    ensures run.events[i].value == run.events[j].value
  {
    assert Step(limit, run.states[i], run.events[i], run.states[i + 1]);
    assert Step(limit, run.states[j], run.events[j], run.states[j + 1]);
    StoredValueStays(limit, run, i, j);
  }

  predicate CanExtend(limit: nat, run: Run, longer: Run) {
    IsRun(limit, longer) && run.states <= longer.states && run.events <= longer.events
  }

  lemma Append(limit: nat, run: Run, e: Event, s': State) returns (longer: Run)
    requires IsRun(limit, run) && Step(limit, run.states[|run.events|], e, s')
    ensures CanExtend(limit, run, longer) && longer.events == run.events + [e]
    ensures longer.states[|longer.events|] == s'
  {
    longer := Run(run.states + [s'], run.events + [e]);
  }

  /** From every reachable state, with one reconcile at a time or more, TLS can be enabled, the secret
      provided if it is missing, and a pod started that reads it; a stored value is not replaced. */
  lemma PodCanAlwaysStart(limit: nat, run: Run, drawn: string) returns (longer: Run)
    requires limit >= 1 && IsRun(limit, run)
    ensures CanExtend(limit, run, longer) && |longer.events| > |run.events|
    ensures var stored := run.states[|run.events|].secret;
            longer.events[|longer.events| - 1] == PodStarts(if stored.Some? then stored.value else drawn)
  {
    var s := run.states[|run.events|].(tls := true);
    longer := Append(limit, run, SetTls(true), s);
    if s.secret.None? {
      if s.writers == 0 {
        s := s.(writers := 1);
        longer := Append(limit, longer, ReadSecret, s);
      }
      s := s.(writers := s.writers - 1, secret := Some(drawn));
      longer := Append(limit, longer, WriteSecret(drawn), s);
    }
    longer := Append(limit, longer, PodStarts(s.secret.value), s);
  }

  /** What a pod reads was drawn by the latest write before it, and nothing was drawn since; with
      no write at all it was there from the start. */
  lemma {:induction false} PodsReadTheLastWrite(limit: nat, run: Run, i: nat) returns (source: int)
    requires IsRun(limit, run) && i <= |run.events| && run.states[i].secret.Some?
    ensures -1 <= source < i
    ensures forall k :: source < k < i ==> !run.events[k].WriteSecret? && !run.events[k].Delete?
    ensures source >= 0 ==> run.events[source] == WriteSecret(run.states[i].secret.value)
    ensures source == -1 ==> run.states[0].secret == run.states[i].secret
  {
    if i == 0 {
      source := -1;
    } else {
      assert Step(limit, run.states[i - 1], run.events[i - 1], run.states[i]);
      if run.events[i - 1].WriteSecret? {
        source := i - 1;
      } else {
        source := PodsReadTheLastWrite(limit, run, i - 1);
      }
    }
  }
}
