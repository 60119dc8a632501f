/**
 Trimming the override maps to the backends a config references
 (src/kubernetes/services.rs): what the build resolves stays the same, and what
 other Services say no longer shows.
 */
module ResolutionTrim {
  import opened Options
  import opened Resolution

  function RefKeys(refs: seq<BackendRef>): set<Key> {
    set r | r in refs && !r.invalid :: (r.name, r.port)
  }

  function MirrorRefs(fs: seq<Filter>): seq<BackendRef> {
    if fs == [] then []
    else (if fs[0].Mirror? then [fs[0].backend] else []) + MirrorRefs(fs[1..])
  }

  function RuleKeys(rule: HttpRule): set<Key> {
    RefKeys(rule.refs) + RefKeys(MirrorRefs(rule.filters))
  }

  function RulesKeys(rules: seq<HttpRule>): set<Key> {
    if rules == [] then {} else RuleKeys(rules[0]) + RulesKeys(rules[1..])
  }

  function HttpKeys(routes: seq<HttpRoute>): set<Key> {
    if routes == [] then {} else RulesKeys(routes[0].rules) + HttpKeys(routes[1..])
  }

  function RefsKeys(rules: seq<seq<BackendRef>>): set<Key> {
    if rules == [] then {} else RefKeys(rules[0]) + RefsKeys(rules[1..])
  }

  function L4Keys(routes: seq<L4Route>): set<Key> {
    if routes == [] then {} else RefsKeys(routes[0].rules) + L4Keys(routes[1..])
  }

  /** Every backend a rule routes or mirrors to, but for the invalid references. */
  function Referenced(c: Config): set<Key> {
    HttpKeys(c.http) + L4Keys(c.tcp) + L4Keys(c.udp) + L4Keys(c.tls)
  }

  function Retain<V>(m: map<Key, V>, keys: set<Key>): map<Key, V> {
    map k | k in m && k in keys :: m[k]
  }

  function Trim(o: Overrides, keys: set<Key>): Overrides {
    Overrides(Retain(o.endpoints, keys), Retain(o.protocols, keys), Retain(o.headless, keys))
  }

  /** The config's override maps, trimmed in place. */
  class OverrideMaps {
    var endpoints: map<Key, seq<Key>>
    var protocols: map<Key, string>
    var headless: map<Key, nat>

    function Value(): Overrides
      reads this
    {
      Overrides(endpoints, protocols, headless)
    }

    constructor (o: Overrides)
      ensures Value() == o
    {
      endpoints, protocols, headless := o.endpoints, o.protocols, o.headless;
    }

    /** Whatever the maps say of a referenced backend stays, and they say nothing of any other. */
    method RetainReferenced(referenced: set<Key>)
      modifies this
      ensures endpoints.Keys == old(endpoints.Keys) * referenced
      ensures protocols.Keys == old(protocols.Keys) * referenced
      ensures headless.Keys == old(headless.Keys) * referenced
      ensures AgreeOn(old(endpoints), endpoints, referenced)
      ensures AgreeOn(old(protocols), protocols, referenced)
      ensures AgreeOn(old(headless), headless, referenced)
      ensures forall c: Config :: old(Value()) == c.overrides && referenced == Referenced(c) ==>
                TrimmedConfig(c).overrides == Value()
    {
      endpoints := Retain(endpoints, referenced);
      protocols := Retain(protocols, referenced);
      headless := Retain(headless, referenced);
    }
  }

  // ----- the build reads nothing else -----

  function Trimmed(env: Env, keys: set<Key>): Env {
    env.(overrides := Trim(env.overrides, keys))
  }

  lemma {:induction false} SameTargets(env: Env, keys: set<Key>, targets: seq<Key>, kind: Kind)
    ensures TargetEndpoints(Trimmed(env, keys), targets, kind) == TargetEndpoints(env, targets, kind)
  {
    if targets != [] {
      SameTargets(env, keys, targets[1..], kind);
    }
  }

  lemma SameEndpoints(env: Env, keys: set<Key>, key: Key, kind: Kind)
    requires key in keys
    ensures Endpoints(Trimmed(env, keys), key, kind) == Endpoints(env, key, kind)
  {
    SameTargets(env, keys, Targets(env, key), kind);
  }

  lemma {:induction false} SameBackends(env: Env, keys: set<Key>, refs: seq<BackendRef>, kind: Kind)
    requires RefKeys(refs) <= keys
    ensures Backends(Trimmed(env, keys), refs, kind) == Backends(env, refs, kind)
  {
    if refs != [] {
      var r := refs[0];
      SubsetOfRefs(refs, keys);
      SameBackends(env, keys, refs[1..], kind);
      if !r.invalid {
        SameEndpoints(env, keys, (r.name, r.port), kind);
        var es := Endpoints(env, (r.name, r.port), kind);
        if es.Ok? {
          assert BackendsAt(Trimmed(env, keys), r, kind, es.value) == BackendsAt(env, r, kind, es.value);
        }
      }
    }
  }

  lemma SubsetOfRefs(refs: seq<BackendRef>, keys: set<Key>)
    requires RefKeys(refs) <= keys && refs != []
    ensures RefKeys(refs[1..]) <= keys
    ensures !refs[0].invalid ==> (refs[0].name, refs[0].port) in keys
  {
    assert refs[0] in refs;
    assert !refs[0].invalid ==> (refs[0].name, refs[0].port) in RefKeys(refs);
    forall k | k in RefKeys(refs[1..])
      ensures k in keys
    {
      var r :| r in refs[1..] && !r.invalid && k == (r.name, r.port);
      assert r in refs && k in RefKeys(refs);
    }
  }

  lemma {:induction false} SameFilters(env: Env, keys: set<Key>, fs: seq<Filter>)
    requires RefKeys(MirrorRefs(fs)) <= keys
    ensures RuleFilters(Trimmed(env, keys), fs) == RuleFilters(env, fs)
  {
    if fs != [] {
      if fs[0].Mirror? {
        assert MirrorRefs(fs)[0] == fs[0].backend && MirrorRefs(fs)[1..] == MirrorRefs(fs[1..]);
        SubsetOfRefs(MirrorRefs(fs), keys);
        var b := fs[0].backend;
        if !b.invalid {
          SameEndpoints(env, keys, (b.name, b.port), RequestMirror);
        }
      } else {
        assert MirrorRefs(fs) == MirrorRefs(fs[1..]);
      }
      SameFilters(env, keys, fs[1..]);
    }
  }

  function JobKeys(job: Job): set<Key> {
    match job
    case HttpJob(rule) => RuleKeys(rule)
    case L4Job(refs, _) => RefKeys(refs)
    case Rejected => {}
  }

  ghost predicate Within(jobs: seq<Job>, keys: set<Key>) {
    forall j :: j in jobs ==> JobKeys(j) <= keys
  }

  lemma SameEntry(env: Env, keys: set<Key>, job: Job)
    requires JobKeys(job) <= keys
    ensures JobEntry(Trimmed(env, keys), job) == JobEntry(env, job)
  {
    match job
    case HttpJob(rule) =>
      SameBackends(env, keys, rule.refs, Http);
      SameFilters(env, keys, rule.filters);
    case L4Job(refs, kind) =>
      SameBackends(env, keys, refs, kind);
    case Rejected =>
  }

  lemma {:induction false} SameBuild(env: Env, keys: set<Key>, jobs: seq<Job>)
    requires Within(jobs, keys)
    ensures Build(Trimmed(env, keys), jobs) == Build(env, jobs)
  {
    if jobs != [] {
      assert jobs[0] in jobs;
      SameEntry(env, keys, jobs[0]);
      SameBuild(env, keys, jobs[1..]);
    }
  }

  // ----- all the jobs of a config are referenced -----

  lemma WithinBoth(a: seq<Job>, b: seq<Job>, keys: set<Key>)
    requires Within(a, keys) && Within(b, keys)
    ensures Within(a + b, keys)
  {
  }

  lemma {:induction false} RulesWithin(rules: seq<HttpRule>, keys: set<Key>)
    requires RulesKeys(rules) <= keys
    ensures Within(RuleJobs(rules), keys)
  {
    if rules != [] {
      RulesWithin(rules[1..], keys);
    }
  }

  lemma {:induction false} HttpWithin(routes: seq<HttpRoute>, keys: set<Key>)
    requires HttpKeys(routes) <= keys
    ensures Within(HttpJobs(routes), keys)
  {
    if routes != [] {
      RulesWithin(routes[0].rules, keys);
      HttpWithin(routes[1..], keys);
    }
  }

  lemma {:induction false} RefsWithin(rules: seq<seq<BackendRef>>, kind: Kind, keys: set<Key>)
    requires RefsKeys(rules) <= keys
    ensures Within(RefsJobs(rules, kind), keys)
  {
    if rules != [] {
      RefsWithin(rules[1..], kind, keys);
    }
  }

  lemma {:induction false} FirstRulesWithin(routes: seq<L4Route>, kind: Kind, keys: set<Key>)
    requires L4Keys(routes) <= keys
    ensures Within(FirstRuleJobs(routes, kind), keys)
  {
    if routes != [] {
      FirstRulesWithin(routes[1..], kind, keys);
    }
  }

  lemma {:induction false} TlsWithin(routes: seq<L4Route>, keys: set<Key>)
    requires L4Keys(routes) <= keys
    ensures Within(TlsJobs(routes), keys)
  {
    if routes != [] {
      RefsWithin(routes[0].rules, Tls, keys);
      TlsWithin(routes[1..], keys);
    }
  }

  function EnvOf(c: Config, policy: Policy, lookup: Key -> Option<seq<Addr>>, pick: Addr -> nat): Env {
    Env(policy, lookup, pick, c.overrides)
  }

  function TrimmedConfig(c: Config): Config {
    c.(overrides := Trim(c.overrides, Referenced(c)))
  }

  /** Whatever the lookups and the policy, the trimmed config builds what the full one does. */
  lemma TrimKeepsTheBuild(c: Config, policy: Policy, lookup: Key -> Option<seq<Addr>>, pick: Addr -> nat)
    ensures Build(EnvOf(TrimmedConfig(c), policy, lookup, pick), Jobs(TrimmedConfig(c)))
         == Build(EnvOf(c, policy, lookup, pick), Jobs(c))
  {
    var keys := Referenced(c);
    HttpWithin(c.http, keys);
    FirstRulesWithin(c.tcp, Tcp, keys);
    FirstRulesWithin(c.udp, Udp, keys);
    TlsWithin(c.tls, keys);
    WithinBoth(FirstRuleJobs(c.udp, Udp), TlsJobs(c.tls), keys);
    WithinBoth(FirstRuleJobs(c.tcp, Tcp), FirstRuleJobs(c.udp, Udp) + TlsJobs(c.tls), keys);
    WithinBoth(HttpJobs(c.http), FirstRuleJobs(c.tcp, Tcp) + (FirstRuleJobs(c.udp, Udp) + TlsJobs(c.tls)), keys);
    SameBuild(EnvOf(c, policy, lookup, pick), keys, Jobs(c));
  }

  ghost predicate AgreeOn<V>(m: map<Key, V>, n: map<Key, V>, keys: set<Key>) {
    forall k :: k in keys ==> (k in m <==> k in n) && (k in m && k in n ==> m[k] == n[k])
  }

  /** What Services outside the config say is not in the trimmed config at all. */
  lemma UnreferencedUnseen(c: Config, o: Overrides)
    requires AgreeOn(c.overrides.endpoints, o.endpoints, Referenced(c))
    requires AgreeOn(c.overrides.protocols, o.protocols, Referenced(c))
    requires AgreeOn(c.overrides.headless, o.headless, Referenced(c))
    ensures TrimmedConfig(c.(overrides := o)) == TrimmedConfig(c)
  {
    var keys := Referenced(c);
    assert Referenced(c.(overrides := o)) == keys;
    assert Retain(o.endpoints, keys) == Retain(c.overrides.endpoints, keys);
    assert Retain(o.protocols, keys) == Retain(c.overrides.protocols, keys);
    assert Retain(o.headless, keys) == Retain(c.overrides.headless, keys);
  }
}
