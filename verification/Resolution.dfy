/**
 What a table build resolves (src/config/core.rs), in its plain form: one lookup
 for every reference. The lookup is a function of name and port, as is the hash
 that picks one address of several; an address stands for its rank among
 addresses.
 */
module Resolution {
  import opened Options

  type Addr = nat
  type Key = (string, nat)

  datatype Error = NotResolved(kind: Kind, key: Key) | RouteRejected

  datatype Result<+T> = Ok(value: T) | Err(error: Error)

  datatype Policy = Strict | Lenient

  datatype Kind = Http | RequestMirror | Tcp | Udp | Tls

  datatype BackendRef = BackendRef(
    name: string,
    port: nat,
    weight: nat,
    invalid: bool,
    appProtocol: Option<string>,
    filters: seq<nat>)

  datatype Filter = Ready(id: nat) | Redirect(id: nat) | Mirror(backend: BackendRef, fraction: nat)

  datatype HttpRule = HttpRule(filters: seq<Filter>, refs: seq<BackendRef>)

  /** What the cluster's Services say and DNS cannot. */
  datatype Overrides = Overrides(
    endpoints: map<Key, seq<Key>>,
    protocols: map<Key, string>,
    headless: map<Key, nat>)

  datatype Env = Env(policy: Policy, lookup: Key -> Option<seq<Addr>>, pick: Addr -> nat, overrides: Overrides)

  // ----- results -----

  const UNSPECIFIED: Addr := 0

  datatype Endpoint = Endpoint(addr: Addr, name: string)

  datatype Backend = Backend(
    addr: Addr,
    weight: nat,
    filters: seq<nat>,
    useTls: bool,
    serverName: string,
    rejects: bool)

  datatype TableFilter = Plain(id: nat) | MirrorTo(addr: Addr, fraction: nat)

  datatype Entry = Entry(backends: seq<Backend>, filters: seq<TableFilter>)

  /** Results in sequence, up to the first failure. */
  function Cat<T>(a: Result<seq<T>>, b: Result<seq<T>>): Result<seq<T>> {
    if a.Err? then a else if b.Err? then b else Ok(a.value + b.value)
  }

  lemma CatNothing<T>(a: Result<seq<T>>)
    ensures Cat(Ok([]), a) == a && Cat(a, Ok([])) == a
  {
    if a.Ok? {
      assert [] + a.value == a.value && a.value + [] == a.value;
    }
  }

  /** One more result behind those so far. */
  lemma CatOneMore<T>(done: seq<T>, next: Result<seq<T>>, rest: Result<seq<T>>)
    ensures Cat(Ok(done), Cat(next, rest)) == if next.Err? then next else Cat(Ok(done + next.value), rest)
  {
    if next.Ok? && rest.Ok? {
      assert (done + next.value) + rest.value == done + (next.value + rest.value);
    }
  }

  // ----- picks -----

  /** The address with the largest hash, the last of them on a tie. */
  function OneTarget(addrs: seq<Addr>, pick: Addr -> nat): Option<Addr> {
    if addrs == [] then None
    else
      var rest, last := OneTarget(addrs[..|addrs| - 1], pick), addrs[|addrs| - 1];
      if rest.Some? && pick(rest.value) > pick(last) then rest else Some(last)
  }

  function Smallest(endpoints: seq<Endpoint>): Option<Addr> {
    if endpoints == [] then None
    else
      var rest, last := Smallest(endpoints[..|endpoints| - 1]), endpoints[|endpoints| - 1].addr;
      if rest.Some? && rest.value < last then rest else Some(last)
  }

  // ----- one reference -----

  function Addrs(env: Env, key: Key, kind: Kind): Result<Option<seq<Addr>>> {
    if env.lookup(key).None? && env.policy.Strict? then Err(NotResolved(kind, key)) else Ok(env.lookup(key))
  }

  /** An overriding endpoint is one target. */
  function TargetEndpoint(env: Env, target: Key, kind: Kind): Result<seq<Endpoint>> {
    var found := Addrs(env, target, kind);
    if found.Err? then Err(found.error)
    else if found.value.None? then Ok([])
    else
      var one := OneTarget(found.value.value, env.pick);
      Ok(if one.Some? then [Endpoint(one.value, target.0)] else [])
  }

  function TargetEndpoints(env: Env, targets: seq<Key>, kind: Kind): Result<seq<Endpoint>> {
    if targets == [] then Ok([])
    else Cat(TargetEndpoint(env, targets[0], kind), TargetEndpoints(env, targets[1..], kind))
  }

  function Named(addrs: seq<Addr>, name: string): (r: seq<Endpoint>)
    ensures |r| == |addrs| && forall i :: 0 <= i < |addrs| ==> r[i] == Endpoint(addrs[i], name)
  {
    seq(|addrs|, i requires 0 <= i < |addrs| => Endpoint(addrs[i], name))
  }

  function ConnectPort(env: Env, key: Key): nat {
    if key in env.overrides.headless then env.overrides.headless[key] else key.1
  }

  function Targets(env: Env, key: Key): seq<Key> {
    if key in env.overrides.endpoints then env.overrides.endpoints[key] else []
  }

  function Endpoints(env: Env, key: Key, kind: Kind): Result<seq<Endpoint>> {
    if Targets(env, key) != [] then TargetEndpoints(env, Targets(env, key), kind)
    else
      var found := Addrs(env, (key.0, ConnectPort(env, key)), kind);
      if found.Err? then Err(found.error)
      else if found.value.None? then Ok([])
      else Ok(Named(found.value.value, key.0))
  }

  function Rejecting(weight: nat): Backend {
    Backend(UNSPECIFIED, weight, [], false, "", true)
  }

  /** An HTTP backend speaks TLS when the reference, or else its Service's port, says https. */
  function UseTls(env: Env, r: BackendRef): bool {
    if r.appProtocol.Some? then r.appProtocol.value == "https"
    else (r.name, r.port) in env.overrides.protocols && env.overrides.protocols[(r.name, r.port)] == "https"
  }

  function BackendAt(env: Env, r: BackendRef, kind: Kind, e: Endpoint): Backend {
    if kind.Http? then Backend(e.addr, r.weight, r.filters, UseTls(env, r), e.name, false)
    else Backend(e.addr, r.weight, [], false, e.name, false)
  }

  function BackendsAt(env: Env, r: BackendRef, kind: Kind, es: seq<Endpoint>): (bs: seq<Backend>)
    ensures |bs| == |es| && forall i :: 0 <= i < |es| ==> bs[i] == BackendAt(env, r, kind, es[i])
  {
    seq(|es|, i requires 0 <= i < |es| => BackendAt(env, r, kind, es[i]))
  }

  function RefBackends(env: Env, r: BackendRef, kind: Kind): Result<seq<Backend>> {
    if r.invalid then Ok([Rejecting(r.weight)])
    else
      var es := Endpoints(env, (r.name, r.port), kind);
      if es.Err? then Err(es.error) else Ok(BackendsAt(env, r, kind, es.value))
  }

  function Backends(env: Env, refs: seq<BackendRef>, kind: Kind): Result<seq<Backend>> {
    if refs == [] then Ok([])
    else Cat(RefBackends(env, refs[0], kind), Backends(env, refs[1..], kind))
  }

  // ----- rules and whole builds -----

  predicate Redirects(rule: HttpRule) {
    exists f :: f in rule.filters && f.Redirect?
  }

  function RuleBackends(env: Env, rule: HttpRule): Result<seq<Backend>> {
    if Redirects(rule) then Ok([]) else Backends(env, rule.refs, Http)
  }

  function RuleFilter(env: Env, f: Filter): Result<seq<TableFilter>> {
    match f
    case Ready(id) => Ok([Plain(id)])
    case Redirect(id) => Ok([Plain(id)])
    case Mirror(b, fraction) =>
      if b.invalid then Ok([])
      else
        var es := Endpoints(env, (b.name, b.port), RequestMirror);
        if es.Err? then Err(es.error)
        else Ok(if Smallest(es.value).Some? then [MirrorTo(Smallest(es.value).value, fraction)] else [])
  }

  function RuleFilters(env: Env, fs: seq<Filter>): Result<seq<TableFilter>> {
    if fs == [] then Ok([]) else Cat(RuleFilter(env, fs[0]), RuleFilters(env, fs[1..]))
  }

  /** What a build resolves, in its order. */
  datatype Job = HttpJob(rule: HttpRule) | L4Job(refs: seq<BackendRef>, kind: Kind) | Rejected

  function JobEntry(env: Env, job: Job): Result<seq<Entry>> {
    match job
    case HttpJob(rule) =>
      var bs := RuleBackends(env, rule);
      if bs.Err? then Err(bs.error)
      else
        var fs := RuleFilters(env, rule.filters);
        if fs.Err? then Err(fs.error) else Ok([Entry(bs.value, fs.value)])
    case L4Job(refs, kind) =>
      var bs := Backends(env, refs, kind);
      if bs.Err? then Err(bs.error) else Ok([Entry(bs.value, [])])
    case Rejected =>
      if env.policy.Strict? then Err(RouteRejected) else Ok([])
  }

  function Build(env: Env, jobs: seq<Job>): Result<seq<Entry>> {
    if jobs == [] then Ok([]) else Cat(JobEntry(env, jobs[0]), Build(env, jobs[1..]))
  }

  // ----- what a build has to look up -----

  function KeyNeeds(env: Env, key: Key): set<Key> {
    if Targets(env, key) != [] then set t | t in Targets(env, key)
    else {(key.0, ConnectPort(env, key))}
  }

  function RefsNeed(env: Env, refs: seq<BackendRef>): set<Key> {
    if refs == [] then {}
    else (if refs[0].invalid then {} else KeyNeeds(env, (refs[0].name, refs[0].port))) + RefsNeed(env, refs[1..])
  }

  function FiltersNeed(env: Env, fs: seq<Filter>): set<Key> {
    if fs == [] then {}
    else (if fs[0].Mirror? && !fs[0].backend.invalid
          then KeyNeeds(env, (fs[0].backend.name, fs[0].backend.port)) else {})
         + FiltersNeed(env, fs[1..])
  }

  /** A redirecting rule needs none of its references, an invalid one is never needed. */
  function JobNeeds(env: Env, job: Job): set<Key> {
    match job
    case HttpJob(rule) => (if Redirects(rule) then {} else RefsNeed(env, rule.refs)) + FiltersNeed(env, rule.filters)
    case L4Job(refs, _) => RefsNeed(env, refs)
    case Rejected => {}
  }

  function Needs(env: Env, jobs: seq<Job>): set<Key> {
    if jobs == [] then {} else JobNeeds(env, jobs[0]) + Needs(env, jobs[1..])
  }

  /** Strict, and a name that does not resolve among those needed. */
  ghost predicate Fails(env: Env, keys: set<Key>) {
    env.policy.Strict? && exists k :: k in keys && env.lookup(k).None?
  }

  lemma FailsEither(env: Env, a: set<Key>, b: set<Key>)
    ensures Fails(env, a + b) <==> Fails(env, a) || Fails(env, b)
  {
  }

  lemma {:induction false} TargetsFailIff(env: Env, targets: seq<Key>, kind: Kind)
    ensures TargetEndpoints(env, targets, kind).Err? <==> Fails(env, set t | t in targets)
  {
    if targets != [] {
      TargetsFailIff(env, targets[1..], kind);
      FailsEither(env, {targets[0]}, set t | t in targets[1..]);
      assert (set t | t in targets) == {targets[0]} + (set t | t in targets[1..]);
    }
  }

  lemma EndpointsFailIff(env: Env, key: Key, kind: Kind)
    ensures Endpoints(env, key, kind).Err? <==> Fails(env, KeyNeeds(env, key))
  {
    TargetsFailIff(env, Targets(env, key), kind);
    assert (key.0, ConnectPort(env, key)) in {(key.0, ConnectPort(env, key))};
  }

  lemma {:induction false} BackendsFailIff(env: Env, refs: seq<BackendRef>, kind: Kind)
    ensures Backends(env, refs, kind).Err? <==> Fails(env, RefsNeed(env, refs))
  {
    if refs != [] {
      var key := (refs[0].name, refs[0].port);
      EndpointsFailIff(env, key, kind);
      BackendsFailIff(env, refs[1..], kind);
      FailsEither(env, if refs[0].invalid then {} else KeyNeeds(env, key), RefsNeed(env, refs[1..]));
    }
  }

  lemma {:induction false} FiltersFailIff(env: Env, fs: seq<Filter>)
    ensures RuleFilters(env, fs).Err? <==> Fails(env, FiltersNeed(env, fs))
  {
    if fs != [] {
      if fs[0].Mirror? && !fs[0].backend.invalid {
        var key := (fs[0].backend.name, fs[0].backend.port);
        EndpointsFailIff(env, key, RequestMirror);
        FailsEither(env, KeyNeeds(env, key), FiltersNeed(env, fs[1..]));
      } else {
        FailsEither(env, {}, FiltersNeed(env, fs[1..]));
      }
      FiltersFailIff(env, fs[1..]);
    }
  }

  lemma JobFailsIff(env: Env, job: Job)
    ensures JobEntry(env, job).Err? <==> Fails(env, JobNeeds(env, job)) || (env.policy.Strict? && job.Rejected?)
  {
    match job
    case HttpJob(rule) =>
      BackendsFailIff(env, rule.refs, Http);
      FiltersFailIff(env, rule.filters);
      FailsEither(env, if Redirects(rule) then {} else RefsNeed(env, rule.refs), FiltersNeed(env, rule.filters));
    case L4Job(refs, kind) =>
      BackendsFailIff(env, refs, kind);
    case Rejected =>
  }

  /** A build fails if and only if it is strict and a route is rejected or a needed name does not resolve. */
  lemma {:induction false} BuildFailsIff(env: Env, jobs: seq<Job>)
    ensures Build(env, jobs).Err? <==> Fails(env, Needs(env, jobs)) || (env.policy.Strict? && Rejected in jobs)
  {
    if jobs != [] {
      JobFailsIff(env, jobs[0]);
      BuildFailsIff(env, jobs[1..]);
      FailsEither(env, JobNeeds(env, jobs[0]), Needs(env, jobs[1..]));
      assert Rejected in jobs <==> jobs[0] == Rejected || Rejected in jobs[1..];
    }
  }

  // ----- the share of invalid references -----

  function InvalidWeights(refs: seq<BackendRef>): seq<nat> {
    if refs == [] then []
    else (if refs[0].invalid then [refs[0].weight] else []) + InvalidWeights(refs[1..])
  }

  function RejectingWeights(bs: seq<Backend>): seq<nat> {
    if bs == [] then []
    else (if bs[0].rejects then [bs[0].weight] else []) + RejectingWeights(bs[1..])
  }

  lemma {:induction false} RejectingOfConcat(a: seq<Backend>, b: seq<Backend>)
    ensures RejectingWeights(a + b) == RejectingWeights(a) + RejectingWeights(b)
  {
    if a == [] {
      assert a + b == b;
    } else {
      assert (a + b)[1..] == a[1..] + b;
      RejectingOfConcat(a[1..], b);
    }
  }

  lemma {:induction false} NoneRejects(bs: seq<Backend>)
    requires forall b :: b in bs ==> !b.rejects
    ensures RejectingWeights(bs) == []
  {
    if bs != [] {
      NoneRejects(bs[1..]);
    }
  }

  /** Whatever resolves, the invalid references keep their weights, one stand-in each and no other. */
  lemma {:induction false} InvalidKeepTheirShare(env: Env, refs: seq<BackendRef>, kind: Kind)
    requires Backends(env, refs, kind).Ok?
    ensures RejectingWeights(Backends(env, refs, kind).value) == InvalidWeights(refs)
  {
    if refs != [] {
      InvalidKeepTheirShare(env, refs[1..], kind);
      var one := RefBackends(env, refs[0], kind).value;
      RejectingOfConcat(one, Backends(env, refs[1..], kind).value);
      if refs[0].invalid {
        assert one[1..] == [];
      } else {
        NoneRejects(one);
      }
    }
  }

  // ----- the config's jobs -----

  /** `compiles`: the route passed its checks. */
  datatype HttpRoute = HttpRoute(rules: seq<HttpRule>, compiles: bool)

  /** `attached`: a listener of the right protocol takes the route. */
  datatype L4Route = L4Route(rules: seq<seq<BackendRef>>, attached: bool)

  datatype Config = Config(
    http: seq<HttpRoute>,
    tcp: seq<L4Route>,
    udp: seq<L4Route>,
    tls: seq<L4Route>,
    overrides: Overrides)

  function RuleJobs(rules: seq<HttpRule>): seq<Job> {
    if rules == [] then [] else [HttpJob(rules[0])] + RuleJobs(rules[1..])
  }

  function HttpJobs(routes: seq<HttpRoute>): seq<Job> {
    if routes == [] then []
    else (if routes[0].compiles then RuleJobs(routes[0].rules) else [Rejected]) + HttpJobs(routes[1..])
  }

  /** A TCP or UDP route carries its first rule only. */
  function FirstRuleJobs(routes: seq<L4Route>, kind: Kind): seq<Job> {
    if routes == [] then []
    else (if routes[0].attached && routes[0].rules != [] then [L4Job(routes[0].rules[0], kind)] else [])
         + FirstRuleJobs(routes[1..], kind)
  }

  function RefsJobs(rules: seq<seq<BackendRef>>, kind: Kind): seq<Job> {
    if rules == [] then [] else [L4Job(rules[0], kind)] + RefsJobs(rules[1..], kind)
  }

  function TlsJobs(routes: seq<L4Route>): seq<Job> {
    if routes == [] then []
    else (if routes[0].attached then RefsJobs(routes[0].rules, Tls) else []) + TlsJobs(routes[1..])
  }

  function Jobs(c: Config): seq<Job> {
    HttpJobs(c.http) + (FirstRuleJobs(c.tcp, Tcp) + (FirstRuleJobs(c.udp, Udp) + TlsJobs(c.tls)))
  }
}
