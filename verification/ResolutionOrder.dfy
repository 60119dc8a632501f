/**
 A resolver that only reorders its answers (src/config/core.rs and
 src/routing/build.rs): the picks, the table up to the order of a rule's
 backends, and the table's DNS signature stay the same.
 */
module ResolutionOrder {
  import opened Options
  import opened Words
  import opened Resolution

  // ----- the pick -----

  predicate IsTop(addrs: seq<Addr>, pick: Addr -> nat, a: Addr) {
    a in addrs && forall b :: b in addrs ==> pick(b) <= pick(a)
  }

  /** No two addresses tie for the largest hash. */
  ghost predicate OneTop(addrs: seq<Addr>, pick: Addr -> nat) {
    forall a, b :: IsTop(addrs, pick, a) && IsTop(addrs, pick, b) ==> a == b
  }

  lemma {:induction false} PickIsTop(addrs: seq<Addr>, pick: Addr -> nat)
    requires addrs != []
    ensures OneTarget(addrs, pick).Some? && IsTop(addrs, pick, OneTarget(addrs, pick).value)
  {
    var rest := addrs[..|addrs| - 1];
    assert addrs == rest + [addrs[|addrs| - 1]];
    if rest != [] {
      PickIsTop(rest, pick);
    }
  }

  lemma SameElements<T>(s: seq<T>, t: seq<T>)
    requires multiset(s) == multiset(t)
    ensures forall x :: x in s <==> x in t
    ensures |s| == |t|
  {
    forall x
      ensures x in s <==> x in t
    {
      assert x in multiset(s) <==> x in multiset(t);
    }
    assert |multiset(s)| == |multiset(t)|;
  }

  lemma PickIgnoresOrder(s: seq<Addr>, t: seq<Addr>, pick: Addr -> nat)
    requires multiset(s) == multiset(t) && OneTop(s, pick)
    ensures OneTarget(s, pick) == OneTarget(t, pick)
  {
    SameElements(s, t);
    if s != [] {
      PickIsTop(s, pick);
      PickIsTop(t, pick);
      assert IsTop(s, pick, OneTarget(t, pick).value);
    }
  }

  /** The same addresses, `a` at the end. */
  lemma MovedLast(s: seq<Addr>, a: Addr) returns (t: seq<Addr>)
    requires a in s
    ensures multiset(t) == multiset(s) && t != [] && t[|t| - 1] == a
  {
    var i :| 0 <= i < |s| && s[i] == a;
    t := s[..i] + s[i + 1..] + [a];
    assert s == s[..i] + [a] + s[i + 1..];
  }

  lemma LastTopIsPicked(s: seq<Addr>, pick: Addr -> nat)
    requires s != [] && IsTop(s, pick, s[|s| - 1])
    ensures OneTarget(s, pick) == Some(s[|s| - 1])
  {
    var rest := s[..|s| - 1];
    if rest != [] {
      PickIsTop(rest, pick);
      assert OneTarget(rest, pick).value in s;
    }
  }

  /** The pick is a function of the address set if and only if no two tie at the top. */
  lemma PickIgnoresOrderIff(s: seq<Addr>, pick: Addr -> nat)
    ensures (forall t: seq<Addr> :: multiset(t) == multiset(s) ==> OneTarget(t, pick) == OneTarget(s, pick))
       <==> OneTop(s, pick)
  {
    if OneTop(s, pick) {
      forall t: seq<Addr> | multiset(t) == multiset(s)
        ensures OneTarget(t, pick) == OneTarget(s, pick)
      {
        PickIgnoresOrder(s, t, pick);
      }
    } else {
      var a, b :| IsTop(s, pick, a) && IsTop(s, pick, b) && a != b;
      var t := MovedLast(s, a);
      var u := MovedLast(s, b);
      SameElements(s, t);
      SameElements(s, u);
      LastTopIsPicked(t, pick);
      LastTopIsPicked(u, pick);
    }
  }

  // ----- what a reference dials -----

  /** The endpoint of one overriding target: its name, and the top address of its answer. */
  ghost predicate IsTargetOf(env: Env, target: Key, e: Endpoint) {
    && e.name == target.0
    && env.lookup(target).Some?
    && IsTop(env.lookup(target).value, env.pick, e.addr)
  }

  lemma TargetIsTop(env: Env, target: Key, kind: Kind)
    requires TargetEndpoint(env, target, kind).Ok?
    ensures var es := TargetEndpoint(env, target, kind).value;
            if env.lookup(target).None? || env.lookup(target).value == [] then es == []
            else |es| == 1 && IsTargetOf(env, target, es[0])
  {
    if env.lookup(target).Some? && env.lookup(target).value != [] {
      PickIsTop(env.lookup(target).value, env.pick);
    }
  }

  /** The targets that answer with an address, in order. */
  function Answering(env: Env, targets: seq<Key>): seq<Key> {
    if targets == [] then []
    else (if env.lookup(targets[0]).Some? && env.lookup(targets[0]).value != [] then [targets[0]] else [])
         + Answering(env, targets[1..])
  }

  ghost predicate OnePerTarget(env: Env, targets: seq<Key>, es: seq<Endpoint>) {
    |es| == |targets| && forall i :: 0 <= i < |es| ==> IsTargetOf(env, targets[i], es[i])
  }

  lemma {:induction false} TargetsAreTops(env: Env, targets: seq<Key>, kind: Kind)
    requires TargetEndpoints(env, targets, kind).Ok?
    ensures OnePerTarget(env, Answering(env, targets), TargetEndpoints(env, targets, kind).value)
  {
    if targets != [] {
      TargetIsTop(env, targets[0], kind);
      TargetsAreTops(env, targets[1..], kind);
      hide IsTargetOf;
    }
  }

  lemma NamedAre(addrs: seq<Addr>, name: string, e: Endpoint)
    ensures e in Named(addrs, name) <==> e.name == name && e.addr in addrs
  {
    if e.name == name && e.addr in addrs {
      var i :| 0 <= i < |addrs| && addrs[i] == e.addr;
      assert Named(addrs, name)[i] == e;
    }
  }

  /**
   What a backend dials: for an overridden Service one address for each target that
   answers, in order, the top of that answer; for any other, every address of its
   own name and only those, on the headless target port where there is one.
   */
  lemma EndpointsAre(env: Env, key: Key, kind: Kind, e: Endpoint)
    requires Endpoints(env, key, kind).Ok?
    ensures var es, o := Endpoints(env, key, kind).value, env.overrides;
            if key in o.endpoints && o.endpoints[key] != []
            then OnePerTarget(env, Answering(env, o.endpoints[key]), es)
            else
              var port := if key in o.headless then o.headless[key] else key.1;
              var answer := env.lookup((key.0, port));
              e in es <==> e.name == key.0 && answer.Some? && e.addr in answer.value
  {
    if Targets(env, key) != [] {
      TargetsAreTops(env, Targets(env, key), kind);
    } else if env.lookup((key.0, ConnectPort(env, key))).Some? {
      NamedAre(env.lookup((key.0, ConnectPort(env, key))).value, key.0, e);
    }
  }

  // ----- builds -----

  /** The answers of one lookup are those of the other, reordered, and no answer has a tie. */
  ghost predicate Reorders(env: Env, lookup: Key -> Option<seq<Addr>>) {
    forall k ::
      && (env.lookup(k).Some? <==> lookup(k).Some?)
      && (env.lookup(k).Some? && lookup(k).Some? ==>
            multiset(env.lookup(k).value) == multiset(lookup(k).value) && OneTop(env.lookup(k).value, env.pick))
  }

  function With(env: Env, lookup: Key -> Option<seq<Addr>>): Env {
    env.(lookup := lookup)
  }

  /** Both fail alike, or give the same up to order. */
  ghost predicate Alike<T>(a: Result<seq<T>>, b: Result<seq<T>>) {
    if a.Ok? then b.Ok? && multiset(a.value) == multiset(b.value) else a == b
  }

  lemma SameTarget(env: Env, lookup: Key -> Option<seq<Addr>>, target: Key, kind: Kind)
    requires Reorders(env, lookup)
    ensures TargetEndpoint(With(env, lookup), target, kind) == TargetEndpoint(env, target, kind)
  {
    if env.lookup(target).Some? {
      PickIgnoresOrder(env.lookup(target).value, lookup(target).value, env.pick);
    }
  }

  lemma {:induction false} SameTargets(env: Env, lookup: Key -> Option<seq<Addr>>, targets: seq<Key>, kind: Kind)
    requires Reorders(env, lookup)
    ensures TargetEndpoints(With(env, lookup), targets, kind) == TargetEndpoints(env, targets, kind)
  {
    if targets != [] {
      SameTarget(env, lookup, targets[0], kind);
      SameTargets(env, lookup, targets[1..], kind);
    }
  }

  lemma Removed<T>(s: seq<T>, i: nat)
    requires i < |s|
    ensures multiset(s) == multiset(s[..i] + s[i + 1..]) + multiset{s[i]}
  {
    assert s == s[..i] + ([s[i]] + s[i + 1..]);
  }

  lemma Cancels<T>(a: multiset<T>, b: multiset<T>, c: multiset<T>)
    requires a + c == b + c
    ensures a == b
  {
    assert a == (a + c) - c && b == (b + c) - c;
  }

  /** Two ways to split off the same element leave the same rest. */
  lemma Without<T>(s: seq<T>, t: seq<T>) returns (i: nat)
    requires multiset(s) == multiset(t) && s != []
    ensures i < |t| && t[i] == s[|s| - 1]
    ensures multiset(s[..|s| - 1]) == multiset(t[..i] + t[i + 1..])
  {
    SameElements(s, t);
    var n := |s| - 1;
    assert s[n] in t;
    i :| 0 <= i < |t| && t[i] == s[n];
    Removed(s, n);
    Removed(t, i);
    assert s[..n] + s[n + 1..] == s[..n];
    Cancels(multiset(s[..n]), multiset(t[..i] + t[i + 1..]), multiset{s[n]});
  }

  function Map<T, U>(s: seq<T>, f: T -> U): (r: seq<U>)
    ensures |r| == |s| && forall i :: 0 <= i < |s| ==> r[i] == f(s[i])
  {
    seq(|s|, i requires 0 <= i < |s| => f(s[i]))
  }

  lemma MapAround<T, U>(s: seq<T>, i: nat, f: T -> U)
    requires i < |s|
    ensures multiset(Map(s, f)) == multiset(Map(s[..i] + s[i + 1..], f)) + multiset{f(s[i])}
  {
    var m := Map(s, f);
    Removed(m, i);
    assert Map(s[..i] + s[i + 1..], f) == m[..i] + m[i + 1..];
  }

  /** What is made of each element of reordered lists is reordered alike. */
  lemma {:induction false} MapAlike<T, U>(s: seq<T>, t: seq<T>, f: T -> U)
    requires multiset(s) == multiset(t)
    ensures multiset(Map(s, f)) == multiset(Map(t, f))
    decreases |s|
  {
    if s == [] {
      SameElements(s, t);
    } else {
      var i := Without(s, t);
      var n := |s| - 1;
      MapAlike(s[..n], t[..i] + t[i + 1..], f);
      MapAround(t, i, f);
      MapAround(s, n, f);
      assert s[..n] + s[n + 1..] == s[..n];
    }
  }

  lemma EndpointsAlike(env: Env, lookup: Key -> Option<seq<Addr>>, key: Key, kind: Kind)
    requires Reorders(env, lookup)
    ensures Alike(Endpoints(env, key, kind), Endpoints(With(env, lookup), key, kind))
  {
    if Targets(env, key) != [] {
      SameTargets(env, lookup, Targets(env, key), kind);
    } else {
      var k := (key.0, ConnectPort(env, key));
      assert env.lookup(k).Some? <==> lookup(k).Some?;
      if env.lookup(k).Some? {
        var name := (addr: Addr) => Endpoint(addr, key.0);
        MapAlike(env.lookup(k).value, lookup(k).value, name);
        assert Named(env.lookup(k).value, key.0) == Map(env.lookup(k).value, name);
        assert Named(lookup(k).value, key.0) == Map(lookup(k).value, name);
      }
    }
  }

  lemma BackendsAtAlike(env: Env, e2: Env, r: BackendRef, kind: Kind, s: seq<Endpoint>, t: seq<Endpoint>)
    requires multiset(s) == multiset(t) && env.overrides == e2.overrides
    ensures multiset(BackendsAt(env, r, kind, s)) == multiset(BackendsAt(e2, r, kind, t))
  {
    var at := (e: Endpoint) => BackendAt(env, r, kind, e);
    MapAlike(s, t, at);
    assert BackendsAt(env, r, kind, s) == Map(s, at);
    assert BackendsAt(e2, r, kind, t) == Map(t, at);
  }

  lemma CatAlike<T>(a: Result<seq<T>>, b: Result<seq<T>>, c: Result<seq<T>>, d: Result<seq<T>>)
    requires Alike(a, b) && Alike(c, d)
    ensures Alike(Cat(a, c), Cat(b, d))
  {
  }

  lemma {:induction false} BackendsAlike(env: Env, lookup: Key -> Option<seq<Addr>>, refs: seq<BackendRef>, kind: Kind)
    requires Reorders(env, lookup)
    ensures Alike(Backends(env, refs, kind), Backends(With(env, lookup), refs, kind))
  {
    if refs != [] {
      var r := refs[0];
      if !r.invalid {
        EndpointsAlike(env, lookup, (r.name, r.port), kind);
        var es, fs := Endpoints(env, (r.name, r.port), kind), Endpoints(With(env, lookup), (r.name, r.port), kind);
        if es.Ok? {
          BackendsAtAlike(env, With(env, lookup), r, kind, es.value, fs.value);
        }
      }
      BackendsAlike(env, lookup, refs[1..], kind);
      CatAlike(RefBackends(env, r, kind), RefBackends(With(env, lookup), r, kind),
               Backends(env, refs[1..], kind), Backends(With(env, lookup), refs[1..], kind));
    }
  }

  lemma {:induction false} SmallestIsLeast(es: seq<Endpoint>)
    requires es != []
    ensures Smallest(es).Some?
    ensures exists e :: e in es && e.addr == Smallest(es).value
    ensures forall e :: e in es ==> Smallest(es).value <= e.addr
  {
    var rest := es[..|es| - 1];
    assert es == rest + [es[|es| - 1]];
    assert es[|es| - 1] in es;
    if rest != [] {
      SmallestIsLeast(rest);
    }
  }

  lemma SmallestIgnoresOrder(s: seq<Endpoint>, t: seq<Endpoint>)
    requires multiset(s) == multiset(t)
    ensures Smallest(s) == Smallest(t)
  {
    SameElements(s, t);
    if s != [] {
      SmallestIsLeast(s);
      SmallestIsLeast(t);
    }
  }

  /** Mirrors included, a rule's filters do not move at all. */
  lemma {:induction false} FiltersSame(env: Env, lookup: Key -> Option<seq<Addr>>, fs: seq<Filter>)
    requires Reorders(env, lookup)
    ensures RuleFilters(env, fs) == RuleFilters(With(env, lookup), fs)
  {
    if fs != [] {
      if fs[0].Mirror? && !fs[0].backend.invalid {
        var key := (fs[0].backend.name, fs[0].backend.port);
        EndpointsAlike(env, lookup, key, RequestMirror);
        if Endpoints(env, key, RequestMirror).Ok? {
          SmallestIgnoresOrder(Endpoints(env, key, RequestMirror).value,
                               Endpoints(With(env, lookup), key, RequestMirror).value);
        }
      }
      FiltersSame(env, lookup, fs[1..]);
    }
  }

  predicate SameEntry(a: Entry, b: Entry) {
    multiset(a.backends) == multiset(b.backends) && a.filters == b.filters
  }

  ghost predicate SameTable(a: Result<seq<Entry>>, b: Result<seq<Entry>>) {
    if a.Ok?
    then b.Ok? && |a.value| == |b.value| && forall i :: 0 <= i < |a.value| ==> SameEntry(a.value[i], b.value[i])
    else a == b
  }

  lemma EntrySame(env: Env, lookup: Key -> Option<seq<Addr>>, job: Job)
    requires Reorders(env, lookup)
    ensures SameTable(JobEntry(env, job), JobEntry(With(env, lookup), job))
  {
    match job
    case HttpJob(rule) =>
      BackendsAlike(env, lookup, rule.refs, Http);
      FiltersSame(env, lookup, rule.filters);
    case L4Job(refs, kind) =>
      BackendsAlike(env, lookup, refs, kind);
    case Rejected =>
  }

  /** Reordered answers fail a build alike or give the same table, each rule's backends reordered at most. */
  lemma {:induction false} BuildIgnoresOrder(env: Env, lookup: Key -> Option<seq<Addr>>, jobs: seq<Job>)
    requires Reorders(env, lookup)
    ensures SameTable(Build(env, jobs), Build(With(env, lookup), jobs))
  {
    if jobs != [] {
      EntrySame(env, lookup, jobs[0]);
      BuildIgnoresOrder(env, lookup, jobs[1..]);
    }
  }

  // ----- the signature -----

  function WrappingAdd(x: nat, y: nat): nat {
    (x + y) % TWO_64
  }

  function Mirrors(fs: seq<TableFilter>): seq<Addr> {
    if fs == [] then []
    else (if fs[0].MirrorTo? then [fs[0].addr] else []) + Mirrors(fs[1..])
  }

  function Addresses(bs: seq<Backend>): seq<Addr> {
    if bs == [] then [] else [bs[0].addr] + Addresses(bs[1..])
  }

  function EntryAddresses(e: Entry): seq<Addr> {
    Addresses(e.backends) + Mirrors(e.filters)
  }

  predicate Indexes(held: seq<nat>, n: nat) {
    forall k :: 0 <= k < |held| ==> held[k] < n
  }

  /** Every address of the entries the table holds, in the order its maps are walked. */
  function TableAddresses(entries: seq<Entry>, held: seq<nat>): seq<Addr>
    requires Indexes(held, |entries|)
  {
    if held == [] then []
    else EntryAddresses(entries[held[0]]) + TableAddresses(entries, held[1..])
  }

  function Fold(acc: nat, addrs: seq<Addr>, hash: Addr -> nat): nat
    decreases |addrs|
  {
    if addrs == [] then acc else Fold(WrappingAdd(acc, hash(addrs[0])), addrs[1..], hash)
  }

  /** `held`: for each entry of the table the job it came from, as often as listeners and hostnames take it. */
  function DnsSignature(entries: seq<Entry>, held: seq<nat>, hash: Addr -> nat): nat
    requires Indexes(held, |entries|)
  {
    Fold(0, TableAddresses(entries, held), hash)
  }

  function Sum<T>(s: seq<T>, f: T -> nat): nat {
    if s == [] then 0 else f(s[0]) + Sum(s[1..], f)
  }

  lemma {:induction false} SumOfConcat<T>(s: seq<T>, t: seq<T>, f: T -> nat)
    ensures Sum(s + t, f) == Sum(s, f) + Sum(t, f)
  {
    if s == [] {
      assert s + t == t;
    } else {
      assert (s + t)[1..] == s[1..] + t;
      SumOfConcat(s[1..], t, f);
    }
  }

  lemma {:induction false} SumIgnoresOrder<T>(s: seq<T>, t: seq<T>, f: T -> nat)
    requires multiset(s) == multiset(t)
    ensures Sum(s, f) == Sum(t, f)
    decreases |s|
  {
    if s == [] {
      SameElements(s, t);
    } else {
      var i := Without(s, t);
      var n := |s| - 1;
      SumIgnoresOrder(s[..n], t[..i] + t[i + 1..], f);
      assert s == s[..n] + [s[n]];
      assert t == t[..i] + ([t[i]] + t[i + 1..]);
      SumOfConcat(s[..n], [s[n]], f);
      SumOfConcat(t[..i], t[i + 1..], f);
      SumOfConcat(t[..i], [t[i]] + t[i + 1..], f);
      SumOfConcat([t[i]], t[i + 1..], f);
    }
  }

  /** Wrapping early or late is the same. */
  lemma WrapOnce(a: nat, b: nat)
    ensures (a % TWO_64 + b) % TWO_64 == (a + b) % TWO_64
  {
    var q := a / TWO_64;
    assert a == q * TWO_64 + a % TWO_64;
  }

  lemma {:induction false} FoldIsSum(acc: nat, addrs: seq<Addr>, hash: Addr -> nat)
    requires acc < TWO_64
    ensures Fold(acc, addrs, hash) == (acc + Sum(addrs, hash)) % TWO_64
    decreases |addrs|
  {
    if addrs != [] {
      FoldIsSum(WrappingAdd(acc, hash(addrs[0])), addrs[1..], hash);
      WrapOnce(acc + hash(addrs[0]), Sum(addrs[1..], hash));
    }
  }

  lemma {:induction false} AddressesSum(bs: seq<Backend>, hash: Addr -> nat)
    ensures Sum(Addresses(bs), hash) == Sum(bs, (b: Backend) => hash(b.addr))
  {
    if bs != [] {
      AddressesSum(bs[1..], hash);
    }
  }

  lemma SameEntrySameSum(a: Entry, b: Entry, hash: Addr -> nat)
    requires SameEntry(a, b)
    ensures Sum(EntryAddresses(a), hash) == Sum(EntryAddresses(b), hash)
  {
    SumOfConcat(Addresses(a.backends), Mirrors(a.filters), hash);
    SumOfConcat(Addresses(b.backends), Mirrors(b.filters), hash);
    AddressesSum(a.backends, hash);
    AddressesSum(b.backends, hash);
    SumIgnoresOrder(a.backends, b.backends, (x: Backend) => hash(x.addr));
  }

  function EntrySum(entries: seq<Entry>, hash: Addr -> nat): nat -> nat {
    (i: nat) => if i < |entries| then Sum(EntryAddresses(entries[i]), hash) else 0
  }

  lemma {:induction false} TableSum(entries: seq<Entry>, held: seq<nat>, hash: Addr -> nat)
    requires Indexes(held, |entries|)
    ensures Sum(TableAddresses(entries, held), hash) == Sum(held, EntrySum(entries, hash))
  {
    if held != [] {
      SumOfConcat(EntryAddresses(entries[held[0]]), TableAddresses(entries, held[1..]), hash);
      TableSum(entries, held[1..], hash);
    }
  }

  lemma SignatureIsSum(entries: seq<Entry>, held: seq<nat>, hash: Addr -> nat)
    requires Indexes(held, |entries|)
    ensures DnsSignature(entries, held, hash) == Sum(held, EntrySum(entries, hash)) % TWO_64
  {
    FoldIsSum(0, TableAddresses(entries, held), hash);
    TableSum(entries, held, hash);
  }

  lemma {:induction false} SameSums(a: seq<Entry>, b: seq<Entry>, held: seq<nat>, hash: Addr -> nat)
    requires SameTable(Ok(a), Ok(b)) && Indexes(held, |a|)
    ensures Sum(held, EntrySum(a, hash)) == Sum(held, EntrySum(b, hash))
  {
    if held != [] {
      SameEntrySameSum(a[held[0]], b[held[0]], hash);
      SameSums(a, b, held[1..], hash);
    }
  }

  /** However each table's maps are walked. */
  lemma SameTableSameSignature(a: seq<Entry>, b: seq<Entry>, held: seq<nat>, walked: seq<nat>, hash: Addr -> nat)
    requires SameTable(Ok(a), Ok(b)) && Indexes(held, |a|) && multiset(held) == multiset(walked)
    ensures Indexes(walked, |b|)
    ensures DnsSignature(a, held, hash) == DnsSignature(b, walked, hash)
  {
    SameElements(held, walked);
    assert forall k :: 0 <= k < |walked| ==> walked[k] in held;
    assert |a| == |b|;
    hide Sum, DnsSignature, SameTable, EntrySum;
    SignatureIsSum(a, held, hash);
    SignatureIsSum(b, walked, hash);
    SameSums(a, b, held, hash);
    SumIgnoresOrder(held, walked, EntrySum(b, hash));
  }

  /** Reordered answers leave the signature as it was, so the refresh swaps nothing. */
  lemma SignatureIgnoresOrder(env: Env, lookup: Key -> Option<seq<Addr>>, jobs: seq<Job>,
                              held: seq<nat>, walked: seq<nat>, hash: Addr -> nat)
    requires Reorders(env, lookup) && Build(env, jobs).Ok?
    requires Indexes(held, |Build(env, jobs).value|) && multiset(held) == multiset(walked)
    ensures var other := Build(With(env, lookup), jobs);
            && other.Ok?
            && Indexes(walked, |other.value|)
            && DnsSignature(Build(env, jobs).value, held, hash) == DnsSignature(other.value, walked, hash)
  {
    BuildIgnoresOrder(env, lookup, jobs);
    SameTableSameSignature(Build(env, jobs).value, Build(With(env, lookup), jobs).value, held, walked, hash);
  }
}
