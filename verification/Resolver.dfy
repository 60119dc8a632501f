/** The resolver of a table build (src/config/core.rs): the same results with one lookup per name and port. */
module Resolvers {
  import opened Options
  import opened Resolution

  ghost predicate Distinct<T>(s: seq<T>) {
    forall i, j :: 0 <= i < j < |s| ==> s[i] != s[j]
  }

  class Resolver {
    const env: Env
    var seen: map<Key, Option<seq<Addr>>>
    ghost var lookups: seq<Key>               // every lookup made, in order

    /** What was looked up once is remembered as it was answered. */
    ghost predicate Valid()
      reads this
    {
      && Distinct(lookups)
      && (forall k :: k in lookups <==> k in seen)
      && (forall k :: k in seen ==> seen[k] == env.lookup(k) && (env.policy.Strict? ==> seen[k].Some?))
    }

    /** A failed build goes no further, and still has looked nothing up twice. */
    ghost predicate After<T>(r: Result<T>)
      reads this
    {
      if r.Ok? then Valid() else Distinct(lookups)
    }

    constructor (env: Env)
      ensures this.env == env && Valid() && lookups == []
    {
      this.env := env;
      seen, lookups := map[], [];
    }

    method FindAddrs(key: Key, kind: Kind) returns (r: Result<Option<seq<Addr>>>)
      requires Valid()
      modifies this
      ensures r == Addrs(env, key, kind) && After(r)
      ensures r.Ok? ==> seen.Keys == old(seen.Keys) + {key}
    {
      if key in seen {
        return Ok(seen[key]);
      }
      var found := env.lookup(key);
      lookups := lookups + [key];
      if found.None? && env.policy.Strict? {
        return Err(NotResolved(kind, key));
      }
      seen := seen[key := found];
      return Ok(found);
    }

    method FindTarget(target: Key, kind: Kind) returns (r: Result<seq<Endpoint>>)
      requires Valid()
      modifies this
      ensures r == TargetEndpoint(env, target, kind) && After(r)
      ensures r.Ok? ==> seen.Keys == old(seen.Keys) + {target}
    {
      var addrs := FindAddrs(target, kind);
      if addrs.Err? {
        return Err(addrs.error);
      }
      if addrs.value.Some? {
        var one := OneTarget(addrs.value.value, env.pick);
        if one.Some? {
          return Ok([Endpoint(one.value, target.0)]);
        }
      }
      return Ok([]);
    }

    method FindTargets(targets: seq<Key>, kind: Kind) returns (r: Result<seq<Endpoint>>)
      requires Valid()
      modifies this
      ensures r == TargetEndpoints(env, targets, kind) && After(r)
      ensures r.Ok? ==> seen.Keys == old(seen.Keys) + (set t | t in targets)
    {
      var found := [];
      CatNothing(TargetEndpoints(env, targets, kind));
      for i := 0 to |targets|
        invariant Valid()
        invariant Cat(Ok(found), TargetEndpoints(env, targets[i..], kind)) == TargetEndpoints(env, targets, kind)
        invariant seen.Keys == old(seen.Keys) + (set t | t in targets[..i])
      {
        assert targets[i..][0] == targets[i] && targets[i..][1..] == targets[i + 1..];
        var one := FindTarget(targets[i], kind);
        CatOneMore(found, one, TargetEndpoints(env, targets[i + 1..], kind));
        if one.Err? {
          return one;
        }
        found := found + one.value;
      }
      CatNothing<Endpoint>(Ok(found));
      return Ok(found);
    }

    /** Every address a backend dials: its overriding targets, or its name's on the port its pods take. */
    method FindEndpoints(key: Key, kind: Kind) returns (r: Result<seq<Endpoint>>)
      requires Valid()
      modifies this
      ensures r == Endpoints(env, key, kind) && After(r)
      ensures r.Ok? ==> seen.Keys == old(seen.Keys) + KeyNeeds(env, key)
    {
      if Targets(env, key) != [] {
        r := FindTargets(Targets(env, key), kind);
        return;
      }
      var addrs := FindAddrs((key.0, ConnectPort(env, key)), kind);
      if addrs.Err? {
        return Err(addrs.error);
      }
      return Ok(if addrs.value.Some? then Named(addrs.value.value, key.0) else []);
    }

    /** An invalid reference is never looked up: a rejecting stand-in keeps its weight. */
    method FindRef(ref: BackendRef, kind: Kind) returns (r: Result<seq<Backend>>)
      requires Valid()
      modifies this
      ensures r == RefBackends(env, ref, kind) && After(r)
      ensures r.Ok? ==> seen.Keys == old(seen.Keys) + (if ref.invalid then {} else KeyNeeds(env, (ref.name, ref.port)))
      ensures ref.invalid ==> lookups == old(lookups)
    {
      if ref.invalid {
        return Ok([Rejecting(ref.weight)]);
      }
      var es := FindEndpoints((ref.name, ref.port), kind);
      if es.Err? {
        return Err(es.error);
      }
      return Ok(BackendsAt(env, ref, kind, es.value));
    }

    method FindBackends(refs: seq<BackendRef>, kind: Kind) returns (r: Result<seq<Backend>>)
      requires Valid()
      modifies this
      ensures r == Backends(env, refs, kind) && After(r)
      ensures r.Ok? ==> seen.Keys == old(seen.Keys) + RefsNeed(env, refs)
    {
      var backends := [];
      CatNothing(Backends(env, refs, kind));
      for i := 0 to |refs|
        invariant Valid()
        invariant Cat(Ok(backends), Backends(env, refs[i..], kind)) == Backends(env, refs, kind)
        invariant seen.Keys + RefsNeed(env, refs[i..]) == old(seen.Keys) + RefsNeed(env, refs)
      {
        assert refs[i..][0] == refs[i] && refs[i..][1..] == refs[i + 1..];
        var one := FindRef(refs[i], kind);
        CatOneMore(backends, one, Backends(env, refs[i + 1..], kind));
        if one.Err? {
          return one;
        }
        backends := backends + one.value;
      }
      CatNothing<Backend>(Ok(backends));
      return Ok(backends);
    }

    method FindSmallest(es: seq<Endpoint>) returns (smallest: Option<Addr>)
      ensures smallest == Smallest(es)
    {
      smallest := None;
      for j := 0 to |es|
        invariant smallest == Smallest(es[..j])
      {
        assert es[..j + 1][..j] == es[..j];
        var addr := es[j].addr;
        smallest := Some(if smallest.Some? && smallest.value < addr then smallest.value else addr);
      }
      assert es[..|es|] == es;
    }

    /** A mirror that does not resolve is left out, and one to an invalid backend always. */
    method FindFilter(f: Filter) returns (r: Result<seq<TableFilter>>)
      requires Valid()
      modifies this
      ensures r == RuleFilter(env, f) && After(r)
      ensures r.Ok? ==> seen.Keys == old(seen.Keys) + FiltersNeed(env, [f])
    {
      if !f.Mirror? {
        return Ok([Plain(f.id)]);
      }
      if f.backend.invalid {
        return Ok([]);
      }
      var es := FindEndpoints((f.backend.name, f.backend.port), RequestMirror);
      if es.Err? {
        return Err(es.error);
      }
      var smallest := FindSmallest(es.value);
      return Ok(if smallest.Some? then [MirrorTo(smallest.value, f.fraction)] else []);
    }

    method FindFilters(fs: seq<Filter>) returns (r: Result<seq<TableFilter>>)
      requires Valid()
      modifies this
      ensures r == RuleFilters(env, fs) && After(r)
      ensures r.Ok? ==> seen.Keys == old(seen.Keys) + FiltersNeed(env, fs)
    {
      var out := [];
      CatNothing(RuleFilters(env, fs));
      for i := 0 to |fs|
        invariant Valid()
        invariant Cat(Ok(out), RuleFilters(env, fs[i..])) == RuleFilters(env, fs)
        invariant seen.Keys + FiltersNeed(env, fs[i..]) == old(seen.Keys) + FiltersNeed(env, fs)
      {
        assert fs[i..][0] == fs[i] && fs[i..][1..] == fs[i + 1..];
        var one := FindFilter(fs[i]);
        CatOneMore(out, one, RuleFilters(env, fs[i + 1..]));
        if one.Err? {
          return one;
        }
        out := out + one.value;
      }
      CatNothing<TableFilter>(Ok(out));
      return Ok(out);
    }

    method FindEntry(job: Job) returns (r: Result<seq<Entry>>)
      requires Valid()
      modifies this
      ensures r == JobEntry(env, job) && After(r)
      ensures r.Ok? ==> seen.Keys == old(seen.Keys) + JobNeeds(env, job)
    {
      match job
      case HttpJob(rule) =>
        var bs := Ok([]);
        if !Redirects(rule) {
          bs := FindBackends(rule.refs, Http);
        }
        if bs.Err? {
          return Err(bs.error);
        }
        var fs := FindFilters(rule.filters);
        if fs.Err? {
          return Err(fs.error);
        }
        return Ok([Entry(bs.value, fs.value)]);
      case L4Job(refs, kind) =>
        var bs := FindBackends(refs, kind);
        if bs.Err? {
          return Err(bs.error);
        }
        return Ok([Entry(bs.value, [])]);
      case Rejected =>
        if env.policy.Strict? {
          return Err(RouteRejected);
        }
        return Ok([]);
    }
  }

  /**
   A build gives what a lookup per reference gives and looks nothing up twice;
   one that goes through has looked up exactly what it needs.
   */
  method BuildTable(env: Env, jobs: seq<Job>) returns (r: Result<seq<Entry>>, ghost lookups: seq<Key>)
    ensures r == Build(env, jobs)
    ensures Distinct(lookups)
    ensures r.Ok? ==> forall k :: k in lookups <==> k in Needs(env, jobs)
  {
    var resolver := new Resolver(env);
    var table := [];
    CatNothing(Build(env, jobs));
    for i := 0 to |jobs|
      invariant fresh(resolver) && resolver.env == env && resolver.Valid()
      invariant Cat(Ok(table), Build(env, jobs[i..])) == Build(env, jobs)
      invariant resolver.seen.Keys + Needs(env, jobs[i..]) == Needs(env, jobs)
    {
      assert jobs[i..][0] == jobs[i] && jobs[i..][1..] == jobs[i + 1..];
      var entry := resolver.FindEntry(jobs[i]);
      CatOneMore(table, entry, Build(env, jobs[i + 1..]));
      if entry.Err? {
        return entry, resolver.lookups;
      }
      table := table + entry.value;
    }
    CatNothing<Entry>(Ok(table));
    return Ok(table), resolver.lookups;
  }
}
