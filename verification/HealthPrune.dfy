/**
 What prune of src/proxy/health.rs takes and what it leaves: the backends no route
 names any more leave with their probes, those still routed keep their state.
 */
module HealthPrune {
  import opened Options
  import opened HealthMachine
  import opened HealthFlag
  import opened HealthStranded

  // ----- one shard -----

  /** The address was in the map before and is not after, and its slot held the probe. */
  ghost predicate TookProbe(s: Registry, s': Registry, a: Addr, p: ProbeId) {
    a in s.entries && a !in s'.entries && s.entries[a].slot == Some(p)
  }

  /** A shard filtered keeps its routed addresses, all others keep theirs, and the probes of what left are aborted. */
  lemma FilterStep(s: Registry, t: Tid, task: ProbeId)
    requires Enabled(s, Go(t, task)) && s.threads[t].PruneFilter?
    ensures var s', routed, i := Went(s, t, task), s.threads[t].routed, s.threads[t].i;
            && (forall a :: a in s'.entries <==> a in s.entries && (ShardOf(s.shards, a) != i || a in routed))
            && (forall a :: a in s'.entries ==> s'.entries[a] == s.entries[a])
            && s'.tracked == s.tracked && s'.probes.Keys == s.probes.Keys
            && forall p :: p in s.probes ==>
                 && s'.probes[p].a == s.probes[p].a && s'.probes[p].at == s.probes[p].at
                 && (s'.probes[p].aborted <==> s.probes[p].aborted || exists a :: TookProbe(s, s', a, p))
  {
    hide NoWriter, NoReader, ShardOf;
    var s', routed, i := Went(s, t, task), s.threads[t].routed, s.threads[t].i;
    forall p | p in s.probes
      ensures s'.probes[p].aborted <==> s.probes[p].aborted || exists a :: TookProbe(s, s', a, p)
    {
      if a :| a in s.entries && Departs(s, routed, i, a) && s.entries[a].slot == Some(p) {
        assert TookProbe(s, s', a, p);
      }
      if a :| TookProbe(s, s', a, p) {
        assert Departs(s, routed, i, a);
      }
    }
  }

  // ----- however others race with it -----

  lemma BeginAddsOnlyFailed(s: Registry, t: Tid, op: Op, a: Addr)
    ensures a in s.entries ==> a in Begun(s, t, op).entries
    ensures a in Begun(s, t, op).entries ==> a in s.entries || op == Failure(a)
  {
  }

  /** Every prune under way or begun in the run still routes the address. */
  ghost predicate AllRoute(s: Registry, steps: seq<Step>, a: Addr) {
    && (forall t :: t in s.threads && s.threads[t].PruneFilter? ==> a in s.threads[t].routed)
    && (forall step :: step in steps && step.Begin? && step.op.Prune? ==> a in step.op.routed)
  }

  lemma GoKeepsRouted(s: Registry, t: Tid, task: ProbeId, a: Addr)
    requires Enabled(s, Go(t, task)) && a in s.entries
    requires s.threads[t].PruneFilter? ==> a in s.threads[t].routed
    ensures a in Went(s, t, task).entries
    ensures var s' := Went(s, t, task);
            t in s'.threads && s'.threads[t].PruneFilter? ==>
              s.threads[t].PruneFilter? && s'.threads[t].routed == s.threads[t].routed
  {
    if s.threads[t].PruneFilter? {
      FilterStep(s, t, task);
      hide Filtered;
    } else {
      hide NoWriter, NoReader, ShardOf, CountFailure, ShardUsed, Filtered;
    }
  }

  lemma StepKeepsRouted(s: Registry, step: Step, rest: seq<Step>, a: Addr)
    requires Enabled(s, step) && a in s.entries && AllRoute(s, [step] + rest, a)
    ensures a in Apply(s, step).entries && AllRoute(Apply(s, step), rest, a)
  {
    assert step in [step] + rest;
    assert forall other :: other in rest ==> other in [step] + rest;
    match step
    case Begin(t, op) =>
      hide NoWriter, NoReader, ShardOf;
      BeginAddsOnlyFailed(s, t, op, a);
    case Go(t, task) =>
      GoKeepsRouted(s, t, task, a);
      hide Went, NoWriter, NoReader;
    case ProbeGo(p, connects) =>
      hide NoWriter, NoReader, ShardOf;
  }

  /** In every run an address that all its prunes route keeps its entry. */
  lemma {:induction false} RoutedStays(s: Registry, steps: seq<Step>, a: Addr)
    requires Runs(s, steps) && a in s.entries && AllRoute(s, steps, a)
    ensures a in End(s, steps).entries
    decreases |steps|
  {
    hide Apply, Enabled, AllRoute;
    if steps != [] {
      assert steps == [steps[0]] + steps[1..];
      StepKeepsRouted(s, steps[0], steps[1..], a);
      RoutedStays(Apply(s, steps[0]), steps[1..], a);
    }
  }

  /** The prune has this address ahead of it, and does not route it. */
  ghost predicate WillTake(s: Registry, t: Tid, a: Addr) {
    && s.shards > 0 && t in s.threads && s.threads[t].PruneFilter?
    && a !in s.threads[t].routed && s.threads[t].i <= ShardOf(s.shards, a)
  }

  lemma GoTakes(s: Registry, t: Tid, task: ProbeId, u: Tid, a: Addr)
    requires Enabled(s, Go(u, task)) && (WillTake(s, t, a) || a !in s.entries)
    ensures WillTake(Went(s, u, task), t, a) || a !in Went(s, u, task).entries
  {
    GoAddsNothing(s, u, task);
    if WillTake(s, t, a) {
      if u == t {
        FilterStep(s, t, task);
        hide Filtered, ShardOf, NoWriter, NoReader;
      } else {
        hide Went, NoWriter, NoReader, ShardOf;
      }
    } else {
      hide Went, NoWriter, NoReader, ShardOf;
    }
  }

  lemma StepTakes(s: Registry, step: Step, t: Tid, a: Addr)
    requires Enabled(s, step) && (WillTake(s, t, a) || a !in s.entries)
    requires !(step.Begin? && step.op == Failure(a))
    ensures WillTake(Apply(s, step), t, a) || a !in Apply(s, step).entries
  {
    match step
    case Begin(u, op) =>
      hide NoWriter, NoReader, ShardOf;
      BeginAddsOnlyFailed(s, u, op, a);
    case Go(u, task) =>
      GoTakes(s, t, task, u, a);
      hide Went, NoWriter, NoReader, WillTake;
    case ProbeGo(p, connects) =>
      hide NoWriter, NoReader, ShardOf;
  }

  /** In every run an address a prune does not route is gone once its shard is filtered, until it fails again. */
  lemma {:induction false} DepartedIsGone(s: Registry, steps: seq<Step>, t: Tid, a: Addr)
    requires Runs(s, steps) && (WillTake(s, t, a) || a !in s.entries)
    requires forall step :: step in steps && step.Begin? ==> step.op != Failure(a)
    ensures WillTake(End(s, steps), t, a) || a !in End(s, steps).entries
    decreases |steps|
  {
    hide Apply, Enabled, WillTake;
    if steps != [] {
      assert steps[0] in steps;
      StepTakes(s, steps[0], t, a);
      DepartedIsGone(Apply(s, steps[0]), steps[1..], t, a);
    }
  }

  // ----- a prune run alone -----

  /** The entries `from` had, but for those in the first `n` shards that are not routed. */
  ghost predicate Pruned(from: Registry, s: Registry, routed: set<Addr>, n: nat)
    requires from.shards > 0
  {
    && (forall a :: a in s.entries <==> a in from.entries && (ShardOf(from.shards, a) >= n || a in routed))
    && (forall a :: a in s.entries ==> s.entries[a] == from.entries[a])
  }

  /** Every probe as it was, but for those in the slot of an entry that left. */
  ghost predicate ProbesPruned(from: Registry, s: Registry) {
    && s.probes.Keys == from.probes.Keys
    && forall p :: p in from.probes ==>
         && s.probes[p].a == from.probes[p].a && s.probes[p].at == from.probes[p].at
         && (s.probes[p].aborted <==> from.probes[p].aborted || exists a :: TookProbe(from, s, a, p))
  }

  ghost predicate NoneBelow(s: Registry, n: nat)
    requires s.shards > 0
  {
    forall a :: a in s.entries ==> ShardOf(s.shards, a) >= n
  }

  /** Where a prune of `from` by `t` stands, nobody else having moved. */
  ghost predicate Pruning(from: Registry, s: Registry, t: Tid, routed: set<Addr>) {
    && from.shards > 0 && s.shards == from.shards && ProbesPruned(from, s)
    && if t !in s.threads then Pruned(from, s, routed, from.shards) && (s.tracked <==> s.entries != map[])
       else
         match s.threads[t]
         case PruneFilter(r, i) => r == routed && i < s.shards && Pruned(from, s, routed, i) && s.tracked
         case PruneCount(i, found) =>
           && i < s.shards && Pruned(from, s, routed, from.shards) && s.tracked
           && (if found then s.entries != map[] else NoneBelow(s, i))
         case PruneLower => Pruned(from, s, routed, from.shards) && s.tracked && s.entries == map[]
         case PruneRecount(i, found) =>
           i < s.shards && Pruned(from, s, routed, from.shards) && !s.tracked && !found && s.entries == map[]
         case _ => false
  }

  /** Probes taken at one step, on top of those taken before. */
  lemma FilterPrunesProbes(from: Registry, s: Registry, t: Tid, task: ProbeId)
    requires ProbesPruned(from, s) && Enabled(s, Go(t, task)) && s.threads[t].PruneFilter?
    requires forall a :: a in s.entries ==> a in from.entries && s.entries[a] == from.entries[a]
    ensures ProbesPruned(from, Went(s, t, task))
  {
    var s' := Went(s, t, task);
    FilterStep(s, t, task);
    hide Went, Enabled, ShardOf;
    forall p | p in from.probes
      ensures s'.probes[p].aborted <==> from.probes[p].aborted || exists a :: TookProbe(from, s', a, p)
    {
      if a :| TookProbe(from, s, a, p) {
        assert TookProbe(from, s', a, p);
      }
      if a :| TookProbe(s, s', a, p) {
        assert TookProbe(from, s', a, p);
      }
      if a :| TookProbe(from, s', a, p) {
        assert TookProbe(from, s, a, p) || TookProbe(s, s', a, p);
      }
    }
  }

  lemma FilterPrunes(from: Registry, s: Registry, t: Tid, routed: set<Addr>, task: ProbeId)
    requires Pruning(from, s, t, routed) && Enabled(s, Go(t, task)) && s.threads[t].PruneFilter?
    ensures Pruning(from, Went(s, t, task), t, routed)
  {
    var s', i := Went(s, t, task), s.threads[t].i;
    FilterStep(s, t, task);
    assert s'.threads[t] == if i + 1 < s.shards then PruneFilter(routed, i + 1) else PruneCount(0, false);
    FilterPrunesProbes(from, s, t, task);
    hide Went, NoWriter, NoReader, Enabled, ProbesPruned, TookProbe;
    assert Pruned(from, s', routed, i + 1);
  }

  lemma CountPrunes(from: Registry, s: Registry, t: Tid, routed: set<Addr>, task: ProbeId)
    requires Pruning(from, s, t, routed) && Enabled(s, Go(t, task)) && !s.threads[t].PruneFilter?
    ensures Pruning(from, Went(s, t, task), t, routed)
  {
    hide NoWriter, NoReader;
    var s', pc := Went(s, t, task), s.threads[t];
    assert s'.entries == s.entries && s'.probes == s.probes;
    assert ProbesPruned(from, s') by {
      forall p | p in from.probes
        ensures s'.probes[p].aborted <==> from.probes[p].aborted || exists a :: TookProbe(from, s', a, p)
      {
        assert forall a :: TookProbe(from, s', a, p) <==> TookProbe(from, s, a, p);
      }
    }
    hide ProbesPruned;
    if pc.PruneCount? {
      if a :| a in s.entries && ShardOf(s.shards, a) == pc.i {
        assert ShardUsed(s, pc.i);
      } else {
        assert !ShardUsed(s, pc.i);
        assert !pc.found ==> NoneBelow(s, pc.i + 1);
        assert !pc.found && pc.i + 1 == s.shards ==> s.entries == map[];
      }
    }
  }

  lemma BeginPrunes(s: Registry, t: Tid, routed: set<Addr>)
    requires Enabled(s, Begin(t, Prune(routed))) && s.tracked
    ensures Pruning(s, Begun(s, t, Prune(routed)), t, routed)
  {
    var s' := Begun(s, t, Prune(routed));
    hide NoWriter, NoReader;
    assert forall a, p :: !TookProbe(s, s', a, p);
    assert ProbesPruned(s, s');
  }

  predicate AllGo(steps: seq<Step>, t: Tid) {
    forall i :: 0 <= i < |steps| ==> steps[i].Go? && steps[i].t == t
  }

  lemma {:induction false} GoesPrune(from: Registry, s: Registry, t: Tid, routed: set<Addr>, gos: seq<Step>)
    requires Pruning(from, s, t, routed) && Runs(s, gos) && AllGo(gos, t)
    ensures Pruning(from, End(s, gos), t, routed)
    decreases |gos|
  {
    hide Went, Pruning;
    if gos != [] {
      var task := gos[0].task;
      if s.threads[t].PruneFilter? {
        FilterPrunes(from, s, t, routed, task);
      } else {
        CountPrunes(from, s, t, routed, task);
      }
      GoesPrune(from, Apply(s, gos[0]), t, routed, gos[1..]);
    }
  }

  /**
   A prune that runs alone to its end, on a registry whose flag is up: the routed
   addresses keep their entries verbatim and no other has one, the flag stays up
   exactly if there is one, and the probes of those that left are aborted.
   */
  lemma PruneAlone(s: Registry, t: Tid, routed: set<Addr>, gos: seq<Step>)
    requires s.tracked && AllGo(gos, t) && Runs(s, [Begin(t, Prune(routed))] + gos)
    requires t !in End(s, [Begin(t, Prune(routed))] + gos).threads
    ensures var s' := End(s, [Begin(t, Prune(routed))] + gos);
            && s'.entries == (map a | a in s.entries && a in routed :: s.entries[a])
            && (s'.tracked <==> s'.entries != map[])
            && ProbesPruned(s, s')
  {
    var begin := Begin(t, Prune(routed));
    assert ([begin] + gos)[1..] == gos;
    BeginPrunes(s, t, routed);
    var s1 := Apply(s, begin);
    assert Enabled(s, begin) && Runs(s1, gos) && End(s, [begin] + gos) == End(s1, gos);
    hide Runs, End, Enabled, Apply;
    GoesPrune(s, s1, t, routed, gos);
    var s' := End(s1, gos);
    assert Pruned(s, s', routed, s.shards);
    hide ProbesPruned;
    assert s'.entries == map a | a in s.entries && a in routed :: s.entries[a];
  }

  /**
   From every state a run can reach with nothing in flight, or with the flag up: after
   a prune alone exactly the routed backends that were ejected are reported unhealthy.
   */
  lemma PruneReports(shards: nat, before: seq<Step>, t: Tid, routed: set<Addr>, gos: seq<Step>, a: Addr)
    requires shards > 0 && Runs(NewRegistry(shards), before)
    requires var s := End(NewRegistry(shards), before);
             && (s.tracked || s.threads == map[])
             && AllGo(gos, t) && Runs(s, [Begin(t, Prune(routed))] + gos)
             && t !in End(s, [Begin(t, Prune(routed))] + gos).threads
    ensures var s := End(NewRegistry(shards), before);
            var s' := End(s, [Begin(t, Prune(routed))] + gos);
            && s'.entries.Keys == s.entries.Keys * routed
            && (IsHealthy(s', a) <==> !(a in s.entries && a in routed && s.entries[a].status != Healthy))
  {
    var s := End(NewRegistry(shards), before);
    if s.tracked {
      hide Runs, End;
      PruneAlone(s, t, routed, gos);
      ReportsRouted(s, End(s, [Begin(t, Prune(routed))] + gos), routed, a);
    } else {
      NoEntryBehindLoweredFlag(shards, before);
      LoweredPrunesNothing(s, t, routed, gos);
    }
  }

  lemma ReportsRouted(s: Registry, s': Registry, routed: set<Addr>, a: Addr)
    requires s'.entries == map a | a in s.entries && a in routed :: s.entries[a]
    requires s'.tracked <==> s'.entries != map[]
    ensures s'.entries.Keys == s.entries.Keys * routed
    ensures IsHealthy(s', a) <==> !(a in s.entries && a in routed && s.entries[a].status != Healthy)
  {
    assert a in s'.entries <==> a in s.entries && a in routed;
    assert a in s'.entries ==> s'.entries != map[];
  }

  lemma LoweredPrunesNothing(s: Registry, t: Tid, routed: set<Addr>, gos: seq<Step>)
    requires !s.tracked && AllGo(gos, t) && Runs(s, [Begin(t, Prune(routed))] + gos)
    ensures End(s, [Begin(t, Prune(routed))] + gos) == s
  {
    var begin := Begin(t, Prune(routed));
    assert ([begin] + gos)[1..] == gos;
    hide NoWriter, NoReader;
    assert Apply(s, begin) == s && t !in s.threads;
    assert Runs(s, gos);
  }

  // ----- and it ends -----

  /** Steps a prune has left at most. */
  function Ahead(s: Registry, t: Tid): nat {
    if t !in s.threads then 0
    else
      match s.threads[t]
      case PruneFilter(_, i) => if i < s.shards then 3 * s.shards + 2 - i else 0
      case PruneCount(i, _) => if i < s.shards then 2 * s.shards + 2 - i else 0
      case PruneLower => s.shards + 1
      case PruneRecount(i, _) => if i < s.shards then s.shards - i else 0
      case _ => 0
  }

  lemma MayGo(from: Registry, s: Registry, t: Tid, routed: set<Addr>)
    requires Pruning(from, s, t, routed) && t in s.threads && NoGuards(s)
    ensures Enabled(s, Go(t, 0))
  {
    hide Pruned, ProbesPruned, ShardUsed, ShardOf;
  }

  lemma StaysUnguarded(from: Registry, s: Registry, t: Tid, routed: set<Addr>)
    requires Pruning(from, s, t, routed) && t in s.threads && NoGuards(s) && Enabled(s, Go(t, 0))
    ensures NoGuards(Went(s, t, 0))
  {
    hide Pruned, ProbesPruned, ShardUsed, ShardOf, NoWriter, NoReader;
  }

  lemma GoesOn(from: Registry, s: Registry, t: Tid, routed: set<Addr>)
    requires Pruning(from, s, t, routed) && t in s.threads && Enabled(s, Go(t, 0))
    ensures Ahead(Went(s, t, 0), t) < Ahead(s, t)
  {
    hide Pruned, ProbesPruned, ShardUsed, ShardOf, NoWriter, NoReader, Filtered;
  }

  /** With no guard held it goes to its end. */
  lemma {:induction false} PruneEnds(from: Registry, s: Registry, t: Tid, routed: set<Addr>) returns (gos: seq<Step>)
    requires Pruning(from, s, t, routed) && NoGuards(s)
    ensures AllGo(gos, t) && Runs(s, gos) && t !in End(s, gos).threads
    decreases Ahead(s, t)
  {
    if t !in s.threads {
      gos := [];
    } else {
      MayGo(from, s, t, routed);
      StaysUnguarded(from, s, t, routed);
      GoesOn(from, s, t, routed);
      if s.threads[t].PruneFilter? {
        FilterPrunes(from, s, t, routed, 0);
      } else {
        CountPrunes(from, s, t, routed, 0);
      }
      hide Went, Pruning, NoGuards, Enabled, Ahead;
      var rest := PruneEnds(from, Went(s, t, 0), t, routed);
      gos := [Go(t, 0)] + rest;
      assert gos[1..] == rest;
    }
  }
}
