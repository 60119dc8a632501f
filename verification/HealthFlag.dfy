/**
 The `tracked` flag of src/proxy/health.rs: however record_failure and prune
 race, an entry never outlives a lowered flag once the racing operations end.
 */
module HealthFlag {
  import opened HealthMachine

  /** The thread will still raise the flag, or look where `a` is before it leaves it lowered. */
  predicate WillRaise(shards: nat, pc: Pc, a: Addr) {
    match pc
    case FailLoadFlag(b) => b == a
    case FailRaiseFlag(b) => b == a
    case PruneRecount(i, found) => found || (shards > 0 && i <= ShardOf(shards, a))
    case PruneRaise => true
    case _ => false
  }

  predicate Tracked(s: Registry, a: Addr) {
    s.tracked || exists t :: t in s.threads && WillRaise(s.shards, s.threads[t], a)
  }

  predicate FlagInv(s: Registry) {
    s.shards > 0 && forall a :: a in s.entries ==> Tracked(s, a)
  }

  lemma BeginKeepsFlag(s: Registry, t: Tid, op: Op)
    requires FlagInv(s) && Enabled(s, Begin(t, op))
    ensures FlagInv(Begun(s, t, op))
  {
    hide NoWriter, NoReader, ShardOf;
    var s' := Begun(s, t, op);
    forall a | a in s'.entries
      ensures Tracked(s', a)
    {
      if op.Failure? && a == op.a {
        assert t in s'.threads && WillRaise(s'.shards, s'.threads[t], a);
      } else if !s.tracked {
        assert Tracked(s, a);
        var u :| u in s.threads && WillRaise(s.shards, s.threads[u], a);
        assert u in s'.threads && WillRaise(s'.shards, s'.threads[u], a);
      }
    }
  }

  lemma GoKeepsTracked(s: Registry, t: Tid, task: ProbeId, a: Addr)
    requires FlagInv(s) && Enabled(s, Go(t, task))
    requires a in s.entries && a in Went(s, t, task).entries
    ensures Tracked(Went(s, t, task), a)
  {
    hide NoWriter, NoReader, CountFailure, Departs;
    var s' := Went(s, t, task);
    var pc := s.threads[t];
    if pc.PruneLower? {
      assert t in s'.threads && WillRaise(s'.shards, s'.threads[t], a);
    } else if !s'.tracked {
      assert Tracked(s, a);
      if !s.tracked {
        var u :| u in s.threads && WillRaise(s.shards, s.threads[u], a);
        if u != t {
          assert u in s'.threads && WillRaise(s'.shards, s'.threads[u], a);
        } else {
          assert pc.PruneRecount? && ShardOf(s.shards, a) == pc.i ==> ShardUsed(s, pc.i);
          assert t in s'.threads && WillRaise(s'.shards, s'.threads[t], a);
        }
      }
    }
  }

  lemma GoAddsNothing(s: Registry, t: Tid, task: ProbeId)
    requires Enabled(s, Go(t, task))
    ensures Went(s, t, task).entries.Keys <= s.entries.Keys
  {
    hide NoWriter, NoReader, CountFailure, ShardUsed, Departs;
  }

  lemma StepKeepsFlag(s: Registry, step: Step)
    requires FlagInv(s) && Enabled(s, step)
    ensures FlagInv(Apply(s, step))
  {
    match step
    case Begin(t, op) => BeginKeepsFlag(s, t, op);
    case Go(t, task) =>
      GoAddsNothing(s, t, task);
      hide Went;
      var s' := Apply(s, step);
      forall a | a in s'.entries
        ensures Tracked(s', a)
      {
        GoKeepsTracked(s, t, task, a);
      }
    case ProbeGo(p, connects) =>
      hide NoWriter, NoReader;
      var s' := Apply(s, step);
      assert s'.entries.Keys == s.entries.Keys && s'.threads == s.threads && s'.tracked == s.tracked;
      forall a | a in s'.entries
        ensures Tracked(s', a)
      {
        assert Tracked(s, a);
      }
  }

  lemma {:induction false} RunKeepsFlag(s: Registry, steps: seq<Step>)
    requires FlagInv(s) && Runs(s, steps)
    ensures FlagInv(End(s, steps))
    decreases |steps|
  {
    hide FlagInv, Enabled, Apply;
    if steps != [] {
      StepKeepsFlag(s, steps[0]);
      RunKeepsFlag(Apply(s, steps[0]), steps[1..]);
    }
  }

  /**
   After every run, once no operation is in flight: a map with entries has its
   flag raised, and an ejected backend, and no other, is reported unhealthy.
   */
  lemma NoEntryBehindLoweredFlag(shards: nat, steps: seq<Step>)
    requires shards > 0 && Runs(NewRegistry(shards), steps)
    requires End(NewRegistry(shards), steps).threads == map[]
    ensures var s := End(NewRegistry(shards), steps);
            && (s.entries != map[] ==> s.tracked)
            && forall a :: IsHealthy(s, a) <==> !(a in s.entries && s.entries[a].status != Healthy)
  {
    hide Enabled, Apply, Runs, End;
    RunKeepsFlag(NewRegistry(shards), steps);
    var s := End(NewRegistry(shards), steps);
    assert forall a :: a in s.entries ==> Tracked(s, a);
    if s.entries != map[] {
      var a :| a in s.entries;
    }
  }
}
