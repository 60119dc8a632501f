/**
 When an address of src/proxy/health.rs has two running probes: over every run, the
 one step that brings it about, seen before it is taken.
 */
module HealthOverlap {
  import opened HealthMachine
  import opened HealthProbes
  import opened HealthRecovery

  ghost predicate AllOne(s: Registry) {
    forall a :: OneRuns(s, a)
  }

  /** A winner spawns its probe while one of that address still runs. */
  ghost predicate SpawnsBeside(s: Registry, step: Step) {
    step.Go? && step.t in s.threads && s.threads[step.t].Won? && exists p :: RunningAt(s, p, s.threads[step.t].a)
  }

  /** What runs after ran before, at the same address. */
  ghost predicate NoneNew(s: Registry, s': Registry) {
    forall p :: Running(s', p) ==> Running(s, p) && s'.probes[p].a == s.probes[p].a
  }

  lemma NoneNewKeepsOne(s: Registry, s': Registry)
    requires AllOne(s) && NoneNew(s, s')
    ensures AllOne(s')
  {
    forall a
      ensures OneRuns(s', a)
    {
      assert forall p :: RunningAt(s', p, a) ==> RunningAt(s, p, a);
      assert OneRuns(s, a);
    }
  }

  /** The spawn: two probes of the address run after it exactly when one did before. */
  lemma SpawnOverlapsIff(s: Registry, t: Tid, task: ProbeId)
    requires Enabled(s, Go(t, task)) && s.threads[t].Won? && OneRuns(s, s.threads[t].a)
    ensures OneRuns(Went(s, t, task), s.threads[t].a) <==> forall p :: !RunningAt(s, p, s.threads[t].a)
  {
    var s', a := Went(s, t, task), s.threads[t].a;
    hide NoWriter, NoReader, ShardOf;
    assert s'.probes == s.probes[task := Probe(a, Asleep(true), false)] && task !in s.probes;
    hide Went, Enabled;
    assert RunningAt(s', task, a);
    assert forall p :: p != task ==> (RunningAt(s', p, a) <==> RunningAt(s, p, a));
    assert !RunningAt(s, task, a);
  }

  lemma SpawnElsewhere(s: Registry, t: Tid, task: ProbeId, b: Addr)
    requires Enabled(s, Go(t, task)) && s.threads[t].Won? && s.threads[t].a != b && OneRuns(s, b)
    ensures OneRuns(Went(s, t, task), b)
  {
    var s' := Went(s, t, task);
    hide NoWriter, NoReader, ShardOf;
    assert s'.probes == s.probes[task := Probe(s.threads[t].a, Asleep(true), false)];
    hide Went, Enabled;
    assert forall p :: RunningAt(s', p, b) ==> RunningAt(s, p, b);
  }

  lemma GoAddsNone(s: Registry, t: Tid, task: ProbeId)
    requires Enabled(s, Go(t, task)) && !s.threads[t].Won?
    ensures NoneNew(s, Went(s, t, task))
  {
    hide NoWriter, NoReader, ShardOf, ShardUsed, OthersStay;
    var pc := s.threads[t];
    if !pc.Spawned? && !pc.PruneFilter? {
      GoQuiet(s, t, task);
      hide Went;
    }
  }

  lemma ProbeAddsNone(s: Registry, p: ProbeId, connects: bool)
    requires Enabled(s, ProbeGo(p, connects))
    ensures NoneNew(s, ProbeWent(s, p, connects))
  {
    ProbeFrame(s, p, connects);
    assert !s.probes[p].at.Finished?;
    hide ProbeWent, Enabled, NoWriter, ShardOf;
  }

  lemma GoOneRunsIff(s: Registry, t: Tid, task: ProbeId)
    requires AllOne(s) && Enabled(s, Go(t, task))
    ensures AllOne(Went(s, t, task)) <==> !SpawnsBeside(s, Go(t, task))
  {
    var s' := Went(s, t, task);
    hide Went, OneRuns, Enabled, NoneNew;
    assert t in s.threads by { assert Enabled(s, Go(t, task)); }
    if s.threads[t].Won? {
      var a := s.threads[t].a;
      assert OneRuns(s, a);
      SpawnOverlapsIff(s, t, task);
      forall b | b != a
        ensures OneRuns(s', b)
      {
        assert OneRuns(s, b);
        SpawnElsewhere(s, t, task, b);
      }
    } else {
      GoAddsNone(s, t, task);
      NoneNewKeepsOne(s, s');
    }
  }

  /** One step leaves every address with one running probe at most if and only if it spawns none beside another. */
  lemma StepOneRunsIff(s: Registry, step: Step)
    requires AllOne(s) && Enabled(s, step)
    ensures AllOne(Apply(s, step)) <==> !SpawnsBeside(s, step)
  {
    hide AllOne, Begun, Went, ProbeWent, NoneNew;
    match step
    case Begin(t, op) =>
      BeginAddsNone(s, t, op);
      NoneNewKeepsOne(s, Begun(s, t, op));
    case Go(t, task) =>
      GoOneRunsIff(s, t, task);
    case ProbeGo(p, connects) =>
      ProbeAddsNone(s, p, connects);
      NoneNewKeepsOne(s, ProbeWent(s, p, connects));
  }

  lemma BeginAddsNone(s: Registry, t: Tid, op: Op)
    ensures NoneNew(s, Begun(s, t, op))
  {
  }

  ghost predicate AlwaysOne(s: Registry, steps: seq<Step>)
    requires Runs(s, steps)
    decreases |steps|
  {
    AllOne(s) && (steps == [] || AlwaysOne(Apply(s, steps[0]), steps[1..]))
  }

  ghost predicate NeverBeside(s: Registry, steps: seq<Step>)
    requires Runs(s, steps)
    decreases |steps|
  {
    steps == [] || (!SpawnsBeside(s, steps[0]) && NeverBeside(Apply(s, steps[0]), steps[1..]))
  }

  lemma {:induction false} RunOneIff(s: Registry, steps: seq<Step>)
    requires AllOne(s) && Runs(s, steps)
    ensures AlwaysOne(s, steps) <==> NeverBeside(s, steps)
    decreases |steps|
  {
    hide Apply, Enabled, AllOne, SpawnsBeside;
    if steps != [] {
      StepOneRunsIff(s, steps[0]);
      if AllOne(Apply(s, steps[0])) {
        RunOneIff(Apply(s, steps[0]), steps[1..]);
      }
    }
  }

  /**
   A run has at most one running, un-aborted probe per address all along if and only
   if no winner in it spawns while a probe of its address still runs.
   */
  lemma OneProbeIffNoneBeside(shards: nat, steps: seq<Step>)
    requires shards > 0 && Runs(NewRegistry(shards), steps)
    ensures AlwaysOne(NewRegistry(shards), steps) <==> NeverBeside(NewRegistry(shards), steps)
  {
    RunOneIff(NewRegistry(shards), steps);
  }
}
