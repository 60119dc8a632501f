/**
 Two runs of src/proxy/health.rs spelled out. A winner spawns its probe before it
 registers it, so for a while two probes of one address may run; and were a probe
 to check before its registration, a backend could end ejected with nothing left
 to probe it, which is what its first sleep is for.
 */
module HealthStranded {
  import opened Options
  import opened HealthMachine
  import opened HealthRecovery

  // ----- putting runs together -----

  lemma {:induction false} RunsConcat(s: Registry, a: seq<Step>, b: seq<Step>)
    requires Runs(s, a) && Runs(End(s, a), b)
    ensures Runs(s, a + b) && End(s, a + b) == End(End(s, a), b)
    decreases |a|
  {
    hide Enabled, Apply;
    if a == [] {
      assert a + b == b;
    } else {
      assert (a + b)[0] == a[0] && (a + b)[1..] == a[1..] + b;
      RunsConcat(Apply(s, a[0]), a[1..], b);
    }
  }

  lemma RunsOne(s: Registry, step: Step)
    requires Enabled(s, step)
    ensures Runs(s, [step]) && End(s, [step]) == Apply(s, step)
  {
    hide Enabled, Apply;
    assert [step][1..] == [];
  }

  lemma RunsOneMore(s: Registry, steps: seq<Step>, step: Step)
    requires Runs(s, steps) && Enabled(End(s, steps), step)
    ensures Runs(s, steps + [step]) && End(s, steps + [step]) == Apply(End(s, steps), step)
  {
    hide Enabled, Apply;
    RunsOne(End(s, steps), step);
    RunsConcat(s, steps, [step]);
  }

  /** No probe moves in these steps. */
  predicate ProbesRest(steps: seq<Step>) {
    forall i :: 0 <= i < |steps| ==> !steps[i].ProbeGo?
  }

  lemma {:induction false} RestingIsTimely(s: Registry, steps: seq<Step>)
    requires Runs(s, steps) && ProbesRest(steps)
    ensures AllTimely(s, steps)
    decreases |steps|
  {
    hide Enabled, Apply;
    if steps != [] {
      RestingIsTimely(Apply(s, steps[0]), steps[1..]);
    }
  }

  ghost predicate NoGuards(s: Registry) {
    && s.shards > 0
    && (forall t :: t in s.threads ==> WriteGuard(s.threads[t]).None? && ReadGuard(s.threads[t]).None?)
    && (forall p :: p in s.probes ==> !ProbeReads(s.probes[p]))
  }

  // ----- single steps -----

  lemma InsertStep(s: Registry, t: Tid, a: Addr)
    requires NoGuards(s) && t !in s.threads
    ensures Enabled(s, Begin(t, Failure(a)))
    ensures Apply(s, Begin(t, Failure(a)))
         == s.(entries := s.entries[a := if a in s.entries then s.entries[a] else FRESH],
               threads := s.threads[t := FailLoadFlag(a)])
  {
    assert a in s.entries ==> s.entries[a := s.entries[a]] == s.entries;
  }

  lemma FlagStep(s: Registry, t: Tid, a: Addr)
    requires s.shards > 0 && t in s.threads && s.threads[t] == FailLoadFlag(a)
    ensures Enabled(s, Go(t, 0))
    ensures Apply(s, Go(t, 0))
         == s.(threads := s.threads[t := if s.tracked then FailCount(a) else FailRaiseFlag(a)])
  {}

  lemma RaiseStep(s: Registry, t: Tid, a: Addr)
    requires s.shards > 0 && t in s.threads && s.threads[t] == FailRaiseFlag(a)
    ensures Enabled(s, Go(t, 0))
    ensures Apply(s, Go(t, 0)) == s.(tracked := true, threads := s.threads[t := FailCount(a)])
  {}

  lemma CountStep(s: Registry, t: Tid, a: Addr)
    requires s.shards > 0 && t in s.threads && s.threads[t] == FailCount(a) && a in s.entries
    ensures Enabled(s, Go(t, 0))
    ensures var (entry, won) := CountFailure(s.entries[a]);
            Apply(s, Go(t, 0)) == s.(entries := s.entries[a := entry],
                                     threads := if won then s.threads[t := Won(a)] else s.threads - {t})
  {
    hide CountFailure;
  }

  lemma SpawnStep(s: Registry, t: Tid, a: Addr, p: ProbeId)
    requires s.shards > 0 && t in s.threads && s.threads[t] == Won(a) && p !in s.probes
    ensures Enabled(s, Go(t, p))
    ensures Apply(s, Go(t, p))
         == s.(probes := s.probes[p := Probe(a, Asleep(true), false)], threads := s.threads[t := Spawned(a, p)])
  {}

  lemma RegisterStep(s: Registry, t: Tid, a: Addr, p: ProbeId)
    requires NoGuards(s) && t in s.threads && s.threads[t] == Spawned(a, p) && a in s.entries && p in s.probes
    ensures Enabled(s, Go(t, 0))
    ensures Apply(s, Go(t, 0)) == Left(Registered(s, a, p), t)
  {
    hide Registered;
  }

  // ----- a failure, an ejection, a success, a recovery -----

  /** The registry after thread `t` has run one record_failure from start to end. */
  function Struck(s: Registry, t: Tid, a: Addr): Registry {
    var (entry, won) := CountFailure(if a in s.entries then s.entries[a] else FRESH);
    s.(entries := s.entries[a := entry], tracked := true,
       threads := if won then s.threads[t := Won(a)] else s.threads)
  }

  /** From the insert to the count, the flag raised on the way. */
  lemma ReachesCount(s: Registry, t: Tid, a: Addr) returns (steps: seq<Step>)
    requires NoGuards(s) && t !in s.threads
    ensures Runs(s, steps) && ProbesRest(steps)
    ensures End(s, steps) == s.(entries := s.entries[a := if a in s.entries then s.entries[a] else FRESH],
                                tracked := true, threads := s.threads[t := FailCount(a)])
  {
    var begin, go := Begin(t, Failure(a)), Go(t, 0);
    hide Runs, End, Apply, Enabled;
    InsertStep(s, t, a);
    RunsOne(s, begin);
    var s1 := Apply(s, begin);
    FlagStep(s1, t, a);
    RunsOneMore(s, [begin], go);
    var s2 := Apply(s1, go);
    if s.tracked {
      steps := [begin] + [go];
      assert s2.threads == s.threads[t := FailCount(a)];
    } else {
      RaiseStep(s2, t, a);
      RunsOneMore(s, [begin] + [go], go);
      steps := [begin] + [go] + [go];
      assert Apply(s2, go).threads == s.threads[t := FailCount(a)];
    }
  }

  lemma OneFailure(s: Registry, t: Tid, a: Addr) returns (steps: seq<Step>)
    requires NoGuards(s) && t !in s.threads
    ensures Runs(s, steps) && ProbesRest(steps) && End(s, steps) == Struck(s, t, a)
  {
    hide Runs, End, Apply, Enabled, CountFailure;
    steps := ReachesCount(s, t, a);
    var s1 := End(s, steps);
    CountStep(s1, t, a);
    RunsOneMore(s, steps, Go(t, 0));
    steps := steps + [Go(t, 0)];
    var entry := CountFailure(s1.entries[a]).0;
    assert s1.entries[a := entry] == s.entries[a := entry];
    assert s.threads[t := FailCount(a)] - {t} == s.threads;
    assert s.threads[t := FailCount(a)][t := Won(a)] == s.threads[t := Won(a)];
  }

  lemma StruckThrice(s: Registry, t: Tid, a: Addr)
    requires a in s.entries ==> s.entries[a].failures == 0 && s.entries[a].status == Healthy
    ensures var slot := if a in s.entries then s.entries[a].slot else None;
            && Struck(s, t, a) == s.(entries := s.entries[a := Entry(1, Healthy, slot)], tracked := true)
            && Struck(Struck(s, t, a), t, a) == s.(entries := s.entries[a := Entry(2, Healthy, slot)], tracked := true)
            && Struck(Struck(Struck(s, t, a), t, a), t, a)
               == s.(entries := s.entries[a := Entry(3, Probing, slot)], tracked := true,
                     threads := s.threads[t := Won(a)])
  {
    var slot := if a in s.entries then s.entries[a].slot else None;
    var twice, ejected := Entry(2, Healthy, slot), Entry(3, Probing, slot);
    assert s.entries[a := Entry(1, Healthy, slot)][a := twice] == s.entries[a := twice];
    assert s.entries[a := twice][a := ejected] == s.entries[a := ejected];
  }

  /** Three failures eject a backend that had none, and the third caller wins. */
  lemma Ejected(s: Registry, t: Tid, a: Addr) returns (steps: seq<Step>)
    requires NoGuards(s) && t !in s.threads
    requires a in s.entries ==> s.entries[a].failures == 0 && s.entries[a].status == Healthy
    ensures Runs(s, steps) && ProbesRest(steps)
    ensures var slot := if a in s.entries then s.entries[a].slot else None;
            End(s, steps) == s.(entries := s.entries[a := Entry(3, Probing, slot)], tracked := true,
                                threads := s.threads[t := Won(a)])
  {
    StruckThrice(s, t, a);
    var s1 := Struck(s, t, a);
    var s2 := Struck(s1, t, a);
    hide Runs, End, Struck;
    var first := OneFailure(s, t, a);
    var second := OneFailure(s1, t, a);
    var third := OneFailure(s2, t, a);
    RunsConcat(s, first, second);
    RunsConcat(s, first + second, third);
    steps := first + second + third;
  }

  lemma FindSteps(s: Registry, t: Tid, a: Addr)
    requires NoGuards(s) && t !in s.threads && s.tracked && Probed(s, a)
    ensures var s1 := s.(threads := s.threads[t := SuccFind(a)]);
            && Enabled(s, Begin(t, Success(a))) && Apply(s, Begin(t, Success(a))) == s1
            && Enabled(s1, Go(t, 0)) && Apply(s1, Go(t, 0)) == s.(threads := s.threads[t := SuccLoadStatus(a)])
  {
    assert s.threads[t := SuccFind(a)][t := SuccLoadStatus(a)] == s.threads[t := SuccLoadStatus(a)];
  }

  lemma LoadStep(s: Registry, t: Tid, a: Addr)
    requires s.shards > 0 && t in s.threads && s.threads[t] == SuccLoadStatus(a) && Probed(s, a)
    ensures Enabled(s, Go(t, 0)) && Apply(s, Go(t, 0)) == s.(threads := s.threads[t := SuccZero(a)])
  {}

  lemma ZeroStep(s: Registry, t: Tid, a: Addr)
    requires s.shards > 0 && t in s.threads && s.threads[t] == SuccZero(a) && a in s.entries
    ensures Enabled(s, Go(t, 0))
    ensures Apply(s, Go(t, 0)) == s.(entries := s.entries[a := s.entries[a].(failures := 0)],
                                     threads := s.threads[t := SuccHeal(a)])
  {}

  /** A success for an ejected backend finds its entry, zeroes the count and heals it. */
  lemma Healed(s: Registry, t: Tid, a: Addr) returns (steps: seq<Step>)
    requires NoGuards(s) && t !in s.threads && s.tracked && Probed(s, a)
    ensures Runs(s, steps) && ProbesRest(steps)
    ensures End(s, steps) == s.(entries := s.entries[a := s.entries[a].(failures := 0, status := Healthy)])
  {
    var begin, go := Begin(t, Success(a)), Go(t, 0);
    hide Runs, End, Apply, Enabled;
    FindSteps(s, t, a);
    RunsOne(s, begin);
    RunsOneMore(s, [begin], go);
    steps := [begin] + [go];
    LoadStep(End(s, steps), t, a);
    RunsOneMore(s, steps, go);
    steps := steps + [go];
    ZeroStep(End(s, steps), t, a);
    RunsOneMore(s, steps, go);
    steps := steps + [go];
    HealStep(End(s, steps), t, a);
    RunsOneMore(s, steps, go);
    steps := steps + [go];
    hide NoGuards;
    assert End(s, steps).threads == s.threads;
    assert End(s, steps).entries == s.entries[a := s.entries[a].(failures := 0, status := Healthy)];
  }

  lemma HealStep(s: Registry, t: Tid, a: Addr)
    requires s.shards > 0 && t in s.threads && s.threads[t] == SuccHeal(a) && a in s.entries
    ensures Enabled(s, Go(t, 0))
    ensures Apply(s, Go(t, 0))
         == s.(entries := s.entries[a := s.entries[a].(status := Healthy)], threads := s.threads - {t})
  {}

  lemma ProbeSteps(s: Registry, p: ProbeId)
    requires NoGuards(s) && p in s.probes && s.probes[p].at == Asleep(true) && Probed(s, s.probes[p].a)
    ensures var (go, probe) := (ProbeGo(p, true), s.probes[p]);
            var s1 := s.(probes := s.probes[p := probe.(at := Connecting)]);
            var s2 := s.(probes := s.probes[p := probe.(at := Connected)]);
            var s3 := s.(probes := s.probes[p := probe.(at := Zeroing)]);
            && Enabled(s, go) && Apply(s, go) == s1
            && Enabled(s1, go) && Apply(s1, go) == s2
            && Enabled(s2, go) && Apply(s2, go) == s3
  {
    var probe := s.probes[p];
    var connected := probe.(at := Connected);
    assert s.probes[p := probe.(at := Connecting)][p := connected] == s.probes[p := connected];
    assert s.probes[p := probe.(at := Connected)][p := probe.(at := Zeroing)] == s.probes[p := probe.(at := Zeroing)];
  }

  lemma ProbeHealSteps(s: Registry, p: ProbeId)
    requires s.shards > 0 && p in s.probes && s.probes[p].at == Zeroing && Probed(s, s.probes[p].a)
    ensures var (go, probe, a) := (ProbeGo(p, true), s.probes[p], s.probes[p].a);
            var s1 := s.(entries := s.entries[a := s.entries[a].(failures := 0)],
                         probes := s.probes[p := probe.(at := Healing)]);
            && Enabled(s, go) && Apply(s, go) == s1
            && Enabled(s1, go)
            && Apply(s1, go) == s.(entries := s.entries[a := s.entries[a].(failures := 0, status := Healthy)],
                                   probes := s.probes[p := probe.(at := Finished)])
  {
    var (probe, a) := (s.probes[p], s.probes[p].a);
    assert s.probes[p := probe.(at := Healing)][p := probe.(at := Finished)] == s.probes[p := probe.(at := Finished)];
    assert s.entries[a := s.entries[a].(failures := 0)][a := s.entries[a].(failures := 0, status := Healthy)]
        == s.entries[a := s.entries[a].(failures := 0, status := Healthy)];
  }

  /** A probe finds its backend ejected, connects, and heals it. */
  lemma Recovered(s: Registry, p: ProbeId) returns (steps: seq<Step>)
    requires NoGuards(s) && p in s.probes && s.probes[p].at == Asleep(true)
    requires Probed(s, s.probes[p].a)
    ensures Runs(s, steps)
    ensures var a := s.probes[p].a;
            End(s, steps) == s.(entries := s.entries[a := s.entries[a].(failures := 0, status := Healthy)],
                                probes := s.probes[p := s.probes[p].(at := Finished)])
  {
    var go := ProbeGo(p, true);
    var s3 := s.(probes := s.probes[p := s.probes[p].(at := Zeroing)]);
    hide Runs, End, Apply, Enabled;
    ProbeSteps(s, p);
    ProbeHealSteps(s3, p);
    RunsOne(s, go);
    RunsOneMore(s, [go], go);
    RunsOneMore(s, [go] + [go], go);
    RunsOneMore(s, [go] + [go] + [go], go);
    RunsOneMore(s, [go] + [go] + [go] + [go], go);
    steps := [go] + [go] + [go] + [go] + [go];
    assert s3.probes[p := s3.probes[p].(at := Finished)] == s.probes[p := s.probes[p].(at := Finished)];
  }

  // ----- an ejection up to its winner's spawn -----

  const EJECTED := Registry(1, map[0 := Entry(3, Probing, None)], true, map[0 := Spawned(0, 0)],
                            map[0 := Probe(0, Asleep(true), false)])

  lemma EjectsAndSpawns() returns (steps: seq<Step>)
    ensures Runs(NewRegistry(1), steps) && ProbesRest(steps) && End(NewRegistry(1), steps) == EJECTED
  {
    var s0 := NewRegistry(1);
    assert NoGuards(s0);
    hide Runs, End, Apply, Enabled;
    steps := Ejected(s0, 0, 0);
    var s1 := End(s0, steps);
    SpawnStep(s1, 0, 0, 0);
    RunsOneMore(s0, steps, Go(0, 0));
    steps := steps + [Go(0, 0)];
  }

  // ----- two probes of one address -----

  /** The spawned probe registered and asleep, its backend healed by a request. */
  const HEALED := Registry(1, map[0 := Entry(0, Healthy, Some(0))], true, map[],
                           map[0 := Probe(0, Asleep(true), false)])

  lemma RegistersAndHeals() returns (steps: seq<Step>)
    ensures Runs(EJECTED, steps) && ProbesRest(steps) && End(EJECTED, steps) == HEALED
  {
    var s1 := Left(Registered(EJECTED, 0, 0), 0);
    var probes := map[0 := Probe(0, Asleep(true), false)];
    assert s1 == Registry(1, map[0 := Entry(3, Probing, Some(0))], true, map[], probes);
    assert NoGuards(EJECTED);
    RegisterStep(EJECTED, 0, 0, 0);
    hide Runs, End, Apply, Enabled;
    RunsOne(EJECTED, Go(0, 0));
    var more := Healed(s1, 1, 0);
    RunsConcat(EJECTED, [Go(0, 0)], more);
    steps := [Go(0, 0)] + more;
  }

  lemma EjectsAgain() returns (steps: seq<Step>)
    ensures Runs(HEALED, steps) && ProbesRest(steps)
    ensures End(HEALED, steps)
         == Registry(1, map[0 := Entry(3, Probing, Some(0))], true, map[1 := Spawned(0, 1)],
                     map[0 := Probe(0, Asleep(true), false), 1 := Probe(0, Asleep(true), false)])
  {
    assert NoGuards(HEALED);
    hide Runs, End, Apply, Enabled;
    steps := Ejected(HEALED, 1, 0);
    var s1 := End(HEALED, steps);
    SpawnStep(s1, 1, 0, 1);
    RunsOneMore(HEALED, steps, Go(1, 1));
    steps := steps + [Go(1, 1)];
  }

  /**
   At most one un-aborted probe per address does not hold at every point: a backend
   healed by a request and ejected again has its new probe running beside the one
   in the slot until the winner registers it. No probe has moved yet.
   */
  lemma TwoProbesOverlap() returns (steps: seq<Step>)
    ensures Runs(NewRegistry(1), steps) && AllTimely(NewRegistry(1), steps)
    ensures var s := End(NewRegistry(1), steps); RunningAt(s, 0, 0) && RunningAt(s, 1, 0) && !OneRuns(s, 0)
  {
    var s0 := NewRegistry(1);
    hide Runs, End, Apply, Enabled, AllTimely;
    var first := EjectsAndSpawns();
    var second := RegistersAndHeals();
    var third := EjectsAgain();
    RunsConcat(s0, first, second);
    RunsConcat(s0, first + second, third);
    steps := first + second + third;
    RestingIsTimely(s0, steps);
    var s := End(s0, steps);
    assert RunningAt(s, 0, 0) && RunningAt(s, 1, 0);
  }

  // ----- a check before the registration -----

  /** The spawned probe has healed the backend and ended; its winner still holds it. */
  const CHECKED := Registry(1, map[0 := Entry(0, Healthy, None)], true, map[0 := Spawned(0, 0)],
                            map[0 := Probe(0, Finished, false)])

  lemma ChecksEarly() returns (steps: seq<Step>)
    ensures Runs(EJECTED, steps) && End(EJECTED, steps) == CHECKED
  {
    assert NoGuards(EJECTED);
    hide Runs, End;
    steps := Recovered(EJECTED, 0);
  }

  /** The second winner has spawned its own. */
  const RESPAWNED := Registry(1, map[0 := Entry(3, Probing, None)], true, map[0 := Spawned(0, 0), 1 := Spawned(0, 1)],
                              map[0 := Probe(0, Finished, false), 1 := Probe(0, Asleep(true), false)])

  lemma EjectsAndRespawns() returns (steps: seq<Step>)
    ensures Runs(CHECKED, steps) && End(CHECKED, steps) == RESPAWNED
  {
    assert NoGuards(CHECKED);
    hide Runs, End, Apply, Enabled;
    steps := Ejected(CHECKED, 1, 0);
    var s1 := End(CHECKED, steps);
    SpawnStep(s1, 1, 0, 1);
    RunsOneMore(CHECKED, steps, Go(1, 1));
    steps := steps + [Go(1, 1)];
  }

  /** It has registered it too, and the first is about to register over it. */
  const CROSSED := Registry(1, map[0 := Entry(3, Probing, Some(1))], true, map[0 := Spawned(0, 0)],
                            map[0 := Probe(0, Finished, false), 1 := Probe(0, Asleep(true), false)])

  lemma Registers()
    ensures Enabled(RESPAWNED, Go(1, 0)) && Apply(RESPAWNED, Go(1, 0)) == CROSSED
  {
    assert NoGuards(RESPAWNED);
    hide Apply, Enabled;
    RegisterStep(RESPAWNED, 1, 0, 1);
    FirstRegistered(RESPAWNED, 1, 0, 1);
    hide NoGuards, Registered;
    assert RESPAWNED.threads - {1} == CROSSED.threads;
  }

  /** Into an empty slot: nothing to abort. */
  lemma FirstRegistered(s: Registry, t: Tid, a: Addr, p: ProbeId)
    requires a in s.entries && p in s.probes && s.entries[a].slot == None
    ensures Left(Registered(s, a, p), t)
         == s.(entries := s.entries[a := s.entries[a].(slot := Some(p))], threads := s.threads - {t})
  {}

  lemma RegistersOver()
    ensures Enabled(CROSSED, Go(0, 0)) && Strands(CROSSED, Go(0, 0))
    ensures var s := Apply(CROSSED, Go(0, 0));
            s.threads == map[] && Probed(s, 0) && forall p :: !Running(s, p)
  {
    assert NoGuards(CROSSED);
    RegisterStep(CROSSED, 0, 0, 0);
  }

  /**
   Without that order the promise fails: one winner stalls between spawning and
   registering while its probe heals the backend, which is ejected anew, and then
   registers the finished probe over the new one.
   */
  lemma EarlyCheckStrands() returns (steps: seq<Step>)
    ensures Runs(NewRegistry(1), steps) && !AlwaysAttended(NewRegistry(1), steps)
    ensures var s := End(NewRegistry(1), steps);
            && s.threads == map[]
            && Probed(s, 0)
            && forall p :: !Running(s, p)
  {
    var s0 := NewRegistry(1);
    hide Runs, End, Apply, Enabled, AlwaysAttended, Strands;
    var first := EjectsAndSpawns();
    var second := ChecksEarly();
    var third := EjectsAndRespawns();
    RunsConcat(s0, first, second);
    RunsConcat(s0, first + second, third);
    steps := first + second + third;
    Registers();
    RunsOneMore(s0, steps, Go(1, 0));
    steps := steps + [Go(1, 0)];
    RegistersOver();
    RunsOneMore(s0, steps, Go(0, 0));
    steps := steps + [Go(0, 0)];
    EndUnattended(s0, steps);
  }

  lemma EndUnattended(s: Registry, steps: seq<Step>)
    requires s == NewRegistry(1) && Runs(s, steps)
    requires var e := End(s, steps); e.threads == map[] && Probed(e, 0) && forall p :: !Running(e, p)
    ensures !AlwaysAttended(s, steps)
  {
    NewIsSafe(1);
    RunAttendsIff(s, steps);
    var e := End(s, steps);
    assert forall t :: !Attends(e, t, 0);
    hide Runs, End, AlwaysAttended;
    assert !AttendedAt(e, 0);
  }
}
