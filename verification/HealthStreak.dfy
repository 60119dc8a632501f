/**
 Which failures eject a backend in src/proxy/health.rs: three in a row. Whole
 operations one after another leave it reported unhealthy exactly when at least
 three failures came since its last success and since it was last without a route.
 */
module HealthStreak {
  import opened HealthMachine
  import opened HealthPrune

  /** The entry a failure finds or makes. */
  function Before(s: Registry, a: Addr): Entry {
    if a in s.entries then s.entries[a] else FRESH
  }

  /** Of the entries of `from` only that of `a` has moved. */
  ghost predicate OnlyMoved(from: Registry, s: Registry, a: Addr) {
    && (forall b :: b != a ==> (b in s.entries <==> b in from.entries))
    && (forall b :: b != a && b in from.entries ==> s.entries[b] == from.entries[b])
  }

  /** The entry of `a` has one failure more, and is being probed if that makes three. */
  ghost predicate OneMore(from: Registry, s: Registry, a: Addr) {
    && a in s.entries && OnlyMoved(from, s, a) && s.tracked
    && s.entries[a].failures == Before(from, a).failures + 1
    && s.entries[a].status == if s.entries[a].failures < 3 then Before(from, a).status else Probing
  }

  /** Where a failure begun at `from` by `t` stands, nobody else having moved. */
  ghost predicate Failing(from: Registry, s: Registry, t: Tid, a: Addr) {
    s.shards == from.shards &&
    if t !in s.threads then OneMore(from, s, a)
    else
      match s.threads[t]
      case FailLoadFlag(b) => b == a && s.entries == from.entries[a := Before(from, a)]
      case FailRaiseFlag(b) => b == a && s.entries == from.entries[a := Before(from, a)]
      case FailCount(b) => b == a && s.entries == from.entries[a := Before(from, a)] && s.tracked
      case Won(b) => b == a && OneMore(from, s, a)
      case Spawned(b, _) => b == a && OneMore(from, s, a)
      case _ => false
  }

  lemma GoFails(from: Registry, s: Registry, t: Tid, a: Addr, task: ProbeId)
    requires Failing(from, s, t, a) && Enabled(s, Go(t, task)) && Before(from, a).status != Unhealthy
    requires Before(from, a).status == Probing ==> Before(from, a).failures >= 3
    ensures Failing(from, Went(s, t, task), t, a)
  {
    hide NoWriter, NoReader, ShardOf;
  }

  lemma {:induction false} GoesFail(from: Registry, s: Registry, t: Tid, a: Addr, gos: seq<Step>)
    requires Failing(from, s, t, a) && Runs(s, gos) && AllGo(gos, t) && Before(from, a).status != Unhealthy
    requires Before(from, a).status == Probing ==> Before(from, a).failures >= 3
    ensures Failing(from, End(s, gos), t, a)
    decreases |gos|
  {
    hide Went, Failing;
    if gos != [] {
      GoFails(from, s, t, a, gos[0].task);
      GoesFail(from, Apply(s, gos[0]), t, a, gos[1..]);
    }
  }

  /** The entry of `a`, if any, has no failure and is healthy; the others are as they were. */
  ghost predicate Reset(from: Registry, s: Registry, a: Addr) {
    && OnlyMoved(from, s, a) && s.tracked == from.tracked && (a in s.entries <==> a in from.entries)
    && (a in s.entries && s.tracked ==> s.entries[a] == from.entries[a].(failures := 0, status := Healthy))
  }

  ghost predicate Succeeding(from: Registry, s: Registry, t: Tid, a: Addr) {
    s.shards == from.shards &&
    if t !in s.threads then Reset(from, s, a)
    else
      && s.tracked && from.tracked
      && match s.threads[t]
         case SuccFind(b) => b == a && s.entries == from.entries
         case SuccLoadStatus(b) => b == a && a in s.entries && s.entries == from.entries
         case SuccLoadCount(b) =>
           b == a && a in s.entries && s.entries == from.entries && s.entries[a].status == Healthy
         case SuccZero(b) => b == a && a in s.entries && s.entries == from.entries
         case SuccHeal(b) =>
           && b == a && a in from.entries
           && s.entries == from.entries[a := from.entries[a].(failures := 0)]
         case _ => false
  }

  lemma GoSucceeds(from: Registry, s: Registry, t: Tid, a: Addr, task: ProbeId)
    requires Succeeding(from, s, t, a) && Enabled(s, Go(t, task))
    ensures Succeeding(from, Went(s, t, task), t, a)
  {
    hide NoWriter, NoReader, ShardOf;
  }

  lemma {:induction false} GoesSucceed(from: Registry, s: Registry, t: Tid, a: Addr, gos: seq<Step>)
    requires Succeeding(from, s, t, a) && Runs(s, gos) && AllGo(gos, t)
    ensures Succeeding(from, End(s, gos), t, a)
    decreases |gos|
  {
    hide Went, Succeeding;
    if gos != [] {
      GoSucceeds(from, s, t, a, gos[0].task);
      GoesSucceed(from, Apply(s, gos[0]), t, a, gos[1..]);
    }
  }

  // ----- one whole operation -----

  /** An operation of `t` that runs alone from its begin to its end, its winner's spawn and registration included. */
  datatype Turn = Turn(t: Tid, op: Op, gos: seq<Step>)

  ghost predicate Takes(s: Registry, turn: Turn) {
    && AllGo(turn.gos, turn.t) && Runs(s, [Begin(turn.t, turn.op)] + turn.gos)
    && turn.t !in End(s, [Begin(turn.t, turn.op)] + turn.gos).threads
  }

  ghost function Taken(s: Registry, turn: Turn): Registry
    requires Takes(s, turn)
  {
    End(s, [Begin(turn.t, turn.op)] + turn.gos)
  }

  lemma BegunFirst(s: Registry, turn: Turn)
    requires Takes(s, turn)
    ensures Enabled(s, Begin(turn.t, turn.op)) && Runs(Begun(s, turn.t, turn.op), turn.gos)
    ensures Taken(s, turn) == End(Begun(s, turn.t, turn.op), turn.gos)
  {
    hide Enabled, Begun;
    assert ([Begin(turn.t, turn.op)] + turn.gos)[1..] == turn.gos;
  }

  /** The entry of `a` shows `n` failures in a row, at rest. */
  ghost predicate Shows(s: Registry, a: Addr, n: nat) {
    && (s.entries != map[] ==> s.tracked)
    && n == Before(s, a).failures
    && Before(s, a).status == if n < 3 then Healthy else Probing
  }

  /** The failures in a row after one more operation. */
  function Counted(n: nat, op: Op, a: Addr): nat {
    match op
    case Failure(b) => if b == a then n + 1 else n
    case Success(b) => if b == a then 0 else n
    case Prune(routed) => if a in routed then n else 0
  }

  lemma FailureCounts(s: Registry, turn: Turn, b: Addr, m: nat)
    requires Takes(s, turn) && turn.op == Failure(b) && Shows(s, b, m)
    ensures OneMore(s, Taken(s, turn), b)
  {
    BegunFirst(s, turn);
    var s1 := Begun(s, turn.t, turn.op);
    assert Failing(s, s1, turn.t, b) by {
      hide NoWriter, NoReader, ShardOf;
      assert b in s.entries ==> s.entries[b := s.entries[b]] == s.entries;
    }
    hide Runs, End, Begun, Enabled, Takes;
    GoesFail(s, s1, turn.t, b, turn.gos);
  }

  lemma SuccessCounts(s: Registry, turn: Turn, b: Addr)
    requires Takes(s, turn) && turn.op == Success(b) && (s.entries != map[] ==> s.tracked)
    ensures Reset(s, Taken(s, turn), b)
  {
    BegunFirst(s, turn);
    var s1 := Begun(s, turn.t, turn.op);
    if s.tracked {
      assert Succeeding(s, s1, turn.t, b) by { hide NoWriter, NoReader, ShardOf; }
      hide Runs, End, Begun, Enabled, Takes;
      GoesSucceed(s, s1, turn.t, b, turn.gos);
    } else {
      StuckAlone(s, turn);
    }
  }

  /** With the flag down a success or a prune does nothing. */
  lemma StuckAlone(s: Registry, turn: Turn)
    requires Takes(s, turn) && !s.tracked && !turn.op.Failure?
    ensures Taken(s, turn) == s
  {
    BegunFirst(s, turn);
    hide NoWriter, NoReader;
    assert Begun(s, turn.t, turn.op) == s && turn.t !in s.threads;
    assert Runs(s, turn.gos);
  }

  lemma PruneCounts(s: Registry, turn: Turn)
    requires Takes(s, turn) && turn.op.Prune? && (s.entries != map[] ==> s.tracked)
    ensures var s' := Taken(s, turn);
            && s'.entries == (map a | a in s.entries && a in turn.op.routed :: s.entries[a])
            && (s'.entries != map[] ==> s'.tracked)
  {
    if s.tracked {
      hide Runs, End;
      PruneAlone(s, turn.t, turn.op.routed, turn.gos);
    } else {
      StuckAlone(s, turn);
    }
  }

  lemma TurnCounts(s: Registry, turn: Turn, a: Addr, n: nat)
    requires Takes(s, turn) && Shows(s, a, n)
    requires forall b :: b in s.entries ==> Shows(s, b, s.entries[b].failures)
    ensures Shows(Taken(s, turn), a, Counted(n, turn.op, a))
  {
    hide Takes, Taken;
    var s' := Taken(s, turn);
    match turn.op
    case Failure(b) =>
      assert Shows(s, b, Before(s, b).failures);
      FailureCounts(s, turn, b, Before(s, b).failures);
    case Success(b) =>
      SuccessCounts(s, turn, b);
      assert s'.entries != map[] ==> s.entries != map[] by {
        if c :| c in s'.entries {
          assert c in s.entries;
        }
      }
    case Prune(routed) =>
      PruneCounts(s, turn);
  }

  // ----- any number of them -----

  ghost predicate AllTake(s: Registry, turns: seq<Turn>)
    decreases |turns|
  {
    turns == [] || (Takes(s, turns[0]) && AllTake(Taken(s, turns[0]), turns[1..]))
  }

  ghost function AfterAll(s: Registry, turns: seq<Turn>): Registry
    requires AllTake(s, turns)
    decreases |turns|
  {
    if turns == [] then s else AfterAll(Taken(s, turns[0]), turns[1..])
  }

  /** The failures of `a` since its last success and since it was last without a route. */
  function Streak(turns: seq<Turn>, a: Addr): nat {
    if turns == [] then 0 else Counted(Streak(turns[..|turns| - 1], a), turns[|turns| - 1].op, a)
  }

  function StreakFrom(n: nat, turns: seq<Turn>, a: Addr): nat
    decreases |turns|
  {
    if turns == [] then n else StreakFrom(Counted(n, turns[0].op, a), turns[1..], a)
  }

  lemma {:induction false} StreakFromEnd(n: nat, turns: seq<Turn>, last: Turn, a: Addr)
    ensures StreakFrom(n, turns + [last], a) == Counted(StreakFrom(n, turns, a), last.op, a)
    decreases |turns|
  {
    if turns == [] {
      assert (turns + [last])[1..] == [];
    } else {
      assert (turns + [last])[1..] == turns[1..] + [last];
      StreakFromEnd(Counted(n, turns[0].op, a), turns[1..], last, a);
    }
  }

  lemma {:induction false} StreaksAgree(turns: seq<Turn>, a: Addr)
    ensures StreakFrom(0, turns, a) == Streak(turns, a)
    decreases |turns|
  {
    if turns != [] {
      var front, last := turns[..|turns| - 1], turns[|turns| - 1];
      StreaksAgree(front, a);
      StreakFromEnd(0, front, last, a);
      assert turns == front + [last];
    }
  }

  ghost predicate AllShow(s: Registry) {
    forall a :: Shows(s, a, Before(s, a).failures)
  }

  lemma {:induction false} TurnsCount(s: Registry, turns: seq<Turn>, a: Addr, n: nat)
    requires AllTake(s, turns) && AllShow(s) && Shows(s, a, n)
    ensures Shows(AfterAll(s, turns), a, StreakFrom(n, turns, a))
    decreases |turns|
  {
    if turns != [] {
      hide Takes, Taken, Shows, Counted;
      var s' := Taken(s, turns[0]);
      AllShowStays(s, turns[0]);
      TurnCountsOne(s, turns[0], a, n);
      TurnsCount(s', turns[1..], a, Counted(n, turns[0].op, a));
    }
  }

  lemma TurnCountsOne(s: Registry, turn: Turn, a: Addr, n: nat)
    requires Takes(s, turn) && AllShow(s) && Shows(s, a, n)
    ensures Shows(Taken(s, turn), a, Counted(n, turn.op, a))
  {
    assert forall b :: b in s.entries ==> Shows(s, b, Before(s, b).failures);
    hide Takes, Taken;
    TurnCounts(s, turn, a, n);
  }

  lemma AllShowStays(s: Registry, turn: Turn)
    requires Takes(s, turn) && AllShow(s)
    ensures AllShow(Taken(s, turn))
  {
    hide Takes, Taken;
    forall a
      ensures Shows(Taken(s, turn), a, Before(Taken(s, turn), a).failures)
    {
      TurnCountsOne(s, turn, a, Before(s, a).failures);
    }
  }

  /** A success of the backend, or a prune that does not route it. */
  predicate Resets(op: Op, a: Addr) {
    op == Success(a) || (op.Prune? && a !in op.routed)
  }

  function FailuresIn(turns: seq<Turn>, a: Addr): nat {
    if turns == [] then 0
    else FailuresIn(turns[..|turns| - 1], a) + if turns[|turns| - 1].op == Failure(a) then 1 else 0
  }

  /** The streak is the number of failures behind the last reset. */
  lemma {:induction false} StreakIs(turns: seq<Turn>, a: Addr) returns (k: nat)
    ensures k <= |turns| && (k > 0 ==> Resets(turns[k - 1].op, a))
    ensures forall i :: k <= i < |turns| ==> !Resets(turns[i].op, a)
    ensures Streak(turns, a) == FailuresIn(turns[k..], a)
    decreases |turns|
  {
    if turns == [] {
      k := 0;
    } else {
      var n := |turns| - 1;
      if Resets(turns[n].op, a) {
        k := n + 1;
      } else {
        k := StreakIs(turns[..n], a);
        assert turns[k..][..|turns[k..]| - 1] == turns[..n][k..];
      }
    }
  }

  /**
   After any operations one after another, of any callers on any addresses, a backend is
   reported unhealthy if and only if at least three failures in a row stand against it.
   */
  lemma EjectedIffThreeInARow(shards: nat, turns: seq<Turn>, a: Addr)
    requires shards > 0 && AllTake(NewRegistry(shards), turns)
    ensures IsHealthy(AfterAll(NewRegistry(shards), turns), a) <==> Streak(turns, a) < 3
  {
    hide AllTake, AfterAll;
    var s := NewRegistry(shards);
    assert AllShow(s);
    TurnsCount(s, turns, a, 0);
    StreaksAgree(turns, a);
  }
}
