/**
 Any number of requests racing on one cell with loads and compare-and-swaps
 (`consume` in src/rate_limit.rs): every outcome is that of the requests taken
 one at a time in the order their swaps succeeded, and no window of it grants
 more than the burst plus the rate over the time that passed on the stamp.
 */
module BucketRaces {
  import opened TokenBucket
  import opened Words

  // ----- requests one at a time -----

  /** The cell after requests at clock reads `ts`, and what each was told. */
  function OneByOne(cell: U64, ts: seq<nat>, limits: Limits): (r: (U64, seq<bool>))
    ensures |r.1| == |ts|
    decreases |ts|
  {
    if ts == [] then (cell, [])
    else
      var (next, granted) := Touch(cell, ts[0] % TWO_32, limits);
      var (end, more) := OneByOne(next, ts[1..], limits);
      (end, [granted] + more)
  }

  lemma {:induction false} Split(cell: U64, a: seq<nat>, b: seq<nat>, limits: Limits)
    ensures var (mid, fa) := OneByOne(cell, a, limits);
            var (end, fb) := OneByOne(mid, b, limits);
            OneByOne(cell, a + b, limits) == (end, fa + fb)
    decreases |a|
  {
    hide Touch;
    if a == [] {
      assert a + b == b;
      var fb := OneByOne(cell, b, limits).1;
      assert [] + fb == fb;
    } else {
      var (next, granted) := Touch(cell, a[0] % TWO_32, limits);
      Split(next, a[1..], b, limits);
      assert (a + b)[1..] == a[1..] + b;
      var (mid, fa) := OneByOne(next, a[1..], limits);
      var (end, fb) := OneByOne(mid, b, limits);
      assert [granted] + (fa + fb) == ([granted] + fa) + fb;
    }
  }

  lemma OneMore(cell: U64, ts: seq<nat>, t: nat, limits: Limits)
    ensures var (mid, flags) := OneByOne(cell, ts, limits);
            var (next, granted) := Touch(mid, t % TWO_32, limits);
            OneByOne(cell, ts + [t], limits) == (next, flags + [granted])
  {
    hide Touch;
    var mid := OneByOne(cell, ts, limits).0;
    Split(cell, ts, [t], limits);
    var (next, granted) := Touch(mid, t % TWO_32, limits);
    assert [t][1..] == [];
    assert OneByOne(next, [], limits) == (next, []);
    assert [granted] + [] == [granted];
  }

  function Grants(flags: seq<bool>): nat {
    if flags == [] then 0 else (if flags[0] then 1 else 0) + Grants(flags[1..])
  }

  /** Time one request moves the stamp on by. */
  function Moved(cell: U64, t: nat): nat {
    var age := Elapsed(t % TWO_32, Unpack(cell).0);
    if age.Some? then age.value else 0
  }

  /** Time the cell's stamp moves on by over a run, a backwards clock counting as none. */
  function StampTime(cell: U64, ts: seq<nat>, limits: Limits): nat
    decreases |ts|
  {
    if ts == [] then 0
    else
      Moved(cell, ts[0]) + StampTime(Touch(cell, ts[0] % TWO_32, limits).0, ts[1..], limits)
  }

  lemma TouchPays(cell: U64, t: nat, limits: Limits)
    requires Unpack(cell).1 <= limits.burst
    ensures var (next, granted) := Touch(cell, t % TWO_32, limits);
            var dt := Moved(cell, t);
            && (if granted then COST else 0) + Unpack(next).1 <= Unpack(cell).1 + limits.rate * dt
            && Unpack(next).1 <= limits.burst
            && Unpack(next).0 == (Unpack(cell).0 + dt) % TWO_32
  {
    hide Refill, Pack, Unpack, Elapsed;
    var (last, tokens) := Unpack(cell);
    var now: U32 := t % TWO_32;
    var age := Elapsed(now, last);
    var stamp: U32, filled: U32 := last, tokens;
    if age.Some? {
      stamp, filled := now, Refill(tokens, age.value, limits);
      WrappedSum(now, last);
      RefillBound(tokens, age.value, limits);
    }
    PackRoundTrip(stamp, if filled >= COST then filled - COST else filled, cell);
  }

  lemma RefillBound(tokens: U32, dt: U32, limits: Limits)
    ensures Refill(tokens, dt, limits) <= tokens + limits.rate * dt
    ensures Refill(tokens, dt, limits) <= limits.burst
  {}

  lemma WrappedSum(now: U32, last: U32)
    ensures Elapsed(now, last).Some? ==> (last + Elapsed(now, last).value) % TWO_32 == now
  {}

  /** No run grants more than the tokens at hand plus the refill over its stamp time. */
  lemma {:induction false} WindowBound(cell: U64, ts: seq<nat>, limits: Limits)
    requires Unpack(cell).1 <= limits.burst
    ensures var (end, flags) := OneByOne(cell, ts, limits);
            && COST * Grants(flags) + Unpack(end).1 <= Unpack(cell).1 + limits.rate * StampTime(cell, ts, limits)
            && Unpack(end).1 <= limits.burst
            && Unpack(end).0 == (Unpack(cell).0 + StampTime(cell, ts, limits)) % TWO_32
    decreases |ts|
  {
    hide Touch, Moved, Unpack;
    if ts == [] {
      StampInRange(cell);
    } else {
      var (next, granted) := Touch(cell, ts[0] % TWO_32, limits);
      var dt := Moved(cell, ts[0]);
      TouchPays(cell, ts[0], limits);
      WindowBound(next, ts[1..], limits);
      var (end, more) := OneByOne(next, ts[1..], limits);
      assert ([granted] + more)[1..] == more;
      var later := StampTime(next, ts[1..], limits);
      Distribute(limits.rate, dt, later);
      StampAdds(Unpack(cell).0, dt, later);
    }
  }

  lemma Distribute(rate: int, x: int, y: int)
    ensures rate * (x + y) == rate * x + rate * y
  {}

  lemma StampInRange(cell: U64)
    ensures Unpack(cell).0 == Unpack(cell).0 % TWO_32
  {}

  lemma StampAdds(last: U32, dt: nat, later: nat)
    ensures ((last + dt) % TWO_32 + later) % TWO_32 == (last + dt + later) % TWO_32
  {
    var q := (last + dt) / TWO_32;
    assert last + dt + later == q * TWO_32 + ((last + dt) % TWO_32 + later);
    WholeTurns((last + dt) % TWO_32 + later, q);
  }

  // ----- requests racing -----

  /** A request between its clock read and its successful swap. */
  datatype Thread = Started(t: nat) | Loaded(t: nat, cur: U64)

  datatype Served = Served(t: nat, granted: bool)

  /** The cell, the requests in flight, and the swaps that succeeded so far. */
  datatype World = World(cell: U64, threads: map<nat, Thread>, log: seq<Served>)

  datatype Step =
    | Arrive(id: nat, t: nat)
    | Load(id: nat)
    | SwapOk(id: nat)
    | SwapFail(id: nat)

  /** A weak compare-and-swap may fail though the cell holds what it expects. */
  predicate Enabled(w: World, s: Step) {
    match s
    case Arrive(id, _) => id !in w.threads
    case Load(id) => id in w.threads && w.threads[id].Started?
    case SwapOk(id) => id in w.threads && w.threads[id].Loaded? && w.threads[id].cur == w.cell
    case SwapFail(id) => id in w.threads && w.threads[id].Loaded?
  }

  function Apply(w: World, s: Step, limits: Limits): World
    requires Enabled(w, s)
  {
    match s
    case Arrive(id, t) => w.(threads := w.threads[id := Started(t)])
    case Load(id) => w.(threads := w.threads[id := Loaded(w.threads[id].t, w.cell)])
    case SwapFail(id) => w.(threads := w.threads[id := Loaded(w.threads[id].t, w.cell)])
    case SwapOk(id) =>
      var thread := w.threads[id];
      var (next, granted) := Touch(thread.cur, thread.t % TWO_32, limits);
      World(next, w.threads - {id}, w.log + [Served(thread.t, granted)])
  }

  predicate Runs(w: World, steps: seq<Step>, limits: Limits)
    decreases |steps|
  {
    steps == [] || (Enabled(w, steps[0]) && Runs(Apply(w, steps[0], limits), steps[1..], limits))
  }

  function End(w: World, steps: seq<Step>, limits: Limits): World
    requires Runs(w, steps, limits)
    decreases |steps|
  {
    if steps == [] then w else End(Apply(w, steps[0], limits), steps[1..], limits)
  }

  function Times(log: seq<Served>): (ts: seq<nat>)
    ensures |ts| == |log|
  {
    seq(|log|, i requires 0 <= i < |log| => log[i].t)
  }

  function Flags(log: seq<Served>): (fs: seq<bool>)
    ensures |fs| == |log|
  {
    seq(|log|, i requires 0 <= i < |log| => log[i].granted)
  }

  /** The log replayed one request at a time gives the cell and every verdict in it. */
  predicate Explained(start: U64, w: World, limits: Limits) {
    OneByOne(start, Times(w.log), limits) == (w.cell, Flags(w.log))
  }

  lemma StepExplained(start: U64, w: World, s: Step, limits: Limits)
    requires Explained(start, w, limits) && Enabled(w, s)
    ensures Explained(start, Apply(w, s, limits), limits)
  {
    hide Touch, OneByOne;
    if s.SwapOk? {
      var thread := w.threads[s.id];
      var served := Served(thread.t, Touch(w.cell, thread.t % TWO_32, limits).1);
      OneMore(start, Times(w.log), thread.t, limits);
      assert Times(w.log + [served]) == Times(w.log) + [thread.t];
      assert Flags(w.log + [served]) == Flags(w.log) + [served.granted];
    }
  }

  /** Every interleaving is explained by the order of its successful swaps. */
  lemma {:induction false} RacesAreSequential(start: U64, w: World, steps: seq<Step>, limits: Limits)
    requires Explained(start, w, limits) && Runs(w, steps, limits)
    ensures Explained(start, End(w, steps, limits), limits)
    decreases |steps|
  {
    hide Explained, Apply;
    if steps != [] {
      StepExplained(start, w, steps[0], limits);
      RacesAreSequential(start, Apply(w, steps[0], limits), steps[1..], limits);
    }
  }

  /**
   In every interleaving, the swaps numbered i to j grant at most the burst plus
   the rate over the stamp time between them.
   */
  lemma RaceWindowBound(start: U64, steps: seq<Step>, limits: Limits, i: nat, j: nat)
    requires Unpack(start).1 <= limits.burst
    requires Runs(World(start, map[], []), steps, limits)
    requires i <= j <= |End(World(start, map[], []), steps, limits).log|
    ensures var log := End(World(start, map[], []), steps, limits).log;
            var cell := OneByOne(start, Times(log[..i]), limits).0;
            COST * Grants(Flags(log[i..j]))
            <= limits.burst + limits.rate * StampTime(cell, Times(log[i..j]), limits)
  {
    hide OneByOne, StampTime, Unpack;
    var w := World(start, map[], []);
    assert Explained(start, w, limits) by { NoRequests(start, limits); }
    RacesAreSequential(start, w, steps, limits);
    var log := End(w, steps, limits).log;
    var a, b, c := Times(log[..i]), Times(log[i..j]), Times(log[j..]);
    assert Times(log) == a + (b + c);
    Split(start, a, b + c, limits);
    WindowBound(start, a, limits);
    var cell := OneByOne(start, a, limits).0;
    Split(cell, b, c, limits);
    WindowBound(cell, b, limits);
    var (fa, fb, fc) := (OneByOne(start, a, limits).1, OneByOne(cell, b, limits).1,
                         OneByOne(OneByOne(cell, b, limits).0, c, limits).1);
    assert Flags(log) == fa + (fb + fc);
    assert Flags(log[i..j]) == fb by {
      assert forall k :: 0 <= k < j - i ==> Flags(log[i..j])[k] == Flags(log)[i + k];
    }
  }

  lemma NoRequests(start: U64, limits: Limits)
    ensures OneByOne(start, Times([]), limits) == (start, Flags([]))
  {}
}
