/**
 The limiter's whole life on a clock that does not wrap: first requests,
 requests that use a clock read some time after taking it, and the sweep that
 evicts (`check_at` and `sweep_at` in src/rate_limit.rs). The 32-bit stamps
 stand for true times exactly when sweeps come often enough for how late a
 clock read may be used.
 */
module BucketClock {
  import opened TokenBucket
  import opened Words

  type Key = nat

  /**
   The true clock, the packed cells, and per cell: the true time its stamp
   stands for, and since when no sweep has looked at it.
   */
  datatype Life = Life(clock: nat, cells: map<Key, U64>, stamps: map<Key, nat>, seen: map<Key, nat>)

  const BORN: Life := Life(0, map[], map[], map[])

  datatype Event =
    | Tick(d: nat)
    | Request(key: Key, t: nat)   // the swap, or the insert, of a request that read the clock at t
    | Sweep(key: Key, t: nat)     // the sweep that read the clock at t looks at this cell

  predicate Wf(s: Life) {
    && s.stamps.Keys == s.cells.Keys && s.seen.Keys == s.cells.Keys
    && forall k :: k in s.cells ==> Unpack(s.cells[k]).0 == s.stamps[k] % TWO_32
  }

  /**
   What the surroundings promise: a clock read is used at most `late` ms after it
   was taken, and no cell goes longer than `gap` ms from its insert, or from the
   clock read of a sweep that looked at it, to the next look.
   */
  predicate Allowed(s: Life, e: Event, gap: nat, late: nat)
    requires Wf(s)
  {
    match e
    case Tick(d) => forall k :: k in s.cells ==> s.clock + d <= s.seen[k] + gap
    case Request(_, t) => t <= s.clock <= t + late
    case Sweep(key, t) => key in s.cells && t <= s.clock <= t + late
  }

  function Max(a: nat, b: nat): nat {
    if a < b then b else a
  }

  function Apply(s: Life, e: Event, limits: Limits): (s': Life)
    requires Wf(s) && (e.Sweep? ==> e.key in s.cells)
    ensures Wf(s')
  {
    match e
    case Tick(d) => s.(clock := s.clock + d)
    case Request(key, t) =>
      if key in s.cells then
        var age := Elapsed(t % TWO_32, Unpack(s.cells[key]).0);
        TouchStamp(s.cells[key], t % TWO_32, limits);
        s.(cells := s.cells[key := Touch(s.cells[key], t % TWO_32, limits).0],
           stamps := s.stamps[key := if age.Some? then t else s.stamps[key]])
      else
        FirstTouchRefines(t, limits);
        s.(cells := s.cells[key := FirstTouch(t % TWO_32, limits).0],
           stamps := s.stamps[key := t],
           seen := s.seen[key := s.clock])
    case Sweep(key, t) =>
      if Keeps(s.cells[key], t % TWO_32, limits)
      then s.(seen := s.seen[key := Max(s.seen[key], t)])
      else s.(cells := s.cells - {key}, stamps := s.stamps - {key}, seen := s.seen - {key})
  }

  lemma TouchStamp(cell: U64, now: U32, limits: Limits)
    ensures Unpack(Touch(cell, now, limits).0).0
         == if Elapsed(now, Unpack(cell).0).Some? then now else Unpack(cell).0
  {
    var (last, tokens) := Unpack(cell);
    var age := Elapsed(now, last);
    var stamp: U32 := if age.Some? then now else last;
    var filled: U32 := if age.Some? then Refill(tokens, age.value, limits) else tokens;
    PackRoundTrip(stamp, if filled >= COST then filled - COST else filled, cell);
  }

  /** The event reads the cell's true age off its 32-bit stamp. */
  predicate Truthful(s: Life, e: Event)
    requires Wf(s)
  {
    !e.Tick? && e.key in s.cells ==> AgeExact(e.t, s.stamps[e.key])
  }

  predicate Runs(s: Life, events: seq<Event>, gap: nat, late: nat, limits: Limits)
    requires Wf(s)
    decreases |events|
  {
    events == []
    || (Allowed(s, events[0], gap, late) && Runs(Apply(s, events[0], limits), events[1..], gap, late, limits))
  }

  predicate AllTruthful(s: Life, events: seq<Event>, gap: nat, late: nat, limits: Limits)
    requires Wf(s) && Runs(s, events, gap, late, limits)
    decreases |events|
  {
    events == []
    || (Truthful(s, events[0]) && AllTruthful(Apply(s, events[0], limits), events[1..], gap, late, limits))
  }

  // ----- enough sweeps: every age is true -----

  /** Oldest a cell can be when a sweep leaves it, or when it is inserted. */
  function Leftover(late: nat): nat {
    Max(STALE_MS - 1, late)
  }

  predicate Fresh(s: Life, gap: nat, late: nat)
    requires Wf(s)
  {
    forall k :: k in s.cells ==>
      && s.stamps[k] <= s.clock <= s.seen[k] + gap
      && s.seen[k] <= s.stamps[k] + Leftover(late)
  }

  lemma FreshIsTruthful(s: Life, e: Event, gap: nat, late: nat)
    requires Wf(s) && Fresh(s, gap, late) && Allowed(s, e, gap, late)
    requires gap + Leftover(late) < TWO_31
    ensures Truthful(s, e)
  {
    hide AgeExact;
    if !e.Tick? && e.key in s.cells {
      AgeExactIff(e.t, s.stamps[e.key]);
      assert e.t < s.stamps[e.key] ==> s.stamps[e.key] - e.t <= late;
    }
  }

  lemma FreshStays(s: Life, e: Event, gap: nat, late: nat, limits: Limits)
    requires Wf(s) && Fresh(s, gap, late) && Allowed(s, e, gap, late)
    requires Truthful(s, e)
    ensures Fresh(Apply(s, e, limits), gap, late)
  {
    hide Touch, Refill;
  }

  lemma {:induction false} FreshRuns(s: Life, events: seq<Event>, gap: nat, late: nat, limits: Limits)
    requires Wf(s) && Fresh(s, gap, late) && Runs(s, events, gap, late, limits)
    requires gap + Leftover(late) < TWO_31
    ensures AllTruthful(s, events, gap, late, limits)
    decreases |events|
  {
    hide Apply, Truthful, Fresh;
    if events != [] {
      FreshIsTruthful(s, events[0], gap, late);
      FreshStays(s, events[0], gap, late, limits);
      FreshRuns(Apply(s, events[0], limits), events[1..], gap, late, limits);
    }
  }

  // ----- too few: a run that misreads one -----

  /** A request uses its clock read as late as allowed; the cell it inserts is found too old. */
  lemma LateInsertMisread(gap: nat, late: nat, limits: Limits) returns (events: seq<Event>)
    requires gap + late >= TWO_31
    ensures Runs(BORN, events, gap, late, limits) && !AllTruthful(BORN, events, gap, late, limits)
  {
    var tail := [Request(0, late + gap)];
    events := [Tick(late), Request(0, 0), Tick(gap)] + tail;
    var s1 := Apply(BORN, events[0], limits);
    var s2 := Apply(s1, events[1], limits);
    var s3 := Apply(s2, events[2], limits);
    assert s3.stamps[0] == 0 && s3.clock == late + gap;
    AgeExactIff(late + gap, 0);
    hide Apply, AgeExact, Keeps, FirstTouch;
    LastMisreads(s3, tail[0], gap, late, limits);
    Cons(s2, events[2], tail, gap, late, limits);
    Cons(s1, events[1], events[2..], gap, late, limits);
    Cons(BORN, events[0], events[1..], gap, late, limits);
  }

  /** A sweep leaves a cell one millisecond short of stale; the next look comes too late. */
  lemma LateSweepMisread(gap: nat, late: nat) returns (events: seq<Event>, limits: Limits)
    requires gap + STALE_MS - 1 >= TWO_31
    ensures Runs(BORN, events, gap, late, limits) && !AllTruthful(BORN, events, gap, late, limits)
  {
    limits := Limits(0, COST);
    var tail := [Request(0, STALE_MS - 1 + gap)];
    events := [Request(0, 0), Tick(STALE_MS - 1), Sweep(0, STALE_MS - 1), Tick(gap)] + tail;
    var s1 := Apply(BORN, events[0], limits);
    assert s1.cells[0] == 0 && s1.stamps[0] == 0 && s1.seen[0] == 0;
    var s2 := Apply(s1, events[1], limits);
    var s3 := Apply(s2, events[2], limits);
    var s4 := Apply(s3, events[3], limits);
    assert s4.stamps[0] == 0 && s4.clock == STALE_MS - 1 + gap;
    AgeExactIff(STALE_MS - 1 + gap, 0);
    hide Apply, AgeExact, Keeps, FirstTouch;
    LastMisreads(s4, tail[0], gap, late, limits);
    Cons(s3, events[3], tail, gap, late, limits);
    Cons(s2, events[2], events[3..], gap, late, limits);
    Cons(s1, events[1], events[2..], gap, late, limits);
    Cons(BORN, events[0], events[1..], gap, late, limits);
  }

  lemma LastMisreads(s: Life, e: Event, gap: nat, late: nat, limits: Limits)
    requires Wf(s) && Allowed(s, e, gap, late) && !Truthful(s, e)
    ensures Runs(s, [e], gap, late, limits) && !AllTruthful(s, [e], gap, late, limits)
  {
    hide Apply;
    assert [e][1..] == [];
  }

  lemma Cons(s: Life, e: Event, events: seq<Event>, gap: nat, late: nat, limits: Limits)
    requires Wf(s) && Allowed(s, e, gap, late)
    requires Runs(Apply(s, e, limits), events, gap, late, limits)
    requires !AllTruthful(Apply(s, e, limits), events, gap, late, limits)
    ensures Runs(s, [e] + events, gap, late, limits) && !AllTruthful(s, [e] + events, gap, late, limits)
  {
    hide Apply;
    assert ([e] + events)[1..] == events;
  }

  /** Whatever the limits and the schedule, every stamp is read as the time it stands for. */
  ghost predicate ClockExact(gap: nat, late: nat) {
    forall limits: Limits, events: seq<Event> ::
      Runs(BORN, events, gap, late, limits) ==> AllTruthful(BORN, events, gap, late, limits)
  }

  /**
   Exactly how late a clock may be used, and how far apart sweeps may be: the age
   a cell can have when a look leaves it, plus the wait for the next, stays below
   the 2^31 ms that read as a clock gone backwards.
   */
  lemma ClockExactIff(gap: nat, late: nat)
    ensures ClockExact(gap, late) <==> gap + Leftover(late) < TWO_31
  {
    hide Runs, AllTruthful;
    if gap + Leftover(late) < TWO_31 {
      forall limits: Limits, events: seq<Event> | Runs(BORN, events, gap, late, limits)
        ensures AllTruthful(BORN, events, gap, late, limits)
      {
        FreshRuns(BORN, events, gap, late, limits);
      }
    } else if late >= STALE_MS - 1 {
      var limits := Limits(0, 0);
      var events := LateInsertMisread(gap, late, limits);
      assert !ClockExact(gap, late);
    } else {
      var events, limits := LateSweepMisread(gap, late);
      assert !ClockExact(gap, late);
    }
  }

  // ----- what the wrap then costs: nothing -----

  /** What each request of a run is told. */
  function Verdicts(s: Life, events: seq<Event>, gap: nat, late: nat, limits: Limits): seq<bool>
    requires Wf(s) && Runs(s, events, gap, late, limits)
    decreases |events|
  {
    if events == [] then []
    else Verdict(s, events[0], limits) + Verdicts(Apply(s, events[0], limits), events[1..], gap, late, limits)
  }

  function Verdict(s: Life, e: Event, limits: Limits): seq<bool> {
    if !e.Request? then []
    else if e.key in s.cells then [Touch(s.cells[e.key], e.t % TWO_32, limits).1]
    else [FirstTouch(e.t % TWO_32, limits).1]
  }

  /** The limiter with unbounded stamps: no packing, no wrap. */
  type Ideal = map<Key, Bucket>

  function ApplyIdeal(m: Ideal, e: Event, limits: Limits): Ideal {
    match e
    case Tick(_) => m
    case Request(key, t) =>
      m[key := if key in m then TouchAt(m[key], t, limits).0 else FirstTouchAt(t, limits).0]
    case Sweep(key, t) =>
      if key in m && !KeepsAt(m[key], t, limits) then m - {key} else m
  }

  function IdealVerdict(m: Ideal, e: Event, limits: Limits): seq<bool> {
    if !e.Request? then []
    else if e.key in m then [TouchAt(m[e.key], e.t, limits).1]
    else [FirstTouchAt(e.t, limits).1]
  }

  function IdealVerdicts(m: Ideal, events: seq<Event>, limits: Limits): seq<bool>
    decreases |events|
  {
    if events == [] then []
    else IdealVerdict(m, events[0], limits) + IdealVerdicts(ApplyIdeal(m, events[0], limits), events[1..], limits)
  }

  /** Cell for cell, the packed limiter holds the ideal one. */
  predicate Mirrors(s: Life, m: Ideal)
    requires Wf(s)
  {
    && m.Keys == s.cells.Keys
    && forall k :: k in s.cells ==> m[k].stamp == s.stamps[k] && Holds(s.cells[k], m[k])
  }

  lemma MirrorsStep(s: Life, m: Ideal, e: Event, gap: nat, late: nat, limits: Limits)
    requires Wf(s) && Mirrors(s, m) && Allowed(s, e, gap, late) && Truthful(s, e)
    ensures Mirrors(Apply(s, e, limits), ApplyIdeal(m, e, limits))
    ensures Verdict(s, e, limits) == IdealVerdict(m, e, limits)
  {
    hide Touch, FirstTouch, Keeps, KeepsAt, Holds;
    if e.Request? && e.key in s.cells {
      TouchRefines(s.cells[e.key], m[e.key], e.t, limits);
      HeldStamp(s.cells[e.key], m[e.key]);
    } else if e.Request? {
      FirstTouchRefines(e.t, limits);
    } else if e.Sweep? {
      KeepsRefines(s.cells[e.key], m[e.key], e.t, limits);
    }
  }

  lemma HeldStamp(cell: U64, b: Bucket)
    requires Holds(cell, b)
    ensures Unpack(cell).0 == b.stamp % TWO_32
  {}

  lemma {:induction false} MirrorsRun(s: Life, m: Ideal, events: seq<Event>, gap: nat, late: nat, limits: Limits)
    requires Wf(s) && Mirrors(s, m) && Runs(s, events, gap, late, limits)
    requires AllTruthful(s, events, gap, late, limits)
    ensures Verdicts(s, events, gap, late, limits) == IdealVerdicts(m, events, limits)
    decreases |events|
  {
    hide Apply, ApplyIdeal, Verdict, IdealVerdict, Mirrors, Truthful;
    if events != [] {
      MirrorsStep(s, m, events[0], gap, late, limits);
      MirrorsRun(Apply(s, events[0], limits), ApplyIdeal(m, events[0], limits), events[1..], gap, late, limits);
    }
  }

  /**
   Over every run within those margins the packed limiter answers each request as
   one with unbounded stamps would, across any number of clock wraps.
   */
  lemma WrapIsInvisible(events: seq<Event>, gap: nat, late: nat, limits: Limits)
    requires Runs(BORN, events, gap, late, limits)
    requires gap + Leftover(late) < TWO_31
    ensures Verdicts(BORN, events, gap, late, limits) == IdealVerdicts(map[], events, limits)
  {
    hide Runs, AllTruthful, Verdicts, IdealVerdicts;
    FreshRuns(BORN, events, gap, late, limits);
    MirrorsRun(BORN, map[], events, gap, late, limits);
  }
}
