/**
 One client of the packed limiter over the limiter's whole life
 (src/rate_limit.rs): what it is told is what a bucket of its own on an unbounded
 clock would tell it, and what its grants can cost.
 */
module BucketLives {
  import opened Options
  import opened TokenBucket
  import opened Words
  import Clock = BucketClock
  import opened BucketForgetting
  import opened BucketSweeps
  import opened BucketRaces

  /** What the client `key` is told on the packed limiter. */
  function Told(s: Clock.Life, events: seq<Clock.Event>, gap: nat, late: nat, limits: Limits, key: Clock.Key): seq<bool>
    requires Clock.Wf(s) && Clock.Runs(s, events, gap, late, limits)
    decreases |events|
  {
    if events == [] then []
    else
      var e := events[0];
      (if e.Request? && e.key == key then Clock.Verdict(s, e, limits) else [])
      + Told(Clock.Apply(s, e, limits), events[1..], gap, late, limits, key)
  }

  /** The client's own requests, and the sweeps that look at its cell. */
  function Own(events: seq<Clock.Event>, key: Clock.Key): seq<Event> {
    if events == [] then []
    else
      var e := events[0];
      (if e.Request? && e.key == key then [Ask(e.t)] else if e.Sweep? && e.key == key then [Look(e.t)] else [])
      + Own(events[1..], key)
  }

  function BucketOf(m: Clock.Ideal, key: Clock.Key): Option<Bucket> {
    if key in m then Some(m[key]) else None
  }

  /** One event as the client's bucket sees it. */
  lemma OwnStep(m: Clock.Ideal, e: Clock.Event, limits: Limits, key: Clock.Key)
    ensures var own, o := Own([e], key), BucketOf(m, key);
            && BucketOf(Clock.ApplyIdeal(m, e, limits), key) == (if own == [] then o else Next(o, own[0], limits))
            && (if e.Request? && e.key == key then Clock.IdealVerdict(m, e, limits) else [])
               == (if own == [] then [] else Answer(o, own[0], limits))
  {
    hide TouchAt, FirstTouchAt, KeepsAt;
    assert [e][1..] == [];
  }

  lemma {:induction false} ToldAsAlone(s: Clock.Life, m: Clock.Ideal, events: seq<Clock.Event>,
                                       gap: nat, late: nat, limits: Limits, key: Clock.Key)
    requires Clock.Wf(s) && Clock.Mirrors(s, m) && Clock.Runs(s, events, gap, late, limits)
    requires Clock.AllTruthful(s, events, gap, late, limits)
    ensures Told(s, events, gap, late, limits, key) == Answers(BucketOf(m, key), Own(events, key), limits)
    decreases |events|
  {
    hide Clock.Apply, Clock.ApplyIdeal, Clock.Verdict, Clock.IdealVerdict, Clock.Mirrors, Clock.Truthful, Next, Answer,
      BucketOf;
    if events != [] {
      var e, rest := events[0], events[1..];
      var s', m' := Clock.Apply(s, e, limits), Clock.ApplyIdeal(m, e, limits);
      Clock.MirrorsStep(s, m, e, gap, late, limits);
      OwnStep(m, e, limits, key);
      ToldAsAlone(s', m', rest, gap, late, limits, key);
      assert [e][1..] == [] && Own([e], key) + [] == Own([e], key);
      AnswersFirst(BucketOf(m, key), Own([e], key), Own(rest, key), limits);
    }
  }

  lemma AnswersFirst(o: Option<Bucket>, own: seq<Event>, rest: seq<Event>, limits: Limits)
    requires |own| <= 1
    ensures Answers(o, own + rest, limits)
         == if own == [] then Answers(o, rest, limits)
            else Answer(o, own[0], limits) + Answers(Next(o, own[0], limits), rest, limits)
  {
    if own == [] {
      assert own + rest == rest;
    } else {
      assert (own + rest)[1..] == rest;
    }
  }

  /** Within the clock's margins a client is told what a bucket of its own would tell it. */
  lemma ClientsAreApart(events: seq<Clock.Event>, gap: nat, late: nat, limits: Limits, key: Clock.Key)
    requires Clock.Runs(Clock.BORN, events, gap, late, limits)
    requires gap + Clock.Leftover(late) < TWO_31
    ensures Told(Clock.BORN, events, gap, late, limits, key) == Answers(None, Own(events, key), limits)
  {
    hide Clock.Runs, Clock.AllTruthful, Told, Answers, Own;
    Clock.FreshRuns(Clock.BORN, events, gap, late, limits);
    ToldAsAlone(Clock.BORN, map[], events, gap, late, limits, key);
  }

  /** In a life no request is further behind a sweep already made than its clock read is old. */
  lemma {:induction false} OwnNotBefore(s: Clock.Life, events: seq<Clock.Event>, gap: nat, late: nat, limits: Limits,
                                        key: Clock.Key, floor: nat)
    requires Clock.Wf(s) && Clock.Runs(s, events, gap, late, limits) && floor <= s.clock
    ensures NotBefore(Own(events, key), floor, late)
    decreases |events|
  {
    if events != [] {
      var e, rest := events[0], events[1..];
      var s' := Clock.Apply(s, e, limits);
      assert s'.clock >= s.clock;
      hide Clock.Apply;
      var floor' := if e.Sweep? && e.key == key && floor < e.t then e.t else floor;
      OwnNotBefore(s', rest, gap, late, limits, key, floor');
      if !e.Tick? && e.key == key {
        assert Own(events, key)[1..] == Own(rest, key);
      } else {
        assert Own(events, key) == Own(rest, key);
      }
    }
  }

  /**
   In every life within the clock's margins, where the stale age refills a burst,
   each client's grants on the packed limiter cost at most the burst, the rate over
   the time since its first request, and the rate over the lateness once for each
   sweep that dropped it.
   */
  lemma ClientBound(events: seq<Clock.Event>, gap: nat, late: nat, limits: Limits, key: Clock.Key,
                    from: nat, until: nat)
    requires Clock.Runs(Clock.BORN, events, gap, late, limits)
    requires gap + Clock.Leftover(late) < TWO_31 && limits.burst <= limits.rate * STALE_MS
    requires AskedBy(Own(events, key), until) && from <= until
    requires Asks(Own(events, key)) != [] ==> Asks(Own(events, key))[0].t == from
    ensures COST * Grants(Told(Clock.BORN, events, gap, late, limits, key))
         <= limits.burst + limits.rate * (until - from) + limits.rate * late * Drops(None, Own(events, key), limits)
  {
    hide Clock.Runs, Told, Answers, Own, Grants, Asks, NotBefore, Drops, AskedBy;
    ClientsAreApart(events, gap, late, limits, key);
    OwnNotBefore(Clock.BORN, events, gap, late, limits, key, 0);
    LifetimeBound(Own(events, key), from, until, late, limits);
  }
}
