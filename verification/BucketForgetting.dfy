/**
 What src/rate_limit.rs may forget about a client: that it was denied, and,
 once swept, that it was ever there. One client's bucket on an unbounded clock.
 */
module BucketForgetting {
  import opened Options
  import opened TokenBucket
  import opened BucketRaces

  // ----- denied requests leave no trace -----

  function Decide(b: Bucket, ts: seq<nat>, limits: Limits): (flags: seq<bool>)
    ensures |flags| == |ts|
    decreases |ts|
  {
    if ts == [] then []
    else
      var (next, granted) := TouchAt(b, ts[0], limits);
      [granted] + Decide(next, ts[1..], limits)
  }

  /** The entries whose mark is set. */
  function Select<T>(s: seq<T>, kept: seq<bool>): seq<T>
    requires |s| == |kept|
  {
    if s == [] then []
    else (if kept[0] then [s[0]] else []) + Select(s[1..], kept[1..])
  }

  /** `a` is `b` after some further requests, all denied. */
  predicate Ahead(a: Bucket, b: Bucket, limits: Limits) {
    && b.tokens <= limits.burst
    && b.stamp <= a.stamp
    && a.tokens == Filled(b, a.stamp, limits)
    && (a.stamp == b.stamp || a.tokens < COST)
  }

  lemma FilledTwice(b: Bucket, t: nat, t': nat, limits: Limits)
    requires b.stamp <= t <= t'
    ensures Filled(Bucket(t, Filled(b, t, limits)), t', limits) == Filled(b, t', limits)
  {
    Distribute(limits.rate, t - b.stamp, t' - t);
    assert (t - b.stamp) * limits.rate + (t' - t) * limits.rate == (t' - b.stamp) * limits.rate;
    assert (t' - t) * limits.rate >= 0;
  }

  lemma FilledGrows(b: Bucket, t: nat, t': nat, limits: Limits)
    requires b.stamp <= t <= t' && b.tokens <= limits.burst
    ensures b.tokens <= Filled(b, t, limits) <= Filled(b, t', limits) <= limits.burst
  {
    ScaleUp(limits.rate, t - b.stamp, t' - b.stamp);
  }

  lemma ScaleUp(rate: nat, x: nat, y: nat)
    requires x <= y
    ensures 0 <= x * rate <= y * rate
  {}

  lemma AheadStep(a: Bucket, b: Bucket, t: nat, limits: Limits)
    requires Ahead(a, b, limits)
    ensures TouchAt(a, t, limits).1 == TouchAt(b, t, limits).1
    ensures Ahead(TouchAt(a, t, limits).0, TouchAt(b, t, limits).0, limits)
  {
    FilledGrows(b, b.stamp, a.stamp, limits);
    if t >= a.stamp {
      FilledTwice(b, a.stamp, t, limits);
      FilledGrows(b, b.stamp, t, limits);
      assert TouchAt(a, t, limits) == TouchAt(b, t, limits);
      AheadSelf(TouchAt(a, t, limits).0, limits);
    } else if t >= b.stamp {
      FilledGrows(b, t, a.stamp, limits);
      FilledTwice(b, t, a.stamp, limits);
    } else if a.stamp == b.stamp {
      assert a == b by { AheadSelf(b, limits); }
      AheadSelf(TouchAt(a, t, limits).0, limits);
    }
  }

  lemma AheadSelf(b: Bucket, limits: Limits)
    requires b.tokens <= limits.burst
    ensures Filled(b, b.stamp, limits) == b.tokens && Ahead(b, b, limits)
  {
    assert (b.stamp - b.stamp) * limits.rate == 0;
  }

  lemma DeniedStaysAhead(a: Bucket, b: Bucket, t: nat, limits: Limits)
    requires Ahead(a, b, limits) && !TouchAt(a, t, limits).1
    ensures Ahead(TouchAt(a, t, limits).0, b, limits)
  {
    if t >= a.stamp {
      FilledTwice(b, a.stamp, t, limits);
    }
  }

  lemma {:induction false} DroppedWhileAhead(a: Bucket, b: Bucket, ts: seq<nat>, kept: seq<bool>, limits: Limits)
    requires Ahead(a, b, limits) && |kept| == |ts|
    requires forall i :: 0 <= i < |ts| && !kept[i] ==> !Decide(a, ts, limits)[i]
    ensures Decide(b, Select(ts, kept), limits) == Select(Decide(a, ts, limits), kept)
    decreases |ts|
  {
    hide Ahead, TouchAt;
    if ts != [] {
      var (a', granted) := TouchAt(a, ts[0], limits);
      var flags := Decide(a, ts, limits);
      assert flags[0] == granted && flags[1..] == Decide(a', ts[1..], limits);
      assert forall i :: 0 <= i < |ts| - 1 && !kept[1..][i] ==> !flags[i + 1];
      if kept[0] {
        AheadStep(a, b, ts[0], limits);
        DroppedWhileAhead(a', TouchAt(b, ts[0], limits).0, ts[1..], kept[1..], limits);
        var rest := Select(ts[1..], kept[1..]);
        assert ([ts[0]] + rest)[1..] == rest;
      } else {
        DeniedStaysAhead(a, b, ts[0], limits);
        DroppedWhileAhead(a', b, ts[1..], kept[1..], limits);
        assert [] + Select(ts[1..], kept[1..]) == Select(ts[1..], kept[1..]);
        assert [] + Select(flags[1..], kept[1..]) == Select(flags[1..], kept[1..]);
      }
    }
  }

  /** Take any denied requests out of a schedule, in any clock order: the rest get the same answers. */
  lemma DeniedRequestsAreForgotten(b: Bucket, ts: seq<nat>, kept: seq<bool>, limits: Limits)
    requires b.tokens <= limits.burst && |kept| == |ts|
    requires forall i :: 0 <= i < |ts| && !kept[i] ==> !Decide(b, ts, limits)[i]
    ensures Decide(b, Select(ts, kept), limits) == Select(Decide(b, ts, limits), kept)
  {
    AheadSelf(b, limits);
    DroppedWhileAhead(b, b, ts, kept, limits);
  }

  // ----- a swept bucket leaves no trace -----

  datatype Event = Ask(t: nat) | Look(t: nat)

  /** A client's bucket, if the map has one, after a request or a look of the sweep. */
  function Next(o: Option<Bucket>, e: Event, limits: Limits): Option<Bucket> {
    match e
    case Ask(t) => Some((if o.Some? then TouchAt(o.value, t, limits) else FirstTouchAt(t, limits)).0)
    case Look(t) => if o.Some? && !KeepsAt(o.value, t, limits) then None else o
  }

  function Answer(o: Option<Bucket>, e: Event, limits: Limits): seq<bool> {
    match e
    case Ask(t) => [(if o.Some? then TouchAt(o.value, t, limits) else FirstTouchAt(t, limits)).1]
    case Look(_) => []
  }

  function Answers(o: Option<Bucket>, events: seq<Event>, limits: Limits): seq<bool>
    decreases |events|
  {
    if events == [] then []
    else Answer(o, events[0], limits) + Answers(Next(o, events[0], limits), events[1..], limits)
  }

  function After(o: Option<Bucket>, events: seq<Event>, limits: Limits): Option<Bucket>
    decreases |events|
  {
    if events == [] then o else After(Next(o, events[0], limits), events[1..], limits)
  }

  /** The requests alone. */
  function Asks(events: seq<Event>): (asks: seq<Event>)
    ensures forall i :: 0 <= i < |asks| ==> asks[i].Ask?
  {
    if events == [] then []
    else (if events[0].Ask? then [events[0]] else []) + Asks(events[1..])
  }

  /** No request reads a clock over `late` ms older than a sweep already made, `floor` the latest so far. */
  predicate NotBefore(events: seq<Event>, floor: nat, late: nat)
    decreases |events|
  {
    events == []
    || match events[0]
       case Ask(t) => floor <= t + late && NotBefore(events[1..], floor, late)
       case Look(t) => NotBefore(events[1..], if floor < t then t else floor, late)
  }

  predicate FullBy(b: Bucket, t: nat, limits: Limits) {
    b.stamp <= t && b.tokens + (t - b.stamp) * limits.rate >= limits.burst
  }

  /** The map with sweeps (`o`) against the map without (`u`). */
  predicate AsIfKept(o: Option<Bucket>, u: Option<Bucket>, floor: nat, limits: Limits) {
    o == u || (o.None? && u.Some? && FullBy(u.value, floor, limits))
  }

  lemma FullStays(b: Bucket, t: nat, t': nat, limits: Limits)
    requires FullBy(b, t, limits) && t <= t'
    ensures FullBy(b, t', limits)
  {
    ScaleUp(limits.rate, t - b.stamp, t' - b.stamp);
  }

  lemma EvictedWasFull(b: Bucket, t: nat, limits: Limits)
    requires !KeepsAt(b, t, limits) && limits.burst <= limits.rate * STALE_MS
    ensures FullBy(b, t, limits)
  {
    if t - b.stamp >= STALE_MS {
      ScaleUp(limits.rate, STALE_MS, t - b.stamp);
    }
  }

  lemma FreshAsFull(b: Bucket, t: nat, limits: Limits)
    requires FullBy(b, t, limits)
    ensures TouchAt(b, t, limits) == FirstTouchAt(t, limits)
  {}

  lemma {:induction false} SweptAsIfKept(o: Option<Bucket>, u: Option<Bucket>, events: seq<Event>,
                                         floor: nat, limits: Limits)
    requires limits.burst <= limits.rate * STALE_MS
    requires AsIfKept(o, u, floor, limits) && NotBefore(events, floor, 0)
    ensures Answers(o, events, limits) == Answers(u, Asks(events), limits)
    decreases |events|
  {
    hide TouchAt, FirstTouchAt, KeepsAt, FullBy;
    if events != [] {
      var e, rest := events[0], events[1..];
      if e.Ask? {
        if o != u {
          FullStays(u.value, floor, e.t, limits);
          FreshAsFull(u.value, e.t, limits);
        }
        assert ([e] + Asks(rest))[1..] == Asks(rest);
        SweptAsIfKept(Next(o, e, limits), Next(u, e, limits), rest, floor, limits);
      } else {
        var floor' := if floor < e.t then e.t else floor;
        if o != u {
          FullStays(u.value, floor, floor', limits);
        } else if o.Some? && !KeepsAt(o.value, e.t, limits) {
          EvictedWasFull(o.value, e.t, limits);
          FullStays(o.value, e.t, floor', limits);
        }
        SweptAsIfKept(Next(o, e, limits), u, rest, floor', limits);
        assert [] + Asks(rest) == Asks(rest);
        assert [] + Answers(Next(o, e, limits), rest, limits) == Answers(Next(o, e, limits), rest, limits);
      }
    }
  }

  lemma {:induction false} AnswersCount(o: Option<Bucket>, events: seq<Event>, limits: Limits)
    ensures |Answers(o, events, limits)| == |Asks(events)|
    decreases |events|
  {
    if events != [] {
      AnswersCount(Next(o, events[0], limits), events[1..], limits);
    }
  }

  /** Without a token in the burst there is nothing to forget. */
  lemma {:induction false} NothingGranted(o: Option<Bucket>, events: seq<Event>, limits: Limits)
    requires limits.burst < COST && (o.Some? ==> o.value.tokens <= limits.burst)
    ensures true !in Answers(o, events, limits)
    decreases |events|
  {
    if events != [] {
      NothingGranted(Next(o, events[0], limits), events[1..], limits);
      var first, more := Answer(o, events[0], limits), Answers(Next(o, events[0], limits), events[1..], limits);
      assert true !in first;
      assert forall x :: x in first + more ==> x in first || x in more;
    }
  }

  lemma {:induction false} AsksAlone(events: seq<Event>)
    ensures Asks(Asks(events)) == Asks(events)
  {
    if events != [] {
      AsksAlone(events[1..]);
      if events[0].Ask? {
        assert Asks(events) == [events[0]] + Asks(events[1..]);
        assert Asks(events)[1..] == Asks(events[1..]);
      } else {
        assert Asks(events) == Asks(events[1..]);
      }
    }
  }

  lemma NoneGrantedAlike(events: seq<Event>, limits: Limits)
    requires limits.burst < COST
    ensures Answers(None, events, limits) == Answers(None, Asks(events), limits)
  {
    NothingGranted(None, events, limits);
    NothingGranted(None, Asks(events), limits);
    AnswersCount(None, events, limits);
    AnswersCount(None, Asks(events), limits);
    AsksAlone(events);
    hide Answers, Asks;
    var a, b := Answers(None, events, limits), Answers(None, Asks(events), limits);
    assert |a| == |b|;
    forall i | 0 <= i < |a|
      ensures a[i] == b[i]
    {
      assert a[i] in a && b[i] in b;
    }
  }
}
