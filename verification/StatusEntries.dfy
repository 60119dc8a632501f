/**
 Entries of a status list that several controllers share
 (src/kubernetes/status.rs): who owns one, how a write merges its entries into
 the list and stamps their transition times, and what a read compares.
 */
module StatusEntries {
  import opened Options

  type Time = nat

  /** A field an entry lacks, or holds something else than a string in, is `None`. */
  datatype Ref = Ref(name: Option<string>, namespace: Option<string>, rest: string)

  datatype Condition = Condition(
    kind: string,
    status: string,
    reason: string,
    message: string,
    generation: Option<int>,
    time: Option<Time>)

  datatype Entry = Entry(controller: Option<string>, gateway: Ref, conditions: seq<Condition>)

  datatype Owner = Owner(controller: string, name: string, namespace: string)

  predicate Owns(o: Owner, e: Entry) {
    && e.controller == Some(o.controller)
    && e.gateway.name == Some(o.name)
    && e.gateway.namespace == Some(o.namespace)
  }

  function Mine(list: seq<Entry>, o: Owner): (r: seq<Entry>)
    ensures forall e :: e in r ==> Owns(o, e)
  {
    if list == [] then []
    else if Owns(o, list[0]) then [list[0]] + Mine(list[1..], o)
    else Mine(list[1..], o)
  }

  function Others(list: seq<Entry>, o: Owner): (r: seq<Entry>)
    ensures forall e :: e in r ==> !Owns(o, e)
  {
    if list == [] then []
    else if Owns(o, list[0]) then Others(list[1..], o)
    else [list[0]] + Others(list[1..], o)
  }

  // ----- transition times -----

  predicate Same(c: Condition, kind: string, status: string, reason: string) {
    c.kind == kind && c.status == status && c.reason == reason
  }

  /** The time of the first condition that says the same and has one. */
  function TransitionTime(existing: seq<Condition>, kind: string, status: string, reason: string): Option<Time> {
    if existing == [] then None
    else if Same(existing[0], kind, status, reason) && existing[0].time.Some? then existing[0].time
    else TransitionTime(existing[1..], kind, status, reason)
  }

  function OrNow(time: Option<Time>, now: Time): Option<Time> {
    if time.Some? then time else Some(now)
  }

  function Stamp(c: Condition, observed: seq<Condition>, now: Time): Condition {
    c.(time := OrNow(TransitionTime(observed, c.kind, c.status, c.reason), now))
  }

  function Stamps(cs: seq<Condition>, observed: seq<Condition>, now: Time): (r: seq<Condition>)
    ensures |r| == |cs|
    ensures forall i :: 0 <= i < |cs| ==> r[i] == Stamp(cs[i], observed, now)
  {
    seq(|cs|, i requires 0 <= i < |cs| => Stamp(cs[i], observed, now))
  }

  /** Stamping goes over the conditions in place. */
  method StampConditions(conditions: array<Condition>, observed: seq<Condition>, now: Time)
    modifies conditions
    ensures conditions[..] == Stamps(old(conditions[..]), observed, now)
  {
    for i := 0 to conditions.Length
      invariant forall k :: 0 <= k < i ==> conditions[k] == Stamp(old(conditions[k]), observed, now)
      invariant forall k :: i <= k < conditions.Length ==> conditions[k] == old(conditions[k])
    {
      var c := conditions[i];
      var time := now;
      for j := 0 to |observed|
        invariant TransitionTime(observed, c.kind, c.status, c.reason)
                  == TransitionTime(observed[j..], c.kind, c.status, c.reason)
        invariant time == now
      {
        assert observed[j..][0] == observed[j] && observed[j..][1..] == observed[j + 1..];
        if Same(observed[j], c.kind, c.status, c.reason) && observed[j].time.Some? {
          time := observed[j].time.value;
          break;
        }
      }
      assert OrNow(TransitionTime(observed, c.kind, c.status, c.reason), now) == Some(time);
      conditions[i] := c.(time := Some(time));
    }
  }

  /** The conditions of the first entry with this ref; none without one. */
  function Prior(ours: seq<Entry>, gateway: Ref): seq<Condition> {
    if ours == [] then []
    else if ours[0].gateway == gateway then ours[0].conditions
    else Prior(ours[1..], gateway)
  }

  function StampOwned(desired: seq<Entry>, ours: seq<Entry>, now: Time): (r: seq<Entry>)
    ensures |r| == |desired|
    ensures forall i :: 0 <= i < |desired| ==>
              r[i] == desired[i].(conditions := Stamps(desired[i].conditions, Prior(ours, desired[i].gateway), now))
  {
    if desired == [] then []
    else
      var e := desired[0];
      [e.(conditions := Stamps(e.conditions, Prior(ours, e.gateway), now))] + StampOwned(desired[1..], ours, now)
  }

  // ----- what a read compares -----

  function Untimed(cs: seq<Condition>): (r: seq<Condition>)
    ensures |r| == |cs|
    ensures forall i :: 0 <= i < |cs| ==> r[i] == cs[i].(time := None)
  {
    seq(|cs|, i requires 0 <= i < |cs| => cs[i].(time := None))
  }

  function WithoutTimes(list: seq<Entry>): (r: seq<Entry>)
    ensures |r| == |list|
    ensures forall i :: 0 <= i < |list| ==> r[i] == list[i].(conditions := Untimed(list[i].conditions))
  {
    seq(|list|, i requires 0 <= i < |list| => list[i].(conditions := Untimed(list[i].conditions)))
  }

  predicate IsCurrent(observed: seq<Entry>, o: Owner, desired: seq<Entry>) {
    WithoutTimes(Mine(observed, o)) == desired
  }

  /** What a pass hands to a write: its own entries, not stamped yet. */
  ghost predicate Desirable(o: Owner, desired: seq<Entry>) {
    forall e :: e in desired ==> Owns(o, e) && forall c :: c in e.conditions ==> c.time == None
  }

  // ----- the lists a write sends -----

  function Merged(observed: seq<Entry>, o: Owner, ours: seq<Entry>): seq<Entry> {
    Others(observed, o) + ours
  }

  /** The list a write sends, `None` when the observed one is as desired. */
  function WriteOwned(observed: seq<Entry>, o: Owner, desired: seq<Entry>, now: Time): Option<seq<Entry>> {
    if IsCurrent(observed, o, desired) then None
    else Some(Merged(observed, o, StampOwned(desired, Mine(observed, o), now)))
  }

  /** Gateways that departed, as one controller's entries on an object of `home` name them. */
  datatype Departed = Departed(controller: string, gateways: set<(string, string)>, home: string)

  predicate NamesDeparted(d: Departed, e: Entry) {
    && e.controller == Some(d.controller)
    && e.gateway.name.Some?
    && ((if e.gateway.namespace.Some? then e.gateway.namespace.value else d.home), e.gateway.name.value) in d.gateways
  }

  predicate Departs(d: Departed, o: Owner) {
    o.controller == d.controller && (o.namespace, o.name) in d.gateways
  }

  function Kept(list: seq<Entry>, d: Departed): (r: seq<Entry>)
    ensures |r| <= |list|
    ensures forall e :: e in r ==> !NamesDeparted(d, e)
  {
    if list == [] then []
    else if NamesDeparted(d, list[0]) then Kept(list[1..], d)
    else [list[0]] + Kept(list[1..], d)
  }

  /** The list a removal sends, `None` when nothing in the observed one departed. */
  function RemoveEntries(observed: seq<Entry>, d: Departed): Option<seq<Entry>> {
    if exists e :: e in observed && NamesDeparted(d, e) then Some(Kept(observed, d)) else None
  }

  // ----- merging -----

  lemma {:induction false} MineOfConcat(a: seq<Entry>, b: seq<Entry>, o: Owner)
    ensures Mine(a + b, o) == Mine(a, o) + Mine(b, o)
    ensures Others(a + b, o) == Others(a, o) + Others(b, o)
  {
    if a == [] {
      assert a + b == b;
    } else {
      assert (a + b)[1..] == a[1..] + b;
      MineOfConcat(a[1..], b, o);
    }
  }

  lemma {:induction false} AllMine(list: seq<Entry>, o: Owner)
    requires forall e :: e in list ==> Owns(o, e)
    ensures Mine(list, o) == list && Others(list, o) == []
  {
    if list != [] {
      assert list[0] in list;
      AllMine(list[1..], o);
      assert list == [list[0]] + list[1..];
    }
  }

  lemma {:induction false} NoneMine(list: seq<Entry>, o: Owner)
    requires forall e :: e in list ==> !Owns(o, e)
    ensures Mine(list, o) == [] && Others(list, o) == list
  {
    if list != [] {
      assert list[0] in list;
      NoneMine(list[1..], o);
      assert list == [list[0]] + list[1..];
    }
  }

  /** Another owner's entries are among those a merge leaves. */
  lemma {:induction false} MineAmongOthers(list: seq<Entry>, o: Owner, p: Owner)
    requires o != p
    ensures Mine(Others(list, o), p) == Mine(list, p)
  {
    if list != [] {
      MineAmongOthers(list[1..], o, p);
      assert list == [list[0]] + list[1..];
      if !Owns(o, list[0]) {
        assert Others(list, o)[1..] == Others(list[1..], o);
      }
    }
  }

  /** The owner gets exactly its new entries; every other entry stays verbatim, in order. */
  lemma MergeKeepsOthers(observed: seq<Entry>, o: Owner, ours: seq<Entry>)
    requires forall e :: e in ours ==> Owns(o, e)
    ensures Mine(Merged(observed, o, ours), o) == ours
    ensures Others(Merged(observed, o, ours), o) == Others(observed, o)
    ensures forall p :: p != o ==> Mine(Merged(observed, o, ours), p) == Mine(observed, p)
  {
    MineOfConcat(Others(observed, o), ours, o);
    AllMine(ours, o);
    NoneMine(Others(observed, o), o);
    forall p | p != o
      ensures Mine(Merged(observed, o, ours), p) == Mine(observed, p)
    {
      MineOfConcat(Others(observed, o), ours, p);
      MineAmongOthers(observed, o, p);
      NoneMine(ours, p);
    }
  }

  /** A removal takes a departed Gateway's entries all at once and no other owner's. */
  lemma {:induction false} KeptMine(list: seq<Entry>, d: Departed, o: Owner)
    ensures Mine(Kept(list, d), o) == if Departs(d, o) then [] else Mine(list, o)
  {
    if list != [] {
      KeptMine(list[1..], d, o);
      if !NamesDeparted(d, list[0]) {
        assert Kept(list, d)[1..] == Kept(list[1..], d);
      }
    }
  }

  /** The owner's are those that name its controller and, in full, its Gateway. */
  lemma {:induction false} InMine(list: seq<Entry>, o: Owner, e: Entry)
    ensures e in Mine(list, o) <==>
              && e in list && e.controller == Some(o.controller)
              && e.gateway.name == Some(o.name) && e.gateway.namespace == Some(o.namespace)
    ensures e in Others(list, o) <==>
              && e in list
              && !(e.controller == Some(o.controller)
                   && e.gateway.name == Some(o.name) && e.gateway.namespace == Some(o.namespace))
  {
    if list != [] {
      InMine(list[1..], o, e);
      assert e in list <==> e == list[0] || e in list[1..];
    }
  }

  /** A removal takes the controller's entries whose Gateway departed; without a namespace it is of the object's own. */
  lemma {:induction false} InKept(list: seq<Entry>, d: Departed, e: Entry)
    ensures e in Kept(list, d) <==>
              && e in list
              && !(e.controller == Some(d.controller) && exists ns, name ::
                     && (ns, name) in d.gateways && e.gateway.name == Some(name)
                     && (e.gateway.namespace == Some(ns) || (e.gateway.namespace == None && ns == d.home)))
  {
    if list != [] {
      InKept(list[1..], d, e);
      assert e in list <==> e == list[0] || e in list[1..];
      DepartedIs(d, list[0]);
    }
  }

  lemma DepartedIs(d: Departed, e: Entry)
    ensures NamesDeparted(d, e) <==>
              e.controller == Some(d.controller) && exists ns, name ::
                && (ns, name) in d.gateways && e.gateway.name == Some(name)
                && (e.gateway.namespace == Some(ns) || (e.gateway.namespace == None && ns == d.home))
  {
    if NamesDeparted(d, e) {
      var ns := if e.gateway.namespace.Some? then e.gateway.namespace.value else d.home;
      assert (ns, e.gateway.name.value) in d.gateways;
    }
  }

  // ----- stamping -----

  lemma StampedIsOwned(desired: seq<Entry>, ours: seq<Entry>, now: Time, o: Owner)
    requires Desirable(o, desired)
    ensures forall e :: e in StampOwned(desired, ours, now) ==> Owns(o, e)
  {
    forall e | e in StampOwned(desired, ours, now)
      ensures Owns(o, e)
    {
      var i :| 0 <= i < |desired| && StampOwned(desired, ours, now)[i] == e;
      assert desired[i] in desired;
    }
  }

  /** Stripping the times a write put in gives back what it was asked to write. */
  lemma StampRoundTrip(desired: seq<Entry>, ours: seq<Entry>, now: Time, o: Owner)
    requires Desirable(o, desired)
    ensures WithoutTimes(StampOwned(desired, ours, now)) == desired
  {
    var r := StampOwned(desired, ours, now);
    forall i | 0 <= i < |desired|
      ensures WithoutTimes(r)[i] == desired[i]
    {
      assert desired[i] in desired;
      UntimedStamps(desired[i].conditions, Prior(ours, desired[i].gateway), now);
    }
  }

  lemma UntimedStamps(cs: seq<Condition>, observed: seq<Condition>, now: Time)
    requires forall c :: c in cs ==> c.time == None
    ensures Untimed(Stamps(cs, observed, now)) == cs
  {
    forall i | 0 <= i < |cs|
      ensures Untimed(Stamps(cs, observed, now))[i] == cs[i]
    {
      assert cs[i] in cs;
    }
  }

  /** A condition as a reader knows it: the entry's ref and what it says. */
  datatype Key = Key(gateway: Ref, kind: string, status: string, reason: string)

  /** The time the list shows for a key. */
  function TimeAt(ours: seq<Entry>, k: Key): Option<Time> {
    TransitionTime(Prior(ours, k.gateway), k.kind, k.status, k.reason)
  }

  predicate Says(cs: seq<Condition>, k: Key) {
    exists c :: c in cs && Same(c, k.kind, k.status, k.reason)
  }

  predicate Holds(ours: seq<Entry>, k: Key) {
    Says(Prior(ours, k.gateway), k)
  }

  lemma {:induction false} StampedTime(cs: seq<Condition>, observed: seq<Condition>, now: Time, k: Key)
    ensures TransitionTime(Stamps(cs, observed, now), k.kind, k.status, k.reason)
         == if Says(cs, k) then OrNow(TransitionTime(observed, k.kind, k.status, k.reason), now) else None
    decreases |cs|
  {
    var r := Stamps(cs, observed, now);
    if cs != [] {
      assert r[1..] == Stamps(cs[1..], observed, now);
      StampedTime(cs[1..], observed, now, k);
      assert forall c :: c in cs <==> c == cs[0] || c in cs[1..];
      assert Says(cs, k) <==> Same(cs[0], k.kind, k.status, k.reason) || Says(cs[1..], k);
    }
  }

  lemma {:induction false} PriorStamped(desired: seq<Entry>, ours: seq<Entry>, now: Time, gateway: Ref)
    ensures Prior(StampOwned(desired, ours, now), gateway)
         == Stamps(Prior(desired, gateway), Prior(ours, gateway), now)
  {
    if desired != [] {
      assert StampOwned(desired, ours, now)[1..] == StampOwned(desired[1..], ours, now);
      PriorStamped(desired[1..], ours, now, gateway);
    }
  }

  /** A written condition keeps the time the list showed for it, or gets the write's. */
  lemma WriteStampsKey(desired: seq<Entry>, ours: seq<Entry>, now: Time, k: Key)
    ensures TimeAt(StampOwned(desired, ours, now), k)
         == if Holds(desired, k) then OrNow(TimeAt(ours, k), now) else None
  {
    PriorStamped(desired, ours, now, k.gateway);
    StampedTime(Prior(desired, k.gateway), Prior(ours, k.gateway), now, k);
  }
}
