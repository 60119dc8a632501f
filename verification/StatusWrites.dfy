/**
 Many writers of one shared status list (src/kubernetes/status.rs): each reads
 a copy, possibly long out of date, and sends the whole list back on the
 condition that the object is still at the version it read.
 */
module StatusWrites {
  import opened Options
  import opened StatusEntries

  datatype Write = Current | Patched | Failed

  /** The object as a reader saw it; the version is missing when the reader got none. */
  datatype Observed = Observed(version: Option<nat>, entries: seq<Entry>)

  predicate Accepts(version: nat, observed: Observed) {
    observed.version == None || observed.version.value == version
  }

  /** The object at the API server. */
  class StatusObject {
    var entries: seq<Entry>
    var version: nat

    constructor (list: seq<Entry>)
      ensures entries == list && version == 0
    {
      entries, version := list, 0;
    }

    /** Replaces the whole list if the object is still at the version read. */
    method PatchEntries(observed: Observed, list: seq<Entry>) returns (w: Write)
      modifies this
      ensures w == if old(Accepts(version, observed)) then Patched else Failed
      ensures w.Patched? ==> entries == list
      ensures w.Failed? ==> entries == old(entries)
      ensures version == if entries == old(entries) then old(version) else old(version) + 1
    {
      if observed.version.Some? && observed.version.value != version {
        return Failed;
      }
      if entries != list {
        entries, version := list, version + 1;
      }
      return Patched;
    }

    method WriteOwnedEntries(o: Owner, observed: Observed, desired: seq<Entry>, now: Time) returns (w: Write)
      requires Desirable(o, desired)
      modifies this
      ensures w.Current? <==> WithoutTimes(Mine(observed.entries, o)) == desired
      ensures !w.Failed? ==> WithoutTimes(Mine(if w.Current? then observed.entries else entries, o)) == desired
      ensures w.Patched? ==>
                && Mine(entries, o) == StampOwned(desired, Mine(observed.entries, o), now)
                && WithoutTimes(Mine(entries, o)) == desired
                && Others(entries, o) == Others(observed.entries, o)
      ensures !w.Patched? ==> entries == old(entries) && version == old(version)
      ensures !w.Current? ==> (w.Patched? <==> old(Accepts(version, observed)))
    {
      if IsCurrent(observed.entries, o, desired) {
        return Current;
      }
      var stamped := StampOwned(desired, Mine(observed.entries, o), now);
      StampedIsOwned(desired, Mine(observed.entries, o), now, o);
      StampRoundTrip(desired, Mine(observed.entries, o), now, o);
      MergeKeepsOthers(observed.entries, o, stamped);
      w := PatchEntries(observed, Merged(observed.entries, o, stamped));
    }

    method RemoveDeparted(d: Departed, observed: Observed) returns (w: Write)
      modifies this
      ensures w.Patched? ==> forall o :: Mine(entries, o) == if Departs(d, o) then [] else Mine(observed.entries, o)
      ensures !w.Patched? ==> entries == old(entries) && version == old(version)
      ensures w.Current? <==> forall e :: e in observed.entries ==> !NamesDeparted(d, e)
      ensures !w.Current? ==> (w.Patched? <==> old(Accepts(version, observed)))
    {
      if forall e :: e in observed.entries ==> !NamesDeparted(d, e) {
        return Current;
      }
      forall o {
        KeptMine(observed.entries, d, o);
      }
      w := PatchEntries(observed, Kept(observed.entries, d));
    }
  }

  // ----- any number of writers, from any copies -----

  /** The list at each version so far; the last is the current one. */
  datatype Server = Server(history: seq<seq<Entry>>)

  function Now(s: Server): seq<Entry>
    requires s.history != []
  {
    s.history[|s.history| - 1]
  }

  /** `seen`: the version of the copy the request was made from; `guarded`: it carries that version. */
  datatype Request =
    | Writes(owner: Owner, desired: seq<Entry>, now: Time, seen: nat, guarded: bool)
    | Removes(departed: Departed, seen: nat, guarded: bool)
    | Edits                                   // any other change of the object

  ghost predicate Enabled(s: Server, q: Request) {
    && s.history != []
    && (q.Edits? || q.seen < |s.history|)
    && (q.Writes? ==> Desirable(q.owner, q.desired))
  }

  /** The list the request asks for, if it asks for any. */
  function Sent(s: Server, q: Request): Option<seq<Entry>>
    requires !q.Edits? ==> q.seen < |s.history|
  {
    match q
    case Writes(o, desired, now, seen, _) => WriteOwned(s.history[seen], o, desired, now)
    case Removes(d, seen, _) => RemoveEntries(s.history[seen], d)
    case Edits => None
  }

  predicate Lands(s: Server, q: Request)
    requires !q.Edits? ==> q.seen < |s.history|
  {
    Sent(s, q).Some? && (q.guarded ==> q.seen == |s.history| - 1)
  }

  ghost function Apply(s: Server, q: Request): (t: Server)
    requires Enabled(s, q)
    ensures t.history != []
  {
    if q.Edits? then Server(s.history + [Now(s)])
    else if Lands(s, q) && Sent(s, q).value != Now(s) then Server(s.history + [Sent(s, q).value])
    else s
  }

  ghost predicate Runs(s: Server, qs: seq<Request>)
    decreases |qs|
  {
    s.history != [] && (qs == [] || (Enabled(s, qs[0]) && Runs(Apply(s, qs[0]), qs[1..])))
  }

  ghost function End(s: Server, qs: seq<Request>): (t: Server)
    requires Runs(s, qs)
    ensures t.history != []
    decreases |qs|
  {
    if qs == [] then s else End(Apply(s, qs[0]), qs[1..])
  }

  predicate Guarded(qs: seq<Request>) {
    forall q :: q in qs && !q.Edits? ==> q.guarded
  }

  // ----- as if each owner had a list to itself -----

  /** An owner's own list, moved by its own landed writes and by the removals that name it. */
  ghost function Own(s: Server, q: Request, o: Owner, own: seq<Entry>): seq<Entry>
    requires Enabled(s, q)
  {
    if q.Edits? || !Lands(s, q) then own
    else if q.Writes? && q.owner == o then StampOwned(q.desired, own, q.now)
    else if q.Removes? && Departs(q.departed, o) then []
    else own
  }

  ghost function OwnAfter(s: Server, qs: seq<Request>, o: Owner, own: seq<Entry>): seq<Entry>
    requires Runs(s, qs)
    decreases |qs|
  {
    if qs == [] then own else OwnAfter(Apply(s, qs[0]), qs[1..], o, Own(s, qs[0], o, own))
  }

  /** The list after a request: the one it sent if it landed, else the one before. */
  lemma ListAfter(s: Server, q: Request)
    requires Enabled(s, q)
    ensures Now(Apply(s, q)) == if !q.Edits? && Lands(s, q) then Sent(s, q).value else Now(s)
  {
  }

  lemma LandedWrite(s: Server, q: Request, o: Owner)
    requires Enabled(s, q) && q.Writes? && q.guarded && Lands(s, q)
    ensures var sent := Sent(s, q).value;
            && Mine(sent, o)
               == (if q.owner == o then StampOwned(q.desired, Mine(Now(s), o), q.now) else Mine(Now(s), o))
            && Others(sent, q.owner) == Others(Now(s), q.owner)
  {
    var stamped := StampOwned(q.desired, Mine(Now(s), q.owner), q.now);
    assert Sent(s, q).value == Merged(Now(s), q.owner, stamped);
    StampedIsOwned(q.desired, Mine(Now(s), q.owner), q.now, q.owner);
    hide StampOwned, Mine, Others, Merged, Sent;
    MergeKeepsOthers(Now(s), q.owner, stamped);
  }

  lemma LandedRemoval(s: Server, q: Request, o: Owner)
    requires Enabled(s, q) && q.Removes? && q.guarded && Lands(s, q)
    ensures Mine(Sent(s, q).value, o) == if Departs(q.departed, o) then [] else Mine(Now(s), o)
  {
    assert Sent(s, q).value == Kept(Now(s), q.departed);
    KeptMine(Now(s), q.departed, o);
  }

  /** What a landed request leaves: the sender's entries in the list it sent, all others as they were. */
  lemma LandedRequest(s: Server, q: Request, o: Owner)
    requires Enabled(s, q) && (!q.Edits? ==> q.guarded)
    ensures Mine(Now(Apply(s, q)), o) == Own(s, q, o, Mine(Now(s), o))
    ensures q.Writes? ==> Others(Now(Apply(s, q)), q.owner) == Others(Now(s), q.owner)
  {
    ListAfter(s, q);
    hide Apply, Now, Mine, Others, StampOwned, Sent, Departs;
    if !q.Edits? && Lands(s, q) {
      if q.Writes? {
        LandedWrite(s, q, o);
      } else {
        LandedRemoval(s, q, o);
      }
    }
  }

  /**
   However stale the copies, the shared list holds for each owner exactly what it
   would hold in a list of its own.
   */
  lemma {:induction false} SharedIsPrivate(s: Server, qs: seq<Request>, o: Owner)
    requires Runs(s, qs) && Guarded(qs)
    ensures Mine(Now(End(s, qs)), o) == OwnAfter(s, qs, o, Mine(Now(s), o))
    decreases |qs|
  {
    if qs != [] {
      assert qs[0] in qs;
      LandedRequest(s, qs[0], o);
      SharedIsPrivate(Apply(s, qs[0]), qs[1..], o);
    }
  }

  // ----- the echo of a write -----

  /** No landed request of the run touches this owner's entries. */
  ghost predicate Leaves(s: Server, qs: seq<Request>, o: Owner)
    requires Runs(s, qs)
    decreases |qs|
  {
    qs == [] || (
      && (qs[0].Edits? || !Lands(s, qs[0])
          || (if qs[0].Writes? then qs[0].owner != o else !Departs(qs[0].departed, o)))
      && Leaves(Apply(s, qs[0]), qs[1..], o))
  }

  lemma {:induction false} LeftAlone(s: Server, qs: seq<Request>, o: Owner, own: seq<Entry>)
    requires Runs(s, qs) && Leaves(s, qs, o)
    ensures OwnAfter(s, qs, o, own) == own
    decreases |qs|
  {
    if qs != [] {
      LeftAlone(Apply(s, qs[0]), qs[1..], o, own);
    }
  }

  /**
   A guarded write made from the current version leaves its owner exactly the entries it
   asked for, times aside, whether it landed or found them there.
   */
  lemma FreshWriteTakesEffect(s: Server, q: Request)
    requires Enabled(s, q) && q.Writes? && q.guarded && q.seen == |s.history| - 1
    ensures WithoutTimes(Mine(Now(Apply(s, q)), q.owner)) == q.desired
  {
    ListAfter(s, q);
    if Lands(s, q) {
      LandedWrite(s, q, q.owner);
      StampRoundTrip(q.desired, Mine(Now(s), q.owner), q.now, q.owner);
    }
  }

  /** The same at any point of a run, and until another landed request touches the owner's entries. */
  lemma DesiredStays(s: Server, q: Request, qs: seq<Request>)
    requires q.Writes? && q.seen == |s.history| - 1 && Runs(s, [q] + qs) && Guarded([q] + qs)
    requires Leaves(Apply(s, q), qs, q.owner)
    ensures WithoutTimes(Mine(Now(End(s, [q] + qs)), q.owner)) == q.desired
  {
    assert ([q] + qs)[1..] == qs && ([q] + qs)[0] == q && q in [q] + qs;
    FreshWriteTakesEffect(s, q);
    assert forall x :: x in qs ==> x in [q] + qs;
    hide Apply, WithoutTimes;
    SharedIsPrivate(Apply(s, q), qs, q.owner);
    LeftAlone(Apply(s, q), qs, q.owner, Mine(Now(Apply(s, q)), q.owner));
  }

  /** Until its entries change, every copy read after a landed write is as desired and asks for no other write. */
  lemma EchoIsCurrent(s: Server, q: Request, qs: seq<Request>, now: Time)
    requires q.Writes? && Runs(s, [q] + qs) && Guarded([q] + qs) && Lands(s, q)
    requires Leaves(Apply(s, q), qs, q.owner)
    ensures var copy := Now(End(s, [q] + qs));
            WithoutTimes(Mine(copy, q.owner)) == q.desired && WriteOwned(copy, q.owner, q.desired, now) == None
  {
    assert ([q] + qs)[1..] == qs;
    SharedIsPrivate(s, [q] + qs, q.owner);
    LeftAlone(Apply(s, q), qs, q.owner, Own(s, q, q.owner, Mine(Now(s), q.owner)));
    StampRoundTrip(q.desired, Mine(Now(s), q.owner), q.now, q.owner);
  }

  // ----- transition times over a run -----

  /** A clock per condition: set when an owner's write first says it, stopped when a write or removal drops it. */
  ghost function Clock(s: Server, q: Request, o: Owner, k: Key, clock: Option<Time>): Option<Time>
    requires Enabled(s, q)
  {
    if q.Edits? || !Lands(s, q) then clock
    else if q.Writes? && q.owner == o then (if Holds(q.desired, k) then OrNow(clock, q.now) else None)
    else if q.Removes? && Departs(q.departed, o) then None
    else clock
  }

  ghost function ClockAfter(s: Server, qs: seq<Request>, o: Owner, k: Key, clock: Option<Time>): Option<Time>
    requires Runs(s, qs)
    decreases |qs|
  {
    if qs == [] then clock else ClockAfter(Apply(s, qs[0]), qs[1..], o, k, Clock(s, qs[0], o, k, clock))
  }

  lemma {:induction false} OwnShowsClock(s: Server, qs: seq<Request>, o: Owner, k: Key, own: seq<Entry>)
    requires Runs(s, qs)
    ensures TimeAt(OwnAfter(s, qs, o, own), k) == ClockAfter(s, qs, o, k, TimeAt(own, k))
    decreases |qs|
  {
    if qs != [] {
      var q := qs[0];
      if q.Writes? && q.owner == o && Lands(s, q) {
        WriteStampsKey(q.desired, own, q.now, k);
      }
      OwnShowsClock(Apply(s, q), qs[1..], o, k, Own(s, q, o, own));
    }
  }

  /** The time a condition shows is that of the landed write since which its owner has kept saying it. */
  lemma TimesAreFirstSaid(s: Server, qs: seq<Request>, o: Owner, k: Key)
    requires Runs(s, qs) && Guarded(qs)
    ensures TimeAt(Mine(Now(End(s, qs)), o), k) == ClockAfter(s, qs, o, k, TimeAt(Mine(Now(s), o), k))
  {
    SharedIsPrivate(s, qs, o);
    OwnShowsClock(s, qs, o, k, Mine(Now(s), o));
  }

  // ----- the same, by the write that set the time -----

  /** The object as request `i` of the run meets it. */
  ghost function At(s: Server, qs: seq<Request>, i: nat): (t: Server)
    requires Runs(s, qs) && i <= |qs|
    ensures t.history != [] && (i < |qs| ==> Enabled(t, qs[i]))
    decreases |qs|
  {
    if i == 0 then s else At(Apply(s, qs[0]), qs[1..], i - 1)
  }

  /** The request lands and says the condition for its owner. */
  ghost predicate SaysAt(s: Server, q: Request, o: Owner, k: Key)
    requires Enabled(s, q)
  {
    q.Writes? && q.owner == o && Lands(s, q) && Holds(q.desired, k)
  }

  /** The request lands and leaves the owner without the condition. */
  ghost predicate DropsAt(s: Server, q: Request, o: Owner, k: Key)
    requires Enabled(s, q)
  {
    !q.Edits? && Lands(s, q) &&
    if q.Writes? then q.owner == o && !Holds(q.desired, k) else Departs(q.departed, o)
  }

  /** From request `i` on, none drops the condition. */
  ghost predicate KeptFrom(s: Server, qs: seq<Request>, o: Owner, k: Key, i: int)
    requires Runs(s, qs)
  {
    forall j :: 0 <= i <= j < |qs| ==> !DropsAt(At(s, qs, j), qs[j], o, k)
  }

  /** Request `i`, at time `t`, says the condition when the list did not show it, and none drops it since. */
  ghost predicate SetBy(s: Server, qs: seq<Request>, o: Owner, k: Key, t: Time, i: int)
    requires Runs(s, qs)
  {
    && 0 <= i < |qs| && qs[i].Writes? && qs[i].now == t
    && SaysAt(At(s, qs, i), qs[i], o, k)
    && TimeAt(Mine(Now(At(s, qs, i)), o), k) == None
    && KeptFrom(s, qs, o, k, i + 1)
  }

  lemma OneRequestTimes(s: Server, q: Request, o: Owner, k: Key)
    requires Enabled(s, q) && (!q.Edits? ==> q.guarded)
    ensures TimeAt(Mine(Now(Apply(s, q)), o), k)
         == if DropsAt(s, q, o, k) then None
            else if SaysAt(s, q, o, k) then OrNow(TimeAt(Mine(Now(s), o), k), q.now)
            else TimeAt(Mine(Now(s), o), k)
  {
    LandedRequest(s, q, o);
    if q.Writes? {
      WriteStampsKey(q.desired, Mine(Now(s), o), q.now, k);
    }
    hide Apply, Lands, TimeAt, Holds, Mine;
    assert TimeAt([], k) == None by { NoTime(k); }
  }

  lemma NoTime(k: Key)
    ensures TimeAt([], k) == None
  {
  }

  lemma KeptBehind(s: Server, qs: seq<Request>, o: Owner, k: Key, i: nat)
    requires Runs(s, qs) && qs != []
    ensures KeptFrom(s, qs, o, k, i + 1) <==> KeptFrom(Apply(s, qs[0]), qs[1..], o, k, i)
    ensures KeptFrom(s, qs, o, k, 0) <==> !DropsAt(s, qs[0], o, k) && KeptFrom(s, qs, o, k, 1)
  {
    hide Apply, Enabled, DropsAt;
    var rest := qs[1..];
    assert forall j :: 0 <= j < |rest| ==> At(s, qs, j + 1) == At(Apply(s, qs[0]), rest, j) && qs[j + 1] == rest[j];
    if KeptFrom(Apply(s, qs[0]), rest, o, k, i) {
      forall j | i + 1 <= j < |qs|
        ensures !DropsAt(At(s, qs, j), qs[j], o, k)
      {
        assert At(s, qs, j) == At(Apply(s, qs[0]), rest, j - 1) && qs[j] == rest[j - 1];
      }
    }
    if KeptFrom(s, qs, o, k, i + 1) {
      forall j | i <= j < |rest|
        ensures !DropsAt(At(Apply(s, qs[0]), rest, j), rest[j], o, k)
      {
        assert At(s, qs, j + 1) == At(Apply(s, qs[0]), rest, j);
      }
    }
    assert At(s, qs, 0) == s;
  }

  lemma SetBehind(s: Server, qs: seq<Request>, o: Owner, k: Key, t: Time, i: nat)
    requires Runs(s, qs) && i + 1 < |qs|
    ensures SetBy(s, qs, o, k, t, i + 1) <==> SetBy(Apply(s, qs[0]), qs[1..], o, k, t, i)
  {
    hide Apply, Enabled, SaysAt, KeptFrom;
    KeptBehind(s, qs, o, k, i + 1);
    assert At(s, qs, i + 1) == At(Apply(s, qs[0]), qs[1..], i);
  }

  /**
   A condition shows a time if and only if a landed write of that time said it when
   the list did not, or the list showed it at the start, and every landed write and
   removal since has kept it.
   */
  lemma {:induction false} TimeIsOfTheWriteIff(s: Server, qs: seq<Request>, o: Owner, k: Key, t: Time)
    requires Runs(s, qs) && Guarded(qs)
    ensures TimeAt(Mine(Now(End(s, qs)), o), k) == Some(t)
       <==> || (exists i :: SetBy(s, qs, o, k, t, i))
            || (TimeAt(Mine(Now(s), o), k) == Some(t) && KeptFrom(s, qs, o, k, 0))
    decreases |qs|
  {
    if qs != [] {
      var q, rest := qs[0], qs[1..];
      var s' := Apply(s, q);
      assert q in qs;
      OneRequestTimes(s, q, o, k);
      TimeIsOfTheWriteIff(s', rest, o, k, t);
      KeptBehind(s, qs, o, k, 0);
      assert At(s, qs, 0) == s;
      TimeOfFirst(s, qs, o, k, t);
    }
  }

  /** The same statement with the first request told apart from the rest. */
  lemma TimeOfFirst(s: Server, qs: seq<Request>, o: Owner, k: Key, t: Time)
    requires Runs(s, qs) && qs != []
    ensures (exists i :: SetBy(s, qs, o, k, t, i))
       <==> || SetBy(s, qs, o, k, t, 0)
            || (exists i :: SetBy(Apply(s, qs[0]), qs[1..], o, k, t, i))
  {
    hide Apply, Enabled, SaysAt, KeptFrom, At;
    if i :| SetBy(s, qs, o, k, t, i) {
      if i > 0 {
        SetBehind(s, qs, o, k, t, i - 1);
      }
    }
    if i :| SetBy(Apply(s, qs[0]), qs[1..], o, k, t, i) {
      SetBehind(s, qs, o, k, t, i);
    }
  }

  // ----- without a version -----

  /** A landed write keeps everyone else's entries if and only if its copy had them right. */
  lemma LandedKeepsOthersIff(s: Server, q: Request)
    requires Enabled(s, q) && q.Writes? && Lands(s, q)
    ensures Others(Now(Apply(s, q)), q.owner) == Others(Now(s), q.owner)
       <==> Others(s.history[q.seen], q.owner) == Others(Now(s), q.owner)
  {
    var seen := s.history[q.seen];
    StampedIsOwned(q.desired, Mine(seen, q.owner), q.now, q.owner);
    MergeKeepsOthers(seen, q.owner, StampOwned(q.desired, Mine(seen, q.owner), q.now));
  }

  /** The object after another owner added one entry to the copy this request was made from. */
  function Overtaken(list: seq<Entry>, other: Entry): Server {
    Server([list, list + [other]])
  }

  /**
   The version is what protects the others: whatever the copy and whatever the
   other owner's entry, an overtaken write leaves that entry in place if and only
   if it carries the version it was made from.
   */
  lemma OvertakenWriteIsSafeIffGuarded(list: seq<Entry>, other: Entry, q: Request)
    requires q.Writes? && q.seen == 0 && !Owns(q.owner, other)
    requires Enabled(Overtaken(list, other), q) && !IsCurrent(list, q.owner, q.desired)
    ensures Others(Now(Apply(Overtaken(list, other), q)), q.owner) == Others(list + [other], q.owner) <==> q.guarded
  {
    var s := Overtaken(list, other);
    MineOfConcat(list, [other], q.owner);
    NoneMine([other], q.owner);
    if Lands(s, q) {
      LandedKeepsOthersIff(s, q);
    }
  }
}
