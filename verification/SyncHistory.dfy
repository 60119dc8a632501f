/**
 What a data plane's sync loop has heard (src/dataplane/mod.rs), and what that
 makes it serve, refuse, doubt and wait for.
 */
module SyncHistory {
  import opened Options

  const PROTOCOL: nat := 1

  datatype Snapshot = Snapshot(version: string, gateway: string, config: nat)

  datatype Problem =
    | NotJson
    | NoVersion
    | WrongProtocol(sent: Option<nat>)
    | DoesNotDecode
    | OtherGateway(gateway: string)
    | Told(text: string)

  /** A 200's body: what its envelope says, and the Gateway and config if the rest decodes. */
  datatype Body =
    | Garbage
    | Json(version: Option<string>, protocol: Option<nat>, rest: Option<(string, nat)>)

  datatype Decoded = Usable(snapshot: Snapshot) | Unusable(version: Option<string>, problem: Problem)

  /** The envelope says a version. */
  predicate Names(body: Body) {
    body.Json? && body.version.Some? && body.version.value != ""
  }

  /** The envelope first, so that what cannot be served still names the version refused. */
  function Decode(body: Body): (d: Decoded)
    ensures d.Usable? <==> Names(body) && body.protocol == Some(PROTOCOL) && body.rest.Some?
    ensures d.Usable? ==> d.snapshot == Snapshot(body.version.value, body.rest.value.0, body.rest.value.1)
    ensures d.Unusable? ==> d.version == if Names(body) then body.version else None
  {
    match body
    case Garbage => Unusable(None, NotJson)
    case Json(version, protocol, rest) =>
      if version.None? || version.value == "" then Unusable(None, NoVersion)
      else if protocol != Some(PROTOCOL) then Unusable(version, WrongProtocol(protocol))
      else if rest.None? then Unusable(version, DoesNotDecode)
      else Usable(Snapshot(version.value, rest.value.0, rest.value.1))
  }

  datatype Answer =
    | SnapshotSent(body: Body)
    | Unchanged
    | Pending
    | Left
    | Gone
    | Standby(problem: Problem)
    | Unverified(problem: Problem)
    | Retry(after: Option<real>, problem: Problem)

  /** What applying a snapshot came to: `bound`, every endpoint live and every network address found. */
  datatype Outcome = Outcome(buildError: Option<Problem>, listeners: seq<string>, pod: string, epoch: nat, bound: bool)

  datatype Report = Report(
    applied: string,
    applyError: Option<Problem>,
    listeners: seq<string>,
    pod: string,
    dnsEpoch: nat)

  datatype Event =
    | Heard(answer: Answer, outcome: Outcome)
    | Woken(outcome: Outcome)                 // a listener exited, or a rebind is due
    | DnsMoved(epoch: nat)

  // ----- what a history says -----

  function Last(h: seq<Event>): Event
    requires h != []
  {
    h[|h| - 1]
  }

  function Before(h: seq<Event>): seq<Event>
    requires h != []
  {
    h[..|h| - 1]
  }

  /** What an answer's snapshot comes to for this Gateway. */
  function Heeded(gateway: string, a: Answer): Option<Decoded> {
    if !a.SnapshotSent? then None
    else
      var d := Decode(a.body);
      if d.Usable? && d.snapshot.gateway != gateway
      then Some(Unusable(Some(d.snapshot.version), OtherGateway(d.snapshot.gateway)))
      else Some(d)
  }

  /** The snapshot served: the last usable one of this Gateway, none since it was gone. */
  function Served(gateway: string, h: seq<Event>): Option<Snapshot> {
    if h == [] then None
    else if !Last(h).Heard? then Served(gateway, Before(h))
    else if Last(h).answer.Gone? then None
    else
      var d := Heeded(gateway, Last(h).answer);
      if d.Some? && d.value.Usable? then Some(d.value.snapshot) else Served(gateway, Before(h))
  }

  /** The version that stands refused: named by an unusable answer, with no usable one or Gone since. */
  function Refused(gateway: string, h: seq<Event>): Option<(string, Problem)> {
    if h == [] then None
    else if !Last(h).Heard? then Refused(gateway, Before(h))
    else if Last(h).answer.Gone? then None
    else
      var d := Heeded(gateway, Last(h).answer);
      if d.None? || (d.value.Unusable? && d.value.version.None?) then Refused(gateway, Before(h))
      else if d.value.Usable? then None
      else Some((d.value.version.value, d.value.problem))
  }

  /** Answers as the protocol says: they end a row of failures. */
  predicate IsSuccess(a: Answer) {
    || a.Unchanged?
    || a.Pending?
    || a.Left?
    || (a.SnapshotSent? && (Decode(a.body).Usable? || Decode(a.body).version.Some?))
  }

  /** Failed polls and Gone answers since the last success; a standby is neither. */
  function Failures(h: seq<Event>): nat {
    if h == [] then 0
    else if !Last(h).Heard? || Last(h).answer.Standby? then Failures(Before(h))
    else if IsSuccess(Last(h).answer) then 0
    else Failures(Before(h)) + 1
  }

  /** Why the last answer was not taken as the controller's, until the controller answers. */
  function Doubt(h: seq<Event>): Option<Problem> {
    if h == [] then None
    else if !Last(h).Heard? then Doubt(Before(h))
    else if Last(h).answer.Unverified? then Some(Last(h).answer.problem)
    else if IsSuccess(Last(h).answer) || Last(h).answer.Gone? then None
    else Doubt(Before(h))
  }

  /** Applies in a row that left something unbound, of the snapshot served. */
  function Rebinds(gateway: string, h: seq<Event>): nat {
    if h == [] then 0
    else if Last(h).Woken? && Served(gateway, Before(h)).Some?
    then if Last(h).outcome.bound then 0 else Rebinds(gateway, Before(h)) + 1
    else if Last(h).Heard? && Heeded(gateway, Last(h).answer).Some? && Heeded(gateway, Last(h).answer).value.Usable?
    then if Last(h).outcome.bound then 0 else 1
    else Rebinds(gateway, Before(h))
  }

  lemma {:induction false} ServedHasVersion(gateway: string, h: seq<Event>)
    ensures Served(gateway, h).Some? ==>
              Served(gateway, h).value.version != "" && Served(gateway, h).value.gateway == gateway
    ensures Refused(gateway, h).Some? ==> Refused(gateway, h).value.0 != ""
  {
    if h != [] {
      ServedHasVersion(gateway, Before(h));
    }
  }

  // ----- the same, by when it was heard -----

  /** The answer is a usable snapshot of this Gateway. */
  predicate Serves(gateway: string, e: Event, s: Snapshot) {
    e.Heard? && e.answer.SnapshotSent? && Decode(e.answer.body) == Usable(s) && s.gateway == gateway
  }

  /** The answer names a version that cannot be served here, and why. */
  predicate Refuses(gateway: string, e: Event, version: string, problem: Problem) {
    e.Heard? && e.answer.SnapshotSent? && (
      var d := Decode(e.answer.body);
      || d == Unusable(Some(version), problem)
      || (d.Usable? && d.snapshot.version == version && d.snapshot.gateway != gateway
          && problem == OtherGateway(d.snapshot.gateway)))
  }

  predicate IsGone(e: Event) {
    e.Heard? && e.answer.Gone?
  }

  /** From `i` on to the end, none of these. */
  ghost predicate NoneServes(gateway: string, h: seq<Event>, i: int) {
    forall j :: 0 <= i <= j < |h| ==> !IsGone(h[j]) && forall s :: !Serves(gateway, h[j], s)
  }

  ghost predicate NoneRefuses(gateway: string, h: seq<Event>, i: int) {
    forall j :: 0 <= i <= j < |h| ==> forall v, p :: !Refuses(gateway, h[j], v, p)
  }

  ghost predicate ServedBy(gateway: string, h: seq<Event>, s: Snapshot, i: int) {
    0 <= i < |h| && Serves(gateway, h[i], s) && NoneServes(gateway, h, i + 1)
  }

  ghost predicate RefusedBy(gateway: string, h: seq<Event>, v: string, p: Problem, i: int) {
    0 <= i < |h| && Refuses(gateway, h[i], v, p) && NoneServes(gateway, h, i + 1) && NoneRefuses(gateway, h, i + 1)
  }

  /** One event: the snapshot served changes only on an own usable snapshot or Gone. */
  lemma ServedMovesOnly(gateway: string, h: seq<Event>)
    requires h != []
    ensures forall s :: Serves(gateway, Last(h), s) ==> Served(gateway, h) == Some(s)
    ensures IsGone(Last(h)) ==> Served(gateway, h) == None
    ensures !IsGone(Last(h)) && (forall s :: !Serves(gateway, Last(h), s)) ==>
              Served(gateway, h) == Served(gateway, Before(h))
  {
    var e := Last(h);
    if e.Heard? && e.answer.SnapshotSent? && Decode(e.answer.body).Usable? {
      var s := Decode(e.answer.body).snapshot;
      assert s.gateway == gateway ==> Serves(gateway, e, s);
    }
  }

  lemma RefusedMovesOnly(gateway: string, h: seq<Event>)
    requires h != []
    ensures forall v, p :: Refuses(gateway, Last(h), v, p) ==> Refused(gateway, h) == Some((v, p))
    ensures IsGone(Last(h)) || (exists s :: Serves(gateway, Last(h), s)) ==> Refused(gateway, h) == None
    ensures NoneServes(gateway, h, |h| - 1) && NoneRefuses(gateway, h, |h| - 1) ==>
              Refused(gateway, h) == Refused(gateway, Before(h))
  {
    var e := Last(h);
    if e.Heard? && e.answer.SnapshotSent? {
      var d := Decode(e.answer.body);
      if d.Usable? {
        assert d.snapshot.gateway == gateway ==> Serves(gateway, e, d.snapshot);
        assert d.snapshot.gateway != gateway ==>
                 Refuses(gateway, e, d.snapshot.version, OtherGateway(d.snapshot.gateway));
      } else if d.version.Some? {
        assert Refuses(gateway, e, d.version.value, d.problem);
      }
    }
  }

  /** A snapshot is served if and only if it was heard, this Gateway's own and usable, with none and no Gone since. */
  lemma {:induction false} ServedIff(gateway: string, h: seq<Event>, s: Snapshot)
    ensures Served(gateway, h) == Some(s) <==> exists i :: ServedBy(gateway, h, s, i)
  {
    if h != [] {
      var n := |h| - 1;
      ServedMovesOnly(gateway, h);
      ServedIff(gateway, Before(h), s);
      hide Served, Serves, IsGone;
      if Served(gateway, h) == Some(s) {
        if Serves(gateway, h[n], s) {
          assert ServedBy(gateway, h, s, n);
        } else {
          var i :| ServedBy(gateway, Before(h), s, i);
          assert ServedBy(gateway, h, s, i);
        }
      }
      if i :| ServedBy(gateway, h, s, i) {
        if i < n {
          assert ServedBy(gateway, Before(h), s, i);
        }
      }
    }
  }

  /** A version stands refused if and only if it was refused, with no other refusal, usable snapshot or Gone since. */
  lemma {:induction false} RefusedIff(gateway: string, h: seq<Event>, v: string, p: Problem)
    ensures Refused(gateway, h) == Some((v, p)) <==> exists i :: RefusedBy(gateway, h, v, p, i)
  {
    if h != [] {
      var n := |h| - 1;
      RefusedMovesOnly(gateway, h);
      RefusedIff(gateway, Before(h), v, p);
      hide Refused, Serves, Refuses, IsGone;
      if Refused(gateway, h) == Some((v, p)) {
        if Refuses(gateway, h[n], v, p) {
          assert RefusedBy(gateway, h, v, p, n);
        } else {
          assert NoneServes(gateway, h, n) && NoneRefuses(gateway, h, n);
          var i :| RefusedBy(gateway, Before(h), v, p, i);
          assert RefusedBy(gateway, h, v, p, i);
        }
      }
      if i :| RefusedBy(gateway, h, v, p, i) {
        if i < n {
          assert RefusedBy(gateway, Before(h), v, p, i);
        }
      }
    }
  }

  /** What stands refused beside a served snapshot was heard after it. */
  lemma RefusalIsLater(gateway: string, h: seq<Event>) returns (i: int, j: int)
    requires Served(gateway, h).Some? && Refused(gateway, h).Some?
    ensures ServedBy(gateway, h, Served(gateway, h).value, i)
    ensures RefusedBy(gateway, h, Refused(gateway, h).value.0, Refused(gateway, h).value.1, j)
    ensures i < j
  {
    var s, r := Served(gateway, h).value, Refused(gateway, h).value;
    ServedIff(gateway, h, s);
    RefusedIff(gateway, h, r.0, r.1);
    i :| ServedBy(gateway, h, s, i);
    j :| RefusedBy(gateway, h, r.0, r.1, j);
  }

  ghost predicate DoubtedBy(h: seq<Event>, p: Problem, i: int) {
    && 0 <= i < |h| && h[i].Heard? && h[i].answer == Unverified(p)
    && forall j :: i < j < |h| && h[j].Heard? ==>
         !h[j].answer.Unverified? && !h[j].answer.Gone? && !IsSuccess(h[j].answer)
  }

  /** An answer is in doubt if and only if it was not taken as the controller's, which has not answered since. */
  lemma {:induction false} DoubtIff(h: seq<Event>, p: Problem)
    ensures Doubt(h) == Some(p) <==> exists i :: DoubtedBy(h, p, i)
  {
    if h != [] {
      var n := |h| - 1;
      DoubtIff(Before(h), p);
      hide IsSuccess;
      if Doubt(h) == Some(p) {
        if h[n].Heard? && h[n].answer == Unverified(p) {
          assert DoubtedBy(h, p, n);
        } else {
          var i :| DoubtedBy(Before(h), p, i);
          assert DoubtedBy(h, p, i);
        }
      }
      if i :| DoubtedBy(h, p, i) {
        if i < n {
          assert DoubtedBy(Before(h), p, i);
        }
      }
    }
  }

  /** A row of failures ends only with a success: as many waits as failed polls, standbys left out. */
  lemma {:induction false} FailuresCount(h: seq<Event>, row: seq<Event>)
    requires forall e :: e in row && e.Heard? ==> !IsSuccess(e.answer)
    ensures Failures(h + row) == Failures(h) + CountFailed(row)
    decreases |row|
  {
    if row == [] {
      assert h + row == h;
    } else {
      var last := row[|row| - 1];
      assert Before(h + row) == h + Before(row) && Last(h + row) == last;
      assert last in row;
      FailuresCount(h, Before(row));
    }
  }

  function CountFailed(row: seq<Event>): nat {
    if row == [] then 0
    else CountFailed(Before(row)) + if Last(row).Heard? && !Last(row).answer.Standby? then 1 else 0
  }

  function CountUnbound(row: seq<Event>): nat {
    if row == [] then 0
    else CountUnbound(Before(row)) + if Last(row).Woken? then 1 else 0
  }

  /** While one snapshot is served and no apply binds it, each wake is one more unbound apply. */
  lemma {:induction false} RebindsCount(gateway: string, h: seq<Event>, row: seq<Event>)
    requires Served(gateway, h).Some? && NoneServes(gateway, row, 0)
    requires forall e :: e in row && e.Woken? ==> !e.outcome.bound
    ensures Served(gateway, h + row) == Served(gateway, h)
    ensures Rebinds(gateway, h + row) == Rebinds(gateway, h) + CountUnbound(row)
    decreases |row|
  {
    if row == [] {
      assert h + row == h;
    } else {
      var last := Last(row);
      assert Before(h + row) == h + Before(row) && Last(h + row) == last;
      assert last == row[|row| - 1] && last in row;
      assert !IsGone(last) && forall s :: !Serves(gateway, last, s);
      RebindsCount(gateway, h, Before(row));
      ServedMovesOnly(gateway, h + row);
      if last.Heard? && last.answer.SnapshotSent? && Decode(last.answer.body).Usable? {
        assert !Serves(gateway, last, Decode(last.answer.body).snapshot);
      }
    }
  }

  // ----- one event more -----

  lemma Appended(h: seq<Event>, e: Event)
    ensures h + [e] != [] && Last(h + [e]) == e && Before(h + [e]) == h
  {
  }

  lemma HeardServed(gateway: string, h: seq<Event>, a: Answer, outcome: Outcome)
    ensures var d := Heeded(gateway, a);
            Served(gateway, h + [Heard(a, outcome)]) ==
            (if a.Gone? then None
             else if d.Some? && d.value.Usable? then Some(d.value.snapshot)
             else Served(gateway, h))
  {
    Appended(h, Heard(a, outcome));
    hide Heeded;
  }

  lemma HeardRefused(gateway: string, h: seq<Event>, a: Answer, outcome: Outcome)
    ensures var d := Heeded(gateway, a);
            Refused(gateway, h + [Heard(a, outcome)]) ==
            (if a.Gone? || (d.Some? && d.value.Usable?) then None
             else if d.Some? && d.value.version.Some? then Some((d.value.version.value, d.value.problem))
             else Refused(gateway, h))
  {
    Appended(h, Heard(a, outcome));
    hide Heeded;
  }

  lemma HeardRebinds(gateway: string, h: seq<Event>, a: Answer, outcome: Outcome)
    ensures var d := Heeded(gateway, a);
            Rebinds(gateway, h + [Heard(a, outcome)]) ==
            (if d.Some? && d.value.Usable? then (if outcome.bound then 0 else 1) else Rebinds(gateway, h))
  {
    Appended(h, Heard(a, outcome));
    hide Heeded, Served;
  }

  lemma HeardDoubt(h: seq<Event>, a: Answer, outcome: Outcome)
    ensures var h' := h + [Heard(a, outcome)];
            && Failures(h') == (if a.Standby? then Failures(h) else if IsSuccess(a) then 0 else Failures(h) + 1)
            && Doubt(h') == (if a.Unverified? then Some(a.problem)
                             else if IsSuccess(a) || a.Gone? then None else Doubt(h))
  {
    Appended(h, Heard(a, outcome));
    hide IsSuccess;
  }

  /** Waking moves the rebinds alone, and only of a snapshot served. */
  lemma WokenOne(gateway: string, h: seq<Event>, outcome: Outcome)
    ensures var h' := h + [Woken(outcome)];
            && Served(gateway, h') == Served(gateway, h) && Refused(gateway, h') == Refused(gateway, h)
            && Failures(h') == Failures(h) && Doubt(h') == Doubt(h)
            && Rebinds(gateway, h') == (if Served(gateway, h).None? then Rebinds(gateway, h)
                                        else if outcome.bound then 0 else Rebinds(gateway, h) + 1)
  {
    Appended(h, Woken(outcome));
  }

  lemma DnsMovedOne(gateway: string, h: seq<Event>, epoch: nat)
    ensures var h' := h + [DnsMoved(epoch)];
            && Served(gateway, h') == Served(gateway, h) && Refused(gateway, h') == Refused(gateway, h)
            && Failures(h') == Failures(h) && Doubt(h') == Doubt(h) && Rebinds(gateway, h') == Rebinds(gateway, h)
  {
    Appended(h, DnsMoved(epoch));
  }
}
