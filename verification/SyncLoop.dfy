/**
 A data plane's sync loop (src/dataplane/mod.rs): what it serves, what it
 reports and when it polls again, tied to everything it has heard so far.
 Answers, the applier's results, clock readings and jitter come from outside.
 */
module SyncLoops {
  import opened Options
  import opened Backoffs
  import opened SyncHistory

  const STANDBY_RETRY: nat := 1

  class SyncLoop {
    const gateway: string
    var current: Option<Snapshot>
    var have: string
    var report: Option<Report>
    const failures: Backoff
    const rebinds: Backoff
    var rebindAt: Option<real>
    var refused: Option<(string, Problem)>
    var unverified: Option<Problem>
    ghost var heard: seq<Event>

    /** The fields say what the history says. */
    ghost predicate Tracks()
      reads this, failures, rebinds
    {
      && failures != rebinds && failures.Valid() && rebinds.Valid()
      && current == Served(gateway, heard)
      && refused == Refused(gateway, heard)
      && unverified == Doubt(heard)
      && failures.waits == Failures(heard)
      && rebinds.waits == Rebinds(gateway, heard)
      && (rebindAt.Some? ==> current.Some?)
    }

    /** What the controller is told: the refused version with why, else the served one, else nothing. */
    ghost predicate Honest()
      reads this
    {
      if refused.Some? then
        && have == refused.value.0
        && report.Some?
        && report.value.applied == refused.value.0
        && report.value.applyError == Some(refused.value.1)
        && report.value.listeners == []
      else if current.Some? then
        have == current.value.version && report.Some? && report.value.applied == current.value.version
      else
        have == "" && report == None
    }

    ghost predicate Valid()
      reads this, failures, rebinds
    {
      Tracks() && Honest()
    }

    constructor (gateway: string)
      ensures Valid() && this.gateway == gateway && heard == []
      ensures fresh(failures) && fresh(rebinds)
    {
      this.gateway := gateway;
      failures := new Backoff();
      rebinds := new Backoff();
      current, have, report, rebindAt, refused, unverified := None, "", None, None, None, None;
      heard := [];
    }

    /** A poll says it has nothing exactly when nothing is served and nothing stands refused. */
    lemma HaveIsEmptyIff()
      requires Valid()
      ensures have == "" <==> current.None? && refused.None?
    {
      ServedHasVersion(gateway, heard);
    }

    /** While an answer is in doubt every report sent says why; nothing else of it changes. */
    function Sent(): (r: Option<Report>)
      reads this
      ensures r.Some? <==> report.Some?
      ensures r.Some? ==> r.value.applied == report.value.applied && r.value.listeners == report.value.listeners
      ensures r.Some? ==> r.value.applyError == if unverified.Some? then unverified else report.value.applyError
    {
      if report.Some? && unverified.Some? then Some(report.value.(applyError := unverified)) else report
    }

    function AsReported(r: Report): Report
      reads this
    {
      if refused.Some? then r.(applied := refused.value.0, applyError := Some(refused.value.1), listeners := []) else r
    }

    /** Acts on an answer; returns how long to wait before the next poll. */
    method Handle(a: Answer, outcome: Outcome, now: real, jitter: real) returns (delay: real)
      requires Valid() && 0.0 <= jitter < 1.0
      modifies this, failures, rebinds
      ensures Valid() && heard == old(heard) + [Heard(a, outcome)]
      ensures IsSuccess(a) ==> delay == 0.0
      ensures a.Standby? ==> 0.0 <= delay < STANDBY_RETRY as real
      ensures !IsSuccess(a) && !a.Standby? ==> 0.0 <= delay <= HOLD as real
      ensures !IsSuccess(a) && !a.Standby? && !(a.Retry? && a.after.Some?) ==>
                delay < Ceiling(Failures(old(heard))) as real
      ensures var d := Heeded(gateway, a);
              && (d.Some? && d.value.Usable? ==>
                    && report == Some(Report(d.value.snapshot.version, outcome.buildError, outcome.listeners,
                                             outcome.pod, outcome.epoch))
                    && rebindAt == if outcome.bound then None else Some(now + Ceiling(0) as real))
              && (a.Gone? ==> rebindAt == None)
              && (d.None? && !a.Gone? ==> report == old(report) && rebindAt == old(rebindAt))
              && (d.Some? && d.value.Unusable? ==> rebindAt == old(rebindAt))
      ensures a.Retry? && a.after.Some? ==>
                delay >= if a.after.value < HOLD as real then a.after.value else HOLD as real
    {
      hide Decode, Jittered, Ceiling, Served, Refused, Failures, Doubt, Rebinds;
      HeardServed(gateway, heard, a, outcome);
      HeardRefused(gateway, heard, a, outcome);
      HeardRebinds(gateway, heard, a, outcome);
      HeardDoubt(heard, a, outcome);
      heard := heard + [Heard(a, outcome)];
      match a
      case SnapshotSent(body) =>
        delay := HandleSnapshot(Decode(body), outcome, now, jitter);
      case Unchanged =>
        Succeeded();
        delay := 0.0;
      case Pending =>
        Succeeded();
        delay := 0.0;
      case Left =>
        Succeeded();
        delay := 0.0;
      case Gone =>
        unverified := None;
        Vanish();
        delay := failures.Wait(jitter);
      case Standby(_) =>
        delay := Jittered(STANDBY_RETRY, jitter);
      case Unverified(problem) =>
        unverified := Some(problem);
        delay := Failed(None, jitter);
      case Retry(after, _) =>
        delay := Failed(after, jitter);
    }

    /** A usable snapshot of this Gateway is served; any other that names its version stands refused. */
    method HandleSnapshot(d: Decoded, outcome: Outcome, now: real, jitter: real) returns (delay: real)
      requires failures != rebinds && failures.Valid() && rebinds.Valid() && Honest() && 0.0 <= jitter < 1.0
      modifies this`refused, this`have, this`report, this`current, this`rebindAt, this`unverified, failures, rebinds
      ensures failures.Valid() && rebinds.Valid() && Honest()
      ensures d.Unusable? && d.version.None? ==>
                && refused == old(refused) && current == old(current) && unverified == old(unverified)
                && failures.waits == old(failures.waits) + 1
                && 0.0 <= delay < Ceiling(old(failures.waits)) as real
      ensures !(d.Unusable? && d.version.None?) ==> unverified == None && failures.waits == 0 && delay == 0.0
      ensures d.Unusable? && d.version.Some? ==>
                refused == Some((d.version.value, d.problem)) && current == old(current)
      ensures d.Usable? && d.snapshot.gateway != gateway ==>
                refused == Some((d.snapshot.version, OtherGateway(d.snapshot.gateway))) && current == old(current)
      ensures d.Usable? && d.snapshot.gateway == gateway ==>
                && refused == None && current == Some(d.snapshot) && rebinds.waits == (if outcome.bound then 0 else 1)
                && report == Some(Report(d.snapshot.version, outcome.buildError, outcome.listeners, outcome.pod,
                                         outcome.epoch))
                && rebindAt == if outcome.bound then None else Some(now + Ceiling(0) as real)
      ensures !(d.Usable? && d.snapshot.gateway == gateway) ==>
                rebinds.waits == old(rebinds.waits) && rebindAt == old(rebindAt)
      ensures d.Unusable? && d.version.None? ==> report == old(report)
      ensures refused.Some? && report != old(report) && old(report).Some? ==>
                report.value.pod == old(report).value.pod && report.value.dnsEpoch == old(report).value.dnsEpoch
    {
      if d.Unusable? && d.version.None? {
        delay := Failed(None, jitter);
        return;
      }
      Succeeded();
      if d.Unusable? {
        Refuse(d.version.value, d.problem, outcome);
      } else if d.snapshot.gateway != gateway {
        Refuse(d.snapshot.version, OtherGateway(d.snapshot.gateway), outcome);
      } else {
        Serve(d.snapshot, outcome, now);
      }
      delay := 0.0;
    }

    /** The controller serves this Gateway nothing: as before the first sync. */
    method Vanish()
      modifies this`refused, this`have, this`report, this`current, this`rebindAt
      ensures current == None && refused == None && rebindAt == None && Honest()
    {
      current, have, report, refused, rebindAt := None, "", None, None, None;
    }

    method Failed(after: Option<real>, jitter: real) returns (delay: real)
      requires failures.Valid() && 0.0 <= jitter < 1.0
      modifies failures
      ensures failures.Valid() && failures.waits == old(failures.waits) + 1
      ensures 0.0 <= delay <= HOLD as real
      ensures after.None? ==> delay < Ceiling(old(failures.waits)) as real
      ensures after.Some? ==> delay >= if after.value < HOLD as real then after.value else HOLD as real
    {
      delay := failures.WaitAtLeast(after, jitter);
    }

    method Succeeded()
      modifies this`unverified, failures
      ensures unverified == None && failures.Valid() && failures.waits == 0
    {
      unverified := None;
      failures.Reset();
    }

    method Serve(snapshot: Snapshot, outcome: Outcome, now: real)
      requires rebinds.Valid()
      modifies this`refused, this`have, this`report, this`current, this`rebindAt, rebinds
      ensures refused == None && current == Some(snapshot) && Honest()
      ensures report == Some(Report(snapshot.version, outcome.buildError, outcome.listeners, outcome.pod,
                                    outcome.epoch))
      ensures rebinds.Valid() && rebinds.waits == if outcome.bound then 0 else 1
      ensures rebindAt == if outcome.bound then None else Some(now + Ceiling(0) as real)
    {
      refused := None;
      have := snapshot.version;
      report := Some(Report(snapshot.version, outcome.buildError, outcome.listeners, outcome.pod, outcome.epoch));
      current := Some(snapshot);
      rebinds.Reset();
      ScheduleRebind(outcome.bound, now);
    }

    /** The table served stays; the report names the refused version, with why and no listener of it. */
    method Refuse(version: string, problem: Problem, outcome: Outcome)
      modifies this`refused, this`have, this`report
      ensures refused == Some((version, problem)) && Honest()
      ensures report.value.pod == if old(report).Some? then old(report).value.pod else outcome.pod
      ensures report.value.dnsEpoch == if old(report).Some? then old(report).value.dnsEpoch else outcome.epoch
    {
      var previous := if report.Some? then report.value else Report("", None, [], outcome.pod, outcome.epoch);
      have := version;
      refused := Some((version, problem));
      report := Some(AsReported(previous));
    }

    method ScheduleRebind(bound: bool, now: real)
      requires rebinds.Valid()
      modifies this`rebindAt, rebinds
      ensures rebinds.Valid() && rebinds.waits == if bound then 0 else old(rebinds.waits) + 1
      ensures rebindAt == if bound then None else Some(now + Ceiling(old(rebinds.waits)) as real)
    {
      if bound {
        rebinds.Reset();
        rebindAt := None;
      } else {
        var c := rebinds.NextCeiling();
        rebindAt := Some(now + c as real);
      }
    }

    /** Applies the snapshot served again; whether the report moved. */
    method Reapply(outcome: Outcome, now: real) returns (moved: bool)
      requires Valid()
      modifies this, rebinds
      ensures Valid() && heard == old(heard) + [Woken(outcome)]
      ensures current == old(current) && have == old(have) && refused == old(refused)
      ensures moved <==> report != old(report)
      ensures current.None? ==> report == old(report) && rebindAt == None
      ensures current.Some? && refused.None? ==>
                report == Some(Report(current.value.version, outcome.buildError, outcome.listeners, outcome.pod,
                                      outcome.epoch))
      ensures current.Some? && refused.Some? ==>
                report == Some(Report(refused.value.0, Some(refused.value.1), [], outcome.pod, outcome.epoch))
      ensures current.Some? ==>
                rebindAt == if outcome.bound then None else Some(now + Ceiling(Rebinds(gateway, old(heard))) as real)
    {
      hide Served, Refused, Failures, Doubt, Rebinds;
      WokenOne(gateway, heard, outcome);
      heard := heard + [Woken(outcome)];
      if current.None? {
        rebindAt := None;
        return false;
      }
      var snapshot := current.value;
      var next := AsReported(
        Report(snapshot.version, outcome.buildError, outcome.listeners, outcome.pod, outcome.epoch));
      moved := report != Some(next);
      report := Some(next);
      ScheduleRebind(outcome.bound, now);
    }

    /** Backend pods came or went; whether the report moved. */
    method NoteDns(epoch: nat) returns (moved: bool)
      requires Valid()
      modifies this`report, this`heard
      ensures Valid() && heard == old(heard) + [DnsMoved(epoch)]
      ensures moved <==> report != old(report)
      ensures report.Some? ==> report.value == old(report).value.(dnsEpoch := epoch)
    {
      hide Served, Refused, Failures, Doubt, Rebinds;
      DnsMovedOne(gateway, heard, epoch);
      heard := heard + [DnsMoved(epoch)];
      moved := report.Some? && report.value.dnsEpoch != epoch;
      if moved {
        report := Some(report.value.(dnsEpoch := epoch));
      }
    }
  }
}
