/**
 * The polled conditions: `raise_on_*` of src/reslib/k8s. They never answer with a truthy value;
 * success and failure alike are raised.
 */
module Monitors {
  import opened Wrappers
  import opened Polling
  import Contexts

  /** One API read: the record the cluster returned, or an exception of the client. */
  datatype Read<+T> = Got(value: T) | ApiFails

  /** The Deployment fields that are read, with `or 0` already applied. */
  datatype Deployment = Deployment(
    desired: nat, replicas: nat, updated: nat, ready: nat, available: nat, unavailable: nat,
    observedGeneration: int, faulty: bool)

  /** What one poll would find, read by read. `latestReady` is the latest Ready transition of a pod. */
  datatype Observation = Observation(
    deployment: Read<Deployment>,
    hpaDesired: Read<nat>,
    latestReady: Read<Option<int>>,
    crashed: Read<bool>)

  datatype Error =
    // success signals
    | DesiredReached(ready: nat, wanted: nat, readyAt: int)
    | RestartComplete(deployment: Deployment, readyAt: int)
    | ReplicasRestored(peak: nat, current: nat)
    | ScaledPodsReady(before: nat, wanted: nat, ready: nat)
    // failures
    | WorkloadFaulty | ContainerCrashed | StressFailed | ApiError | TypeError
    | WatchTimeout | RestartTimeout
  {
    predicate IsSignal() {
      DesiredReached? || RestartComplete? || ReplicasRestored? || ScaledPodsReady?
    }
  }

  /** What one evaluation of a condition gives. */
  type Answer = Verdict<(), Error>

  function RaiseOnDesiredReplicas(o: Observation, after: Option<int>): Answer {
    match o.deployment
    case ApiFails => Raises(ApiError)
    case Got(d) =>
      if d.ready < d.desired then Falsy
      else match o.latestReady
           case ApiFails => Raises(ApiError)
           case Got(None) => Falsy
           case Got(Some(at)) =>
             if after.None? then Raises(TypeError)
             else if at <= after.value then Falsy
             else Raises(DesiredReached(d.ready, d.desired, at))
  }

  function RaiseOnRestartComplete(o: Observation, startedAt: int, generation: Option<int>): Answer {
    match o.deployment
    case ApiFails => Raises(ApiError)
    case Got(d) =>
      if d.faulty then Raises(WorkloadFaulty)
      else if generation.Some? && d.observedGeneration < generation.value then Falsy
      else if d.updated < d.desired || d.ready < d.desired || d.available < d.desired || d.unavailable != 0
      then Falsy
      else match o.latestReady
           case ApiFails => Raises(ApiError)
           case Got(None) => Falsy
           case Got(Some(at)) =>
             if at <= startedAt then Falsy else Raises(RestartComplete(d, at))
  }

  /** `peak` is the `ready_replicas` entry of the stress context; comparing a missing one fails. */
  function RaiseOnReplicasRestored(o: Observation, peak: Option<nat>): Answer {
    match (o.deployment, o.hpaDesired)
    case (ApiFails, _) => Raises(ApiError)
    case (_, ApiFails) => Raises(ApiError)
    case (Got(d), Got(desired)) =>
      if peak.None? then Raises(TypeError)
      else if peak.value > desired == d.ready then Raises(ReplicasRestored(peak.value, d.ready))
      else Falsy
  }

  function RaiseOnScaledPodsReady(o: Observation, before: nat): Answer {
    match o.deployment
    case ApiFails => Raises(ApiError)
    case Got(d) =>
      if !(before < d.replicas <= d.ready) then Falsy
      else if o.hpaDesired.ApiFails? || o.latestReady.ApiFails? then Raises(ApiError)
      else Raises(ScaledPodsReady(before, d.replicas, d.ready))
  }

  function RaiseOnContainerFail(o: Observation): Answer {
    match o.crashed
    case ApiFails => Raises(ApiError)
    case Got(crashed) => if crashed then Raises(ContainerCrashed) else Falsy
  }

  /** A condition with the arguments that stay the same from poll to poll. */
  datatype Probe =
    | DesiredReplicas(after: Option<int>)
    | RollingRestart(startedAt: int, generation: Option<int>)
    | Restored(peak: Option<nat>)
    | ScaledPods(before: nat)
    | ContainerFail

  function Ask(p: Probe, o: Observation): Answer {
    match p
    case DesiredReplicas(after) => RaiseOnDesiredReplicas(o, after)
    case RollingRestart(at, generation) => RaiseOnRestartComplete(o, at, generation)
    case Restored(peak) => RaiseOnReplicasRestored(o, peak)
    case ScaledPods(before) => RaiseOnScaledPodsReady(o, before)
    case ContainerFail => RaiseOnContainerFail(o)
  }

  /** The cluster is as the condition wants it, read by read. */
  predicate Met(p: Probe, o: Observation) {
    o.deployment.Got? && var d := o.deployment.value;
    match p
    // all desired replicas ready, and a pod that became ready after the disruption
    case DesiredReplicas(after) =>
      && d.desired <= d.ready
      && after.Some? && o.latestReady.Got? && o.latestReady.value.Some? && after.value < o.latestReady.value.value
    // a sound deployment of the requested generation, all replicas updated, ready and available,
    // and a pod that became ready after the restart
    case RollingRestart(at, generation) =>
      && !d.faulty && (generation.Some? ==> generation.value <= d.observedGeneration)
      && d.desired <= d.updated && d.desired <= d.ready && d.desired <= d.available && d.unavailable == 0
      && o.latestReady.Got? && o.latestReady.value.Some? && at < o.latestReady.value.value
    // the HPA wants less than the peak, and that is what is ready
    case Restored(peak) =>
      o.hpaDesired.Got? && peak.Some? && d.ready == o.hpaDesired.value < peak.value
    // more replicas than before the stress, all of them ready
    case ScaledPods(before) =>
      before < d.replicas <= d.ready && o.hpaDesired.Got? && o.latestReady.Got?
    case ContainerFail => false
  }

  /** What a success record says about the cluster at the poll that raised it: every one of its values. */
  predicate Evidence(p: Probe, o: Observation, record: Error) {
    Met(p, o) && var d := o.deployment.value;
    match p
    case DesiredReplicas(_) =>
      && record.DesiredReached? && record.ready == d.ready && record.wanted == d.desired
      && o.latestReady == Got(Some(record.readyAt))
    case RollingRestart(_, _) =>
      record.RestartComplete? && record.deployment == d && o.latestReady == Got(Some(record.readyAt))
    case Restored(peak) =>
      record.ReplicasRestored? && peak == Some(record.peak) && record.current == d.ready
    case ScaledPods(before) =>
      record.ScaledPodsReady? && record.before == before && record.wanted == d.replicas && record.ready == d.ready
    case ContainerFail => false
  }

  /**
   * No condition is ever truthy; a signal is raised if and only if the cluster is as it is wanted, and then with
   * the values of that poll.
   */
  lemma SignalsCarryEvidence(p: Probe, o: Observation)
    ensures !Ask(p, o).Truthy?
    ensures Ask(p, o).Raises? && Ask(p, o).error.IsSignal() <==> Met(p, o)
    ensures Met(p, o) ==> Ask(p, o).Raises? && Evidence(p, o, Ask(p, o).error)
  {
  }

  /** A read that a condition needs at this poll fails. */
  predicate ReadFails(p: Probe, o: Observation) {
    match p
    case DesiredReplicas(_) =>
      o.deployment.ApiFails? || (o.deployment.value.desired <= o.deployment.value.ready && o.latestReady.ApiFails?)
    case RollingRestart(at, generation) =>
      || o.deployment.ApiFails?
      || (o.latestReady.ApiFails? && Met(p, o.(latestReady := Got(Some(at + 1)))))
    case Restored(_) => o.deployment.ApiFails? || o.hpaDesired.ApiFails?
    case ScaledPods(before) =>
      || o.deployment.ApiFails?
      || (before < o.deployment.value.replicas <= o.deployment.value.ready
          && (o.hpaDesired.ApiFails? || o.latestReady.ApiFails?))
    case ContainerFail => o.crashed.ApiFails?
  }

  /** When each condition fails, and how: a failed read, a crash, a faulty deployment, a value that is missing. */
  lemma FailuresAreRaised(p: Probe, o: Observation)
    ensures Ask(p, o) == Raises(ApiError) <==> ReadFails(p, o)
    ensures Ask(p, o) == Raises(ContainerCrashed) <==> p.ContainerFail? && o.crashed == Got(true)
    ensures Ask(p, o) == Raises(WorkloadFaulty) <==>
              p.RollingRestart? && o.deployment.Got? && o.deployment.value.faulty
    ensures Ask(p, o) == Raises(TypeError) <==>
              && !ReadFails(p, o)
              && (|| (p == Restored(None))
                  || (p == DesiredReplicas(None) && o.deployment.value.desired <= o.deployment.value.ready
                      && o.latestReady.value.Some?))
    ensures Ask(p, o).Raises? ==>
              Ask(p, o).error.IsSignal() || Ask(p, o).error in {ApiError, ContainerCrashed, WorkloadFaulty, TypeError}
  {
  }

  /** The entry of the shared context in which a monitor leaves its success record; a crash monitor has none. */
  function RecordKey(p: Probe): Option<string> {
    match p
    case DesiredReplicas(_) => Some("desired_replica_reached")
    case RollingRestart(_, _) => Some("rolling_restart_complete")
    case Restored(_) => Some("replicas_restored")
    case ScaledPods(_) => Some("hpa_scaled_pods_ready")
    case ContainerFail => None
  }

  /** The records have entries of their own, which no run is given and no two kinds of monitors share. */
  lemma RecordsStayApart(p: Probe, q: Probe)
    requires RecordKey(p).Some?
    ensures RecordKey(p).value in Contexts.WRITTEN && RecordKey(p).value !in Contexts.PROTECTED
    ensures RecordKey(p) == RecordKey(q) <==>
              && (p.DesiredReplicas? <==> q.DesiredReplicas?) && (p.RollingRestart? <==> q.RollingRestart?)
              && (p.Restored? <==> q.Restored?) && (p.ScaledPods? <==> q.ScaledPods?)
  {
    var desired, restarted := "desired_replica_reached", "rolling_restart_complete";
    var restored, scaled := "replicas_restored", "hpa_scaled_pods_ready";
    assert |desired| == 23 && |restarted| == 24 && |restored| == 17 && |scaled| == 21;
  }

  /** One poll of some monitor of a group. */
  datatype Poll = Poll(probe: Probe, seen: Observation)
  {
    predicate Signals() {
      var answer := Ask(probe, seen);
      answer.Raises? && answer.error.IsSignal()
    }
  }

  type Records = map<string, Error>

  function AfterPolls(records: Records, polls: seq<Poll>): Records {
    if |polls| == 0 then records
    else
      var before, p := AfterPolls(records, polls[..|polls| - 1]), polls[|polls| - 1];
      if p.Signals() && RecordKey(p.probe).Some? then before[RecordKey(p.probe).value := Ask(p.probe, p.seen).error]
      else before
  }

  /** The success records in the shared context, written by the monitors and read by the rollbacks. */
  class SharedRecords {
    var records: Records

    constructor ()
      ensures records == map[]
    {
      records := map[];
    }

    /** A condition leaves its record and then raises, with no suspension in between. */
    method Evaluate(p: Poll) returns (answer: Answer)
      modifies this
      ensures answer == Ask(p.probe, p.seen) && records == AfterPolls(old(records), [p])
    {
      assert [p][..0] == [];
      answer := Ask(p.probe, p.seen);
      if answer.Raises? && answer.error.IsSignal() {
        SignalsCarryEvidence(p.probe, p.seen);
        records := records[RecordKey(p.probe).value := answer.error];
      }
    }

    /** The polls of the monitors of a group, in the order in which they happen to end. */
    method EvaluateAll(polls: seq<Poll>)
      modifies this
      ensures records == AfterPolls(old(records), polls)
    {
      for n := 0 to |polls|
        invariant records == AfterPolls(old(records), polls[..n])
      {
        assert polls[..n + 1][..n] == polls[..n] && [polls[n]][..0] == [];
        var answer := Evaluate(polls[n]);
      }
      assert polls[..|polls|] == polls;
    }

    /** What is left under the key of a monitor; a rollback reports it as observed. */
    method Observed(p: Probe) returns (record: Option<Error>)
      ensures record == if RecordKey(p).Some? && RecordKey(p).value in records
                        then Some(records[RecordKey(p).value]) else None
    {
      var key := RecordKey(p);
      record := if key.Some? && key.value in records then Some(records[key.value]) else None;
    }

    /**
     * A wait that succeeds: the monitors poll in any order, number `n` is the poll that raises the signal,
     * and polls of the crash monitor may follow before the rollback reads what it reports. It reports the
     * evidence of that poll, whatever was in the context before.
     */
    method ReportSuccess(polls: seq<Poll>, n: nat) returns (observed: Option<Error>)
      requires n < |polls| && polls[n].Signals()
      requires forall m :: n < m < |polls| ==> polls[m].probe.ContainerFail?
      modifies this
      ensures observed.Some? && Ask(polls[n].probe, polls[n].seen) == Raises(observed.value)
      ensures Evidence(polls[n].probe, polls[n].seen, observed.value)
    {
      RecordSurvives(records, polls, n);
      EvaluateAll(polls);
      observed := Observed(polls[n].probe);
    }
  }

  /**
   * What is observed is the evidence of the poll that raised: once it has raised, the success monitor
   * polls no more, and whatever polls of the crash monitor follow, its record is still in the context.
   */
  lemma {:induction false} RecordSurvives(records: Records, polls: seq<Poll>, n: nat)
    requires n < |polls| && polls[n].Signals()
    requires forall m :: n < m < |polls| ==> polls[m].probe.ContainerFail?
    ensures var after := AfterPolls(records, polls); var key := RecordKey(polls[n].probe);
            && key.Some? && key.value in after
            && after[key.value] == Ask(polls[n].probe, polls[n].seen).error
            && Evidence(polls[n].probe, polls[n].seen, after[key.value])
  {
    SignalsCarryEvidence(polls[n].probe, polls[n].seen);
    if n < |polls| - 1 {
      RecordSurvives(records, polls[..|polls| - 1], n);
    }
  }

  /** The time the respawn monitor compares with: a kill, or else an eviction. */
  function DisruptedAt(killedAt: Option<int>, evictedAt: Option<int>): Option<int> {
    if killedAt.Some? then killedAt else evictedAt
  }

  /**
   * After a kill and an eviction in one run, the respawn signal proves that a pod became ready
   * after both only if the kill was not the earlier one; otherwise the pod may have been ready
   * before the eviction.
   */
  lemma RespawnAfterEveryDisruption(killedAt: int, evictedAt: int)
    ensures (forall o: Observation :: RaiseOnDesiredReplicas(o, DisruptedAt(Some(killedAt), Some(evictedAt))).Raises?
                 && RaiseOnDesiredReplicas(o, DisruptedAt(Some(killedAt), Some(evictedAt))).error.DesiredReached?
                 ==> o.latestReady.value.value > killedAt && o.latestReady.value.value > evictedAt)
            <==> evictedAt <= killedAt
  {
    var d := Deployment(1, 1, 1, 1, 1, 0, 0, false);
    var o := Observation(Got(d), Got(1), Got(Some(killedAt + 1)), Got(false));
    var answer := RaiseOnDesiredReplicas(o, DisruptedAt(Some(killedAt), Some(evictedAt)));
    assert answer == Raises(DesiredReached(1, 1, killedAt + 1));
  }
}
