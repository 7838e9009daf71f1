/**
 * The HPA guardrails and the choice of the pods to stress: src/reslib/guardrails/hpa.py and
 * `select_pods_to_stress` of src/reslib/actions/hpa.py. Both read the same workload snapshot.
 */
module StressSelection {
  import opened Wrappers
  import opened Arithmetic
  import opened HpaTrigger
  import opened Sampling

  datatype Source = Resource | Pods | Object | External | ContainerResource

  datatype ResourceType = Cpu | Memory

  /** An HPA metric: its source, the name of its resource if it has one, its target utilization. */
  datatype Metric = Metric(source: Source, resource: Option<ResourceType>, averageUtilization: Option<int>)

  /** The parts of the workload snapshot that are read. */
  datatype Workload = Workload(hpa: Option<seq<Metric>>, ready: nat)

  datatype Template = Template(source: Source, resource: ResourceType, idle: nat, threshold: nat, minIdlePct: nat)

  datatype Error =
    | NotSupported
    | AttributeError
    | UtilizationMissing
    | PodsToStressExceeded
    | SampleTooLarge

  predicate Fulfils(m: Metric, source: Source, resource: ResourceType) {
    m.source == source && m.resource == Some(resource)
  }

  predicate IsFirst(metrics: seq<Metric>, k: int, source: Source, resource: ResourceType) {
    && 0 <= k < |metrics| && Fulfils(metrics[k], source, resource)
    && forall j :: 0 <= j < k ==> !Fulfils(metrics[j], source, resource)
  }

  /** `get_hpa_resource_metric`: the first metric that matches. */
  function FindMetric(metrics: seq<Metric>, source: Source, resource: ResourceType): (m: Option<Metric>)
    ensures m.Some? ==> exists k :: IsFirst(metrics, k, source, resource) && metrics[k] == m.value
    ensures m.None? ==> forall k :: 0 <= k < |metrics| ==> !Fulfils(metrics[k], source, resource)
  {
    assert forall k :: 1 <= k < |metrics| ==> metrics[k] == metrics[1..][k - 1];
    assert |metrics| > 0 && !Fulfils(metrics[0], source, resource) ==>
        forall k :: IsFirst(metrics[1..], k, source, resource) ==> IsFirst(metrics, k + 1, source, resource);
    assert |metrics| > 0 && Fulfils(metrics[0], source, resource) ==> IsFirst(metrics, 0, source, resource);
    if |metrics| == 0 then None
    else if Fulfils(metrics[0], source, resource) then Some(metrics[0])
    else FindMetric(metrics[1..], source, resource)
  }

  /** `calculate_hpa_trigger` on the workload; reading a missing HPA or metric fails. */
  function TriggerFor(w: Workload, source: Source, resource: ResourceType, t: Template): Result<Trigger, Error> {
    if w.hpa.None? then Err(AttributeError)
    else match FindMetric(w.hpa.value, source, resource)
         case None => Err(AttributeError)
         case Some(metric) =>
           match metric.averageUtilization
           case None => Err(UtilizationMissing)
           case Some(target) => Ok(ClosedForm(w.ready, target, t.idle, t.threshold))
  }

  function ValidateMetricAndResource(t: Template): Result<(), Error> {
    if t.source != Resource then Err(NotSupported)
    else if t.resource != Cpu then Err(NotSupported)
    else Ok(())
  }

  function ValidatePodsToStress(w: Workload, t: Template): Result<(), Error> {
    match TriggerFor(w, t.source, t.resource, t)
    case Err(e) => Err(e)
    case Ok(trigger) =>
      if trigger.pods > w.ready - MinIdlePods(w.ready, t.minIdlePct) then Err(PodsToStressExceeded) else Ok(())
  }

  /** `select_pods_to_stress` draws this many of the running pods; it always looks for CPU. */
  function StressTarget(w: Workload, t: Template): Result<Trigger, Error> {
    TriggerFor(w, Resource, Cpu, t)
  }

  /** The guardrails that judge the stress of a workload. */
  predicate Judged(w: Workload, t: Template) {
    ValidateMetricAndResource(t).Ok? && ValidatePodsToStress(w, t).Ok?
  }

  /**
   * `select_pods_to_stress`: of the running pods a sample, each pod once; none exactly when no pod is ready.
   * Behind the guardrails it stresses as many as they judged, keeps the configured share of the ready pods
   * idle, and loads none beyond the threshold.
   */
  method SelectPodsToStress(w: Workload, t: Template, pods: seq<string>, drawn: seq<string>)
    returns (r: Result<(seq<string>, int), Error>)
    requires StressTarget(w, t).Ok? && 0 < StressTarget(w, t).value.pods <= |pods| ==>
               IsSample(pods, StressTarget(w, t).value.pods, drawn)
    ensures r.Err? <==> StressTarget(w, t).Err? || |pods| < StressTarget(w, t).value.pods
    ensures r.Err? ==> r.error == if StressTarget(w, t).Err? then StressTarget(w, t).error else SampleTooLarge
    ensures r.Ok? ==> var (selected, load) := r.value;
              && (selected == [] <==> w.ready == 0)
              && (forall name :: name in selected ==> name in pods)
              && (Distinct(pods) ==> Distinct(selected))
              && Trigger(|selected|, load) == StressTarget(w, t).value && load <= t.threshold
    ensures r.Ok? && 0 < w.ready ==> r.value.0 == drawn
    ensures r.Ok? && Judged(w, t) ==> var (selected, load) := r.value;
              && TriggerFor(w, t.source, t.resource, t) == Ok(Trigger(|selected|, load))
              && w.ready * t.minIdlePct <= 100 * (w.ready - |selected|)
  {
    match StressTarget(w, t) {
      case Err(e) => return Err(e);
      case Ok(trigger) =>
        TargetFacts(w, t);
        if Judged(w, t) {
          GuardrailBoundsAction(w, t);
        }
        if trigger.pods <= 0 {
          return Ok(([], trigger.load));
        }
        if |pods| < trigger.pods {
          return Err(SampleTooLarge);
        }
        SampleIsDistinct(pods, trigger.pods, drawn);
        r := Ok((drawn, trigger.load));
    }
  }

  /** The action finds nothing to stress exactly when no pod is ready, not when the fleet is busy enough. */
  lemma TargetFacts(w: Workload, t: Template)
    requires StressTarget(w, t).Ok?
    ensures var trigger := StressTarget(w, t).value;
            0 <= trigger.pods && (trigger.pods == 0 <==> w.ready == 0) && trigger.load <= t.threshold
  {
    var target := FindMetric(w.hpa.value, Resource, Cpu).value.averageUtilization.value;
    NothingStressedIff(w.ready, target, t.idle, t.threshold);
    NoNegativePods(w.ready, target, t.idle, t.threshold);
    LoadWithinThreshold(w.ready, target, t.idle, t.threshold);
  }

  lemma NoNegativePods(r: nat, target: int, idle: int, threshold: int)
    ensures 0 <= ClosedForm(r, target, idle, threshold).pods
  {
    NothingStressedIff(r, target, idle, threshold);
  }

  /**
   * The documented promise that nothing is stressed if the workload already meets the trigger condition
   * fails for every such workload with a ready pod: one pod is stressed, or all if one is not enough.
   */
  lemma BusyWorkloadIsStressed(w: Workload, t: Template, target: nat)
    requires 0 < w.ready && w.hpa.Some? && FindMetric(w.hpa.value, Resource, Cpu).Some?
    requires FindMetric(w.hpa.value, Resource, Cpu).value.averageUtilization == Some(target)
    requires target <= t.idle
    ensures w.ready * target <= FleetTotal(w.ready, 0, t.idle, t.idle)
    ensures StressTarget(w, t).Ok? && 1 <= StressTarget(w, t).value.pods
    ensures target <= t.threshold ==> StressTarget(w, t).value.pods == 1
  {
    SatisfiedFleetIsStressed(w.ready, target, t.idle, t.threshold);
  }

  /**
   * What the guardrails let through is what the action does: it stresses the number of pods that was
   * judged, leaves the configured share of the ready pods idle, and loads no pod beyond the threshold.
   */
  lemma GuardrailBoundsAction(w: Workload, t: Template)
    requires Judged(w, t)
    ensures StressTarget(w, t).Ok? && var trigger := StressTarget(w, t).value;
            && TriggerFor(w, t.source, t.resource, t) == Ok(trigger)
            && w.ready * t.minIdlePct <= 100 * (w.ready - trigger.pods)
            && trigger.load <= t.threshold
  {
    var target := FindMetric(w.hpa.value, Resource, Cpu).value.averageUtilization.value;
    IdleLimitIff(w.ready, target, t.idle, t.threshold, t.minIdlePct);
    LoadWithinThreshold(w.ready, target, t.idle, t.threshold);
  }

  lemma LoadWithinThreshold(r: nat, target: int, idle: int, threshold: int)
    ensures ClosedForm(r, target, idle, threshold).load <= threshold
  {
    if !OutOfReach(r, target, idle, threshold) {
      if idle < target {
        LoadWithinBounds(r, target, idle, threshold);
      } else if threshold < idle + r * (target - idle) {
        MulMonotone(target - idle, 0, r);
        MulMonotone(1, r, idle - target);
      }
    }
  }

  /**
   * If the threshold is below the target, all pods would be stressed; the guardrail lets that pass only
   * when no pod has to stay idle, and the load still does not reach the target.
   */
  lemma UnreachableTarget(w: Workload, t: Template, target: int)
    requires t.source == Resource && t.resource == Cpu && 0 < w.ready && t.idle <= t.threshold < target
    requires w.hpa.Some? && FindMetric(w.hpa.value, Resource, Cpu).Some?
    requires FindMetric(w.hpa.value, Resource, Cpu).value.averageUtilization == Some(target)
    ensures ValidatePodsToStress(w, t).Ok? <==> t.minIdlePct == 0
    ensures var trigger := StressTarget(w, t).value;
            && trigger.pods == w.ready
            && FleetTotal(w.ready, trigger.pods, trigger.load, t.idle) < w.ready * target
  {
    IdleLimitIff(w.ready, target, t.idle, t.threshold, t.minIdlePct);
    MulStrict(t.threshold, target, w.ready);
    if t.minIdlePct > 0 {
      MulMonotone(1, t.minIdlePct, w.ready);
    }
  }

  /** The workload has an HPA whose first CPU utilization metric has this target. */
  ghost predicate HasTarget(w: Workload, target: int) {
    && w.hpa.Some?
    && exists k :: IsFirst(w.hpa.value, k, Resource, Cpu) && w.hpa.value[k].averageUtilization == Some(target)
  }

  lemma TargetIsFirst(w: Workload, target: int)
    requires HasTarget(w, target)
    ensures FindMetric(w.hpa.value, Resource, Cpu).Some?
    ensures FindMetric(w.hpa.value, Resource, Cpu).value.averageUtilization == Some(target)
  {
    var k :| IsFirst(w.hpa.value, k, Resource, Cpu) && w.hpa.value[k].averageUtilization == Some(target);
    var found := FindMetric(w.hpa.value, Resource, Cpu);
    if found.Some? {
      var j :| IsFirst(w.hpa.value, j, Resource, Cpu) && w.hpa.value[j] == found.value;
      assert j == k;
    }
  }

  /**
   * On the workload's own metric: what is stressed is the least number of ready pods for which some load within
   * the threshold brings the fleet to the target, at the least such load, or all of them at the threshold if
   * there is none.
   */
  lemma SelectionIsLeast(w: Workload, t: Template, target: int)
    requires HasTarget(w, target)
    ensures StressTarget(w, t).Ok? && var trigger := StressTarget(w, t).value;
            || IsLeastTrigger(w.ready, target, t.idle, t.threshold, trigger)
            || (trigger == Trigger(w.ready, t.threshold)
                && forall p :: 1 <= p <= w.ready ==> !Reaches(w.ready, target, t.idle, t.threshold, p))
  {
    TargetIsFirst(w, target);
    ClosedFormIsBest(w.ready, target, t.idle, t.threshold);
  }

  /**
   * When the guardrails let a workload pass: the metric asked for is CPU utilization, and some number of ready pods
   * reaches the target within the threshold and leaves the configured share idle; or none reaches it, and no pod
   * has to stay idle.
   */
  lemma GuardrailPassesIff(w: Workload, t: Template, target: int)
    requires HasTarget(w, target)
    ensures Judged(w, t) <==>
              && t.source == Resource && t.resource == Cpu
              && (|| (exists p :: 1 <= p <= w.ready && Reaches(w.ready, target, t.idle, t.threshold, p)
                                  && w.ready * t.minIdlePct <= 100 * (w.ready - p))
                  || ((forall p :: 1 <= p <= w.ready ==> !Reaches(w.ready, target, t.idle, t.threshold, p))
                      && w.ready * t.minIdlePct == 0))
  {
    TargetIsFirst(w, target);
    var r := w.ready;
    var trigger := ClosedForm(r, target, t.idle, t.threshold);
    ClosedFormIsBest(r, target, t.idle, t.threshold);
    IdleLimitIff(r, target, t.idle, t.threshold, t.minIdlePct);
    MulMonotone(0, t.minIdlePct, r);
    if t.source == Resource && t.resource == Cpu {
      assert ValidatePodsToStress(w, t).Ok? <==> r * t.minIdlePct <= 100 * (r - trigger.pods);
      if !OutOfReach(r, target, t.idle, t.threshold) {
        LoadIsLeastWitness(r, target, t.idle, t.threshold, trigger);
      }
    }
  }

  lemma LoadIsLeastWitness(r: nat, target: int, idle: int, threshold: int, t: Trigger)
    requires IsLeastTrigger(r, target, idle, threshold, t)
    ensures Reaches(r, target, idle, threshold, t.pods)
  {
    assert r * target <= FleetTotal(r, t.pods, t.load, idle);
  }
}
