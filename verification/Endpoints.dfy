/**
 * Endpoint drain and restore: src/reslib/k8s/endpoints.py, src/reslib/actions/endpoint.py and
 * src/reslib/rollbacks/endpoint.py, on the labels of the pods of a namespace.
 */
module Endpoints {
  import opened Wrappers
  import opened Ordering
  import opened Services

  const DRAINED := "resilops-drained-true"

  datatype Pod = Pod(labels: Labels, ready: bool, ip: string)

  type Pods = map<string, Pod>

  datatype Error =
    | ServiceNotResolved
    | SelectorMissing
    | NoServiceOnlyLabel
    | InsufficientReady
    | PodIpMissing
    | LabelMismatch

  /** The least key of the service selector that the workload selector does not use. */
  ghost predicate IsServiceOnlyKey(service: Labels, workload: Labels, key: string) {
    && key in service && key !in workload
    && forall k :: k in service && k !in workload ==> AtMost(key, k)
  }

  /** `sorted(service_selector)`, as any list of the keys in ascending order. */
  ghost predicate IsSortedKeys(keys: seq<string>, selector: Labels) {
    && (forall k :: k in keys <==> k in selector)
    && forall i, j :: 0 <= i < j < |keys| ==> AtMost(keys[i], keys[j])
  }

  /** `get_service_only_selector_key`. */
  method GetServiceOnlySelectorKey(service: Labels, workload: Option<Labels>, keys: seq<string>)
    returns (r: Result<string, Error>)
    requires IsSortedKeys(keys, service)
    ensures var own := if workload.Some? then workload.value else map[];
            match r
            case Ok(key) => IsServiceOnlyKey(service, own, key)
            case Err(e) => e == NoServiceOnlyLabel && forall k :: k in service ==> k in own
  {
    var own := if workload.Some? then workload.value else map[];
    for i := 0 to |keys|
      invariant forall j :: 0 <= j < i ==> keys[j] in own
    {
      if keys[i] !in own {
        forall k | k in service && k !in own ensures AtMost(keys[i], k) {
          assert k in keys;
          Reflexive(k);
        }
        return Ok(keys[i]);
      }
    }
    r := Err(NoServiceOnlyLabel);
  }

  predicate ReadyMember(pods: Pods, selector: Labels, name: string) {
    name in pods && pods[name].ready && Selects(selector, pods[name].labels)
  }

  /** `get_ready_service_pods`. */
  function ReadyMembers(pods: Pods, selector: Labels): set<string> {
    set name | name in pods && ReadyMember(pods, selector, name)
  }

  /** The pods a selector owns, ready or not. */
  function Members(pods: Pods, selector: Labels): set<string> {
    set name | name in pods && Selects(selector, pods[name].labels)
  }

  /** The undo record in the shared context. */
  datatype DrainRecord = DrainRecord(pod: string, key: string, original: string, drained: string)

  function Patch(pods: Pods, name: string, key: string, value: string): Pods
    requires name in pods
  {
    pods[name := pods[name].(labels := pods[name].labels[key := value])]
  }

  /** The pods of the namespace, changed by label patches, and the undo record. */
  class Cluster {
    var pods: Pods
    var drain: Option<DrainRecord>

    constructor (pods: Pods)
      ensures this.pods == pods && drain == None
    {
      this.pods, drain := pods, None;
    }

    /** `patch_namespaced_pod` with one label. */
    method PatchLabel(name: string, key: string, value: string)
      requires name in pods
      modifies `pods
      ensures pods == Patch(old(pods), name, key, value)
    {
      pods := pods[name := pods[name].(labels := pods[name].labels[key := value])];
    }

    /**
     * `drain_pod_from_service_endpoints` up to the wait: `service` is the selector of the resolved Service
     * if there is one, `chosen` the pod that `random.choice` takes.
     */
    method Drain(service: Option<Labels>, workload: Option<Labels>, keys: seq<string>, chosen: string)
      returns (r: Result<string, Error>)
      requires service.Some? ==> IsSortedKeys(keys, service.value)
      requires service.Some? && 2 <= |ReadyMembers(pods, service.value)| ==> chosen in ReadyMembers(pods, service.value)
      modifies this
      ensures match r
              case Err(e) => pods == old(pods) && drain == old(drain)
              case Ok(name) =>
                && service.Some? && name == chosen && 2 <= |ReadyMembers(old(pods), service.value)|
                && ReadyMember(old(pods), service.value, name)
                && drain.Some? && var d := drain.value;
                && IsServiceOnlyKey(service.value, if workload.Some? then workload.value else map[], d.key)
                && d == DrainRecord(name, d.key, service.value[d.key], DRAINED)
                && pods == Patch(old(pods), name, d.key, DRAINED)
      ensures var own := if workload.Some? then workload.value else map[];
              r.Ok? <==>
                && service.Some?
                && (exists key :: key in service.value && key !in own)
                && 2 <= |ReadyMembers(old(pods), service.value)|
                && old(pods)[chosen].ip != ""
      ensures r.Err? ==>
                match r.error
                case ServiceNotResolved => service.None?
                case SelectorMissing => service == Some(map[])
                case NoServiceOnlyLabel => service.Some? && workload.Some? && service.value.Keys <= workload.value.Keys
                case InsufficientReady => service.Some? && |ReadyMembers(pods, service.value)| < 2
                case PodIpMissing => chosen in pods && pods[chosen].ip == ""
                case LabelMismatch => false
    {
      if service.None? {
        return Err(ServiceNotResolved);
      }
      var selector := service.value;
      if selector == map[] {
        return Err(SelectorMissing);
      }
      var found := GetServiceOnlySelectorKey(selector, workload, keys);
      if found.Err? {
        return Err(found.error);
      }
      var key := found.value;
      if |ReadyMembers(pods, selector)| < 2 {
        return Err(InsufficientReady);
      }
      var pod := pods[chosen];
      if pod.ip == "" {
        return Err(PodIpMissing);
      }
      if key !in pod.labels || pod.labels[key] != selector[key] {
        return Err(LabelMismatch);
      }
      var original := pod.labels[key];
      PatchLabel(chosen, key, DRAINED);
      drain := Some(DrainRecord(chosen, key, original, DRAINED));
      r := Ok(chosen);
    }

    /** `restore_pod_to_service_endpoints` up to the wait; without a record it fails. */
    method Restore() returns (ok: bool)
      requires drain.Some? ==> drain.value.pod in pods
      modifies `pods
      ensures ok <==> drain.Some?
      ensures pods == if drain.None? then old(pods)
                      else Patch(old(pods), drain.value.pod, drain.value.key, drain.value.original)
    {
      if drain.None? {
        return false;
      }
      PatchLabel(drain.value.pod, drain.value.key, drain.value.original);
      ok := true;
    }
  }

  /** What a successful drain did; `record` is what it left for the rollback. */
  ghost predicate Drained(pods: Pods, service: Labels, workload: Labels, record: DrainRecord) {
    && 2 <= |ReadyMembers(pods, service)|
    && ReadyMember(pods, service, record.pod)
    && IsServiceOnlyKey(service, workload, record.key)
    && record == DrainRecord(record.pod, record.key, service[record.key], DRAINED)
  }

  /**
   * Draining takes exactly the chosen pod out of the ready members of the Service, and leaves at least one,
   * if and only if the Service does not itself select the drained marker; otherwise nothing leaves. The
   * pods the workload owns are the same in any case.
   */
  lemma DrainTakesOneOut(pods: Pods, service: Labels, workload: Labels, record: DrainRecord)
    requires Drained(pods, service, workload, record)
    ensures var after := Patch(pods, record.pod, record.key, record.drained);
            && (ReadyMembers(after, service) == ReadyMembers(pods, service) - {record.pod}
                <==> service[record.key] != DRAINED)
            && 1 <= |ReadyMembers(after, service)|
            && Members(after, workload) == Members(pods, workload)
  {
    var after := Patch(pods, record.pod, record.key, record.drained);
    forall name | name in pods
      ensures Selects(workload, after[name].labels) <==> Selects(workload, pods[name].labels)
      ensures name != record.pod ==> (ReadyMember(after, service, name) <==> ReadyMember(pods, service, name))
      ensures ReadyMember(after, service, record.pod) <==> service[record.key] == DRAINED
    {
    }
    assert record.pod in ReadyMembers(pods, service);
    if service[record.key] != DRAINED {
      assert ReadyMembers(after, service) == ReadyMembers(pods, service) - {record.pod};
    } else {
      assert ReadyMembers(after, service) == ReadyMembers(pods, service);
    }
  }

  /** The pod carries every label the Service asks for. */
  predicate Carries(pod: Pod, service: Labels) {
    forall key :: key in service ==> key in pod.labels && pod.labels[key] == service[key]
  }

  /**
   * On the fields of the pods: before a drain at least two pods are ready with all labels of the Service. After it
   * one of them has lost them, and is otherwise as it was, ready as before; no other pod has changed; and one that
   * is ready with all labels is left.
   */
  lemma DrainOnFields(pods: Pods, service: Labels, workload: Labels, record: DrainRecord) returns (left: string)
    requires Drained(pods, service, workload, record) && service[record.key] != DRAINED
    ensures var after := Patch(pods, record.pod, record.key, record.drained);
            && record.pod in pods && pods[record.pod].ready && Carries(pods[record.pod], service)
            && left != record.pod && left in pods && pods[left].ready && Carries(pods[left], service)
            && after[record.pod].ready && !Carries(after[record.pod], service)
            && after[record.pod].labels == pods[record.pod].labels[record.key := "resilops-drained-true"]
            && after[record.pod].ip == pods[record.pod].ip
            && after.Keys == pods.Keys
            && (forall name :: name in pods && name != record.pod ==> after[name] == pods[name])
  {
    var members := ReadyMembers(pods, service);
    assert record.pod in members && |members - {record.pod}| == |members| - 1;
    left :| left in members - {record.pod};
  }

  /** Restoring after a drain gives every pod its labels back. */
  lemma RestoreUndoesDrain(pods: Pods, service: Labels, workload: Labels, record: DrainRecord)
    requires Drained(pods, service, workload, record)
    ensures Patch(Patch(pods, record.pod, record.key, record.drained), record.pod, record.key, record.original) == pods
  {
    var labels := pods[record.pod].labels;
    assert labels[record.key := record.drained][record.key := record.original] == labels;
  }

  /**
   * Whatever else happens to the labels in between: after the restore the pod is selected again exactly
   * when the other labels the Service asks for are still there.
   */
  lemma RestoreReturnsPod(pods: Pods, service: Labels, workload: Labels, record: DrainRecord, later: Pods)
    requires Drained(pods, service, workload, record) && record.pod in later
    ensures var restored := Patch(later, record.pod, record.key, record.original);
            Selects(service, restored[record.pod].labels)
            <==> Selects(service - {record.key}, later[record.pod].labels)
  {
  }

  /**
   * The record holds one drain. After two drains, which always hit different pods, any number of restores
   * leaves the first pod out of the Service.
   */
  lemma SecondDrainForgetsFirst(pods: Pods, service: Labels, workload: Labels, first: DrainRecord, second: DrainRecord)
    requires Drained(pods, service, workload, first) && service[first.key] != DRAINED
    requires var between := Patch(pods, first.pod, first.key, first.drained);
             Drained(between, service, workload, second)
    ensures first.pod != second.pod
    ensures var both := Patch(Patch(pods, first.pod, first.key, first.drained), second.pod, second.key, second.drained);
            var restored := Patch(both, second.pod, second.key, second.original);
            && restored == Patch(pods, first.pod, first.key, first.drained)
            && Patch(restored, second.pod, second.key, second.original) == restored
            && !ReadyMember(restored, service, first.pod)
  {
    var between := Patch(pods, first.pod, first.key, first.drained);
    assert !Selects(service, between[first.pod].labels);
    RestoreUndoesDrain(between, service, workload, second);
    assert between[second.pod].labels[second.key := second.original] == between[second.pod].labels;
  }

  /** A sequence of drains, each on the labels the one before has left. */
  ghost predicate DrainedInTurn(pods: Pods, service: Labels, workload: Labels, records: seq<DrainRecord>)
    decreases |records|
  {
    |records| > 0 ==>
      && Drained(pods, service, workload, records[0])
      && DrainedInTurn(Patch(pods, records[0].pod, records[0].key, records[0].drained), service, workload, records[1..])
  }

  ghost function AfterDrains(pods: Pods, service: Labels, workload: Labels, records: seq<DrainRecord>): Pods
    requires DrainedInTurn(pods, service, workload, records)
    decreases |records|
  {
    if |records| == 0 then pods
    else
      var r := records[0];
      AfterDrains(Patch(pods, r.pod, r.key, r.drained), service, workload, records[1..])
  }

  /** All drains of a Service change the same label. */
  lemma SameKey(service: Labels, workload: Labels, a: string, b: string)
    requires IsServiceOnlyKey(service, workload, a) && IsServiceOnlyKey(service, workload, b)
    ensures a == b
  {
    Antisymmetric(a, b);
  }

  lemma {:induction false} EveryDrain(
    pods: Pods, service: Labels, workload: Labels, records: seq<DrainRecord>, key: string)
    requires DrainedInTurn(pods, service, workload, records) && IsServiceOnlyKey(service, workload, key)
    ensures AfterDrains(pods, service, workload, records).Keys == pods.Keys
    ensures forall r :: r in records ==> r == DrainRecord(r.pod, key, service[key], DRAINED) && r.pod in pods
    decreases |records|
  {
    if |records| > 0 {
      var r := records[0];
      SameKey(service, workload, r.key, key);
      EveryDrain(Patch(pods, r.pod, r.key, r.drained), service, workload, records[1..], key);
    }
  }

  /** If the Service selects the marker itself, no drain changes anything. */
  lemma {:induction false} DrainsChangeNothing(
    pods: Pods, service: Labels, workload: Labels, records: seq<DrainRecord>, key: string)
    requires DrainedInTurn(pods, service, workload, records) && IsServiceOnlyKey(service, workload, key)
    requires service[key] == DRAINED
    ensures AfterDrains(pods, service, workload, records) == pods
    ensures forall r :: r in records ==>
              r.pod in pods && key in pods[r.pod].labels && pods[r.pod].labels[key] == DRAINED
    decreases |records|
  {
    if |records| > 0 {
      var r := records[0];
      SameKey(service, workload, r.key, key);
      assert pods[r.pod].labels[key := DRAINED] == pods[r.pod].labels;
      assert Patch(pods, r.pod, r.key, r.drained) == pods;
      DrainsChangeNothing(pods, service, workload, records[1..], key);
    }
  }

  /** A pod with the marker is not drained again, and keeps it. */
  lemma {:induction false} MarkerStays(
    pods: Pods, service: Labels, workload: Labels, records: seq<DrainRecord>, key: string, name: string)
    requires DrainedInTurn(pods, service, workload, records) && IsServiceOnlyKey(service, workload, key)
    requires name in pods && key in pods[name].labels && pods[name].labels[key] == DRAINED != service[key]
    ensures var after := AfterDrains(pods, service, workload, records);
            name in after && key in after[name].labels && after[name].labels[key] == DRAINED
    ensures forall r :: r in records ==> r.pod != name
    decreases |records|
  {
    if |records| > 0 {
      var r := records[0];
      MarkerStays(Patch(pods, r.pod, r.key, r.drained), service, workload, records[1..], key, name);
    }
  }

  /** What the rollback leaves: it patches the label of the last record back. */
  ghost function Restored(pods: Pods, service: Labels, workload: Labels, records: seq<DrainRecord>): Pods
    requires 0 < |records| && DrainedInTurn(pods, service, workload, records)
  {
    var after, last := AfterDrains(pods, service, workload, records), records[|records| - 1];
    EveryDrain(pods, service, workload, records, records[0].key);
    assert last in records;
    Patch(after, last.pod, last.key, last.original)
  }

  /** If the Service does not select the marker, every pod but the last one drained stays out of it. */
  lemma {:induction false} OnlyLastReturns(
    pods: Pods, service: Labels, workload: Labels, records: seq<DrainRecord>, i: nat)
    requires i < |records| - 1 && DrainedInTurn(pods, service, workload, records)
    requires service[records[0].key] != DRAINED
    ensures records[i].pod in pods && !ReadyMember(Restored(pods, service, workload, records), service, records[i].pod)
    ensures Restored(pods, service, workload, records) != pods
    decreases |records|
  {
    var r, rest := records[0], records[1..];
    var next := Patch(pods, r.pod, r.key, r.drained);
    SameKey(service, workload, r.key, rest[0].key);
    EveryDrain(pods, service, workload, records, r.key);
    assert rest[|rest| - 1] == records[|records| - 1] && records[i] in records;
    MarkerStays(next, service, workload, rest, r.key, r.pod);
    assert rest[|rest| - 1] in rest;
    assert Restored(pods, service, workload, records)[r.pod].labels[r.key] == DRAINED;
    if i > 0 {
      OnlyLastReturns(next, service, workload, rest, i - 1);
    }
  }

  /**
   * The rollback undoes a sequence of drains if and only if there was only one, or the Service selects the
   * marker, so that none took a pod out.
   */
  lemma RestoreUndoesDrainsIff(pods: Pods, service: Labels, workload: Labels, records: seq<DrainRecord>)
    requires 0 < |records| && DrainedInTurn(pods, service, workload, records)
    ensures Restored(pods, service, workload, records) == pods
            <==> |records| == 1 || service[records[0].key] == DRAINED
  {
    var last := records[|records| - 1];
    if service[records[0].key] == DRAINED {
      EveryDrain(pods, service, workload, records, records[0].key);
      DrainsChangeNothing(pods, service, workload, records, records[0].key);
      assert last in records;
      assert pods[last.pod].labels[last.key := DRAINED] == pods[last.pod].labels;
    } else if |records| == 1 {
      var next := Patch(pods, last.pod, last.key, last.drained);
      assert AfterDrains(pods, service, workload, records)
             == AfterDrains(next, service, workload, records[1..]) == next;
      RestoreUndoesDrain(pods, service, workload, records[0]);
    } else {
      OnlyLastReturns(pods, service, workload, records, 0);
    }
  }
}
