/**
 * The shared context of src/reslib/core/context.py. A scenario context is a dictionary that is
 * reached through a context variable: each task has its own variable, a child task starts with the
 * value of its parent, and so both hold the same dictionary.
 */
module Contexts {
  import opened Wrappers

  type TaskId = nat

  /** The variable of a task: the dictionary it was born with, and those it has entered since. */
  datatype Variable = Variable(inherited: Option<nat>, entered: seq<nat>)
  {
    function Current(): Option<nat> {
      if |entered| > 0 then Some(entered[|entered| - 1]) else inherited
    }
  }

  /** Dictionaries are known by their position; they are shared, never copied. */
  datatype World<V> = World(dicts: seq<map<string, V>>, tasks: map<TaskId, Variable>)
  {
    function Current(t: TaskId): Option<nat> {
      if t in tasks && tasks[t].Current().Some? && tasks[t].Current().value < |dicts|
      then tasks[t].Current() else None
    }
  }

  datatype Op<V> =
    | Enter(task: TaskId, data: map<string, V>)
    | Leave(task: TaskId)
    | Spawn(task: TaskId, child: TaskId)
    | Set(task: TaskId, key: string, value: V)

  /** `get_context`: no context, a missing key, or the value. */
  datatype Lookup<+V> = NotActive | Missing | Found(value: V)

  function Get<V>(w: World<V>, t: TaskId, key: string): Lookup<V> {
    match w.Current(t)
    case None => NotActive
    case Some(d) => if key in w.dicts[d] then Found(w.dicts[d][key]) else Missing
  }

  predicate Enabled<V>(w: World<V>, op: Op<V>) {
    && op.task in w.tasks
    && match op
       case Enter(_, _) => true
       case Leave(t) => |w.tasks[t].entered| > 0
       case Spawn(_, child) => child !in w.tasks
       case Set(t, _, _) => w.Current(t).Some?
  }

  function After<V>(w: World<V>, op: Op<V>): World<V>
    requires Enabled(w, op)
  {
    match op
    case Enter(t, data) =>
      var v := w.tasks[t];
      World(w.dicts + [data], w.tasks[t := v.(entered := v.entered + [|w.dicts|])])
    case Leave(t) =>
      var v := w.tasks[t];
      w.(tasks := w.tasks[t := v.(entered := v.entered[..|v.entered| - 1])])
    case Spawn(t, child) =>
      w.(tasks := w.tasks[child := Variable(w.Current(t), [])])
    case Set(t, key, value) =>
      var d := w.Current(t).value;
      w.(dicts := w.dicts[d := w.dicts[d][key := value]])
  }

  ghost predicate IsProgram<V>(w: World<V>, ops: seq<Op<V>>)
    decreases |ops|
  {
    |ops| > 0 ==> Enabled(w, ops[0]) && IsProgram(After(w, ops[0]), ops[1..])
  }

  ghost function RunAll<V>(w: World<V>, ops: seq<Op<V>>): World<V>
    requires IsProgram(w, ops)
    decreases |ops|
  {
    if |ops| == 0 then w else RunAll(After(w, ops[0]), ops[1..])
  }

  /** The context variables and dictionaries of a process, changed in place. */
  class ContextStore<V> {
    var dicts: seq<map<string, V>>
    var tasks: map<TaskId, Variable>

    ghost function State(): World<V>
      reads this
    {
      World(dicts, tasks)
    }

    /** One task, no context. */
    constructor (root: TaskId)
      ensures State() == World([], map[root := Variable(None, [])])
    {
      dicts, tasks := [], map[root := Variable(None, [])];
    }

    method EnterContext(t: TaskId, data: map<string, V>)
      requires Enabled(State(), Enter(t, data))
      modifies this
      ensures State() == After(old(State()), Enter(t, data))
    {
      var v := tasks[t];
      tasks := tasks[t := v.(entered := v.entered + [|dicts|])];
      dicts := dicts + [data];
    }

    method LeaveContext(t: TaskId)
      requires Enabled(State(), Leave(t))
      modifies this
      ensures State() == After(old(State()), Leave(t))
    {
      var v := tasks[t];
      tasks := tasks[t := v.(entered := v.entered[..|v.entered| - 1])];
    }

    method CreateTask(t: TaskId, child: TaskId)
      requires Enabled(State(), Spawn(t, child))
      modifies this
      ensures State() == After(old(State()), Spawn(t, child))
    {
      var v := tasks[t];
      var current := v.Current();
      if current.Some? && |dicts| <= current.value {
        current := None;
      }
      tasks := tasks[child := Variable(current, [])];
    }

    method SetContext(t: TaskId, key: string, value: V)
      requires Enabled(State(), Set(t, key, value))
      modifies this
      ensures State() == After(old(State()), Set(t, key, value))
    {
      var d := tasks[t].Current().value;
      dicts := dicts[d := dicts[d][key := value]];
    }

    /** `fallback` is the default if a missing key is not to raise. */
    method GetContext(t: TaskId, key: string, fallback: Option<V>) returns (found: Lookup<V>)
      requires t in tasks
      ensures found == if Get(State(), t, key).Missing? && fallback.Some? then Found(fallback.value)
                       else Get(State(), t, key)
    {
      var current := tasks[t].Current();
      if current == None || |dicts| <= current.value {
        return NotActive;
      }
      if key in dicts[current.value] {
        return Found(dicts[current.value][key]);
      }
      found := if fallback.Some? then Found(fallback.value) else Missing;
    }
  }

  /** Neither task enters or leaves a context in the program. */
  ghost predicate StaysPut<V>(t: TaskId, ops: seq<Op<V>>) {
    forall op :: op in ops && op.task == t ==> !op.Enter? && !op.Leave?
  }

  lemma {:induction false} KeepsDictionary<V>(w: World<V>, ops: seq<Op<V>>, t: TaskId)
    requires IsProgram(w, ops) && t in w.tasks && StaysPut(t, ops)
    ensures var w' := RunAll(w, ops);
            t in w'.tasks && w'.tasks[t] == w.tasks[t] && |w.dicts| <= |w'.dicts|
    decreases |ops|
  {
    if |ops| > 0 {
      KeepsDictionary(After(w, ops[0]), ops[1..], t);
    }
  }

  /**
   * A child task and its parent hold the same dictionary: whatever all tasks do after the child was
   * created, if these two do not enter or leave a context, each sees what the other sets.
   */
  lemma ChildWritesAreSeen<V>(w: World<V>, parent: TaskId, child: TaskId, ops: seq<Op<V>>, key: string, value: V)
    requires Enabled(w, Spawn(parent, child)) && w.Current(parent).Some?
    requires var born := After(w, Spawn(parent, child));
             IsProgram(born, ops) && StaysPut(parent, ops) && StaysPut(child, ops)
    ensures var w' := RunAll(After(w, Spawn(parent, child)), ops);
            && Enabled(w', Set(child, key, value)) && Enabled(w', Set(parent, key, value))
            && Get(After(w', Set(child, key, value)), parent, key) == Found(value)
            && Get(After(w', Set(parent, key, value)), child, key) == Found(value)
  {
    var born := After(w, Spawn(parent, child));
    KeepsDictionary(born, ops, parent);
    KeepsDictionary(born, ops, child);
  }

  /** The tasks that belong to a scope: those inside, and the children they create. */
  function Grow<V>(inside: set<TaskId>, op: Op<V>): set<TaskId> {
    if op.Spawn? && op.task in inside then inside + {op.child} else inside
  }

  /**
   * A program in which task `t` stays inside a context it entered at depth `depth`, and tasks
   * from outside do not write to dictionary `d`.
   */
  ghost predicate InScope<V>(w: World<V>, inside: set<TaskId>, t: TaskId, depth: nat, d: nat, ops: seq<Op<V>>)
    decreases |ops|
  {
    |ops| > 0 ==>
      var op := ops[0];
      && Enabled(w, op)
      && (op.Leave? && op.task == t ==> depth + 1 < |w.tasks[t].entered|)
      && (op.Set? && op.task !in inside ==> w.Current(op.task) != Some(d))
      && InScope(After(w, op), Grow(inside, op), t, depth, d, ops[1..])
  }

  /** No task inside the scope can reach a dictionary older than `n`. */
  ghost predicate Confined<V>(w: World<V>, inside: set<TaskId>, t: TaskId, outer: Variable, n: nat) {
    && n <= |w.dicts|
    && t in inside && t in w.tasks
    && w.tasks[t].inherited == outer.inherited
    && |outer.entered| < |w.tasks[t].entered|
    && w.tasks[t].entered[..|outer.entered|] == outer.entered
    && (forall k :: |outer.entered| <= k < |w.tasks[t].entered| ==> n <= w.tasks[t].entered[k])
    && forall u :: u in inside && u != t ==>
         && u in w.tasks
         && (w.tasks[u].inherited.Some? ==> n <= w.tasks[u].inherited.value)
         && forall k :: 0 <= k < |w.tasks[u].entered| ==> n <= w.tasks[u].entered[k]
  }

  lemma ConfinedStep<V>(w: World<V>, inside: set<TaskId>, t: TaskId, outer: Variable, n: nat, d: nat, op: Op<V>)
    requires Confined(w, inside, t, outer, n) && d < n && Enabled(w, op)
    requires op.Leave? && op.task == t ==> |outer.entered| + 1 < |w.tasks[t].entered|
    requires op.Set? && op.task !in inside ==> w.Current(op.task) != Some(d)
    ensures Confined(After(w, op), Grow(inside, op), t, outer, n)
    ensures After(w, op).dicts[d] == w.dicts[d]
  {
  }

  lemma {:induction false} ScopeHolds<V>(
    w: World<V>, inside: set<TaskId>, t: TaskId, outer: Variable, n: nat, d: nat, ops: seq<Op<V>>)
    requires Confined(w, inside, t, outer, n) && d < n
    requires InScope(w, inside, t, |outer.entered|, d, ops) && IsProgram(w, ops)
    ensures var w' := RunAll(w, ops);
            && n <= |w'.dicts| && w'.dicts[d] == w.dicts[d]
            && t in w'.tasks && w'.tasks[t].inherited == outer.inherited
            && |outer.entered| < |w'.tasks[t].entered|
            && w'.tasks[t].entered[..|outer.entered|] == outer.entered
    decreases |ops|
  {
    if |ops| > 0 {
      ConfinedStep(w, inside, t, outer, n, d, ops[0]);
      ScopeHolds(After(w, ops[0]), Grow(inside, ops[0]), t, outer, n, d, ops[1..]);
    }
  }

  /**
   * Nesting: between entering an inner context and leaving it, tasks inside and outside run in any
   * interleaving, with contexts and children of their own. Leaving gives the task its outer context
   * back, and an outer dictionary that no task from outside wrote to is as it was.
   */
  lemma InnerContextIsIsolated<V>(w: World<V>, t: TaskId, data: map<string, V>, ops: seq<Op<V>>, d: nat)
    requires t in w.tasks && d < |w.dicts|
    requires InScope(After(w, Enter(t, data)), {t}, t, |w.tasks[t].entered|, d, ops)
    requires IsProgram(After(w, Enter(t, data)), ops)
    requires var inner := RunAll(After(w, Enter(t, data)), ops);
             t in inner.tasks && |inner.tasks[t].entered| == |w.tasks[t].entered| + 1
    ensures var inner := RunAll(After(w, Enter(t, data)), ops);
            && Enabled(inner, Leave(t))
            && var left := After(inner, Leave(t));
            && left.tasks[t] == w.tasks[t]
            && d < |left.dicts| && left.dicts[d] == w.dicts[d]
  {
    var entered := After(w, Enter(t, data));
    assert entered.dicts[d] == w.dicts[d];
    ScopeHolds(entered, {t}, t, w.tasks[t], |w.dicts|, d, ops);
  }

  /** What a scenario run is given; no writer of the library uses these keys. */
  const PROTECTED := {"workload", "scenario", "telemetry"}

  /** The keys the library writes. */
  const WRITTEN := {
    "last_pod_killed_at", "last_pod_evicted_at", "endpoint_drain", "stress_started_at", "stress_context",
    "hpa_scale_up_event", "hpa_scale_down_event", "hpa_scaled_pods_ready", "desired_replica_reached",
    "replicas_restored", "rolling_restart_started_at", "rolling_restart_generation", "rolling_restart_complete"}

  ghost predicate WritesOwnKeys<V>(ops: seq<Op<V>>) {
    forall op :: op in ops && op.Set? ==> op.key in WRITTEN
  }

  lemma {:induction false} ProtectedEntriesStay<V>(w: World<V>, ops: seq<Op<V>>, d: nat, key: string)
    requires IsProgram(w, ops) && WritesOwnKeys(ops) && d < |w.dicts| && key in PROTECTED
    ensures var w' := RunAll(w, ops);
            && d < |w'.dicts|
            && (key in w.dicts[d] <==> key in w'.dicts[d])
            && (key in w.dicts[d] ==> w'.dicts[d][key] == w.dicts[d][key])
    decreases |ops|
  {
    if |ops| > 0 {
      KeysDiffer(key);
      ProtectedEntriesStay(After(w, ops[0]), ops[1..], d, key);
    }
  }

  lemma KeysDiffer(key: string)
    requires key in PROTECTED
    ensures key !in WRITTEN
  {
  }

  /**
   * All phases read one snapshot: after the run has entered its context, at every point of every
   * interleaving of library code, each task whose context is that one gets the workload, scenario
   * and telemetry the run was started with.
   */
  lemma OneSnapshotForAllPhases<V>(
    w: World<V>, t: TaskId, data: map<string, V>, ops: seq<Op<V>>, u: TaskId, key: string)
    requires t in w.tasks && key in PROTECTED && key in data
    requires IsProgram(After(w, Enter(t, data)), ops) && WritesOwnKeys(ops)
    requires RunAll(After(w, Enter(t, data)), ops).Current(u) == Some(|w.dicts|)
    ensures Get(RunAll(After(w, Enter(t, data)), ops), u, key) == Found(data[key])
  {
    ProtectedEntriesStay(After(w, Enter(t, data)), ops, |w.dicts|, key);
  }

  /** The tasks of a run: its own, and those that its tasks create. */
  function Family<V>(family: set<TaskId>, ops: seq<Op<V>>): set<TaskId>
    decreases |ops|
  {
    if |ops| == 0 then family else Family(Grow(family, ops[0]), ops[1..])
  }

  /** No task of the family enters or leaves a context. */
  predicate StayInside<V>(family: set<TaskId>, ops: seq<Op<V>>)
    decreases |ops|
  {
    |ops| > 0 ==>
      && (ops[0].task in family ==> !ops[0].Enter? && !ops[0].Leave?)
      && StayInside(Grow(family, ops[0]), ops[1..])
  }

  lemma {:induction false} FamilyShares<V>(w: World<V>, family: set<TaskId>, ops: seq<Op<V>>, d: nat)
    requires IsProgram(w, ops) && StayInside(family, ops)
    requires forall u :: u in family ==> w.Current(u) == Some(d)
    ensures forall u :: u in Family(family, ops) ==> RunAll(w, ops).Current(u) == Some(d)
    decreases |ops|
  {
    if |ops| > 0 {
      FamilyShares(After(w, ops[0]), Grow(family, ops[0]), ops[1..], d);
    }
  }

  /**
   * A scenario run enters its context once, and neither it nor the tasks it creates enter another. Then
   * the run's task and all its descendants read the workload, scenario and telemetry the run was started
   * with, at every point of every interleaving with other runs.
   */
  lemma EveryTaskOfRunReadsSnapshot<V>(
    w: World<V>, t: TaskId, data: map<string, V>, ops: seq<Op<V>>, u: TaskId, key: string)
    requires t in w.tasks && key in PROTECTED && key in data
    requires IsProgram(After(w, Enter(t, data)), ops) && WritesOwnKeys(ops)
    requires StayInside({t}, ops) && u in Family({t}, ops)
    ensures Get(RunAll(After(w, Enter(t, data)), ops), u, key) == Found(data[key])
  {
    FamilyShares(After(w, Enter(t, data)), {t}, ops, |w.dicts|);
    OneSnapshotForAllPhases(w, t, data, ops, u, key);
  }
}
