/**
 * The scenario runner: `_execute_phase` and `execute_resilience_scenario` of
 * src/reslib/runtime/scenario.py with `ObserverContext` of src/reslib/core/context.py.
 */
module Scenario {
  import opened Wrappers

  datatype PhaseName = Guardrail | Observer | Action | Rollback

  datatype Step = Step(phase: PhaseName, name: string)

  /**
   * How a handler ends, resolving it included: with a result, a `BaseError`, a `TimeoutError`, any
   * other exception, or an escape such as `CancelledError` that no clause of the runner catches.
   */
  datatype Outcome = Succeeds | BaseError | Timeout | OtherError | Escapes
  {
    predicate Caught() {
      BaseError? || Timeout? || OtherError?
    }
  }

  datatype Event =
    | Started(phase: PhaseName, name: string)
    | Success(phase: PhaseName, name: string)
    | Failed(phase: PhaseName, name: string, error: Outcome)
    | ObserverStarted
    | ObserverFailed
    | ObserverStopped

  /** The observer task: still looping, failed with an exception, or cancelled by itself. */
  datatype ObserverTask = Looping | Crashed | SelfCancelled

  /**
   * What the environment decides: how the handler of each step ends, the observer task at the end of
   * the warmup, and how awaiting it at the stop ends. `Looping` at the stop is a clean cancellation.
   */
  datatype World = World(outcomes: seq<Outcome>, atWarmup: ObserverTask, atStop: ObserverTask)
  {
    /** How the handler of step `i` ends; a step without an entry succeeds. */
    function outcome(i: nat): Outcome {
      if i < |outcomes| then outcomes[i] else Succeeds
    }
  }

  /** How the run leaves: normally, or with the exception of a step, of the observer, or a cancellation. */
  datatype Exit = Completed | StepRaised(step: int) | ObserverRaised | CancelledRaised

  /** The steps a phase runs from position `from` on: those of its type with a name, in scenario order. */
  function SelectedFrom(steps: seq<Step>, phase: PhaseName, from: nat): (indices: seq<int>)
    requires from <= |steps|
    ensures forall j :: 0 <= j < |indices| ==> from <= indices[j] < |steps| && Runs(steps[indices[j]], phase)
    ensures forall j, k :: 0 <= j < k < |indices| ==> indices[j] < indices[k]
    decreases |steps| - from
  {
    if from == |steps| then []
    else
      var rest := SelectedFrom(steps, phase, from + 1);
      if Runs(steps[from], phase) then [from] + rest else rest
  }

  function Selected(steps: seq<Step>, phase: PhaseName): (indices: seq<int>)
    ensures Within(indices, steps)
  {
    SelectedFrom(steps, phase, 0)
  }

  predicate Within(indices: seq<int>, steps: seq<Step>) {
    forall j :: 0 <= j < |indices| ==> 0 <= indices[j] < |steps|
  }

  predicate Runs(step: Step, phase: PhaseName) {
    step.name != "" && step.phase == phase
  }

  /** What a run has done so far: the steps whose handlers ran, the events, the step it failed at. */
  datatype Progress = Progress(ran: seq<int>, events: seq<Event>, failed: Option<int>)
  {
    function Emit(event: Event): Progress {
      this.(events := events + [event])
    }
  }

  /** One step: announced, run, and reported; an escape is not reported. */
  function Attempt(steps: seq<Step>, i: nat, w: World, so: Progress): Progress
    requires i < |steps|
  {
    var step := steps[i];
    var ran := so.Emit(Started(step.phase, step.name)).(ran := so.ran + [i]);
    match w.outcome(i)
    case Succeeds => ran.Emit(Success(step.phase, step.name))
    case Escapes => ran.(failed := Some(i))
    case error => ran.Emit(Failed(step.phase, step.name, error)).(failed := Some(i))
  }

  /** A phase over the steps that are still to run. */
  function RunPhase(steps: seq<Step>, indices: seq<int>, w: World, so: Progress): Progress
    requires Within(indices, steps)
  {
    if |indices| == 0 || so.failed.Some? then so
    else RunPhase(steps, indices[1..], w, Attempt(steps, indices[0], w, so))
  }

  function Phase(steps: seq<Step>, phase: PhaseName, w: World, so: Progress): Progress {
    RunPhase(steps, Selected(steps, phase), w, so)
  }

  /** The observer task as `start` finds it: without a warmup it had no chance to run. */
  function AfterWarmup(w: World, warmup: nat): ObserverTask {
    if warmup == 0 then Looping else w.atWarmup
  }

  /** Entering the observer block; an observer that has already ended aborts it. */
  function EnterObserver(observer: ObserverTask, so: Progress): (Progress, Option<Exit>) {
    var started := so.Emit(ObserverStarted);
    match observer
    case Looping => (started, None)
    case Crashed => (started.Emit(ObserverFailed), Some(ObserverRaised))
    case SelfCancelled => (started, Some(CancelledRaised))
  }

  /** The exit of the `async with` block around the actions and rollbacks. */
  function LeaveObserver(observer: ObserverTask, failed: Option<int>): Exit {
    if observer.Crashed? then ObserverRaised
    else match failed case None => Completed case Some(i) => StepRaised(i)
  }

  /** A whole run as a function of the environment. */
  function Run(steps: seq<Step>, warmup: nat, w: World, so: Progress): (Progress, Exit) {
    var guarded := Phase(steps, Guardrail, w, so);
    if guarded.failed.Some? then (guarded, StepRaised(guarded.failed.value))
    else
      var (entered, aborted) := EnterObserver(AfterWarmup(w, warmup), guarded);
      if aborted.Some? then (entered, aborted.value)
      else
        var acted := Phase(steps, Action, w, entered);
        var recovered := Phase(steps, Rollback, w, acted);
        (recovered.Emit(ObserverStopped), LeaveObserver(w.atStop, recovered.failed))
  }

  /** The telemetry recorder of a run. */
  class Telemetry {
    var events: seq<Event>

    constructor ()
      ensures events == []
    {
      events := [];
    }

    method EmitEvent(event: Event)
      modifies this
      ensures events == old(events) + [event]
    {
      events := events + [event];
    }
  }

  /** One turn of the loop of `_execute_phase`; returns whether the handler raised. */
  method ExecuteStep(telemetry: Telemetry, steps: seq<Step>, i: nat, w: World, ghost so: Progress)
    returns (raised: bool)
    requires i < |steps| && so.events == telemetry.events && so.failed == None
    modifies telemetry
    ensures telemetry.events == Attempt(steps, i, w, so).events
    ensures raised <==> Attempt(steps, i, w, so).failed == Some(i)
    ensures !raised <==> Attempt(steps, i, w, so).failed == None
  {
    var step := steps[i];
    telemetry.EmitEvent(Started(step.phase, step.name));
    match w.outcome(i) {
      case Succeeds =>
        telemetry.EmitEvent(Success(step.phase, step.name));
        return false;
      case BaseError => telemetry.EmitEvent(Failed(step.phase, step.name, BaseError));
      case Timeout => telemetry.EmitEvent(Failed(step.phase, step.name, Timeout));
      case OtherError => telemetry.EmitEvent(Failed(step.phase, step.name, OtherError));
      case Escapes =>
    }
    return true;
  }

  /** `_execute_phase`: run the selected steps in order; the first failure ends the phase. */
  method ExecutePhase(telemetry: Telemetry, steps: seq<Step>, phase: PhaseName, w: World, ghost so: Progress)
    returns (ran: seq<int>, failed: Option<int>)
    requires so.events == telemetry.events && so.failed == None
    modifies telemetry
    ensures Phase(steps, phase, w, so) == Progress(so.ran + ran, telemetry.events, failed)
  {
    ran, failed := [], None;
    var selected := Selected(steps, phase);
    ghost var now := so;
    var k := 0;
    assert selected[0..] == selected;
    while k < |selected|
      invariant 0 <= k <= |selected|
      invariant now == Progress(so.ran + ran, telemetry.events, None)
      invariant Phase(steps, phase, w, so) == RunPhase(steps, selected[k..], w, now)
    {
      assert selected[k..][0] == selected[k] && selected[k..][1..] == selected[k + 1..];
      var raised := ExecuteStep(telemetry, steps, selected[k], w, now);
      now := Attempt(steps, selected[k], w, now);
      assert so.ran + (ran + [selected[k]]) == (so.ran + ran) + [selected[k]];
      ran := ran + [selected[k]];
      if raised {
        return ran, Some(selected[k]);
      }
      k := k + 1;
    }
  }

  /** `ObserverContext`. The observer task is created by `Enter` and awaited by `Leave`. */
  class ObserverContext {
    var task: Option<ObserverTask>
    var telemetry: Telemetry?

    constructor ()
      ensures task == None && telemetry == null
    {
      task, telemetry := None, null;
    }

    /**
     * Enters the block: announces the observer, starts it, waits for the warmup, and fails fast
     * if the observer has already ended.
     */
    method Enter(recorder: Telemetry, warmup: nat, w: World, ghost so: Progress) returns (aborted: Option<Exit>)
      requires so.events == recorder.events
      modifies this, recorder
      ensures telemetry == recorder && task == Some(AfterWarmup(w, warmup))
      ensures EnterObserver(AfterWarmup(w, warmup), so) == (so.(events := recorder.events), aborted)
    {
      telemetry := recorder;
      recorder.EmitEvent(ObserverStarted);
      var started := Looping;
      if warmup > 0 {
        started := w.atWarmup;
      }
      task := Some(started);
      match started {
        case Looping => aborted := None;
        case SelfCancelled => aborted := Some(CancelledRaised);
        case Crashed =>
          recorder.EmitEvent(ObserverFailed);
          aborted := Some(ObserverRaised);
      }
    }

    /**
     * Leaves the block: cancels and awaits the observer. Its own failure replaces whatever the body
     * raised, and then the fields keep their values.
     */
    method Leave(failed: Option<int>, w: World) returns (exit: Exit)
      requires task.Some? && telemetry != null
      modifies this, telemetry
      ensures old(telemetry).events == old(telemetry.events) + [ObserverStopped]
      ensures exit == LeaveObserver(w.atStop, failed)
      ensures if w.atStop.Crashed? then task == Some(Crashed) && telemetry == old(telemetry)
              else task == None && telemetry == null
    {
      task := Some(w.atStop);
      telemetry.EmitEvent(ObserverStopped);
      if w.atStop.Crashed? {
        return ObserverRaised;
      }
      task, telemetry := None, null;
      match failed {
        case None => exit := Completed;
        case Some(i) => exit := StepRaised(i);
      }
    }
  }

  /** `execute_resilience_scenario` after the workload has been read. */
  method ExecuteScenario(telemetry: Telemetry, steps: seq<Step>, warmup: nat, w: World)
    returns (ran: seq<int>, exit: Exit)
    modifies telemetry
    ensures var (done, left) := Run(steps, warmup, w, Progress([], old(telemetry.events), None));
            ran == done.ran && telemetry.events == done.events && exit == left
  {
    ghost var so := Progress([], telemetry.events, None);
    var more, failed := ExecutePhase(telemetry, steps, Guardrail, w, so);
    ran := more;
    so := Phase(steps, Guardrail, w, so);
    assert so == Progress(ran, telemetry.events, failed);
    if failed.Some? {
      return ran, StepRaised(failed.value);
    }
    var observer := new ObserverContext();
    var aborted := observer.Enter(telemetry, warmup, w, so);
    so := so.(events := telemetry.events);
    if aborted.Some? {
      return ran, aborted.value;
    }
    more, failed := ExecutePhase(telemetry, steps, Action, w, so);
    ran := ran + more;
    so := Progress(ran, telemetry.events, failed);
    if failed == None {
      more, failed := ExecutePhase(telemetry, steps, Rollback, w, so);
      ran := ran + more;
    }
    exit := observer.Leave(failed, w);
  }
}
