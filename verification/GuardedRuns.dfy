/**
 * Whole runs of a scenario with the two disruption guardrails and one disruption action: the runner of
 * src/reslib/runtime/scenario.py over the handlers of src/reslib/guardrails and src/reslib/actions/pod.py.
 */
module GuardedRuns {
  import opened Wrappers
  import S = Scenario
  import T = Traces
  import D = Disruption
  import opened Sampling

  const MIN_REMAINING := "validate_min_remaining_replicas"
  const PDB := "ensure_pdb_not_violated"

  /** The scenario has a guardrail step of this name. */
  ghost predicate HasGuardrail(steps: seq<S.Step>, name: string) {
    exists i: nat :: i < |steps| && steps[i] == S.Step(S.Guardrail, name)
  }

  /** The handlers of the two guardrails succeed only as they judge the plan. */
  ghost predicate GuardrailsJudge(steps: seq<S.Step>, w: S.World, p: D.Plan) {
    && (forall i: nat :: i < |steps| && steps[i] == S.Step(S.Guardrail, MIN_REMAINING) && w.outcome(i).Succeeds?
          ==> D.ValidateMinRemaining(p).Ok?)
    && forall i: nat :: i < |steps| && steps[i] == S.Step(S.Guardrail, PDB) && w.outcome(i).Succeeds?
         ==> D.EnsurePdbNotViolated(p).Ok?
  }

  /**
   * The pods that may have been disrupted once these events have been emitted: none before the action step
   * is announced, and from then on any number of the pods the action takes, in its order.
   */
  ghost predicate MayBeDisrupted(p: D.Plan, a: D.Action, name: string, events: seq<S.Event>, soFar: seq<string>) {
    && soFar <= D.Taken(p, a)
    && (S.Started(S.Action, name) !in events ==> soFar == [])
  }

  /** An action that is announced has all its guardrails behind it. */
  lemma AnnouncedIsGuarded(steps: seq<S.Step>, warmup: nat, w: S.World, name: string)
    requires S.Started(S.Action, name) in T.TraceOf(steps, warmup, w)
    ensures forall i: nat :: i < |steps| && S.Runs(steps[i], S.Guardrail) ==> w.outcome(i).Succeeds?
  {
    T.PhaseFailsIff(steps, S.Guardrail, w, T.FRESH);
    var guarded := S.Phase(steps, S.Guardrail, w, T.FRESH);
    if guarded.failed.Some? {
      var guards := T.PhaseAdds(steps, S.Guardrail, w, T.FRESH);
      T.AddsOwnPhase(steps, S.Guardrail, w, T.FRESH, guards);
    }
  }

  /**
   * In every run, whatever the other steps and the observer do: after every event, and at every moment in
   * between, the pods disrupted so far are none, or distinct pods of the workload whose loss keeps every bound
   * that both guardrails judge.
   */
  lemma EveryMomentIsHarmless(steps: seq<S.Step>, warmup: nat, w: S.World, p: D.Plan, a: D.Action, name: string,
                              k: nat, soFar: seq<string>)
    requires !p.endpointDrain && D.Draws(p, a) && Distinct(a.pods)
    requires HasGuardrail(steps, MIN_REMAINING) && HasGuardrail(steps, PDB) && GuardrailsJudge(steps, w, p)
    requires k <= |T.TraceOf(steps, warmup, w)|
    requires MayBeDisrupted(p, a, name, T.TraceOf(steps, warmup, w)[..k], soFar)
    ensures soFar == [] || D.Harmless(p, a.pods, soFar)
  {
    if soFar != [] {
      AnnouncedIsGuarded(steps, warmup, w, name);
      assert D.Guarded(p);
      assert soFar == a.drawn[..|soFar|];
      D.EveryPrefixIsSafe(p, a.pods, a.drawn, |soFar|);
    }
  }

  /** Both guardrails are needed: without the one or the other some run disrupts what it would have refused. */
  lemma BothGuardrailsNeeded(without: string)
    returns (steps: seq<S.Step>, w: S.World, p: D.Plan, a: D.Action)
    requires without in {MIN_REMAINING, PDB}
    ensures !p.endpointDrain && D.Draws(p, a) && Distinct(a.pods) && GuardrailsJudge(steps, w, p)
    ensures HasGuardrail(steps, if without == PDB then MIN_REMAINING else PDB) && !HasGuardrail(steps, without)
    ensures S.Run(steps, 0, w, T.FRESH).1 == S.Completed
    ensures S.Started(S.Action, "terminate_pods") in T.TraceOf(steps, 0, w)
    ensures !D.Safe(p, |D.Taken(p, a)|)
  {
    var other := if without == PDB then MIN_REMAINING else PDB;
    steps := [S.Step(S.Guardrail, other), S.Step(S.Action, "terminate_pods")];
    w := S.World([], S.Looping, S.Looping);
    p := if without == PDB then D.Plan(false, D.Absolute, 1, 1, 2, Some(D.Pdb(Some(2), None)))
         else D.Plan(false, D.Absolute, 1, 1, 1, Some(D.Pdb(None, None)));
    a := D.Action(["a"], ["a"], 1, false);
    T.CompletesIff(steps, 0, w);
    assert steps[0] == S.Step(S.Guardrail, other);
    Announced(steps, w, 1);
  }

  /** In a run that completes every action step is announced. */
  lemma Announced(steps: seq<S.Step>, w: S.World, i: nat)
    requires S.Run(steps, 0, w, T.FRESH).1 == S.Completed && i < |steps| && S.Runs(steps[i], S.Action)
    ensures S.Started(S.Action, steps[i].name) in T.TraceOf(steps, 0, w)
  {
    T.CompletesIff(steps, 0, w);
    T.PhaseFailsIff(steps, S.Guardrail, w, T.FRESH);
    var entered := S.Phase(steps, S.Guardrail, w, T.FRESH).Emit(S.ObserverStarted);
    T.PhaseFailsIff(steps, S.Action, w, entered);
    var acts := T.PhaseAdds(steps, S.Action, w, entered);
    var acted := S.Phase(steps, S.Action, w, entered);
    var more := T.PhaseAdds(steps, S.Rollback, w, acted);
    T.SelectedAll(steps, S.Action, 0, i);
    InDone(steps, S.Selected(steps, S.Action), i);
    T.TraceOnceEntered(steps, 0, w);
  }

  lemma {:induction false} InDone(steps: seq<S.Step>, indices: seq<int>, i: nat)
    requires S.Within(indices, steps) && i in indices
    ensures S.Started(steps[i].phase, steps[i].name) in T.Done(steps, indices)
  {
    if indices[0] != i {
      InDone(steps, indices[1..], i);
    }
  }
}
