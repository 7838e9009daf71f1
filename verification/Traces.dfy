/**
 * What every run of the scenario runner looks like: the language of its event traces, the handlers it
 * runs, and when it leaves normally.
 */
module Traces {
  import opened Wrappers
  import opened Scenario

  /** The events of steps that all succeed. */
  function Done(steps: seq<Step>, indices: seq<int>): seq<Event>
    requires Within(indices, steps)
  {
    if |indices| == 0 then []
    else
      var step := steps[indices[0]];
      [Started(step.phase, step.name), Success(step.phase, step.name)] + Done(steps, indices[1..])
  }

  /** The events of a step that fails; an escape leaves the start without an end. */
  function Broken(step: Step, error: Outcome): seq<Event> {
    [Started(step.phase, step.name)] + if error.Escapes? then [] else [Failed(step.phase, step.name, error)]
  }

  /** The steps before position `n` succeed and step `n`, if there is one, does not. */
  ghost predicate StopsAt(indices: seq<int>, w: World, n: nat) {
    && n <= |indices|
    && (forall j :: 0 <= j < n ==> 0 <= indices[j] && w.outcome(indices[j]).Succeeds?)
    && (n < |indices| ==> 0 <= indices[n] && !w.outcome(indices[n]).Succeeds?)
  }

  lemma Associate(a: seq<Event>, b: seq<Event>, c: seq<Event>)
    ensures (a + b) + c == a + (b + c)
  {
  }

  /** A phase that stops at position `n` of its steps. */
  function Stopped(steps: seq<Step>, indices: seq<int>, w: World, so: Progress, n: nat): Progress
    requires Within(indices, steps) && n <= |indices|
  {
    if n == |indices| then Progress(so.ran + indices, so.events + Done(steps, indices), None)
    else
      Progress(
        so.ran + indices[..n + 1],
        so.events + (Done(steps, indices[..n]) + Broken(steps[indices[n]], w.outcome(indices[n]))),
        Some(indices[n]))
  }

  /** A phase runs its steps in order up to and including the first one that fails. */
  lemma {:induction false} PhaseShape(steps: seq<Step>, indices: seq<int>, w: World, so: Progress) returns (n: nat)
    requires Within(indices, steps) && so.failed == None
    ensures StopsAt(indices, w, n)
    ensures RunPhase(steps, indices, w, so) == Stopped(steps, indices, w, so, n)
  {
    if |indices| == 0 {
      n := 0;
      assert so.ran + indices == so.ran && so.events + Done(steps, indices) == so.events;
    } else if !w.outcome(indices[0]).Succeeds? {
      n := 0;
      FirstFails(steps, indices, w, so);
    } else {
      var m := PhaseShape(steps, indices[1..], w, Attempt(steps, indices[0], w, so));
      n := m + 1;
      FirstSucceeds(steps, indices, w, so, m);
    }
  }

  lemma FirstFails(steps: seq<Step>, indices: seq<int>, w: World, so: Progress)
    requires Within(indices, steps) && so.failed == None
    requires 0 < |indices| && !w.outcome(indices[0]).Succeeds?
    ensures RunPhase(steps, indices, w, so) == Stopped(steps, indices, w, so, 0)
  {
  }

  lemma FirstSucceeds(steps: seq<Step>, indices: seq<int>, w: World, so: Progress, m: nat)
    requires Within(indices, steps) && 0 < |indices| && m < |indices|
    requires w.outcome(indices[0]).Succeeds? && so.failed == None
    ensures Stopped(steps, indices[1..], w, Attempt(steps, indices[0], w, so), m)
            == Stopped(steps, indices, w, so, m + 1)
  {
    var i, rest := indices[0], indices[1..];
    var next := Attempt(steps, i, w, so);
    var pair := [Started(steps[i].phase, steps[i].name), Success(steps[i].phase, steps[i].name)];
    assert next.events == so.events + pair;
    if m == |rest| {
      assert next.ran + rest == so.ran + indices;
      Associate(so.events, pair, Done(steps, rest));
    } else {
      assert next.ran + rest[..m + 1] == so.ran + indices[..m + 2];
      assert indices[..m + 1][1..] == rest[..m];
      var broken := Broken(steps[rest[m]], w.outcome(rest[m]));
      Associate(so.events, pair, Done(steps, rest[..m]) + broken);
      Associate(pair, Done(steps, rest[..m]), broken);
    }
  }

  lemma StopIsUnique(indices: seq<int>, w: World, m: nat, n: nat)
    requires StopsAt(indices, w, m) && StopsAt(indices, w, n)
    ensures m == n
  {
  }

  /** A phase that was cut short at step `n`. */
  ghost predicate CutAt(steps: seq<Step>, phase: PhaseName, n: nat, error: Outcome, events: seq<Event>) {
    var indices := Selected(steps, phase);
    && n < |indices|
    && !error.Succeeds?
    && events == Done(steps, indices[..n]) + Broken(steps[indices[n]], error)
  }

  ghost predicate Cut(steps: seq<Step>, phase: PhaseName, events: seq<Event>) {
    exists n: nat, error: Outcome :: CutAt(steps, phase, n, error, events)
  }

  function All(steps: seq<Step>, phase: PhaseName): seq<Event> {
    Done(steps, Selected(steps, phase))
  }

  /** The traces of the block inside the observer: actions, and rollbacks only after all actions. */
  ghost predicate BodyTrace(steps: seq<Step>, body: seq<Event>) {
    || Cut(steps, Action, body)
    || (exists rest: seq<Event> :: body == All(steps, Action) + rest && Cut(steps, Rollback, rest))
    || body == All(steps, Action) + All(steps, Rollback)
  }

  /** The traces of a scenario, as a grammar. */
  ghost predicate LegalTrace(steps: seq<Step>, warmup: nat, trace: seq<Event>) {
    var prologue := All(steps, Guardrail) + [ObserverStarted];
    || Cut(steps, Guardrail, trace)
    || (0 < warmup && (trace == prologue + [ObserverFailed] || trace == prologue))
    || exists body: seq<Event> :: trace == prologue + (body + [ObserverStopped]) && BodyTrace(steps, body)
  }

  const FRESH := Progress([], [], None)

  function TraceOf(steps: seq<Step>, warmup: nat, w: World): seq<Event> {
    Run(steps, warmup, w, FRESH).0.events
  }

  /** What one phase adds to the events. */
  lemma PhaseAdds(steps: seq<Step>, phase: PhaseName, w: World, so: Progress) returns (added: seq<Event>)
    requires so.failed == None
    ensures var r := Phase(steps, phase, w, so);
            && r.events == so.events + added
            && (if r.failed.Some? then Cut(steps, phase, added) else added == All(steps, phase))
  {
    var indices := Selected(steps, phase);
    var n := PhaseShape(steps, indices, w, so);
    if n == |indices| {
      added := All(steps, phase);
    } else {
      added := Done(steps, indices[..n]) + Broken(steps[indices[n]], w.outcome(indices[n]));
      assert CutAt(steps, phase, n, w.outcome(indices[n]), added);
    }
  }

  /** What the actions and rollbacks add to the events. */
  lemma BodyShape(steps: seq<Step>, w: World, so: Progress) returns (body: seq<Event>)
    requires so.failed == None
    ensures BodyTrace(steps, body)
    ensures Phase(steps, Rollback, w, Phase(steps, Action, w, so)).events == so.events + body
  {
    body := PhaseAdds(steps, Action, w, so);
    var acted := Phase(steps, Action, w, so);
    if acted.failed == None {
      var rest := PhaseAdds(steps, Rollback, w, acted);
      Associate(so.events, body, rest);
      body := body + rest;
    }
  }

  /** Every run, whatever its steps, handlers and observer do, leaves a trace of the grammar. */
  lemma EveryTraceIsLegal(steps: seq<Step>, warmup: nat, w: World)
    ensures LegalTrace(steps, warmup, TraceOf(steps, warmup, w))
  {
    var added := PhaseAdds(steps, Guardrail, w, FRESH);
    assert FRESH.events + added == added;
    var guarded := Phase(steps, Guardrail, w, FRESH);
    if guarded.failed == None && AfterWarmup(w, warmup).Looping? {
      var entered := guarded.Emit(ObserverStarted);
      var body := BodyShape(steps, w, entered);
      Associate(entered.events, body, [ObserverStopped]);
    }
  }

  /** A world in which every handler succeeds except that step `i` ends with `error`. */
  function OneFailure(steps: seq<Step>, i: int, error: Outcome, atWarmup: ObserverTask): World {
    World(seq(|steps|, j => if j == i then error else Succeeds), atWarmup, Looping)
  }

  /** In such a world a phase without step `i` succeeds, and the phase with step `i` is cut there. */
  lemma OneFailurePhase(
    steps: seq<Step>, phase: PhaseName, i: int, error: Outcome, atWarmup: ObserverTask, so: Progress)
    requires so.failed == None && !error.Succeeds?
    requires -1 <= i < |steps|
    ensures var r := Phase(steps, phase, OneFailure(steps, i, error, atWarmup), so);
            var indices := Selected(steps, phase);
            && (i !in indices ==> r.failed == None && r.events == so.events + All(steps, phase))
            && forall n: nat :: n < |indices| && indices[n] == i ==>
                 && r.failed == Some(i)
                 && r.events == so.events + (Done(steps, indices[..n]) + Broken(steps[i], error))
  {
    var w := OneFailure(steps, i, error, atWarmup);
    var indices := Selected(steps, phase);
    var m := PhaseShape(steps, indices, w, so);
    SelectedOrder(steps, phase);
    if m < |indices| {
      assert indices[m] == i;
    }
    forall n: nat | n < |indices| && indices[n] == i
      ensures m == n
    {
      StopIsUnique(indices, w, m, n);
    }
  }

  lemma SelectedOrder(steps: seq<Step>, phase: PhaseName)
    ensures var indices := Selected(steps, phase);
            forall j, k :: 0 <= j < k < |indices| ==> indices[j] < indices[k]
  {
  }

  lemma SelectedDisjoint(steps: seq<Step>, phase: PhaseName, other: PhaseName, n: nat)
    requires phase != other && n < |Selected(steps, phase)|
    ensures Selected(steps, phase)[n] !in Selected(steps, other)
  {
  }

  /** Conversely, every word of the grammar is the trace of some run. */
  lemma EveryLegalTraceOccurs(steps: seq<Step>, warmup: nat, trace: seq<Event>) returns (w: World)
    requires LegalTrace(steps, warmup, trace)
    ensures TraceOf(steps, warmup, w) == trace
  {
    var prologue := All(steps, Guardrail) + [ObserverStarted];
    if n: nat, error: Outcome :| CutAt(steps, Guardrail, n, error, trace) {
      w := CutOccurs(steps, warmup, n, error, trace);
    } else if 0 < warmup && (trace == prologue + [ObserverFailed] || trace == prologue) {
      w := AbortOccurs(steps, warmup, if trace == prologue then SelfCancelled else Crashed);
    } else {
      var body: seq<Event> :| trace == prologue + (body + [ObserverStopped]) && BodyTrace(steps, body);
      var i, error, acts, recovers := BodyFailure(steps, body);
      w := BodyOccurs(steps, warmup, i, error, acts, recovers);
      Associate(prologue, body, [ObserverStopped]);
    }
  }

  lemma CutOccurs(steps: seq<Step>, warmup: nat, n: nat, error: Outcome, trace: seq<Event>) returns (w: World)
    requires CutAt(steps, Guardrail, n, error, trace)
    ensures TraceOf(steps, warmup, w) == trace
  {
    var i := Selected(steps, Guardrail)[n];
    w := OneFailure(steps, i, error, Looping);
    OneFailurePhase(steps, Guardrail, i, error, Looping, FRESH);
    assert FRESH.events + trace == trace;
  }

  lemma AbortOccurs(steps: seq<Step>, warmup: nat, ended: ObserverTask) returns (w: World)
    requires 0 < warmup && !ended.Looping?
    ensures TraceOf(steps, warmup, w)
            == All(steps, Guardrail) + [ObserverStarted] + if ended.Crashed? then [ObserverFailed] else []
  {
    w := OneFailure(steps, -1, OtherError, ended);
    OneFailurePhase(steps, Guardrail, -1, OtherError, ended, FRESH);
    assert FRESH.events + All(steps, Guardrail) == All(steps, Guardrail);
  }

  /** What a phase adds when step `i` ends with `error` and every other step succeeds. */
  ghost predicate FailsAs(steps: seq<Step>, phase: PhaseName, i: int, error: Outcome, added: seq<Event>) {
    var indices := Selected(steps, phase);
    || (i !in indices && added == Done(steps, indices))
    || exists n: nat :: n < |indices| && indices[n] == i && CutAt(steps, phase, n, error, added)
  }

  lemma FailsAsOccurs(steps: seq<Step>, phase: PhaseName, i: int, error: Outcome, atWarmup: ObserverTask,
                      so: Progress, added: seq<Event>)
    requires so.failed == None && !error.Succeeds? && -1 <= i < |steps|
    requires FailsAs(steps, phase, i, error, added)
    ensures var r := Phase(steps, phase, OneFailure(steps, i, error, atWarmup), so);
            && r.events == so.events + added
            && (r.failed == None <==> i !in Selected(steps, phase))
  {
    OneFailurePhase(steps, phase, i, error, atWarmup, so);
  }

  /** Which step has to fail, and how, for a trace of the body; none if `i` is -1. */
  lemma BodyFailure(steps: seq<Step>, body: seq<Event>)
    returns (i: int, error: Outcome, acts: seq<Event>, recovers: seq<Event>)
    requires BodyTrace(steps, body)
    ensures -1 <= i < |steps| && !error.Succeeds? && i !in Selected(steps, Guardrail)
    ensures body == acts + recovers && FailsAs(steps, Action, i, error, acts)
    ensures if i in Selected(steps, Action) then recovers == [] else FailsAs(steps, Rollback, i, error, recovers)
  {
    if n: nat, e: Outcome :| CutAt(steps, Action, n, e, body) {
      i, error, acts, recovers := Selected(steps, Action)[n], e, body, [];
      SelectedDisjoint(steps, Action, Guardrail, n);
    } else if rest: seq<Event> :| body == All(steps, Action) + rest && Cut(steps, Rollback, rest) {
      var n: nat, e: Outcome :| CutAt(steps, Rollback, n, e, rest);
      i, error, acts, recovers := Selected(steps, Rollback)[n], e, All(steps, Action), rest;
      SelectedDisjoint(steps, Rollback, Guardrail, n);
      SelectedDisjoint(steps, Rollback, Action, n);
    } else {
      i, error, acts, recovers := -1, OtherError, All(steps, Action), All(steps, Rollback);
    }
  }

  /** The trace of a run that gets past its guardrails and its warmup. */
  lemma TraceOnceEntered(steps: seq<Step>, warmup: nat, w: World)
    requires Phase(steps, Guardrail, w, FRESH).failed == None && AfterWarmup(w, warmup).Looping?
    ensures var entered := Phase(steps, Guardrail, w, FRESH).Emit(ObserverStarted);
            TraceOf(steps, warmup, w)
            == Phase(steps, Rollback, w, Phase(steps, Action, w, entered)).events + [ObserverStopped]
  {
  }

  lemma BodyOccurs(steps: seq<Step>, warmup: nat, i: int, error: Outcome, acts: seq<Event>, recovers: seq<Event>)
    returns (w: World)
    requires -1 <= i < |steps| && !error.Succeeds? && i !in Selected(steps, Guardrail)
    requires FailsAs(steps, Action, i, error, acts)
    requires if i in Selected(steps, Action) then recovers == [] else FailsAs(steps, Rollback, i, error, recovers)
    ensures TraceOf(steps, warmup, w)
            == (All(steps, Guardrail) + [ObserverStarted] + (acts + recovers)) + [ObserverStopped]
  {
    w := OneFailure(steps, i, error, Looping);
    GuardsPass(steps, i, error);
    var entered := Phase(steps, Guardrail, w, FRESH).Emit(ObserverStarted);
    BodyFollows(steps, i, error, entered, acts, recovers);
    TraceOnceEntered(steps, warmup, w);
  }

  lemma GuardsPass(steps: seq<Step>, i: int, error: Outcome)
    requires -1 <= i < |steps| && !error.Succeeds? && i !in Selected(steps, Guardrail)
    ensures var guarded := Phase(steps, Guardrail, OneFailure(steps, i, error, Looping), FRESH);
            guarded.failed == None && guarded.events == All(steps, Guardrail)
  {
    OneFailurePhase(steps, Guardrail, i, error, Looping, FRESH);
    assert FRESH.events + All(steps, Guardrail) == All(steps, Guardrail);
  }

  lemma BodyFollows(steps: seq<Step>, i: int, error: Outcome, entered: Progress, acts: seq<Event>, recovers: seq<Event>)
    requires entered.failed == None && -1 <= i < |steps| && !error.Succeeds?
    requires FailsAs(steps, Action, i, error, acts)
    requires if i in Selected(steps, Action) then recovers == [] else FailsAs(steps, Rollback, i, error, recovers)
    ensures var w := OneFailure(steps, i, error, Looping);
            Phase(steps, Rollback, w, Phase(steps, Action, w, entered)).events == entered.events + (acts + recovers)
  {
    var w := OneFailure(steps, i, error, Looping);
    FailsAsOccurs(steps, Action, i, error, Looping, entered, acts);
    var acted := Phase(steps, Action, w, entered);
    if i in Selected(steps, Action) {
      assert acts + recovers == acts;
    } else {
      FailsAsOccurs(steps, Rollback, i, error, Looping, acted, recovers);
      Associate(entered.events, acts, recovers);
    }
  }

  /** The handlers a scenario asks for, in the order of the phases. */
  function Agenda(steps: seq<Step>): seq<int> {
    Selected(steps, Guardrail) + (Selected(steps, Action) + Selected(steps, Rollback))
  }

  lemma PhaseRan(steps: seq<Step>, phase: PhaseName, w: World, so: Progress) returns (added: seq<int>)
    requires so.failed == None
    ensures var r := Phase(steps, phase, w, so);
            && r.ran == so.ran + added
            && added <= Selected(steps, phase)
            && (r.failed == None ==> added == Selected(steps, phase))
  {
    var indices := Selected(steps, phase);
    var n := PhaseShape(steps, indices, w, so);
    added := if n == |indices| then indices else indices[..n + 1];
  }

  lemma PrefixExtends(so: seq<int>, c: seq<int>, b: seq<int>)
    requires c <= b
    ensures so + c <= so + b
  {
  }

  lemma BodyRan(steps: seq<Step>, w: World, so: Progress) returns (added: seq<int>)
    requires so.failed == None
    ensures Phase(steps, Rollback, w, Phase(steps, Action, w, so)).ran == so.ran + added
    ensures added <= Selected(steps, Action) + Selected(steps, Rollback)
  {
    added := PhaseRan(steps, Action, w, so);
    var acted := Phase(steps, Action, w, so);
    if acted.failed == None {
      var more := PhaseRan(steps, Rollback, w, acted);
      assert (so.ran + added) + more == so.ran + (added + more);
      PrefixExtends(added, more, Selected(steps, Rollback));
      added := added + more;
    }
  }

  /** The handlers executed are a prefix of guardrails, actions and rollbacks, each in step order. */
  lemma HandlersAreAPrefix(steps: seq<Step>, warmup: nat, w: World)
    ensures Run(steps, warmup, w, FRESH).0.ran <= Agenda(steps)
  {
    var guards := PhaseRan(steps, Guardrail, w, FRESH);
    assert FRESH.ran + guards == guards;
    var guarded := Phase(steps, Guardrail, w, FRESH);
    var later := Selected(steps, Action) + Selected(steps, Rollback);
    if guarded.failed == None && AfterWarmup(w, warmup).Looping? {
      var added := BodyRan(steps, w, guarded.Emit(ObserverStarted));
      PrefixExtends(guards, added, later);
    }
  }

  /** Every named guardrail, action and rollback step succeeds. */
  ghost predicate StepsSucceed(steps: seq<Step>, w: World) {
    forall i: nat :: i < |steps| && steps[i].name != "" && steps[i].phase != Observer ==> w.outcome(i).Succeeds?
  }

  /**
   * The run leaves normally exactly when every named step succeeded, the observer had not ended by the
   * end of the warmup, and it did not fail later.
   */
  lemma CompletesIff(steps: seq<Step>, warmup: nat, w: World)
    ensures Run(steps, warmup, w, FRESH).1 == Completed
            <==> StepsSucceed(steps, w) && AfterWarmup(w, warmup).Looping? && !w.atStop.Crashed?
  {
    PhaseFailsIff(steps, Guardrail, w, FRESH);
    var entered := Phase(steps, Guardrail, w, FRESH).Emit(ObserverStarted);
    if entered.failed == None {
      PhaseFailsIff(steps, Action, w, entered);
      var acted := Phase(steps, Action, w, entered);
      if acted.failed == None {
        PhaseFailsIff(steps, Rollback, w, acted);
      }
    }
  }

  lemma PhaseFailsIff(steps: seq<Step>, phase: PhaseName, w: World, so: Progress)
    requires so.failed == None
    ensures Phase(steps, phase, w, so).failed == None
            <==> forall i: nat :: i < |steps| && Runs(steps[i], phase) ==> w.outcome(i).Succeeds?
    ensures forall i :: Phase(steps, phase, w, so).failed == Some(i) ==> 0 <= i < |steps| && Runs(steps[i], phase)
  {
    var indices := Selected(steps, phase);
    var n := PhaseShape(steps, indices, w, so);
    if n == |indices| {
      forall i: nat | i < |steps| && Runs(steps[i], phase) ensures w.outcome(i).Succeeds? {
        SelectedAll(steps, phase, 0, i);
      }
    }
  }

  /** Every named step of a phase is selected. */
  lemma {:induction false} SelectedAll(steps: seq<Step>, phase: PhaseName, from: nat, i: nat)
    requires from <= i < |steps| && Runs(steps[i], phase)
    ensures i in SelectedFrom(steps, phase, from)
    decreases |steps| - from
  {
    if from < i {
      SelectedAll(steps, phase, from + 1, i);
    }
  }

  /**
   * Once the guardrails and the warmup are passed, a failed observer decides the exit: its error is
   * raised at the stop even when a step has failed too. Otherwise the failed step is.
   */
  lemma ObserverFailureWins(steps: seq<Step>, warmup: nat, w: World)
    requires Phase(steps, Guardrail, w, FRESH).failed == None && AfterWarmup(w, warmup).Looping?
    ensures var exit := Run(steps, warmup, w, FRESH).1;
            && (w.atStop.Crashed? <==> exit == ObserverRaised)
            && (exit.StepRaised? ==>
                  && 0 <= exit.step < |steps| && !w.outcome(exit.step).Succeeds?
                  && steps[exit.step].phase in {Action, Rollback})
  {
    var entered := Phase(steps, Guardrail, w, FRESH).Emit(ObserverStarted);
    PhaseFailsIff(steps, Action, w, entered);
    var a := PhaseShape(steps, Selected(steps, Action), w, entered);
    var acted := Phase(steps, Action, w, entered);
    if acted.failed == None {
      PhaseFailsIff(steps, Rollback, w, acted);
      var r := PhaseShape(steps, Selected(steps, Rollback), w, acted);
    }
  }

  /** Step `i` is the first of the list whose handler does not succeed. */
  ghost predicate FailsFirst(list: seq<int>, w: World, i: int) {
    exists n: nat :: n < |list| && list[n] == i && StopsAt(list, w, n)
  }

  ghost predicate AllSucceed(list: seq<int>, w: World) {
    StopsAt(list, w, |list|)
  }

  lemma PhaseExit(steps: seq<Step>, phase: PhaseName, w: World, so: Progress)
    requires so.failed == None
    ensures var r := Phase(steps, phase, w, so); var indices := Selected(steps, phase);
            && (r.failed == None <==> AllSucceed(indices, w))
            && forall i: int :: r.failed == Some(i) <==> FailsFirst(indices, w, i)
  {
    var indices := Selected(steps, phase);
    var n := PhaseShape(steps, indices, w, so);
    forall m: nat | StopsAt(indices, w, m) ensures m == n {
      StopIsUnique(indices, w, m, n);
    }
  }

  /** The first failure of two lists is that of the first, or of the second if all of the first succeed. */
  lemma FailsFirstConcat(a: seq<int>, b: seq<int>, w: World, i: int)
    ensures FailsFirst(a + b, w, i) <==> FailsFirst(a, w, i) || (AllSucceed(a, w) && FailsFirst(b, w, i))
    ensures AllSucceed(a + b, w) <==> AllSucceed(a, w) && AllSucceed(b, w)
  {
    var ab := a + b;
    if n: nat :| n < |ab| && ab[n] == i && StopsAt(ab, w, n) {
      if n < |a| {
        assert forall j :: 0 <= j <= n ==> ab[j] == a[j];
        assert StopsAt(a, w, n);
      } else {
        ConcatStops(a, b, w, n - |a|);
      }
    }
    if n: nat :| n < |a| && a[n] == i && StopsAt(a, w, n) {
      assert forall j :: 0 <= j <= n ==> ab[j] == a[j];
      assert ab[n] == i && StopsAt(ab, w, n);
    }
    if n: nat :| AllSucceed(a, w) && n < |b| && b[n] == i && StopsAt(b, w, n) {
      ConcatStops(a, b, w, n);
      assert ab[|a| + n] == i;
    }
    ConcatStops(a, b, w, |b|);
  }

  lemma ConcatStops(a: seq<int>, b: seq<int>, w: World, n: nat)
    requires n <= |b|
    ensures StopsAt(a + b, w, |a| + n) <==> AllSucceed(a, w) && StopsAt(b, w, n)
  {
    var ab := a + b;
    assert forall j :: 0 <= j < |a| ==> ab[j] == a[j];
    assert forall j :: 0 <= j < |b| ==> b[j] == ab[|a| + j];
    if StopsAt(ab, w, |a| + n) {
      assert StopsAt(b, w, n);
    }
  }

  /** The guardrails and the warmup are passed. */
  ghost predicate Passed(steps: seq<Step>, warmup: nat, w: World) {
    AllSucceed(Selected(steps, Guardrail), w) && (warmup == 0 || w.atWarmup == Looping)
  }

  /** At most one step of a list is the first to fail, and none if all succeed. */
  lemma OneFailsFirst(list: seq<int>, w: World)
    ensures forall i, k :: FailsFirst(list, w, i) && FailsFirst(list, w, k) ==> i == k
    ensures AllSucceed(list, w) ==> forall i :: !FailsFirst(list, w, i)
  {
    forall i, k | FailsFirst(list, w, i) && FailsFirst(list, w, k) ensures i == k {
      var m: nat :| m < |list| && list[m] == i && StopsAt(list, w, m);
      var n: nat :| n < |list| && list[n] == k && StopsAt(list, w, n);
      StopIsUnique(list, w, m, n);
    }
  }

  /** The exit of a run by where it fails first, if it does: a guardrail, or after the warmup. */
  ghost predicate ExitsAs(steps: seq<Step>, warmup: nat, w: World, exit: Exit) {
    match exit
    case StepRaised(i) =>
      && FailsFirst(Agenda(steps), w, i)
      && (i in Selected(steps, Guardrail) || (Passed(steps, warmup, w) && w.atStop != Crashed))
    case ObserverRaised =>
      && AllSucceed(Selected(steps, Guardrail), w)
      && ((0 < warmup && w.atWarmup == Crashed) || (Passed(steps, warmup, w) && w.atStop == Crashed))
    case CancelledRaised =>
      AllSucceed(Selected(steps, Guardrail), w) && 0 < warmup && w.atWarmup == SelfCancelled
    case Completed =>
      AllSucceed(Agenda(steps), w) && Passed(steps, warmup, w) && w.atStop != Crashed
  }

  /** No run fits two exits. */
  lemma ExitIsUnique(steps: seq<Step>, warmup: nat, w: World, a: Exit, b: Exit)
    requires ExitsAs(steps, warmup, w, a) && ExitsAs(steps, warmup, w, b)
    ensures a == b
  {
    var guards, later := Selected(steps, Guardrail), Selected(steps, Action) + Selected(steps, Rollback);
    OneFailsFirst(Agenda(steps), w);
    OneFailsFirst(guards, w);
    forall i ensures FailsFirst(Agenda(steps), w, i) <==>
                       FailsFirst(guards, w, i) || (AllSucceed(guards, w) && FailsFirst(later, w, i))
             ensures FailsFirst(later, w, i) ==> i !in guards
    {
      FailsFirstConcat(guards, later, w, i);
      if FailsFirst(later, w, i) {
        NotAGuardrail(steps, w, i);
      }
    }
  }

  /**
   * How a run leaves, exactly. With the exception of step `i`: it is the first of guardrails, actions and
   * rollbacks to fail, and either a guardrail, or the warmup was passed and the observer had not failed by the
   * stop. With the exception of the observer: it failed during the warmup or later, and all guardrails succeeded.
   * With a cancellation: the observer had cancelled itself by the end of the warmup.
   */
  lemma ExitIff(steps: seq<Step>, warmup: nat, w: World, exit: Exit)
    ensures Run(steps, warmup, w, FRESH).1 == exit <==> ExitsAs(steps, warmup, w, exit)
  {
    ExitFits(steps, warmup, w);
    if ExitsAs(steps, warmup, w, exit) {
      ExitIsUnique(steps, warmup, w, exit, Run(steps, warmup, w, FRESH).1);
    }
  }

  lemma ExitFits(steps: seq<Step>, warmup: nat, w: World)
    ensures ExitsAs(steps, warmup, w, Run(steps, warmup, w, FRESH).1)
  {
    PhaseExit(steps, Guardrail, w, FRESH);
    var guarded := Phase(steps, Guardrail, w, FRESH);
    if guarded.failed.Some? {
      GuardrailExit(steps, w, guarded.failed.value);
    } else {
      EnteredExit(steps, warmup, w);
    }
  }

  lemma EnteredExit(steps: seq<Step>, warmup: nat, w: World)
    requires Phase(steps, Guardrail, w, FRESH).failed == None && AllSucceed(Selected(steps, Guardrail), w)
    ensures ExitsAs(steps, warmup, w, Run(steps, warmup, w, FRESH).1)
  {
    if AfterWarmup(w, warmup).Looping? {
      ExitOnceEntered(steps, warmup, w);
      var entered := Phase(steps, Guardrail, w, FRESH).Emit(ObserverStarted);
      LeavingFits(steps, warmup, w, entered);
    } else {
      ExitWhenAborted(steps, warmup, w);
    }
  }

  lemma LeavingFits(steps: seq<Step>, warmup: nat, w: World, entered: Progress)
    requires entered.failed == None && Passed(steps, warmup, w)
    ensures ExitsAs(steps, warmup, w,
                    LeaveObserver(w.atStop, Phase(steps, Rollback, w, Phase(steps, Action, w, entered)).failed))
  {
    LaterExit(steps, w, entered);
  }

  lemma ExitWhenAborted(steps: seq<Step>, warmup: nat, w: World)
    requires Phase(steps, Guardrail, w, FRESH).failed == None && !AfterWarmup(w, warmup).Looping?
    ensures Run(steps, warmup, w, FRESH).1 == if w.atWarmup.Crashed? then ObserverRaised else CancelledRaised
  {
  }

  lemma ExitOnceEntered(steps: seq<Step>, warmup: nat, w: World)
    requires Phase(steps, Guardrail, w, FRESH).failed == None && AfterWarmup(w, warmup).Looping?
    ensures var entered := Phase(steps, Guardrail, w, FRESH).Emit(ObserverStarted);
            Run(steps, warmup, w, FRESH).1
            == LeaveObserver(w.atStop, Phase(steps, Rollback, w, Phase(steps, Action, w, entered)).failed)
  {
  }

  lemma GuardrailExit(steps: seq<Step>, w: World, i: int)
    requires FailsFirst(Selected(steps, Guardrail), w, i)
    ensures FailsFirst(Agenda(steps), w, i) && i in Selected(steps, Guardrail)
  {
    FailsFirstConcat(Selected(steps, Guardrail), Selected(steps, Action) + Selected(steps, Rollback), w, i);
  }

  lemma LaterExit(steps: seq<Step>, w: World, entered: Progress)
    requires entered.failed == None && AllSucceed(Selected(steps, Guardrail), w)
    ensures var failed := Phase(steps, Rollback, w, Phase(steps, Action, w, entered)).failed;
            if failed.Some? then FailsFirst(Agenda(steps), w, failed.value) else AllSucceed(Agenda(steps), w)
  {
    BodyExit(steps, w, entered);
    var failed := Phase(steps, Rollback, w, Phase(steps, Action, w, entered)).failed;
    FailsFirstConcat(Selected(steps, Guardrail), Selected(steps, Action) + Selected(steps, Rollback), w,
                     if failed.Some? then failed.value else -1);
  }

  lemma BodyExit(steps: seq<Step>, w: World, entered: Progress)
    requires entered.failed == None
    ensures var r := Phase(steps, Rollback, w, Phase(steps, Action, w, entered));
            var list := Selected(steps, Action) + Selected(steps, Rollback);
            && (r.failed == None ==> AllSucceed(list, w))
            && (r.failed.Some? ==> FailsFirst(list, w, r.failed.value))
  {
    var acts, recovers := Selected(steps, Action), Selected(steps, Rollback);
    PhaseExit(steps, Action, w, entered);
    var acted := Phase(steps, Action, w, entered);
    if acted.failed.Some? {
      FailsFirstConcat(acts, recovers, w, acted.failed.value);
    } else {
      PhaseExit(steps, Rollback, w, acted);
      var failed := Phase(steps, Rollback, w, acted).failed;
      FailsFirstConcat(acts, recovers, w, if failed.Some? then failed.value else -1);
    }
  }

  lemma NotAGuardrail(steps: seq<Step>, w: World, i: int)
    requires FailsFirst(Selected(steps, Action) + Selected(steps, Rollback), w, i)
    ensures i !in Selected(steps, Guardrail)
  {
    var list := Selected(steps, Action) + Selected(steps, Rollback);
    var n: nat :| n < |list| && list[n] == i;
    if n < |Selected(steps, Action)| {
      SelectedDisjoint(steps, Action, Guardrail, n);
    } else {
      SelectedDisjoint(steps, Rollback, Guardrail, n - |Selected(steps, Action)|);
    }
  }

  /** No disruption before all guardrails have succeeded, and no rollback before all actions have. */
  lemma NothingRunsUnguarded(steps: seq<Step>, warmup: nat, w: World, name: string)
    ensures var trace := TraceOf(steps, warmup, w);
            var prologue := All(steps, Guardrail) + [ObserverStarted];
            && (Started(Action, name) in trace ==> prologue <= trace)
            && (Started(Rollback, name) in trace ==> prologue + All(steps, Action) <= trace)
  {
    var guards := PhaseAdds(steps, Guardrail, w, FRESH);
    AddsOwnPhase(steps, Guardrail, w, FRESH, guards);
    assert FRESH.events + guards == guards;
    var guarded := Phase(steps, Guardrail, w, FRESH);
    if guarded.failed == None && AfterWarmup(w, warmup).Looping? {
      GuardedTrace(steps, w, guarded.Emit(ObserverStarted), name);
    }
  }

  lemma GuardedTrace(steps: seq<Step>, w: World, entered: Progress, name: string)
    requires entered.failed == None && Started(Rollback, name) !in entered.events
    ensures var trace := Phase(steps, Rollback, w, Phase(steps, Action, w, entered)).Emit(ObserverStopped).events;
            && entered.events <= trace
            && (Started(Rollback, name) in trace ==> entered.events + All(steps, Action) <= trace)
  {
    var actions := PhaseAdds(steps, Action, w, entered);
    AddsOwnPhase(steps, Action, w, entered, actions);
    var acted := Phase(steps, Action, w, entered);
    if acted.failed == None {
      var rollbacks := PhaseAdds(steps, Rollback, w, acted);
    }
  }

  lemma AddsOwnPhase(steps: seq<Step>, phase: PhaseName, w: World, so: Progress, added: seq<Event>)
    requires so.failed == None && Phase(steps, phase, w, so).events == so.events + added
    ensures forall e :: e in added && e.Started? ==> e.phase == phase
  {
    var indices := Selected(steps, phase);
    var n := PhaseShape(steps, indices, w, so);
    assert added == Phase(steps, phase, w, so).events[|so.events|..];
    DoneOwnPhase(steps, indices[..n], phase);
    assert indices[..|indices|] == indices;
  }

  lemma {:induction false} DoneOwnPhase(steps: seq<Step>, indices: seq<int>, phase: PhaseName)
    requires Within(indices, steps) && forall j :: 0 <= j < |indices| ==> steps[indices[j]].phase == phase
    ensures forall e :: e in Done(steps, indices) && e.Started? ==> e.phase == phase
  {
    if |indices| > 0 {
      DoneOwnPhase(steps, indices[1..], phase);
    }
  }
}
