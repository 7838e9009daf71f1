# Resilience runtime: a model and its proofs

The library runs resilience scenarios against a Kubernetes workload: guardrails check that a disruption is
acceptable, an action carries it out, an observer measures the application meanwhile, and rollbacks wait for
recovery. This project models the parts whose behaviour depends on interleaving, clocks, rounding or shared
state, and proves what holds of them in every run.

| module | models |
|---|---|
| `Polling` | the deadline polling loop |
| `TaskGroups`, `TimedGroups` | supervised groups of tasks: all interleavings, then the same machine on a clock |
| `Monitors`, `Rollbacks` | the conditions polled by rollbacks and the CPU stress action, and the supervised waits built on them |
| `Scenario`, `Traces` | the scenario runner with its observer, and the language of its event traces |
| `Contexts` | the shared context dictionary across tasks and nested scenario contexts |
| `SnapshotCache` | the namespace cache with any number of concurrent callers |
| `HpaTrigger`, `StressSelection` | the search for the CPU load that triggers an HPA, its guardrails, the pods stressed |
| `Disruption` | quantities, availability and PDB guardrails, the deletion and eviction loops, several actions in a row |
| `GuardedRuns` | whole runs with the disruption guardrails and a disruption action |
| `Deletions` | the supervised wait for the pods to be gone |
| `Histogram`, `HttpInterval` | latency buckets and the accounting of one observer interval |
| `Services`, `Endpoints` | the Service of a workload, endpoint drain and restore |
| `Arithmetic`, `Ordering`, `Sampling`, `Wrappers` | rounding, string order, random samples, options and results |

`dafny verify dfyconfig.toml` checks the whole project.

## How the model relates to the code

- A step of a concurrent machine is the code between two suspension points. The scheduler may take the
  enabled steps in any order, and a cancelled task may end in any way. Methods of the classes (`Supervisor`,
  `ContextStore`, `NamespaceCache`, `ObserverContext`, the two `Cluster`s) update fields as the code does and
  are tied by their postconditions to the step functions that the theorems are about.
- What the cluster and the network answer is a parameter: an arbitrary function of the poll, an arbitrary
  record, or an arbitrary exception. Handlers end in any of five ways, among them an escape that no clause of
  the runner catches.
- Time is an integer number of ticks; in the timed results the event loop is never late, so the clock stands
  while a step is due. `WatchUntil` asks that the clock moves in each turn, by the call or by the sleep;
  otherwise the original loop, too, may turn forever.
- A watch condition is a function from the number of the evaluation to its duration and its verdict. The
  conditions of the library are then the functions `RaiseOn...` applied to what that poll finds.
- Quotients are exact; `math.ceil` and `math.floor` of the code agree with them as long as a float does.

## What the proofs say about the code

Beyond the promises that hold, these are places where the code does not do what its documentation or its
structure suggests, each with the condition under which it does.

- A supervised group can raise `TaskGroupTimeoutError` although its timer never fired: exactly the groups of
  two or more tasks with one that makes the group give up (`TaskGroups.TimeoutWithoutTimer`). Rollbacks and
  actions are never among them. The request group of the HTTP observer is, as soon as one request fails
  (`HttpInterval.FailedRequestMayEndInterval`), and the interval then has no payload. On the clock that happens
  if and only if a request has not ended before the timer, or one fails while another has not ended by that
  tick (`HttpInterval.PayloadLostIff`).
- The buffer between a monitor's own timeout and its group timer is enough, for every positive timeout,
  exactly when it holds one sleep and one call (`TimedGroups.BufferIsExact`). For the rollbacks and the stress
  action that means calls of up to 27, 25, 5 and 5 seconds; `Rollbacks.GroupTimeoutIff` gives the exact
  condition for every timeout, positive or not, and for stress commands that fail. The scale-down schema has
  no lower bound: at -10 seconds or less, if calls take any time at all, every run of the wait ends in the
  group timeout (`Rollbacks.ScaleDownWithoutTime`).
- Deletions and evictions poll every five seconds with a buffer of five. The group timeout may then replace
  the promised deletion timeout whenever slow calls can delay a loop to the timer
  (`Deletions.GroupTimeoutIff`); with a timeout of m poll intervals that takes m + 1 calls that add up to five
  seconds (`Deletions.WholeIntervals`), so about 0.56 seconds a call at a timeout of 40 seconds.
- `RollingRestartTimeoutError` is what every run reports if and only if the completion monitor gives up
  strictly before the crash monitor (`Rollbacks.RestartTimeoutCertainIff`). No timeout makes that certain:
  with instant calls the two give up together, and the generic watch timeout may be the one that is reported
  (`Rollbacks.InstantTimeoutsTie`, `Rollbacks.NoTimeoutIsCertain`).
- After a kill and an eviction in one run, the respawn rollback compares with the kill, even if the eviction
  came later; its success then proves less than it says (`Monitors.RespawnAfterEveryDisruption`).
- The action documents that nothing is stressed if the workload already meets the trigger condition. In fact
  nothing is stressed exactly when no pod is ready (`HpaTrigger.NothingStressedIff`,
  `StressSelection.SelectPodsToStress`); a fleet at or above its target has one pod stressed, or all if one is
  not enough (`StressSelection.BusyWorkloadIsStressed`), and the load may be negative
  (`HpaTrigger.NegativeLoadIff`).
- "Scale the workload up" is sound advice for multiples of the fleet (`HpaTrigger.MultiplesPass`), not for
  every single replica (`HpaTrigger.NextReplicaMayFail`): from some size on every fleet passes if and only if
  the shares to stress and to keep idle fit with room for rounding (`HpaTrigger.ScalingSettlesIff`), and some
  fleet passes if and only if they fit (`HpaTrigger.ScalingHelpsIff`).
- The availability and PDB guardrails cover one disruption action; two actions of one scenario may take away
  all replicas (`Disruption.TwoActionsMayBeUnsafe`). Several actions, whatever they draw and wherever they
  stop, are safe together if and only if the guardrails would pass their whole quantity
  (`Disruption.SeveralActionsAreSafeIff`).
- The cache key holds the client by identity. A caller can be given what another fetched if and only if the
  two have the same key, the client included (`SnapshotCache.SharesIff`).
- `http_error_count` is always zero, because error statuses are raised before they are counted; that is the
  right count exactly when no reply has a server error status (`HttpInterval.NoServerErrors`). They are counted
  as transport errors.
- A drain takes its pod out of the Service exactly when the Service does not select the drained marker itself
  (`Endpoints.DrainTakesOneOut`). The rollback undoes a sequence of drains if and only if there was only one, or
  the Service selects the marker (`Endpoints.RestoreUndoesDrainsIff`); otherwise every pod but the last stays out
  (`Endpoints.OnlyLastReturns`), two drains being the shortest such case (`Endpoints.SecondDrainForgetsFirst`).
- A share of less than one pod passes both disruption guardrails and is then refused by the action, whatever
  pods there are (`Disruption.GuardedActionEnds`).

## Model

| member | source | states |
|---|---|---|
| Polling.WatchUntil | src/reslib/core/watchdog.py:106-132 | the loop ends with the first evaluation that is truthy, raises, or ends at or after the deadline; it returns v exactly when that one answered v, and raises its exception or else the timeout error |
| Polling.EndExists | src/reslib/core/watchdog.py:121-132 | for every condition there is such a first evaluation: the loop always ends |
| Polling.EvaluationBudget | src/reslib/core/watchdog.py:121-132 | at most max(0, ceil(timeout / poll)) + 1 evaluations |
| Polling.BudgetIsReached | src/reslib/core/watchdog.py:121-132 | the budget is tight: a loop with instant calls that times out uses all of it |
| Polling.EndIsPrompt | src/reslib/core/watchdog.py:106-132 | no timeout before the deadline, and the end is less than one sleep and one call after it |
| Polling.EndsByLatest | src/reslib/core/watchdog.py:106-132 | with calls of at most d no loop ends after a time computed from timeout, poll interval and d |
| Polling.LatestEndIsReached | src/reslib/core/watchdog.py:106-132 | and some loop ends exactly then |
| TaskGroups.FirstFailing | src/reslib/core/watchdog.py:57-61 | the first task in the order of iteration whose exception is not none, or no such task |
| TaskGroups.StepInv | src/reslib/core/watchdog.py:42-77 | every step keeps done and pending a partition of the tasks, with a reason for the end of the wait |
| TaskGroups.RunInv | src/reslib/core/watchdog.py:42-77 | the same in every state of every run |
| TaskGroups.ExitVerdict | src/reslib/core/watchdog.py:50-77 | in every run: all tasks have finished at the exit; it raises for a failed done task if failures are raised, else its timeout error exactly when a task was pending, else returns all tasks once each |
| TaskGroups.AnyFailureMayWin | src/reslib/core/watchdog.py:57-61 | every failed done task is the one raised in some order of iterating over the set |
| TaskGroups.TimeoutWithoutTimer | src/reslib/core/watchdog.py:48-77 | a timeout error without the timer having fired is possible if and only if there are two tasks and one makes the group give up; never under FIRST_EXCEPTION with failures raised |
| TaskGroups.CancelsInRun | src/reslib/core/watchdog.py:51-54 | in every run nobody is asked to cancel while the group waits, and every task that still runs afterwards has been asked |
| TaskGroups.CollectCancels | src/reslib/core/watchdog.py:48-52 | at the end of the wait exactly the tasks that have not ended are pending and asked to cancel, and the others keep their outcomes |
| TaskGroups.Supervisor.FindFailing | src/reslib/core/watchdog.py:57-61 | the loop over the done tasks finds the first whose exception is not none |
| TaskGroups.Supervisor.constructor | src/reslib/core/watchdog.py:39-45 | tasks are created running; the empty list returns at once |
| TaskGroups.Supervisor.TaskEnds | src/reslib/core/watchdog.py:43-48 | a task ends on its own or after a cancel request, and the invariant stays |
| TaskGroups.Supervisor.OnCompletion | src/reslib/core/watchdog.py:48 | the done callback of the wait releases it by the `return_when` rule |
| TaskGroups.Supervisor.OnTimer | src/reslib/core/watchdog.py:48 | the timer releases the wait |
| TaskGroups.Supervisor.ResumeFromWait | src/reslib/core/watchdog.py:48-52 | done and pending are taken apart and every pending task is cancelled |
| TaskGroups.Supervisor.ResumeFromGather | src/reslib/core/watchdog.py:54-77 | the loop over done, then the pending test, choose the exit of the step machine |
| TimedGroups.EarliestFailureWins | src/reslib/core/watchdog.py:48-61 | if a task raises before the timer, every run ends with the exception of a task that raises first |
| TimedGroups.EarliestMayWin | src/reslib/core/watchdog.py:48-61 | conversely each of the first to raise is the one reported in some run, whatever other tasks end normally before |
| TimedGroups.ReportPossibleIff | src/reslib/core/watchdog.py:48-61 | some run raises the exception of a task if and only if it raises first, and no later than the timer |
| TimedGroups.TimerWins | src/reslib/core/watchdog.py:48-75 | if every failing task ends after the timer, every run ends in the group timeout |
| TimedGroups.TimeoutPossibleIff | src/reslib/core/watchdog.py:48-75 | with failures raised: some run reports the group timeout if and only if a task has not ended before the timer and none has failed before it |
| TimedGroups.AlwaysReturnsIff | src/reslib/core/watchdog.py:48-77 | every run returns if and only if all tasks end normally and before the timer |
| TimedGroups.QuietTimeoutIff | src/reslib/core/watchdog.py:48-75 | with failures not raised: if and only if a task has not ended before the timer, or one fails while another has not ended by that tick |
| TimedGroups.NeverStuck | src/reslib/core/watchdog.py:42-77 | until the exit some step is always enabled |
| TimedGroups.BufferIsExact | src/reslib/core/watchdog.py:106-132 | a positive timeout keeps the loop before the group timer, whatever the condition does, if and only if poll + call <= buffer |
| TimedGroups.NonPositiveTimeout | src/reslib/core/watchdog.py:106-132 | for a timeout of zero or less, if and only if one call fits before the timer |
| Monitors.SignalsCarryEvidence | src/reslib/k8s/scaling.py:234-378 | no condition is ever truthy; a success signal is raised if and only if the cluster is as the condition wants it, and with exactly the values of that poll |
| Monitors.FailuresAreRaised | src/reslib/k8s/workloads.py:108-155 | when each condition raises a failure, and which: a failed read, a crash, a faulty deployment, a missing value |
| Monitors.RecordsStayApart | src/reslib/k8s/scaling.py:28-33 | the record entries are keys of the library's own, different for each kind of monitor |
| Monitors.SharedRecords.Evaluate | src/reslib/k8s/scaling.py:313-333 | a condition writes its record and raises in one step, and otherwise writes nothing |
| Monitors.SharedRecords.EvaluateAll | src/reslib/k8s/workloads.py:157-173 | the context after any interleaving of polls |
| Monitors.SharedRecords.ReportSuccess | src/reslib/rollbacks/pod.py:94-109 | after any interleaving of polls in which the success monitor raised, what the rollback reads back and reports is the evidence of that poll |
| Monitors.RecordSurvives | src/reslib/rollbacks/workload.py:81-88 | the record read back is the evidence of the poll that raised, whatever the crash monitor polled afterwards |
| Monitors.RespawnAfterEveryDisruption | src/reslib/rollbacks/pod.py:49-57 | the respawn signal proves a pod ready after both disruptions if and only if the kill was not the earlier one |
| Rollbacks.NeverFallsOff | src/reslib/rollbacks/pod.py:88-109 | over all interleavings the wait returns its record or raises, and returns only what its success monitor raised last |
| Rollbacks.WaitSucceedsIff | src/reslib/rollbacks/pod.py:60-109 | each supervised wait, on what is observed: every run returns the success record if and only if the poll that ends the success monitor finds the cluster as wanted, strictly before the timer, the end of the crash monitor and every failing command; some run does with ties allowed; the record holds exactly that poll's values |
| Rollbacks.SuccessPossibleIff | src/reslib/rollbacks/hpa.py:105-133 | which success records some run returns |
| Rollbacks.SuccessCertainIff | src/reslib/rollbacks/workload.py:75-88 | when every run returns one |
| Rollbacks.ThrowsPossibleIff | src/reslib/rollbacks/pod.py:88-94 | which errors some run raises: those that may be reported and are no signals |
| Rollbacks.RecordMeansEvidence | src/reslib/rollbacks/hpa.py:105-135 | each of the four supervised waits: a returned record means that the poll that ended the monitor saw the evidence |
| Rollbacks.OwnExceptionReported | src/reslib/rollbacks/workload.py:37-80 | if some task of the wait raises before the group timer, the exception reported is one of the tasks' own and raised first |
| Rollbacks.GroupTimeoutUnreachable | src/reslib/rollbacks/pod.py:60-93 | calls of the success monitor that fit keep the group timeout from every run: 27, 25, 5 and 5 seconds for the library's constants, and the first call alone for timeouts of zero or less |
| Rollbacks.BoundsInSeconds | src/reslib/rollbacks/workload.py:37-80 | for positive timeouts the bounds are 27, 25, 5 and 5 seconds |
| Rollbacks.PollTimes | src/reslib/actions/hpa.py:186-211 | with instant calls the success monitors poll every 3 or 5 seconds and the crash monitors every 5 or 10 |
| Rollbacks.GroupTimeoutIff | src/reslib/rollbacks/hpa.py:80-108 | for every timeout, positive or not: calls of up to d can end some run in the group timeout if and only if they do not fit and no stress command fails before |
| Rollbacks.ScaleDownWithoutTime | src/reslib/rollbacks/schemas.py:13-17 | a scale-down timeout of -10 or less always ends in the group timeout |
| Rollbacks.RestartTimeoutReported | src/reslib/rollbacks/workload.py:37-80 | on a timeout in both monitors the error of the one that gives up first is reported |
| Rollbacks.RestartTimeoutCertainIff | src/reslib/rollbacks/workload.py:37-80 | every run reports the promised error if and only if the completion monitor gives up strictly first |
| Rollbacks.InstantTimeoutsTie | src/reslib/rollbacks/workload.py:37-71 | with instant calls both monitors give up together at every timeout, and either error is reported in some run |
| Rollbacks.NoTimeoutIsCertain | src/reslib/rollbacks/workload.py:48-58 | for every timeout there is a world in which a run reports the generic error |
| Rollbacks.RestartTimeoutHidden | src/reslib/rollbacks/workload.py:62-71 | for every timeout there is a world in which every run reports the generic error |
| Scenario.SelectedFrom | src/reslib/runtime/scenario.py:66 | a phase takes only its own named steps, each once, in scenario order |
| Traces.SelectedAll | src/reslib/runtime/scenario.py:66 | and every one of them |
| Scenario.ExecuteStep | src/reslib/runtime/scenario.py:67-125 | started, then success, or failed and raised, or nothing after an escape |
| Scenario.ExecutePhase | src/reslib/runtime/scenario.py:64-125 | the loop is the phase function: it stops at the first failure |
| Scenario.ObserverContext.Enter | src/reslib/core/context.py:109-156 | the start announces the observer and fails fast if it has ended during the warmup |
| Scenario.ObserverContext.Leave | src/reslib/core/context.py:158-197 | the stop is always announced; an observer failure replaces the body's and then the fields are not reset |
| Scenario.ExecuteScenario | src/reslib/runtime/scenario.py:153-184 | the runner refines the run function: same events, same handlers, same exit |
| Traces.PhaseShape | src/reslib/runtime/scenario.py:66-125 | a phase is its completed pairs up to and including the first step that fails |
| Traces.EveryTraceIsLegal | src/reslib/runtime/scenario.py:64-184 | every trace is guardrail pairs, possibly cut; then the observer start; then its failure and nothing more, or action pairs, rollback pairs only after all actions, and the stop last |
| Traces.EveryLegalTraceOccurs | src/reslib/runtime/scenario.py:64-184 | conversely every word of that grammar is the trace of some run |
| Traces.HandlersAreAPrefix | src/reslib/runtime/scenario.py:158-184 | the handlers run are a prefix of guardrails, actions, rollbacks, each in step order |
| Traces.CompletesIff | src/reslib/runtime/scenario.py:158-184 | the run returns normally if and only if every named step succeeded, the observer survived the warmup and did not fail later |
| Traces.ExitIff | src/reslib/runtime/scenario.py:158-184 | the exit of every run, exactly: normal, with the exception of which step, with that of the observer, or with a cancellation |
| Traces.ObserverFailureWins | src/reslib/core/context.py:172-197 | once past the warmup, a failed observer decides the exit even when a step failed; otherwise the failed step does |
| Traces.NothingRunsUnguarded | src/reslib/runtime/scenario.py:163-184 | no action starts before all guardrails succeeded, no rollback before all actions did |
| Contexts.ContextStore.EnterContext | src/reslib/core/context.py:36-39 | the task gets a fresh copy of the data as its dictionary |
| Contexts.ContextStore.LeaveContext | src/reslib/core/context.py:40-41 | the variable is reset to what it was |
| Contexts.ContextStore.CreateTask | src/reslib/core/watchdog.py:43-45 | a new task inherits the reference to its creator's dictionary |
| Contexts.ContextStore.SetContext | src/reslib/core/context.py:72-75 | a write changes one key of the current dictionary, in place |
| Contexts.ContextStore.GetContext | src/reslib/core/context.py:61-69 | no context, a missing key, or the value, or the default for a missing key |
| Contexts.ChildWritesAreSeen | src/reslib/core/context.py:20-75 | whatever all tasks do since, parent and child see each other's writes |
| Contexts.InnerContextIsIsolated | src/reslib/core/context.py:36-41 | over any interleaving, leaving an inner context gives the outer one back, and no write from inside reached an outer dictionary |
| Contexts.OneSnapshotForAllPhases | src/reslib/runtime/scenario.py:158-184 | every reader of the run's context gets the workload, scenario and telemetry it was started with |
| Contexts.EveryTaskOfRunReadsSnapshot | src/reslib/runtime/scenario.py:158-184 | the run's task and all its descendants are such readers, in every interleaving with other runs |
| Contexts.ProtectedEntriesStay | src/reslib/core/context.py:72-75 | no sequence of library writes changes a protected entry of any dictionary |
| SnapshotCache.StepInv | src/reslib/k8s/workloads.py:180-201 | every step keeps the cache sound and every return accounted for |
| SnapshotCache.ReturnsAreFreshAndOwn | src/reslib/k8s/workloads.py:176-201 | in every run a caller returns a snapshot of its own key: its own fetch, or one inserted less than 30 ticks before by the caller that fetched it |
| SnapshotCache.LookReusesIff | src/reslib/k8s/workloads.py:180-187 | a caller that looks is given its key's entry if and only if it was inserted less than 30 ticks ago, and otherwise goes on to fetch |
| SnapshotCache.LockReusesIff | src/reslib/k8s/workloads.py:195-201 | the same under the lock, where otherwise the own fetch is inserted and returned |
| SnapshotCache.SharedForIff | src/reslib/k8s/workloads.py:43 | a fetch is shared over a distance of n ticks in some run if and only if 0 <= n < 30 |
| SnapshotCache.EvictsIff | src/reslib/k8s/workloads.py:43 | an insertion loses a live entry of another key if and only if 64 others are held, and then only one |
| SnapshotCache.NeverOverwritten | src/reslib/k8s/workloads.py:195-199 | a live entry changes in no step; it can only be evicted by another key from a full cache |
| SnapshotCache.ReturnsWhatIsCached | src/reslib/k8s/workloads.py:181-201 | what a caller returns is what the cache holds for its key at that moment |
| SnapshotCache.SameEntrySameSnapshot | src/reslib/k8s/workloads.py:176-201 | callers of one key that return while the entry stays live return one snapshot |
| SnapshotCache.OwnClientOwnFetch | src/reslib/k8s/workloads.py:180 | a caller whose key no other caller has returns its own fetch, whatever the others share |
| SnapshotCache.SharesIff | src/reslib/k8s/workloads.py:180-201 | for any callers' keys: some run gives a caller what another fetched if and only if another has its key |
| SnapshotCache.NamespaceCache.Get | src/reslib/k8s/workloads.py:181-183 | an entry less than 30 ticks old and nothing else |
| SnapshotCache.NamespaceCache.SettleFetched | src/reslib/k8s/workloads.py:195-201 | the locked section: an entry found there wins over the own fetch, which is otherwise inserted within the size limit |
| HpaTrigger.CalculateHpaTrigger | src/reslib/k8s/scaling.py:75-84 | the least number of pods for which a load within the threshold reaches the target, with the least such load; else all pods at the threshold; and equal to the closed form |
| HpaTrigger.OutOfReachIff | src/reslib/k8s/scaling.py:78-84 | the fallback is taken exactly when no number of pods reaches the target |
| HpaTrigger.ClosedFormIsBest | src/reslib/k8s/scaling.py:78-84 | within reach the closed form is the least trigger; otherwise there is none and all pods are taken |
| HpaTrigger.LoadIsLeast | src/reslib/k8s/scaling.py:79-80 | the rounded-up load is the least that brings the fleet average to the target |
| HpaTrigger.LoadWithinBounds | src/reslib/k8s/scaling.py:78-84 | below the target: between one and all pods, at a load from the target to the threshold |
| HpaTrigger.NegativeLoadIff | src/reslib/k8s/scaling.py:76-82 | the load is negative exactly when the surplus of the fleet exceeds the idle load |
| HpaTrigger.NothingStressedIff | src/reslib/k8s/scaling.py:78-84 | no pod is stressed exactly when no pod is ready |
| HpaTrigger.SatisfiedFleetIsStressed | src/reslib/k8s/scaling.py:78-84 | a fleet at or above its target has one pod stressed, or all if no load within the threshold will do |
| HpaTrigger.IdleLimitIff | src/reslib/guardrails/hpa.py:189-194 | the guardrail's rounding is exact: it passes if and only if the idle share is at least the configured percentage |
| HpaTrigger.MultiplesPass | src/reslib/guardrails/hpa.py:202-205 | a fleet that passes also passes k times as large |
| HpaTrigger.NextReplicaMayFail | src/reslib/guardrails/hpa.py:202-205 | a fleet that passes with two replicas and not with three |
| HpaTrigger.ScalingHelpsIff | src/reslib/guardrails/hpa.py:189-205 | some fleet size passes if and only if the stressed share and the idle share fit together, for all inputs |
| HpaTrigger.ScalingSettlesIff | src/reslib/guardrails/hpa.py:189-205 | from some size on every fleet passes if and only if they fit with room for rounding, for all inputs |
| StressSelection.FindMetric | src/reslib/k8s/scaling.py:36-48 | the first matching metric, or there is none |
| StressSelection.SelectPodsToStress | src/reslib/actions/hpa.py:116-151 | distinct running pods, as many as the trigger says, none exactly when no pod is ready; behind the guardrails as many as they judged, with the idle share kept and the load within the threshold |
| StressSelection.GuardrailBoundsAction | src/reslib/guardrails/hpa.py:176-206 | the trigger the guardrails judge is the one the action uses: same pods, idle share kept, load within the threshold |
| StressSelection.SelectionIsLeast | src/reslib/actions/hpa.py:132-143 | on the workload's own metric what is stressed is the least number of ready pods that reaches the target, at the least load, or all at the threshold |
| StressSelection.GuardrailPassesIff | src/reslib/guardrails/hpa.py:34-58 | with the count guardrail: both pass if and only if the metric is CPU utilization and some number of pods reaches the target and leaves the share idle, or none reaches it and none has to stay idle |
| StressSelection.BusyWorkloadIsStressed | src/reslib/actions/hpa.py:230-232 | a workload that already meets the trigger condition is stressed all the same |
| StressSelection.LoadWithinThreshold | src/reslib/k8s/scaling.py:81-84 | no input makes the load exceed the threshold |
| StressSelection.UnreachableTarget | src/reslib/k8s/scaling.py:84 | with a threshold below the target the guardrail passes only without an idle minimum, and the target is still missed |
| Disruption.QuantityIff | src/reslib/schemas/validators.py:48-74 | the quantity is k if and only if k is the amount and at most the total, or 100 k <= total * amount < 100 (k + 1) for a share of at most a hundred percent |
| Disruption.QuantityWithinTotal | src/reslib/schemas/validators.py:48-74 | a quantity is at most the total, and a share under a hundred percent is less |
| Disruption.GuardrailsPassIff | src/reslib/guardrails/pdb.py:32-96 | with the availability guardrail: both pass if and only if there is a PDB and the quantity keeps every bound |
| Disruption.RequestPassesIff | src/reslib/guardrails/availability.py:33-67 | the same on the request and the ready pods alone, without the rounded quantity |
| Disruption.RejectionReasons | src/reslib/guardrails/availability.py:33-67 | which plans are rejected for which reason, in terms of the request |
| Disruption.HintsAreExact | src/reslib/guardrails/pdb.py:80-96 | an absolute quantity passes both guardrails if and only if it is at most what the failure hints and the PDB maximum leave, and some selection passes if and only if they leave one pod |
| Disruption.DrainCountsAsOne | src/reslib/guardrails/pdb.py:37-52 | an endpoint drain passes without a PDB, or exactly when one pod fits both bounds, with the verdict on one pod |
| Disruption.GuardedActionEnds | src/reslib/actions/pod.py:157-211 | behind the guardrails, exactly when an action completes, and exactly when it refuses to start |
| Disruption.Cluster.DisruptPods | src/reslib/actions/pod.py:156-211 | the sample is disrupted in order up to the first refusal, nothing otherwise, and a failed wait fails the action; an action that completes takes exactly what is asked for; behind the guardrails the pods disrupted are, at every moment of the loop, distinct, of the workload, and within every bound |
| Disruption.Cluster.DisruptSeveral | src/reslib/runtime/scenario.py:66-125 | several actions on one cluster; the first that fails, by its requests or by its wait, is the last |
| Disruption.EveryPrefixIsSafe | src/reslib/actions/pod.py:203-208 | every prefix of what an action draws is harmless when both guardrails have passed |
| Disruption.TwoActionsMayBeUnsafe | src/reslib/guardrails/availability.py:37-39 | a plan that passes, and two actions that together take away all replicas |
| Disruption.TakenAreDistinct | src/reslib/actions/pod.py:179-208 | the pods taken by several actions are distinct |
| Disruption.TakenInAll | src/reslib/actions/pod.py:179-208 | and as many as the actions ask for in all, or fewer if one fails |
| Disruption.SeveralActionsAreSafeIff | src/reslib/guardrails/availability.py:33-67 | n actions keep every bound, whatever they draw and wherever they stop, if and only if both guardrails pass n times the quantity |
| GuardedRuns.AnnouncedIsGuarded | src/reslib/runtime/scenario.py:163-178 | an action that is announced has every guardrail step behind it |
| GuardedRuns.EveryMomentIsHarmless | src/reslib/runtime/scenario.py:163-184 | in every run with both disruption guardrails, after every event and in between, the pods disrupted are none or harmless |
| GuardedRuns.BothGuardrailsNeeded | src/reslib/guardrails/pdb.py:48-96 | without the one or the other some run completes and breaks a bound |
| Deletions.GroupTimeoutIff | src/reslib/actions/pod.py:202-211 | some run replaces the pod's own timeout by the group timeout if and only if calls of up to d can delay a loop to the timer |
| Deletions.WholeIntervals | src/reslib/actions/pod.py:59-84 | for timeouts of m poll intervals: if and only if m + 1 calls can add up to one interval |
| Deletions.AllGoneIff | src/reslib/actions/pod.py:209-211 | every run of the wait returns if and only if the last read of each pod found it gone, before the group timer |
| Deletions.PodWaitEnds | src/reslib/actions/pod.py:30-84 | a pod found gone ends its wait, a read that fails ends it with that error, and otherwise it times out |
| Histogram.BisectRight | src/reslib/observers/http.py:73 | binary search on sorted samples gives the number of samples at most the bound |
| Histogram.BuildLatencyBuckets | src/reslib/observers/http.py:46-78 | each bucket counts its samples, for every list and for the empty one |
| Histogram.PermutationInvariant | src/reslib/observers/http.py:70 | the order of the samples does not matter |
| Histogram.Cumulative | src/reslib/observers/http.py:72-76 | counts grow with the bound, and the last two buckets add up to all samples |
| Histogram.BucketNames | src/reslib/observers/http.py:21-40 | the 19 buckets and what each of them counts |
| Histogram.MergeIsConcat | src/reslib/observers/http.py:88-92 | adding two histograms gives the histogram of both lists |
| Histogram.IntervalsMerge | src/reslib/observers/http.py:88-92 | the promised mergeability, for any number of intervals |
| HttpInterval.SplitRequestResults | src/reslib/observers/http.py:226-241 | responses and errors in task order, all errors counted, the last twenty kept |
| HttpInterval.ResponsesInOrder | src/reslib/observers/http.py:234-236 | the responses of a list are those of its parts in order, one for each request that ended with a value |
| HttpInterval.ErrorsInOrder | src/reslib/observers/http.py:237-239 | and the errors likewise |
| HttpInterval.BuildMeasurement | src/reslib/observers/http.py:93-140 | the counts, sums and extremes of the interval, with minimum <= mean <= maximum |
| HttpInterval.StatusCountsAre | src/reslib/observers/http.py:93-95 | a status is a key exactly when a response has it, with how often it occurs |
| HttpInterval.StatusCountsTotal | src/reslib/observers/http.py:93-95 | the status counts add up to the responses |
| HttpInterval.ServerErrorsAdd | src/reslib/observers/http.py:98-102 | one server error for each response with a status from 500 on |
| HttpInterval.SumsMerge | src/reslib/observers/http.py:125 | the latency sum of two intervals is the sum of both |
| HttpInterval.MeanIsShare | src/reslib/observers/http.py:126 | the mean, taken once for each sample, gives the sum |
| HttpInterval.BuildPayload | src/reslib/observers/http.py:143-172 | every payload accounts for every completed request: successes, errors, status codes, buckets, samples, error flag |
| HttpInterval.RepliesAccounted | src/reslib/helpers.py:56-69 | from the replies to the payload: each success status as often as it was answered, no other, the latencies of the successes, and every other request as a transport error |
| HttpInterval.WholeInterval | src/reslib/observers/http.py:204-223 | over all interleavings a payload is about all requests of the interval, and counts as errors exactly those that failed; otherwise the group times out |
| HttpInterval.FailedRequestMayEndInterval | src/reslib/observers/http.py:204-223 | a timeout without the timer is possible if and only if one of at least two requests fails |
| HttpInterval.PayloadLostIff | src/reslib/observers/http.py:197-223 | on the clock an interval may lose its payload if and only if a request has not ended before the timer, or one fails while another has not ended by that tick |
| HttpInterval.RequestsInTime | src/reslib/observers/http.py:197-223 | if every request succeeds within its own timeout no run loses the payload |
| HttpInterval.NoServerErrors | src/reslib/helpers.py:56-69 | only success statuses become responses, so the server error count is zero, which is right exactly when no reply has such a status |
| Services.ServiceIsLeastMatch | src/reslib/k8s/workloads.py:317-339 | a service of least name whose non-empty selector is contained in the labels, and none exactly when there is no such service |
| Ordering.AtMostIff | src/reslib/k8s/workloads.py:339 | names are compared by the first code point that differs, a prefix coming first |
| Services.ServiceIgnoresOrder | src/reslib/k8s/workloads.py:321 | deterministic: with distinct names every order of the list gives the same service |
| Endpoints.GetServiceOnlySelectorKey | src/reslib/k8s/endpoints.py:19-41 | the least key of the Service selector that the workload selector lacks, or the error exactly when there is none |
| Endpoints.Cluster.Drain | src/reslib/actions/endpoint.py:42-115 | succeeds exactly under its four conditions, then patches one label of one ready pod and leaves the undo record; every error changes nothing, and the label mismatch cannot occur |
| Endpoints.Cluster.Restore | src/reslib/rollbacks/endpoint.py:22-35 | patches the label of the record back; fails without one |
| Endpoints.DrainTakesOneOut | src/reslib/actions/endpoint.py:27-34 | exactly the chosen pod leaves, if and only if the Service does not select the marker; one ready pod stays and workload ownership is unchanged |
| Endpoints.DrainOnFields | src/reslib/actions/endpoint.py:54-101 | on the fields of the pods: one ready pod with all labels of the Service gets the marker and is otherwise as it was, another one is left, and no other pod changes |
| Endpoints.RestoreUndoesDrain | src/reslib/rollbacks/endpoint.py:14-35 | restoring after a drain gives every pod its original labels |
| Endpoints.RestoreReturnsPod | src/reslib/rollbacks/endpoint.py:14-35 | whatever happened in between, the pod is selected again exactly when the other selector labels are there |
| Endpoints.RestoreUndoesDrainsIff | src/reslib/actions/endpoint.py:97-115 | for any sequence of drains: the rollback gives back the original labels if and only if there was one drain, or the Service selects the marker |
| Endpoints.OnlyLastReturns | src/reslib/rollbacks/endpoint.py:22-35 | otherwise every pod but the last one drained stays out of the Service |
| Endpoints.SecondDrainForgetsFirst | src/reslib/actions/endpoint.py:103-115 | the shortest case: after two drains no number of restores brings the first pod back |

## Left out

- Kubernetes, stream and HTTP clients: their answers are parameters. `KubernetesClient` is present only as a part of the cache key.
- Cancellation of the run from outside, and of the observer in the middle of a request group: a run is never cancelled, and a stopped observer ends in a cancellation, in its own exception, or has cancelled itself.
- Latency of the event loop and of threads: the timed results assume that due steps run before the clock moves. `TaskGroups` and `SnapshotCache` assume nothing of the kind.
- Rollbacks.RecordMeansEvidence: the record travels with the exception; that the same record is read back from the context is `Monitors.SharedRecords.ReportSuccess`.
- Rollbacks.GroupTimeoutIff: stress commands that cancel themselves are not modelled.
- HttpInterval.PayloadLostIff: requests that cancel themselves are left out on the clock; `HttpInterval.WholeInterval` covers them.
- GuardedRuns.EveryMomentIsHarmless: is about one disruption action; for several in a run `Disruption.SeveralActionsAreSafeIff` says when they are safe.
- The passive HPA event tasks of the stress action and of the scale-down rollback, and the fields of their events: they can neither end nor fail the wait.
- Contexts.InnerContextIsIsolated: tasks from outside are asked not to write to the outer dictionary in question; they would of course change it.
- SnapshotCache.NamespaceCache.SettleFetched: which entry a full cache evicts is a parameter, so that every recency order is covered; the contents of a snapshot are abstracted to who fetched it.
- Telemetry back ends that raise, and handlers that return no dictionary.
- Scenario.ExecuteScenario: reading the workload comes before it, and a lookup of a handler that fails counts as a failure of that handler, which is what the code makes of it.
- The wait loops after drain and restore, which run without a group, are instances of `Polling.WatchUntil` and are not stated again; how endpoint slices follow the labels is up to the cluster.
- After a failed action the rollback phase does not run, so a drain whose wait times out stays in place; this follows from `Traces.EveryTraceIsLegal` and has no theorem of its own.
- HpaTrigger.CalculateHpaTrigger: the real reaction of the HPA controller, with its tolerance and its windows, is not modelled; neither is the rounding of floats beyond exact quotients.
- Disruption.EveryPrefixIsSafe: is about the snapshot the guardrails judged, not about replicas that come or go by themselves. The branch for an empty sample after a positive quantity is unreachable and not modelled.
- HttpInterval.BuildMeasurement: latencies are reals, summed exactly; time stamps and the workload state of the payload are left out.
- Endpoints.Cluster.Drain: reads that fail and the deletion of the pod between choice and patch are left out.
- Rolling restart itself, discovery, probe and container specs, configuration, logging, resolver, schema parsing beyond the bounds used, and all message texts.
