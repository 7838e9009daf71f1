/**
 * `watch_task_group` of src/reslib/core/watchdog.py as a step machine.
 *
 * A step is what runs between two suspension points: a task ends, its done callback runs,
 * the timer of `asyncio.wait` fires, or the supervising coroutine resumes. The scheduler may
 * take the enabled steps in any order, and a cancelled task may still end in any way.
 */
module TaskGroups {

  datatype Outcome<+V, +E> = Value(value: V) | Raised(error: E) | Cancelled

  datatype TaskState<+V, +E> = Running(cancelRequested: bool) | Finished(outcome: Outcome<V, E>)

  datatype ReturnWhen = FirstCompleted | FirstException | AllCompleted

  /**
   * `natural` is how each task ends when it is left alone. A task that never ends by itself
   * is one whose end the scheduler never takes.
   */
  datatype Config<V, E> = Config(
    natural: seq<Outcome<V, E>>, returnWhen: ReturnWhen, raiseException: bool)

  /** How the supervisor leaves: `done` as a list, the exception of a task, or its own error. */
  datatype Exit = Returned(order: seq<nat>) | RaisedBy(task: nat) | TimedOut(pending: set<nat>)

  datatype Phase =
    | Waiting
    | Gathering(done: set<nat>, pending: set<nat>)
    | Exited(done: set<nat>, pending: set<nat>, exit: Exit)

  datatype Group<V, E> = Group(
    tasks: seq<TaskState<V, E>>,
    heard: set<nat>,
    timerFired: bool,
    released: bool,
    phase: Phase)

  datatype Event<V, E> =
    | Finish(task: nat, outcome: Outcome<V, E>)
    | Notify(task: nat)
    | TimerFires
    | Collect
    | Conclude(order: seq<nat>)

  function Init<V, E>(cfg: Config<V, E>): Group<V, E> {
    Group(seq(|cfg.natural|, i => Running(false)), {}, false, false,
          if |cfg.natural| == 0 then Exited({}, {}, Returned([])) else Waiting)
  }

  /** The counter of `asyncio.wait` has reached zero: every done callback has run. */
  predicate AllHeard(n: nat, heard: set<nat>) {
    forall i: nat :: i < n ==> i in heard
  }

  function DoneOf<V, E>(tasks: seq<TaskState<V, E>>): set<nat> {
    set i: nat | i < |tasks| && tasks[i].Finished?
  }

  function PendingOf<V, E>(tasks: seq<TaskState<V, E>>): set<nat> {
    set i: nat | i < |tasks| && tasks[i].Running?
  }

  function CancelPending<V, E>(tasks: seq<TaskState<V, E>>): seq<TaskState<V, E>> {
    seq(|tasks|, i requires 0 <= i < |tasks| => if tasks[i].Running? then Running(true) else tasks[i])
  }

  /** The done callback of `asyncio.wait`: does this end release the waiter? */
  predicate Releases<V, E>(cfg: Config<V, E>, heard: set<nat>, outcome: Outcome<V, E>) {
    || AllHeard(|cfg.natural|, heard)
    || cfg.returnWhen == FirstCompleted
    || (cfg.returnWhen == FirstException && outcome.Raised?)
  }

  /** `order` lists the set `done`, in whatever order iterating a set happens to give. */
  ghost predicate Lists(order: seq<nat>, done: set<nat>) {
    && (forall i: nat :: i in done <==> i in order)
    && forall i, j :: 0 <= i < j < |order| ==> order[i] != order[j]
  }

  ghost predicate AllFinished<V, E>(tasks: seq<TaskState<V, E>>) {
    forall i :: 0 <= i < |tasks| ==> tasks[i].Finished?
  }

  /** A done task whose `exception()` does not simply give none. */
  predicate Fails<V, E>(tasks: seq<TaskState<V, E>>, i: nat) {
    i < |tasks| && tasks[i].Finished? && !tasks[i].outcome.Value?
  }

  /** Position of the first failing task in `order`, or its length. */
  function FirstFailing<V, E>(tasks: seq<TaskState<V, E>>, order: seq<nat>): (f: nat)
    ensures f <= |order|
    ensures f < |order| ==> Fails(tasks, order[f])
    ensures forall j :: 0 <= j < f ==> !Fails(tasks, order[j])
  {
    if |order| == 0 || Fails(tasks, order[0]) then 0 else 1 + FirstFailing(tasks, order[1..])
  }

  /** The exit chosen after the gather, for one order of iterating over `done`. */
  function Decide<V, E>(cfg: Config<V, E>, tasks: seq<TaskState<V, E>>,
                        order: seq<nat>, pending: set<nat>): Exit
  {
    var f := FirstFailing(tasks, order);
    if cfg.raiseException && f < |order| then RaisedBy(order[f])
    else if pending != {} then TimedOut(pending)
    else Returned(order)
  }

  ghost predicate Enabled<V, E>(cfg: Config<V, E>, s: Group<V, E>, e: Event<V, E>) {
    match e
    case Finish(i, o) =>
      && i < |s.tasks| == |cfg.natural|
      && s.tasks[i].Running?
      && (s.phase.Gathering? || (s.phase.Waiting? && o == cfg.natural[i]))
    case Notify(i) => s.phase.Waiting? && i in DoneOf(s.tasks) && i !in s.heard
    case TimerFires => s.phase.Waiting? && !s.released
    case Collect => s.phase.Waiting? && s.released
    case Conclude(order) => s.phase.Gathering? && AllFinished(s.tasks) && Lists(order, s.phase.done)
  }

  ghost function After<V, E>(cfg: Config<V, E>, s: Group<V, E>, e: Event<V, E>): Group<V, E>
    requires Enabled(cfg, s, e)
  {
    match e
    case Finish(i, o) => s.(tasks := s.tasks[i := Finished(o)])
    case Notify(i) =>
      var heard := s.heard + {i};
      s.(heard := heard, released := s.released || Releases(cfg, heard, s.tasks[i].outcome))
    case TimerFires => s.(timerFired := true, released := true)
    case Collect =>
      s.(tasks := CancelPending(s.tasks), phase := Gathering(DoneOf(s.tasks), PendingOf(s.tasks)))
    case Conclude(order) =>
      s.(phase := Exited(s.phase.done, s.phase.pending,
                         Decide(cfg, s.tasks, order, s.phase.pending)))
  }

  ghost predicate Next<V(!new), E(!new)>(cfg: Config<V, E>, s: Group<V, E>, s': Group<V, E>) {
    exists e: Event<V, E> :: Enabled(cfg, s, e) && s' == After(cfg, s, e)
  }

  ghost predicate IsRun<V(!new), E(!new)>(cfg: Config<V, E>, run: seq<Group<V, E>>) {
    && 0 < |run|
    && run[0] == Init(cfg)
    && forall k :: 0 <= k < |run| - 1 ==> Next(cfg, run[k], run[k + 1])
  }

  /** Some heard task failed with an exception. */
  ghost predicate HeardException<V, E>(s: Group<V, E>) {
    exists i: nat :: i in s.heard && i < |s.tasks| && s.tasks[i].Finished? && s.tasks[i].outcome.Raised?
  }

  /** Why the waiter was released. */
  ghost predicate ReleaseJustified<V, E>(cfg: Config<V, E>, s: Group<V, E>) {
    || s.timerFired
    || AllHeard(|cfg.natural|, s.heard)
    || (cfg.returnWhen == FirstCompleted && s.heard != {})
    || (cfg.returnWhen == FirstException && HeardException(s))
  }

  /** What holds once `done` and `pending` have been taken apart. */
  ghost predicate Split<V, E>(cfg: Config<V, E>, s: Group<V, E>, done: set<nat>, pending: set<nat>) {
    && (forall i: nat :: i < |cfg.natural| <==> i in done || i in pending)
    && done !! pending
    && s.heard <= done
    && (forall i: nat :: i in done ==> i < |s.tasks| && s.tasks[i] == Finished(cfg.natural[i]))
    && (|cfg.natural| > 0 ==> ReleaseJustified(cfg, s))
  }

  ghost predicate Inv<V, E>(cfg: Config<V, E>, s: Group<V, E>) {
    && |s.tasks| == |cfg.natural|
    && s.heard <= DoneOf(s.tasks)
    && match s.phase
       case Waiting =>
         && |cfg.natural| > 0
         && (forall i :: 0 <= i < |s.tasks| && s.tasks[i].Finished? ==> s.tasks[i].outcome == cfg.natural[i])
         && (s.released ==> ReleaseJustified(cfg, s))
       case Gathering(done, pending) =>
         && |cfg.natural| > 0
         && Split(cfg, s, done, pending)
       case Exited(done, pending, exit) =>
         && Split(cfg, s, done, pending)
         && AllFinished(s.tasks)
         && exists order: seq<nat> :: Lists(order, done) && exit == Decide(cfg, s.tasks, order, pending)
  }

  lemma InitInv<V, E>(cfg: Config<V, E>)
    ensures Inv(cfg, Init(cfg))
  {
    if |cfg.natural| == 0 {
      assert Lists([], {}) && Returned([]) == Decide(cfg, Init(cfg).tasks, [], {});
    }
  }

  lemma StepInv<V, E>(cfg: Config<V, E>, s: Group<V, E>, e: Event<V, E>)
    requires Inv(cfg, s) && Enabled(cfg, s, e)
    ensures Inv(cfg, After(cfg, s, e))
  {
    var s' := After(cfg, s, e);
    match e
    case Finish(i, o) =>
      assert HeardException(s) ==> HeardException(s');
    case Notify(i) =>
      assert HeardException(s) ==> HeardException(s');
      assert i in s'.heard && (s.tasks[i].outcome.Raised? ==> HeardException(s'));
    case TimerFires =>
    case Collect =>
      assert HeardException(s) ==> HeardException(s');
    case Conclude(order) =>
      assert HeardException(s) ==> HeardException(s');
  }

  lemma {:induction false} RunInv<V(!new), E(!new)>(cfg: Config<V, E>, run: seq<Group<V, E>>, k: nat)
    requires IsRun(cfg, run) && k < |run|
    ensures Inv(cfg, run[k])
  {
    InitInv(cfg);
    if k > 0 {
      RunInv(cfg, run, k - 1);
      assert Next(cfg, run[k - 1], run[k]);
      var e: Event<V, E> :| Enabled(cfg, run[k - 1], e) && run[k] == After(cfg, run[k - 1], e);
      StepInv(cfg, run[k - 1], e);
    }
  }

  /**
   * Who has been asked to cancel: nobody while the group waits, and afterwards of the tasks that still run
   * exactly the pending ones, that is all of them.
   */
  ghost predicate CancelsPending<V, E>(s: Group<V, E>) {
    match s.phase
    case Waiting => forall i: nat :: i < |s.tasks| && s.tasks[i].Running? ==> !s.tasks[i].cancelRequested
    case Gathering(_, pending) =>
      forall i: nat :: i < |s.tasks| && s.tasks[i].Running? ==> i in pending && s.tasks[i].cancelRequested
    case Exited(_, _, _) => true
  }

  lemma {:induction false} CancelsInRun<V(!new), E(!new)>(cfg: Config<V, E>, run: seq<Group<V, E>>, k: nat)
    requires IsRun(cfg, run) && k < |run|
    ensures CancelsPending(run[k])
  {
    if k > 0 {
      CancelsInRun(cfg, run, k - 1);
      assert Next(cfg, run[k - 1], run[k]);
      var e: Event<V, E> :| Enabled(cfg, run[k - 1], e) && run[k] == After(cfg, run[k - 1], e);
    }
  }

  /**
   * The end of the wait: the tasks that have ended keep their outcomes, and those that have not, and only
   * those, are asked to cancel.
   */
  lemma CollectCancels<V(!new), E(!new)>(cfg: Config<V, E>, run: seq<Group<V, E>>, k: nat, i: nat)
    requires IsRun(cfg, run) && k < |run| && Enabled(cfg, run[k], Collect) && i < |cfg.natural|
    ensures var s, s' := run[k], After(cfg, run[k], Collect);
            && |s.tasks| == |s'.tasks| == |cfg.natural|
            && (s.tasks[i].Finished? ==> s'.tasks[i] == s.tasks[i])
            && (s'.tasks[i] == Running(true) <==> !s.tasks[i].Finished?)
            && (i in s'.phase.pending <==> !s.tasks[i].Finished?)
            && (i in s'.phase.done <==> s.tasks[i].Finished?)
  {
    RunInv(cfg, run, k);
  }

  /** The last state of a run that has left the supervisor. */
  ghost predicate Leaves<V(!new), E(!new)>(cfg: Config<V, E>, run: seq<Group<V, E>>, s: Group<V, E>) {
    IsRun(cfg, run) && run[|run| - 1] == s && s.phase.Exited?
  }

  /**
   * Over all interleavings: when the supervisor leaves, every task has finished, and it leaves
   * by the exception of a done task if failures are raised and a done task failed; otherwise
   * with its own timeout error exactly when some task had to be cancelled; otherwise with the
   * list of all tasks.
   */
  lemma ExitVerdict<V(!new), E(!new)>(cfg: Config<V, E>, run: seq<Group<V, E>>, s: Group<V, E>)
    requires Leaves(cfg, run, s)
    ensures AllFinished(s.tasks) && |s.tasks| == |cfg.natural|
    ensures forall i: nat :: i < |cfg.natural| <==> i in s.phase.done || i in s.phase.pending
    ensures s.phase.done !! s.phase.pending
    ensures var failed := cfg.raiseException && exists i :: i in s.phase.done && !cfg.natural[i].Value?;
            match s.phase.exit
            case RaisedBy(i) => failed && i in s.phase.done && !cfg.natural[i].Value?
            case TimedOut(late) => !failed && late == s.phase.pending && late != {}
            case Returned(order) =>
              && !failed && s.phase.pending == {} && Lists(order, s.phase.done)
              && (forall i: nat :: i < |cfg.natural| <==> i in order)
  {
    RunInv(cfg, run, |run| - 1);
    var order: seq<nat> :| Lists(order, s.phase.done)
                           && s.phase.exit == Decide(cfg, s.tasks, order, s.phase.pending);
    var f := FirstFailing(s.tasks, order);
    if i :| i in s.phase.done && !cfg.natural[i].Value? {
      assert i in order && Fails(s.tasks, i);
      assert f < |order|;
    }
    if f < |order| {
      assert order[f] in s.phase.done;
    }
  }

  /**
   * Every failing done task may be the one whose exception is raised: `done` is a set, and no
   * order of iterating over it is promised.
   */
  lemma AnyFailureMayWin<V, E>(cfg: Config<V, E>, s: Group<V, E>, i: nat) returns (order: seq<nat>)
    requires Inv(cfg, s) && s.phase.Gathering? && AllFinished(s.tasks)
    requires cfg.raiseException && i in s.phase.done && !cfg.natural[i].Value?
    ensures Enabled(cfg, s, Conclude(order))
    ensures After(cfg, s, Conclude(order)).phase.exit == RaisedBy(i)
  {
    var rest := ListOf(s.phase.done - {i});
    order := [i] + rest;
    assert forall j: nat :: j in s.phase.done <==> j == i || j in rest;
    assert Fails(s.tasks, order[0]);
  }

  lemma ListOf(done: set<nat>) returns (order: seq<nat>)
    ensures Lists(order, done)
  {
    order := [];
    var left := done;
    while left != {}
      invariant left <= done
      invariant Lists(order, done - left)
      decreases left
    {
      var i :| i in left;
      assert i !in order;
      order, left := order + [i], left - {i};
    }
    assert done - {} == done;
  }

  /**
   * The task whose end makes the group give up early: under FIRST_COMPLETED any task that does
   * not fail the group, under FIRST_EXCEPTION a task that raises while failures are not raised.
   */
  ghost predicate GivesUpOn<V, E>(cfg: Config<V, E>, i: nat) {
    && i < |cfg.natural|
    && match cfg.returnWhen
       case FirstCompleted => !cfg.raiseException || cfg.natural[i].Value?
       case FirstException => !cfg.raiseException && cfg.natural[i].Raised?
       case AllCompleted => false
  }

  /** Some run reports a timeout although the timer never fired. */
  ghost predicate CanTimeOutEarly<V(!new), E(!new)>(cfg: Config<V, E>) {
    exists run: seq<Group<V, E>> :: EarlyTimeout(cfg, run)
  }

  /** The run ends in a timeout without its timer having fired. */
  ghost predicate EarlyTimeout<V(!new), E(!new)>(cfg: Config<V, E>, run: seq<Group<V, E>>) {
    IsRun(cfg, run) && var s := run[|run| - 1]; s.phase.Exited? && s.phase.exit.TimedOut? && !s.timerFired
  }

  /**
   * The timeout error means that the time ran out, except for exactly these groups: two tasks or
   * more, one of which makes the group give up early. A group under FIRST_EXCEPTION with failures
   * raised is never one of them; the request group of the HTTP observer is.
   */
  lemma TimeoutWithoutTimer<V(!new), E(!new)>(cfg: Config<V, E>)
    ensures CanTimeOutEarly(cfg) <==> 2 <= |cfg.natural| && exists i: nat :: GivesUpOn(cfg, i)
  {
    if CanTimeOutEarly(cfg) {
      var run: seq<Group<V, E>> :| EarlyTimeout(cfg, run);
      EarlyTimeoutGivesUp(cfg, run, run[|run| - 1]);
    }
    if i: nat :| 2 <= |cfg.natural| && GivesUpOn(cfg, i) {
      var run := EarlyTimeoutRun(cfg, i);
      assert EarlyTimeout(cfg, run);
    }
  }

  lemma EarlyTimeoutGivesUp<V(!new), E(!new)>(cfg: Config<V, E>, run: seq<Group<V, E>>, s: Group<V, E>)
    requires Leaves(cfg, run, s) && s.phase.exit.TimedOut? && !s.timerFired
    ensures 2 <= |cfg.natural| && exists i: nat :: GivesUpOn(cfg, i)
  {
    RunInv(cfg, run, |run| - 1);
    ExitVerdict(cfg, run, s);
    var late: nat :| late in s.phase.pending;
    assert late !in s.heard;
    var i: nat;
    if cfg.returnWhen == FirstCompleted {
      i :| i in s.heard;
    } else {
      i :| i in s.heard && i < |s.tasks| && s.tasks[i].Finished? && s.tasks[i].outcome.Raised?;
    }
    assert i in s.phase.done && i != late;
    assert GivesUpOn(cfg, i);
  }

  /** The run: task `i` ends and is heard, the rest is cancelled, and the group reports a timeout. */
  lemma EarlyTimeoutRun<V(!new), E(!new)>(cfg: Config<V, E>, i: nat) returns (run: seq<Group<V, E>>)
    requires 2 <= |cfg.natural| && GivesUpOn(cfg, i)
    ensures IsRun(cfg, run)
    ensures run[|run| - 1].phase.Exited? && run[|run| - 1].phase.exit.TimedOut? && !run[|run| - 1].timerFired
  {
    run := [Init(cfg)];
    run := Extend(cfg, run, Finish(i, cfg.natural[i]));
    run := Extend(cfg, run, Notify(i));
    run := Extend(cfg, run, Collect);
    var split := run[|run| - 1];
    var other: nat := if i == 0 then 1 else 0;
    assert other in split.phase.pending && split.phase.done == {i};
    var k := 0;
    while k < |cfg.natural|
      invariant k <= |cfg.natural| && IsRun(cfg, run)
      invariant run[|run| - 1].phase == split.phase && !run[|run| - 1].timerFired
      invariant |run[|run| - 1].tasks| == |cfg.natural| && run[|run| - 1].tasks[i] == split.tasks[i]
      invariant AllFinished(run[|run| - 1].tasks[..k])
    {
      if run[|run| - 1].tasks[k].Running? {
        run := Extend(cfg, run, Finish(k, Cancelled));
      }
      k := k + 1;
    }
    assert Lists([i], {i});
    run := Extend(cfg, run, Conclude([i]));
  }

  lemma Extend<V(!new), E(!new)>(cfg: Config<V, E>, run: seq<Group<V, E>>, e: Event<V, E>)
    returns (longer: seq<Group<V, E>>)
    requires IsRun(cfg, run) && Enabled(cfg, run[|run| - 1], e)
    ensures longer == run + [After(cfg, run[|run| - 1], e)] && IsRun(cfg, longer)
  {
    longer := run + [After(cfg, run[|run| - 1], e)];
    forall k | 0 <= k < |longer| - 1 ensures Next(cfg, longer[k], longer[k + 1]) {
      if k < |run| - 1 {
        assert Next(cfg, run[k], run[k + 1]);
      }
    }
  }

  /** The supervising coroutine with the state it shares with the event loop. */
  class Supervisor<V(!new), E(!new)> {
    const cfg: Config<V, E>
    var tasks: seq<TaskState<V, E>>
    var heard: set<nat>
    var timerFired: bool
    var released: bool
    var phase: Phase

    ghost function State(): Group<V, E>
      reads this
    {
      Group(tasks, heard, timerFired, released, phase)
    }

    ghost predicate Valid()
      reads this
    {
      Inv(cfg, State())
    }

    /** Wraps the coroutines into tasks and starts waiting; an empty list is returned at once. */
    constructor (cfg: Config<V, E>)
      ensures this.cfg == cfg && State() == Init(cfg) && Valid()
    {
      this.cfg := cfg;
      tasks := seq(|cfg.natural|, i => Running(false));
      heard, timerFired, released := {}, false, false;
      phase := if |cfg.natural| == 0 then Exited({}, {}, Returned([])) else Waiting;
      new;
      InitInv(cfg);
    }

    method TaskEnds(i: nat, outcome: Outcome<V, E>)
      requires Valid() && Enabled(cfg, State(), Finish(i, outcome))
      modifies this
      ensures Valid() && State() == After(cfg, old(State()), Finish(i, outcome))
    {
      StepInv(cfg, State(), Finish(i, outcome));
      tasks := tasks[i := Finished(outcome)];
    }

    method OnCompletion(i: nat)
      requires Valid() && Enabled(cfg, State(), Notify(i))
      modifies this
      ensures Valid() && State() == After(cfg, old(State()), Notify(i))
    {
      StepInv(cfg, State(), Notify(i));
      heard := heard + {i};
      if Releases(cfg, heard, tasks[i].outcome) {
        released := true;
      }
    }

    method OnTimer()
      requires Valid() && Enabled(cfg, State(), TimerFires)
      modifies this
      ensures Valid() && State() == After(cfg, old(State()), TimerFires)
    {
      StepInv(cfg, State(), TimerFires);
      timerFired, released := true, true;
    }

    /** From the end of `asyncio.wait` to the gather: split the tasks, cancel the pending ones. */
    method ResumeFromWait()
      requires Valid() && Enabled(cfg, State(), Collect)
      modifies this
      ensures Valid() && State() == After(cfg, old(State()), Collect)
    {
      StepInv(cfg, State(), Collect);
      var done: set<nat>, pending: set<nat> := {}, {};
      for i := 0 to |tasks|
        invariant done == (set j: nat | j < i && j < |tasks| && tasks[j].Finished?)
        invariant pending == (set j: nat | j < i && j < |tasks| && tasks[j].Running?)
        invariant State() == old(State())
      {
        if tasks[i].Finished? {
          done := done + {i};
        } else {
          pending := pending + {i};
        }
      }
      for i := 0 to |tasks|
        invariant |tasks| == |old(tasks)|
        invariant State() == old(State()).(tasks := tasks)
        invariant forall j :: 0 <= j < |tasks| ==>
          tasks[j] == if j < i then CancelPending(old(tasks))[j] else old(tasks)[j]
      {
        if i in pending {
          tasks := tasks[i := Running(true)];
        }
      }
      assert tasks == CancelPending(old(tasks));
      phase := Gathering(done, pending);
    }

    /** The loop over the done tasks that looks at their exceptions. */
    method FindFailing(order: seq<nat>) returns (k: nat)
      ensures k == FirstFailing(tasks, order)
    {
      k := 0;
      while k < |order| && !Fails(tasks, order[k])
        invariant k <= |order|
        invariant forall j :: 0 <= j < k ==> !Fails(tasks, order[j])
      {
        k := k + 1;
      }
      ghost var f := FirstFailing(tasks, order);
      assert f < |order| ==> Fails(tasks, order[f]);
    }

    /** After the gather: raise for the first failing done task, else for pending ones, else return. */
    method ResumeFromGather(order: seq<nat>) returns (exit: Exit)
      requires Valid() && Enabled(cfg, State(), Conclude(order))
      modifies this
      ensures Valid() && State() == After(cfg, old(State()), Conclude(order))
      ensures phase.Exited? && exit == phase.exit
    {
      StepInv(cfg, State(), Conclude(order));
      exit := if phase.pending != {} then TimedOut(phase.pending) else Returned(order);
      var k := FindFailing(order);
      if cfg.raiseException && k < |order| {
        exit := RaisedBy(order[k]);
      }
      phase := Exited(phase.done, phase.pending, exit);
    }
  }
}
