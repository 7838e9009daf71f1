/**
 * Task groups on a clock: when the polling loops of a group end, and what the group timer of
 * `watch_task_group` can still do to them. The event loop is never late: the clock stands still
 * while a step is due. Steps due at the same tick still come in any order.
 */
module TimedGroups {
  import opened Arithmetic
  import opened Polling
  import opened TaskGroups

  /** `ends[i]` is when task `i` ends if it is left alone; the group timer fires at `limit`. */
  datatype Plan<V, E> = Plan(cfg: Config<V, E>, ends: seq<int>, limit: int)

  datatype Timed<V, E> = Timed(now: int, group: Group<V, E>)

  datatype TimedEvent<V, E> = Tick | Act(event: Event<V, E>)

  /** `call_later` takes a negative delay for zero. */
  function TimerAt(timeout: int): int {
    Max(0, timeout)
  }

  ghost predicate Scheduled<V, E>(p: Plan<V, E>) {
    |p.ends| == |p.cfg.natural| && 0 < |p.ends|
  }

  /** Something has to run before the clock may move. */
  ghost predicate Due<V, E>(p: Plan<V, E>, t: Timed<V, E>) {
    && t.group.phase.Waiting?
    && (|| t.group.released
        || p.limit <= t.now
        || (exists i: nat :: i in DoneOf(t.group.tasks) && i !in t.group.heard)
        || (exists i: nat :: i in PendingOf(t.group.tasks) && i < |p.ends| && p.ends[i] <= t.now))
  }

  ghost predicate TimedEnabled<V, E>(p: Plan<V, E>, t: Timed<V, E>, e: TimedEvent<V, E>) {
    match e
    case Tick => !Due(p, t)
    case Act(event) =>
      && Enabled(p.cfg, t.group, event)
      && (event.Finish? && t.group.phase.Waiting? ==> event.task < |p.ends| && p.ends[event.task] <= t.now)
      && (event.TimerFires? ==> p.limit <= t.now)
  }

  ghost function TimedAfter<V, E>(p: Plan<V, E>, t: Timed<V, E>, e: TimedEvent<V, E>): Timed<V, E>
    requires TimedEnabled(p, t, e)
  {
    match e
    case Tick => t.(now := t.now + 1)
    case Act(event) => t.(group := After(p.cfg, t.group, event))
  }

  ghost predicate TimedNext<V(!new), E(!new)>(p: Plan<V, E>, t: Timed<V, E>, t': Timed<V, E>) {
    exists e: TimedEvent<V, E> :: TimedEnabled(p, t, e) && t' == TimedAfter(p, t, e)
  }

  ghost predicate IsTimedRun<V(!new), E(!new)>(p: Plan<V, E>, run: seq<Timed<V, E>>) {
    && 0 < |run|
    && run[0] == Timed(0, Init(p.cfg))
    && forall k :: 0 <= k < |run| - 1 ==> TimedNext(p, run[k], run[k + 1])
  }

  /** The last state of a timed run that has left the supervisor. */
  ghost predicate TimedLeaves<V(!new), E(!new)>(p: Plan<V, E>, run: seq<Timed<V, E>>, s: Group<V, E>) {
    IsTimedRun(p, run) && run[|run| - 1].group == s && s.phase.Exited?
  }

  /** Failures are raised as soon as one task raises; no task cancels itself. */
  ghost predicate FailsFast<V, E>(cfg: Config<V, E>) {
    && cfg.returnWhen == FirstException
    && cfg.raiseException
    && forall i :: 0 <= i < |cfg.natural| ==> !cfg.natural[i].Cancelled?
  }

  /** Task `f` raises, before the timer, and no task raises earlier. */
  ghost predicate FirstToRaise<V, E>(p: Plan<V, E>, f: nat) {
    && f < |p.ends| == |p.cfg.natural|
    && p.cfg.natural[f].Raised?
    && 0 <= p.ends[f] < p.limit
    && forall i :: 0 <= i < |p.ends| && p.cfg.natural[i].Raised? ==> p.ends[f] <= p.ends[i]
  }

  ghost predicate FailureFirst<V, E>(p: Plan<V, E>, t: Timed<V, E>, f: nat)
    requires FirstToRaise(p, f)
  {
    && Inv(p.cfg, t.group)
    && !t.group.timerFired
    && match t.group.phase
       case Waiting =>
         && t.now <= p.ends[f]
         && (HeardException(t.group) ==> t.group.released)
         && (forall i :: 0 <= i < |p.ends| && t.group.tasks[i].Finished? ==> p.ends[i] <= t.now)
       case Gathering(done, _) => forall i :: i in done ==> p.ends[i] <= p.ends[f]
       case Exited(done, _, _) => forall i :: i in done ==> p.ends[i] <= p.ends[f]
  }

  lemma FailureFirstStep<V, E>(p: Plan<V, E>, t: Timed<V, E>, e: TimedEvent<V, E>, f: nat)
    requires FailsFast(p.cfg) && FirstToRaise(p, f)
    requires FailureFirst(p, t, f) && TimedEnabled(p, t, e)
    ensures FailureFirst(p, TimedAfter(p, t, e), f)
  {
    if e.Act? {
      StepInv(p.cfg, t.group, e.event);
    }
  }

  lemma {:induction false} FailureFirstRun<V(!new), E(!new)>(p: Plan<V, E>, run: seq<Timed<V, E>>, k: nat, f: nat)
    requires FailsFast(p.cfg) && FirstToRaise(p, f)
    requires IsTimedRun(p, run) && k < |run|
    ensures FailureFirst(p, run[k], f)
  {
    if k == 0 {
      InitInv(p.cfg);
    } else {
      FailureFirstRun(p, run, k - 1, f);
      assert TimedNext(p, run[k - 1], run[k]);
      var e: TimedEvent<V, E> :| TimedEnabled(p, run[k - 1], e) && run[k] == TimedAfter(p, run[k - 1], e);
      FailureFirstStep(p, run[k - 1], e, f);
    }
  }

  /**
   * If some task raises before the timer, the group leaves with the exception of a task that
   * raises first; its own timeout error cannot occur.
   */
  lemma EarliestFailureWins<V(!new), E(!new)>(p: Plan<V, E>, run: seq<Timed<V, E>>, s: Group<V, E>, f: nat)
    requires FailsFast(p.cfg) && FirstToRaise(p, f) && TimedLeaves(p, run, s)
    ensures s.phase.exit.RaisedBy? && var i := s.phase.exit.task;
            i < |p.ends| && p.cfg.natural[i].Raised? && p.ends[i] == p.ends[f]
    ensures !s.timerFired
  {
    FailureFirstRun(p, run, |run| - 1, f);
    var order: seq<nat> :| Lists(order, s.phase.done)
                           && s.phase.exit == Decide(p.cfg, s.tasks, order, s.phase.pending);
    var i: nat;
    if AllHeard(|p.cfg.natural|, s.heard) {
      i := f;
    } else {
      i :| i in s.heard && i < |s.tasks| && s.tasks[i].Finished? && s.tasks[i].outcome.Raised?;
    }
    assert i in s.phase.done && i in order && Fails(s.tasks, i);
    var g := FirstFailing(s.tasks, order);
    assert g < |order| && order[g] in s.phase.done;
  }

  lemma TimedExtend<V(!new), E(!new)>(p: Plan<V, E>, run: seq<Timed<V, E>>, e: TimedEvent<V, E>)
    returns (longer: seq<Timed<V, E>>)
    requires IsTimedRun(p, run) && TimedEnabled(p, run[|run| - 1], e)
    ensures longer == run + [TimedAfter(p, run[|run| - 1], e)] && IsTimedRun(p, longer)
  {
    longer := run + [TimedAfter(p, run[|run| - 1], e)];
    forall k | 0 <= k < |longer| - 1 ensures TimedNext(p, longer[k], longer[k + 1]) {
      if k < |run| - 1 {
        assert TimedNext(p, run[k], run[k + 1]);
      }
    }
  }

  /** A group that still waits, in which exactly the tasks in `gone` have ended and been heard. */
  ghost function WaitingOn<V, E>(p: Plan<V, E>, gone: set<nat>): Group<V, E> {
    Group(seq(|p.cfg.natural|, i requires 0 <= i < |p.cfg.natural| =>
              if i in gone then Finished(p.cfg.natural[i]) else Running(false)),
          gone, false, false, Waiting)
  }

  /** The tasks that have ended before `t`. */
  ghost function EndedBefore<V, E>(p: Plan<V, E>, t: int): set<nat> {
    set i: nat | i < |p.ends| && p.ends[i] < t
  }

  /** Up to `at` only normal ends come, and task `f` does not end. */
  ghost predicate QuietUntil<V, E>(p: Plan<V, E>, at: int, f: nat) {
    && Scheduled(p) && p.cfg.returnWhen == FirstException
    && f < |p.ends| && at <= p.ends[f] && at <= p.limit
    && forall i :: 0 <= i < |p.ends| && p.ends[i] < at ==> p.cfg.natural[i].Value?
  }

  /** A task that ends normally while another is still running does not end the wait. */
  lemma QuietEnd<V(!new), E(!new)>(p: Plan<V, E>, run: seq<Timed<V, E>>, t: nat, gone: set<nat>, i: nat, f: nat)
    returns (longer: seq<Timed<V, E>>)
    requires Scheduled(p) && p.cfg.returnWhen == FirstException
    requires IsTimedRun(p, run) && run[|run| - 1] == Timed(t, WaitingOn(p, gone))
    requires i < |p.ends| && p.ends[i] <= t && i !in gone && p.cfg.natural[i].Value?
    requires f < |p.ends| && f !in gone && f != i
    ensures IsTimedRun(p, longer) && longer[|longer| - 1] == Timed(t, WaitingOn(p, gone + {i}))
  {
    longer := TimedExtend(p, run, Act(Finish(i, p.cfg.natural[i])));
    longer := TimedExtend(p, longer, Act(Notify(i)));
    assert longer[|longer| - 1].group.tasks == WaitingOn(p, gone + {i}).tasks;
  }

  /** All tasks that end at `t` end and are heard. */
  lemma QuietTick<V(!new), E(!new)>(p: Plan<V, E>, run: seq<Timed<V, E>>, t: nat, at: int, f: nat, gone: set<nat>)
    returns (longer: seq<Timed<V, E>>)
    requires QuietUntil(p, at, f) && t < at
    requires IsTimedRun(p, run) && run[|run| - 1] == Timed(t, WaitingOn(p, gone))
    requires gone <= EndedBefore(p, t + 1)
    ensures IsTimedRun(p, longer) && longer[|longer| - 1] == Timed(t + 1, WaitingOn(p, EndedBefore(p, t + 1)))
  {
    longer := run;
    var so := gone;
    for i := 0 to |p.ends|
      invariant gone <= so <= EndedBefore(p, t + 1)
      invariant forall j: nat :: j < i && p.ends[j] <= t ==> j in so
      invariant IsTimedRun(p, longer) && longer[|longer| - 1] == Timed(t, WaitingOn(p, so))
    {
      if p.ends[i] <= t && i !in so {
        longer := QuietEnd(p, longer, t, so, i, f);
        so := so + {i};
      }
    }
    assert so == EndedBefore(p, t + 1);
    longer := TimedExtend(p, longer, Tick);
  }

  /** The clock reaches `at` with the normal ends taken, and the group still waits. */
  lemma RunUpTo<V(!new), E(!new)>(p: Plan<V, E>, at: nat, f: nat) returns (run: seq<Timed<V, E>>, gone: set<nat>)
    requires QuietUntil(p, at, f)
    ensures IsTimedRun(p, run) && run[|run| - 1] == Timed(at, WaitingOn(p, gone))
    ensures gone <= EndedBefore(p, at)
  {
    run, gone := [Timed(0, Init(p.cfg))], {};
    assert Init(p.cfg).tasks == WaitingOn(p, {}).tasks;
    var t := 0;
    while t < at
      invariant t <= at && gone <= EndedBefore(p, t)
      invariant IsTimedRun(p, run) && run[|run| - 1] == Timed(t, WaitingOn(p, gone))
    {
      run := QuietTick(p, run, t, at, f, gone);
      t := t + 1;
      gone := EndedBefore(p, t);
    }
  }

  /** The end of a run after the wait: the pending tasks are cancelled, and the group leaves. */
  lemma RunToExit<V(!new), E(!new)>(p: Plan<V, E>, upTo: seq<Timed<V, E>>, order: seq<nat>)
    returns (run: seq<Timed<V, E>>, s: Group<V, E>)
    requires Scheduled(p) && IsTimedRun(p, upTo)
    requires var g := upTo[|upTo| - 1].group;
             g.phase.Waiting? && g.released && |g.tasks| == |p.cfg.natural| && Lists(order, DoneOf(g.tasks))
    ensures TimedLeaves(p, run, s)
    ensures var g := upTo[|upTo| - 1].group;
            && |s.tasks| == |g.tasks|
            && (forall i :: 0 <= i < |g.tasks| && g.tasks[i].Finished? ==> s.tasks[i] == g.tasks[i])
            && s.phase.exit == Decide(p.cfg, s.tasks, order, PendingOf(g.tasks))
  {
    var g := upTo[|upTo| - 1].group;
    run := TimedExtend(p, upTo, Act(Collect));
    var split := run[|run| - 1].group;
    for k := 0 to |p.ends|
      invariant IsTimedRun(p, run) && run[|run| - 1].group.phase == split.phase
      invariant |run[|run| - 1].group.tasks| == |p.ends|
      invariant forall i :: 0 <= i < |g.tasks| && g.tasks[i].Finished? ==> run[|run| - 1].group.tasks[i] == g.tasks[i]
      invariant AllFinished(run[|run| - 1].group.tasks[..k])
    {
      if run[|run| - 1].group.tasks[k].Running? {
        run := TimedExtend(p, run, Act(Finish(k, Cancelled)));
      }
    }
    run := TimedExtend(p, run, Act(Conclude(order)));
    s := run[|run| - 1].group;
  }

  /** Task `f` raises, no later than the timer, and no task raises earlier. */
  ghost predicate MayReport<V, E>(p: Plan<V, E>, f: nat) {
    && f < |p.ends| == |p.cfg.natural|
    && p.cfg.natural[f].Raised?
    && p.ends[f] <= p.limit
    && forall i :: 0 <= i < |p.ends| && p.cfg.natural[i].Raised? ==> p.ends[f] <= p.ends[i]
  }

  /** Such a task is the one that is reported in some run. */
  lemma ReportedInSomeRun<V(!new), E(!new)>(p: Plan<V, E>, f: nat) returns (run: seq<Timed<V, E>>, s: Group<V, E>)
    requires FailsFast(p.cfg) && MayReport(p, f) && 0 <= p.ends[f]
    ensures TimedLeaves(p, run, s) && s.phase.exit == RaisedBy(f)
  {
    var gone;
    run, gone := RunUpTo(p, p.ends[f], f);
    run := TimedExtend(p, run, Act(Finish(f, p.cfg.natural[f])));
    run := TimedExtend(p, run, Act(Notify(f)));
    var rest := ListOf(gone);
    var order := [f] + rest;
    assert forall j: nat :: j in gone + {f} <==> j == f || j in rest;
    assert DoneOf(run[|run| - 1].group.tasks) == gone + {f};
    run, s := RunToExit(p, run, order);
    assert Fails(s.tasks, order[0]);
  }

  /** Conversely, every first failure is the one that is reported in some run. */
  lemma EarliestMayWin<V(!new), E(!new)>(p: Plan<V, E>, f: nat) returns (run: seq<Timed<V, E>>, s: Group<V, E>)
    requires FailsFast(p.cfg) && FirstToRaise(p, f)
    ensures TimedLeaves(p, run, s) && s.phase.exit == RaisedBy(f)
  {
    run, s := ReportedInSomeRun(p, f);
  }

  /** While the group waits the clock has passed neither the timer nor any failure. */
  ghost predicate OnTime<V, E>(p: Plan<V, E>, t: Timed<V, E>)
    requires Scheduled(p)
  {
    && Inv(p.cfg, t.group)
    && match t.group.phase
       case Waiting =>
         && t.now <= p.limit
         && (HeardException(t.group) ==> t.group.released)
         && (forall g :: 0 <= g < |p.ends| && p.cfg.natural[g].Raised? ==> t.now <= p.ends[g])
         && (forall i :: 0 <= i < |p.ends| && t.group.tasks[i].Finished? ==> p.ends[i] <= t.now)
       case Gathering(done, _) => forall i: nat :: i in done && p.cfg.natural[i].Raised? ==> MayReport(p, i)
       case Exited(done, _, _) => forall i: nat :: i in done && p.cfg.natural[i].Raised? ==> MayReport(p, i)
  }

  lemma OnTimeStep<V(!new), E(!new)>(p: Plan<V, E>, t: Timed<V, E>, e: TimedEvent<V, E>)
    requires FailsFast(p.cfg) && Scheduled(p) && OnTime(p, t) && TimedEnabled(p, t, e)
    ensures OnTime(p, TimedAfter(p, t, e))
  {
    match e
    case Tick =>
    case Act(event) =>
      StepInv(p.cfg, t.group, event);
  }

  lemma {:induction false} OnTimeRun<V(!new), E(!new)>(p: Plan<V, E>, run: seq<Timed<V, E>>, k: nat)
    requires FailsFast(p.cfg) && Scheduled(p) && 0 <= p.limit && IsTimedRun(p, run) && k < |run|
    requires forall i :: 0 <= i < |p.ends| ==> 0 <= p.ends[i]
    ensures OnTime(p, run[k])
  {
    if k == 0 {
      InitInv(p.cfg);
    } else {
      OnTimeRun(p, run, k - 1);
      assert TimedNext(p, run[k - 1], run[k]);
      var e: TimedEvent<V, E> :| TimedEnabled(p, run[k - 1], e) && run[k] == TimedAfter(p, run[k - 1], e);
      OnTimeStep(p, run[k - 1], e);
    }
  }

  /** The exception that is raised is one that may be reported. */
  lemma ReportedOnly<V(!new), E(!new)>(p: Plan<V, E>, run: seq<Timed<V, E>>, s: Group<V, E>)
    requires FailsFast(p.cfg) && Scheduled(p) && 0 <= p.limit && TimedLeaves(p, run, s)
    requires forall i :: 0 <= i < |p.ends| ==> 0 <= p.ends[i]
    ensures s.phase.exit.RaisedBy? ==> MayReport(p, s.phase.exit.task)
  {
    OnTimeRun(p, run, |run| - 1);
    var order: seq<nat> :| Lists(order, s.phase.done)
                           && s.phase.exit == Decide(p.cfg, s.tasks, order, s.phase.pending);
    var g := FirstFailing(s.tasks, order);
    if g < |order| {
      assert order[g] in s.phase.done;
    }
  }

  /** Some run of the plan reports task `f`. */
  ghost predicate ReportPossible<V(!new), E(!new)>(p: Plan<V, E>, f: nat) {
    exists run, s :: TimedLeaves(p, run, s) && s.phase.exit == RaisedBy(f)
  }

  /**
   * Which exceptions a group that raises its failures may report: exactly those of the tasks that raise first,
   * and no later than the timer.
   */
  lemma ReportPossibleIff<V(!new), E(!new)>(p: Plan<V, E>, f: nat)
    requires FailsFast(p.cfg) && Scheduled(p) && 0 <= p.limit
    requires forall i :: 0 <= i < |p.ends| ==> 0 <= p.ends[i]
    ensures ReportPossible(p, f) <==> MayReport(p, f)
  {
    if run, s :| TimedLeaves(p, run, s) && s.phase.exit == RaisedBy(f) {
      ReportedOnly(p, run, s);
    }
    if MayReport(p, f) {
      var run, s := ReportedInSomeRun(p, f);
    }
  }

  /** Some run of the plan reports the group's own timeout. */
  ghost predicate TimeoutPossible<V(!new), E(!new)>(p: Plan<V, E>) {
    exists run, s :: TimedLeaves(p, run, s) && s.phase.exit.TimedOut?
  }

  /** If no task fails before the timer and one has not ended by then, the timer may win. */
  lemma TimerMayWin<V(!new), E(!new)>(p: Plan<V, E>, f: nat)
    requires 0 <= p.limit && QuietUntil(p, p.limit, f)
    ensures TimeoutPossible(p)
  {
    var run, gone := RunUpTo(p, p.limit, f);
    run := TimedExtend(p, run, Act(TimerFires));
    var order := ListOf(gone);
    var g := run[|run| - 1].group;
    assert DoneOf(g.tasks) == gone;
    var s;
    run, s := RunToExit(p, run, order);
    assert f in PendingOf(g.tasks);
    assert forall j :: 0 <= j < |order| ==> order[j] in gone;
  }

  /** Every task ends before the timer. */
  ghost predicate InTime<V, E>(p: Plan<V, E>) {
    Scheduled(p) && 0 < p.limit && forall i :: 0 <= i < |p.ends| ==> p.ends[i] < p.limit
  }

  ghost predicate BeforeTimer<V, E>(p: Plan<V, E>, t: Timed<V, E>) {
    && Inv(p.cfg, t.group) && !t.group.timerFired
    && (t.group.phase.Waiting? ==>
          && t.now < p.limit
          && (AllHeard(|p.ends|, t.group.heard) ==> t.group.released))
  }

  lemma {:induction false} BeforeTimerRun<V(!new), E(!new)>(p: Plan<V, E>, run: seq<Timed<V, E>>, k: nat)
    requires InTime(p) && IsTimedRun(p, run) && k < |run|
    ensures BeforeTimer(p, run[k])
  {
    if k == 0 {
      InitInv(p.cfg);
      assert 0 !in Init(p.cfg).heard;
    } else {
      BeforeTimerRun(p, run, k - 1);
      assert TimedNext(p, run[k - 1], run[k]);
      var e: TimedEvent<V, E> :| TimedEnabled(p, run[k - 1], e) && run[k] == TimedAfter(p, run[k - 1], e);
      BeforeTimerStep(p, run[k - 1], e);
    }
  }

  lemma BeforeTimerStep<V(!new), E(!new)>(p: Plan<V, E>, t: Timed<V, E>, e: TimedEvent<V, E>)
    requires InTime(p) && BeforeTimer(p, t) && TimedEnabled(p, t, e)
    ensures BeforeTimer(p, TimedAfter(p, t, e))
  {
    match e
    case Act(event) =>
      StepInv(p.cfg, t.group, event);
    case Tick =>
      if t.group.phase.Waiting? {
        var i: nat :| i < |p.ends| && i !in t.group.heard;
        assert i !in DoneOf(t.group.tasks) && i in PendingOf(t.group.tasks);
      }
  }

  /** A group that raises its failures at once reports its timeout only if the timer has fired. */
  lemma NoTimerNoTimeout<V, E>(cfg: Config<V, E>, s: Group<V, E>)
    requires FailsFast(cfg) && Inv(cfg, s) && s.phase.Exited? && !s.timerFired
    ensures !s.phase.exit.TimedOut?
  {
    var order: seq<nat> :| Lists(order, s.phase.done)
                           && s.phase.exit == Decide(cfg, s.tasks, order, s.phase.pending);
    if i: nat :| i in s.heard && i < |s.tasks| && s.tasks[i].Finished? && s.tasks[i].outcome.Raised? {
      assert i in order && Fails(s.tasks, i);
      assert FirstFailing(s.tasks, order) < |order|;
    } else {
      assert forall late :: late in s.phase.pending ==> late !in s.heard;
    }
  }

  /**
   * On the clock the group may report its own timeout if and only if some task has not ended before the
   * timer and none has failed before it.
   */
  lemma TimeoutPossibleIff<V(!new), E(!new)>(p: Plan<V, E>)
    requires FailsFast(p.cfg) && Scheduled(p) && 0 <= p.limit
    requires forall i :: 0 <= i < |p.ends| ==> 0 <= p.ends[i]
    ensures TimeoutPossible(p) <==>
              && (exists i :: 0 <= i < |p.ends| && p.limit <= p.ends[i])
              && forall i :: 0 <= i < |p.ends| && p.cfg.natural[i].Raised? ==> p.limit <= p.ends[i]
  {
    if TimeoutPossible(p) {
      var run, s :| TimedLeaves(p, run, s) && s.phase.exit.TimedOut?;
      if i :| 0 <= i < |p.ends| && p.cfg.natural[i].Raised? && p.ends[i] < p.limit {
        var f := FirstRaise(p, i);
        EarliestFailureWins(p, run, s, f);
      } else if forall i :: 0 <= i < |p.ends| ==> p.ends[i] < p.limit {
        assert p.ends[0] < p.limit;
        BeforeTimerRun(p, run, |run| - 1);
        NoTimerNoTimeout(p.cfg, s);
      }
    }
    if i :| 0 <= i < |p.ends| && p.limit <= p.ends[i] {
      if forall j :: 0 <= j < |p.ends| && p.cfg.natural[j].Raised? ==> p.limit <= p.ends[j] {
        TimerMayWin(p, i);
      }
    }
  }

  /** Every failing task of the plan ends after the timer, and there is one. */
  ghost predicate TimerFirst<V, E>(p: Plan<V, E>) {
    && Scheduled(p)
    && 0 <= p.limit
    && (exists i :: 0 <= i < |p.ends| && !p.cfg.natural[i].Value?)
    && forall i :: 0 <= i < |p.ends| && !p.cfg.natural[i].Value? ==> p.limit < p.ends[i]
  }

  ghost predicate TimerAhead<V, E>(p: Plan<V, E>, t: Timed<V, E>)
    requires Scheduled(p)
  {
    && Inv(p.cfg, t.group)
    && match t.group.phase
       case Waiting =>
         && t.now <= p.limit
         && (forall i :: 0 <= i < |p.ends| && t.group.tasks[i].Finished? ==> p.cfg.natural[i].Value?)
       case Gathering(done, _) => forall i :: i in done ==> p.cfg.natural[i].Value?
       case Exited(done, _, _) => forall i :: i in done ==> p.cfg.natural[i].Value?
  }

  lemma {:induction false} TimerAheadRun<V(!new), E(!new)>(p: Plan<V, E>, run: seq<Timed<V, E>>, k: nat)
    requires TimerFirst(p) && IsTimedRun(p, run) && k < |run|
    ensures TimerAhead(p, run[k])
  {
    if k == 0 {
      InitInv(p.cfg);
    } else {
      TimerAheadRun(p, run, k - 1);
      assert TimedNext(p, run[k - 1], run[k]);
      var e: TimedEvent<V, E> :| TimedEnabled(p, run[k - 1], e) && run[k] == TimedAfter(p, run[k - 1], e);
      if e.Act? {
        StepInv(p.cfg, run[k - 1].group, e.event);
      }
    }
  }

  /** If every failing task ends after the timer, the group reports its own timeout error. */
  lemma TimerWins<V(!new), E(!new)>(p: Plan<V, E>, run: seq<Timed<V, E>>, s: Group<V, E>)
    requires TimerFirst(p) && p.cfg.returnWhen == FirstException && TimedLeaves(p, run, s)
    ensures s.phase.exit.TimedOut? && s.timerFired
  {
    TimerAheadRun(p, run, |run| - 1);
    var order: seq<nat> :| Lists(order, s.phase.done)
                           && s.phase.exit == Decide(p.cfg, s.tasks, order, s.phase.pending);
    var g := FirstFailing(s.tasks, order);
    var i: nat :| i < |p.ends| && !p.cfg.natural[i].Value?;
    assert i in s.phase.pending && i !in s.heard;
  }

  /** The timed machine is never stuck before the supervisor has left. */
  lemma NeverStuck<V(!new), E(!new)>(p: Plan<V, E>, t: Timed<V, E>) returns (e: TimedEvent<V, E>)
    requires Scheduled(p) && Inv(p.cfg, t.group) && !t.group.phase.Exited?
    ensures TimedEnabled(p, t, e)
  {
    var s := t.group;
    if s.phase.Gathering? {
      if i :| i in PendingOf(s.tasks) {
        e := Act(Finish(i, Cancelled));
      } else {
        assert forall i :: 0 <= i < |s.tasks| ==> s.tasks[i].Finished? || i in PendingOf(s.tasks);
        var order := ListOf(s.phase.done);
        e := Act(Conclude(order));
      }
    } else if !Due(p, t) {
      e := Tick;
    } else if s.released {
      e := Act(Collect);
    } else if i: nat :| i in DoneOf(s.tasks) && i !in s.heard {
      e := Act(Notify(i));
    } else if i: nat :| i in PendingOf(s.tasks) && i < |p.ends| && p.ends[i] <= t.now {
      e := Act(Finish(i, p.cfg.natural[i]));
    } else {
      e := Act(TimerFires);
    }
  }

  /**
   * Every run returns, and then the results of all tasks, if and only if all tasks end normally and before the
   * timer.
   */
  lemma AlwaysReturnsIff<V(!new), E(!new)>(p: Plan<V, E>)
    requires FailsFast(p.cfg) && Scheduled(p) && 0 <= p.limit
    requires forall i :: 0 <= i < |p.ends| ==> 0 <= p.ends[i]
    ensures (forall run, s :: TimedLeaves(p, run, s) ==> s.phase.exit.Returned?)
            <==> forall i :: 0 <= i < |p.ends| ==> p.cfg.natural[i].Value? && p.ends[i] < p.limit
  {
    TimeoutPossibleIff(p);
    if i :| 0 <= i < |p.ends| && p.cfg.natural[i].Raised? && p.ends[i] < p.limit {
      var f := FirstRaise(p, i);
      var run, s := EarliestMayWin(p, f);
    } else if forall i :: 0 <= i < |p.ends| ==> p.cfg.natural[i].Value? && p.ends[i] < p.limit {
      forall run, s | TimedLeaves(p, run, s) ensures s.phase.exit.Returned? {
        ReportedOnly(p, run, s);
      }
    } else {
      assert TimeoutPossible(p) by {
        var i :| 0 <= i < |p.ends| && !(p.cfg.natural[i].Value? && p.ends[i] < p.limit);
        assert p.limit <= p.ends[i];
      }
    }
  }

  /** A group that waits for the first failure and does not raise it; no task cancels itself. */
  ghost predicate FailsQuietly<V, E>(cfg: Config<V, E>) {
    && cfg.returnWhen == FirstException
    && !cfg.raiseException
    && forall i :: 0 <= i < |cfg.natural| ==> !cfg.natural[i].Cancelled?
  }

  /** Task `g` has not ended by the tick in which task `f` fails. */
  predicate LeftBehind<V, E>(p: Plan<V, E>, f: nat, g: nat) {
    f < |p.ends| == |p.cfg.natural| && g < |p.ends| && f != g && p.cfg.natural[f].Raised? && p.ends[f] <= p.ends[g]
  }

  /** Every task ends before the timer, and a task that fails is strictly the last. */
  ghost predicate NoneLeftBehind<V, E>(p: Plan<V, E>) {
    InTime(p) && p.cfg.returnWhen == FirstException && forall f: nat, g: nat :: !LeftBehind(p, f, g)
  }

  ghost predicate AllCaughtUp<V, E>(p: Plan<V, E>, t: Timed<V, E>)
    requires Scheduled(p)
  {
    && BeforeTimer(p, t)
    && match t.group.phase
       case Waiting =>
         && (forall i :: 0 <= i < |p.ends| && t.group.tasks[i].Finished? ==> p.ends[i] <= t.now)
         && (forall i :: 0 <= i < |p.ends| && p.ends[i] < t.now ==> t.group.tasks[i].Finished?)
       case Gathering(_, pending) => pending == {}
       case Exited(_, pending, _) => pending == {}
  }

  lemma CaughtUpStep<V(!new), E(!new)>(p: Plan<V, E>, t: Timed<V, E>, e: TimedEvent<V, E>)
    requires NoneLeftBehind(p) && AllCaughtUp(p, t) && TimedEnabled(p, t, e)
    ensures AllCaughtUp(p, TimedAfter(p, t, e))
  {
    BeforeTimerStep(p, t, e);
    match e
    case Tick =>
      if t.group.phase.Waiting? {
        forall i: nat | i < |p.ends| && p.ends[i] <= t.now ensures t.group.tasks[i].Finished? {
          assert i !in PendingOf(t.group.tasks);
        }
      }
    case Act(event) =>
      if event.Collect? {
        NothingPending(p, t);
      }
  }

  /** When the wait is over, every task has ended. */
  lemma NothingPending<V(!new), E(!new)>(p: Plan<V, E>, t: Timed<V, E>)
    requires NoneLeftBehind(p) && AllCaughtUp(p, t) && t.group.phase.Waiting? && t.group.released
    ensures PendingOf(t.group.tasks) == {}
  {
    var s := t.group;
    if f: nat :| f in s.heard && f < |s.tasks| && s.tasks[f].Finished? && s.tasks[f].outcome.Raised? {
      forall g: nat | g < |s.tasks| ensures s.tasks[g].Finished? {
        assert !LeftBehind(p, f, g);
      }
    } else {
      assert AllHeard(|p.ends|, s.heard);
      forall g: nat | g < |s.tasks| ensures s.tasks[g].Finished? {
        assert g in s.heard && g in DoneOf(s.tasks);
      }
    }
  }

  lemma {:induction false} CaughtUpRun<V(!new), E(!new)>(p: Plan<V, E>, run: seq<Timed<V, E>>, k: nat)
    requires NoneLeftBehind(p) && IsTimedRun(p, run) && k < |run|
    requires forall i :: 0 <= i < |p.ends| ==> 0 <= p.ends[i]
    ensures AllCaughtUp(p, run[k])
  {
    if k == 0 {
      InitInv(p.cfg);
      assert 0 !in Init(p.cfg).heard;
    } else {
      CaughtUpRun(p, run, k - 1);
      assert TimedNext(p, run[k - 1], run[k]);
      var e: TimedEvent<V, E> :| TimedEnabled(p, run[k - 1], e) && run[k] == TimedAfter(p, run[k - 1], e);
      CaughtUpStep(p, run[k - 1], e);
    }
  }

  /** The first failure ends the wait, and a task left behind makes it a timeout. */
  lemma FailureTimesOut<V(!new), E(!new)>(p: Plan<V, E>, f: nat, g: nat)
    requires FailsQuietly(p.cfg) && FirstToRaise(p, f) && LeftBehind(p, f, g)
    ensures TimeoutPossible(p)
  {
    var run, gone := RunUpTo(p, p.ends[f], f);
    run := TimedExtend(p, run, Act(Finish(f, p.cfg.natural[f])));
    run := TimedExtend(p, run, Act(Notify(f)));
    var order := ListOf(gone + {f});
    var w := run[|run| - 1].group;
    assert DoneOf(w.tasks) == gone + {f};
    assert g in PendingOf(w.tasks);
    var s;
    run, s := RunToExit(p, run, order);
  }

  /**
   * On the clock, a group that does not raise failures may report a timeout if and only if some task has not
   * ended before the timer, or one fails while another has not ended by that tick.
   */
  lemma QuietTimeoutIff<V(!new), E(!new)>(p: Plan<V, E>)
    requires FailsQuietly(p.cfg) && Scheduled(p) && 0 <= p.limit
    requires forall i :: 0 <= i < |p.ends| ==> 0 <= p.ends[i]
    ensures TimeoutPossible(p) <==>
              || (exists i :: 0 <= i < |p.ends| && p.limit <= p.ends[i])
              || (exists f: nat, g: nat :: LeftBehind(p, f, g))
  {
    if f: nat, g: nat :| LeftBehind(p, f, g) && p.ends[f] < p.limit {
      var first := FirstRaise(p, f);
      FailureTimesOut(p, first, if g != first then g else f);
    } else if i: nat :| i < |p.ends| && p.limit <= p.ends[i] {
      forall j | 0 <= j < |p.ends| && p.ends[j] < p.limit ensures p.cfg.natural[j].Value? {
        assert !LeftBehind(p, j, i);
      }
      TimerMayWin(p, i);
    } else if TimeoutPossible(p) {
      var run, s :| TimedLeaves(p, run, s) && s.phase.exit.TimedOut?;
      assert p.ends[0] < p.limit;
      CaughtUpRun(p, run, |run| - 1);
    }
  }

  function OutcomeOf<V, E>(exit: Polling.Exit<V, E>): Outcome<V, E> {
    match exit
    case Returned(v) => Value(v)
    case Threw(e) => Raised(e)
  }

  /** A monitor never answers with a truthy value: it raises or says nothing. */
  ghost predicate RaisesOnly<V, E>(w: Watch<V, E>) {
    forall j: nat :: !w.condition(j).verdict.Truthy?
  }

  /** The first to raise among the raising tasks of a plan. */
  lemma FirstRaise<V, E>(p: Plan<V, E>, i: nat) returns (f: nat)
    requires Scheduled(p) && i < |p.ends| && p.cfg.natural[i].Raised? && p.ends[i] < p.limit
    requires forall j :: 0 <= j < |p.ends| ==> 0 <= p.ends[j]
    ensures FirstToRaise(p, f) && p.ends[f] <= p.ends[i]
  {
    f := i;
    for j := 0 to |p.ends|
      invariant f < |p.ends| && p.cfg.natural[f].Raised? && p.ends[f] <= p.ends[i]
      invariant forall m :: 0 <= m < j && p.cfg.natural[m].Raised? ==> p.ends[f] <= p.ends[m]
    {
      if p.cfg.natural[j].Raised? && p.ends[j] < p.ends[f] {
        f := j;
      }
    }
  }

  /** Whatever a condition with calls of at most `d` does, its loop ends before the group timer. */
  ghost predicate AlwaysBeforeTimer<V(!new), E(!new)>(poll: nat, d: nat, buffer: int) {
    forall w: Watch<V, E>, k: nat ::
      w.start == 0 && w.poll == poll && 1 <= w.timeout && w.CallsWithin(d) && w.EndsWith(k)
      ==> w.EndOf(k) < TimerAt(w.timeout + buffer)
  }

  /** For positive timeouts the buffer is enough exactly when it holds one sleep and one call. */
  lemma BufferIsExact<V(!new), E(!new)>(poll: nat, d: nat, buffer: int, error: E)
    ensures AlwaysBeforeTimer<V, E>(poll, d, buffer) <==> poll + d <= buffer
  {
    if poll + d <= buffer {
      forall w: Watch<V, E>, k: nat
        | w.start == 0 && w.poll == poll && 1 <= w.timeout && w.CallsWithin(d) && w.EndsWith(k)
        ensures w.EndOf(k) < TimerAt(w.timeout + buffer)
      {
        EndIsPrompt(w, k, d);
      }
    } else {
      var w: Watch<V, E> := Watch(0, 1, poll, error, (k: nat) => if k == 0 then Call(0, Falsy) else Call(d, Falsy));
      if poll + d > 0 {
        assert w.EndOf(0) == 0;
        assert w.EndOf(1) == poll + d;
        assert w.EndsWith(1);
        assert w.CallsWithin(d);
      } else {
        var now: Watch<V, E> := Watch(0, 1, poll, error, (k: nat) => Call(0, Raises(error)));
        assert now.EndsWith(0) && now.EndOf(0) == 0 && now.CallsWithin(d);
      }
    }
  }

  /**
   * A timeout of zero or less ends the loop with its first evaluation; it is before the timer,
   * whatever the condition does, exactly when the call fits into what the buffer leaves.
   */
  lemma NonPositiveTimeout<V(!new), E(!new)>(poll: nat, d: nat, timeout: int, buffer: int, error: E)
    requires timeout <= 0
    ensures (forall w: Watch<V, E>, k: nat ::
               w.start == 0 && w.poll == poll && w.timeout == timeout && w.CallsWithin(d) && w.EndsWith(k)
               ==> w.EndOf(k) < TimerAt(timeout + buffer))
            <==> d < TimerAt(timeout + buffer)
  {
    var w: Watch<V, E> := Watch(0, timeout, poll, error, (k: nat) => Call(d, Falsy));
    assert w.EndsWith(0) && w.EndOf(0) == d && w.CallsWithin(d);
    forall w: Watch<V, E>, k: nat
      | w.start == 0 && w.poll == poll && w.timeout == timeout && w.CallsWithin(d) && w.EndsWith(k)
      ensures w.EndOf(k) <= d
    {
      assert w.EndOf(0) >= 0 && w.Settles(0);
    }
  }
}
