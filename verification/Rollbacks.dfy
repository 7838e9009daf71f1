/**
 * The supervised waits: the rollbacks of src/reslib/rollbacks and the HPA stress action. Each runs
 * a success monitor next to a crash monitor under a group timer a few seconds behind their own
 * timeouts, and turns the exception type of the success monitor into its result.
 */
module Rollbacks {
  import opened Wrappers
  import opened Arithmetic
  import opened Polling
  import opened TaskGroups
  import opened TimedGroups
  import opened Monitors

  type Loop = Watch<(), Error>

  /** A stress command: when it ends if left alone, and how. */
  datatype Command = Command(at: int, outcome: Outcome<(), Error>)

  datatype Wait = Wait(commands: seq<Command>, success: Loop, crash: Loop, groupTimeout: int)

  datatype WaitEnd =
    | Success(record: Error)
    | Throws(error: Error)
    | GroupTimeout
    | Interrupted
    | FallsOff

  /** Everything the environment decides about one wait: what each poll finds and how long it takes. */
  datatype World = World(
    seen: nat -> Observation, took: nat -> nat, crashSeen: nat -> Observation, crashTook: nat -> nat)

  /** The four supervised waits of the library, with what they read from the context. */
  datatype Kind =
    | PodRespawn(after: Option<int>)
    | RestartWait(startedAt: int, generation: Option<int>)
    | ScaleDown(peak: Option<nat>)
    | CpuStress(before: nat, commands: seq<Command>)
  {
    function SuccessProbe(): Probe {
      match this
      case PodRespawn(after) => DesiredReplicas(after)
      case RestartWait(at, generation) => RollingRestart(at, generation)
      case ScaleDown(peak) => Restored(peak)
      case CpuStress(before, _) => ScaledPods(before)
    }

    /** Seconds between polls of the success monitor, of the crash monitor, and up to the group timer. */
    function Poll(): nat {
      if PodRespawn? then 3 else 5
    }

    function CrashPoll(): nat {
      if CpuStress? then 10 else 5
    }

    function Buffer(): nat {
      if PodRespawn? || RestartWait? then 30 else 10
    }

    function TimeoutError(): Error {
      if RestartWait? then RestartTimeout else WatchTimeout
    }
  }

  /** `watch_until` over a condition; `tps` is the number of clock ticks in a second. */
  function LoopOf(timeout: int, poll: nat, error: Error, probe: Probe,
                  seen: nat -> Observation, took: nat -> nat, tps: nat): Loop
  {
    Watch(0, timeout * tps, poll * tps, error, (k: nat) => Call(took(k), Ask(probe, seen(k))))
  }

  function WaitOf(kind: Kind, w: World, timeout: int, tps: nat): Wait {
    Wait(if kind.CpuStress? then kind.commands else [],
         LoopOf(timeout, kind.Poll(), kind.TimeoutError(), kind.SuccessProbe(), w.seen, w.took, tps),
         LoopOf(timeout, kind.CrashPoll(), WatchTimeout, ContainerFail, w.crashSeen, w.crashTook, tps),
         (timeout + kind.Buffer()) * tps)
  }

  /** The stress commands end by themselves, and not with a signal of the library. */
  ghost predicate PlainCommands(commands: seq<Command>) {
    forall c :: c in commands ==>
      0 <= c.at && !c.outcome.Cancelled? && (c.outcome.Raised? ==> !c.outcome.error.IsSignal())
  }

  ghost predicate NeverSignals(l: Loop) {
    forall k: nat :: l.condition(k).verdict.Raises? ==> !l.condition(k).verdict.error.IsSignal()
  }

  /** A wait as the library builds it: no monitor is truthy, only the success monitor signals. */
  ghost predicate WellFormed(w: Wait) {
    && w.success.start == w.crash.start == 0
    && RaisesOnly(w.success) && RaisesOnly(w.crash)
    && !w.success.timeoutError.IsSignal() && !w.crash.timeoutError.IsSignal()
    && NeverSignals(w.crash)
    && PlainCommands(w.commands)
  }

  /** The task group of a wait whose monitors end with the checks `i` and `j`. */
  ghost function PlanOf(w: Wait, i: nat, j: nat): Plan<(), Error> {
    Plan(
      Config(seq(|w.commands|, n requires 0 <= n < |w.commands| => w.commands[n].outcome)
             + [OutcomeOf(w.success.ExitOf(i)), OutcomeOf(w.crash.ExitOf(j))],
             FirstException, true),
      seq(|w.commands|, n requires 0 <= n < |w.commands| => w.commands[n].at)
      + [w.success.EndOf(i), w.crash.EndOf(j)],
      TimerAt(w.groupTimeout))
  }

  /** The `try`/`except` around the group. */
  function Handle(cfg: Config<(), Error>, exit: TaskGroups.Exit): WaitEnd {
    match exit
    case Returned(_) => FallsOff
    case TimedOut(_) => GroupTimeout
    case RaisedBy(t) =>
      if t < |cfg.natural| && cfg.natural[t].Raised? then
        if cfg.natural[t].error.IsSignal() then Success(cfg.natural[t].error) else Throws(cfg.natural[t].error)
      else Interrupted
  }

  /**
   * Over all interleavings, at any speed of the event loop: the wait never falls off its end. It
   * returns success only for the record that the last check of its success monitor raised.
   */
  lemma NeverFallsOff(w: Wait, i: nat, j: nat, run: seq<Group<(), Error>>, s: Group<(), Error>)
    requires WellFormed(w) && w.success.EndsWith(i) && w.crash.EndsWith(j)
    requires Leaves(PlanOf(w, i, j).cfg, run, s)
    ensures var end := Handle(PlanOf(w, i, j).cfg, s.phase.exit);
            && !end.FallsOff? && !end.Interrupted?
            && (end.Success? ==> w.success.condition(i).verdict == Raises(end.record))
  {
    var cfg := PlanOf(w, i, j).cfg;
    ExitVerdict(cfg, run, s);
    OnlyRaises(w.success, i);
    OnlyRaises(w.crash, j);
    var n := |w.commands|;
    assert cfg.natural[n] == OutcomeOf(w.success.ExitOf(i));
    assert cfg.natural[n + 1] == OutcomeOf(w.crash.ExitOf(j));
    if s.phase.exit.RaisedBy? {
      var t := s.phase.exit.task;
      assert t < n ==> cfg.natural[t] == w.commands[t].outcome && w.commands[t] in w.commands;
    }
  }

  /**
   * On a prompt event loop, if some task of the wait raises before the group timer, the wait ends with its
   * success or with an exception of one of its own tasks, never with the group timeout; and the exception
   * is one raised first.
   */
  lemma OwnExceptionReported(w: Wait, i: nat, j: nat, run: seq<Timed<(), Error>>, s: Group<(), Error>, t: nat)
    requires WellFormed(w) && w.success.EndsWith(i) && w.crash.EndsWith(j)
    requires TimedLeaves(PlanOf(w, i, j), run, s)
    requires var p := PlanOf(w, i, j); t < |p.ends| && p.cfg.natural[t].Raised? && p.ends[t] < p.limit
    ensures var p := PlanOf(w, i, j); var end := Handle(p.cfg, s.phase.exit);
            && (end.Success? || end.Throws?)
            && s.phase.exit.task < |p.ends|
            && forall t :: 0 <= t < |p.ends| && p.cfg.natural[t].Raised? ==> p.ends[s.phase.exit.task] <= p.ends[t]
  {
    PlanFacts(w, i, j);
    var p := PlanOf(w, i, j);
    var f := FirstRaise(p, t);
    EarliestFailureWins(p, run, s, f);
  }

  /** The plan of a wait: the commands, then the two monitors, which always raise. */
  lemma PlanFacts(w: Wait, i: nat, j: nat)
    requires WellFormed(w)
    ensures var p := PlanOf(w, i, j); var n := |w.commands|;
            && Scheduled(p) && FailsFast(p.cfg) && |p.ends| == n + 2 && 0 <= p.limit
            && (forall t :: 0 <= t < |p.ends| ==> 0 <= p.ends[t])
            && (forall t :: 0 <= t < n ==> p.cfg.natural[t] == w.commands[t].outcome && p.ends[t] == w.commands[t].at)
            && p.cfg.natural[n] == OutcomeOf(w.success.ExitOf(i)) && p.cfg.natural[n].Raised?
            && p.ends[n] == w.success.EndOf(i)
            && p.cfg.natural[n + 1] == OutcomeOf(w.crash.ExitOf(j)) && p.cfg.natural[n + 1].Raised?
            && p.ends[n + 1] == w.crash.EndOf(j)
  {
    OnlyRaises(w.success, i);
    OnlyRaises(w.crash, j);
    NeverNegative(w.success, i);
    NeverNegative(w.crash, j);
    assert forall t :: 0 <= t < |w.commands| ==> w.commands[t] in w.commands;
  }

  lemma {:induction false} NeverNegative(l: Loop, k: nat)
    requires l.start == 0
    ensures 0 <= l.EndOf(k)
  {
    if k > 0 {
      NeverNegative(l, k - 1);
    }
  }

  lemma LoopAsks(timeout: int, poll: nat, error: Error, probe: Probe,
                 seen: nat -> Observation, took: nat -> nat, tps: nat, k: nat)
    ensures LoopOf(timeout, poll, error, probe, seen, took, tps).condition(k) == Call(took(k), Ask(probe, seen(k)))
  {
  }

  lemma LoopIsMonitor(timeout: int, poll: nat, error: Error, probe: Probe,
                      seen: nat -> Observation, took: nat -> nat, tps: nat)
    ensures var l := LoopOf(timeout, poll, error, probe, seen, took, tps);
            && RaisesOnly(l)
            && (forall d: nat :: (forall k: nat :: took(k) <= d) ==> l.CallsWithin(d))
            && (probe.ContainerFail? ==> NeverSignals(l))
  {
    var l := LoopOf(timeout, poll, error, probe, seen, took, tps);
    forall k: nat
      ensures !l.condition(k).verdict.Truthy? && l.condition(k).took == took(k)
      ensures probe.ContainerFail? && l.condition(k).verdict.Raises? ==> !l.condition(k).verdict.error.IsSignal()
    {
      LoopAsks(timeout, poll, error, probe, seen, took, tps, k);
      SignalsCarryEvidence(probe, seen(k));
    }
  }

  lemma LibraryWaits(kind: Kind, w: World, timeout: int, tps: nat)
    requires kind.CpuStress? ==> PlainCommands(kind.commands)
    ensures WellFormed(WaitOf(kind, w, timeout, tps))
    ensures forall d: nat :: (forall k: nat :: w.took(k) <= d) ==> WaitOf(kind, w, timeout, tps).success.CallsWithin(d)
  {
    LoopIsMonitor(timeout, kind.Poll(), kind.TimeoutError(), kind.SuccessProbe(), w.seen, w.took, tps);
    LoopIsMonitor(timeout, kind.CrashPoll(), WatchTimeout, ContainerFail, w.crashSeen, w.crashTook, tps);
  }

  /**
   * The rollbacks and the stress action, over all interleavings and whatever the cluster does: they
   * return their record or raise, and a record means that the poll that ended the success monitor
   * saw the evidence for it.
   */
  lemma RecordMeansEvidence(kind: Kind, w: World, timeout: int, tps: nat, i: nat, j: nat,
                            run: seq<Group<(), Error>>, s: Group<(), Error>)
    requires kind.CpuStress? ==> PlainCommands(kind.commands)
    requires var wait := WaitOf(kind, w, timeout, tps);
             wait.success.EndsWith(i) && wait.crash.EndsWith(j) && Leaves(PlanOf(wait, i, j).cfg, run, s)
    ensures var end := Handle(PlanOf(WaitOf(kind, w, timeout, tps), i, j).cfg, s.phase.exit);
            && !end.FallsOff? && !end.Interrupted?
            && (end.Success? ==> Evidence(kind.SuccessProbe(), w.seen(i), end.record))
  {
    var wait := WaitOf(kind, w, timeout, tps);
    LibraryWaits(kind, w, timeout, tps);
    LoopAsks(timeout, kind.Poll(), kind.TimeoutError(), kind.SuccessProbe(), w.seen, w.took, tps, i);
    SignalsCarryEvidence(kind.SuccessProbe(), w.seen(i));
    NeverFallsOff(wait, i, j, run, s);
  }

  /**
   * When calls of up to `d` ticks leave enough time: for a positive timeout the buffer less one poll
   * interval (27, 25, 5 and 5 seconds); without one, or if the first poll of the scale-down fails for want
   * of a peak, the first call alone has to end before the timer.
   */
  predicate Fits(kind: Kind, timeout: int, tps: nat, d: nat) {
    if timeout <= 0 || kind == ScaleDown(None) then d < TimerAt((timeout + kind.Buffer()) * tps)
    else d <= (kind.Buffer() - kind.Poll()) * tps
  }

  lemma SuccessInTime(kind: Kind, w: World, timeout: int, tps: nat, i: nat, d: nat)
    requires 0 < tps && Fits(kind, timeout, tps, d) && forall k: nat :: w.took(k) <= d
    requires WaitOf(kind, w, timeout, tps).success.EndsWith(i)
    ensures WaitOf(kind, w, timeout, tps).success.EndOf(i) < TimerAt((timeout + kind.Buffer()) * tps)
  {
    var l := WaitOf(kind, w, timeout, tps).success;
    LoopIsMonitor(timeout, kind.Poll(), kind.TimeoutError(), kind.SuccessProbe(), w.seen, w.took, tps);
    LoopAsks(timeout, kind.Poll(), kind.TimeoutError(), kind.SuccessProbe(), w.seen, w.took, tps, 0);
    if timeout <= 0 || kind == ScaleDown(None) {
      if timeout <= 0 {
        MulMonotone(timeout, 0, tps);
      }
      assert l.Settles(0) && l.EndOf(0) <= d;
    } else {
      MulMonotone(1, timeout, tps);
      EndIsPrompt(l, i, d);
      assert (timeout + kind.Buffer()) * tps
             == timeout * tps + kind.Poll() * tps + (kind.Buffer() - kind.Poll()) * tps;
    }
  }

  /** If the calls of the success monitor fit, the group timeout does not occur, whatever else happens. */
  lemma GroupTimeoutUnreachable(kind: Kind, w: World, timeout: int, tps: nat, i: nat, j: nat, d: nat,
                                run: seq<Timed<(), Error>>, s: Group<(), Error>)
    requires kind.CpuStress? ==> PlainCommands(kind.commands)
    requires 0 < tps && Fits(kind, timeout, tps, d) && forall k: nat :: w.took(k) <= d
    requires var wait := WaitOf(kind, w, timeout, tps);
             wait.success.EndsWith(i) && wait.crash.EndsWith(j) && TimedLeaves(PlanOf(wait, i, j), run, s)
    ensures var end := Handle(PlanOf(WaitOf(kind, w, timeout, tps), i, j).cfg, s.phase.exit);
            end.Success? || end.Throws?
  {
    var wait := WaitOf(kind, w, timeout, tps);
    LibraryWaits(kind, w, timeout, tps);
    SuccessInTime(kind, w, timeout, tps, i, d);
    PlanFacts(wait, i, j);
    OwnExceptionReported(wait, i, j, run, s, |wait.commands|);
  }

  /** When the monitors poll, if their calls are instant: every 3 or 5 seconds, the crash monitor every 5 or 10. */
  lemma PollTimes(kind: Kind, w: World, timeout: int, tps: nat, k: nat)
    requires forall n: nat :: w.took(n) == 0 && w.crashTook(n) == 0
    ensures var wait := WaitOf(kind, w, timeout, tps);
            && wait.success.EndOf(k) == k * ((if kind.PodRespawn? then 3 else 5) * tps)
            && wait.crash.EndOf(k) == k * ((if kind.CpuStress? then 10 else 5) * tps)
  {
    var wait := WaitOf(kind, w, timeout, tps);
    LoopIsMonitor(timeout, kind.Poll(), kind.TimeoutError(), kind.SuccessProbe(), w.seen, w.took, tps);
    LoopIsMonitor(timeout, kind.CrashPoll(), WatchTimeout, ContainerFail, w.crashSeen, w.crashTook, tps);
    InstantEnd(wait.success, k);
    InstantEnd(wait.crash, k);
  }

  /** The four library waits' own bounds, in seconds for calls timed in seconds. */
  lemma BoundsInSeconds(timeout: int, d: nat)
    requires 1 <= timeout
    ensures forall after :: Fits(PodRespawn(after), timeout, 1, d) <==> d <= 27
    ensures forall at, generation :: Fits(RestartWait(at, generation), timeout, 1, d) <==> d <= 25
    ensures forall peak: nat :: Fits(ScaleDown(Some(peak)), timeout, 1, d) <==> d <= 5
    ensures forall before, commands :: Fits(CpuStress(before, commands), timeout, 1, d) <==> d <= 5
  {
  }

  /** Some run of the wait ends like this. */
  ghost predicate MayEnd(w: Wait, i: nat, j: nat, end: WaitEnd) {
    exists run, s :: TimedLeaves(PlanOf(w, i, j), run, s) && Handle(PlanOf(w, i, j).cfg, s.phase.exit) == end
  }

  /** The success monitor ends no later than the timer, the crash monitor, and every command that fails. */
  ghost predicate NotLate(w: Wait, i: nat, j: nat) {
    && w.success.EndOf(i) <= TimerAt(w.groupTimeout)
    && w.success.EndOf(i) <= w.crash.EndOf(j)
    && forall c :: c in w.commands && c.outcome.Raised? ==> w.success.EndOf(i) <= c.at
  }

  /** The success monitor ends strictly before all of these. */
  ghost predicate InFront(w: Wait, i: nat, j: nat) {
    && w.success.EndOf(i) < TimerAt(w.groupTimeout)
    && w.success.EndOf(i) < w.crash.EndOf(j)
    && forall c :: c in w.commands && c.outcome.Raised? ==> w.success.EndOf(i) < c.at
  }

  /** In the terms of the plan: the position of the success monitor may be reported. */
  lemma NotLateIff(w: Wait, i: nat, j: nat)
    requires WellFormed(w)
    ensures NotLate(w, i, j) <==> MayReport(PlanOf(w, i, j), |w.commands|)
  {
    PlanFacts(w, i, j);
    var p, n := PlanOf(w, i, j), |w.commands|;
    if NotLate(w, i, j) {
      forall t | 0 <= t < |p.ends| && p.cfg.natural[t].Raised? ensures p.ends[n] <= p.ends[t] {
        assert t < n ==> w.commands[t] in w.commands;
      }
    }
    if MayReport(p, n) {
      forall c | c in w.commands && c.outcome.Raised? ensures w.success.EndOf(i) <= c.at {
        var t :| 0 <= t < n && w.commands[t] == c;
        assert p.cfg.natural[t].Raised?;
      }
    }
  }

  /** Only the success monitor can end the wait with a success. */
  lemma SuccessIsMonitors(w: Wait, i: nat, j: nat, run: seq<Timed<(), Error>>, s: Group<(), Error>)
    requires WellFormed(w) && TimedLeaves(PlanOf(w, i, j), run, s)
    ensures var p := PlanOf(w, i, j); var end := Handle(p.cfg, s.phase.exit);
            && (end.Success? ==>
                  && s.phase.exit == RaisedBy(|w.commands|)
                  && w.success.condition(i).verdict == Raises(end.record) && end.record.IsSignal())
            && (s.phase.exit.RaisedBy? ==> MayReport(p, s.phase.exit.task))
  {
    PlanFacts(w, i, j);
    var p := PlanOf(w, i, j);
    ReportedOnly(p, run, s);
    if s.phase.exit.RaisedBy? {
      var t := s.phase.exit.task;
      assert t < |w.commands| ==> w.commands[t] in w.commands;
    }
  }

  /**
   * When a wait may succeed, and with what: some run ends with `record` if and only if the check that ends the
   * success monitor raised it, and the monitor is not late.
   */
  lemma SuccessPossibleIff(w: Wait, i: nat, j: nat, record: Error)
    requires WellFormed(w) && record.IsSignal()
    ensures MayEnd(w, i, j, Success(record))
            <==> w.success.condition(i).verdict == Raises(record) && NotLate(w, i, j)
  {
    PlanFacts(w, i, j);
    NotLateIff(w, i, j);
    var p, n := PlanOf(w, i, j), |w.commands|;
    if run, s :| TimedLeaves(p, run, s) && Handle(p.cfg, s.phase.exit) == Success(record) {
      SuccessIsMonitors(w, i, j, run, s);
    }
    if w.success.condition(i).verdict == Raises(record) && NotLate(w, i, j) {
      var run, s := ReportedInSomeRun(p, n);
      assert Handle(p.cfg, s.phase.exit) == Success(record);
    }
  }

  /** What a wait may raise: exactly the errors of the tasks that may be reported, unless they are signals. */
  lemma ThrowsPossibleIff(w: Wait, i: nat, j: nat, error: Error)
    requires WellFormed(w)
    ensures MayEnd(w, i, j, Throws(error)) <==>
              && !error.IsSignal()
              && exists t: nat :: MayReport(PlanOf(w, i, j), t) && PlanOf(w, i, j).cfg.natural[t] == Raised(error)
  {
    if MayEnd(w, i, j, Throws(error)) {
      var run, s :| TimedLeaves(PlanOf(w, i, j), run, s)
                    && Handle(PlanOf(w, i, j).cfg, s.phase.exit) == Throws(error);
      SuccessIsMonitors(w, i, j, run, s);
    }
    if t: nat :| !error.IsSignal() && MayReport(PlanOf(w, i, j), t) && PlanOf(w, i, j).cfg.natural[t] == Raised(error) {
      ThrowsInSomeRun(w, i, j, error, t);
    }
  }

  lemma ThrowsInSomeRun(w: Wait, i: nat, j: nat, error: Error, t: nat)
    requires WellFormed(w) && !error.IsSignal()
    requires MayReport(PlanOf(w, i, j), t) && PlanOf(w, i, j).cfg.natural[t] == Raised(error)
    ensures MayEnd(w, i, j, Throws(error))
  {
    PlanFacts(w, i, j);
    var run, s := ReportedInSomeRun(PlanOf(w, i, j), t);
    assert Handle(PlanOf(w, i, j).cfg, s.phase.exit) == Throws(error);
  }

  /** Every run of the wait ends in success. */
  ghost predicate AlwaysSucceeds(w: Wait, i: nat, j: nat) {
    forall run, s :: TimedLeaves(PlanOf(w, i, j), run, s) ==> Handle(PlanOf(w, i, j).cfg, s.phase.exit).Success?
  }

  /**
   * When a wait succeeds in every run: if and only if the check that ends the success monitor raised a signal,
   * strictly before the timer, the crash monitor and every failing command.
   */
  lemma SuccessCertainIff(w: Wait, i: nat, j: nat)
    requires WellFormed(w)
    ensures AlwaysSucceeds(w, i, j) <==>
              && w.success.condition(i).verdict.Raises? && w.success.condition(i).verdict.error.IsSignal()
              && InFront(w, i, j)
  {
    PlanFacts(w, i, j);
    var p, n := PlanOf(w, i, j), |w.commands|;
    if AlwaysSucceeds(w, i, j) {
      InFrontNeeded(w, i, j);
    } else {
      var run, s :| TimedLeaves(p, run, s) && !Handle(p.cfg, s.phase.exit).Success?;
      if w.success.condition(i).verdict.Raises? && w.success.condition(i).verdict.error.IsSignal() && InFront(w, i, j) {
        SuccessIsMonitors(w, i, j, run, s);
        InFrontWins(w, i, j, run, s);
      }
    }
  }

  lemma InFrontWins(w: Wait, i: nat, j: nat, run: seq<Timed<(), Error>>, s: Group<(), Error>)
    requires WellFormed(w) && InFront(w, i, j) && TimedLeaves(PlanOf(w, i, j), run, s)
    ensures s.phase.exit == RaisedBy(|w.commands|)
  {
    PlanFacts(w, i, j);
    var p, n := PlanOf(w, i, j), |w.commands|;
    var f := FirstRaise(p, n);
    EarliestFailureWins(p, run, s, f);
    var t := s.phase.exit.task;
    ReportedOnly(p, run, s);
    if t < n {
      InFrontOf(w, i, j, t);
    }
  }

  lemma InFrontOf(w: Wait, i: nat, j: nat, t: nat)
    requires WellFormed(w) && InFront(w, i, j) && t < |w.commands| && w.commands[t].outcome.Raised?
    ensures w.success.EndOf(i) < w.commands[t].at
  {
    assert w.commands[t] in w.commands;
  }

  lemma InFrontNeeded(w: Wait, i: nat, j: nat)
    requires WellFormed(w) && AlwaysSucceeds(w, i, j)
    ensures w.success.condition(i).verdict.Raises? && w.success.condition(i).verdict.error.IsSignal()
    ensures InFront(w, i, j)
  {
    PlanFacts(w, i, j);
    var p, n := PlanOf(w, i, j), |w.commands|;
    TimeoutPossibleIff(p);
    assert !TimeoutPossible(p);
    var early: nat := n;
    if p.limit <= p.ends[n] {
      early :| early < |p.ends| && p.cfg.natural[early].Raised? && p.ends[early] < p.limit;
    }
    var f := FirstRaise(p, early);
    forall t: nat | t < |p.ends| && p.cfg.natural[t].Raised? && p.ends[t] == p.ends[f] ensures t == n {
      var run, s := EarliestMayWin(p, t);
      SuccessIsMonitors(w, i, j, run, s);
    }
    var run, s := EarliestMayWin(p, f);
    SuccessIsMonitors(w, i, j, run, s);
    forall c | c in w.commands && c.outcome.Raised? ensures w.success.EndOf(i) < c.at {
      var t :| 0 <= t < n && w.commands[t] == c;
      assert p.cfg.natural[t].Raised? && p.ends[f] <= p.ends[t];
    }
    assert p.ends[f] <= p.ends[n + 1];
  }

  /**
   * The rollbacks and the stress action, on what is observed: every run returns the success record if and only if
   * the poll that ends the success monitor finds the cluster as it is wanted, strictly before the timer, the end
   * of the crash monitor and every failing command; some run does, with ties allowed. The record then holds
   * exactly the values of that poll.
   */
  lemma WaitSucceedsIff(kind: Kind, w: World, timeout: int, tps: nat, i: nat, j: nat)
    requires kind.CpuStress? ==> PlainCommands(kind.commands)
    requires var wait := WaitOf(kind, w, timeout, tps); wait.success.EndsWith(i) && wait.crash.EndsWith(j)
    ensures var wait := WaitOf(kind, w, timeout, tps);
            && (AlwaysSucceeds(wait, i, j) <==> Met(kind.SuccessProbe(), w.seen(i)) && InFront(wait, i, j))
            && ((exists record :: MayEnd(wait, i, j, Success(record)))
                <==> Met(kind.SuccessProbe(), w.seen(i)) && NotLate(wait, i, j))
            && forall record :: MayEnd(wait, i, j, Success(record)) ==>
                                  Evidence(kind.SuccessProbe(), w.seen(i), record)
  {
    var wait := WaitOf(kind, w, timeout, tps);
    LibraryWaits(kind, w, timeout, tps);
    LoopAsks(timeout, kind.Poll(), kind.TimeoutError(), kind.SuccessProbe(), w.seen, w.took, tps, i);
    SignalsCarryEvidence(kind.SuccessProbe(), w.seen(i));
    SuccessCertainIff(wait, i, j);
    forall record | MayEnd(wait, i, j, Success(record))
      ensures Evidence(kind.SuccessProbe(), w.seen(i), record) && NotLate(wait, i, j)
    {
      var run, s :| TimedLeaves(PlanOf(wait, i, j), run, s)
                    && Handle(PlanOf(wait, i, j).cfg, s.phase.exit) == Success(record);
      SuccessIsMonitors(wait, i, j, run, s);
      SuccessPossibleIff(wait, i, j, record);
    }
    if Met(kind.SuccessProbe(), w.seen(i)) && NotLate(wait, i, j) {
      SuccessPossibleIff(wait, i, j, Ask(kind.SuccessProbe(), w.seen(i)).error);
    }
  }

  /** In world `w`, all of whose calls take up to `d`, some run of the wait ends in the group timeout. */
  ghost predicate TimesOutIn(kind: Kind, timeout: int, tps: nat, d: nat, w: World, i: nat, j: nat) {
    var wait := WaitOf(kind, w, timeout, tps);
    && (forall k: nat :: w.took(k) <= d) && (forall k: nat :: w.crashTook(k) <= d)
    && wait.success.EndsWith(i) && wait.crash.EndsWith(j)
    && TimeoutPossible(PlanOf(wait, i, j))
  }

  ghost predicate GroupTimeoutPossible(kind: Kind, timeout: int, tps: nat, d: nat) {
    exists w: World, i: nat, j: nat :: TimesOutIn(kind, timeout, tps, d, w, i, j)
  }

  /** No stress command fails before the group timer. */
  predicate CommandsLast(kind: Kind, timeout: int, tps: nat) {
    kind.CpuStress? ==>
      forall c :: c in kind.commands && c.outcome.Raised? ==> TimerAt((timeout + kind.Buffer()) * tps) <= c.at
  }

  /**
   * The bounds are exact, for every timeout, positive or not: calls of up to `d` can make a wait end in the
   * group timeout if and only if they do not fit, and no stress command fails before.
   */
  lemma GroupTimeoutIff(kind: Kind, timeout: int, tps: nat, d: nat)
    requires kind.CpuStress? ==> PlainCommands(kind.commands)
    requires 0 < tps
    ensures GroupTimeoutPossible(kind, timeout, tps, d)
            <==> !Fits(kind, timeout, tps, d) && CommandsLast(kind, timeout, tps)
  {
    if w: World, i: nat, j: nat :| TimesOutIn(kind, timeout, tps, d, w, i, j) {
      TimesOutOnly(kind, timeout, tps, d, w, i, j);
    }
    if !Fits(kind, timeout, tps, d) && CommandsLast(kind, timeout, tps) {
      LateWorldTimesOut(kind, timeout, tps, d);
    }
  }

  lemma TimesOutOnly(kind: Kind, timeout: int, tps: nat, d: nat, w: World, i: nat, j: nat)
    requires kind.CpuStress? ==> PlainCommands(kind.commands)
    requires 0 < tps && TimesOutIn(kind, timeout, tps, d, w, i, j)
    ensures !Fits(kind, timeout, tps, d) && CommandsLast(kind, timeout, tps)
  {
    var wait := WaitOf(kind, w, timeout, tps);
    LibraryWaits(kind, w, timeout, tps);
    PlanFacts(wait, i, j);
    var p := PlanOf(wait, i, j);
    TimeoutPossibleIff(p);
    assert p.limit <= p.ends[|wait.commands|];
    if Fits(kind, timeout, tps, d) {
      SuccessInTime(kind, w, timeout, tps, i, d);
      assert false;
    }
    if kind.CpuStress? {
      forall c | c in kind.commands && c.outcome.Raised? ensures p.limit <= c.at {
        var t :| 0 <= t < |wait.commands| && wait.commands[t] == c;
        assert p.cfg.natural[t].Raised?;
      }
    }
  }

  /** What is found while nothing has happened yet. */
  const IDLE := Observation(Got(Deployment(1, 1, 0, 0, 0, 1, 0, false)), Got(1), Got(None), Got(false))

  /** Nothing ever happens, and the calls take as long as it takes to be late. */
  function LateWorld(kind: Kind, timeout: int, tps: nat, d: nat): World
    requires 0 < tps
  {
    World((k: nat) => IDLE,
          (k: nat) => if kind == ScaleDown(None) then d else LatestCall(timeout * tps, kind.Poll() * tps, d, k),
          (k: nat) => IDLE,
          (k: nat) => LatestCall(timeout * tps, kind.CrashPoll() * tps, d, k))
  }

  /** A loop that is as late as it can be reaches the timer. */
  lemma LateEnough(timeout: int, poll: nat, buffer: nat, d: nat)
    requires 0 < poll
    requires timeout <= 0 ==> TimerAt(timeout + buffer) <= d
    requires 0 < timeout ==> buffer < poll + d && buffer <= 2 * d
    ensures TimerAt(timeout + buffer) <= LatestEnd(timeout, poll, d)
  {
    if 0 < timeout {
      var q := LastSleep(timeout, poll);
      Successor(q, poll);
      Successor(q, d);
      MulMonotone(0, q, d);
    }
  }

  lemma NotFitting(kind: Kind, timeout: int, tps: nat, d: nat)
    requires 0 < tps && !Fits(kind, timeout, tps, d)
    ensures var limit := TimerAt((timeout + kind.Buffer()) * tps);
            && (kind == ScaleDown(None) || limit <= LatestEnd(timeout * tps, kind.Poll() * tps, d))
            && (kind == ScaleDown(None) ==> limit <= d)
            && limit <= LatestEnd(timeout * tps, kind.CrashPoll() * tps, d)
  {
    assert (timeout + kind.Buffer()) * tps == timeout * tps + kind.Buffer() * tps;
    if timeout <= 0 {
      MulMonotone(timeout, 0, tps);
    } else {
      MulMonotone(1, timeout, tps);
    }
    LateEnough(timeout * tps, kind.Poll() * tps, kind.Buffer() * tps, d);
    LateEnough(timeout * tps, kind.CrashPoll() * tps, kind.Buffer() * tps, d);
  }

  /** The loop of a monitor that finds nothing. */
  lemma IdleLoop(timeout: int, poll: nat, error: Error, probe: Probe, seen: nat -> Observation, took: nat -> nat,
                 tps: nat, d: nat)
    returns (k: nat)
    requires 0 < poll && 0 < tps && Ask(probe, IDLE).Falsy?
    requires forall n: nat :: seen(n) == IDLE && took(n) == LatestCall(timeout * tps, poll * tps, d, n)
    ensures var l := LoopOf(timeout, poll, error, probe, seen, took, tps);
            l.EndsWith(k) && l.EndOf(k) == LatestEnd(timeout * tps, poll * tps, d)
  {
    var l := LoopOf(timeout, poll, error, probe, seen, took, tps);
    MulMonotone(1, poll, tps);
    forall n: nat ensures l.condition(n) == Call(LatestCall(l.timeout, l.poll, d, n), Falsy) {
      LoopAsks(timeout, poll, error, probe, seen, took, tps, n);
    }
    k := LatestEndIsReached(l, d);
  }

  /** If both monitors reach the timer and no command fails before it, the timer may win. */
  lemma LateMonitors(kind: Kind, w: World, timeout: int, tps: nat, i: nat, j: nat)
    requires kind.CpuStress? ==> PlainCommands(kind.commands)
    requires CommandsLast(kind, timeout, tps)
    requires var wait := WaitOf(kind, w, timeout, tps); var limit := TimerAt((timeout + kind.Buffer()) * tps);
             limit <= wait.success.EndOf(i) && limit <= wait.crash.EndOf(j)
    ensures TimeoutPossible(PlanOf(WaitOf(kind, w, timeout, tps), i, j))
  {
    var wait := WaitOf(kind, w, timeout, tps);
    LibraryWaits(kind, w, timeout, tps);
    PlanFacts(wait, i, j);
    var p := PlanOf(wait, i, j);
    forall t | 0 <= t < |p.ends| && p.cfg.natural[t].Raised? ensures p.limit <= p.ends[t] {
      assert t < |wait.commands| ==> wait.commands[t] in wait.commands;
    }
    assert p.limit <= p.ends[|wait.commands|];
    TimeoutPossibleIff(p);
  }

  lemma LateCallsFit(kind: Kind, timeout: int, tps: nat, d: nat)
    requires 0 < tps
    ensures var w := LateWorld(kind, timeout, tps, d);
            forall k: nat :: w.took(k) <= d && w.crashTook(k) <= d
  {
  }

  lemma LateWorldTimesOut(kind: Kind, timeout: int, tps: nat, d: nat)
    requires kind.CpuStress? ==> PlainCommands(kind.commands)
    requires 0 < tps && !Fits(kind, timeout, tps, d) && CommandsLast(kind, timeout, tps)
    ensures GroupTimeoutPossible(kind, timeout, tps, d)
  {
    var i := LateSuccess(kind, timeout, tps, d);
    var j := LateCrash(kind, timeout, tps, d);
    NotFitting(kind, timeout, tps, d);
    LateCallsFit(kind, timeout, tps, d);
    var w := LateWorld(kind, timeout, tps, d);
    LateMonitors(kind, w, timeout, tps, i, j);
    assert TimesOutIn(kind, timeout, tps, d, w, i, j);
  }

  lemma LateCrash(kind: Kind, timeout: int, tps: nat, d: nat) returns (j: nat)
    requires 0 < tps
    ensures var l := WaitOf(kind, LateWorld(kind, timeout, tps, d), timeout, tps).crash;
            l.EndsWith(j) && l.EndOf(j) == LatestEnd(timeout * tps, kind.CrashPoll() * tps, d)
  {
    var w := LateWorld(kind, timeout, tps, d);
    j := IdleLoop(timeout, kind.CrashPoll(), WatchTimeout, ContainerFail, w.crashSeen, w.crashTook, tps, d);
  }

  lemma LateSuccess(kind: Kind, timeout: int, tps: nat, d: nat) returns (i: nat)
    requires 0 < tps
    ensures var l := WaitOf(kind, LateWorld(kind, timeout, tps, d), timeout, tps).success;
            && l.EndsWith(i)
            && l.EndOf(i) == if kind == ScaleDown(None) then d else LatestEnd(timeout * tps, kind.Poll() * tps, d)
  {
    var w := LateWorld(kind, timeout, tps, d);
    if kind == ScaleDown(None) {
      i := 0;
      LoopAsks(timeout, kind.Poll(), kind.TimeoutError(), kind.SuccessProbe(), w.seen, w.took, tps, 0);
    } else {
      i := IdleLoop(timeout, kind.Poll(), kind.TimeoutError(), kind.SuccessProbe(), w.seen, w.took, tps, d);
    }
  }

  /**
   * The scale-down schema sets no lower bound on the timeout. At -10 seconds or less the group timer
   * fires at once, and calls that take any time at all end in the group timeout, even a success.
   */
  lemma ScaleDownWithoutTime(peak: Option<nat>, w: World, timeout: int, tps: nat, i: nat, j: nat,
                             run: seq<Timed<(), Error>>, s: Group<(), Error>)
    requires timeout <= -10 && (forall k: nat :: 0 < w.took(k) && 0 < w.crashTook(k))
    requires var wait := WaitOf(ScaleDown(peak), w, timeout, tps);
             wait.success.EndsWith(i) && wait.crash.EndsWith(j) && TimedLeaves(PlanOf(wait, i, j), run, s)
    ensures Handle(PlanOf(WaitOf(ScaleDown(peak), w, timeout, tps), i, j).cfg, s.phase.exit) == GroupTimeout
  {
    var kind := ScaleDown(peak);
    var wait := WaitOf(kind, w, timeout, tps);
    LibraryWaits(kind, w, timeout, tps);
    MulMonotone(timeout + 10, 0, tps);
    PositiveEnd(wait.success, i);
    PositiveEnd(wait.crash, j);
    OnlyRaises(wait.success, i);
    OnlyRaises(wait.crash, j);
    var p := PlanOf(wait, i, j);
    assert p.limit == 0 && |p.ends| == 2;
    assert p.cfg.natural[0].Raised?;
    TimerWins(p, run, s);
  }

  lemma {:induction false} PositiveEnd(l: Loop, k: nat)
    requires l.start == 0 && forall n: nat :: 0 < l.condition(n).took
    ensures 0 < l.EndOf(k)
  {
    if k > 0 {
      PositiveEnd(l, k - 1);
    }
  }

  /**
   * A rolling restart that times out in both monitors reports the error of the one that ends first.
   * The promised `RollingRestartTimeoutError` is certain only when the completion monitor does.
   */
  lemma RestartTimeoutReported(w: World, at: int, generation: Option<int>, timeout: int, tps: nat,
                               i: nat, j: nat, d: nat, run: seq<Timed<(), Error>>, s: Group<(), Error>)
    requires 1 <= timeout && 0 < tps
    requires (forall k: nat :: w.took(k) <= d) && d <= 25 * tps
    requires var wait := WaitOf(RestartWait(at, generation), w, timeout, tps);
             && wait.success.EndsWith(i) && wait.crash.EndsWith(j)
             && wait.success.condition(i).verdict.Falsy? && wait.crash.condition(j).verdict.Falsy?
             && TimedLeaves(PlanOf(wait, i, j), run, s)
    ensures var wait := WaitOf(RestartWait(at, generation), w, timeout, tps);
            var end := Handle(PlanOf(wait, i, j).cfg, s.phase.exit);
            && (wait.success.EndOf(i) < wait.crash.EndOf(j) ==> end == Throws(RestartTimeout))
            && (wait.crash.EndOf(j) < wait.success.EndOf(i) ==> end == Throws(WatchTimeout))
  {
    var kind := RestartWait(at, generation);
    var wait := WaitOf(kind, w, timeout, tps);
    LibraryWaits(kind, w, timeout, tps);
    SuccessInTime(kind, w, timeout, tps, i, d);
    PlanFacts(wait, i, j);
    OwnExceptionReported(wait, i, j, run, s, 0);
    var p := PlanOf(wait, i, j);
    var t := s.phase.exit.task;
    assert |p.ends| == 2 && p.cfg.natural[0] == Raised(RestartTimeout) && p.cfg.natural[1] == Raised(WatchTimeout);
    assert p.ends[t] <= p.ends[0] && p.ends[t] <= p.ends[1];
    assert t == 0 || t == 1;
  }

  /**
   * Every run reports the promised error if and only if the completion monitor gives up strictly first;
   * on a tie either error may be reported.
   */
  lemma RestartTimeoutCertainIff(w: World, at: int, generation: Option<int>, timeout: int, tps: nat,
                                 i: nat, j: nat, d: nat)
    requires 1 <= timeout && 0 < tps
    requires (forall k: nat :: w.took(k) <= d) && d <= 25 * tps
    requires var wait := WaitOf(RestartWait(at, generation), w, timeout, tps);
             && wait.success.EndsWith(i) && wait.crash.EndsWith(j)
             && wait.success.condition(i).verdict.Falsy? && wait.crash.condition(j).verdict.Falsy?
    ensures var wait := WaitOf(RestartWait(at, generation), w, timeout, tps);
            var p := PlanOf(wait, i, j);
            (forall run, s :: TimedLeaves(p, run, s) ==> Handle(p.cfg, s.phase.exit) == Throws(RestartTimeout))
            <==> wait.success.EndOf(i) < wait.crash.EndOf(j)
  {
    var kind := RestartWait(at, generation);
    var wait := WaitOf(kind, w, timeout, tps);
    var p := PlanOf(wait, i, j);
    forall run, s | TimedLeaves(p, run, s) && wait.success.EndOf(i) < wait.crash.EndOf(j)
      ensures Handle(p.cfg, s.phase.exit) == Throws(RestartTimeout)
    {
      RestartTimeoutReported(w, at, generation, timeout, tps, i, j, d, run, s);
    }
    if wait.crash.EndOf(j) <= wait.success.EndOf(i) {
      LibraryWaits(kind, w, timeout, tps);
      MulMonotone(1, timeout, tps);
      EndIsPrompt(wait.success, i, d);
      NeverNegative(wait.crash, j);
      assert p.ends == [wait.success.EndOf(i), wait.crash.EndOf(j)];
      assert p.cfg.natural == [Raised(RestartTimeout), Raised(WatchTimeout)];
      var run, s := EarliestMayWin(p, 1);
      assert Handle(p.cfg, s.phase.exit) == Throws(WatchTimeout);
    }
  }

  /**
   * If all calls are instant the two monitors give up together, whatever the timeout, and either error is
   * reported in some run.
   */
  lemma InstantTimeoutsTie(w: World, at: int, generation: Option<int>, timeout: int, tps: nat, i: nat, j: nat)
    requires 1 <= timeout && 0 < tps
    requires forall k: nat :: w.took(k) == 0 && w.crashTook(k) == 0
    requires var wait := WaitOf(RestartWait(at, generation), w, timeout, tps);
             && wait.success.EndsWith(i) && wait.crash.EndsWith(j)
             && wait.success.condition(i).verdict.Falsy? && wait.crash.condition(j).verdict.Falsy?
    ensures var wait := WaitOf(RestartWait(at, generation), w, timeout, tps);
            var p := PlanOf(wait, i, j);
            && wait.success.EndOf(i) == wait.crash.EndOf(j)
            && (exists run, s :: TimedLeaves(p, run, s) && Handle(p.cfg, s.phase.exit) == Throws(WatchTimeout))
            && (exists run, s :: TimedLeaves(p, run, s) && Handle(p.cfg, s.phase.exit) == Throws(RestartTimeout))
  {
    var kind := RestartWait(at, generation);
    var wait := WaitOf(kind, w, timeout, tps);
    LibraryWaits(kind, w, timeout, tps);
    LoopIsMonitor(timeout, 5, WatchTimeout, ContainerFail, w.crashSeen, w.crashTook, tps);
    BudgetIsReached(wait.success, i);
    BudgetIsReached(wait.crash, j);
    SuccessInTime(kind, w, timeout, tps, i, 0);
    PlanFacts(wait, i, j);
    var p := PlanOf(wait, i, j);
    assert p.cfg.natural == [Raised(RestartTimeout), Raised(WatchTimeout)];
    var run, s := EarliestMayWin(p, 0);
    assert Handle(p.cfg, s.phase.exit) == Throws(RestartTimeout);
    run, s := EarliestMayWin(p, 1);
    assert Handle(p.cfg, s.phase.exit) == Throws(WatchTimeout);
  }

  /**
   * No timeout makes the promised `RollingRestartTimeoutError` certain: for every one there is a world, with
   * instant calls, in which both monitors time out and a run reports the generic error.
   */
  lemma NoTimeoutIsCertain(at: int, generation: Option<int>, timeout: int, tps: nat)
    returns (w: World, i: nat, j: nat, run: seq<Timed<(), Error>>, s: Group<(), Error>)
    requires 1 <= timeout && 0 < tps
    ensures forall k: nat :: w.took(k) == 0 && w.crashTook(k) == 0
    ensures var wait := WaitOf(RestartWait(at, generation), w, timeout, tps);
            var p := PlanOf(wait, i, j);
            && wait.success.EndsWith(i) && wait.crash.EndsWith(j)
            && wait.success.condition(i).verdict.Falsy? && wait.crash.condition(j).verdict.Falsy?
            && TimedLeaves(p, run, s) && Handle(p.cfg, s.phase.exit) == Throws(WatchTimeout)
  {
    w := World((k: nat) => IDLE, (k: nat) => 0, (k: nat) => IDLE, (k: nat) => 0);
    var wait := WaitOf(RestartWait(at, generation), w, timeout, tps);
    i := EndExists(wait.success);
    j := EndExists(wait.crash);
    LoopAsks(timeout, 5, RestartTimeout, RollingRestart(at, generation), w.seen, w.took, tps, i);
    LoopAsks(timeout, 5, WatchTimeout, ContainerFail, w.crashSeen, w.crashTook, tps, j);
    InstantTimeoutsTie(w, at, generation, timeout, tps, i, j);
    var p := PlanOf(wait, i, j);
    run, s :| TimedLeaves(p, run, s) && Handle(p.cfg, s.phase.exit) == Throws(WatchTimeout);
  }

  /**
   * For every timeout there is a world in which the generic timeout hides the promised one in every run: the
   * crash monitor ends at the deadline, after a check of the completion monitor that just missed it.
   */
  lemma RestartTimeoutHidden(at: int, generation: Option<int>, timeout: int, tps: nat)
    returns (w: World, i: nat, j: nat)
    requires 1 <= timeout && 0 < tps
    ensures var wait := WaitOf(RestartWait(at, generation), w, timeout, tps);
            var p := PlanOf(wait, i, j);
            && wait.success.EndsWith(i) && wait.crash.EndsWith(j)
            && wait.success.condition(i).verdict.Falsy? && wait.crash.condition(j).verdict.Falsy?
            && wait.crash.EndOf(j) < wait.success.EndOf(i)
            && forall run, s :: TimedLeaves(p, run, s) ==> Handle(p.cfg, s.phase.exit) == Throws(WatchTimeout)
  {
    w, i, j := HidingWorld(timeout, tps), 1, 0;
    var kind := RestartWait(at, generation);
    HidingEnds(at, generation, timeout, tps);
    LibraryWaits(kind, w, timeout, tps);
    GenericReported(WaitOf(kind, w, timeout, tps), i, j);
  }

  /** Nothing happens; the first completion call just misses the deadline, and each crash call takes up to it. */
  function HidingWorld(timeout: int, tps: nat): World
    requires 1 <= timeout && 0 < tps
  {
    MulMonotone(1, timeout, tps);
    var deadline: nat := timeout * tps;
    World((k: nat) => IDLE, (k: nat) => if k == 0 then deadline - 1 else 0, (k: nat) => IDLE, (k: nat) => deadline)
  }

  lemma HidingEnds(at: int, generation: Option<int>, timeout: int, tps: nat)
    requires 1 <= timeout && 0 < tps
    ensures var wait := WaitOf(RestartWait(at, generation), HidingWorld(timeout, tps), timeout, tps);
            && wait.success.EndsWith(1) && wait.crash.EndsWith(0)
            && wait.success.condition(1).verdict.Falsy? && wait.crash.condition(0).verdict.Falsy?
            && wait.crash.EndOf(0) < wait.success.EndOf(1) && wait.crash.EndOf(0) < TimerAt(wait.groupTimeout)
  {
    var w, probe := HidingWorld(timeout, tps), RollingRestart(at, generation);
    var success := LoopOf(timeout, 5, RestartTimeout, probe, w.seen, w.took, tps);
    LoopAsks(timeout, 5, RestartTimeout, probe, w.seen, w.took, tps, 0);
    LoopAsks(timeout, 5, RestartTimeout, probe, w.seen, w.took, tps, 1);
    LoopAsks(timeout, 5, WatchTimeout, ContainerFail, w.crashSeen, w.crashTook, tps, 0);
    assert success.EndOf(0) == timeout * tps - 1 && success.EndOf(1) == timeout * tps - 1 + 5 * tps;
    assert (timeout + 30) * tps == timeout * tps + 30 * tps;
  }

  /** If the crash monitor times out strictly before the completion monitor and the timer, every run says so. */
  lemma GenericReported(wait: Wait, i: nat, j: nat)
    requires WellFormed(wait) && wait.commands == [] && wait.success.EndsWith(i) && wait.crash.EndsWith(j)
    requires wait.crash.condition(j).verdict.Falsy? && wait.crash.timeoutError == WatchTimeout
    requires wait.crash.EndOf(j) < wait.success.EndOf(i) && wait.crash.EndOf(j) < TimerAt(wait.groupTimeout)
    ensures var p := PlanOf(wait, i, j);
            forall run, s :: TimedLeaves(p, run, s) ==> Handle(p.cfg, s.phase.exit) == Throws(WatchTimeout)
  {
    var p := PlanOf(wait, i, j);
    PlanFacts(wait, i, j);
    forall run, s | TimedLeaves(p, run, s) ensures Handle(p.cfg, s.phase.exit) == Throws(WatchTimeout) {
      OwnExceptionReported(wait, i, j, run, s, 1);
      assert p.ends[s.phase.exit.task] <= p.ends[1];
    }
  }
}
