/**
 * The wait of `terminate_pods` and `evict_pods`, src/reslib/actions/pod.py: one polling loop for each pod, five
 * seconds apart, under a group timer only five seconds behind their own timeout.
 */
module Deletions {
  import opened Arithmetic
  import opened Polling
  import opened TaskGroups
  import opened TimedGroups

  const POLL := 5
  const BUFFER := 5

  /** What reading the pod gives: the pod, a 404, or another error. */
  datatype Reply = Present | Absent | Refused

  datatype WaitError = PodTimeout | ApiError

  type Loop = Watch<bool, WaitError>

  datatype PodWorld = PodWorld(seen: nat -> Reply, took: nat -> nat)

  /** The condition `pod_absent`. */
  function PodAbsent(reply: Reply): Verdict<bool, WaitError> {
    match reply
    case Present => Falsy
    case Absent => Truthy(true)
    case Refused => Raises(ApiError)
  }

  /** `tps` is the number of clock ticks in a second. */
  function LoopOf(w: PodWorld, timeout: int, tps: nat): Loop {
    Watch(0, timeout * tps, POLL * tps, PodTimeout, (k: nat) => Call(w.took(k), PodAbsent(w.seen(k))))
  }

  /** The task group of pods whose loops end with the evaluations `last`. */
  ghost function PlanOf(worlds: seq<PodWorld>, last: seq<nat>, timeout: int, tps: nat): Plan<bool, WaitError>
    requires |worlds| == |last|
  {
    Plan(
      Config(seq(|worlds|, n requires 0 <= n < |worlds| => OutcomeOf(LoopOf(worlds[n], timeout, tps).ExitOf(last[n]))),
             FirstException, true),
      seq(|worlds|, n requires 0 <= n < |worlds| => LoopOf(worlds[n], timeout, tps).EndOf(last[n])),
      TimerAt((timeout + BUFFER) * tps))
  }

  /** With calls of up to `d` in every one of the worlds, some run ends in the group timeout. */
  ghost predicate TimesOutIn(worlds: seq<PodWorld>, last: seq<nat>, timeout: int, tps: nat, d: nat) {
    && 0 < |worlds| == |last|
    && (forall n, k: nat :: 0 <= n < |worlds| ==> worlds[n].took(k) <= d)
    && (forall n :: 0 <= n < |worlds| ==> LoopOf(worlds[n], timeout, tps).EndsWith(last[n]))
    && TimeoutPossible(PlanOf(worlds, last, timeout, tps))
  }

  ghost predicate GroupTimeoutPossible(pods: nat, timeout: int, tps: nat, d: nat) {
    exists worlds: seq<PodWorld>, last: seq<nat> :: |worlds| == pods && TimesOutIn(worlds, last, timeout, tps, d)
  }

  lemma LoopReads(w: PodWorld, timeout: int, tps: nat, k: nat)
    ensures LoopOf(w, timeout, tps).condition(k) == Call(w.took(k), PodAbsent(w.seen(k)))
  {
  }

  lemma {:induction false} NeverNegative(w: PodWorld, timeout: int, tps: nat, k: nat)
    ensures 0 <= LoopOf(w, timeout, tps).EndOf(k)
  {
    if k > 0 {
      NeverNegative(w, timeout, tps, k - 1);
    }
  }

  lemma PlanFacts(worlds: seq<PodWorld>, last: seq<nat>, timeout: int, tps: nat)
    requires 0 < |worlds| == |last|
    ensures var p := PlanOf(worlds, last, timeout, tps);
            && Scheduled(p) && FailsFast(p.cfg) && 0 <= p.limit
            && forall n :: 0 <= n < |p.ends| ==> 0 <= p.ends[n] == LoopOf(worlds[n], timeout, tps).EndOf(last[n])
  {
    forall n | 0 <= n < |worlds| ensures 0 <= LoopOf(worlds[n], timeout, tps).EndOf(last[n]) {
      NeverNegative(worlds[n], timeout, tps, last[n]);
    }
  }

  /**
   * For any number of pods and any timeout: the promised error of a pod that is not gone can be replaced by
   * the group timeout if and only if calls of up to `d` can delay a loop to the group timer.
   */
  lemma GroupTimeoutIff(pods: nat, timeout: int, tps: nat, d: nat)
    requires 0 < pods && 0 < tps
    ensures GroupTimeoutPossible(pods, timeout, tps, d)
            <==> TimerAt((timeout + 5) * tps) <= LatestEnd(timeout * tps, 5 * tps, d)
  {
    if worlds: seq<PodWorld>, last: seq<nat> :| |worlds| == pods && TimesOutIn(worlds, last, timeout, tps, d) {
      PlanFacts(worlds, last, timeout, tps);
      TimeoutPossibleIff(PlanOf(worlds, last, timeout, tps));
      var n :| 0 <= n < pods && TimerAt((timeout + BUFFER) * tps) <= LoopOf(worlds[n], timeout, tps).EndOf(last[n]);
      var l := LoopOf(worlds[n], timeout, tps);
      assert forall k: nat :: l.condition(k).took == worlds[n].took(k);
      EndsByLatest(l, last[n], d);
    }
    if TimerAt((timeout + BUFFER) * tps) <= LatestEnd(timeout * tps, POLL * tps, d) {
      LatePods(pods, timeout, tps, d);
    }
  }

  /** No pod goes, and every read takes as long as it takes to be late. */
  lemma LatePods(pods: nat, timeout: int, tps: nat, d: nat)
    requires 0 < pods && 0 < tps && TimerAt((timeout + BUFFER) * tps) <= LatestEnd(timeout * tps, POLL * tps, d)
    ensures GroupTimeoutPossible(pods, timeout, tps, d)
  {
    var w := PodWorld((k: nat) => Present, (k: nat) => LatestCall(timeout * tps, POLL * tps, d, k));
    var l := LoopOf(w, timeout, tps);
    forall n: nat ensures l.condition(n) == Call(LatestCall(l.timeout, l.poll, d, n), Falsy) {
      LoopReads(w, timeout, tps, n);
    }
    var k := LatestEndIsReached(l, d);
    var worlds, last := seq(pods, _ => w), seq(pods, _ => k);
    PlanFacts(worlds, last, timeout, tps);
    var p := PlanOf(worlds, last, timeout, tps);
    assert forall n :: 0 <= n < |p.ends| ==> p.limit <= p.ends[n];
    assert p.limit <= p.ends[0];
    TimeoutPossibleIff(p);
    assert TimesOutIn(worlds, last, timeout, tps, d);
  }

  /** For timeouts of `m` poll intervals: any delay at all, if the `m + 1` calls can add up to one interval. */
  lemma WholeIntervals(pods: nat, m: nat, tps: nat, d: nat)
    requires 0 < pods && 0 < m && 0 < tps
    ensures GroupTimeoutPossible(pods, 5 * m, tps, d) <==> 5 * tps <= (m + 1) * d
  {
    GroupTimeoutIff(pods, POLL * m, tps, d);
    WholeIntervalsEnd(m, POLL * tps, d);
    Ticks(m, tps);
  }

  lemma Ticks(m: nat, tps: nat)
    ensures POLL * m * tps == m * (POLL * tps)
    ensures (POLL * m + BUFFER) * tps == m * (POLL * tps) + POLL * tps
  {
  }

  lemma WholeIntervalsEnd(m: nat, poll: nat, d: nat)
    requires 0 < m && 0 < poll
    ensures 0 < m * poll
    ensures m * poll + poll <= LatestEnd(m * poll, poll, d) <==> poll <= (m + 1) * d
  {
    MulMonotone(1, m, poll);
    var q := LastSleep(m * poll, poll);
    Successor(m - 1, poll);
    Successor(m, d);
    if q < m - 1 {
      MulMonotone(q + 1, m - 1, poll);
    }
    if m - 1 < q {
      MulMonotone(m, q, poll);
    }
    assert q == m - 1;
    MulMonotone(0, m + 1, d);
  }

  /**
   * The wait of `pods` pods returns in every run if and only if the last read of each found it gone, before the
   * group timer.
   */
  lemma AllGoneIff(worlds: seq<PodWorld>, last: seq<nat>, timeout: int, tps: nat)
    requires 0 < |worlds| == |last|
    requires forall n :: 0 <= n < |worlds| ==> LoopOf(worlds[n], timeout, tps).EndsWith(last[n])
    ensures (forall run, s :: TimedLeaves(PlanOf(worlds, last, timeout, tps), run, s) ==> s.phase.exit.Returned?)
            <==> forall n :: 0 <= n < |worlds| ==>
                   && worlds[n].seen(last[n]) == Absent
                   && LoopOf(worlds[n], timeout, tps).EndOf(last[n]) < TimerAt((timeout + 5) * tps)
  {
    var p := PlanOf(worlds, last, timeout, tps);
    PlanFacts(worlds, last, timeout, tps);
    AlwaysReturnsIff(p);
    forall n | 0 <= n < |worlds| ensures p.cfg.natural[n].Value? <==> worlds[n].seen(last[n]) == Absent {
      LoopReads(worlds[n], timeout, tps, last[n]);
    }
    assert |p.ends| == |worlds|;
  }

  /** A pod that is found gone ends its wait at once, and a read that fails ends it with that error. */
  lemma PodWaitEnds(w: PodWorld, timeout: int, tps: nat, k: nat)
    ensures LoopOf(w, timeout, tps).ExitOf(k) ==
              match w.seen(k)
              case Absent => Polling.Returned(true)
              case Refused => Polling.Threw(ApiError)
              case Present => Polling.Threw(PodTimeout)
  {
    LoopReads(w, timeout, tps, k);
  }
}
