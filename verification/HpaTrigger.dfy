/**
 * The CPU load that makes an HPA scale up: `calculate_hpa_trigger` of src/reslib/k8s/scaling.py, the
 * guardrails of src/reslib/guardrails/hpa.py that judge it, and the pod selection of
 * src/reslib/actions/hpa.py that acts on it. Percentages are integers, as the schemas have them.
 */
module HpaTrigger {
  import opened Wrappers
  import opened Arithmetic

  datatype Trigger = Trigger(pods: int, load: int)

  /** The fleet total when `p` of `r` pods run at `load` and the others at `idle`. */
  function FleetTotal(r: int, p: int, load: int, idle: int): int {
    p * load + (r - p) * idle
  }

  /** Some load within the threshold on `p` pods brings the fleet average to the target. */
  ghost predicate Reaches(r: int, target: int, idle: int, threshold: int, p: int) {
    exists load: int :: load <= threshold && r * target <= FleetTotal(r, p, load, idle)
  }

  /** The load the search computes for `p` pods. */
  function LoadFor(r: int, target: int, idle: int, p: int): int
    requires p > 0
  {
    idle + CeilDiv(r * (target - idle), p)
  }

  /** It is the least load that brings the fleet average to the target. */
  lemma LoadIsLeast(r: int, target: int, idle: int, p: int, load: int)
    requires p > 0
    ensures r * target <= FleetTotal(r, p, load, idle) <==> LoadFor(r, target, idle, p) <= load
  {
    CeilIsLeast(r * (target - idle), p, load - idle);
    assert FleetTotal(r, p, load, idle) - r * target == p * (load - idle) - r * (target - idle) by {
      assert p * load + (r - p) * idle - r * target == p * load - p * idle + r * idle - r * target;
    }
  }

  lemma ReachesIff(r: int, target: int, idle: int, threshold: int, p: int)
    requires p > 0
    ensures Reaches(r, target, idle, threshold, p) <==> LoadFor(r, target, idle, p) <= threshold
  {
    var load := LoadFor(r, target, idle, p);
    LoadIsLeast(r, target, idle, p, load);
    if other :| other <= threshold && r * target <= FleetTotal(r, p, other, idle) {
      LoadIsLeast(r, target, idle, p, other);
    }
  }

  /**
   * The best answer: the least number of pods for which some load within the threshold reaches the
   * target, and the least such load.
   */
  ghost predicate IsLeastTrigger(r: nat, target: int, idle: int, threshold: int, t: Trigger) {
    && 1 <= t.pods <= r
    && (forall p :: 1 <= p < t.pods ==> !Reaches(r, target, idle, threshold, p))
    && t.load <= threshold
    && forall load: int :: r * target <= FleetTotal(r, t.pods, load, idle) <==> t.load <= load
  }

  lemma FoundIsLeast(r: nat, target: int, idle: int, threshold: int, p: int)
    requires 1 <= p <= r && LoadFor(r, target, idle, p) <= threshold
    requires forall q :: 1 <= q < p ==> threshold < LoadFor(r, target, idle, q)
    ensures IsLeastTrigger(r, target, idle, threshold, Trigger(p, LoadFor(r, target, idle, p)))
  {
    forall q | 1 <= q < p ensures !Reaches(r, target, idle, threshold, q) {
      ReachesIff(r, target, idle, threshold, q);
    }
    forall load: int ensures r * target <= FleetTotal(r, p, load, idle) <==> LoadFor(r, target, idle, p) <= load {
      LoadIsLeast(r, target, idle, p, load);
    }
  }

  lemma NotFoundIsUnreachable(r: nat, target: int, idle: int, threshold: int)
    requires forall q :: 1 <= q <= r ==> threshold < LoadFor(r, target, idle, q)
    ensures forall p :: 1 <= p <= r ==> !Reaches(r, target, idle, threshold, p)
  {
    forall p | 1 <= p <= r ensures !Reaches(r, target, idle, threshold, p) {
      ReachesIff(r, target, idle, threshold, p);
    }
  }

  /**
   * The search finds the best answer, or falls back to all pods at the threshold when no number of pods
   * reaches the target; and it agrees with the closed form.
   */
  method CalculateHpaTrigger(r: nat, target: int, idle: int, threshold: int) returns (t: Trigger)
    ensures || IsLeastTrigger(r, target, idle, threshold, t)
            || (t == Trigger(r, threshold) && forall p :: 1 <= p <= r ==> !Reaches(r, target, idle, threshold, p))
    ensures t == ClosedForm(r, target, idle, threshold)
  {
    var increase := r * (target - idle);
    for p := 1 to r + 1
      invariant forall q :: 1 <= q < p ==> threshold < LoadFor(r, target, idle, q)
    {
      var load := idle + CeilDiv(increase, p);
      if load <= threshold {
        FoundIsLeast(r, target, idle, threshold, p);
        FoundIsClosedForm(r, target, idle, threshold, p);
        return Trigger(p, load);
      }
    }
    NotFoundIsUnreachable(r, target, idle, threshold);
    NotFoundIsClosedForm(r, target, idle, threshold);
    t := Trigger(r, threshold);
  }

  /** The target cannot be reached at all. */
  predicate OutOfReach(r: nat, target: int, idle: int, threshold: int) {
    r == 0 || (threshold < target && (idle <= target || threshold < idle + r * (target - idle)))
  }

  /** The result of the search without a search. */
  function ClosedForm(r: nat, target: int, idle: int, threshold: int): Trigger {
    if OutOfReach(r, target, idle, threshold) then Trigger(r, threshold)
    else if target <= idle then Trigger(1, idle + r * (target - idle))
    else
      PositiveIncrease(r, target, idle, threshold - idle);
      var p := CeilDiv(r * (target - idle), threshold - idle);
      Trigger(p, LoadFor(r, target, idle, p))
  }

  lemma PositiveIncrease(r: nat, target: int, idle: int, b: int)
    requires 0 < r && idle < target && 0 < b
    ensures 0 < r * (target - idle) && 0 < CeilDiv(r * (target - idle), b)
  {
    MulMonotone(1, target - idle, r);
    CeilIsLeast(r * (target - idle), b, 0);
  }

  /** A number of pods is enough exactly when it reaches the quotient of the closed form. */
  lemma FeasibleIff(r: nat, target: int, idle: int, threshold: int, p: int)
    requires p > 0 && idle < threshold
    ensures LoadFor(r, target, idle, p) <= threshold <==> CeilDiv(r * (target - idle), threshold - idle) <= p
  {
    CeilIsLeast(r * (target - idle), p, threshold - idle);
    CeilIsLeast(r * (target - idle), threshold - idle, p);
    assert p * (threshold - idle) == (threshold - idle) * p;
  }

  lemma FoundIsClosedForm(r: nat, target: int, idle: int, threshold: int, p: int)
    requires 1 <= p <= r && LoadFor(r, target, idle, p) <= threshold
    requires forall q :: 1 <= q < p ==> threshold < LoadFor(r, target, idle, q)
    ensures ClosedForm(r, target, idle, threshold) == Trigger(p, LoadFor(r, target, idle, p))
  {
    var increase := r * (target - idle);
    if target <= idle {
      MulMonotone(target - idle, 0, r);
      NegativeCeil(increase, p);
      CeilOfMultiple(increase, 1);
      assert LoadFor(r, target, idle, 1) == idle + increase;
      assert p == 1;
      assert !OutOfReach(r, target, idle, threshold) by {
        if threshold < target {
          assert idle + increase <= threshold;
        }
      }
    } else {
      MulMonotone(1, target - idle, r);
      assert increase >= r;
      FullFleet(r, target, idle, p);
      assert idle < target <= threshold;
      var c := CeilDiv(increase, threshold - idle);
      FeasibleIff(r, target, idle, threshold, p);
      CeilIsLeast(increase, threshold - idle, 0);
      if c < p {
        FeasibleIff(r, target, idle, threshold, c);
      }
    }
  }

  lemma NegativeCeil(a: int, p: int)
    requires a <= 0 && p > 0
    ensures a <= CeilDiv(a, p) <= 0
  {
    CeilIsLeast(a, p, 0);
    CeilIsLeast(a, p, a - 1);
    assert (a - 1) * p < a by {
      MulMonotone(1, p, 1 - a);
    }
  }

  /** Below the target, fewer pods than all need a load of at least the target. */
  lemma FullFleet(r: nat, target: int, idle: int, p: int)
    requires 1 <= p <= r && idle <= target
    ensures target <= LoadFor(r, target, idle, p)
    ensures LoadFor(r, target, idle, r) == target
  {
    var a := target - idle;
    MulMonotone(p, r, a);
    CeilIsLeast(r * a, p, a - 1);
    assert (a - 1) * p == p * a - p;
    CeilOfMultiple(a, r);
    assert a * r == r * a;
  }

  lemma NotFoundIsClosedForm(r: nat, target: int, idle: int, threshold: int)
    requires forall q :: 1 <= q <= r ==> threshold < LoadFor(r, target, idle, q)
    ensures ClosedForm(r, target, idle, threshold) == Trigger(r, threshold)
  {
    if r > 0 {
      assert threshold < LoadFor(r, target, idle, 1);
      CeilOfMultiple(r * (target - idle), 1);
      assert threshold < LoadFor(r, target, idle, r);
      CeilOfMultiple(target - idle, r);
      assert (target - idle) * r == r * (target - idle);
    }
  }

  /** The fallback is taken exactly when no number of pods reaches the target within the threshold. */
  lemma OutOfReachIff(r: nat, target: int, idle: int, threshold: int)
    ensures OutOfReach(r, target, idle, threshold)
            <==> forall p :: 1 <= p <= r ==> !Reaches(r, target, idle, threshold, p)
  {
    if OutOfReach(r, target, idle, threshold) {
      forall p | 1 <= p <= r ensures !Reaches(r, target, idle, threshold, p) {
        ReachesIff(r, target, idle, threshold, p);
        if idle <= target {
          FullFleet(r, target, idle, p);
        } else {
          MulMonotone(target - idle, 0, r);
          NegativeCeil(r * (target - idle), p);
        }
      }
    } else if idle <= target || target <= threshold {
      ReachesIff(r, target, idle, threshold, r);
      CeilOfMultiple(target - idle, r);
      assert (target - idle) * r == r * (target - idle);
    } else {
      ReachesIff(r, target, idle, threshold, 1);
      CeilOfMultiple(r * (target - idle), 1);
    }
  }

  /** Within reach, the closed form is the best answer; otherwise there is none. */
  lemma ClosedFormIsBest(r: nat, target: int, idle: int, threshold: int)
    ensures !OutOfReach(r, target, idle, threshold) ==>
              IsLeastTrigger(r, target, idle, threshold, ClosedForm(r, target, idle, threshold))
    ensures OutOfReach(r, target, idle, threshold) ==>
              && ClosedForm(r, target, idle, threshold) == Trigger(r, threshold)
              && forall p :: 1 <= p <= r ==> !Reaches(r, target, idle, threshold, p)
  {
    OutOfReachIff(r, target, idle, threshold);
    if !OutOfReach(r, target, idle, threshold) {
      var last: nat :| 1 <= last <= r && Reaches(r, target, idle, threshold, last);
      ReachesIff(r, target, idle, threshold, last);
      var p := 1;
      while threshold < LoadFor(r, target, idle, p)
        invariant 1 <= p <= last && forall q :: 1 <= q < p ==> threshold < LoadFor(r, target, idle, q)
        decreases last - p
      {
        p := p + 1;
      }
      FoundIsLeast(r, target, idle, threshold, p);
      FoundIsClosedForm(r, target, idle, threshold, p);
    }
  }

  /** For an idle fleet below its target: the load lies between the target and the threshold. */
  lemma LoadWithinBounds(r: nat, target: int, idle: int, threshold: int)
    requires 0 < r && idle <= target <= threshold
    ensures var t := ClosedForm(r, target, idle, threshold);
            1 <= t.pods <= r && target <= t.load <= threshold
  {
    if idle < target {
      var a, b := r * (target - idle), threshold - idle;
      var p := CeilDiv(a, b);
      PositiveIncrease(r, target, idle, b);
      MulMonotone(target - idle, b, r);
      assert a == (target - idle) * r && r * b == b * r;
      CeilIsLeast(a, b, r);
      FeasibleIff(r, target, idle, threshold, p);
      FullFleet(r, target, idle, p);
    }
  }

  /**
   * Above its target the fleet needs no stress, yet the search asks one pod for a load that may be
   * negative: exactly when the surplus of the fleet exceeds the idle load of a pod.
   */
  lemma NegativeLoadIff(r: nat, target: int, idle: int, threshold: int)
    requires 0 <= idle && 0 < threshold
    ensures ClosedForm(r, target, idle, threshold).load < 0 <==> idle < r * (idle - target)
  {
    assert r * (idle - target) == -(r * (target - idle));
    if idle < target {
      MulMonotone(0, target - idle, r);
      if !OutOfReach(r, target, idle, threshold) {
        LoadWithinBounds(r, target, idle, threshold);
      }
    }
  }

  /** Nothing is stressed exactly when no pod is ready, however busy the fleet already is. */
  lemma NothingStressedIff(r: nat, target: int, idle: int, threshold: int)
    ensures ClosedForm(r, target, idle, threshold).pods <= 0 <==> r == 0
  {
    if 0 < r && idle < target <= threshold {
      LoadWithinBounds(r, target, idle, threshold);
    }
  }

  /** A fleet that is already at or above its target still has one pod stressed, or all if that does not reach it. */
  lemma SatisfiedFleetIsStressed(r: nat, target: int, idle: int, threshold: int)
    requires 0 < r && target <= idle
    ensures r * target <= FleetTotal(r, 0, idle, idle)
    ensures ClosedForm(r, target, idle, threshold).pods == if OutOfReach(r, target, idle, threshold) then r else 1
  {
    MulMonotone(target, idle, r);
    assert target * r == r * target && idle * r == r * idle;
  }

  /** How many pods have to stay idle. */
  function MinIdlePods(r: nat, minIdlePct: nat): int {
    CeilDiv(r * minIdlePct, 100)
  }

  /** The verdict of `validate_pods_to_stress_cpu`. */
  predicate WithinIdleLimit(r: nat, target: int, idle: int, threshold: int, minIdlePct: nat) {
    ClosedForm(r, target, idle, threshold).pods <= r - MinIdlePods(r, minIdlePct)
  }

  /** The stressed pods leave the configured share of the fleet idle, and the verdict says no less. */
  lemma IdleLimitIff(r: nat, target: int, idle: int, threshold: int, minIdlePct: nat)
    ensures WithinIdleLimit(r, target, idle, threshold, minIdlePct)
            <==> r * minIdlePct <= 100 * (r - ClosedForm(r, target, idle, threshold).pods)
  {
    var p := ClosedForm(r, target, idle, threshold).pods;
    CeilIsLeast(r * minIdlePct, 100, r - p);
  }

  /** Stressing a fleet `k` times as large takes at most `k` times as many pods. */
  lemma PodsScale(r: nat, target: int, idle: int, threshold: int, k: nat)
    requires 1 <= k && !OutOfReach(r, target, idle, threshold)
    ensures !OutOfReach(k * r, target, idle, threshold)
    ensures ClosedForm(k * r, target, idle, threshold).pods <= k * ClosedForm(r, target, idle, threshold).pods
  {
    MulMonotone(1, k, r);
    var a := target - idle;
    if idle < target {
      PositiveIncrease(r, target, idle, threshold - idle);
      CeilScales(r * a, threshold - idle, k);
      assert (k * r) * a == k * (r * a);
    } else {
      MulMonotone(r, k * r, -a);
      assert r * -a == -(r * a) && (k * r) * -a == -((k * r) * a);
    }
  }

  /** "Scale the workload up" is sound for multiples: a fleet that passes also passes `k` times as large. */
  lemma MultiplesPass(r: nat, target: int, idle: int, threshold: int, minIdlePct: nat, k: nat)
    requires 1 <= k && WithinIdleLimit(r, target, idle, threshold, minIdlePct)
    ensures WithinIdleLimit(k * r, target, idle, threshold, minIdlePct)
  {
    var p, q := ClosedForm(r, target, idle, threshold).pods, MinIdlePods(r, minIdlePct);
    CeilScales(r * minIdlePct, 100, k);
    assert (k * r) * minIdlePct == k * (r * minIdlePct);
    if OutOfReach(r, target, idle, threshold) {
      // all pods are stressed, so none has to stay idle, at any multiple
      MulMonotone(q, 0, k);
      LargestPods(k * r, target, idle, threshold);
    } else {
      PodsScale(r, target, idle, threshold, k);
      ScaleSum(k, p, q, r);
    }
  }

  lemma ScaleSum(k: nat, p: int, q: int, r: int)
    requires p + q <= r
    ensures k * p + k * q <= k * r
  {
    MulMonotone(p + q, r, k);
    assert (p + q) * k == k * p + k * q;
  }

  lemma LargestPods(r: nat, target: int, idle: int, threshold: int)
    ensures ClosedForm(r, target, idle, threshold).pods <= r
  {
    if !OutOfReach(r, target, idle, threshold) && idle < target {
      LoadWithinBounds(r, target, idle, threshold);
    }
  }

  /** It is not sound for single replicas: this fleet passes with two replicas and not with three. */
  lemma NextReplicaMayFail()
    ensures WithinIdleLimit(2, 50, 5, 95, 50) && !WithinIdleLimit(3, 50, 5, 95, 50)
  {
    assert CeilDiv(2 * 45, 90) == 1 && CeilDiv(3 * 45, 90) == 2;
    assert MinIdlePods(2, 50) == 1 && MinIdlePods(3, 50) == 2;
  }

  /** The share of the fleet to stress and the share to keep idle, at what a fleet of any size can give. */
  predicate SharesFit(target: int, idle: int, threshold: int, minIdlePct: nat) {
    if idle < target <= threshold then
      100 * (target - idle) + minIdlePct * (threshold - idle) <= 100 * (threshold - idle)
    else if idle <= target && threshold < target then minIdlePct == 0
    else minIdlePct < 100
  }

  /** They fit with room for rounding, or need none. */
  predicate SharesFitWithRoom(target: int, idle: int, threshold: int, minIdlePct: nat) {
    if idle < target <= threshold then
      || 100 * (target - idle) + minIdlePct * (threshold - idle) < 100 * (threshold - idle)
      || (target == threshold && minIdlePct == 0)
    else SharesFit(target, idle, threshold, minIdlePct)
  }

  /** Every fleet of `n` replicas or more passes. */
  ghost predicate PassesFrom(n: nat, target: int, idle: int, threshold: int, minIdlePct: nat) {
    forall r: nat :: n <= r ==> WithinIdleLimit(r, target, idle, threshold, minIdlePct)
  }

  /**
   * When "scale the workload up" is sound replica by replica: from some size on every fleet passes, if and
   * only if the shares fit with room for rounding.
   */
  lemma ScalingSettlesIff(target: int, idle: int, threshold: int, minIdlePct: nat)
    ensures (exists n: nat :: PassesFrom(n, target, idle, threshold, minIdlePct))
            <==> SharesFitWithRoom(target, idle, threshold, minIdlePct)
  {
    if SharesFitWithRoom(target, idle, threshold, minIdlePct) {
      var n: nat := 100 * Max(1, threshold - idle) + Max(0, idle - threshold);
      forall r: nat | n <= r ensures WithinIdleLimit(r, target, idle, threshold, minIdlePct) {
        LargeFleetFits(r, target, idle, threshold, minIdlePct);
      }
      assert PassesFrom(n, target, idle, threshold, minIdlePct);
    }
    if n: nat :| PassesFrom(n, target, idle, threshold, minIdlePct) {
      assert WithinIdleLimit(n + 1, target, idle, threshold, minIdlePct);
      PassingFits(n + 1, target, idle, threshold, minIdlePct);
      if !SharesFitWithRoom(target, idle, threshold, minIdlePct) {
        var r := RoundingBites(n, target, idle, threshold, minIdlePct);
      }
    }
  }

  /** When scaling up can help at all: some number of replicas passes exactly when the shares fit. */
  lemma ScalingHelpsIff(target: int, idle: int, threshold: int, minIdlePct: nat)
    ensures (exists r: nat :: 0 < r && WithinIdleLimit(r, target, idle, threshold, minIdlePct))
            <==> SharesFit(target, idle, threshold, minIdlePct)
  {
    if SharesFit(target, idle, threshold, minIdlePct) {
      if idle < target <= threshold {
        LargeFleetPasses(target, idle, threshold, minIdlePct);
      } else {
        LargeFleetFits(100 * Max(1, threshold - idle) + Max(0, idle - threshold), target, idle, threshold, minIdlePct);
      }
    }
    if r: nat :| 0 < r && WithinIdleLimit(r, target, idle, threshold, minIdlePct) {
      PassingFits(r, target, idle, threshold, minIdlePct);
    }
  }

  lemma LargeFleetFits(r: nat, target: int, idle: int, threshold: int, minIdlePct: nat)
    requires SharesFitWithRoom(target, idle, threshold, minIdlePct)
    requires 100 * Max(1, threshold - idle) + Max(0, idle - threshold) <= r
    ensures WithinIdleLimit(r, target, idle, threshold, minIdlePct)
  {
    IdleLimitIff(r, target, idle, threshold, minIdlePct);
    if idle < target <= threshold {
      if target == threshold && minIdlePct == 0 {
        LargestPods(r, target, idle, threshold);
      } else {
        RoomForRounding(r, target - idle, threshold - idle, minIdlePct);
      }
    } else if idle <= target && threshold < target {
      assert r * minIdlePct == 0;
    } else {
      MulMonotone(minIdlePct, 99, r);
      if target < idle {
        MulMonotone(1, idle - target, r);
        assert (idle - target) * r == -(r * (target - idle));
      }
    }
  }

  lemma RoomForRounding(r: nat, a: int, b: int, m: nat)
    requires 0 < a <= b && 100 * a + m * b < 100 * b && 100 * b <= r
    ensures r * m <= 100 * (r - CeilDiv(r * a, b))
  {
    var p := CeilDiv(r * a, b);
    assert 100 * (p * b) <= 100 * (r * a) + 100 * b - 100;
    MulMonotone(100 * a + m * b + 1, 100 * b, r);
    assert (100 * a + m * b + 1) * r == 100 * (r * a) + (r * m) * b + r && (100 * b) * r == (100 * r) * b;
    assert (r * m) * b <= (100 * r - 100 * p) * b;
    if 100 * r - 100 * p < r * m {
      MulStrict(100 * r - 100 * p, r * m, b);
    }
  }

  lemma PassingFits(r: nat, target: int, idle: int, threshold: int, minIdlePct: nat)
    requires 0 < r && WithinIdleLimit(r, target, idle, threshold, minIdlePct)
    ensures SharesFit(target, idle, threshold, minIdlePct)
  {
    IdleLimitIff(r, target, idle, threshold, minIdlePct);
    NothingStressedIff(r, target, idle, threshold);
    if idle < target <= threshold {
      PassingShares(r, target - idle, threshold - idle, minIdlePct, CeilDiv(r * (target - idle), threshold - idle));
    } else if idle <= target && threshold < target {
      if minIdlePct > 0 {
        MulMonotone(1, minIdlePct, r);
      }
    } else if 100 <= minIdlePct {
      MulMonotone(100, minIdlePct, r);
    }
  }

  lemma PassingShares(r: nat, a: int, b: int, m: nat, p: int)
    requires 0 < r && 0 < b && r * a <= p * b && r * m <= 100 * (r - p)
    ensures 100 * a + m * b <= 100 * b
  {
    MulMonotone(r * m, 100 * (r - p), b);
    assert (100 * (r - p)) * b == (100 * b) * r - 100 * (p * b);
    assert (100 * a + m * b) * r == 100 * (r * a) + (r * m) * b;
    if 100 * b < 100 * a + m * b {
      MulStrict(100 * b, 100 * a + m * b, r);
    }
  }

  /** Without room some fleet of any size or more fails: one whose shares do not divide evenly. */
  lemma RoundingBites(n: nat, target: int, idle: int, threshold: int, minIdlePct: nat) returns (r: nat)
    requires SharesFit(target, idle, threshold, minIdlePct) && !SharesFitWithRoom(target, idle, threshold, minIdlePct)
    ensures n <= r && !WithinIdleLimit(r, target, idle, threshold, minIdlePct)
  {
    var a, b := target - idle, threshold - idle;
    if 0 < minIdlePct {
      MulMonotone(1, minIdlePct, b);
    }
    r := n * b + 1;
    MulMonotone(1, b, n);
    var p := CeilDiv(r * a, b);
    NotDivisible(n, a, b, p);
    IdleLimitIff(r, target, idle, threshold, minIdlePct);
    if r * minIdlePct <= 100 * (r - p) {
      UnevenShares(r, a, b, minIdlePct, p);
    }
  }

  lemma UnevenShares(r: nat, a: int, b: int, m: nat, p: int)
    requires 0 < r && 0 < b && r * a < p * b && r * m <= 100 * (r - p)
    ensures 100 * a + m * b < 100 * b
  {
    MulMonotone(r * m, 100 * (r - p), b);
    assert (100 * (r - p)) * b == (100 * b) * r - 100 * (p * b);
    assert (100 * a + m * b) * r == 100 * (r * a) + (r * m) * b;
    if 100 * b <= 100 * a + m * b {
      MulMonotone(100 * b, 100 * a + m * b, r);
    }
  }

  lemma NotDivisible(n: nat, a: int, b: int, p: int)
    requires 0 < a < b && (n * b + 1) * a <= p * b
    ensures (n * b + 1) * a < p * b
  {
    assert (n * b + 1) * a == (n * a) * b + a;
    if p <= n * a {
      MulMonotone(p, n * a, b);
    } else {
      MulMonotone(n * a + 1, p, b);
      assert (n * a + 1) * b == (n * a) * b + b;
    }
  }

  /** A hundred replicas for each point between idle and threshold need no rounding. */
  lemma LargeFleetPasses(target: int, idle: int, threshold: int, minIdlePct: nat)
    requires idle < target <= threshold
    requires 100 * (target - idle) + minIdlePct * (threshold - idle) <= 100 * (threshold - idle)
    ensures WithinIdleLimit(100 * (threshold - idle), target, idle, threshold, minIdlePct)
  {
    var a, b := target - idle, threshold - idle;
    assert (100 * b) * a == (100 * a) * b && (100 * b) * minIdlePct == (minIdlePct * b) * 100;
    CeilOfMultiple(100 * a, b);
    CeilOfMultiple(minIdlePct * b, 100);
  }

  lemma MulStrict(x: int, y: int, r: int)
    requires x < y && 0 < r
    ensures x * r < y * r
  {
    MulMonotone(x + 1, y, r);
    assert (x + 1) * r == x * r + r;
  }
}
