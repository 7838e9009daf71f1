/**
 * The deadline polling loop `watch_until` of src/reslib/core/watchdog.py.
 *
 * Time is counted in ticks of the clock; the resolution is left open. A condition is
 * any function from the number of the evaluation to what that evaluation takes and gives,
 * so a statement about all conditions covers every behaviour of the cluster.
 */
module Polling {
  import opened Arithmetic

  datatype Verdict<+V, +E> = Falsy | Truthy(value: V) | Raises(error: E)

  datatype Call<+V, +E> = Call(took: nat, verdict: Verdict<V, E>)

  datatype Exit<+V, +E> = Returned(value: V) | Threw(error: E)

  datatype Watch<!V, !E> = Watch(
    start: int, timeout: int, poll: nat, timeoutError: E, condition: nat -> Call<V, E>)
  {
    function Deadline(): int {
      start + timeout
    }

    /** When evaluation `k` has ended, if the loop gets that far. */
    function EndOf(k: nat): int {
      (if k == 0 then start else EndOf(k - 1) + poll) + condition(k).took
    }

    /** Evaluation `k` leaves the loop nothing more to wait for. */
    predicate Settles(k: nat) {
      !condition(k).verdict.Falsy? || Deadline() <= EndOf(k)
    }

    /** `k` is the evaluation the loop ends with. */
    ghost predicate EndsWith(k: nat) {
      Settles(k) && forall j: nat :: j < k ==> !Settles(j)
    }

    function ExitOf(k: nat): Exit<V, E> {
      match condition(k).verdict
      case Truthy(v) => Returned(v)
      case Raises(e) => Threw(e)
      case Falsy => Threw(timeoutError)
    }

    /** The clock moves in every turn of the loop, by the call or by the sleep. */
    ghost predicate ClockMoves() {
      forall k: nat :: 0 < poll + condition(k).took
    }

    /** Every evaluation takes at most `d` ticks. */
    ghost predicate CallsWithin(d: nat) {
      forall k: nat :: condition(k).took <= d
    }
  }

  /**
   * The loop evaluates at least once, ends with the first evaluation that is truthy, raises
   * or ends at or after the deadline, and reports that evaluation.
   */
  method WatchUntil<V, E>(w: Watch<V, E>) returns (exit: Exit<V, E>, at: int, evaluations: nat)
    requires w.ClockMoves()
    ensures 1 <= evaluations && w.EndsWith(evaluations - 1)
    ensures at == w.EndOf(evaluations - 1)
    ensures exit == w.ExitOf(evaluations - 1)
    ensures forall v :: exit == Returned(v) <==> w.condition(evaluations - 1).verdict == Truthy(v)
    ensures forall e :: exit == Threw(e) <==>
              || w.condition(evaluations - 1).verdict == Raises(e)
              || (w.condition(evaluations - 1).verdict.Falsy? && e == w.timeoutError)
  {
    var deadline := w.start + w.timeout;
    at := w.start;
    evaluations := 0;
    while true
      invariant at == if evaluations == 0 then w.start else w.EndOf(evaluations - 1) + w.poll
      invariant forall j: nat :: j < evaluations ==> !w.Settles(j)
      decreases if evaluations == 0 then 1 else 0,
                if evaluations == 0 then 0 else Max(0, deadline + w.poll - at)
    {
      var call := w.condition(evaluations);
      evaluations := evaluations + 1;
      at := at + call.took;
      assert at == w.EndOf(evaluations - 1);
      match call.verdict {
        case Truthy(v) => return Returned(v), at, evaluations;
        case Raises(e) => return Threw(e), at, evaluations;
        case Falsy =>
      }
      if at >= deadline {
        return Threw(w.timeoutError), at, evaluations;
      }
      at := at + w.poll;
    }
  }

  /** Every loop ends, and with one evaluation only. */
  lemma EndExists<V, E>(w: Watch<V, E>) returns (k: nat)
    requires w.ClockMoves()
    ensures w.EndsWith(k)
  {
    var far := Max(0, w.timeout);
    EndsAdvance(w, far);
    assert w.Settles(far);
    k := 0;
    while !w.Settles(k)
      invariant k <= far
      invariant forall j: nat :: j < k ==> !w.Settles(j)
      decreases far - k
    {
      k := k + 1;
    }
  }

  lemma {:induction false} EndsAdvance<V, E>(w: Watch<V, E>, k: nat)
    requires w.ClockMoves()
    ensures w.start + k <= w.EndOf(k)
  {
    if k > 0 {
      EndsAdvance(w, k - 1);
      assert 0 < w.poll + w.condition(k).took;
    }
  }

  lemma {:induction false} SleepsAddUp<V, E>(w: Watch<V, E>, k: nat)
    ensures w.start + k * w.poll <= w.EndOf(k)
  {
    if k > 0 {
      SleepsAddUp(w, k - 1);
      assert k * w.poll == (k - 1) * w.poll + w.poll;
    }
  }

  /** With a positive poll interval the loop evaluates at most ceil(timeout / poll) + 1 times. */
  lemma EvaluationBudget<V, E>(w: Watch<V, E>, k: nat)
    requires 0 < w.poll && w.EndsWith(k)
    ensures k + 1 <= Max(0, CeilDiv(w.timeout, w.poll)) + 1
  {
    if k > 0 {
      SleepsAddUp(w, k - 1);
      assert !w.Settles(k - 1);
      assert (k - 1) * w.poll < w.timeout;
      CeilIsLeast(w.timeout, w.poll, k - 1);
    }
  }

  /** The budget is reached whenever the calls take no time and the loop times out. */
  lemma BudgetIsReached<V, E>(w: Watch<V, E>, k: nat)
    requires 0 < w.poll && w.EndsWith(k)
    requires w.CallsWithin(0) && w.condition(k).verdict.Falsy?
    ensures k == Max(0, CeilDiv(w.timeout, w.poll))
    ensures w.EndOf(k) == w.start + k * w.poll
  {
    EvaluationBudget(w, k);
    InstantEnd(w, k);
    assert w.Deadline() <= w.EndOf(k);
    CeilIsLeast(w.timeout, w.poll, k);
  }

  lemma {:induction false} InstantEnd<V, E>(w: Watch<V, E>, k: nat)
    requires w.CallsWithin(0)
    ensures w.EndOf(k) == w.start + k * w.poll
  {
    assert w.condition(k).took == 0;
    if k > 0 {
      InstantEnd(w, k - 1);
      assert k * w.poll == (k - 1) * w.poll + w.poll;
    }
  }

  /**
   * The timeout is raised only at or after the deadline; and the loop ends less than one sleep
   * and one call after it, unless its very first evaluation already ends it.
   */
  lemma EndIsPrompt<V, E>(w: Watch<V, E>, k: nat, d: nat)
    requires w.EndsWith(k) && w.CallsWithin(d)
    ensures w.condition(k).verdict.Falsy? ==> w.Deadline() <= w.EndOf(k)
    ensures w.EndOf(k) <= w.start + d || w.EndOf(k) < w.Deadline() + w.poll + d
    ensures 0 < w.timeout + w.poll ==> w.EndOf(k) < w.Deadline() + w.poll + d
  {
  }

  /** The number of evaluations that can be over before the deadline, less one. */
  function LastSleep(timeout: int, poll: nat): nat
    requires 0 < timeout && 0 < poll
  {
    FloorDiv(timeout - 1, poll)
  }

  /** When the last of those ends, if all calls take up to `d` ticks but it still misses the deadline. */
  function LastMiss(timeout: int, poll: nat, d: nat): nat
    requires 0 < timeout && 0 < poll
  {
    var q := LastSleep(timeout, poll);
    Min(timeout - 1, q * poll + (q + 1) * d)
  }

  /** The latest time at which a loop with calls of at most `d` can end. */
  function LatestEnd(timeout: int, poll: nat, d: nat): int
    requires 0 < poll
  {
    if timeout <= 0 then d else LastMiss(timeout, poll, d) + poll + d
  }

  lemma {:induction false} CallsAddUp<V, E>(w: Watch<V, E>, k: nat, d: nat)
    requires w.CallsWithin(d)
    ensures w.EndOf(k) <= w.start + k * w.poll + (k + 1) * d
  {
    assert w.condition(k).took <= d;
    if k > 0 {
      CallsAddUp(w, k - 1, d);
      assert k * w.poll == (k - 1) * w.poll + w.poll && (k + 1) * d == k * d + d;
    }
  }

  /** No loop ends later. */
  lemma EndsByLatest<V, E>(w: Watch<V, E>, k: nat, d: nat)
    requires 0 < w.poll && w.EndsWith(k) && w.CallsWithin(d)
    ensures w.EndOf(k) <= w.start + LatestEnd(w.timeout, w.poll, d)
  {
    assert w.condition(k).took <= d;
    if k == 0 {
      assert w.EndOf(0) <= w.start + d;
    } else {
      assert !w.Settles(k - 1);
      SleepsAddUp(w, k - 1);
      CallsAddUp(w, k - 1, d);
      EarlierSleeps(w.timeout, w.poll, d, k - 1);
    }
  }

  lemma EarlierSleeps(timeout: int, poll: nat, d: nat, k: nat)
    requires 0 < poll && k * poll < timeout
    ensures var q := LastSleep(timeout, poll); k * poll + (k + 1) * d <= q * poll + (q + 1) * d
  {
    var q := LastSleep(timeout, poll);
    if q < k {
      MulMonotone(q + 1, k, poll);
    }
    MulMonotone(k, q, poll);
    MulMonotone(k + 1, q + 1, d);
  }

  /** What the calls before the deadline may take in all. */
  function Slack(timeout: int, poll: nat, d: nat): nat
    requires 0 < timeout && 0 < poll
  {
    var q := LastSleep(timeout, poll);
    MulMonotone(0, q + 1, d);
    LastMiss(timeout, poll, d) - q * poll
  }

  /** How long call `n` takes in a loop that is as late as it can be: the first ones, and the last, up to `d`. */
  function LatestCall(timeout: int, poll: nat, d: nat, n: nat): nat
    requires 0 < poll
  {
    if timeout <= 0 || LastSleep(timeout, poll) < n then d else Max(0, Min(d, Slack(timeout, poll, d) - n * d))
  }

  /** A loop with such calls and no answer. */
  ghost predicate IsLatest<V, E>(w: Watch<V, E>, d: nat) {
    && w.start == 0 && 0 < w.poll
    && forall n: nat :: w.condition(n) == Call(LatestCall(w.timeout, w.poll, d, n), Falsy)
  }

  /** The bound is exact: such a loop ends at the latest time. */
  lemma LatestEndIsReached<V, E>(w: Watch<V, E>, d: nat) returns (k: nat)
    requires IsLatest(w, d)
    ensures w.EndsWith(k) && w.EndOf(k) == LatestEnd(w.timeout, w.poll, d)
  {
    if w.timeout <= 0 {
      k := 0;
      assert w.condition(0) == Call(d, Falsy);
    } else {
      var q := LastSleep(w.timeout, w.poll);
      k := q + 1;
      assert w.condition(k) == Call(d, Falsy);
      LateEnds(w, d, q);
      MissThenEnd(w.timeout, w.poll, d);
      Overshoot(w, q);
    }
  }

  /** The last miss is a miss, and the evaluation after it is not. */
  lemma MissThenEnd(timeout: int, poll: nat, d: nat)
    requires 0 < timeout && 0 < poll
    ensures var q := LastSleep(timeout, poll);
            q * poll + Min(Slack(timeout, poll, d), (q + 1) * d) == LastMiss(timeout, poll, d)
    ensures LastMiss(timeout, poll, d) < timeout <= LatestEnd(timeout, poll, d)
  {
    var q := LastSleep(timeout, poll);
    MulMonotone(0, q + 1, d);
    Successor(q, poll);
  }

  /** If all answers so far are empty, a sleep and a call from before the deadline to after it end the loop. */
  lemma Overshoot<V, E>(w: Watch<V, E>, q: nat)
    requires w.EndOf(q) < w.Deadline() <= w.EndOf(q + 1)
    requires forall n: nat :: n <= q ==> w.condition(n).verdict.Falsy?
    ensures w.EndsWith(q + 1)
  {
    forall j: nat | j <= q ensures !w.Settles(j) {
      EndsGrow(w, j, q);
    }
  }

  lemma {:induction false} EndsGrow<V, E>(w: Watch<V, E>, j: nat, k: nat)
    requires j <= k
    ensures w.EndOf(j) <= w.EndOf(k)
  {
    if j < k {
      EndsGrow(w, j, k - 1);
    }
  }

  lemma {:induction false} LateEnds<V, E>(w: Watch<V, E>, d: nat, n: nat)
    requires IsLatest(w, d) && 0 < w.timeout && n <= LastSleep(w.timeout, w.poll)
    ensures w.EndOf(n) == n * w.poll + Min(Slack(w.timeout, w.poll, d), (n + 1) * d)
  {
    var total := Slack(w.timeout, w.poll, d);
    assert w.condition(n).took == Max(0, Min(d, total - n * d));
    Successor(n, d);
    if n > 0 {
      LateEnds(w, d, n - 1);
      Successor(n - 1, w.poll);
    }
  }

  lemma Successor(n: int, x: int)
    ensures (n + 1) * x == n * x + x
  {
  }

  /** A condition that never answers with a truthy value cannot make the loop return. */
  lemma OnlyRaises<V, E>(w: Watch<V, E>, k: nat)
    requires forall j: nat :: !w.condition(j).verdict.Truthy?
    ensures w.ExitOf(k).Threw?
  {
  }
}
