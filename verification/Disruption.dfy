/**
 * Pod disruption: the quantity of src/reslib/schemas/validators.py, the guardrails of
 * src/reslib/guardrails/availability.py and pdb.py that judge it on the workload snapshot, and the
 * deletion and eviction loops of src/reslib/actions/pod.py that carry it out.
 */
module Disruption {
  import opened Wrappers
  import opened Arithmetic
  import opened Sampling

  datatype Mode = Percentage | Absolute

  datatype Pdb = Pdb(minAvailable: Option<nat>, maxUnavailable: Option<nat>)

  /** The scenario template and what the snapshot says about the workload. */
  datatype Plan = Plan(
    endpointDrain: bool, mode: Mode, quantity: nat, minRemaining: nat, ready: nat, pdb: Option<Pdb>)

  datatype Error =
    | InvalidPercentage
    | ExceedsTotal
    | TerminatesAll
    | BelowMinRemaining
    | PdbNotConfigured
    | PdbMaxUnavailable
    | PdbMinAvailable
    | NothingSelected
    | SampleTooLarge
    | ApiError
    | WaitFailed

  /** `QuantitySelection.validate_bounds` and `with_total`. */
  function WithTotal(mode: Mode, amount: nat, total: nat): Result<int, Error> {
    if mode == Percentage then
      if amount > 100 then Err(InvalidPercentage) else Ok(FloorDiv(total * amount, 100))
    else if amount > total then Err(ExceedsTotal)
    else Ok(amount)
  }

  function Disrupted(p: Plan): Result<int, Error> {
    WithTotal(p.mode, p.quantity, p.ready)
  }

  /** `validate_min_remaining_replicas`. */
  function ValidateMinRemaining(p: Plan): Result<(), Error> {
    match Disrupted(p)
    case Err(e) => Err(e)
    case Ok(k) =>
      if p.ready - k <= 0 then Err(TerminatesAll)
      else if p.ready - k < p.minRemaining then Err(BelowMinRemaining)
      else Ok(())
  }

  /** `ensure_pdb_not_violated`. An endpoint drain counts as one pod and needs no PDB. */
  function EnsurePdbNotViolated(p: Plan): Result<(), Error> {
    match p.pdb
    case None => if p.endpointDrain then Ok(()) else Err(PdbNotConfigured)
    case Some(pdb) =>
      match if p.endpointDrain then Ok(1) else Disrupted(p)
      case Err(e) => Err(e)
      case Ok(k) =>
        if pdb.maxUnavailable.Some? && k > pdb.maxUnavailable.value then Err(PdbMaxUnavailable)
        else if pdb.minAvailable.Some? && p.ready - k < pdb.minAvailable.value then Err(PdbMinAvailable)
        else Ok(())
  }

  /** `k` pods are what is asked for of `total`: the amount itself, or the share rounded down. */
  predicate Asked(mode: Mode, amount: nat, total: nat, k: int) {
    match mode
    case Percentage => amount <= 100 && 100 * k <= total * amount < 100 * (k + 1)
    case Absolute => k == amount <= total
  }

  /** The resolved quantity is exactly that. */
  lemma QuantityIff(mode: Mode, amount: nat, total: nat, k: int)
    ensures WithTotal(mode, amount, total) == Ok(k) <==> Asked(mode, amount, total, k)
  {
    if mode == Percentage {
      var q := FloorDiv(total * amount, 100);
      assert q * 100 <= total * amount < (q + 1) * 100;
    }
  }

  /** Taking away `k` of the ready pods keeps every bound of the plan. */
  predicate Safe(p: Plan, k: int) {
    && 0 <= k
    && Max(1, p.minRemaining) <= p.ready - k
    && (p.pdb.Some? && p.pdb.value.minAvailable.Some? ==> p.pdb.value.minAvailable.value <= p.ready - k)
    && (p.pdb.Some? && p.pdb.value.maxUnavailable.Some? ==> k <= p.pdb.value.maxUnavailable.value)
  }

  /** A share of the pods is at most all of them, and all of them only at a hundred percent. */
  lemma QuantityWithinTotal(mode: Mode, amount: nat, total: nat)
    requires WithTotal(mode, amount, total).Ok?
    ensures 0 <= WithTotal(mode, amount, total).value <= total
    ensures mode == Percentage && amount < 100 && 0 < total ==> WithTotal(mode, amount, total).value < total
  {
    if mode == Percentage {
      var k := WithTotal(mode, amount, total).value;
      MulMonotone(amount, 100, total);
      MulMonotone(0, amount, total);
      if amount < 100 && 0 < total {
        MulMonotone(amount, 99, total);
      }
    }
  }

  /** The guardrails pass exactly when there is a quantity, it is safe, and a PDB exists. */
  lemma GuardrailsPassIff(p: Plan)
    requires !p.endpointDrain
    ensures ValidateMinRemaining(p).Ok? && EnsurePdbNotViolated(p).Ok?
            <==> Disrupted(p).Ok? && p.pdb.Some? && Safe(p, Disrupted(p).value)
  {
    if Disrupted(p).Ok? {
      QuantityWithinTotal(p.mode, p.quantity, p.ready);
    }
  }

  /** At least `least` of the ready pods stay, in terms of the request. */
  predicate Leaves(p: Plan, least: nat) {
    match p.mode
    case Percentage => p.ready * p.quantity < 100 * (p.ready - least + 1)
    case Absolute => p.quantity + least <= p.ready
  }

  /** At most `most` pods are taken away, in terms of the request. */
  predicate TakesAtMost(p: Plan, most: nat) {
    match p.mode
    case Percentage => p.ready * p.quantity < 100 * (most + 1)
    case Absolute => p.quantity <= most
  }

  /**
   * When both guardrails pass, in terms of the request and the ready pods alone: a share is at most a hundred
   * percent, at least one pod and the two minima stay, and the maximum of the PDB is kept.
   */
  lemma RequestPassesIff(p: Plan)
    requires !p.endpointDrain
    ensures ValidateMinRemaining(p).Ok? && EnsurePdbNotViolated(p).Ok? <==>
              && (p.mode == Percentage ==> p.quantity <= 100)
              && p.pdb.Some?
              && Leaves(p, 1) && Leaves(p, p.minRemaining)
              && (p.pdb.value.minAvailable.Some? ==> Leaves(p, p.pdb.value.minAvailable.value))
              && (p.pdb.value.maxUnavailable.Some? ==> TakesAtMost(p, p.pdb.value.maxUnavailable.value))
  {
    GuardrailsPassIff(p);
    if Disrupted(p).Ok? {
      QuantityWithinTotal(p.mode, p.quantity, p.ready);
      QuantityIff(p.mode, p.quantity, p.ready, Disrupted(p).value);
    }
  }

  /**
   * Why a plan is rejected. A quantity is refused as taking all replicas exactly when all are asked for:
   * no rounding turns a smaller share into all of them. The PDB is judged on its maximum first.
   */
  lemma RejectionReasons(p: Plan)
    requires 0 < p.quantity
    ensures ValidateMinRemaining(p) == Err(TerminatesAll) <==>
              if p.mode == Percentage then p.quantity == 100 || (p.ready == 0 && p.quantity < 100)
              else p.quantity == p.ready
    ensures ValidateMinRemaining(p) == Err(ExceedsTotal) <==> p.mode == Absolute && p.ready < p.quantity
    ensures ValidateMinRemaining(p) == Err(BelowMinRemaining) <==>
              Disrupted(p).Ok? && 1 <= p.ready - Disrupted(p).value < p.minRemaining
    ensures EnsurePdbNotViolated(p) == Err(PdbMinAvailable) && !p.endpointDrain ==>
              && p.pdb.value.minAvailable.Some? && p.ready - Disrupted(p).value < p.pdb.value.minAvailable.value
              && (p.pdb.value.maxUnavailable.Some? ==> Disrupted(p).value <= p.pdb.value.maxUnavailable.value)
  {
    if Disrupted(p).Ok? {
      QuantityWithinTotal(p.mode, p.quantity, p.ready);
    }
  }

  /** The maximum that the hint of the availability guardrail computes. */
  function RemainingHint(p: Plan): int {
    Max(0, p.ready - p.minRemaining)
  }

  /** The maximum that the hint of the PDB guardrail computes, if there is a minimum. */
  function AvailableHint(pdb: Pdb, ready: nat): int {
    if pdb.minAvailable.Some? then Max(0, ready - pdb.minAvailable.value) else ready
  }

  /** The largest quantity that both hints and the maximum of the PDB leave. */
  function LargestQuantity(p: Plan, pdb: Pdb): int {
    var hinted := Min(RemainingHint(p), AvailableHint(pdb, p.ready));
    if pdb.maxUnavailable.Some? then Min(hinted, pdb.maxUnavailable.value) else hinted
  }

  /**
   * Following the hints: with a PDB, an absolute quantity passes both guardrails if and only if it is at most
   * what the hints leave, and some quantity passes if and only if they leave one pod.
   */
  lemma HintsAreExact(p: Plan, pdb: Pdb)
    requires !p.endpointDrain && p.pdb == Some(pdb) && 0 < p.minRemaining
    ensures forall q: nat :: 0 < q ==> (Guarded(p.(mode := Absolute, quantity := q)) <==> q <= LargestQuantity(p, pdb))
    ensures (exists mode, q: nat :: 0 < q && Takes(p.(mode := mode, quantity := q))) <==> 1 <= LargestQuantity(p, pdb)
  {
    forall q: nat | 0 < q
      ensures Guarded(p.(mode := Absolute, quantity := q)) <==> q <= LargestQuantity(p, pdb)
    {
      GuardrailsPassIff(p.(mode := Absolute, quantity := q));
    }
    if mode, q: nat :| 0 < q && Takes(p.(mode := mode, quantity := q)) {
      GuardrailsPassIff(p.(mode := mode, quantity := q));
    }
    if 1 <= LargestQuantity(p, pdb) {
      assert Takes(p.(mode := Absolute, quantity := 1));
    }
  }

  /** Both guardrails pass, and there is something to disrupt. */
  predicate Takes(p: Plan) {
    Guarded(p) && 0 < Disrupted(p).value
  }

  /**
   * Behind the guardrails, when an action runs to its end: there are enough pods, no request is refused, the
   * wait succeeds, and the share is not less than one pod. A share that rounds down to nothing passes both
   * guardrails and is then refused by the action, whatever pods there are.
   */
  lemma GuardedActionEnds(p: Plan, a: Action)
    requires Guarded(p) && 0 < p.quantity
    ensures Verdict(p, a) == Err(NothingSelected) <==> p.mode == Percentage && p.ready * p.quantity < 100
    ensures Verdict(p, a).Ok? <==>
              && (p.mode == Percentage ==> 100 <= p.ready * p.quantity)
              && Disrupted(p).value <= |a.pods| && Disrupted(p).value <= a.refusedAt && !a.waitFails
  {
    QuantityWithinTotal(p.mode, p.quantity, p.ready);
  }

  /**
   * An endpoint drain passes without a PDB, and with one exactly when one pod fits both bounds; with a ready pod
   * that is the verdict, reason included, on the disruption of one pod.
   */
  lemma DrainCountsAsOne(p: Plan)
    requires p.endpointDrain
    ensures p.pdb.None? ==> EnsurePdbNotViolated(p).Ok?
    ensures p.pdb.Some? ==>
              (EnsurePdbNotViolated(p).Ok? <==>
                && (p.pdb.value.maxUnavailable.Some? ==> 1 <= p.pdb.value.maxUnavailable.value)
                && (p.pdb.value.minAvailable.Some? ==> p.pdb.value.minAvailable.value + 1 <= p.ready))
    ensures p.pdb.Some? && 0 < p.ready ==>
              EnsurePdbNotViolated(p)
              == EnsurePdbNotViolated(p.(endpointDrain := false, mode := Absolute, quantity := 1))
  {
  }

  /** Both guardrails of a disruption pass. */
  predicate Guarded(p: Plan) {
    !p.endpointDrain && ValidateMinRemaining(p).Ok? && EnsurePdbNotViolated(p).Ok?
  }

  /**
   * One run of `terminate_pods` or `evict_pods`: the running pods it lists, those it draws, the number of the
   * request that the API refuses, if there are that many, and whether the wait for the pods to be gone fails.
   */
  datatype Action = Action(pods: seq<string>, drawn: seq<string>, refusedAt: nat, waitFails: bool)

  ghost predicate Draws(p: Plan, a: Action) {
    Disrupted(p).Ok? && 0 < Disrupted(p).value <= |a.pods| ==> IsSample(a.pods, Disrupted(p).value, a.drawn)
  }

  /** How an action ends. */
  function Verdict(p: Plan, a: Action): Result<int, Error> {
    match Disrupted(p)
    case Err(e) => Err(e)
    case Ok(k) =>
      if k <= 0 then Err(NothingSelected)
      else if |a.pods| < k then Err(SampleTooLarge)
      else if a.refusedAt < k then Err(ApiError)
      else if a.waitFails then Err(WaitFailed)
      else Ok(k)
  }

  /** The pods an action disrupts. */
  ghost function Taken(p: Plan, a: Action): seq<string> {
    if Draws(p, a) && Disrupted(p).Ok? && 0 < Disrupted(p).value <= |a.pods|
    then a.drawn[..Min(a.refusedAt, Disrupted(p).value)] else []
  }

  /** Distinct pods of the list, and taking them away keeps every bound of the plan. */
  ghost predicate Harmless(p: Plan, pods: seq<string>, taken: seq<string>) {
    Distinct(taken) && (forall name :: name in taken ==> name in pods) && Safe(p, |taken|)
  }

  /** The pods disrupted so far, in order, and when the last of them was. */
  class Cluster {
    var disrupted: seq<string>
    var lastAt: Option<int>

    constructor ()
      ensures disrupted == [] && lastAt == None
    {
      disrupted, lastAt := [], None;
    }

    /** `build_pod_deletion_task` and `build_pod_eviction_task`: the request, then the time stamp. */
    method Disrupt(name: string, refused: bool, now: int) returns (ok: bool)
      modifies this
      ensures ok == !refused
      ensures if refused then disrupted == old(disrupted) && lastAt == old(lastAt)
              else disrupted == old(disrupted) + [name] && lastAt == Some(now)
    {
      if refused {
        return false;
      }
      disrupted := disrupted + [name];
      lastAt := Some(now);
      ok := true;
    }

    /**
     * `terminate_pods` and `evict_pods`: quantity, selection, the loop that issues the requests one by one, and
     * the outcome of the wait. Behind the guardrails the pods disrupted so far are harmless at every moment of
     * the loop, and so when it is cut short.
     */
    method DisruptPods(p: Plan, a: Action, clock: nat -> int) returns (r: Result<int, Error>)
      requires Draws(p, a)
      modifies this
      ensures r == Verdict(p, a) && disrupted == old(disrupted) + Taken(p, a)
      ensures lastAt == if Taken(p, a) == [] then old(lastAt) else Some(clock(|Taken(p, a)| - 1))
      ensures Guarded(p) && Distinct(a.pods) && old(disrupted) == [] ==> Harmless(p, a.pods, disrupted)
      ensures r.Ok? ==> |disrupted| == |old(disrupted)| + r.value && Asked(p.mode, p.quantity, p.ready, r.value)
    {
      match Disrupted(p) {
        case Err(e) => return Err(e);
        case Ok(k) =>
          if k <= 0 {
            GuardedNone(p);
            return Err(NothingSelected);
          }
          if |a.pods| < k {
            GuardedNone(p);
            return Err(SampleTooLarge);
          }
          var candidates := a.drawn;
          for n := 0 to |candidates|
            invariant n <= a.refusedAt
            invariant disrupted == old(disrupted) + candidates[..n]
            invariant lastAt == if n == 0 then old(lastAt) else Some(clock(n - 1))
            invariant Guarded(p) && Distinct(a.pods) && old(disrupted) == [] ==> Harmless(p, a.pods, disrupted)
          {
            var ok := Disrupt(candidates[n], n == a.refusedAt, clock(n));
            if !ok {
              return Err(ApiError);
            }
            assert old(disrupted) == [] ==> disrupted == candidates[..n + 1];
            PrefixHarmless(p, a, n + 1);
          }
          QuantityIff(p.mode, p.quantity, p.ready, k);
          r := if a.waitFails then Err(WaitFailed) else Ok(k);
      }
    }

    /** One action of a phase; it ends the phase if it fails. */
    method DisruptNext(p: Plan, a: Action, clock: nat -> int) returns (failed: bool)
      requires Draws(p, a)
      modifies this
      ensures disrupted == old(disrupted) + Taken(p, a) && (failed <==> Verdict(p, a).Err?)
    {
      var r := DisruptPods(p, a, clock);
      failed := r.Err?;
    }

    /** The action phase of a scenario with several disruptions: the first that fails ends it. */
    method DisruptSeveral(p: Plan, actions: seq<Action>, clock: nat -> nat -> int)
      requires AllDraw(p, actions)
      modifies this
      ensures disrupted == old(disrupted) + TakenByAll(p, actions)
    {
      for n := 0 to |actions|
        invariant old(disrupted) + TakenByAll(p, actions) == disrupted + Concat(Batches(p, actions, n))
      {
        var failed := DisruptNext(p, actions[n], clock(n));
        NextBatch(p, actions, n);
        if failed {
          return;
        }
      }
    }
  }

  /** Behind the guardrails it is harmless to disrupt nothing. */
  lemma GuardedNone(p: Plan)
    ensures Guarded(p) ==> Safe(p, 0)
  {
    if Guarded(p) {
      GuardrailsPassIff(p);
    }
  }

  /**
   * If both guardrails pass on the snapshot, every prefix of what one disruption action draws is harmless.
   */
  lemma EveryPrefixIsSafe(p: Plan, pods: seq<string>, drawn: seq<string>, n: nat)
    requires Guarded(p)
    requires Distinct(pods) && IsSample(pods, Disrupted(p).value, drawn) && n <= |drawn|
    ensures Harmless(p, pods, drawn[..n])
  {
    GuardrailsPassIff(p);
    SampleIsDistinct(pods, Disrupted(p).value, drawn);
  }

  lemma PrefixHarmless(p: Plan, a: Action, n: nat)
    requires Disrupted(p).Ok? && IsSample(a.pods, Disrupted(p).value, a.drawn) && n <= |a.drawn|
    ensures Guarded(p) && Distinct(a.pods) ==> Harmless(p, a.pods, a.drawn[..n])
  {
    if Guarded(p) && Distinct(a.pods) {
      EveryPrefixIsSafe(p, a.pods, a.drawn, n);
    }
  }

  ghost predicate AllDraw(p: Plan, actions: seq<Action>) {
    forall i :: 0 <= i < |actions| ==> Draws(p, actions[i])
  }

  function Concat(batches: seq<seq<string>>): seq<string> {
    if |batches| == 0 then [] else batches[0] + Concat(batches[1..])
  }

  /** What each of the actions from `n` on disrupts, up to the first that fails. */
  ghost function Batches(p: Plan, actions: seq<Action>, n: nat): seq<seq<string>>
    requires n <= |actions|
    decreases |actions| - n
  {
    if n == |actions| then []
    else [Taken(p, actions[n])] + if Verdict(p, actions[n]).Ok? then Batches(p, actions, n + 1) else []
  }

  /** Each batch is what one of the actions takes. */
  lemma {:induction false} BatchAt(p: Plan, actions: seq<Action>, n: nat, i: nat)
    requires n <= |actions| && i < |Batches(p, actions, n)|
    ensures n + i < |actions| && Batches(p, actions, n)[i] == Taken(p, actions[n + i])
    decreases |actions| - n
  {
    if i > 0 {
      BatchAt(p, actions, n + 1, i - 1);
    }
  }

  lemma BatchesFacts(p: Plan, actions: seq<Action>)
    ensures |Batches(p, actions, 0)| <= |actions|
    ensures forall i :: 0 <= i < |Batches(p, actions, 0)| ==> Batches(p, actions, 0)[i] == Taken(p, actions[i])
  {
    forall i | 0 <= i < |Batches(p, actions, 0)|
      ensures i < |actions| && Batches(p, actions, 0)[i] == Taken(p, actions[i])
    {
      BatchAt(p, actions, 0, i);
    }
    if |Batches(p, actions, 0)| > |actions| {
      BatchAt(p, actions, 0, |actions|);
    }
  }

  lemma {:induction false} AllBatches(p: Plan, actions: seq<Action>, n: nat)
    requires n <= |actions| && forall i :: n <= i < |actions| ==> Verdict(p, actions[i]).Ok?
    ensures |Batches(p, actions, n)| == |actions| - n
    decreases |actions| - n
  {
    if n < |actions| {
      AllBatches(p, actions, n + 1);
    }
  }

  /** The pods a sequence of actions disrupts. */
  ghost function TakenByAll(p: Plan, actions: seq<Action>): seq<string> {
    Concat(Batches(p, actions, 0))
  }

  lemma NextBatch(p: Plan, actions: seq<Action>, n: nat)
    requires n < |actions|
    ensures Concat(Batches(p, actions, n))
            == Taken(p, actions[n]) + if Verdict(p, actions[n]).Ok? then Concat(Batches(p, actions, n + 1)) else []
  {
    assert Batches(p, actions, n)[1..] == if Verdict(p, actions[n]).Ok? then Batches(p, actions, n + 1) else [];
  }

  /** Each action lists distinct pods, none of which an earlier action has disrupted. */
  ghost predicate FreshDraws(p: Plan, actions: seq<Action>) {
    && AllDraw(p, actions)
    && (forall i :: 0 <= i < |actions| ==> Distinct(actions[i].pods))
    && forall i, j :: 0 <= i < j < |actions| ==> Apart(Taken(p, actions[i]), actions[j].pods)
  }

  predicate Apart(a: seq<string>, b: seq<string>) {
    forall name :: name in a ==> name !in b
  }

  /** Batches of distinct names, each from a list without the names of the batches before, are distinct. */
  lemma {:induction false} ConcatDistinct(batches: seq<seq<string>>, lists: seq<seq<string>>)
    requires |batches| <= |lists|
    requires forall i :: 0 <= i < |batches| ==> Distinct(batches[i]) && From(batches[i], lists[i])
    requires forall i, j :: 0 <= i < j < |batches| ==> Apart(batches[i], lists[j])
    ensures Distinct(Concat(batches))
    ensures forall name :: name in Concat(batches) ==> exists i :: 0 <= i < |batches| && name in lists[i]
  {
    if |batches| > 0 {
      var rest := batches[1..];
      ConcatDistinct(rest, lists[1..]);
      forall name | name in Concat(rest) ensures name !in batches[0] {
        var i :| 0 <= i < |rest| && name in lists[1..][i];
        assert Apart(batches[0], lists[i + 1]);
      }
      AppendDistinct(batches[0], Concat(rest));
      forall name | name in Concat(rest) ensures exists i :: 0 <= i < |batches| && name in lists[i] {
        var i :| 0 <= i < |rest| && name in lists[1..][i];
        assert name in lists[i + 1];
      }
      assert forall name :: name in batches[0] ==> name in lists[0];
    }
  }

  predicate From(a: seq<string>, b: seq<string>) {
    forall name :: name in a ==> name in b
  }

  lemma AppendDistinct(a: seq<string>, b: seq<string>)
    requires Distinct(a) && Distinct(b) && Apart(a, b)
    ensures Distinct(a + b)
  {
    var all := a + b;
    forall i, j | 0 <= i < j < |all| ensures all[i] != all[j] {
      assert i < |a| <= j ==> all[i] in a && all[j] in b;
    }
  }

  lemma {:induction false} ConcatLength(batches: seq<seq<string>>, k: nat)
    requires forall i :: 0 <= i < |batches| ==> |batches[i]| <= k
    ensures |Concat(batches)| <= |batches| * k
    ensures (forall i :: 0 <= i < |batches| ==> |batches[i]| == k) ==> |Concat(batches)| == |batches| * k
  {
    if |batches| > 0 {
      ConcatLength(batches[1..], k);
      assert |batches| * k == |batches[1..]| * k + k;
    }
  }

  lemma TakenFacts(p: Plan, a: Action)
    requires Guarded(p) && Draws(p, a) && Distinct(a.pods)
    ensures Harmless(p, a.pods, Taken(p, a)) && |Taken(p, a)| <= Disrupted(p).value
    ensures Verdict(p, a).Ok? ==> |Taken(p, a)| == Disrupted(p).value
  {
    GuardedNone(p);
    QuantityWithinTotal(p.mode, p.quantity, p.ready);
    if 0 < Disrupted(p).value <= |a.pods| {
      EveryPrefixIsSafe(p, a.pods, a.drawn, Min(a.refusedAt, Disrupted(p).value));
    }
  }

  /** The pods taken by several actions are distinct. */
  lemma TakenAreDistinct(p: Plan, actions: seq<Action>)
    requires Guarded(p) && FreshDraws(p, actions)
    ensures Distinct(TakenByAll(p, actions))
  {
    var batches, lists := Batches(p, actions, 0), seq(|actions|, i requires 0 <= i < |actions| => actions[i].pods);
    BatchesFacts(p, actions);
    forall i | 0 <= i < |batches| ensures Distinct(batches[i]) && From(batches[i], lists[i]) {
      TakenFacts(p, actions[i]);
    }
    forall i, j | 0 <= i < j < |batches| ensures Apart(batches[i], lists[j]) {
      assert Apart(Taken(p, actions[i]), actions[j].pods);
    }
    ConcatDistinct(batches, lists);
  }

  /** They are as many as the actions ask for in all, or fewer if one fails. */
  lemma TakenInAll(p: Plan, actions: seq<Action>)
    requires Guarded(p) && FreshDraws(p, actions)
    ensures |TakenByAll(p, actions)| <= |actions| * Disrupted(p).value
    ensures (forall i :: 0 <= i < |actions| ==> Verdict(p, actions[i]).Ok?) ==>
              |TakenByAll(p, actions)| == |actions| * Disrupted(p).value
  {
    var k := Disrupted(p).value;
    QuantityWithinTotal(p.mode, p.quantity, p.ready);
    var batches := Batches(p, actions, 0);
    BatchesFacts(p, actions);
    forall i | 0 <= i < |batches| ensures |batches[i]| <= k && (Verdict(p, actions[i]).Ok? ==> |batches[i]| == k) {
      TakenFacts(p, actions[i]);
    }
    ConcatLength(batches, k);
    if forall i :: 0 <= i < |actions| ==> Verdict(p, actions[i]).Ok? {
      AllBatches(p, actions, 0);
    }
    MulMonotone(|batches|, |actions|, k);
  }

  /** The guarantee is for one action: this plan passes, and two actions with it take away all replicas. */
  lemma TwoActionsMayBeUnsafe() returns (p: Plan, actions: seq<Action>)
    ensures Guarded(p) && |actions| == 2 && FreshDraws(p, actions)
    ensures |TakenByAll(p, actions)| == p.ready
  {
    p := Plan(false, Absolute, 1, 1, 2, Some(Pdb(Some(1), Some(1))));
    actions := [Action(["a"], ["a"], 1, false), Action(["b"], ["b"], 1, false)];
    TakenInAll(p, actions);
  }

  /**
   * Several actions of a scenario, each on whatever pods run by then, keep every bound whatever they draw and
   * wherever they stop, if and only if the guardrails would pass one action with the whole quantity.
   */
  lemma SeveralActionsAreSafeIff(p: Plan, n: nat)
    requires Guarded(p)
    ensures 0 <= n * Disrupted(p).value
    ensures (forall actions :: |actions| == n && FreshDraws(p, actions) ==> Safe(p, |TakenByAll(p, actions)|))
            <==> Guarded(p.(mode := Absolute, quantity := n * Disrupted(p).value))
  {
    QuantityWithinTotal(p.mode, p.quantity, p.ready);
    MulMonotone(0, n, Disrupted(p).value);
    GuardrailsPassIff(p);
    GuardrailsPassIff(p.(mode := Absolute, quantity := n * Disrupted(p).value));
    forall actions | |actions| == n && FreshDraws(p, actions) && Safe(p, n * Disrupted(p).value)
      ensures Safe(p, |TakenByAll(p, actions)|)
    {
      TakenInAll(p, actions);
    }
    if 0 < Disrupted(p).value {
      var actions := CompleteActions(p, n);
      TakenInAll(p, actions);
    }
  }

  /** Pod names told apart by their length. */
  function Numbered(first: nat, k: nat): (names: seq<string>)
    ensures |names| == k && forall j :: 0 <= j < k ==> |names[j]| == first + j
  {
    seq(k, j requires 0 <= j < k => seq(first + j, _ => 'a'))
  }

  /** An action that completes, on a list of new pods. */
  function CompleteAction(k: nat, i: nat): Action {
    Action(Numbered(i * k, k), Numbered(i * k, k), k, false)
  }

  lemma CompletesOn(p: Plan, i: nat)
    requires Disrupted(p).Ok? && 0 < Disrupted(p).value
    ensures var a := CompleteAction(Disrupted(p).value, i);
            && Draws(p, a) && Distinct(a.pods) && Verdict(p, a).Ok?
            && forall name :: name in Taken(p, a) ==> name in a.pods
  {
    NumberedDistinct(i * Disrupted(p).value, Disrupted(p).value);
  }

  /** Actions that all complete. */
  lemma CompleteActions(p: Plan, n: nat) returns (actions: seq<Action>)
    requires Disrupted(p).Ok? && 0 < Disrupted(p).value
    ensures |actions| == n && FreshDraws(p, actions) && forall i :: 0 <= i < n ==> Verdict(p, actions[i]).Ok?
  {
    var k: nat := Disrupted(p).value;
    actions := seq(n, i requires 0 <= i < n => CompleteAction(k, i));
    forall i | 0 <= i < n
      ensures Draws(p, actions[i]) && Distinct(actions[i].pods) && Verdict(p, actions[i]).Ok?
    {
      CompletesOn(p, i);
    }
    forall i, j | 0 <= i < j < n ensures Apart(Taken(p, actions[i]), actions[j].pods) {
      CompletesOn(p, i);
      NumberedApart(i, j, k);
    }
  }

  lemma NumberedDistinct(first: nat, k: nat)
    ensures Distinct(Numbered(first, k))
  {
    var names := Numbered(first, k);
    forall i, j | 0 <= i < j < |names| ensures names[i] != names[j] {
      assert |names[i]| != |names[j]|;
    }
  }

  lemma NumberedApart(i: nat, j: nat, k: nat)
    requires i < j
    ensures Apart(Numbered(i * k, k), Numbered(j * k, k))
  {
    MulMonotone(i + 1, j, k);
    assert (i + 1) * k == i * k + k;
    forall name | name in Numbered(i * k, k) ensures name !in Numbered(j * k, k) {
      assert |name| < i * k + k;
    }
  }
}
