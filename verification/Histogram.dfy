/** The latency histogram of src/reslib/observers/http.py: sorting, bisection, and mergeability. */
module Histogram {

  /** Bucket bounds in milliseconds. */
  const BOUNDS: seq<int> := [5, 10, 15, 20, 25, 30, 40, 50, 75, 100, 150, 200, 300, 500, 750, 1000, 2000, 5000]

  const LAST := 5000

  /** The names of the buckets: `le_<bound>` and `gt_<bound>`. */
  datatype Bucket = Le(bound: int) | Gt(bound: int)

  type Buckets = map<Bucket, nat>

  predicate IsSorted(s: seq<real>) {
    forall i, j :: 0 <= i < j < |s| ==> s[i] <= s[j]
  }

  function InsertSorted(x: real, s: seq<real>): (r: seq<real>)
    ensures multiset(r) == multiset{x} + multiset(s)
  {
    if |s| == 0 || x <= s[0] then [x] + s
    else
      assert s == [s[0]] + s[1..];
      [s[0]] + InsertSorted(x, s[1..])
  }

  lemma {:induction false} InsertKeepsOrder(x: real, s: seq<real>)
    requires IsSorted(s)
    ensures IsSorted(InsertSorted(x, s))
  {
    if |s| > 0 && s[0] < x {
      InsertKeepsOrder(x, s[1..]);
      InsertStaysAbove(x, s[1..], s[0]);
      PrependKeepsOrder(s[0], InsertSorted(x, s[1..]));
    }
  }

  lemma InsertStaysAbove(x: real, s: seq<real>, low: real)
    requires low <= x && forall i :: 0 <= i < |s| ==> low <= s[i]
    ensures forall i :: 0 <= i < |InsertSorted(x, s)| ==> low <= InsertSorted(x, s)[i]
  {
    var r := InsertSorted(x, s);
    forall i | 0 <= i < |r| ensures low <= r[i] {
      assert r[i] in multiset(r);
      assert r[i] == x || r[i] in s;
    }
  }

  lemma PrependKeepsOrder(low: real, s: seq<real>)
    requires IsSorted(s) && forall i :: 0 <= i < |s| ==> low <= s[i]
    ensures IsSorted([low] + s)
  {
  }

  /** `sorted(latencies)`. */
  function Sorted(s: seq<real>): (r: seq<real>)
    ensures IsSorted(r) && multiset(r) == multiset(s) && |r| == |s|
  {
    if |s| == 0 then []
    else
      assert s == [s[0]] + s[1..];
      var r := InsertSorted(s[0], Sorted(s[1..]));
      InsertKeepsOrder(s[0], Sorted(s[1..]));
      assert |multiset(r)| == |r| && |multiset(s)| == |s|;
      r
  }

  /** How many samples are at most `x`. */
  function CountAtMost(s: seq<real>, x: real): (n: nat)
    ensures n <= |s|
  {
    if |s| == 0 then 0 else (if s[0] <= x then 1 else 0) + CountAtMost(s[1..], x)
  }

  /** How many samples are above `x`. */
  function CountAbove(s: seq<real>, x: real): nat {
    if |s| == 0 then 0 else (if x < s[0] then 1 else 0) + CountAbove(s[1..], x)
  }

  function CountIn(s: seq<real>, b: Bucket): nat {
    match b
    case Le(bound) => CountAtMost(s, bound as real)
    case Gt(bound) => CountAbove(s, bound as real)
  }

  function LeNames(bounds: seq<int>): set<Bucket> {
    set i | 0 <= i < |bounds| :: Le(bounds[i])
  }

  function Names(): set<Bucket> {
    LeNames(BOUNDS) + {Gt(LAST)}
  }

  function LeBuckets(bounds: seq<int>, s: seq<real>): Buckets {
    map b | b in LeNames(bounds) :: CountIn(s, b)
  }

  /** What the histogram of a list of samples is: each bucket counts its samples. */
  function BucketsOf(s: seq<real>): Buckets {
    map b | b in Names() :: CountIn(s, b)
  }

  /** `bisect_right`: where `x` would go to the right of its equals. */
  method BisectRight(a: seq<real>, x: real) returns (k: nat)
    requires IsSorted(a)
    ensures k == CountAtMost(a, x)
  {
    var lo, hi: nat := 0, |a|;
    while lo < hi
      invariant lo <= hi <= |a|
      invariant forall i :: 0 <= i < lo ==> a[i] <= x
      invariant forall i :: hi <= i < |a| ==> x < a[i]
    {
      var mid := (lo + hi) / 2;
      if x < a[mid] {
        hi := mid;
      } else {
        lo := mid + 1;
      }
    }
    SplitCounts(a, x, lo);
    k := lo;
  }

  lemma {:induction false} SplitCounts(a: seq<real>, x: real, k: nat)
    requires k <= |a|
    requires forall i :: 0 <= i < k ==> a[i] <= x
    requires forall i :: k <= i < |a| ==> x < a[i]
    ensures CountAtMost(a, x) == k
  {
    if |a| > 0 {
      SplitCounts(a[1..], x, if k > 0 then k - 1 else 0);
    }
  }

  lemma LeBucketsGrow(bounds: seq<int>, i: nat, s: seq<real>)
    requires i < |bounds|
    ensures LeBuckets(bounds[..i + 1], s)
            == LeBuckets(bounds[..i], s)[Le(bounds[i]) := CountAtMost(s, bounds[i] as real)]
  {
  }

  /** The loop over the bounds, on the sorted samples. */
  method FillCumulative(bounds: seq<int>, sorted: seq<real>) returns (buckets: Buckets)
    requires IsSorted(sorted)
    ensures buckets == LeBuckets(bounds, sorted)
  {
    buckets := map[];
    for i := 0 to |bounds|
      invariant buckets == LeBuckets(bounds[..i], sorted)
    {
      var below := BisectRight(sorted, bounds[i] as real);
      LeBucketsGrow(bounds, i, sorted);
      buckets := buckets[Le(bounds[i]) := below];
    }
    assert bounds[..|bounds|] == bounds;
  }

  /** The loop of the special case: no samples, all zero. */
  method FillZero(bounds: seq<int>) returns (buckets: Buckets)
    ensures buckets == LeBuckets(bounds, [])
  {
    buckets := map[];
    for i := 0 to |bounds|
      invariant buckets == LeBuckets(bounds[..i], [])
    {
      LeBucketsGrow(bounds, i, []);
      buckets := buckets[Le(bounds[i]) := 0];
    }
    assert bounds[..|bounds|] == bounds;
  }

  /** `_build_latency_buckets`. */
  method BuildLatencyBuckets(latencies: seq<real>) returns (buckets: Buckets)
    ensures buckets == BucketsOf(latencies)
  {
    LastBound();
    if |latencies| == 0 {
      buckets := FillZero(BOUNDS);
      buckets := buckets[Gt(LAST) := 0];
      return;
    }
    var sorted := Sorted(latencies);
    buckets := FillCumulative(BOUNDS, sorted);
    CountsAddUp(sorted, LAST as real);
    buckets := buckets[Gt(LAST) := |sorted| - buckets[Le(LAST)]];
    assert buckets == BucketsOf(sorted);
    PermutationInvariant(sorted, latencies);
  }

  /** The buckets, for every list of samples: one for each bound, with the samples up to it, and one for the rest. */
  lemma BucketNames(s: seq<real>)
    ensures var bounds := [5, 10, 15, 20, 25, 30, 40, 50, 75, 100, 150, 200, 300, 500, 750, 1000, 2000, 5000];
            && BucketsOf(s).Keys == (set i | 0 <= i < |bounds| :: Le(bounds[i])) + {Gt(5000)}
            && BucketsOf(s)[Gt(5000)] == CountAbove(s, 5000.0)
            && forall i :: 0 <= i < |bounds| ==>
                 && Le(bounds[i]) in BucketsOf(s)
                 && BucketsOf(s)[Le(bounds[i])] == CountAtMost(s, bounds[i] as real)
  {
  }

  lemma LastBound()
    ensures Le(LAST) in LeNames(BOUNDS)
  {
    assert BOUNDS[|BOUNDS| - 1] == LAST;
  }

  lemma {:induction false} CountsAddUp(s: seq<real>, x: real)
    ensures CountAtMost(s, x) + CountAbove(s, x) == |s|
  {
    if |s| > 0 {
      CountsAddUp(s[1..], x);
    }
  }

  lemma {:induction false} CountConcat(a: seq<real>, b: seq<real>, x: real)
    ensures CountAtMost(a + b, x) == CountAtMost(a, x) + CountAtMost(b, x)
  {
    if |a| == 0 {
      assert a + b == b;
    } else {
      assert (a + b)[1..] == a[1..] + b;
      CountConcat(a[1..], b, x);
    }
  }

  function Without(s: seq<real>, k: nat): seq<real>
    requires k < |s|
  {
    s[..k] + s[k + 1..]
  }

  lemma {:induction false} CountWithout(s: seq<real>, k: nat, x: real)
    requires k < |s|
    ensures CountAtMost(s, x) == CountAtMost(Without(s, k), x) + if s[k] <= x then 1 else 0
  {
    if k > 0 {
      assert Without(s, k)[1..] == Without(s[1..], k - 1);
      CountWithout(s[1..], k - 1, x);
    } else {
      assert Without(s, 0) == s[1..];
    }
  }

  lemma MultisetWithout(s: seq<real>, k: nat)
    requires k < |s|
    ensures multiset(Without(s, k)) == multiset(s) - multiset{s[k]}
  {
    assert s == s[..k] + ([s[k]] + s[k + 1..]);
  }

  /** The counts depend on the samples, not on their order. */
  lemma {:induction false} SamePermutation(a: seq<real>, b: seq<real>, x: real)
    requires multiset(a) == multiset(b)
    ensures CountAtMost(a, x) == CountAtMost(b, x) && |a| == |b|
  {
    assert |multiset(a)| == |a| && |multiset(b)| == |b|;
    if |a| > 0 {
      assert a[0] in multiset(b);
      var k :| 0 <= k < |b| && b[k] == a[0];
      MultisetWithout(a, 0);
      MultisetWithout(b, k);
      SamePermutation(Without(a, 0), Without(b, k), x);
      CountWithout(a, 0, x);
      CountWithout(b, k, x);
    }
  }

  lemma PermutationInvariant(a: seq<real>, b: seq<real>)
    requires multiset(a) == multiset(b)
    ensures BucketsOf(a) == BucketsOf(b)
  {
    forall name | name in Names() ensures CountIn(a, name) == CountIn(b, name) {
      SamePermutation(a, b, name.bound as real);
      CountsAddUp(a, name.bound as real);
      CountsAddUp(b, name.bound as real);
    }
  }

  /** Cumulative: a larger bound counts at least as many samples, and the last two buckets count all. */
  lemma Cumulative(s: seq<real>, i: nat, j: nat)
    requires i <= j < |BOUNDS|
    ensures Le(BOUNDS[i]) in BucketsOf(s) && Le(BOUNDS[j]) in BucketsOf(s)
    ensures BucketsOf(s)[Le(BOUNDS[i])] <= BucketsOf(s)[Le(BOUNDS[j])]
    ensures Le(LAST) in BucketsOf(s) && Gt(LAST) in BucketsOf(s)
    ensures BucketsOf(s)[Le(LAST)] + BucketsOf(s)[Gt(LAST)] == |s|
  {
    CountMonotone(s, BOUNDS[i] as real, BOUNDS[j] as real);
    LastBound();
    CountsAddUp(s, LAST as real);
  }

  lemma {:induction false} CountMonotone(s: seq<real>, x: real, y: real)
    requires x <= y
    ensures CountAtMost(s, x) <= CountAtMost(s, y)
  {
    if |s| > 0 {
      CountMonotone(s[1..], x, y);
    }
  }

  /** What a reducer does with two histograms: add them bucket by bucket. */
  function Merge(a: Buckets, b: Buckets): Buckets {
    map name | name in a && name in b :: a[name] + b[name]
  }

  lemma CountInConcat(a: seq<real>, b: seq<real>, name: Bucket)
    ensures CountIn(a + b, name) == CountIn(a, name) + CountIn(b, name)
  {
    var x := name.bound as real;
    CountConcat(a, b, x);
    CountsAddUp(a, x);
    CountsAddUp(b, x);
    CountsAddUp(a + b, x);
  }

  lemma MergeIsConcat(a: seq<real>, b: seq<real>)
    ensures Merge(BucketsOf(a), BucketsOf(b)) == BucketsOf(a + b)
  {
    var merged, whole := Merge(BucketsOf(a), BucketsOf(b)), BucketsOf(a + b);
    assert merged.Keys == Names() == whole.Keys;
    forall name | name in Names() ensures merged[name] == whole[name] {
      assert merged[name] == CountIn(a, name) + CountIn(b, name);
      CountInConcat(a, b, name);
    }
  }

  function Flatten(intervals: seq<seq<real>>): seq<real> {
    if |intervals| == 0 then [] else intervals[0] + Flatten(intervals[1..])
  }

  function MergeAll(intervals: seq<seq<real>>): Buckets {
    if |intervals| == 0 then BucketsOf([]) else Merge(BucketsOf(intervals[0]), MergeAll(intervals[1..]))
  }

  /** The promised mergeability: merged, the histograms of any number of intervals are that of all their samples. */
  lemma {:induction false} IntervalsMerge(intervals: seq<seq<real>>)
    ensures MergeAll(intervals) == BucketsOf(Flatten(intervals))
  {
    if |intervals| > 0 {
      IntervalsMerge(intervals[1..]);
      MergeIsConcat(intervals[0], Flatten(intervals[1..]));
    }
  }
}
