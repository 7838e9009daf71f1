/**
 * One interval of the HTTP observer, src/reslib/observers/http.py: from the request group to the
 * aggregated payload. Latencies are exact reals.
 */
module HttpInterval {
  import opened Wrappers
  import opened Arithmetic
  import opened Histogram
  import opened TaskGroups
  import opened TimedGroups

  const ERROR_SAMPLE_LIMIT := 20
  const HTTP_ERROR_STATUS_MIN := 500

  datatype Response = Response(status: int, latency: real)

  datatype Error = TransportError(reason: string) | StatusError(status: int)

  type Ended = Outcome<Response, Error>

  /** What the network does with a request. */
  datatype Reply = NoReply(reason: string) | Reply(status: int, latency: real)

  /** `send_timed_request`: `raise_for_status` lets only success statuses through. */
  function SendTimedRequest(reply: Reply): Ended {
    match reply
    case NoReply(reason) => Raised(TransportError(reason))
    case Reply(status, latency) =>
      if 200 <= status < 300 then Value(Response(status, latency)) else Raised(StatusError(status))
  }

  function Responses(ended: seq<Ended>): seq<Response> {
    if |ended| == 0 then []
    else
      var before := Responses(ended[..|ended| - 1]);
      if ended[|ended| - 1].Value? then before + [ended[|ended| - 1].value] else before
  }

  function Errors(ended: seq<Ended>): seq<Error> {
    if |ended| == 0 then []
    else
      var before := Errors(ended[..|ended| - 1]);
      if ended[|ended| - 1].Raised? then before + [ended[|ended| - 1].error] else before
  }

  function LastOf<T>(s: seq<T>, n: nat): seq<T> {
    s[Max(0, |s| - n)..]
  }

  /**
   * `_split_request_results`: the responses, and the last twenty errors of the bounded deque, each in the
   * order of the list; `result()` of a cancelled task raises past the handler.
   */
  method SplitRequestResults(completed: seq<Ended>)
    returns (responses: seq<Response>, samples: seq<Error>, errorCount: nat, escaped: bool)
    ensures escaped <==> exists k :: 0 <= k < |completed| && completed[k].Cancelled?
    ensures !escaped ==> responses == Responses(completed)
    ensures !escaped ==>
              var all := Errors(completed);
              errorCount == |all| && samples == all[|all| - Min(20, |all|)..]
  {
    responses, samples, errorCount, escaped := [], [], 0, false;
    for k := 0 to |completed|
      invariant forall j :: 0 <= j < k ==> !completed[j].Cancelled?
      invariant !escaped && responses == Responses(completed[..k])
      invariant errorCount == |Errors(completed[..k])| && samples == LastOf(Errors(completed[..k]), ERROR_SAMPLE_LIMIT)
    {
      assert completed[..k + 1][..k] == completed[..k];
      match completed[k] {
        case Value(response) =>
          responses := responses + [response];
        case Raised(error) =>
          errorCount := errorCount + 1;
          samples := samples + [error];
          if |samples| > ERROR_SAMPLE_LIMIT {
            samples := samples[1..];
          }
        case Cancelled =>
          escaped := true;
          return;
      }
    }
    assert completed[..|completed|] == completed;
  }

  /** Every completed request is a response or an error. */
  lemma {:induction false} ResponsesAndErrors(ended: seq<Ended>)
    requires forall k :: 0 <= k < |ended| ==> !ended[k].Cancelled?
    ensures |Responses(ended)| + |Errors(ended)| == |ended|
  {
    if |ended| > 0 {
      ResponsesAndErrors(ended[..|ended| - 1]);
    }
  }

  /** The responses of a list, in its order: those of its parts, one for each request that ended with a value. */
  lemma {:induction false} ResponsesInOrder(a: seq<Ended>, b: seq<Ended>)
    ensures Responses(a + b) == Responses(a) + Responses(b)
    ensures |b| == 1 ==> Responses(b) == if b[0].Value? then [b[0].value] else []
  {
    if |b| == 0 {
      assert a + b == a;
    } else {
      var before := b[..|b| - 1];
      assert (a + b)[..|a + b| - 1] == a + before;
      ResponsesInOrder(a, before);
    }
  }

  /** The errors of a list, in its order. */
  lemma {:induction false} ErrorsInOrder(a: seq<Ended>, b: seq<Ended>)
    ensures Errors(a + b) == Errors(a) + Errors(b)
    ensures |b| == 1 ==> Errors(b) == if b[0].Raised? then [b[0].error] else []
  {
    if |b| == 0 {
      assert a + b == a;
    } else {
      var before := b[..|b| - 1];
      assert (a + b)[..|a + b| - 1] == a + before;
      ErrorsInOrder(a, before);
    }
  }

  /** `Counter` of the status codes. */
  function StatusCounts(responses: seq<Response>): map<int, nat> {
    if |responses| == 0 then map[]
    else
      var counts := StatusCounts(responses[..|responses| - 1]);
      var status := responses[|responses| - 1].status;
      counts[status := if status in counts then counts[status] + 1 else 1]
  }

  ghost function Total(counts: map<int, nat>): nat {
    if !exists status :: status in counts then 0
    else
      var status :| status in counts;
      counts[status] + Total(counts - {status})
  }

  lemma {:induction false} TotalWithout(counts: map<int, nat>, status: int)
    requires status in counts
    ensures Total(counts) == counts[status] + Total(counts - {status})
    decreases counts.Keys
  {
    assert status in counts;
    var first :| first in counts && Total(counts) == counts[first] + Total(counts - {first});
    if first != status {
      TotalWithout(counts - {first}, status);
      TotalWithout(counts - {status}, first);
      assert counts - {first} - {status} == counts - {status} - {first};
    }
  }

  function Statuses(responses: seq<Response>): seq<int> {
    seq(|responses|, k requires 0 <= k < |responses| => responses[k].status)
  }

  /** The counts are those of the statuses: a key for each that occurs, with how often it does. */
  ghost predicate CountsStatuses(counts: map<int, nat>, responses: seq<Response>) {
    forall status: int ::
      && (status in counts <==> exists k :: 0 <= k < |responses| && responses[k].status == status)
      && (status in counts ==> counts[status] == multiset(Statuses(responses))[status])
  }

  lemma {:induction false} StatusCountsAre(responses: seq<Response>)
    ensures CountsStatuses(StatusCounts(responses), responses)
  {
    CountsMultiset(responses);
    var statuses := Statuses(responses);
    forall status: int
      ensures status in multiset(statuses) <==> exists k :: 0 <= k < |responses| && responses[k].status == status
    {
      assert status in multiset(statuses) <==> status in statuses;
      assert forall k :: 0 <= k < |responses| ==> statuses[k] == responses[k].status;
    }
  }

  lemma {:induction false} CountsMultiset(responses: seq<Response>)
    ensures forall status: int ::
              && (status in StatusCounts(responses) <==> status in multiset(Statuses(responses)))
              && (status in StatusCounts(responses) ==>
                    StatusCounts(responses)[status] == multiset(Statuses(responses))[status])
  {
    if |responses| > 0 {
      var n := |responses| - 1;
      CountsMultiset(responses[..n]);
      assert Statuses(responses) == Statuses(responses[..n]) + [responses[n].status];
    }
  }

  /** The status counts add up to the responses. */
  lemma {:induction false} StatusCountsTotal(responses: seq<Response>)
    ensures Total(StatusCounts(responses)) == |responses|
  {
    if |responses| > 0 {
      var counts := StatusCounts(responses[..|responses| - 1]);
      var status := responses[|responses| - 1].status;
      StatusCountsTotal(responses[..|responses| - 1]);
      TotalWithout(StatusCounts(responses), status);
      assert StatusCounts(responses) - {status} == counts - {status};
      if status in counts {
        TotalWithout(counts, status);
      } else {
        assert counts - {status} == counts;
      }
    }
  }

  function ServerErrors(responses: seq<Response>): nat {
    if |responses| == 0 then 0
    else ServerErrors(responses[1..]) + if HTTP_ERROR_STATUS_MIN <= responses[0].status then 1 else 0
  }

  /** The count of server errors: that of the parts of a list, one for each status from 500 on. */
  lemma {:induction false} ServerErrorsAdd(a: seq<Response>, b: seq<Response>)
    ensures ServerErrors(a + b) == ServerErrors(a) + ServerErrors(b)
    ensures |a| == 1 ==> ServerErrors(a) == if 500 <= a[0].status then 1 else 0
  {
    if |a| == 0 {
      assert a + b == b;
    } else {
      assert (a + b)[1..] == a[1..] + b;
      ServerErrorsAdd(a[1..], b);
    }
  }

  function Latencies(responses: seq<Response>): seq<real> {
    seq(|responses|, k requires 0 <= k < |responses| => responses[k].latency)
  }

  function Sum(s: seq<real>): real {
    if |s| == 0 then 0.0 else s[0] + Sum(s[1..])
  }

  datatype Range = Range(avg: real, min: real, max: real)

  datatype Measurement = Measurement(
    requestCount: nat, successCount: nat, transportErrors: nat, httpErrors: nat, errorTotal: nat,
    statusCounts: map<int, nat>, latencySum: real, range: Option<Range>, buckets: Buckets)

  function Least(s: seq<real>): (m: real)
    requires 0 < |s|
    ensures m in s && forall k :: 0 <= k < |s| ==> m <= s[k]
  {
    if |s| == 1 then s[0] else var m := Least(s[1..]); if s[0] <= m then s[0] else m
  }

  function Greatest(s: seq<real>): (m: real)
    requires 0 < |s|
    ensures m in s && forall k :: 0 <= k < |s| ==> s[k] <= m
  {
    if |s| == 1 then s[0] else var m := Greatest(s[1..]); if s[0] >= m then s[0] else m
  }

  /** The loop of `Counter`. */
  method CountStatuses(responses: seq<Response>) returns (counts: map<int, nat>)
    ensures counts == StatusCounts(responses)
  {
    counts := map[];
    for k := 0 to |responses|
      invariant counts == StatusCounts(responses[..k])
    {
      assert responses[..k + 1][..k] == responses[..k];
      var status := responses[k].status;
      counts := counts[status := if status in counts then counts[status] + 1 else 1];
    }
    assert responses[..|responses|] == responses;
  }

  /** Sums merge: the sum of two intervals is the sum of their samples. */
  lemma {:induction false} SumsMerge(a: seq<real>, b: seq<real>)
    ensures Sum(a + b) == Sum(a) + Sum(b)
    ensures |a| == 1 ==> Sum(a) == a[0]
  {
    if |a| == 0 {
      assert a + b == b;
    } else {
      assert (a + b)[1..] == a[1..] + b;
      SumsMerge(a[1..], b);
    }
  }

  function Mean(s: seq<real>): real
    requires 0 < |s|
  {
    Sum(s) / |s| as real
  }

  /** The mean is the value that, taken once for each sample, gives the sum. */
  lemma MeanIsShare(s: seq<real>)
    requires 0 < |s|
    ensures Mean(s) * |s| as real == Sum(s)
  {
    var sum, n := Sum(s), |s| as real;
    assert Mean(s) == sum / n;
    TimesCount(sum, n);
  }

  lemma TimesCount(sum: real, n: real)
    requires 0.0 < n
    ensures sum / n * n == sum
  {
  }

  /** The entries that only a non-empty interval has. */
  method MeasureRange(latencies: seq<real>) returns (range: Range)
    requires 0 < |latencies|
    ensures range == Range(Mean(latencies), Least(latencies), Greatest(latencies))
    ensures range.min <= range.avg <= range.max
  {
    range := Range(Mean(latencies), Least(latencies), Greatest(latencies));
    MeanBetween(latencies, Least(latencies), Greatest(latencies));
  }

  /** `_build_measurement`. */
  method BuildMeasurement(responses: seq<Response>, transportErrors: nat) returns (m: Measurement)
    ensures m.successCount == |responses| && m.requestCount == |responses| + transportErrors
    ensures m.transportErrors == transportErrors && m.errorTotal == transportErrors + m.httpErrors
    ensures m.httpErrors == ServerErrors(responses)
    ensures m.statusCounts == StatusCounts(responses)
    ensures m.latencySum == Sum(Latencies(responses)) && m.buckets == BucketsOf(Latencies(responses))
    ensures m.range.Some? <==> 0 < |responses|
    ensures m.range.Some? ==>
              && m.range.value.min == Least(Latencies(responses)) && m.range.value.max == Greatest(Latencies(responses))
              && m.range.value.avg == Mean(Latencies(responses))
              && m.range.value.min <= m.range.value.avg <= m.range.value.max
  {
    var counts := CountStatuses(responses);
    var latencies := Latencies(responses);
    var httpErrors := ServerErrors(responses);
    var range := None;
    if |latencies| > 0 {
      var r := MeasureRange(latencies);
      range := Some(r);
    }
    var buckets := BuildLatencyBuckets(latencies);
    m := Measurement(
      |responses| + transportErrors, |responses|, transportErrors, httpErrors, transportErrors + httpErrors,
      counts, Sum(latencies), range, buckets);
  }

  lemma {:induction false} SumBetween(s: seq<real>, lo: real, hi: real)
    requires forall k :: 0 <= k < |s| ==> lo <= s[k] <= hi
    ensures lo * |s| as real <= Sum(s) <= hi * |s| as real
  {
    if |s| > 0 {
      SumBetween(s[1..], lo, hi);
      Distribute(lo, |s[1..]|);
      Distribute(hi, |s[1..]|);
    }
  }

  lemma Distribute(x: real, n: nat)
    ensures x * (n + 1) as real == x * n as real + x
  {
    assert (n + 1) as real == n as real + 1.0;
  }

  lemma MeanBetween(s: seq<real>, lo: real, hi: real)
    requires 0 < |s| && forall k :: 0 <= k < |s| ==> lo <= s[k] <= hi
    ensures lo <= Mean(s) <= hi
  {
    SumBetween(s, lo, hi);
    QuotientBetween(Sum(s), |s| as real, lo, hi);
  }

  lemma QuotientBetween(sum: real, n: real, lo: real, hi: real)
    requires 0.0 < n && lo * n <= sum <= hi * n
    ensures lo <= sum / n <= hi
  {
  }

  datatype Payload = Payload(measurement: Measurement, isError: bool, error: Option<Error>, errors: Option<seq<Error>>)

  /** `_build_http_metric_payload` on the split results. */
  method BuildPayload(completed: seq<Ended>) returns (p: Option<Payload>)
    ensures p.None? <==> exists k :: 0 <= k < |completed| && completed[k].Cancelled?
    ensures p.Some? ==> Accounts(p.value, completed)
  {
    var responses, samples, errorCount, escaped := SplitRequestResults(completed);
    if escaped {
      return None;
    }
    ResponsesAndErrors(completed);
    StatusCountsTotal(responses);
    StatusCountsAre(responses);
    var m := BuildMeasurement(responses, errorCount);
    p := Some(Payload(
      m, |samples| > 0,
      if |samples| > 0 then Some(samples[0]) else None,
      if |samples| > 0 then Some(samples) else None));
    assert AddsUp(responses) by {
      Cumulative(Latencies(responses), 0, 0);
    }
  }

  predicate AddsUp(responses: seq<Response>) {
    var b := BucketsOf(Latencies(responses));
    Le(LAST) in b && Gt(LAST) in b && b[Le(LAST)] + b[Gt(LAST)] == |responses|
  }

  /** The payload accounts for every request of the interval. */
  ghost predicate Accounts(p: Payload, completed: seq<Ended>) {
    var m := p.measurement;
    && m.requestCount == |completed|
    && m.successCount + m.transportErrors == m.requestCount
    && m.transportErrors == |Errors(completed)|
    && m.errorTotal == m.transportErrors + m.httpErrors
    && CountsStatuses(m.statusCounts, Responses(completed)) && Total(m.statusCounts) == m.successCount
    && m.latencySum == Sum(Latencies(Responses(completed)))
    && m.buckets == BucketsOf(Latencies(Responses(completed)))
    && Le(LAST) in m.buckets && Gt(LAST) in m.buckets
    && m.buckets[Le(LAST)] + m.buckets[Gt(LAST)] == m.successCount
    && (p.isError <==> 0 < |Errors(completed)|)
    && (p.isError ==>
          var all := Errors(completed); var n := Min(20, |all|);
          p.errors == Some(all[|all| - n..]) && p.error == Some(all[|all| - n]))
    && (!p.isError ==> p.errors == None && p.error == None)
  }

  /** The replies that `http_error_count` is meant to count. */
  function ServerErrorReplies(replies: seq<Reply>): nat {
    if |replies| == 0 then 0
    else
      var last := replies[|replies| - 1];
      ServerErrorReplies(replies[..|replies| - 1])
      + if last.Reply? && HTTP_ERROR_STATUS_MIN <= last.status then 1 else 0
  }

  /**
   * `raise_for_status` comes first, so a payload never counts a server error among its responses: the count is
   * zero, and it is the right one exactly when no reply has an error status of the server.
   */
  lemma {:induction false} NoServerErrors(replies: seq<Reply>, ended: seq<Ended>)
    requires |ended| == |replies| && forall k :: 0 <= k < |replies| ==> ended[k] == SendTimedRequest(replies[k])
    ensures ServerErrors(Responses(ended)) == 0
    ensures forall k :: 0 <= k < |Responses(ended)| ==> 200 <= Responses(ended)[k].status < 300
    ensures ServerErrors(Responses(ended)) == ServerErrorReplies(replies)
            <==> forall k :: 0 <= k < |replies| && replies[k].Reply? ==> replies[k].status < 500
  {
    if |ended| > 0 {
      NoServerErrors(replies[..|replies| - 1], ended[..|ended| - 1]);
      NoneAbove(Responses(ended));
    }
  }

  /** How many replies have this status. */
  function RepliesWith(replies: seq<Reply>, status: int): nat {
    if |replies| == 0 then 0
    else
      var last := replies[|replies| - 1];
      RepliesWith(replies[..|replies| - 1], status) + if last.Reply? && last.status == status then 1 else 0
  }

  /** How many are no success: none at all, or another status. */
  function FailedReplies(replies: seq<Reply>): nat {
    if |replies| == 0 then 0
    else
      var last := replies[|replies| - 1];
      FailedReplies(replies[..|replies| - 1]) + if last.Reply? && 200 <= last.status < 300 then 0 else 1
  }

  /** The latencies of the replies with a success status, in their order. */
  function SuccessLatencies(replies: seq<Reply>): seq<real> {
    if |replies| == 0 then []
    else
      var before, last := SuccessLatencies(replies[..|replies| - 1]), replies[|replies| - 1];
      if last.Reply? && 200 <= last.status < 300 then before + [last.latency] else before
  }

  lemma {:induction false} LatenciesOfReplies(replies: seq<Reply>, ended: seq<Ended>)
    requires |ended| == |replies| && forall k :: 0 <= k < |replies| ==> ended[k] == SendTimedRequest(replies[k])
    ensures Latencies(Responses(ended)) == SuccessLatencies(replies)
  {
    if |replies| > 0 {
      LatenciesOfReplies(replies[..|replies| - 1], ended[..|replies| - 1]);
    }
  }

  /**
   * From the replies to the payload: each success status is counted as often as it was answered, no other is, the
   * latencies are those of the successes, and the transport errors are the requests that were not answered with
   * a success.
   */
  lemma RepliesAccounted(replies: seq<Reply>, ended: seq<Ended>, p: Payload)
    requires |ended| == |replies| && forall k :: 0 <= k < |replies| ==> ended[k] == SendTimedRequest(replies[k])
    requires Accounts(p, ended)
    ensures p.measurement.transportErrors == FailedReplies(replies)
    ensures p.measurement.latencySum == Sum(SuccessLatencies(replies))
    ensures p.measurement.buckets == BucketsOf(SuccessLatencies(replies))
    ensures forall status: int ::
              && (status in p.measurement.statusCounts <==> 200 <= status < 300 && 0 < RepliesWith(replies, status))
              && (status in p.measurement.statusCounts ==>
                    p.measurement.statusCounts[status] == RepliesWith(replies, status))
  {
    FailuresCounted(replies, ended);
    LatenciesOfReplies(replies, ended);
    var responses := Responses(ended);
    StatusCountsAre(responses);
    CountsMultiset(responses);
    forall status: int
      ensures multiset(Statuses(responses))[status]
              == if 200 <= status < 300 then RepliesWith(replies, status) else 0
    {
      StatusOfReplies(replies, ended, status);
    }
    forall status: int ensures status in p.measurement.statusCounts <==> status in StatusCounts(responses) {
    }
  }

  lemma {:induction false} FailuresCounted(replies: seq<Reply>, ended: seq<Ended>)
    requires |ended| == |replies| && forall k :: 0 <= k < |replies| ==> ended[k] == SendTimedRequest(replies[k])
    ensures |Errors(ended)| == FailedReplies(replies)
  {
    if |replies| > 0 {
      FailuresCounted(replies[..|replies| - 1], ended[..|replies| - 1]);
    }
  }

  lemma {:induction false} StatusOfReplies(replies: seq<Reply>, ended: seq<Ended>, status: int)
    requires |ended| == |replies| && forall k :: 0 <= k < |replies| ==> ended[k] == SendTimedRequest(replies[k])
    ensures multiset(Statuses(Responses(ended)))[status]
            == if 200 <= status < 300 then RepliesWith(replies, status) else 0
  {
    if |replies| > 0 {
      var n := |replies| - 1;
      StatusOfReplies(replies[..n], ended[..n], status);
      var before := Responses(ended[..n]);
      if ended[n].Value? {
        assert Statuses(before + [ended[n].value]) == Statuses(before) + [ended[n].value.status];
      }
    }
  }

  lemma {:induction false} NoneAbove(responses: seq<Response>)
    requires forall k :: 0 <= k < |responses| ==> responses[k].status < HTTP_ERROR_STATUS_MIN
    ensures ServerErrors(responses) == 0
  {
    if |responses| > 0 {
      NoneAbove(responses[1..]);
    }
  }

  /** The results in the order in which the group lists its tasks. */
  function Completed(natural: seq<Ended>, order: seq<nat>): seq<Ended>
    requires forall k :: 0 <= k < |order| ==> order[k] < |natural|
  {
    seq(|order|, k requires 0 <= k < |order| => natural[order[k]])
  }

  /**
   * From the request group to the payload, over all interleavings: the group returns only when all
   * requests of the interval have ended, and then lists each of them once; otherwise it reports a timeout
   * and the interval has no payload.
   */
  lemma WholeInterval(natural: seq<Ended>, run: seq<Group<Response, Error>>, s: Group<Response, Error>)
    requires Leaves(Config(natural, FirstException, false), run, s)
    ensures match s.phase.exit
            case RaisedBy(_) => false
            case TimedOut(late) => late != {}
            case Returned(order) =>
              && (forall k :: 0 <= k < |order| ==> order[k] < |natural|)
              && RaisedIn(natural, order) == (set i: nat | i < |natural| && natural[i].Raised?)
              && forall p: Payload :: Accounts(p, Completed(natural, order)) ==>
                   && p.measurement.requestCount == |natural|
                   && p.measurement.transportErrors == |RaisedIn(natural, order)|
  {
    ExitVerdict(Config(natural, FirstException, false), run, s);
    if s.phase.exit.Returned? {
      var order := s.phase.exit.order;
      assert forall k :: 0 <= k < |order| ==> order[k] in order;
      ListLength(order, |natural|);
      ErrorsAreRaised(natural, order);
    }
  }

  /**
   * "One metric payload per interval" fails without the timer ever having fired exactly when an interval
   * has at least two requests and one of them ends with an error: the group may then give up on the rest.
   */
  lemma FailedRequestMayEndInterval(natural: seq<Ended>)
    ensures CanTimeOutEarly(Config(natural, FirstException, false))
            <==> 2 <= |natural| && exists i :: 0 <= i < |natural| && natural[i].Raised?
  {
    var cfg := Config(natural, FirstException, false);
    TimeoutWithoutTimer(cfg);
    if i :| 0 <= i < |natural| && natural[i].Raised? {
      assert GivesUpOn(cfg, i);
    }
  }

  /** `_get_request_group_timeout`. */
  function RequestGroupTimeout(requestTimeout: nat, requests: nat): nat {
    Max(requestTimeout, requestTimeout * requests)
  }

  /** The request group of an interval on the clock; `ends[i]` is when request `i` ends if it is left alone. */
  function IntervalPlan(natural: seq<Ended>, ends: seq<int>, requestTimeout: nat, tps: nat): Plan<Response, Error> {
    Plan(Config(natural, FirstException, false), ends, TimerAt(RequestGroupTimeout(requestTimeout, |natural|) * tps))
  }

  /**
   * On the clock, an interval may lose its payload to a timeout if and only if some request has not ended
   * before the timer, or one fails while another has not ended by that tick.
   */
  lemma PayloadLostIff(natural: seq<Ended>, ends: seq<int>, requestTimeout: nat, tps: nat)
    requires 0 < |natural| == |ends| && forall i :: 0 <= i < |ends| ==> 0 <= ends[i]
    requires forall i :: 0 <= i < |natural| ==> !natural[i].Cancelled?
    ensures TimeoutPossible(IntervalPlan(natural, ends, requestTimeout, tps)) <==>
              || (exists i :: 0 <= i < |ends| && requestTimeout * |natural| * tps <= ends[i])
              || (exists f, g :: 0 <= f < |ends| && 0 <= g < |ends| && f != g
                                 && natural[f].Raised? && ends[f] <= ends[g])
  {
    var p := IntervalPlan(natural, ends, requestTimeout, tps);
    MulMonotone(1, |natural|, requestTimeout);
    MulMonotone(0, requestTimeout * |natural|, tps);
    assert p.limit == requestTimeout * |natural| * tps;
    QuietTimeoutIff(p);
    if f, g :| 0 <= f < |ends| && 0 <= g < |ends| && f != g && natural[f].Raised? && ends[f] <= ends[g] {
      assert LeftBehind(p, f, g);
    }
  }

  /** If every request succeeds within its own timeout, no run loses the payload. */
  lemma RequestsInTime(natural: seq<Ended>, ends: seq<int>, requestTimeout: nat, tps: nat)
    requires 0 < |natural| == |ends| && forall i :: 0 <= i < |ends| ==> 0 <= ends[i] < requestTimeout * tps
    requires forall i :: 0 <= i < |natural| ==> natural[i].Value?
    ensures !TimeoutPossible(IntervalPlan(natural, ends, requestTimeout, tps))
  {
    PayloadLostIff(natural, ends, requestTimeout, tps);
    MulMonotone(1, |natural|, requestTimeout);
    MulMonotone(requestTimeout, requestTimeout * |natural|, tps);
  }

  ghost function RaisedIn(natural: seq<Ended>, order: seq<nat>): set<nat> {
    set i: nat | i in order && i < |natural| && natural[i].Raised?
  }

  lemma {:induction false} ErrorsAreRaised(natural: seq<Ended>, order: seq<nat>)
    requires forall k :: 0 <= k < |order| ==> order[k] < |natural|
    requires forall i, j :: 0 <= i < j < |order| ==> order[i] != order[j]
    ensures |Errors(Completed(natural, order))| == |RaisedIn(natural, order)|
  {
    if |order| > 0 {
      var n := |order| - 1;
      var before, last := order[..n], order[n];
      ErrorsAreRaised(natural, before);
      assert Completed(natural, order)[..n] == Completed(natural, before);
      RaisedGrows(natural, before, last);
      assert order == before + [last];
    }
  }

  lemma RaisedGrows(natural: seq<Ended>, before: seq<nat>, last: nat)
    requires last < |natural| && last !in before
    ensures |RaisedIn(natural, before + [last])|
            == |RaisedIn(natural, before)| + if natural[last].Raised? then 1 else 0
  {
    var more := RaisedIn(natural, before + [last]);
    if natural[last].Raised? {
      assert more == RaisedIn(natural, before) + {last};
    } else {
      assert more == RaisedIn(natural, before);
    }
  }

  /** A list of all numbers below `n`, each once, has length `n`. */
  lemma ListLength(order: seq<nat>, n: nat)
    requires forall i: nat :: i < n <==> i in order
    requires forall i, j :: 0 <= i < j < |order| ==> order[i] != order[j]
    ensures |order| == n
  {
    var elements := set i | i in order;
    DistinctSize(order, elements);
    RangeSize(n, elements);
  }

  lemma {:induction false} DistinctSize(order: seq<nat>, elements: set<nat>)
    requires forall i, j :: 0 <= i < j < |order| ==> order[i] != order[j]
    requires forall i: nat :: i in elements <==> i in order
    ensures |elements| == |order|
  {
    if |order| > 0 {
      var before, last := order[..|order| - 1], order[|order| - 1];
      assert order == before + [last] && last !in before;
      DistinctSize(before, elements - {last});
    } else {
      assert elements == {};
    }
  }

  lemma {:induction false} RangeSize(n: nat, elements: set<nat>)
    requires forall i: nat :: i < n <==> i in elements
    ensures |elements| == n
  {
    if n > 0 {
      assert n - 1 in elements;
      RangeSize(n - 1, elements - {n - 1});
    } else {
      assert elements == {};
    }
  }
}
