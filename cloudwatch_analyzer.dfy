/** get_api_throttle_events of backend/cost/cloudwatch_analyzer.py: one
    CloudWatch metric query per key service for its throttled API calls over
    the last 24 hours, and the sum of every value returned, or -1 when the
    metric call fails. Metric values are call counts, modelled as natural
    numbers. */
module CloudWatchAnalyzer {
  import opened Aws

  datatype Dimension = Dimension(name: string, value: string)

  /** One entry of `MetricDataQueries`. */
  datatype MetricQuery = MetricQuery(
    id: string, namespace: string, metricName: string, dimensions: seq<Dimension>,
    period: int, stat: string, returnData: bool)

  /** One entry of `MetricDataResults`: its `Values`. */
  datatype MetricResult = MetricResult(values: seq<nat>)

  /** The key services, in the order their queries are numbered. */
  const Services: seq<string> := ["EC2", "S3", "IAM", "RDS", "Lambda"]

  const ErrorSentinel: int := -1
  const LookbackSeconds: int := 24 * 3600

  /** The query for the `i`-th service. */
  function QueryFor(i: nat, service: string): MetricQuery {
    MetricQuery("throttling" + NatText(i), "AWS/Usage", "CallCount",
                [Dimension("Service", service), Dimension("Type", "API"), Dimension("Resource", "ThrottledRequests")],
                86400, "Sum", true)
  }

  /** One query per service, in order, numbered from zero. */
  function ThrottleQueries(services: seq<string>): (r: seq<MetricQuery>)
    ensures |r| == |services|
    ensures forall i :: 0 <= i < |services| ==> r[i] == QueryFor(i, services[i])
  {
    seq(|services|, i requires 0 <= i < |services| => QueryFor(i, services[i]))
  }

  /** The `enumerate` loop that builds the queries. */
  method BuildThrottleQueries(services: seq<string>) returns (queries: seq<MetricQuery>)
    ensures queries == ThrottleQueries(services)
  {
    queries := [];
    var i := 0;
    while i < |services|
      invariant 0 <= i <= |services|
      invariant |queries| == i
      invariant forall j :: 0 <= j < i ==> queries[j] == QueryFor(j, services[j])
    {
      queries := queries + [MetricQuery("throttling" + NatText(i), "AWS/Usage", "CallCount",
                                        [Dimension("Service", services[i]), Dimension("Type", "API"),
                                         Dimension("Resource", "ThrottledRequests")],
                                        86400, "Sum", true)];
      i := i + 1;
    }
  }

  /** Every query counts the calls of its service that were throttled, as a
      daily sum, and asks for its data back. */
  lemma QueriesAsked(services: seq<string>)
    ensures forall i :: 0 <= i < |services| ==>
              var q := ThrottleQueries(services)[i];
              q.namespace == "AWS/Usage" && q.metricName == "CallCount" &&
              Dimension("Service", services[i]) in q.dimensions &&
              Dimension("Resource", "ThrottledRequests") in q.dimensions &&
              q.period == 86400 && q.stat == "Sum" && q.returnData
  {
    forall i | 0 <= i < |services|
      ensures Dimension("Service", services[i]) in ThrottleQueries(services)[i].dimensions &&
              Dimension("Resource", "ThrottledRequests") in ThrottleQueries(services)[i].dimensions
    {
      assert ThrottleQueries(services)[i].dimensions[0] == Dimension("Service", services[i]);
      assert ThrottleQueries(services)[i].dimensions[2] == Dimension("Resource", "ThrottledRequests");
    }
  }

  /** The five queries are numbered throttling0 to throttling4, service by
      service. */
  lemma ServiceQueryIds()
    ensures |ThrottleQueries(Services)| == 5
    ensures ThrottleQueries(Services)[0].id == "throttling0"
    ensures ThrottleQueries(Services)[4].id == "throttling4"
    ensures ThrottleQueries(Services)[4].dimensions[0] == Dimension("Service", "Lambda")
  {
  }

  lemma {:induction false} NatTextLength(n: nat)
    ensures n >= 10 ==> |NatText(n)| >= 2
  {
  }

  /** Different numbers render differently. */
  lemma {:induction false} NatTextInjective(a: nat, b: nat)
    requires NatText(a) == NatText(b)
    ensures a == b
    decreases a
  {
    NatTextLength(a);
    NatTextLength(b);
    if a >= 10 && b >= 10 {
      var ta, tb := NatText(a), NatText(b);
      assert ta[..|ta| - 1] == NatText(a / 10);
      assert tb[..|tb| - 1] == NatText(b / 10);
      NatTextInjective(a / 10, b / 10);
      assert ta[|ta| - 1] == DigitChar(a % 10);
      assert tb[|tb| - 1] == DigitChar(b % 10);
      DigitCharInjective(a % 10, b % 10);
    } else if a < 10 && b < 10 {
      assert NatText(a)[0] == DigitChar(a);
      assert NatText(b)[0] == DigitChar(b);
      DigitCharInjective(a, b);
    }
  }

  lemma DigitCharInjective(a: int, b: int)
    requires 0 <= a < 10 && 0 <= b < 10 && DigitChar(a) == DigitChar(b)
    ensures a == b
  {
  }

  /** No two queries share an Id, however many services there are. */
  lemma QueryIdsDistinct(services: seq<string>)
    ensures forall i, j :: 0 <= i < j < |services| ==> ThrottleQueries(services)[i].id != ThrottleQueries(services)[j].id
  {
    forall i, j | 0 <= i < j < |services|
      ensures ThrottleQueries(services)[i].id != ThrottleQueries(services)[j].id
    {
      var prefix := "throttling";
      if ("throttling" + NatText(i)) == ("throttling" + NatText(j)) {
        assert ("throttling" + NatText(i))[|prefix|..] == NatText(i);
        assert ("throttling" + NatText(j))[|prefix|..] == NatText(j);
        NatTextInjective(i, j);
      }
    }
  }

  // ---------------------------------------------------------------------
  // Summation

  function Sum(values: seq<nat>): nat {
    if values == [] then 0 else Sum(values[..|values| - 1]) + values[|values| - 1]
  }

  /** `throttled_count` after the loop over the results: results without
      values add nothing. */
  function Throttled(results: seq<MetricResult>): nat {
    if results == [] then 0
    else
      var last := results[|results| - 1];
      Throttled(results[..|results| - 1]) + (if last.values != [] then Sum(last.values) else 0)
  }

  /** What get_api_throttle_events returns for the metric call's answer. */
  function ThrottleEvents(answer: ApiResult<seq<MetricResult>>): int {
    match answer
    case Fail(_) => ErrorSentinel
    case Ok(results) => Throttled(results)
  }

  /** `getMetricData(queries, start, end)` is the CloudWatch call. */
  method GetApiThrottleEvents(getMetricData: (seq<MetricQuery>, int, int) -> ApiResult<seq<MetricResult>>, now: int)
    returns (count: int)
    ensures count == ThrottleEvents(getMetricData(ThrottleQueries(Services), now - LookbackSeconds, now))
  {
    var throttledCount: nat := 0;
    var endTime := now;
    var startTime := endTime - 24 * 3600;
    var queries := BuildThrottleQueries(Services);
    var response := getMetricData(queries, startTime, endTime);
    if response.Fail? {
      return -1;
    }
    var results := response.value;
    var i := 0;
    while i < |results|
      invariant 0 <= i <= |results|
      invariant throttledCount == Throttled(results[..i])
    {
      assert results[..i + 1][..i] == results[..i];
      if results[i].values != [] {
        throttledCount := throttledCount + Sum(results[i].values);
      }
      i := i + 1;
    }
    assert results[..i] == results;
    return throttledCount;
  }

  /** -1 exactly when the metric call fails; a count is never negative. */
  lemma ThrottleEventsSentinel(answer: ApiResult<seq<MetricResult>>)
    ensures ThrottleEvents(answer) == ErrorSentinel <==> answer.Fail?
    ensures answer.Ok? ==> ThrottleEvents(answer) >= 0
  {
  }

  /** Every value returned, across all results, in order. */
  function AllValues(results: seq<MetricResult>): seq<nat> {
    if results == [] then [] else results[0].values + AllValues(results[1..])
  }

  lemma {:induction false} SumAppend(a: seq<nat>, b: seq<nat>)
    ensures Sum(a + b) == Sum(a) + Sum(b)
    decreases |b|
  {
    if b != [] {
      assert (a + b)[..|a + b| - 1] == a + b[..|b| - 1];
      SumAppend(a, b[..|b| - 1]);
    } else {
      assert a + b == a;
    }
  }

  /** The count is the sum of every value of every result. */
  lemma {:induction false} ThrottledIsSumOfAllValues(results: seq<MetricResult>)
    ensures Throttled(results) == Sum(AllValues(results))
    decreases |results|
  {
    if results != [] {
      var init := results[..|results| - 1];
      var last := results[|results| - 1];
      ThrottledIsSumOfAllValues(init);
      AllValuesSnoc(init, last);
      assert results == init + [last];
      SumAppend(AllValues(init), last.values);
    }
  }

  lemma {:induction false} AllValuesSnoc(results: seq<MetricResult>, last: MetricResult)
    ensures AllValues(results + [last]) == AllValues(results) + last.values
    decreases |results|
  {
    if results == [] {
      assert [last][1..] == [];
      assert last.values + [] == last.values;
    } else {
      assert (results + [last])[1..] == results[1..] + [last];
      AllValuesSnoc(results[1..], last);
    }
  }
}
