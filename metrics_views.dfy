/**
  `SystemMetricsViewSet.performance_overview` (apps/security/views.py): the
  metrics of the date window, their averages, minima and maxima, and the
  performance status read off the averages.
*/
module MetricsViews {
  import opened Domain
  import opened SecurityViews

  // ---------------------------------------------------------------------
  // Aggregates over one column

  function Sum(xs: seq<real>): real
  {
    if xs == [] then 0.0 else Sum(xs[..|xs| - 1]) + xs[|xs| - 1]
  }

  /** `Min(...)` of a non-empty column. */
  function Least(xs: seq<real>): (m: real)
    requires xs != []
    ensures m in xs && forall k | 0 <= k < |xs| :: m <= xs[k]
  {
    if |xs| == 1 then xs[0]
    else
      var init := xs[..|xs| - 1];
      var m := Least(init);
      assert forall k | 0 <= k < |init| :: init[k] == xs[k];
      if xs[|xs| - 1] < m then xs[|xs| - 1] else m
  }

  /** `Max(...)` of a non-empty column. */
  function Greatest(xs: seq<real>): (m: real)
    requires xs != []
    ensures m in xs && forall k | 0 <= k < |xs| :: xs[k] <= m
  {
    if |xs| == 1 then xs[0]
    else
      var init := xs[..|xs| - 1];
      var m := Greatest(init);
      assert forall k | 0 <= k < |init| :: init[k] == xs[k];
      if xs[|xs| - 1] > m then xs[|xs| - 1] else m
  }

  /** `Avg(...)` of a non-empty column. */
  function Mean(xs: seq<real>): real
    requires xs != []
  {
    Sum(xs) / (|xs| as real)
  }

  /** A sum lies between the length times any lower bound and the length times any upper bound. */
  lemma {:induction false} SumBetween(xs: seq<real>, lo: real, hi: real)
    requires forall k | 0 <= k < |xs| :: lo <= xs[k] <= hi
    ensures (|xs| as real) * lo <= Sum(xs) <= (|xs| as real) * hi
    decreases |xs|
  {
    if xs != [] {
      var init := xs[..|xs| - 1];
      assert forall k | 0 <= k < |init| :: init[k] == xs[k];
      SumBetween(init, lo, hi);
    }
  }

  /** Bounds on every value bound the mean; in particular the minimum, mean and maximum are ordered. */
  lemma MeanBetween(xs: seq<real>, lo: real, hi: real)
    requires xs != []
    requires forall k | 0 <= k < |xs| :: lo <= xs[k] <= hi
    ensures lo <= Mean(xs) <= hi
  {
    SumBetween(xs, lo, hi);
    QuotientBetween(Sum(xs), |xs| as real, lo, hi);
  }

  /** Dividing by a positive count keeps `n * lo <= s <= n * hi` as `lo <= s / n <= hi`. */
  lemma QuotientBetween(s: real, n: real, lo: real, hi: real)
    requires n > 0.0 && n * lo <= s <= n * hi
    ensures lo <= s / n <= hi
  {
    var m := s / n;
    assert m * n == s;
    assert m < lo ==> (lo - m) * n > 0.0;
    assert m > hi ==> (m - hi) * n > 0.0;
  }

  lemma LeastMeanGreatest(xs: seq<real>)
    requires xs != []
    ensures Least(xs) <= Mean(xs) <= Greatest(xs)
  {
    MeanBetween(xs, Least(xs), Greatest(xs));
  }

  // ---------------------------------------------------------------------
  // The overview

  /** The three status words, worst first. */
  datatype PerformanceStatus = Critical | Warning | Good

  /**
    Critical when the average CPU is above 80, memory above 85 or response
    time above 500; else warning above 60, 70 or 300; else good.
  */
  function StatusOf(avgCpu: real, avgMemory: real, avgResponse: real): PerformanceStatus
  {
    if avgCpu > 80.0 || avgMemory > 85.0 || avgResponse > 500.0 then PerformanceStatus.Critical
    else if avgCpu > 60.0 || avgMemory > 70.0 || avgResponse > 300.0 then PerformanceStatus.Warning
    else Good
  }

  /**
    Each status, stated as the thresholds it stands for: good exactly when
    all three averages are within the warning limits, warning exactly when
    within the critical limits but past a warning limit.
  */
  lemma StatusOfTable(c: real, m: real, r: real)
    ensures StatusOf(c, m, r) == PerformanceStatus.Critical <==> c > 80.0 || m > 85.0 || r > 500.0
    ensures StatusOf(c, m, r) == Good <==> c <= 60.0 && m <= 70.0 && r <= 300.0
    ensures StatusOf(c, m, r) == PerformanceStatus.Warning <==>
      && c <= 80.0 && m <= 85.0 && r <= 500.0
      && (c > 60.0 || m > 70.0 || r > 300.0)
  {
  }

  /** The status only gets worse as any average rises. */
  lemma StatusOfMonotone(c: real, m: real, r: real, c': real, m': real, r': real)
    requires c <= c' && m <= m' && r <= r'
    ensures Worse(StatusOf(c', m', r')) >= Worse(StatusOf(c, m, r))
  {
  }

  function Worse(s: PerformanceStatus): nat
  {
    match s
    case Critical => 2
    case Warning => 1
    case Good => 0
  }

  /** The response of `performance_overview`; `status` is absent for an empty window. */
  datatype Overview = Overview(
    avgCpu: real, avgMemory: real, avgResponse: real,
    maxCpu: real, maxMemory: real, maxResponse: real,
    minCpu: real, minMemory: real, minResponse: real,
    dataPoints: nat,
    status: Option<PerformanceStatus>)

  function CpuColumn(ms: seq<Metric>): (xs: seq<real>)
    ensures |xs| == |ms| && forall k | 0 <= k < |ms| :: xs[k] == ms[k].cpu
  {
    seq(|ms|, k requires 0 <= k < |ms| => ms[k].cpu)
  }

  function MemoryColumn(ms: seq<Metric>): (xs: seq<real>)
    ensures |xs| == |ms| && forall k | 0 <= k < |ms| :: xs[k] == ms[k].memory
  {
    seq(|ms|, k requires 0 <= k < |ms| => ms[k].memory)
  }

  function ResponseColumn(ms: seq<Metric>): (xs: seq<real>)
    ensures |xs| == |ms| && forall k | 0 <= k < |ms| :: xs[k] == ms[k].responseTime as real
  {
    seq(|ms|, k requires 0 <= k < |ms| => ms[k].responseTime as real)
  }

  /** The aggregates of the metrics in the window; all zeros and no status when there are none. */
  function OverviewOf(ms: seq<Metric>): Overview
  {
    if ms == [] then Overview(0.0, 0.0, 0.0, 0.0, 0.0, 0.0, 0.0, 0.0, 0.0, 0, None)
    else
      var cpu, memory, response := CpuColumn(ms), MemoryColumn(ms), ResponseColumn(ms);
      Overview(Mean(cpu), Mean(memory), Mean(response),
               Greatest(cpu), Greatest(memory), Greatest(response),
               Least(cpu), Least(memory), Least(response),
               |ms|,
               Some(StatusOf(Mean(cpu), Mean(memory), Mean(response))))
  }

  /**
    An empty window reports zeros and no data points; otherwise every average
    lies between its minimum and maximum, each of which is a value of the
    window, and the status is read off the averages.
  */
  lemma OverviewFacts(ms: seq<Metric>)
    ensures var o := OverviewOf(ms);
      && o.dataPoints == |ms|
      && (ms == [] ==> o.status.None? && o.avgCpu == o.maxCpu == o.minCpu == 0.0
                       && o.avgMemory == o.maxMemory == o.minMemory == 0.0
                       && o.avgResponse == o.maxResponse == o.minResponse == 0.0)
      && (ms != [] ==>
            && o.minCpu <= o.avgCpu <= o.maxCpu
            && o.minMemory <= o.avgMemory <= o.maxMemory
            && o.minResponse <= o.avgResponse <= o.maxResponse
            && (exists k | 0 <= k < |ms| :: ms[k].cpu == o.maxCpu)
            && (exists k | 0 <= k < |ms| :: ms[k].cpu == o.minCpu)
            && o.status == Some(StatusOf(o.avgCpu, o.avgMemory, o.avgResponse)))
  {
    if ms != [] {
      LeastMeanGreatest(CpuColumn(ms));
      LeastMeanGreatest(MemoryColumn(ms));
      LeastMeanGreatest(ResponseColumn(ms));
    }
  }

  /** A window in which every sample is past a critical limit of the same column reports critical. */
  lemma AllHotIsCritical(ms: seq<Metric>)
    requires ms != []
    requires (forall k | 0 <= k < |ms| :: ms[k].cpu > 80.0)
          || (forall k | 0 <= k < |ms| :: ms[k].memory > 85.0)
          || (forall k | 0 <= k < |ms| :: ms[k].responseTime > 500)
    ensures OverviewOf(ms).status == Some(PerformanceStatus.Critical)
  {
    var cpu, memory, response := CpuColumn(ms), MemoryColumn(ms), ResponseColumn(ms);
    LeastMeanGreatest(cpu);
    LeastMeanGreatest(memory);
    LeastMeanGreatest(response);
    if forall k | 0 <= k < |ms| :: ms[k].responseTime > 500 {
      assert Least(response) in response;
    }
  }

  /** A window whose samples are all within the warning limits reports good. */
  lemma AllQuietIsGood(ms: seq<Metric>)
    requires ms != []
    requires forall k | 0 <= k < |ms| :: ms[k].cpu <= 60.0 && ms[k].memory <= 70.0 && ms[k].responseTime <= 300
    ensures OverviewOf(ms).status == Some(Good)
  {
    var cpu, memory, response := CpuColumn(ms), MemoryColumn(ms), ResponseColumn(ms);
    LeastMeanGreatest(cpu);
    LeastMeanGreatest(memory);
    LeastMeanGreatest(response);
    assert Greatest(response) in response;
  }

  /** The metrics whose timestamp the date filter admits, in store order. */
  function InWindow(ms: seq<Metric>, filters: seq<Condition>): (r: seq<Metric>)
    ensures |r| <= |ms|
    ensures forall m | m in r :: m in ms && Admits(filters, m.timestamp)
    ensures forall m | m in ms && Admits(filters, m.timestamp) :: m in r
  {
    if ms == [] then []
    else
      var init := ms[..|ms| - 1];
      var last := ms[|ms| - 1];
      assert ms == init + [last];
      InWindow(init, filters) + (if Admits(filters, last.timestamp) then [last] else [])
  }

  /** `InWindow` keeps every admitted metric as often as the table holds it, and no other metric. */
  lemma {:induction false} InWindowCounts(ms: seq<Metric>, filters: seq<Condition>)
    ensures forall m :: multiset(InWindow(ms, filters))[m] == if Admits(filters, m.timestamp) then multiset(ms)[m] else 0
  {
    if ms != [] {
      var init := ms[..|ms| - 1];
      var last := ms[|ms| - 1];
      assert ms == init + [last];
      InWindowCounts(init, filters);
    }
  }

  /**
    `performance_overview`: the date filter with the 24-hour default, then
    the overview of the metrics it admits.
  */
  method PerformanceOverview(metrics: seq<Metric>, start: DateParam, end: DateParam, now: int)
    returns (o: Overview)
    ensures exists filters: seq<Condition> {:trigger InWindow(metrics, filters)} ::
      && (forall t :: Admits(filters, t) <==>
            && (Supplied(start.raw) && start.parsed.Some? ==> t >= start.parsed.value)
            && (Supplied(end.raw) && end.parsed.Some? ==> t <= end.parsed.value)
            && (!Supplied(start.raw) && !Supplied(end.raw) ==> t >= now - MetricWindow))
      && o == OverviewOf(InWindow(metrics, filters))
  {
    var filters := GetDateFilter(start, end, now, MetricWindow);
    o := OverviewOf(InWindow(metrics, filters));
  }
}
