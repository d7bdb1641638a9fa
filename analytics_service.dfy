/**
 * The request tracker inside AnalyticsService
 * (services/orders/features/analytics_service.py): the same per-key
 * records as the metrics store, a per-key view without a p95 field, and a
 * health summary whose status is always 'healthy'.
 */
module AnalyticsService {
  import opened Wrappers
  import opened Dicts
  import opened RequestRecord

  /** One entry of `get_metrics()`; the average is in the store's duration unit. */
  datatype MetricsView = MetricsView(
    totalRequests: nat,
    totalErrors: nat,
    errorRate: real,
    avgResponseTime: real,
    lastAccess: Option<nat>)

  function MetricsViewOf(m: EndpointMetric): (v: MetricsView)
    ensures v.totalRequests == m.count && v.totalErrors == m.errors && v.lastAccess == m.lastAccess
    ensures v.errorRate == Ratio(m.errors, m.count) && v.avgResponseTime == Ratio(m.totalTime, m.count)
    ensures m.errors <= m.count ==> 0.0 <= v.errorRate <= 1.0
  {
    MetricsView(m.count, m.errors, Ratio(m.errors, m.count), Ratio(m.totalTime, m.count), m.lastAccess)
  }

  /** The duration window is kept but never read: the view does not depend on it. */
  lemma ViewIgnoresWindow(m: EndpointMetric, w: seq<nat>)
    ensures MetricsViewOf(m.(responseTimes := w)) == MetricsViewOf(m)
  {
  }

  /** For a record built by any history, the view's rates are over the whole history. */
  lemma MetricsViewOfHistory(h: seq<Sample>)
    requires h != []
    ensures MetricsViewOf(Replay(h)).totalRequests == |h|
    ensures MetricsViewOf(Replay(h)).avgResponseTime == Ratio(SumDurations(h), |h|)
    ensures MetricsViewOf(Replay(h)).errorRate == Ratio(CountErrors(h), |h|)
  {
    ReplaySummary(h);
  }

  /** The view table for a record table: same keys, same order. */
  function MetricsViewsOf(d: Dict<string, EndpointMetric>): (r: Dict<string, MetricsView>)
    requires d.Valid()
    ensures r.Valid() && r.keys == d.keys
    ensures forall k :: k in d.entries ==> k in r.entries && r.entries[k] == MetricsViewOf(d.entries[k])
  {
    MapValues(d, MetricsViewOf)
  }

  /** The status text `get_health_status` reports. */
  const HealthyStatus := "healthy"

  datatype HealthStatus = HealthStatus(
    status: string,
    uptimeSeconds: int,
    totalRequests: nat,
    totalErrors: nat,
    errorRate: real)

  class AnalyticsService {
    /** `self.metrics`, in key insertion order. */
    var metrics: Dict<string, EndpointMetric>
    /** `self.start_time`, read from the clock once, at construction. */
    const startTime: nat
    /** The requests recorded under each key, oldest first. */
    ghost var samples: map<string, seq<Sample>>

    ghost predicate Valid()
      reads this
    {
      Consistent(metrics, samples)
    }

    constructor (now: nat)
      ensures Valid()
      ensures metrics == Empty() && samples == map[] && startTime == now
    {
      metrics := Empty();
      samples := map[];
      startTime := now;
    }

    /** `track_request`: only the record under "method:endpoint" changes. */
    method TrackRequest(endpoint: string, httpMethod: string, statusCode: int, responseTime: nat, now: nat)
      requires Valid()
      modifies this
      ensures Valid()
      ensures var key := Key(httpMethod, endpoint);
        && metrics == Recorded(old(metrics), key, Sample(statusCode, responseTime, now))
        && samples == old(samples)[key := HistoryOf(old(samples), key) + [Sample(statusCode, responseTime, now)]]
      ensures var key := Key(httpMethod, endpoint); var before := RecordOf(old(metrics), key);
        && key in metrics.entries
        && metrics.entries[key].count == before.count + 1
        && metrics.entries[key].totalTime == before.totalTime + responseTime
        && metrics.entries[key].errors == (if statusCode >= 400 then before.errors + 1 else before.errors)
        && metrics.entries[key].errors <= metrics.entries[key].count
        && |metrics.entries[key].responseTimes| <= WindowCapacity
      ensures forall k :: k != Key(httpMethod, endpoint) ==> RecordOf(metrics, k) == RecordOf(old(metrics), k)
      ensures old(metrics.keys) <= metrics.keys
    {
      var key := Key(httpMethod, endpoint);
      var sample := Sample(statusCode, responseTime, now);
      RecordedConsistent(metrics, samples, key, sample);
      RecordedEffect(metrics, key, sample);
      metrics := Recorded(metrics, key, sample);
      samples := samples[key := HistoryOf(samples, key) + [sample]];
      ConsistentBounds(metrics, samples, key);
    }

    /** `get_metrics()`: one view per key, in key order. */
    method GetMetrics() returns (r: Dict<string, MetricsView>)
      requires Valid()
      ensures r == MetricsViewsOf(metrics)
      ensures forall k :: k in r.entries ==> r.entries[k].errorRate <= 1.0
    {
      r := CollectMetrics(metrics);
      forall k | k in r.entries ensures r.entries[k].errorRate <= 1.0 {
        ConsistentBounds(metrics, samples, k);
      }
    }

    /**
     * `get_health_status()` at clock reading `now`: the status is 'healthy'
     * whatever the error counts, and the rate is guarded, so the call never
     * divides by zero.
     */
    method GetHealthStatus(now: nat) returns (h: HealthStatus)
      requires Valid()
      ensures h.status == HealthyStatus
      ensures h.uptimeSeconds == UptimeSeconds(startTime, now)
      ensures h.totalRequests == SumCounts(metrics.Values())
      ensures h.totalErrors == SumErrors(metrics.Values()) <= h.totalRequests
      ensures h.errorRate == Ratio(h.totalErrors, h.totalRequests) <= 1.0
      ensures h.totalRequests == 0 ==> h.errorRate == 0.0
    {
      var values := metrics.Values();
      var totalRequests := SumCounts(values);
      var totalErrors := SumErrors(values);
      forall i | 0 <= i < |values| ensures values[i].errors <= values[i].count {
        ConsistentBounds(metrics, samples, metrics.keys[i]);
      }
      SumErrorsAtMostSumCounts(values);
      h := HealthStatus(HealthyStatus, UptimeSeconds(startTime, now), totalRequests, totalErrors,
                        Ratio(totalErrors, totalRequests));
    }
  }

  /** The loop of `get_metrics`. */
  method CollectMetrics(metrics: Dict<string, EndpointMetric>) returns (result: Dict<string, MetricsView>)
    requires metrics.Valid()
    ensures result == MetricsViewsOf(metrics)
  {
    result := Empty();
    var i := 0;
    while i < |metrics.keys|
      invariant 0 <= i <= |metrics.keys|
      invariant MapsPrefix(metrics, result, i, MetricsViewOf)
    {
      var key := metrics.keys[i];
      MapsPrefixStep(metrics, result, i, MetricsViewOf);
      result := result.Put(key, MetricsViewOf(metrics.entries[key]));
      i := i + 1;
    }
    MapsPrefixAll(metrics, result, MetricsViewOf);
  }
}
