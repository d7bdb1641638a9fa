/**
 * The request-metrics store of services/orders/features/metrics_service.py:
 * a table keyed by "METHOD:endpoint", the derived per-key views, the
 * service-health summary, the Prometheus text rendering, and the status
 * rule of the `track_metrics` decorator.
 */
module MetricsService {
  import opened Wrappers
  import opened Dicts
  import opened Text
  import opened RequestRecord
  import Sorting

  // ---------------------------------------------------------------------
  // Derived view of one record
  // ---------------------------------------------------------------------

  /** `int(n * 0.95)`, which for the window sizes 0..100 is `n * 95 div 100`. */
  function P95Index(n: nat): (k: nat)
    ensures n >= 1 ==> k < n
  {
    n * 95 / 100
  }

  /**
   * `sorted(w)[int(len(w) * 0.95)]`, or 0 for an empty window: the element
   * of rank P95Index(|w|) in ascending order.
   */
  function P95(w: seq<nat>): (p: nat)
    ensures w == [] ==> p == 0
    ensures w != [] ==> p in w
    ensures w != [] ==> Sorting.CountLess(w, p) <= P95Index(|w|) < Sorting.CountAtMost(w, p)
  {
    if w == [] then 0
    else
      Sorting.KthSmallest(w, P95Index(|w|));
      Sorting.SortAsc(w)[P95Index(|w|)]
  }

  /**
   * The view `get_endpoint_metrics` builds for one key. The average is in
   * the store's duration unit (the source scales it to milliseconds and
   * rounds it, which this model leaves out), and so is the p95.
   */
  datatype EndpointView = EndpointView(
    totalRequests: nat,
    totalErrors: nat,
    errorRate: real,
    avgResponseTime: real,
    p95ResponseTime: nat,
    lastAccess: Option<nat>)

  function ViewOf(m: EndpointMetric): (v: EndpointView)
    ensures v.totalRequests == m.count && v.totalErrors == m.errors && v.lastAccess == m.lastAccess
    ensures v.errorRate == Ratio(m.errors, m.count) && v.avgResponseTime == Ratio(m.totalTime, m.count)
    ensures m.errors <= m.count ==> 0.0 <= v.errorRate <= 1.0
    ensures v.p95ResponseTime == P95(m.responseTimes)
  {
    EndpointView(m.count, m.errors, Ratio(m.errors, m.count), Ratio(m.totalTime, m.count),
                 P95(m.responseTimes), m.lastAccess)
  }

  /**
   * For a record built by any history of requests, the average duration
   * and the error rate are taken over the WHOLE history.
   */
  lemma ViewOfHistory(h: seq<Sample>)
    requires h != []
    ensures ViewOf(Replay(h)).avgResponseTime == Ratio(SumDurations(h), |h|)
    ensures ViewOf(Replay(h)).errorRate == Ratio(CountErrors(h), |h|)
  {
    ReplaySummary(h);
  }

  /**
   * The p95 of a record built by any history is the rank-P95Index element
   * of the last (at most 100) durations only: after more than 100 requests
   * it is one of the 100 most recent durations.
   */
  lemma P95OfHistory(h: seq<Sample>)
    requires h != []
    ensures var w := LastN(Durations(h), WindowCapacity);
      && ViewOf(Replay(h)).p95ResponseTime in w
      && Sorting.CountLess(w, ViewOf(Replay(h)).p95ResponseTime) <= P95Index(|w|)
      && P95Index(|w|) < Sorting.CountAtMost(w, ViewOf(Replay(h)).p95ResponseTime)
    ensures |h| > WindowCapacity ==>
      ViewOf(Replay(h)).p95ResponseTime in Durations(h)[|h| - WindowCapacity..]
  {
    ReplaySummary(h);
    var w := LastN(Durations(h), WindowCapacity);
    assert Replay(h).responseTimes == w && w != [];
    if |h| > WindowCapacity {
      assert w == Durations(h)[|h| - WindowCapacity..];
    }
  }

  /** What `get_endpoint_metrics` returns. */
  datatype EndpointQuery =
    | RawRecord(record: Option<EndpointMetric>)   // non-empty filter: a copy of the record, or {} (None)
    | AllViews(views: Dict<string, EndpointView>) // no filter: one derived view per key, in key order

  /** The view table for a record table: same keys, same order. */
  function ViewsOf(d: Dict<string, EndpointMetric>): (r: Dict<string, EndpointView>)
    requires d.Valid()
    ensures r.Valid() && r.keys == d.keys
    ensures forall k :: k in d.entries ==> k in r.entries && r.entries[k] == ViewOf(d.entries[k])
  {
    MapValues(d, ViewOf)
  }

  // ---------------------------------------------------------------------
  // Health summary
  // ---------------------------------------------------------------------

  datatype ServiceStatus = Healthy | Degraded | Unknown

  datatype HealthMetrics = HealthMetrics(
    uptimeSeconds: int,
    totalRequests: nat,
    totalErrors: nat,
    overallErrorRate: real,
    endpointsCount: nat,
    serviceStatus: ServiceStatus)

  /**
   * `'healthy' if total_errors / total_requests < 0.05 else 'degraded' if
   * total_requests > 0 else 'unknown'` as written: the division comes
   * first, so zero requests raise ZeroDivisionError, and the two outer
   * branches are 'healthy' for a rate below 5% and 'degraded' otherwise.
   */
  function StatusAsWritten(totalRequests: nat, totalErrors: nat): (r: Result<ServiceStatus>)
    ensures totalRequests == 0 <==> r == Failure(ZeroDivisionError)
    ensures totalRequests > 0 ==> r == Success(if 20 * totalErrors < totalRequests then Healthy else Degraded)
  {
    if totalRequests == 0 then Failure(ZeroDivisionError)
    else
      var rate := (totalErrors as real) / (totalRequests as real);
      RateBelowThreshold(totalErrors, totalRequests);
      Success(if rate < 0.05 then Healthy else if totalRequests > 0 then Degraded else Unknown)
  }

  lemma RateBelowThreshold(e: nat, n: nat)
    requires n > 0
    ensures (e as real) / (n as real) < 0.05 <==> 20 * e < n
  {
    var rate, nr := (e as real) / (n as real), n as real;
    assert rate * nr == e as real;
    if rate < 0.05 {
      MulStrict(rate, 0.05, nr);
    } else {
      MulMono(0.05, rate, nr);
    }
  }

  lemma MulStrict(a: real, b: real, c: real)
    requires a < b && c > 0.0
    ensures a * c < b * c
  {
  }

  lemma MulMono(a: real, b: real, c: real)
    requires a <= b && c > 0.0
    ensures a * c <= b * c
  {
  }

  /** The 'unknown' state of the as-written rule can never be produced. */
  lemma UnknownNeverProduced(totalRequests: nat, totalErrors: nat)
    ensures StatusAsWritten(totalRequests, totalErrors) != Success(Unknown)
  {
  }

  /**
   * The evidently intended rule: 'unknown' with no requests, otherwise
   * 'healthy' exactly when fewer than 5% of requests failed.
   */
  function ServiceStatusOf(totalRequests: nat, totalErrors: nat): (s: ServiceStatus)
    ensures s == Unknown <==> totalRequests == 0
    ensures s == Healthy <==> totalRequests > 0 && 20 * totalErrors < totalRequests
    ensures s == Degraded <==> totalRequests > 0 && 20 * totalErrors >= totalRequests
  {
    if totalRequests == 0 then Unknown
    else
      RateBelowThreshold(totalErrors, totalRequests);
      if (totalErrors as real) / (totalRequests as real) < 0.05 then Healthy else Degraded
  }

  /** The intended rule agrees with the written one wherever the written one returns. */
  lemma StatusAgreesWhenDefined(totalRequests: nat, totalErrors: nat)
    requires totalRequests > 0
    ensures StatusAsWritten(totalRequests, totalErrors) == Success(ServiceStatusOf(totalRequests, totalErrors))
  {
  }

  // ---------------------------------------------------------------------
  // Prometheus text
  // ---------------------------------------------------------------------

  /** `method="<METHOD>",endpoint="<endpoint>"`; label values are not escaped. */
  function Labels(httpMethod: string, path: string): string {
    "method=\"" + httpMethod + "\",endpoint=\"" + path + "\""
  }

  /** `# HELP <name> <text>` and `# TYPE <name> <kind>` comment lines. */
  function HelpLine(name: string, text: string): string {
    "# HELP " + name + " " + text
  }

  function TypeLine(name: string, kind: string): string {
    "# TYPE " + name + " " + kind
  }

  /** `<name>{<labels>} <value>`. */
  function SampleLine(name: string, labels: string, value: string): string {
    name + "{" + labels + "} " + value
  }

  const UptimeName := "service_uptime_seconds"
  const UptimeHelp := "Service uptime in seconds"
  const RequestsName := "http_requests_total"
  const RequestsHelp := "Total number of HTTP requests"
  const ErrorsName := "http_errors_total"
  const ErrorsHelp := "Total number of HTTP errors"
  const DurationName := "http_request_duration_seconds"
  const DurationHelp := "Average request duration"

  function UptimeLines(uptime: real, formatFloat: real -> string): seq<string> {
    [ HelpLine(UptimeName, UptimeHelp),
      TypeLine(UptimeName, "counter"),
      UptimeName + " " + formatFloat(uptime) ]
  }

  /** The printed average: a float when count > 0, the int 0 otherwise. */
  function AverageText(m: EndpointMetric, formatFloat: real -> string): string {
    if m.count > 0 then formatFloat(Ratio(m.totalTime, m.count) / (UnitsPerSecond as real)) else "0"
  }

  /** The nine lines rendered for one key; HELP and TYPE are repeated for every key. */
  function KeyLines(key: string, m: EndpointMetric, formatFloat: real -> string): (lines: seq<string>)
    requires ':' in key
    ensures |lines| == 9
  {
    var (httpMethod, path) := SplitOnce(key, ':');
    var labels := Labels(httpMethod, path);
    [ HelpLine(RequestsName, RequestsHelp),
      TypeLine(RequestsName, "counter"),
      SampleLine(RequestsName, labels, NatToString(m.count)),
      HelpLine(ErrorsName, ErrorsHelp),
      TypeLine(ErrorsName, "counter"),
      SampleLine(ErrorsName, labels, NatToString(m.errors)),
      HelpLine(DurationName, DurationHelp),
      TypeLine(DurationName, "gauge"),
      SampleLine(DurationName, labels, AverageText(m, formatFloat)) ]
  }

  ghost predicate Renderable(d: Dict<string, EndpointMetric>, ks: seq<string>) {
    forall i :: 0 <= i < |ks| ==> ks[i] in d.entries && ':' in ks[i]
  }

  /** The nine-line block of each key of `ks`, in that order. */
  function KeyBlocks(d: Dict<string, EndpointMetric>, ks: seq<string>, formatFloat: real -> string)
    : (bs: seq<seq<string>>)
    requires Renderable(d, ks)
    ensures |bs| == |ks|
    ensures forall i :: 0 <= i < |ks| ==> bs[i] == KeyLines(ks[i], d.entries[ks[i]], formatFloat)
    ensures forall i :: 0 <= i < |bs| ==> |bs[i]| == 9
  {
    seq(|ks|, i requires 0 <= i < |ks| => KeyLines(ks[i], d.entries[ks[i]], formatFloat))
  }

  /** All lines of the exposition: the uptime block, then one block per key in key order. */
  function PrometheusLines(uptime: real, d: Dict<string, EndpointMetric>, formatFloat: real -> string): seq<string>
    requires Renderable(d, d.keys)
  {
    UptimeLines(uptime, formatFloat) + Flatten(KeyBlocks(d, d.keys, formatFloat))
  }

  /** Nine lines per key. */
  lemma KeyBlocksLength(d: Dict<string, EndpointMetric>, ks: seq<string>, formatFloat: real -> string)
    requires Renderable(d, ks)
    ensures |Flatten(KeyBlocks(d, ks, formatFloat))| == 9 * |ks|
  {
    var bs := KeyBlocks(d, ks, formatFloat);
    FlattenLength(bs, 9);
  }

  /** The block of the i-th key sits at position 9 * i. */
  lemma KeyBlockAt(d: Dict<string, EndpointMetric>, ks: seq<string>, formatFloat: real -> string, i: nat)
    requires Renderable(d, ks) && i < |ks|
    ensures |Flatten(KeyBlocks(d, ks, formatFloat))| == 9 * |ks|
    ensures Flatten(KeyBlocks(d, ks, formatFloat))[9 * i .. 9 * i + 9] == KeyLines(ks[i], d.entries[ks[i]], formatFloat)
  {
    var bs := KeyBlocks(d, ks, formatFloat);
    FlattenBlockAt(bs, 9, i);
  }

  /** Lines 2 and 5 of a key's block are its request and error samples. */
  lemma KeySamples(k: string, m: EndpointMetric, formatFloat: real -> string)
    requires ':' in k
    ensures var (httpMethod, path) := SplitOnce(k, ':');
      && KeyLines(k, m, formatFloat)[2] == SampleLine(RequestsName, Labels(httpMethod, path), NatToString(m.count))
      && KeyLines(k, m, formatFloat)[5] == SampleLine(ErrorsName, Labels(httpMethod, path), NatToString(m.errors))
  {
  }

  /**
   * The exposition has exactly 3 + 9 * (number of keys) lines; the value
   * lines of key i carry that key's labels and its count and error count.
   */
  lemma PrometheusShape(uptime: real, d: Dict<string, EndpointMetric>, formatFloat: real -> string, i: nat)
    requires Renderable(d, d.keys) && i < |d.keys|
    ensures |PrometheusLines(uptime, d, formatFloat)| == 3 + 9 * |d.keys|
    ensures var lines, k := PrometheusLines(uptime, d, formatFloat), d.keys[i];
      var (m, path) := SplitOnce(k, ':');
      && lines[3 + 9 * i + 2] == SampleLine(RequestsName, Labels(m, path), NatToString(d.entries[k].count))
      && lines[3 + 9 * i + 5] == SampleLine(ErrorsName, Labels(m, path), NatToString(d.entries[k].errors))
  {
    KeyBlockAt(d, d.keys, formatFloat, i);
    var pre := UptimeLines(uptime, formatFloat);
    var blocks := Flatten(KeyBlocks(d, d.keys, formatFloat));
    var k := d.keys[i];
    var blk := KeyLines(k, d.entries[k], formatFloat);
    BlockIndex(pre, blocks, 9 * i, blk, 2);
    BlockIndex(pre, blocks, 9 * i, blk, 5);
    KeySamples(k, d.entries[k], formatFloat);
  }

  /** With an empty table only the three uptime lines are rendered. */
  lemma PrometheusOfEmpty(uptime: real, formatFloat: real -> string)
    ensures PrometheusLines(uptime, Empty(), formatFloat) == UptimeLines(uptime, formatFloat)
  {
  }

  /** The labels of a key recover the method and endpoint it was built from. */
  lemma LabelsRecoverKey(httpMethod: string, endpoint: string)
    requires ':' !in httpMethod
    ensures SplitOnce(Key(httpMethod, endpoint), ':') == (httpMethod, endpoint)
  {
    SplitOnceOfJoined(httpMethod, ':', endpoint);
  }

  /** None of the fixed names and texts of the exposition contains a newline. */
  lemma FixedTextsNoNewline()
    ensures '\n' !in UptimeName && '\n' !in UptimeHelp
    ensures '\n' !in RequestsName && '\n' !in RequestsHelp
    ensures '\n' !in ErrorsName && '\n' !in ErrorsHelp
    ensures '\n' !in DurationName && '\n' !in DurationHelp
  {
    forall i | 0 <= i < |UptimeName| ensures UptimeName[i] != '\n' { }
    forall i | 0 <= i < |UptimeHelp| ensures UptimeHelp[i] != '\n' { }
    forall i | 0 <= i < |RequestsName| ensures RequestsName[i] != '\n' { }
    forall i | 0 <= i < |RequestsHelp| ensures RequestsHelp[i] != '\n' { }
    forall i | 0 <= i < |ErrorsName| ensures ErrorsName[i] != '\n' { }
    forall i | 0 <= i < |ErrorsHelp| ensures ErrorsHelp[i] != '\n' { }
    forall i | 0 <= i < |DurationName| ensures DurationName[i] != '\n' { }
    forall i | 0 <= i < |DurationHelp| ensures DurationHelp[i] != '\n' { }
  }

  lemma BuildersNoNewline(name: string, text: string, labels: string)
    requires '\n' !in name && '\n' !in text && '\n' !in labels
    ensures '\n' !in HelpLine(name, text) && '\n' !in TypeLine(name, text)
    ensures '\n' !in SampleLine(name, labels, text)
  {
  }

  lemma LabelsNoNewline(httpMethod: string, path: string)
    requires '\n' !in httpMethod && '\n' !in path
    ensures '\n' !in Labels(httpMethod, path)
  {
  }

  lemma KeyLinesNoNewline(k: string, m: EndpointMetric, formatFloat: real -> string)
    requires ':' in k && '\n' !in k
    requires forall x: real :: '\n' !in formatFloat(x)
    ensures forall j :: 0 <= j < 9 ==> '\n' !in KeyLines(k, m, formatFloat)[j]
  {
    var (httpMethod, path) := SplitOnce(k, ':');
    var ix := FirstIndex(k, ':');
    assert httpMethod == k[..ix] && path == k[ix + 1..];
    var labels := Labels(httpMethod, path);
    LabelsNoNewline(httpMethod, path);
    FixedTextsNoNewline();
    var count, errors, avg := NatToString(m.count), NatToString(m.errors), AverageText(m, formatFloat);
    assert '\n' !in count && '\n' !in errors && '\n' !in avg;
    BuildersNoNewline(RequestsName, RequestsHelp, labels);
    BuildersNoNewline(RequestsName, "counter", labels);
    BuildersNoNewline(RequestsName, count, labels);
    BuildersNoNewline(ErrorsName, ErrorsHelp, labels);
    BuildersNoNewline(ErrorsName, "counter", labels);
    BuildersNoNewline(ErrorsName, errors, labels);
    BuildersNoNewline(DurationName, DurationHelp, labels);
    BuildersNoNewline(DurationName, "gauge", labels);
    BuildersNoNewline(DurationName, avg, labels);
  }

  /**
   * The text is the lines joined by "\n" without a trailing newline: a
   * scraper splitting it at newlines gets the lines back, provided no key
   * and no printed float contains a newline.
   */
  lemma PrometheusTextSplits(uptime: real, d: Dict<string, EndpointMetric>, formatFloat: real -> string)
    requires Renderable(d, d.keys)
    requires forall i :: 0 <= i < |d.keys| ==> '\n' !in d.keys[i]
    requires forall x: real :: '\n' !in formatFloat(x)
    ensures Split(Join("\n", PrometheusLines(uptime, d, formatFloat)), '\n') == PrometheusLines(uptime, d, formatFloat)
  {
    var lines := PrometheusLines(uptime, d, formatFloat);
    var bs := KeyBlocks(d, d.keys, formatFloat);
    forall j | 0 <= j < |lines| ensures '\n' !in lines[j] {
      if j < 3 {
        FixedTextsNoNewline();
        assert '\n' !in formatFloat(uptime);
      } else {
        var line := lines[j];
        assert line == Flatten(bs)[j - 3];
        FlattenMember(bs, line);
        var i :| 0 <= i < |bs| && line in bs[i];
        KeyLinesNoNewline(d.keys[i], d.entries[d.keys[i]], formatFloat);
      }
    }
    SplitJoin(lines, '\n');
  }

  // ---------------------------------------------------------------------
  // The store
  // ---------------------------------------------------------------------

  class MetricsStore {
    /** `self.metrics`: the defaultdict of records, in key insertion order. */
    var metrics: Dict<string, EndpointMetric>
    /** `self.start_time`, read from the clock once, at construction. */
    const startTime: nat
    /** The requests recorded under each key, oldest first. */
    ghost var samples: map<string, seq<Sample>>

    ghost predicate Valid()
      reads this
    {
      Consistent(metrics, samples)
    }

    constructor (now: nat)
      ensures Valid()
      ensures metrics == Empty() && samples == map[] && startTime == now
    {
      metrics := Empty();
      samples := map[];
      startTime := now;
    }

    /**
     * `track_request(endpoint, method, status_code, response_time)` with
     * the clock reading `now`: only the record under "method:endpoint"
     * changes (it is created first if absent).
     */
    method TrackRequest(endpoint: string, httpMethod: string, statusCode: int, responseTime: nat, now: nat)
      requires Valid()
      modifies this
      ensures Valid()
      ensures var key := Key(httpMethod, endpoint);
        && metrics == Recorded(old(metrics), key, Sample(statusCode, responseTime, now))
        && samples == old(samples)[key := HistoryOf(old(samples), key) + [Sample(statusCode, responseTime, now)]]
      ensures var key := Key(httpMethod, endpoint); var before := RecordOf(old(metrics), key);
        && key in metrics.entries
        && metrics.entries[key].count == before.count + 1
        && metrics.entries[key].totalTime == before.totalTime + responseTime
        && metrics.entries[key].errors == (if statusCode >= 400 then before.errors + 1 else before.errors)
        && metrics.entries[key].lastAccess == Some(now)
        && metrics.entries[key].responseTimes == PushWindow(before.responseTimes, responseTime)
        && metrics.entries[key].errors <= metrics.entries[key].count
      ensures forall k :: k != Key(httpMethod, endpoint) ==> RecordOf(metrics, k) == RecordOf(old(metrics), k)
      ensures old(metrics.keys) <= metrics.keys
    {
      var key := Key(httpMethod, endpoint);
      var sample := Sample(statusCode, responseTime, now);
      RecordedConsistent(metrics, samples, key, sample);
      RecordedEffect(metrics, key, sample);
      metrics := Recorded(metrics, key, sample);
      samples := samples[key := HistoryOf(samples, key) + [sample]];
      ConsistentBounds(metrics, samples, key);
    }

    /**
     * `get_endpoint_metrics(endpoint)`: a non-empty filter looks up that
     * exact key and returns the raw record or nothing, without inserting;
     * otherwise one derived view per key, in key order.
     */
    method GetEndpointMetrics(endpoint: Option<string>) returns (r: EndpointQuery)
      requires Valid()
      ensures Truthy(endpoint) ==>
        r == RawRecord(if endpoint.value in metrics.entries then Some(metrics.entries[endpoint.value]) else None)
      ensures !Truthy(endpoint) ==> r.AllViews? && r.views == ViewsOf(metrics)
    {
      if Truthy(endpoint) {
        var e := endpoint.value;
        return RawRecord(if e in metrics.entries then Some(metrics.entries[e]) else None);
      }
      var views := CollectViews(metrics);
      return AllViews(views);
    }

    /**
     * `get_health_metrics()` at clock reading `now`. With no requests at
     * all the status expression divides by zero, so the call raises.
     */
    method GetHealthMetrics(now: nat) returns (r: Result<HealthMetrics>)
      requires Valid()
      ensures r.Failure? <==> SumCounts(metrics.Values()) == 0
      ensures r.Failure? ==> r.error == ZeroDivisionError && metrics.keys == []
      ensures r.Success? ==>
        && r.value.totalRequests == SumCounts(metrics.Values()) > 0
        && r.value.totalErrors == SumErrors(metrics.Values()) <= r.value.totalRequests
        && r.value.endpointsCount == |metrics.entries| == |metrics.keys|
        && r.value.uptimeSeconds == UptimeSeconds(startTime, now)
        && r.value.overallErrorRate == Ratio(r.value.totalErrors, r.value.totalRequests) <= 1.0
        && (r.value.serviceStatus == Healthy <==> 20 * r.value.totalErrors < r.value.totalRequests)
        && (r.value.serviceStatus == Degraded <==> 20 * r.value.totalErrors >= r.value.totalRequests)
        && r.value.serviceStatus == ServiceStatusOf(r.value.totalRequests, r.value.totalErrors)
    {
      var values := metrics.Values();
      var totalRequests := SumCounts(values);
      var totalErrors := SumErrors(values);
      forall i | 0 <= i < |values| ensures values[i].errors <= values[i].count {
        ConsistentBounds(metrics, samples, metrics.keys[i]);
      }
      SumErrorsAtMostSumCounts(values);
      if |values| > 0 {
        ConsistentBounds(metrics, samples, metrics.keys[0]);
        SumCountsZero(values, 0);
      }
      SizeIsKeyCount(metrics);
      var status := StatusAsWritten(totalRequests, totalErrors);
      if status.Failure? {
        return Failure(status.error);
      }
      StatusAgreesWhenDefined(totalRequests, totalErrors);
      r := Success(HealthMetrics(
        UptimeSeconds(startTime, now), totalRequests, totalErrors,
        Ratio(totalErrors, totalRequests), |metrics.entries|, status.value));
    }

    /**
     * `get_prometheus_metrics()` at clock reading `now`; `formatFloat`
     * stands for Python's printing of a float.
     */
    method GetPrometheusMetrics(now: nat, formatFloat: real -> string) returns (text: string)
      requires Valid()
      ensures Renderable(metrics, metrics.keys)
      ensures text == Join("\n", PrometheusLines(((now - startTime) as real) / (UnitsPerSecond as real), metrics, formatFloat))
    {
      var uptime := ((now - startTime) as real) / (UnitsPerSecond as real);
      var lines := RenderLines(uptime, metrics, formatFloat);
      text := Join("\n", lines);
    }
  }

  /** The loop of `get_endpoint_metrics` without a filter: one view per key, in key order. */
  method CollectViews(metrics: Dict<string, EndpointMetric>) returns (result: Dict<string, EndpointView>)
    requires metrics.Valid()
    ensures result == ViewsOf(metrics)
  {
    result := Empty();
    var i := 0;
    while i < |metrics.keys|
      invariant 0 <= i <= |metrics.keys|
      invariant MapsPrefix(metrics, result, i, ViewOf)
    {
      var key := metrics.keys[i];
      MapsPrefixStep(metrics, result, i, ViewOf);
      result := result.Put(key, ViewOf(metrics.entries[key]));
      i := i + 1;
    }
    MapsPrefixAll(metrics, result, ViewOf);
  }

  /** The loop of `get_prometheus_metrics`: the uptime block, then nine lines per key. */
  method RenderLines(uptime: real, metrics: Dict<string, EndpointMetric>, formatFloat: real -> string)
    returns (lines: seq<string>)
    requires Renderable(metrics, metrics.keys)
    ensures lines == PrometheusLines(uptime, metrics, formatFloat)
  {
    ghost var blocks := KeyBlocks(metrics, metrics.keys, formatFloat);
    lines := UptimeLines(uptime, formatFloat);
    var i := 0;
    while i < |metrics.keys|
      invariant 0 <= i <= |metrics.keys|
      invariant lines == UptimeLines(uptime, formatFloat) + Flatten(blocks[..i])
    {
      var key := metrics.keys[i];
      var block := KeyLines(key, metrics.entries[key], formatFloat);
      AppendBlock(UptimeLines(uptime, formatFloat), blocks, i, lines, block);
      lines := lines + block;
      i := i + 1;
    }
    assert blocks[..i] == blocks;
  }

  // ---------------------------------------------------------------------
  // The track_metrics decorator
  // ---------------------------------------------------------------------

  /** What a wrapped view function hands back. */
  datatype HandlerResult =
    | WithStatusCode(statusCode: int)   // an object with a `status_code` attribute (a Flask Response)
    | TupleResult(second: Option<int>)  // a tuple; `second` is its element 1 when it has at least two
    | OtherResult                       // anything else (a bare body)

  datatype HandlerOutcome = Returned(result: HandlerResult) | Raised

  /** The status code recorded for one call of a wrapped handler. */
  function RecordedStatus(outcome: HandlerOutcome): (code: int)
    ensures outcome == Raised ==> code == 500
    ensures outcome == Returned(OtherResult) ==> code == 200
    ensures outcome == Returned(TupleResult(None)) ==> code == 200
    ensures outcome.Returned? && outcome.result.WithStatusCode? ==> code == outcome.result.statusCode
    ensures outcome.Returned? && outcome.result.TupleResult? && outcome.result.second.Some? ==>
      code == outcome.result.second.value
  {
    match outcome
    case Raised => 500
    case Returned(WithStatusCode(c)) => c
    case Returned(TupleResult(Some(c))) => c
    case Returned(_) => 200
  }

  /** `request.endpoint or 'unknown'`: Flask's view name, when it has one. */
  function EndpointName(requestEndpoint: Option<string>): (e: string)
    ensures Truthy(requestEndpoint) ==> e == requestEndpoint.value
    ensures !Truthy(requestEndpoint) ==> e == "unknown"
  {
    if Truthy(requestEndpoint) then requestEndpoint.value else "unknown"
  }

  /**
   * One call of a view wrapped by `track_metrics(store)`: exactly one
   * request is recorded, under the view's name (not its URL path), and
   * the handler's result is returned or its exception re-raised.
   */
  method TrackMetrics(store: MetricsStore, requestEndpoint: Option<string>, httpMethod: string,
                      outcome: HandlerOutcome, responseTime: nat, now: nat)
    returns (r: HandlerOutcome)
    requires store.Valid()
    modifies store
    ensures store.Valid()
    ensures r == outcome
    ensures store.metrics == Recorded(old(store.metrics), Key(httpMethod, EndpointName(requestEndpoint)),
                                      Sample(RecordedStatus(outcome), responseTime, now))
  {
    var endpoint := EndpointName(requestEndpoint);
    match outcome {
      case Returned(result) =>
        var status := if result.WithStatusCode? then result.statusCode
                      else if result.TupleResult? && result.second.Some? then result.second.value
                      else 200;
        store.TrackRequest(endpoint, httpMethod, status, responseTime, now);
        r := outcome;
      case Raised =>
        store.TrackRequest(endpoint, httpMethod, 500, responseTime, now);
        r := Raised;
    }
  }
}
