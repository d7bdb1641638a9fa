/**
 * The per-key request record that both request trackers keep
 * (services/orders/features/metrics_service.py and analytics_service.py):
 * a counter, an error counter, a running duration sum, the last access
 * time and a bounded window of the most recent durations. Durations and
 * clock readings are natural numbers in one fixed unit (microseconds, say).
 */
module RequestRecord {
  import opened Wrappers
  import opened Dicts

  /** The `maxlen` of the duration deque. */
  const WindowCapacity: nat := 100

  /** What one `track_request` call is told: status code, duration and the clock reading taken inside it. */
  datatype Sample = Sample(statusCode: int, responseTime: nat, at: nat)

  datatype EndpointMetric = EndpointMetric(
    count: nat,
    totalTime: nat,
    errors: nat,
    lastAccess: Option<nat>,
    responseTimes: seq<nat>)

  /** The record the defaultdict factory creates for a key seen for the first time. */
  const NewMetric: EndpointMetric := EndpointMetric(0, 0, 0, None, [])

  /** A request counts as an error when its status code is 400 or above. */
  predicate IsError(statusCode: int) {
    statusCode >= 400
  }

  /** The metrics key of a request: `f"{method}:{endpoint}"`. */
  function Key(httpMethod: string, endpoint: string): (k: string)
    ensures ':' in k
  {
    assert (httpMethod + ":" + endpoint)[|httpMethod|] == ':';
    httpMethod + ":" + endpoint
  }

  /** The last `n` elements of `s` (all of them when there are fewer). */
  function LastN(s: seq<nat>, n: nat): (r: seq<nat>)
    ensures |r| == if |s| < n then |s| else n
    ensures r == s[|s| - |r|..]
  {
    if |s| <= n then s else s[|s| - n..]
  }

  /** `deque(maxlen=100).append(x)`: the oldest element is dropped when the window is full. */
  function PushWindow(w: seq<nat>, x: nat): (r: seq<nat>)
    ensures |r| <= WindowCapacity
  {
    if |w| < WindowCapacity then w + [x] else w[|w| + 1 - WindowCapacity..] + [x]
  }

  /** Pushing onto the window of a history gives the window of the longer history. */
  lemma PushWindowOfLast(s: seq<nat>, x: nat)
    ensures PushWindow(LastN(s, WindowCapacity), x) == LastN(s + [x], WindowCapacity)
  {
    if |s| >= WindowCapacity {
      var lo := |s| + 1 - WindowCapacity;
      var w := LastN(s, WindowCapacity);
      assert w[1..] == s[lo..];
      assert (s + [x])[lo..] == s[lo..] + [x];
    }
  }

  /** The body of `track_request` applied to one record. */
  function Track(m: EndpointMetric, s: Sample): EndpointMetric {
    EndpointMetric(
      m.count + 1,
      m.totalTime + s.responseTime,
      if IsError(s.statusCode) then m.errors + 1 else m.errors,
      Some(s.at),
      PushWindow(m.responseTimes, s.responseTime))
  }

  /** The record of a key after the given requests, oldest first. */
  function Replay(h: seq<Sample>): EndpointMetric
    decreases |h|
  {
    if h == [] then NewMetric else Track(Replay(h[..|h| - 1]), h[|h| - 1])
  }

  /** The durations of a history, oldest first. */
  function Durations(h: seq<Sample>): (ds: seq<nat>)
    ensures |ds| == |h|
    ensures forall i :: 0 <= i < |h| ==> ds[i] == h[i].responseTime
  {
    seq(|h|, i requires 0 <= i < |h| => h[i].responseTime)
  }

  lemma DurationsSnoc(h: seq<Sample>)
    requires h != []
    ensures Durations(h) == Durations(h[..|h| - 1]) + [h[|h| - 1].responseTime]
  {
    var init := h[..|h| - 1];
    assert forall i :: 0 <= i < |init| ==> init[i] == h[i];
  }

  function SumDurations(h: seq<Sample>): nat
    decreases |h|
  {
    if h == [] then 0 else SumDurations(h[..|h| - 1]) + h[|h| - 1].responseTime
  }

  function CountErrors(h: seq<Sample>): (n: nat)
    ensures n <= |h|
    decreases |h|
  {
    if h == [] then 0 else CountErrors(h[..|h| - 1]) + (if IsError(h[|h| - 1].statusCode) then 1 else 0)
  }

  /** The counters of a record after any sequence of requests. */
  lemma {:induction false} ReplayCounts(h: seq<Sample>)
    ensures Replay(h).count == |h|
    ensures Replay(h).errors == CountErrors(h)
    ensures Replay(h).totalTime == SumDurations(h)
    ensures Replay(h).lastAccess == if h == [] then None else Some(h[|h| - 1].at)
    decreases |h|
  {
    if h != [] {
      ReplayCounts(h[..|h| - 1]);
    }
  }

  /** The window of a record after any sequence of requests: its last 100 durations. */
  lemma {:induction false} ReplayWindow(h: seq<Sample>)
    ensures Replay(h).responseTimes == LastN(Durations(h), WindowCapacity)
    decreases |h|
  {
    if h != [] {
      var init := h[..|h| - 1];
      ReplayWindow(init);
      PushWindowOfLast(Durations(init), h[|h| - 1].responseTime);
      DurationsSnoc(h);
    }
  }

  /**
   * What a record holds after any sequence of requests: the number of
   * requests, the number with status >= 400 (hence errors <= count), the
   * sum of ALL durations, the last clock reading, and the last 100
   * durations only.
   */
  lemma ReplaySummary(h: seq<Sample>)
    ensures Replay(h).count == |h|
    ensures Replay(h).errors == CountErrors(h) <= Replay(h).count
    ensures Replay(h).totalTime == SumDurations(h)
    ensures Replay(h).lastAccess == if h == [] then None else Some(h[|h| - 1].at)
    ensures Replay(h).responseTimes == LastN(Durations(h), WindowCapacity)
    ensures |Replay(h).responseTimes| <= WindowCapacity
  {
    ReplayCounts(h);
    ReplayWindow(h);
  }

  /** The record stored under `key`, or the one the defaultdict would create. */
  function RecordOf(d: Dict<string, EndpointMetric>, key: string): EndpointMetric {
    if key in d.entries then d.entries[key] else NewMetric
  }

  /** The history behind `key` (empty for a key never seen). */
  function HistoryOf(samples: map<string, seq<Sample>>, key: string): seq<Sample> {
    if key in samples then samples[key] else []
  }

  /**
   * The invariant of a tracker's table: it is a valid dict, every key has
   * the `method:endpoint` shape, and each record is exactly what its
   * (non-empty) history of requests produces.
   */
  ghost predicate Consistent(d: Dict<string, EndpointMetric>, samples: map<string, seq<Sample>>) {
    && d.Valid()
    && samples.Keys == d.entries.Keys
    && forall k :: k in d.entries ==> ':' in k && samples[k] != [] && d.entries[k] == Replay(samples[k])
  }

  /** `self.metrics[key]` updated by one `track_request`; a new key is appended. */
  function Recorded(d: Dict<string, EndpointMetric>, key: string, s: Sample): Dict<string, EndpointMetric>
    requires d.Valid()
  {
    d.Put(key, Track(RecordOf(d, key), s))
  }

  /** Recording changes the record under `key` only, and only appends keys. */
  lemma RecordedEffect(d: Dict<string, EndpointMetric>, key: string, s: Sample)
    requires d.Valid()
    ensures key in Recorded(d, key, s).entries
    ensures Recorded(d, key, s).entries[key] == Track(RecordOf(d, key), s)
    ensures forall k :: k != key ==> RecordOf(Recorded(d, key, s), k) == RecordOf(d, k)
    ensures d.keys <= Recorded(d, key, s).keys
  {
  }

  lemma ReplaySnoc(h: seq<Sample>, s: Sample)
    ensures Replay(h + [s]) == Track(Replay(h), s)
  {
    assert (h + [s])[..|h|] == h;
  }

  /** Recording keeps the table consistent with the extended history. */
  lemma RecordedConsistent(d: Dict<string, EndpointMetric>, samples: map<string, seq<Sample>>, key: string, s: Sample)
    requires Consistent(d, samples) && ':' in key
    ensures Consistent(Recorded(d, key, s), samples[key := HistoryOf(samples, key) + [s]])
  {
    var h0 := HistoryOf(samples, key);
    var h := h0 + [s];
    assert RecordOf(d, key) == Replay(h0);
    ReplaySnoc(h0, s);
    var m := Track(RecordOf(d, key), s);
    var d', samples' := Recorded(d, key, s), samples[key := h];
    assert d'.entries == d.entries[key := m];
    forall k | k in d'.entries
      ensures ':' in k && samples'[k] != [] && d'.entries[k] == Replay(samples'[k])
    {
      if k != key {
        assert k in d.entries;
        assert d'.entries[k] == d.entries[k] && samples'[k] == samples[k];
      } else {
        assert d'.entries[k] == m && samples'[k] == h;
      }
    }
  }

  /**
   * Every record of a consistent table has seen at least one request, has
   * no more errors than requests and holds at most 100 durations.
   */
  lemma ConsistentBounds(d: Dict<string, EndpointMetric>, samples: map<string, seq<Sample>>, k: string)
    requires Consistent(d, samples) && k in d.entries
    ensures 1 <= d.entries[k].count
    ensures d.entries[k].errors <= d.entries[k].count
    ensures 1 <= |d.entries[k].responseTimes| <= WindowCapacity
  {
    ReplaySummary(samples[k]);
  }

  /** Clock and duration readings are in microseconds. */
  const UnitsPerSecond: nat := 1_000_000

  /** `a / b if b > 0 else 0`. */
  function Ratio(a: nat, b: nat): (r: real)
    ensures b == 0 ==> r == 0.0
    ensures 0.0 <= r
    ensures a <= b ==> r <= 1.0
  {
    if b > 0 then (a as real) / (b as real) else 0.0
  }

  /** A nonzero ratio times its denominator is its numerator. */
  lemma RatioScales(a: nat, b: nat)
    requires b > 0
    ensures Ratio(a, b) * (b as real) == a as real
  {
  }

  function SumCounts(ms: seq<EndpointMetric>): nat
    decreases |ms|
  {
    if ms == [] then 0 else SumCounts(ms[..|ms| - 1]) + ms[|ms| - 1].count
  }

  function SumErrors(ms: seq<EndpointMetric>): nat
    decreases |ms|
  {
    if ms == [] then 0 else SumErrors(ms[..|ms| - 1]) + ms[|ms| - 1].errors
  }

  /** Summing per-record bounds: total errors never exceed total requests. */
  lemma {:induction false} SumErrorsAtMostSumCounts(ms: seq<EndpointMetric>)
    requires forall i :: 0 <= i < |ms| ==> ms[i].errors <= ms[i].count
    ensures SumErrors(ms) <= SumCounts(ms)
    decreases |ms|
  {
    if ms != [] {
      SumErrorsAtMostSumCounts(ms[..|ms| - 1]);
    }
  }

  /** The total is zero only when every record has count zero. */
  lemma {:induction false} SumCountsZero(ms: seq<EndpointMetric>, i: nat)
    requires i < |ms| && ms[i].count >= 1
    ensures SumCounts(ms) >= 1
    decreases |ms|
  {
    if i < |ms| - 1 {
      SumCountsZero(ms[..|ms| - 1], i);
    }
  }

  /** `int(timedelta.total_seconds())`: truncation toward zero, also for a clock that went back. */
  function UptimeSeconds(startTime: nat, now: nat): (s: int)
    ensures now >= startTime ==> s * (UnitsPerSecond as int) <= now - startTime < (s + 1) * (UnitsPerSecond as int)
    ensures now < startTime ==> s <= 0
  {
    var diff := now - startTime;
    if diff >= 0 then diff / UnitsPerSecond else -((-diff) / UnitsPerSecond)
  }

}
